# copy_trade: a verified model of the trade-mirroring pipeline

copy_trade mirrors the trades of a "master" broker account onto "client"
accounts at other brokers. Three producer scripts (mpo.py for PocketOption,
mdr.py for Deriv, miq.py for IQ Option) poll the master account's open
positions. Each writes one line per position it has not seen before to a
shared text file, `orders.log`:

    - Time: <now> Stamp: <int timestamp> ID: <short id> Asset: <asset> Amount: <amount> Direction: <dir> Duration: <secs>

Four consumer scripts (cqu.py for Quotex, cpo.py, cdr.py and ciq.py) read the
whole log on every cycle. They match each line against that pattern, turn the
matches into order records and start one buy per record. A record is started
only when its ID has not been started before and its stamp is less than 15
seconds old. Most scripts also supervise their broker connection:

- cqu.py, cpo.py and ciq.py run a health check on every 30th cycle. When the
  connection is down, they reconnect until it is back.
- mpo.py and miq.py do the same, but only on a cycle with no open position.
- mdr.py probes the connection on every cycle. On every 30th cycle it
  re-authorises once, and a failed probe or re-authorisation sets the counter
  to 31 so the next cycle checks again (mdr.py:75-92, mdr.py:126-129).
- cdr.py has no health check; its `cnt` (cdr.py:151) is never used.

This project models that pipeline in Dafny and proves what the scripts
promise:

- **The log-line grammar** (`grammar.dfy`). A hand-written matcher for the
  consumers' regular expression, with both separator variants: exactly one
  space, or `\s+`.
- **Reading the log** (`eventlog.dfy`). Unmatched lines are skipped, matches
  are converted with `int()` / `int(float())`, and the first conversion that
  raises ends the read.
- **Admission** (`admission.dfy`, `dispatch.dfy`). The seen-list that the
  producers and consumers use to log or start each ID once. The consumers and
  mdr.py (mdr.py:113) also require the position to be less than 15 seconds
  old; mpo.py (mpo.py:121) and miq.py (miq.py:76) check the seen-list only.
- **Connection supervision** (`supervision.dfy`). The 30-cycle counter, the
  retry-until-connected loops, and cqu.py's bounded retry and its
  `ensure_connection` guard.
- **One module per script.** These are `consumer_quotex.dfy`,
  `consumer_pocket.dfy`, `consumer_deriv.dfy`, `consumer_iq.dfy`,
  `producer_pocket.dfy`, `producer_deriv.dfy` and `producer_iq.dfy`. Each
  holds its parser settings, its order translation and its main loop. The
  main loop is a class whose fields are the script's lists and counter, and
  whose `Cycle` method is one pass of the `while True` loop.
- **The pipeline end to end** (`mirroring.dfy`). The line a producer appends
  is read back by the matching consumer as exactly the position the producer
  saw. A position logged once is started once.

Values the scripts take from the outside world are parameters of the model:
the broker's answers, the clock, the contents of `orders.log`, and the result
of each connection probe. Where a script loops forever waiting for a
reconnection, the model watches a finite sequence of probe results `after`.
`Cycle` then reports `Reconnecting` / `Stalled` when the loop has not
finished within that horizon.

Behaviour of the code that the model makes explicit:

- **IDs are marked seen only when logged or started.** An ID is marked seen
  only when its line is written (mdr.py:111-122) or its order is started
  (cqu.py:552-563, cpo.py:156-157, cdr.py:165-166, ciq.py:141-142). A
  position that is already too old when first seen is not marked seen, so it
  is looked at again on later cycles. See `ProducerDeriv.LoggedIff` and
  `Dispatch.DispatchRule`.
- **`keep_dgt` is not idempotent in general.** It is idempotent only when
  the replacement is a fixed point of itself: the empty string mpo.py uses,
  one non-digit character, or digits. `keep_dgt("x", "ab")` is `"ab"`, and
  applying it again gives `"abab"`.
- **`str.replace` makes one left-to-right pass.** Removing every `-op` from
  `"--opop"` leaves `"-op"` (miq.py:92). The same holds for `frx` in
  `"ffrxrx"` (mdr.py:115).
- **miq.py's `duration_new` persists across trades.** It is a module-level
  variable. A non-blitz trade longer than every expiration bucket is logged
  with the previous trade's duration. If no trade has set a duration yet, the
  `print` raises `NameError` and the rest of that cycle's trades are skipped.
  The handler at miq.py:105-107 catches it.
- **A Deriv contract can be queued more than once.** mdr.py appends the
  current open contract to `ListTrade` on every cycle until its ID is
  logged, so the list can hold it several times.

## Model

| member | source | states |
|---|---|---|
| Text.LowerProperties | cqu.py:66 | `lower()` is idempotent, keeps word characters word characters and leaves no upper-case letter |
| Text.Last8Split | mpo.py:117 | `s[-8:]` is a suffix of `s`: `s` is what precedes it followed by it |
| Text.Last8Digits | mpo.py:117 | the last eight characters of a digit string are digits |
| Text.ReplaceAbsent | mdr.py:115 | `str.replace` leaves a string without the pattern unchanged |
| Text.ReplaceRemovesAll | ciq.py:39 | replacing `_otc` by `-OTC` (a replacement sharing no character with the pattern) leaves no `_otc` |
| Text.ReplaceCreatesNothing | miq.py:91-92 | a replacement creates no occurrence of a string that cannot start inside it or meet its first character |
| Text.ReplaceInverse | ciq.py:39 | replacing `a` by `b` then `b` by `a` restores a text holding no `b` of its own |
| Text.ReplaceKeepsAssetChars | miq.py:91-92 | replacing by `[\w-]` characters keeps a `[\w-]` string one |
| Text.RemovalCanRecreateFrx | mdr.py:115 | removing every `frx` from `"ffrxrx"` leaves `"frx"` |
| Text.RemovalCanRecreate | miq.py:92 | removing every `-op` from `"--opop"` leaves `"-op"` |
| Text.NatText | mpo.py:123 | `str(n)` of a natural is a non-empty string of digits |
| Text.NatTextValue | cqu.py:62 | `int(str(n)) == n` |
| Text.SuffixValue | mdr.py:112 | `int(s[-8:])` of a digit string is `int(s) % 10**8` |
| Grammar.Run | cqu.py:55 | a character class run is the longest prefix of that class |
| Grammar.TokenStable | cqu.py:55 | a valid token followed by whitespace or the end of the line is matched whole |
| Grammar.NatTextToken | mpo.py:123 | a printed integer stamp or ID is a token `\d+\.?\d*` matches whole |
| Grammar.NumeralDigits | cqu.py:62-63 | a matched numeral without a `.` is a string of digits |
| Grammar.ClassToken | cqu.py:55 | a non-empty `\w` (or `[\w-]`) string is a token its field matches whole |
| Grammar.MatchJoined | cpo.py:15-18 | fields laid out with acceptable separators are matched back token for token |
| Grammar.SearchSkips | cqu.py:54 | `re.search` moves past positions where the pattern does not match |
| Grammar.SearchPrefix | cqu.py:54 | a prefix at none of whose positions the pattern matches does not change the search |
| Grammar.NoMatchWithoutS | cqu.py:55 | the pattern only matches at a position holding `S` |
| Grammar.SearchSkipsText | cqu.py:54-57 | free text without an `S` before `Stamp:` is ignored |
| Grammar.FieldsFound | cqu.py:54-57 | after such text, the six fields are found and give back exactly the tokens written |
| Grammar.LogLineRoundTrip | mpo.py:123 | a producer's log line is read back by either consumer grammar as the fields it was written from |
| Grammar.OneSpaceRejectsOtherGaps | cpo.py:15-18 | with the one-space pattern, any separator other than one space stops the match |
| Grammar.OneSpaceRejects | cpo.py:15-18 | the one-space pattern does not match six fields laid out with other whitespace |
| Grammar.WhitespaceTolerated | cqu.py:55 | the `\s+` pattern matches fields separated by any whitespace |
| EventLog.NumeralInt | cqu.py:62-63 | on a numeral matched by `\d+\.?\d*`, `int()` succeeds iff it holds no `.`, and then gives the value of its digits |
| EventLog.PyIntNumerals | cqu.py:62-63 | `int()` reads back `str(n)` and raises `ValueError` on a numeral holding a `.` |
| EventLog.TruncateNumerals | cqu.py:67 | `int(float(t))` of `str(n)` with or without a fractional part is `n` |
| EventLog.MatchesBound | cqu.py:52-70 | there is at most one match per line |
| EventLog.MatchesAppend | cqu.py:53-68 | the matches of two stretches of a file are those of each, in file order |
| EventLog.SkippedLine | cqu.py:59 | a line without a match contributes nothing, wherever it stands |
| EventLog.MatchedLine | cqu.py:59-68 | a line with a match contributes exactly its captures |
| EventLog.ConvertAllMeaning | cqu.py:60-68 | the read succeeds iff every match converts; then one record per match, in order; otherwise the error of the first failing match |
| EventLog.ErrorPersists | cqu.py:60-68 | once a conversion has raised, later lines do not change the outcome |
| EventLog.ParseSnoc | cqu.py:53-68 | a line appended to a readable log adds exactly the record of its match, or nothing |
| EventLog.ReadRecords | cqu.py:52-68 | the per-line loop returns what the line-by-line specification `Parse` gives |
| Admission.AdmitMeaning | cqu.py:550-563 | a candidate is taken iff it passes the check, its key was not seen and no earlier passing candidate has its key; the seen-list grows by exactly the taken keys |
| Admission.SeenGrows | cqu.py:563 | the seen-list only grows |
| Admission.EligibleSeen | cqu.py:552-563 | after the pass every candidate that passed the check has its key in the seen-list |
| Admission.TakenDistinct | cqu.py:552-563 | the keys taken in one pass are distinct and none was seen before |
| Admission.LifetimeOnce | cqu.py:511-563 | over all cycles of a process no key is taken twice |
| Admission.AdmitAll | cqu.py:550-565 | the admission loop computes the pass `Admit` |
| Dispatch.DispatchRule | cpo.py:155-157 | record `i` is started iff its ID is unseen, `now - int(stamp) < 15` and no earlier fresh record of the read has its ID; the seen-list grows by the started IDs |
| Dispatch.StartedOnce | cdr.py:164-166 | within one cycle no ID is started twice, and none started in an earlier cycle |
| Supervision.CounterPeriodic | cpo.py:127-129 | from a fresh start the counter is the cycle number modulo 30 |
| Supervision.EveryThirtieth | ciq.py:112-114 | the health check runs on cycles 30, 60, 90, ... and no other |
| Supervision.BusyDefers | mpo.py:89-91 | while orders stay open the counter keeps growing and no check runs |
| Supervision.DeferredCheck | mpo.py:89-91 | a check that falls due while orders are open is deferred: after busy cycles bringing the counter to 30, the first cycle with nothing open checks and resets the counter to 0 |
| Supervision.FirstTrue | cpo.py:140 | the first probe that reports connected |
| Supervision.FailuresThenSuccess | cpo.py:140-146 | K failed probes then a good one: the loop ends after K + 1 reconnections |
| Supervision.ReconnectLoop | cpo.py:133-147 | the reconnect loop exits exactly at the first probe reporting connected, after that many reconnections |
| Supervision.ConnectWithRetry | cqu.py:119-146 | `connect` is called at most n + 1 times; success is returned at the first successful call; failure only when every call failed, with the last reason |
| Supervision.EnsureConnection | cqu.py:72-95 | no client raises; a live connection proceeds at once; otherwise the operation proceeds iff the bounded retry succeeds |
| ConsumerQuotex.ToTradeErrors | cqu.py:60-63 | a match converts iff neither stamp nor ID holds a `.`; the stamp's error is raised first |
| ConsumerQuotex.ToTradeReadsBack | cqu.py:60-68 | printed integers come back as those integers and the direction lowercased |
| ConsumerQuotex.ReadTradesFromLog | cqu.py:44-70 | a missing file gives no trades; otherwise the trades of the `\s+` grammar |
| ConsumerQuotex.Client.constructor | cqu.py:504-505 | `ListTrade` empty, counter 0 |
| ConsumerQuotex.Client.Cycle | cqu.py:511-565 | a read error ends the process; otherwise the counter steps; a failed check waits for reconnection; fresh unseen trades are started and their IDs recorded |
| ConsumerPocket.ToOrderMeaning | cpo.py:21-28 | a match converts iff its ID has no `.`; the direction is CALL iff the word lowercased is `call` |
| ConsumerPocket.ToOrderReadsBack | cpo.py:22-27 | a stamp is read as its integer part, with or without a fraction |
| ConsumerPocket.ReadOrdersFromFile | cpo.py:10-29 | a missing file raises; otherwise the orders of the one-space grammar |
| ConsumerPocket.Verdict | cpo.py:45-48 | placed iff a result came back and its status is not `"error"` |
| ConsumerPocket.Client.constructor | cpo.py:116-117 | `ListOrder` empty, counter 0 |
| ConsumerPocket.Client.Cycle | cpo.py:118-165 | the same cycle as Quotex, with `is_connected` as the probe |
| ConsumerDeriv.ToOrderMeaning | cdr.py:43-50 | a match converts iff its ID has no `.`; the direction is `"CALL"` iff the word lowercased is `call`, else `"PUT"` |
| ConsumerDeriv.ReadOrdersFromFile | cdr.py:32-51 | a missing file raises; otherwise the orders of the one-space grammar |
| ConsumerDeriv.FirstContaining | cdr.py:60-68 | the first index symbol containing the asset |
| ConsumerDeriv.FindAsset | cdr.py:59-71 | the lookup loop: the first containing symbol; no match leaves `pk` False; an empty index leaves it unbound |
| ConsumerDeriv.Buy | cdr.py:25-28 | `(contract_id, True)` iff the contract ID is truthy, else `(None, False)` |
| ConsumerDeriv.ExecuteOrder | cdr.py:53-90 | a buy is attempted iff some symbol contains the asset, on the first such; reported placed iff the contract ID is truthy |
| ConsumerDeriv.Startup | cdr.py:122-134 | an empty token exits before connecting; polling starts iff the token is set and accounts are listed |
| ConsumerDeriv.Client.constructor | cdr.py:150 | `ListOrder` empty |
| ConsumerDeriv.Client.Cycle | cdr.py:152-174 | a read error ends the process; otherwise fresh unseen orders are started and their IDs recorded |
| ConsumerIq.ToOrderMeaning | ciq.py:22-29 | a match converts iff its ID has no `.`; the direction is the lowercased word |
| ConsumerIq.ReadOrdersFromFile | ciq.py:11-30 | a missing file raises; otherwise the orders of the one-space grammar |
| ConsumerIq.TranslateMeaning | ciq.py:37-43 | over 300 s: a digital buy of the same length in minutes; otherwise a blitz buy in seconds; no `_otc` remains |
| ConsumerIq.OrderDict.constructor | ciq.py:22-29 | the order dict holds the record's fields |
| ConsumerIq.ExecuteOrder | ciq.py:32-52 | the dict's duration and asset are rewritten in place, the translated call is placed, reported placed iff the answer is not `False` |
| ConsumerIq.Client.constructor | ciq.py:101-102 | `ListOrder` empty, counter 0 |
| ConsumerIq.Client.Cycle | ciq.py:103-147 | the same cycle as Quotex, with `check_connect()` as the probe |
| ProducerPocket.KeepDigitsOnDigits | mpo.py:26-28 | digits are kept where they stand |
| ProducerPocket.DigitsOnly | mpo.py:26-28 | with `''` only the digits remain, in input order |
| ProducerPocket.OneCharReplacement | mpo.py:13-29 | with a one-character replacement the length is kept and digits stay in place |
| ProducerPocket.IdempotentIff | mpo.py:26-28 | `keep_dgt` with a fixed replacement is idempotent iff the replacement is a fixed point of itself |
| ProducerPocket.Idempotent | mpo.py:28 | for such a replacement, applying it twice is applying it once |
| ProducerPocket.FixedReplacements | mpo.py:116 | `''`, one non-digit character, or digits are such replacements |
| ProducerPocket.NotIdempotent | mpo.py:13 | `keep_dgt` with `"ab"` is not idempotent |
| ProducerPocket.OrderKeyMeaning | mpo.py:116-117 | the short ID is a suffix of at most 8 characters of the order ID's digits |
| ProducerPocket.EntryReadsBack | mpo.py:123 | the entry is found by both consumer grammars with the fields written |
| ProducerPocket.LoggedIff | mpo.py:121-127 | an order is logged iff its short ID was not logged before; `ListOrder` grows by exactly the logged IDs |
| ProducerPocket.NewPass | mpo.py:114-128 | the loop over the open orders computes that pass and its lines |
| ProducerPocket.Master.constructor | mpo.py:78-79 | `ListOrder` empty, counter 0 |
| ProducerPocket.Master.LogNew | mpo.py:114-128 | the pass is committed: `ListOrder` and `orders.log` grow by the new IDs and their lines |
| ProducerPocket.Master.Cycle | mpo.py:80-131 | the counter steps (checks only with nothing open); a failed check waits; otherwise the new orders are logged |
| ProducerDeriv.IdtMeaning | mdr.py:112 | `str(contract_id)[-8:]` is the last eight digits; `int()` of it is the ID modulo 10^8 |
| ProducerDeriv.UnderlyingMeaning | mdr.py:115 | an underlying without `frx` is kept; removal keeps asset characters |
| ProducerDeriv.EntryReadsBack | mdr.py:118 | the entry is found by both consumer grammars with the fields written |
| ProducerDeriv.CollectedMeaning | mdr.py:104-107 | `ListTrade` grows by the open contract exactly when its short ID is not in `lt` |
| ProducerDeriv.AppendedRepeatedly | mdr.py:104-107 | until it is logged the same contract is appended on every cycle |
| ProducerDeriv.LoggedIff | mdr.py:111-122 | logged iff the short ID is not in `lt` and `int(now) - date_start < 15`; `lt` grows by exactly the logged IDs; no ID logged twice |
| ProducerDeriv.RecentPass | mdr.py:110-125 | the loop computes that pass, rewrites the logged contracts' underlying and writes their lines |
| ProducerDeriv.RecheckForced | mdr.py:75-92 | the counter is forced to 31 exactly on a failed reauthorisation or probe, and the next cycle checks |
| ProducerDeriv.Master.constructor | mdr.py:70-72 | `lt`, `ListTrade` empty, counter 0 |
| ProducerDeriv.Master.LogRecent | mdr.py:110-125 | the pass is committed to `lt`, `ListTrade` and `orders.log` |
| ProducerDeriv.Master.Cycle | mdr.py:73-130 | a failed probe changes nothing but the counter; otherwise the open contract is collected and the recent ones logged |
| ProducerIq.IdtMeaning | miq.py:74-75 | the short ID is the last at most eight digits; `int()` of it is the ID modulo 10^8 |
| ProducerIq.FirstBucket | miq.py:80-85 | the first bucket with more time left than the duration |
| ProducerIq.SelectBucket | miq.py:80-85 | the loop sets 60 x that bucket's minutes, or keeps the previous value when none qualifies |
| ProducerIq.NewDurationMeaning | miq.py:80-90 | blitz keeps its own duration; else the first qualifying bucket; else the previous value; unset only when none existed |
| ProducerIq.AssetMeaning | miq.py:91-92 | a name with neither marker is kept; no `-OTC` survives the rename; asset characters are kept |
| ProducerIq.AssetCanKeepOp | miq.py:92 | `"--opop"` is logged as `"-op"` |
| ProducerIq.EntryReadsBack | miq.py:94 | the entry is found by both consumer grammars with the fields written |
| ProducerIq.AbortStops | miq.py:105-107 | after the exception the remaining trades of the cycle change nothing |
| ProducerIq.AbortAt | miq.py:105-107 | an exception at one trade is the outcome of the whole loop |
| ProducerIq.SweptGrows | miq.py:94-100 | `ListTrade`, the lines and the deletions grow together, each extending its old value, one entry of each per logged trade |
| ProducerIq.SweptLinked | miq.py:94-100 | the k-th short ID added to `ListTrade`, the k-th deletion and the k-th line written all belong to the same trade of the loop |
| ProducerIq.SweptDistinct | miq.py:76 | no short ID enters `ListTrade` twice |
| ProducerIq.SweptCovers | miq.py:76-99 | a loop not ended by the exception leaves every trade's short ID in `ListTrade` |
| ProducerIq.NoAbortOnceSet | miq.py:80-93 | once `duration_new` exists, no trade can end the loop |
| ProducerIq.StaleDuration | miq.py:80-94 | a non-blitz trade longer than every bucket is logged with the previous duration |
| ProducerIq.Master.constructor | miq.py:37-38 | `ListTrade` empty, counter 0, no `duration_new` |
| ProducerIq.Master.LogTrades | miq.py:71-102 | the loop over the open trades computes `Swept` and commits it |
| ProducerIq.Master.Cycle | miq.py:39-107 | the counter steps (checks only with nothing open); a failed check waits; every cycle that does not stall polls, logging the trades by `Swept` |
| Mirroring.PocketOrder | cpo.py:21-28 | the order cpo.py reads for a PocketOption position: the short ID's value, the stamp, CALL iff the direction lowercased is `call` |
| Mirroring.PocketConverts | cpo.py:21-28 | mpo.py's fields convert without error into that order |
| Mirroring.PocketMirrored | mpo.py:123-125 | appending mpo.py's line makes cpo.py read exactly one more order, the one observed |
| Mirroring.PocketReadByQuotex | cqu.py:52-68 | the same line read by cqu.py gives the same position with the direction lowercased |
| Mirroring.DerivOrder | cdr.py:43-50 | the order cdr.py reads for a Deriv contract: ID modulo 10^8, the renamed underlying, duration `date_expiry - date_start`, and `"CALL"` iff the contract type lowercased is `call`, else `"PUT"` |
| Mirroring.DerivMirrored | mdr.py:118-120 | appending mdr.py's line makes cdr.py read exactly one more order, the contract logged |
| Mirroring.IqOrder | ciq.py:22-29 | the order ciq.py reads for an IQ Option trade: ID modulo 10^8, direction lowercased |
| Mirroring.IqMirrored | miq.py:94-97 | appending miq.py's line makes ciq.py read exactly one more order, the trade logged |
| Mirroring.OtcRoundTrip | ciq.py:39 | ciq.py's `_otc` to `-OTC` rename undoes miq.py's `-OTC` to `_otc` rename |
| Mirroring.DispatchedOnce | cpo.py:155-157 | a fresh record is started on its first read and never on a later one |
| Mirroring.OnePosition | cpo.py:152-165 | one position logged by mpo.py at t0 + 1 is started by cpo.py at t0 + 3 and not again at t0 + 5 |

## Left out

- Broker SDK calls (connect, buy, balances, proposals, open positions) are not modelled. Their answers are parameters: the open positions, contract ID, result status, probe results, and `connect` outcomes as a function of the attempt number.
- Threads, `asyncio` futures and sleeps are not modelled. Admission and the start of each task are sequential, and a started order is the record handed to the thread.
- File and clock I/O are not modelled. `orders.log` is a sequence of lines (`None` when missing); `datetime.now()` is a time text and an integer stamp passed in; `now` is a real.
- A producer pass uses one time text, one stamp and one bucket table for all of its lines. The code calls `datetime.now()` again for every line (mpo.py:123, mdr.py:118, miq.py:94), and miq.py re-reads `get_remaning_time(datetime.now().timestamp())` for every trade (miq.py:78).
- Console output and reading credentials from `settings/accounts.json` by line index are not modelled. mdr.py's module-level empty-token exit (mdr.py:41-42) is not modelled; cdr.py's identical check is `ConsumerDeriv.Startup`.
- EventLog.PyInt: models Python's `int()` only on the captured numerals (digits with at most one `.`); the signs, surrounding whitespace, underscores and Unicode digits `int()` also accepts never reach it.
- Float parsing and formatting are not modelled. `Amount` is kept as its matched text; `float(stamp)` followed by `int()` is the integer part of the digits; `order["duration"] / 60` is exact real division.
- `\d`, `\w`, `\s` and `lower()` are their ASCII meanings; Unicode digits, letters and case mapping are left out.
- mdr.py's `test_connection` socket check is a boolean parameter, and `expiration.get_remaning_time` is an input list of buckets.
- cqu.py's reporting methods (candles, asset status, payment info, prices, signals), pyquotex/http/login.py and pocketoptionapi_async/constants.py are not part of this model.
- The loops that wait forever for a reconnection are observed over a finite sequence of probe results. A cycle that has not reconnected within it ends as `Reconnecting` / `Stalled`.
- A producer's appends inside one pass are modelled as one append of the pass's lines at the end of the pass. No other writer runs in between.
- Exceptions raised by SDK calls inside a producer pass are not modelled: `get_active_orders` (mpo.py:85) and `delete_order_result` (mpo.py:128), and `proposal_open_contract` (mdr.py:99-100). In mpo.py such an exception is caught (mpo.py:132-135) and abandons the rest of the pass, so the remaining new orders wait for a later cycle. mdr.py catches only `APIError` (mdr.py:131-133), with the same effect. Any other exception, such as a `KeyError` on the broker's answer, leaves `main()` and ends the process with `sys.exit(1)` (mdr.py:146-149). The modelled pass always completes. miq.py's NameError is modelled (`ProducerIq.AbortAt`).
- cdr.py's per-order reauthorisation is not modelled; it is an SDK call whose answer does not enter the order. miq.py's `del_option_open_by_other_pc` calls are recorded as the list of deleted IDs.
- The round-trip lemmas (`*.EntryReadsBack`, `Mirroring.*Mirrored`) require the printed fields to be tokens of their kinds (`Printable`) and the time text to hold no `S`. A field the broker prints otherwise, such as an asset with a space, is not covered.
