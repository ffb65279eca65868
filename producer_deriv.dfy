/**
 * The Deriv producer (mdr.py): on each cycle it probes the connection, adds
 * the latest open contract to ListTrade unless its short ID was logged, then
 * logs every contract in ListTrade whose short ID was not logged and that
 * started less than 15 seconds ago. A failed probe or reauthorisation sets
 * the counter to 31 so that the next cycle checks again.
 */
module ProducerDeriv {
  import opened Wrappers
  import opened Text
  import opened Grammar
  import opened Admission
  import opened Supervision

  /** An open contract as proposal_open_contract reports it; the fields mdr.py reads. */
  datatype Contract = Contract(contractId: nat, dateStart: int, dateExpiry: int,
                               underlying: string, buyPrice: string, contractType: string)

  /** str(contract_id)[-8:]. */
  function Idt(c: Contract): string {
    Last8(NatText(c.contractId))
  }

  /** The ID the log carries: int(idt), which drops leading zeros (idt is always digits, see IdtMeaning). */
  function LoggedId(c: Contract): string {
    var t := Idt(c);
    if AllDigits(t) then NatText(DigitsValue(t)) else t
  }

  /** The short ID keeps the last eight digits of the contract ID; the logged ID is the contract ID modulo 10^8. */
  lemma IdtMeaning(c: Contract)
    ensures Idt(c) != [] && AllDigits(Idt(c)) && |Idt(c)| <= 8
    ensures c.contractId >= 10000000 ==> |Idt(c)| == 8
    ensures c.contractId < 100000000 ==> Idt(c) == NatText(c.contractId)
    ensures DigitsValue(Idt(c)) == c.contractId % 100000000
    ensures LoggedId(c) == NatText(c.contractId % 100000000)
  {
    var s := NatText(c.contractId);
    SuffixValue(s);
    NatTextValue(c.contractId);
    if c.contractId >= 10000000 {
      AtLeastEightDigits(c.contractId);
    } else {
      AtMostEightDigits(c.contractId);
    }
    if c.contractId < 100000000 {
      AtMostEightDigits(c.contractId);
    }
  }

  lemma {:induction false} AtLeastEightDigits(n: nat)
    requires n >= 10000000
    ensures |NatText(n)| >= 8
    decreases n
  {
    if n >= 100000000 {
      AtLeastEightDigits(n / 10);
    } else {
      Pow10Eight();
      DigitCount(n, 7);
    }
  }

  lemma AtMostEightDigits(n: nat)
    requires n < 100000000
    ensures |NatText(n)| <= 8
  {
    Pow10Eight();
    DigitCountBelow(n, 8);
  }

  /** A number of at least 10^k has more than k digits. */
  lemma {:induction false} DigitCount(n: nat, k: nat)
    requires n >= Pow10(k)
    ensures |NatText(n)| >= k + 1
    decreases k
  {
    if k > 0 {
      assert n / 10 >= Pow10(k - 1);
      DigitCount(n / 10, k - 1);
    }
  }

  /** A number below 10^k has at most k digits (k >= 1). */
  lemma {:induction false} DigitCountBelow(n: nat, k: nat)
    requires k >= 1 && n < Pow10(k)
    ensures |NatText(n)| <= k
    decreases k
  {
    if n >= 10 {
      assert Pow10(1) == 10;
      assert k >= 2;
      assert n / 10 < Pow10(k - 1);
      DigitCountBelow(n / 10, k - 1);
    }
  }

  /** trade['underlying'] with every "frx" removed. */
  function Underlying(c: Contract): string {
    Replace(c.underlying, "frx", "")
  }

  /** An underlying without "frx" is kept as it is; removal keeps asset characters asset characters. */
  lemma UnderlyingMeaning(c: Contract)
    ensures !Contains(c.underlying, "frx") ==> Underlying(c) == c.underlying
    ensures (forall i :: 0 <= i < |c.underlying| ==> IsAssetChar(c.underlying[i])) ==>
              forall i :: 0 <= i < |Underlying(c)| ==> IsAssetChar(Underlying(c)[i])
  {
    if !Contains(c.underlying, "frx") {
      ReplaceAbsent(c.underlying, "frx", "");
    }
    if forall i :: 0 <= i < |c.underlying| ==> IsAssetChar(c.underlying[i]) {
      ReplaceKeepsAssetChars(c.underlying, "frx", "");
    }
  }

  /** The duration logged: date_expiry - date_start. */
  function Duration(c: Contract): int {
    c.dateExpiry - c.dateStart
  }

  /** The fields of the entry logged for `c` at clock `stamp` (mdr.py:118). */
  function Entry(stamp: nat, c: Contract): Captures {
    Captures(NatText(stamp), LoggedId(c), Underlying(c), c.buyPrice, Lower(c.contractType), IntText(Duration(c)))
  }

  /** A contract whose printed fields are tokens of their kinds and that does not expire before it starts. */
  predicate Printable(c: Contract) {
    ValidToken(AssetName, Underlying(c)) && ValidToken(Numeral, c.buyPrice)
    && ValidToken(Word, Lower(c.contractType)) && c.dateExpiry >= c.dateStart
  }

  /** The entry for a printable contract is read back by both consumer grammars with the fields it was written with. */
  lemma EntryReadsBack(time: string, stamp: nat, c: Contract)
    requires TimeText(time) && Printable(c)
    ensures Search(LogLine(time, Entry(stamp, c)), OneSpace) == Some(Entry(stamp, c))
    ensures Search(LogLine(time, Entry(stamp, c)), Whitespace) == Some(Entry(stamp, c))
    ensures Entry(stamp, c).duration == NatText(Duration(c))
  {
    NatTextToken(stamp);
    NatTextToken(DigitsValue(Idt(c)));
    NatTextToken(Duration(c));
    LogLineRoundTrip(time, Entry(stamp, c), OneSpace);
    LogLineRoundTrip(time, Entry(stamp, c), Whitespace);
  }

  // ---------------------------------------------------------------------
  // ListTrade and lt

  /** mdr.py:104-107: the open contract is appended unless its short ID was logged already. */
  function Collected(listTrade: seq<Contract>, lt: seq<string>, poc: Option<Contract>): seq<Contract> {
    if poc.Some? && Idt(poc.value) !in lt then listTrade + [poc.value] else listTrade
  }

  /** ListTrade only grows, by the open contract exactly when its short ID was not logged. */
  lemma CollectedMeaning(listTrade: seq<Contract>, lt: seq<string>, poc: Option<Contract>)
    ensures |Collected(listTrade, lt, poc)| >= |listTrade|
    ensures Collected(listTrade, lt, poc)[..|listTrade|] == listTrade
    ensures |Collected(listTrade, lt, poc)| == |listTrade| + 1 <==> poc.Some? && Idt(poc.value) !in lt
    ensures |Collected(listTrade, lt, poc)| == |listTrade| + 1 ==> Collected(listTrade, lt, poc)[|listTrade|] == poc.value
  {
    if poc.Some? {
      assert (listTrade + [poc.value])[..|listTrade|] == listTrade;
    }
  }

  /** Until it is logged, the same open contract is appended again on every cycle. */
  lemma AppendedRepeatedly(listTrade: seq<Contract>, lt: seq<string>, c: Contract)
    requires Idt(c) !in lt
    ensures Collected(Collected(listTrade, lt, Some(c)), lt, Some(c)) == listTrade + [c, c]
  {
    assert listTrade + [c] + [c] == listTrade + [c, c];
  }

  /** A contract passes the check when int(time.time()) - int(date_start) < 15. */
  predicate Recent(nowInt: int, c: Contract) {
    nowInt - c.dateStart < 15
  }

  function TradeItems(listTrade: seq<Contract>, nowInt: int): seq<Item<string, Contract>> {
    seq(|listTrade|, i requires 0 <= i < |listTrade| => Item(Idt(listTrade[i]), Recent(nowInt, listTrade[i]), listTrade[i]))
  }

  /** The list after the loop: the contracts that were logged have their underlying rewritten in place (mdr.py:115). */
  function Stripped(listTrade: seq<Contract>, taken: seq<bool>): seq<Contract>
    requires |taken| == |listTrade|
  {
    seq(|listTrade|, i requires 0 <= i < |listTrade| =>
      if taken[i] then listTrade[i].(underlying := Underlying(listTrade[i])) else listTrade[i])
  }

  /** The list part-way through the loop: the first `i` contracts decided by `taken`, the rest as they were. */
  predicate StrippedUpTo(listTrade: seq<Contract>, taken: seq<bool>, i: nat, trades: seq<Contract>)
    requires |taken| == i <= |listTrade|
  {
    |trades| == |listTrade|
    && (forall j :: 0 <= j < i ==>
          trades[j] == if taken[j] then listTrade[j].(underlying := Underlying(listTrade[j])) else listTrade[j])
    && forall j :: i <= j < |trades| ==> trades[j] == listTrade[j]
  }

  /** The line written for a contract, with the clock as printed and as int(timestamp()). */
  function Writer(time: string, stamp: nat): Contract -> string {
    c => LogLine(time, Entry(stamp, c))
  }

  /** The lines written for the contracts picked in a cycle. */
  function Lines(time: string, stamp: nat, picked: seq<Item<string, Contract>>): seq<string> {
    Mapped(Writer(time, stamp), picked)
  }

  lemma StripStep(listTrade: seq<Contract>, taken: seq<bool>, i: nat, trades: seq<Contract>, b: bool)
    requires |taken| == i < |listTrade| && StrippedUpTo(listTrade, taken, i, trades)
    ensures trades[i] == listTrade[i]
    ensures StrippedUpTo(listTrade, taken + [b], i + 1,
                         if b then trades[i := trades[i].(underlying := Replace(trades[i].underlying, "frx", ""))] else trades)
  {
  }

  lemma StripDone(listTrade: seq<Contract>, taken: seq<bool>, trades: seq<Contract>)
    requires |taken| == |listTrade| && StrippedUpTo(listTrade, taken, |listTrade|, trades)
    ensures trades == Stripped(listTrade, taken)
  {
  }

  /** Where the loop over ListTrade stands after the first `i` contracts. */
  ghost predicate LoggedUpTo(list0: seq<Contract>, lt0: seq<string>, nowInt: int, time: string, stamp: nat,
                             i: nat, taken: seq<bool>, seen: seq<string>, written: seq<string>, trades: seq<Contract>)
  {
    |taken| == i <= |list0|
    && Scanned(TradeItems(list0, nowInt), lt0, Writer(time, stamp), i, taken, seen, written)
    && StrippedUpTo(list0, taken, i, trades)
  }

  /** Before the first turn of the loop. */
  lemma LoggedStart(list0: seq<Contract>, lt0: seq<string>, nowInt: int, time: string, stamp: nat)
    ensures LoggedUpTo(list0, lt0, nowInt, time, stamp, 0, [], lt0, [], list0)
  {
    var items := TradeItems(list0, nowInt);
    assert items[0..] == items && items[..0] == [];
    assert [] + Admit(items, lt0).taken == Admit(items, lt0).taken;
  }

  /** One turn of the loop keeps LoggedUpTo. */
  lemma LoggedStep(list0: seq<Contract>, lt0: seq<string>, nowInt: int, time: string, stamp: nat,
                   i: nat, taken: seq<bool>, seen: seq<string>, written: seq<string>, trades: seq<Contract>,
                   b: bool, seen': seq<string>, written': seq<string>, trades': seq<Contract>)
    requires i < |list0| && LoggedUpTo(list0, lt0, nowInt, time, stamp, i, taken, seen, written, trades)
    requires b == (Idt(trades[i]) !in seen && Recent(nowInt, trades[i]))
    requires seen' == if b then seen + [Idt(trades[i])] else seen
    requires written' == if b then written + [LogLine(time, Entry(stamp, trades[i]))] else written
    requires trades' == if b then trades[i := trades[i].(underlying := Replace(trades[i].underlying, "frx", ""))] else trades
    ensures LoggedUpTo(list0, lt0, nowInt, time, stamp, i + 1, taken + [b], seen', written', trades')
  {
    var items := TradeItems(list0, nowInt);
    StripStep(list0, taken, i, trades, b);
    assert items[i] == Item(Idt(trades[i]), Recent(nowInt, trades[i]), trades[i]);
    ScanStep(items, lt0, Writer(time, stamp), i, taken, seen, written, b, seen', written');
  }

  /** After the last turn, the loop's state is that of one admission pass over ListTrade. */
  lemma LoggedDone(list0: seq<Contract>, lt0: seq<string>, nowInt: int, time: string, stamp: nat,
                   taken: seq<bool>, seen: seq<string>, written: seq<string>, trades: seq<Contract>)
    requires LoggedUpTo(list0, lt0, nowInt, time, stamp, |list0|, taken, seen, written, trades)
    ensures seen == Admit(TradeItems(list0, nowInt), lt0).seen
    ensures trades == Stripped(list0, Admit(TradeItems(list0, nowInt), lt0).taken)
    ensures written == Lines(time, stamp, Picked(TradeItems(list0, nowInt), Admit(TradeItems(list0, nowInt), lt0).taken))
    ensures |written| == |Picked(TradeItems(list0, nowInt), Admit(TradeItems(list0, nowInt), lt0).taken)|
  {
    ScanDone(TradeItems(list0, nowInt), lt0, Writer(time, stamp), taken, seen, written);
    StripDone(list0, taken, trades);
  }

  /**
   * A contract of ListTrade is logged iff its short ID was not logged before and
   * it is recent; lt grows by exactly the logged short IDs, so a stale
   * contract's ID is not added, and no short ID is logged twice.
   */
  lemma LoggedIff(listTrade: seq<Contract>, nowInt: int, lt: seq<string>)
    ensures forall i :: 0 <= i < |listTrade| ==>
              (Admit(TradeItems(listTrade, nowInt), lt).taken[i] <==>
                 Idt(listTrade[i]) !in lt && Recent(nowInt, listTrade[i])
                 && forall j :: 0 <= j < i && Recent(nowInt, listTrade[j]) ==> Idt(listTrade[j]) != Idt(listTrade[i]))
    ensures Admit(TradeItems(listTrade, nowInt), lt).seen
         == lt + Keys(Picked(TradeItems(listTrade, nowInt), Admit(TradeItems(listTrade, nowInt), lt).taken))
    ensures forall x :: x in Picked(TradeItems(listTrade, nowInt), Admit(TradeItems(listTrade, nowInt), lt).taken) ==>
              Recent(nowInt, x.payload) && x.key == Idt(x.payload)
    ensures Distinct(Keys(Picked(TradeItems(listTrade, nowInt), Admit(TradeItems(listTrade, nowInt), lt).taken)))
    ensures forall k :: k in Keys(Picked(TradeItems(listTrade, nowInt), Admit(TradeItems(listTrade, nowInt), lt).taken)) ==> k !in lt
  {
    var items := TradeItems(listTrade, nowInt);
    var d := Admit(items, lt);
    assert forall i :: 0 <= i < |listTrade| ==>
             items[i].key == Idt(listTrade[i]) && items[i].ok == Recent(nowInt, listTrade[i]);
    AdmitMeaning(items, lt);
    TakenDistinct(items, lt);
    forall x | x in Picked(items, d.taken) ensures Recent(nowInt, x.payload) && x.key == Idt(x.payload) {
      PickedFrom(items, d.taken, x);
    }
  }

  /**
   * The body of the for loop over ListTrade (mdr.py:110-125), run over the list
   * and lt as they stand when the loop starts: the list with the logged
   * contracts' underlying rewritten, lt with their short IDs appended, and the
   * lines written, in order.
   */
  method RecentPass(list0: seq<Contract>, lt0: seq<string>, nowInt: int, time: string, stamp: nat)
    returns (trades: seq<Contract>, seen: seq<string>, written: seq<string>)
    ensures seen == Admit(TradeItems(list0, nowInt), lt0).seen
    ensures trades == Stripped(list0, Admit(TradeItems(list0, nowInt), lt0).taken)
    ensures written == Lines(time, stamp, Picked(TradeItems(list0, nowInt), Admit(TradeItems(list0, nowInt), lt0).taken))
    ensures |written| == |Picked(TradeItems(list0, nowInt), Admit(TradeItems(list0, nowInt), lt0).taken)|
  {
    trades, seen, written := list0, lt0, [];
    ghost var taken: seq<bool> := [];
    var i := 0;
    LoggedStart(list0, lt0, nowInt, time, stamp);
    while i < |trades|
      invariant |trades| == |list0|
      invariant LoggedUpTo(list0, lt0, nowInt, time, stamp, i, taken, seen, written, trades)
    {
      var trade := trades[i];
      var idt := Idt(trade);
      ghost var taken0, seen0, written0, trades0 := taken, seen, written, trades;
      var b := idt !in seen && nowInt - trade.dateStart < 15;
      if b {
        trades := trades[i := trade.(underlying := Replace(trade.underlying, "frx", ""))];
        written := written + [LogLine(time, Entry(stamp, trade))];
        seen := seen + [idt];
      }
      taken := taken + [b];
      LoggedStep(list0, lt0, nowInt, time, stamp, i, taken0, seen0, written0, trades0, b, seen, written, trades);
      i := i + 1;
    }
    LoggedDone(list0, lt0, nowInt, time, stamp, taken, seen, written, trades);
  }

  // ---------------------------------------------------------------------
  // The counter (mdr.py:75-92, mdr.py:126-129)

  /**
   * The counter after a cycle: the usual every-30th-cycle step, overridden by
   * 31 when the check's reauthorisation fails or the connectivity test fails.
   */
  function NextCount(cnt: nat, checkProbe: bool, authorized: bool, probe: bool): nat {
    var t := Step(cnt, true);
    if !probe || (t.check && checkProbe && !authorized) then 31 else t.cnt
  }

  /** The counter is forced to 31 exactly on a failure, and then the next cycle runs the check. */
  lemma RecheckForced(cnt: nat, checkProbe: bool, authorized: bool, probe: bool)
    ensures NextCount(cnt, checkProbe, authorized, probe) == 31 <==>
              !probe || (Step(cnt, true).check && checkProbe && !authorized)
    ensures NextCount(cnt, checkProbe, authorized, probe) == 31 ==> Step(NextCount(cnt, checkProbe, authorized, probe), true).check
    ensures NextCount(cnt, checkProbe, authorized, probe) != 31 ==> NextCount(cnt, checkProbe, authorized, probe) == Step(cnt, true).cnt
  {
  }

  // ---------------------------------------------------------------------
  // main()

  /** The state main() keeps across cycles. */
  class Master {
    var lt: seq<string>
    var listTrade: seq<Contract>
    var cnt: nat
    var log: seq<string>

    constructor(log0: seq<string>)
      ensures lt == [] && listTrade == [] && cnt == 0 && log == log0
    {
      lt, listTrade, cnt, log := [], [], 0, log0;
    }

    /** The for loop over ListTrade (mdr.py:110-125). `nowInt` is int(time.time()). */
    method LogRecent(nowInt: int, time: string, stamp: nat) returns (count: nat)
      modifies this
      ensures lt == Admit(TradeItems(old(listTrade), nowInt), old(lt)).seen
      ensures listTrade == Stripped(old(listTrade), Admit(TradeItems(old(listTrade), nowInt), old(lt)).taken)
      ensures log == old(log) + Lines(time, stamp, Picked(TradeItems(old(listTrade), nowInt), Admit(TradeItems(old(listTrade), nowInt), old(lt)).taken))
      ensures count == |Picked(TradeItems(old(listTrade), nowInt), Admit(TradeItems(old(listTrade), nowInt), old(lt)).taken)|
      ensures cnt == old(cnt)
    {
      var trades, seen, written := RecentPass(listTrade, lt, nowInt, time, stamp);
      lt, listTrade, log := seen, trades, log + written;
      count := |written|;
    }

    /**
     * One pass of the polling loop (mdr.py:73-133). `checkProbe` is the
     * connectivity test of a health check and `authorized` whether the ensuing
     * reauthorisation returned accounts; `probe` is the test every cycle runs,
     * `poc` the open contract it reports (None for an empty answer).
     */
    method Cycle(checkProbe: bool, authorized: bool, probe: bool, poc: Option<Contract>,
                 nowInt: int, time: string, stamp: nat) returns (count: nat)
      modifies this
      ensures cnt == NextCount(old(cnt), checkProbe, authorized, probe)
      ensures !probe ==> count == 0 && lt == old(lt) && listTrade == old(listTrade) && log == old(log)
      ensures probe ==>
                var l := Collected(old(listTrade), old(lt), poc);
                var d := Admit(TradeItems(l, nowInt), old(lt));
                lt == d.seen && listTrade == Stripped(l, d.taken)
                && log == old(log) + Lines(time, stamp, Picked(TradeItems(l, nowInt), d.taken))
                && count == |Picked(TradeItems(l, nowInt), d.taken)|
    {
      cnt := cnt + 1;
      if cnt >= Period {
        cnt := 0;
        if checkProbe && !authorized {
          cnt := 31;
        }
      }
      if probe {
        if poc.Some? && Idt(poc.value) !in lt {
          listTrade := listTrade + [poc.value];
        }
        if listTrade != [] {
          count := LogRecent(nowInt, time, stamp);
        } else {
          count := 0;
          assert Stripped(listTrade, []) == [];
        }
      } else {
        cnt := 31;
        count := 0;
      }
    }
  }
}
