/**
 * The IQ Option producer (miq.py): on each cycle it reads the trades opened
 * on the master account, runs the 30-cycle health check when none is open,
 * and logs every trade whose short ID was not logged before, with the
 * duration rounded up to an expiration bucket (or kept exactly for blitz
 * options) and the asset renamed for the consumers.
 *
 * `duration_new` is a module-level variable of the script: it survives from
 * one trade to the next and from one cycle to the next, and until a first
 * bucket is picked it does not exist at all. The model keeps it as an
 * Option held by the master's state.
 */
module ProducerIq {
  import opened Wrappers
  import opened Text
  import opened Grammar
  import opened Admission
  import opened Supervision

  /** An open trade: its key in the dict and the fields of trade['msg'] the script reads. */
  datatype Trade = Trade(id: int, active: string, dir: string, profitAmount: string,
                         created: int, expired: int, typeName: string)

  /** An entry of expiration.get_remaning_time: the option's minutes and the seconds left until that expiry. */
  datatype Bucket = Bucket(minutes: int, remaining: int)

  /** str(id)[-8:]. */
  function Idt(t: Trade): string {
    Last8(IntText(t.id))
  }

  /** The short ID of a non-negative trade ID is its last eight digits: the ID modulo 10^8 as read by int(). */
  lemma IdtMeaning(t: Trade)
    requires t.id >= 0
    ensures Idt(t) != [] && AllDigits(Idt(t)) && |Idt(t)| <= 8
    ensures DigitsValue(Idt(t)) == t.id % 100000000
  {
    SuffixValue(NatText(t.id));
    NatTextValue(t.id);
  }

  /** expired - created. */
  function Duration(t: Trade): int {
    t.expired - t.created
  }

  // ---------------------------------------------------------------------
  // The expiration bucket

  /** The first bucket with more time left than the duration, or |buckets| when there is none. */
  function FirstBucket(duration: int, buckets: seq<Bucket>): (k: nat)
    ensures k <= |buckets|
    ensures forall j :: 0 <= j < k ==> duration >= buckets[j].remaining
    ensures k < |buckets| ==> duration < buckets[k].remaining
    decreases |buckets|
  {
    if buckets == [] then 0
    else if duration < buckets[0].remaining then 0
    else 1 + FirstBucket(duration, buckets[1..])
  }

  /**
   * The for loop over durations (miq.py:80-85): the first bucket whose time left
   * exceeds the duration sets duration_new to its minutes times 60; when none
   * does, duration_new keeps the value it had.
   */
  method SelectBucket(duration: int, buckets: seq<Bucket>, previous: Option<int>) returns (durationNew: Option<int>)
    ensures FirstBucket(duration, buckets) < |buckets| ==>
              durationNew == Some(buckets[FirstBucket(duration, buckets)].minutes * 60)
    ensures FirstBucket(duration, buckets) == |buckets| ==> durationNew == previous
  {
    durationNew := previous;
    var i := 0;
    while i < |buckets|
      invariant i <= FirstBucket(duration, buckets)
      invariant durationNew == previous
    {
      if duration >= buckets[i].remaining {
        i := i + 1;
        continue;
      }
      durationNew := Some(buckets[i].minutes * 60);
      break;
    }
  }

  /** duration_new after the bucket loop and the blitz override (miq.py:80-90). */
  function NewDuration(duration: int, buckets: seq<Bucket>, previous: Option<int>, blitz: bool): Option<int> {
    if blitz then Some(duration)
    else if FirstBucket(duration, buckets) < |buckets| then Some(buckets[FirstBucket(duration, buckets)].minutes * 60)
    else previous
  }

  /**
   * A blitz option keeps its own duration; otherwise the first bucket with more
   * time left decides; with no such bucket the previous trade's value is reused,
   * and there is no value at all only when no trade has set one yet.
   */
  lemma NewDurationMeaning(duration: int, buckets: seq<Bucket>, previous: Option<int>, blitz: bool)
    ensures blitz ==> NewDuration(duration, buckets, previous, blitz) == Some(duration)
    ensures forall j :: 0 <= j < |buckets| && duration < buckets[j].remaining
                        && (forall i :: 0 <= i < j ==> duration >= buckets[i].remaining) ==>
              !blitz ==> NewDuration(duration, buckets, previous, blitz) == Some(buckets[j].minutes * 60)
    ensures !blitz && (forall j :: 0 <= j < |buckets| ==> duration >= buckets[j].remaining) ==>
              NewDuration(duration, buckets, previous, blitz) == previous
    ensures NewDuration(duration, buckets, previous, blitz).None? <==>
              !blitz && previous.None? && forall j :: 0 <= j < |buckets| ==> duration >= buckets[j].remaining
  {
    var k := FirstBucket(duration, buckets);
    forall j | 0 <= j < |buckets| && duration < buckets[j].remaining
               && (forall i :: 0 <= i < j ==> duration >= buckets[i].remaining)
      ensures k == j
    {
    }
  }

  // ---------------------------------------------------------------------
  // The entry

  /** trade['msg']['active'] with "-OTC" renamed to "_otc" and then every "-op" removed. */
  function Asset(t: Trade): string {
    Replace(Replace(t.active, "-OTC", "_otc"), "-op", "")
  }

  /** A name without either marker is kept; renaming keeps asset characters asset characters. */
  lemma AssetMeaning(t: Trade)
    ensures !Contains(t.active, "-OTC") && !Contains(t.active, "-op") ==> Asset(t) == t.active
    ensures !Contains(Replace(t.active, "-OTC", "_otc"), "-OTC")
    ensures (forall i :: 0 <= i < |t.active| ==> IsAssetChar(t.active[i])) ==>
              forall i :: 0 <= i < |Asset(t)| ==> IsAssetChar(Asset(t)[i])
  {
    ReplaceRemovesAll(t.active, "-OTC", "_otc");
    if !Contains(t.active, "-OTC") && !Contains(t.active, "-op") {
      ReplaceAbsent(t.active, "-OTC", "_otc");
      ReplaceAbsent(t.active, "-op", "");
    }
    if forall i :: 0 <= i < |t.active| ==> IsAssetChar(t.active[i]) {
      ReplaceKeepsAssetChars(t.active, "-OTC", "_otc");
      ReplaceKeepsAssetChars(Replace(t.active, "-OTC", "_otc"), "-op", "");
    }
  }

  /** The removal is a single left-to-right pass: it can leave an "-op" it has itself joined up. */
  lemma AssetCanKeepOp(t: Trade)
    requires t.active == "--opop"
    ensures Asset(t) == "-op"
  {
    MissingChar("--opop", "-OTC", 1);
    ReplaceAbsent("--opop", "-OTC", "_otc");
    RemovalCanRecreate();
  }

  /** A string lacking one of the characters of `p` does not contain `p`. */
  lemma {:induction false} MissingChar(s: string, p: string, k: nat)
    requires k < |p| && forall i :: 0 <= i < |s| ==> s[i] != p[k]
    ensures !Contains(s, p)
    decreases |s|
  {
    if |p| <= |s| {
      assert s[..|p|][k] != p[k];
    }
    if |s| > 0 {
      MissingChar(s[1..], p, k);
    }
  }

  /** The fields of the entry logged for `t` with duration `d` at clock `stamp` (miq.py:94). */
  function Entry(stamp: nat, t: Trade, d: int): Captures {
    Captures(NatText(stamp), Idt(t), Asset(t), t.profitAmount, t.dir, IntText(d))
  }

  /** A trade with a non-negative ID whose printed fields are tokens of their kinds. */
  predicate Printable(t: Trade) {
    t.id >= 0 && ValidToken(AssetName, Asset(t)) && ValidToken(Numeral, t.profitAmount) && ValidToken(Word, t.dir)
  }

  /** The entry for a printable trade and a non-negative duration is read back by both consumer grammars unchanged. */
  lemma EntryReadsBack(time: string, stamp: nat, t: Trade, d: nat)
    requires TimeText(time) && Printable(t)
    ensures Search(LogLine(time, Entry(stamp, t, d)), OneSpace) == Some(Entry(stamp, t, d))
    ensures Search(LogLine(time, Entry(stamp, t, d)), Whitespace) == Some(Entry(stamp, t, d))
    ensures Entry(stamp, t, d).duration == NatText(d)
  {
    NatTextToken(stamp);
    NatTextToken(d);
    IdtMeaning(t);
    DigitsToken(Idt(t));
    LogLineRoundTrip(time, Entry(stamp, t, d), OneSpace);
    LogLineRoundTrip(time, Entry(stamp, t, d), Whitespace);
  }

  // ---------------------------------------------------------------------
  // The for loop over the open trades

  /**
   * Where the loop stands: ListTrade, duration_new, the lines written, the IDs
   * passed to del_option_open_by_other_pc, and whether the loop was ended by
   * the NameError of printing a duration_new that was never set.
   */
  datatype Sweep = Sweep(listTrade: seq<string>, durationNew: Option<int>, written: seq<string>,
                         deleted: seq<int>, aborted: bool)

  /** The line logged for a trade and its duration, with the clock as printed and as int(timestamp()). */
  function Writer(time: string, stamp: nat): (Trade, int) -> string {
    (t: Trade, d: int) => LogLine(time, Entry(stamp, t, d))
  }

  /** One trade of the loop (miq.py:74-100); `line` writes the entry. */
  function Visit(s: Sweep, t: Trade, buckets: seq<Bucket>, line: (Trade, int) -> string): Sweep {
    if s.aborted || Idt(t) in s.listTrade then s
    else
      var d := NewDuration(Duration(t), buckets, s.durationNew, t.typeName == "blitz");
      if d.None? then s.(aborted := true)
      else Sweep(s.listTrade + [Idt(t)], d, s.written + [line(t, d.value)],
                 s.deleted + [t.id], false)
  }

  /** The loop over `trades` in dict order, from `s`. */
  function Swept(trades: seq<Trade>, buckets: seq<Bucket>, line: (Trade, int) -> string, s: Sweep): Sweep
    decreases |trades|
  {
    if trades == [] then s
    else Visit(Swept(trades[..|trades| - 1], buckets, line, s), trades[|trades| - 1], buckets, line)
  }

  /** The loop over one more trade is one more visit. */
  lemma SweptSnoc(trades: seq<Trade>, i: nat, buckets: seq<Bucket>, line: (Trade, int) -> string, s: Sweep)
    requires i < |trades|
    ensures Swept(trades[..i + 1], buckets, line, s) == Visit(Swept(trades[..i], buckets, line, s), trades[i], buckets, line)
  {
    assert trades[..i + 1][..i] == trades[..i];
  }

  /** Once the loop has been ended by the exception, the remaining trades change nothing. */
  lemma {:induction false} AbortStops(a: seq<Trade>, b: seq<Trade>, buckets: seq<Bucket>, line: (Trade, int) -> string, s: Sweep)
    requires Swept(a, buckets, line, s).aborted
    ensures Swept(a + b, buckets, line, s) == Swept(a, buckets, line, s)
    decreases |b|
  {
    if b == [] {
      assert a + b == a;
    } else {
      assert (a + b)[..|a + b| - 1] == a + b[..|b| - 1];
      AbortStops(a, b[..|b| - 1], buckets, line, s);
    }
  }

  /** An exception at trade `i` is the outcome of the whole loop. */
  lemma AbortAt(trades: seq<Trade>, i: nat, buckets: seq<Bucket>, line: (Trade, int) -> string, s: Sweep)
    requires i < |trades| && Swept(trades[..i + 1], buckets, line, s).aborted
    ensures Swept(trades, buckets, line, s) == Swept(trades[..i + 1], buckets, line, s)
  {
    AbortStops(trades[..i + 1], trades[i + 1..], buckets, line, s);
    assert trades[..i + 1] + trades[i + 1..] == trades;
  }

  /**
   * ListTrade grows by exactly the short IDs logged, with one line and one
   * deletion for each, and an abort leaves duration_new unset.
   */
  lemma {:induction false} SweptGrows(trades: seq<Trade>, buckets: seq<Bucket>, line: (Trade, int) -> string, s: Sweep)
    requires !s.aborted
    ensures var r := Swept(trades, buckets, line, s);
            |r.listTrade| >= |s.listTrade| && r.listTrade[..|s.listTrade|] == s.listTrade
            && |r.written| == |s.written| + (|r.listTrade| - |s.listTrade|) && r.written[..|s.written|] == s.written
            && |r.deleted| == |s.deleted| + (|r.listTrade| - |s.listTrade|) && r.deleted[..|s.deleted|] == s.deleted
            && (r.aborted ==> r.durationNew.None?)
    decreases |trades|
  {
    if trades != [] {
      var init := trades[..|trades| - 1];
      SweptGrows(init, buckets, line, s);
      var p := Swept(init, buckets, line, s);
      var r := Visit(p, trades[|trades| - 1], buckets, line);
      assert r.listTrade[..|s.listTrade|] == p.listTrade[..|s.listTrade|];
      assert r.written[..|s.written|] == p.written[..|s.written|];
      assert r.deleted[..|s.deleted|] == p.deleted[..|s.deleted|];
    }
  }

  /**
   * The k-th short ID the loop adds to ListTrade, the k-th deletion and the
   * k-th line written all belong to one and the same trade of the loop.
   */
  lemma {:induction false} SweptLinked(trades: seq<Trade>, buckets: seq<Bucket>, line: (Trade, int) -> string, s: Sweep, k: nat)
    requires !s.aborted
    requires k < |Swept(trades, buckets, line, s).listTrade| - |s.listTrade|
    ensures var r := Swept(trades, buckets, line, s);
            |s.deleted| + k < |r.deleted| && |s.written| + k < |r.written|
            && exists t, d :: t in trades && r.listTrade[|s.listTrade| + k] == Idt(t)
                           && r.deleted[|s.deleted| + k] == t.id && r.written[|s.written| + k] == line(t, d)
    decreases |trades|
  {
    SweptGrows(trades, buckets, line, s);
    var r := Swept(trades, buckets, line, s);
    var init := trades[..|trades| - 1];
    var last := trades[|trades| - 1];
    SweptGrows(init, buckets, line, s);
    var p := Swept(init, buckets, line, s);
    assert r == Visit(p, last, buckets, line);
    if k < |p.listTrade| - |s.listTrade| {
      SweptLinked(init, buckets, line, s, k);
      var t, d :| t in init && p.listTrade[|s.listTrade| + k] == Idt(t)
                  && p.deleted[|s.deleted| + k] == t.id && p.written[|s.written| + k] == line(t, d);
      assert t in trades;
      assert r.listTrade[|s.listTrade| + k] == Idt(t) && r.deleted[|s.deleted| + k] == t.id && r.written[|s.written| + k] == line(t, d);
    } else {
      var d := NewDuration(Duration(last), buckets, p.durationNew, last.typeName == "blitz");
      var dv: int := d.value;
      assert last in trades;
      assert r.listTrade[|s.listTrade| + k] == Idt(last) && r.deleted[|s.deleted| + k] == last.id
             && r.written[|s.written| + k] == line(last, dv);
    }
  }

  /** No short ID enters ListTrade twice. */
  lemma {:induction false} SweptDistinct(trades: seq<Trade>, buckets: seq<Bucket>, line: (Trade, int) -> string, s: Sweep)
    requires Distinct(s.listTrade)
    ensures Distinct(Swept(trades, buckets, line, s).listTrade)
    decreases |trades|
  {
    if trades != [] {
      var init := trades[..|trades| - 1];
      SweptDistinct(init, buckets, line, s);
      var p := Swept(init, buckets, line, s);
      var r := Visit(p, trades[|trades| - 1], buckets, line);
      if r.listTrade != p.listTrade {
        forall i, j | 0 <= i < j < |r.listTrade| ensures r.listTrade[i] != r.listTrade[j] {
          if j == |p.listTrade| { assert r.listTrade[i] == p.listTrade[i]; }
        }
      }
    }
  }

  /** A visit that does not end the loop leaves the visited trade's short ID in ListTrade, after the IDs it held. */
  lemma VisitCovers(p: Sweep, t: Trade, buckets: seq<Bucket>, line: (Trade, int) -> string)
    requires !Visit(p, t, buckets, line).aborted
    ensures !p.aborted
    ensures Visit(p, t, buckets, line).listTrade == p.listTrade
            || Visit(p, t, buckets, line).listTrade == p.listTrade + [Idt(t)]
    ensures Idt(t) in Visit(p, t, buckets, line).listTrade
  {
  }

  /** Keys of the earlier elements held by `before` stay in `after`, which also holds the key of the last. */
  lemma CoversStep<A>(xs: seq<A>, key: A -> string, before: seq<string>, after: seq<string>)
    requires xs != []
    requires forall x :: x in xs[..|xs| - 1] ==> key(x) in before
    requires after == before || after == before + [key(xs[|xs| - 1])]
    requires key(xs[|xs| - 1]) in after
    ensures forall x :: x in xs ==> key(x) in after
  {
    forall x | x in xs ensures key(x) in after {
      var i :| 0 <= i < |xs| && xs[i] == x;
      if i < |xs| - 1 {
        assert x in xs[..|xs| - 1];
        assert key(x) in before;
      }
    }
  }

  /** The last visit of a loop that the exception did not end: the IDs before it are kept and its own is added. */
  lemma SweptLastCovers(trades: seq<Trade>, buckets: seq<Bucket>, line: (Trade, int) -> string, s: Sweep)
    requires trades != [] && !Swept(trades, buckets, line, s).aborted
    ensures !Swept(trades[..|trades| - 1], buckets, line, s).aborted
    ensures var before := Swept(trades[..|trades| - 1], buckets, line, s).listTrade;
            var after := Swept(trades, buckets, line, s).listTrade;
            (after == before || after == before + [Idt(trades[|trades| - 1])])
            && Idt(trades[|trades| - 1]) in after
  {
    VisitCovers(Swept(trades[..|trades| - 1], buckets, line, s), trades[|trades| - 1], buckets, line);
  }

  /** A loop that the exception did not end leaves every trade's short ID in ListTrade. */
  lemma {:induction false} SweptCovers(trades: seq<Trade>, buckets: seq<Bucket>, line: (Trade, int) -> string, s: Sweep)
    ensures !Swept(trades, buckets, line, s).aborted ==>
              forall t :: t in trades ==> Idt(t) in Swept(trades, buckets, line, s).listTrade
    decreases |trades|
  {
    if trades != [] && !Swept(trades, buckets, line, s).aborted {
      var init := trades[..|trades| - 1];
      SweptLastCovers(trades, buckets, line, s);
      SweptCovers(init, buckets, line, s);
      CoversStep(trades, Idt, Swept(init, buckets, line, s).listTrade, Swept(trades, buckets, line, s).listTrade);
    }
  }

  /** Once a value for duration_new exists, no trade can end the loop by the exception. */
  lemma {:induction false} NoAbortOnceSet(trades: seq<Trade>, buckets: seq<Bucket>, line: (Trade, int) -> string, s: Sweep)
    requires !s.aborted && s.durationNew.Some?
    ensures !Swept(trades, buckets, line, s).aborted
    ensures Swept(trades, buckets, line, s).durationNew.Some?
    decreases |trades|
  {
    if trades != [] {
      NoAbortOnceSet(trades[..|trades| - 1], buckets, line, s);
    }
  }

  /**
   * A non-blitz trade longer than every bucket is logged with the duration of
   * the trade logged before it, in this cycle or an earlier one.
   */
  lemma StaleDuration(s: Sweep, t: Trade, buckets: seq<Bucket>, time: string, stamp: nat)
    requires !s.aborted && Idt(t) !in s.listTrade && s.durationNew.Some?
    requires t.typeName != "blitz" && forall j :: 0 <= j < |buckets| ==> Duration(t) >= buckets[j].remaining
    ensures Visit(s, t, buckets, Writer(time, stamp)).written == s.written + [LogLine(time, Entry(stamp, t, s.durationNew.value))]
    ensures Visit(s, t, buckets, Writer(time, stamp)).durationNew == s.durationNew
  {
    NewDurationMeaning(Duration(t), buckets, s.durationNew, false);
  }

  /** How one cycle ends. */
  datatype Pass = Stalled(attempts: nat) | Polled(deleted: seq<int>, aborted: bool)

  /** The state the script keeps across cycles: ListTrade, the counter, duration_new, and orders.log. */
  class Master {
    var listTrade: seq<string>
    var cnt: nat
    var durationNew: Option<int>
    var log: seq<string>

    constructor(log0: seq<string>)
      ensures listTrade == [] && cnt == 0 && durationNew == None && log == log0
    {
      listTrade, cnt, durationNew, log := [], 0, None, log0;
    }

    /** The for loop over trades.items() (miq.py:73-102), ended early by the exception handler of miq.py:105-107. */
    method LogTrades(trades: seq<Trade>, buckets: seq<Bucket>, time: string, stamp: nat) returns (deleted: seq<int>, aborted: bool)
      modifies this
      ensures var r := Swept(trades, buckets, Writer(time, stamp), Sweep(old(listTrade), old(durationNew), [], [], false));
              listTrade == r.listTrade && durationNew == r.durationNew && log == old(log) + r.written
              && deleted == r.deleted && aborted == r.aborted
      ensures cnt == old(cnt)
    {
      var start := Sweep(listTrade, durationNew, [], [], false);
      var seen, dn, written := listTrade, durationNew, [];
      deleted, aborted := [], false;
      var i := 0;
      while i < |trades|
        invariant i <= |trades|
        invariant Swept(trades[..i], buckets, Writer(time, stamp), start) == Sweep(seen, dn, written, deleted, false)
        invariant unchanged(this)
      {
        var trade := trades[i];
        SweptSnoc(trades, i, buckets, Writer(time, stamp), start);
        var idt := Idt(trade);
        if idt !in seen {
          var d := SelectBucket(Duration(trade), buckets, dn);
          if trade.typeName == "blitz" {
            d := Some(Duration(trade));
          }
          assert d == NewDuration(Duration(trade), buckets, dn, trade.typeName == "blitz");
          if d.None? {
            AbortAt(trades, i, buckets, Writer(time, stamp), start);
            aborted := true;
            break;
          }
          written := written + [Writer(time, stamp)(trade, d.value)];
          seen := seen + [idt];
          deleted := deleted + [trade.id];
          dn := d;
        }
        i := i + 1;
      }
      if !aborted {
        assert trades[..i] == trades;
      }
      listTrade, durationNew, log := seen, dn, log + written;
    }

    /**
     * One pass of the polling loop (miq.py:39-107). `trades` is what
     * get_option_open_by_other_pc returned, `buckets` the expiration table,
     * `connected` is check_connect() at a health check and `after` its value
     * after each reconnection.
     */
    method Cycle(trades: seq<Trade>, buckets: seq<Bucket>, time: string, stamp: nat, connected: bool, after: seq<bool>)
      returns (out: Pass)
      modifies this
      ensures cnt == Step(old(cnt), trades == []).cnt
      ensures Step(old(cnt), trades == []).check && !connected && FirstTrue(after) == |after| ==>
                out == Stalled(|after|) && trades == []
      ensures !(Step(old(cnt), trades == []).check && !connected && FirstTrue(after) == |after|) ==> out.Polled?
      ensures out.Polled? ==>
                var r := Swept(trades, buckets, Writer(time, stamp), Sweep(old(listTrade), old(durationNew), [], [], false));
                listTrade == r.listTrade && durationNew == r.durationNew && log == old(log) + r.written
                && out == Polled(r.deleted, r.aborted)
      ensures out.Stalled? ==> listTrade == old(listTrade) && durationNew == old(durationNew) && log == old(log)
    {
      cnt := cnt + 1;
      if cnt >= Period && trades == [] {
        cnt := 0;
        if !connected {
          var ok, attempts := ReconnectLoop(connected, after);
          if !ok {
            return Stalled(attempts);
          }
        }
      }
      var deleted, aborted := [], false;
      if trades != [] {
        deleted, aborted := LogTrades(trades, buckets, time, stamp);
      }
      out := Polled(deleted, aborted);
    }
  }
}
