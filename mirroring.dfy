/**
 * The pipeline end to end: a line a producer appends to orders.log is read
 * back by the consumer reading that log as exactly the record the producer
 * observed, and a position observed once is dispatched once.
 */
module Mirroring {
  import opened Wrappers
  import opened Text
  import opened Grammar
  import opened EventLog
  import opened Admission
  import opened Dispatch
  import PP = ProducerPocket
  import CP = ConsumerPocket
  import PD = ProducerDeriv
  import CD = ConsumerDeriv
  import PI = ProducerIq
  import CI = ConsumerIq
  import CQ = ConsumerQuotex

  // ---------------------------------------------------------------------
  // PocketOption: mpo.py writes, cpo.py and cqu.py read

  /** The order cpo.py builds from the line mpo.py writes for `o` at clock `stamp`. */
  function PocketOrder(stamp: nat, o: PP.ActiveOrder): (r: CP.Order)
    requires PP.Printable(o)
    ensures AllDigits(PP.OrderKey(o.orderId)) && r.id == DigitsValue(PP.OrderKey(o.orderId)) < 100000000
    ensures r.stamp == stamp && r.asset == o.asset && r.amount == o.amount
    ensures r.direction == CP.CALL <==> Lower(o.direction) == "call"
  {
    PP.OrderKeyMeaning(o.orderId);
    DigitsValueBound(PP.OrderKey(o.orderId));
    Pow10Monotone(|PP.OrderKey(o.orderId)|, 8);
    Pow10Eight();
    Record(stamp, DigitsValue(PP.OrderKey(o.orderId)), o.asset, o.amount,
           if Lower(o.direction) == "call" then CP.CALL else CP.PUT, Truncate(o.duration))
  }

  /** The fields mpo.py logs for `o` convert without error into PocketOrder. */
  lemma PocketConverts(stamp: nat, o: PP.ActiveOrder)
    requires PP.Printable(o)
    ensures CP.ToOrder(PP.Entry(stamp, PP.OrderKey(o.orderId), o)) == Ok(PocketOrder(stamp, o))
  {
    PP.OrderKeyMeaning(o.orderId);
    TruncateNumerals(stamp, "");
    assert NatText(stamp) + "" == NatText(stamp);
  }

  /** Appending mpo.py's line for `o` to a readable log makes cpo.py read one more order: the one observed. */
  lemma PocketMirrored(log: seq<string>, time: string, stamp: nat, o: PP.ActiveOrder)
    requires TimeText(time) && PP.Printable(o)
    requires CP.OrdersFromFile(Some(log)).Ok?
    ensures CP.OrdersFromFile(Some(log + [PP.Writer(time, stamp)(o)]))
         == Ok(CP.OrdersFromFile(Some(log)).value + [PocketOrder(stamp, o)])
  {
    var c := PP.Entry(stamp, PP.OrderKey(o.orderId), o);
    PP.EntryReadsBack(time, stamp, o);
    PocketConverts(stamp, o);
    ParseSnoc(log, PP.Writer(time, stamp)(o), OneSpace, CP.ToOrder);
  }

  /** The same line read by cqu.py with its \s+ grammar: the direction stays the lowercased word. */
  lemma PocketReadByQuotex(log: seq<string>, time: string, stamp: nat, o: PP.ActiveOrder)
    requires TimeText(time) && PP.Printable(o)
    requires CQ.TradesFromLog(Some(log)).Ok?
    ensures CQ.TradesFromLog(Some(log + [PP.Writer(time, stamp)(o)]))
         == Ok(CQ.TradesFromLog(Some(log)).value
               + [Record(stamp, PocketOrder(stamp, o).id, o.asset, o.amount, Lower(o.direction), Truncate(o.duration))])
  {
    PP.EntryReadsBack(time, stamp, o);
    PP.OrderKeyMeaning(o.orderId);
    PyIntNumerals(stamp, "");
    ParseSnoc(log, PP.Writer(time, stamp)(o), Whitespace, CQ.ToTrade);
  }

  // ---------------------------------------------------------------------
  // Deriv: mdr.py writes, cdr.py reads

  /** The order cdr.py builds from the line mdr.py writes for contract `c` at clock `stamp`. */
  function DerivOrder(stamp: nat, c: PD.Contract): (r: CD.Order)
    requires PD.Printable(c)
    ensures r.id == c.contractId % 100000000 && r.stamp == stamp
    ensures r.asset == PD.Underlying(c) && r.amount == c.buyPrice
    ensures r.duration == c.dateExpiry - c.dateStart
    ensures r.direction in {"CALL", "PUT"}
    ensures r.direction == "CALL" <==> Lower(c.contractType) == "call"
  {
    Record(stamp, c.contractId % 100000000, PD.Underlying(c), c.buyPrice,
           if Lower(Lower(c.contractType)) == "call" then "CALL" else "PUT", PD.Duration(c))
  }

  /** Appending mdr.py's line for `c` to a readable log makes cdr.py read one more order: the contract logged. */
  lemma DerivMirrored(log: seq<string>, time: string, stamp: nat, c: PD.Contract)
    requires TimeText(time) && PD.Printable(c)
    requires CD.OrdersFromFile(Some(log)).Ok?
    ensures CD.OrdersFromFile(Some(log + [PD.Writer(time, stamp)(c)]))
         == Ok(CD.OrdersFromFile(Some(log)).value + [DerivOrder(stamp, c)])
  {
    PD.EntryReadsBack(time, stamp, c);
    PD.IdtMeaning(c);
    PyIntNumerals(c.contractId % 100000000, "");
    TruncateNumerals(stamp, "");
    TruncateNumerals(PD.Duration(c), "");
    assert NatText(stamp) + "" == NatText(stamp);
    assert NatText(PD.Duration(c)) + "" == NatText(PD.Duration(c));
    assert CD.ToOrder(PD.Entry(stamp, c)) == Ok(DerivOrder(stamp, c));
    ParseSnoc(log, PD.Writer(time, stamp)(c), OneSpace, CD.ToOrder);
  }

  // ---------------------------------------------------------------------
  // IQ Option: miq.py writes, ciq.py reads

  /** The order ciq.py builds from the line miq.py writes for trade `t` with duration `d`. */
  function IqOrder(stamp: nat, t: PI.Trade, d: nat): (r: CI.Order)
    requires PI.Printable(t)
    ensures r.id == t.id % 100000000 && r.stamp == stamp && r.duration == d
    ensures r.asset == PI.Asset(t) && r.amount == t.profitAmount && r.direction == Lower(t.dir)
  {
    Record(stamp, t.id % 100000000, PI.Asset(t), t.profitAmount, Lower(t.dir), d)
  }

  /** Appending miq.py's line for `t` to a readable log makes ciq.py read one more order: the trade logged. */
  lemma IqMirrored(log: seq<string>, time: string, stamp: nat, t: PI.Trade, d: nat)
    requires TimeText(time) && PI.Printable(t)
    requires CI.OrdersFromFile(Some(log)).Ok?
    ensures CI.OrdersFromFile(Some(log + [PI.Writer(time, stamp)(t, d)]))
         == Ok(CI.OrdersFromFile(Some(log)).value + [IqOrder(stamp, t, d)])
  {
    PI.EntryReadsBack(time, stamp, t, d);
    PI.IdtMeaning(t);
    TruncateNumerals(stamp, "");
    TruncateNumerals(d, "");
    assert NatText(stamp) + "" == NatText(stamp);
    assert NatText(d) + "" == NatText(d);
    assert CI.ToOrder(PI.Entry(stamp, t, d)) == Ok(IqOrder(stamp, t, d));
    ParseSnoc(log, PI.Writer(time, stamp)(t, d), OneSpace, CI.ToOrder);
  }

  /**
   * miq.py renames "-OTC" to "_otc" for the other brokers' consumers, and
   * ciq.py renames "_otc" back to "-OTC": for an IQ Option name holding no
   * "_otc" and no "-op" of its own, the consumer places the asset the master traded.
   */
  lemma OtcRoundTrip(t: PI.Trade)
    requires !Contains(t.active, "_otc") && !Contains(t.active, "-op")
    ensures CI.OtcAsset(PI.Asset(t)) == t.active
  {
    var renamed := Replace(t.active, "-OTC", "_otc");
    if Contains(renamed, "-op") {
      ReplaceCreatesNothing(t.active, "-OTC", "_otc", "-op");
    }
    ReplaceAbsent(renamed, "-op", "");
    ReplaceInverse(t.active, "-OTC", "_otc");
  }

  // ---------------------------------------------------------------------
  // One position, end to end

  /** Admission of a single candidate. */
  lemma AdmitSingle<K, T>(x: Item<K, T>, seen: seq<K>)
    ensures Admit([x], seen).taken == [x.ok && x.key !in seen]
    ensures Admit([x], seen).seen == if x.ok && x.key !in seen then seen + [x.key] else seen
    ensures Picked([x], Admit([x], seen).taken) == if x.ok && x.key !in seen then [x] else []
  {
    assert [x][1..] == [];
    assert [x.ok && x.key !in seen][1..] == [];
  }

  /** A producer cycle that observes the single order `o` with an empty seen-list writes its one line. */
  lemma PocketLogsSingle(time: string, stamp: nat, o: PP.ActiveOrder)
    ensures Admit(PP.OrderItems([o]), []).seen == [PP.OrderKey(o.orderId)]
    ensures PP.Lines(time, stamp, Picked(PP.OrderItems([o]), Admit(PP.OrderItems([o]), []).taken))
         == [PP.Writer(time, stamp)(o)]
  {
    var x := Item(PP.OrderKey(o.orderId), true, o);
    assert PP.OrderItems([o]) == [x];
    AdmitSingle(x, []);
    assert Mapped(PP.Writer(time, stamp), [x]) == [PP.Writer(time, stamp)(o)];
  }

  /** A record read fresh is dispatched on the first read and never on a later one. */
  lemma DispatchedOnce<D>(rec: Record<D>, now: real, later: real)
    requires Fresh(now, rec.stamp)
    ensures Started([rec], now, []) == [rec]
    ensures Admit(Candidates([rec], now), []).seen == [rec.id]
    ensures Started([rec], later, [rec.id]) == []
  {
    assert Candidates([rec], now) == [Item(rec.id, true, rec)];
    AdmitSingle(Item(rec.id, true, rec), []);
    var y := Item(rec.id, Fresh(later, rec.stamp), rec);
    assert Candidates([rec], later) == [y];
    AdmitSingle(y, [rec.id]);
  }

  /**
   * mpo.py observes one open order at clock t0 + 1 and appends its line to an
   * empty log; cpo.py reads the log at t0 + 3 and dispatches that order, then
   * reads it again at t0 + 5 and dispatches nothing.
   */
  method OnePosition(time: string, t0: nat, o: PP.ActiveOrder) returns (first: CycleOutcome<CP.Order>, second: CycleOutcome<CP.Order>)
    requires TimeText(time) && PP.Printable(o)
    ensures first == Dispatched([PocketOrder(t0 + 1, o)])
    ensures second == Dispatched([])
  {
    var master := new PP.Master([]);
    var pass := master.Cycle([o], time, t0 + 1, true, []);
    PocketLogsSingle(time, t0 + 1, o);
    var log := master.log;
    assert log == [] + [PP.Writer(time, t0 + 1)(o)];
    PocketMirrored([], time, t0 + 1, o);
    var rec := PocketOrder(t0 + 1, o);
    DispatchedOnce(rec, (t0 + 3) as real, (t0 + 5) as real);

    var client := new CP.Client();
    first := client.Cycle(Some(log), (t0 + 3) as real, true, []);
    second := client.Cycle(Some(log), (t0 + 5) as real, true, []);
  }
}
