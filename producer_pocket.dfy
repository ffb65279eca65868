/**
 * The PocketOption producer (mpo.py): polls the account's open orders,
 * derives a short ID from the digits of each order ID, and appends one log
 * line per ID it has not logged before; every 30th quiet cycle it checks
 * the connection and reconnects until is_connected holds.
 */
module ProducerPocket {
  import opened Wrappers
  import opened Text
  import opened Grammar
  import opened Admission
  import opened Supervision

  // ---------------------------------------------------------------------
  // keep_dgt (mpo.py:13-29)

  /** re.sub('[^0-9]', rep, text): every character that is not a digit becomes `rep`. */
  function KeepDigits(text: string, rep: string): string
    decreases |text|
  {
    if text == [] then []
    else (if IsDigit(text[0]) then [text[0]] else rep) + KeepDigits(text[1..], rep)
  }

  /** The substitution works character by character, so it distributes over concatenation. */
  lemma {:induction false} KeepDigitsAppend(a: string, b: string, rep: string)
    ensures KeepDigits(a + b, rep) == KeepDigits(a, rep) + KeepDigits(b, rep)
    decreases |a|
  {
    if a == [] {
      assert a + b == b;
    } else {
      assert (a + b)[0] == a[0] && (a + b)[1..] == a[1..] + b;
      KeepDigitsAppend(a[1..], b, rep);
      var h := if IsDigit(a[0]) then [a[0]] else rep;
      assert h + (KeepDigits(a[1..], rep) + KeepDigits(b, rep)) == (h + KeepDigits(a[1..], rep)) + KeepDigits(b, rep);
    }
  }

  /** Digits are kept where they stand. */
  lemma {:induction false} KeepDigitsOnDigits(t: string, rep: string)
    requires AllDigits(t)
    ensures KeepDigits(t, rep) == t
    decreases |t|
  {
    if t != [] {
      assert IsDigit(t[0]);
      KeepDigitsOnDigits(t[1..], rep);
      assert [t[0]] + t[1..] == t;
    }
  }

  /**
   * With the empty replacement only digits remain: a digit is kept, any other
   * character is dropped, and the pieces come out in input order.
   */
  lemma {:induction false} DigitsOnly(text: string)
    ensures AllDigits(KeepDigits(text, ""))
    ensures |KeepDigits(text, "")| <= |text|
    ensures forall c :: IsDigit(c) ==> KeepDigits([c], "") == [c]
    ensures forall c :: !IsDigit(c) ==> KeepDigits([c], "") == []
    decreases |text|
  {
    if text != [] {
      DigitsOnly(text[1..]);
      var h := if IsDigit(text[0]) then [text[0]] else "";
      var r := KeepDigits(text[1..], "");
      assert KeepDigits(text, "") == h + r;
      forall i | 0 <= i < |h + r| ensures IsDigit((h + r)[i]) {
        if i >= |h| { assert (h + r)[i] == r[i - |h|]; }
      }
    }
    forall c: char ensures KeepDigits([c], "") == if IsDigit(c) then [c] else [] {
      assert [c][0] == c && [c][1..] == [];
    }
  }

  /** With a one-character replacement the length is kept, digits stay in place and every other character becomes it. */
  lemma {:induction false} OneCharReplacement(text: string, rep: string)
    requires |rep| == 1
    ensures |KeepDigits(text, rep)| == |text|
    ensures forall i :: 0 <= i < |text| ==> KeepDigits(text, rep)[i] == if IsDigit(text[i]) then text[i] else rep[0]
    decreases |text|
  {
    if text != [] {
      OneCharReplacement(text[1..], rep);
      var h := if IsDigit(text[0]) then [text[0]] else rep;
      var r := KeepDigits(text[1..], rep);
      assert KeepDigits(text, rep) == h + r;
      forall i | 0 <= i < |text| ensures (h + r)[i] == if IsDigit(text[i]) then text[i] else rep[0] {
        if i > 0 { assert (h + r)[i] == r[i - 1] && text[1..][i - 1] == text[i]; }
      }
    }
  }

  /**
   * keep_dgt with a fixed replacement is idempotent exactly when the
   * replacement is a fixed point of itself.
   */
  lemma IdempotentIff(rep: string)
    ensures (forall t :: KeepDigits(KeepDigits(t, rep), rep) == KeepDigits(t, rep)) <==> KeepDigits(rep, rep) == rep
  {
    if KeepDigits(rep, rep) == rep {
      forall t ensures KeepDigits(KeepDigits(t, rep), rep) == KeepDigits(t, rep) {
        Idempotent(t, rep);
      }
    } else {
      var x := "x";
      assert x[0] == 'x' && x[1..] == [];
      assert KeepDigits(x, rep) == rep + [];
      assert rep + [] == rep;
    }
  }

  lemma {:induction false} Idempotent(t: string, rep: string)
    requires KeepDigits(rep, rep) == rep
    ensures KeepDigits(KeepDigits(t, rep), rep) == KeepDigits(t, rep)
    decreases |t|
  {
    if t != [] {
      var h := if IsDigit(t[0]) then [t[0]] else rep;
      Idempotent(t[1..], rep);
      KeepDigitsAppend(h, KeepDigits(t[1..], rep), rep);
      if IsDigit(t[0]) {
        KeepDigitsOnDigits(h, rep);
      }
    }
  }

  /** The empty replacement (the one mpo.py uses), a single non-digit and an all-digit replacement are fixed points. */
  lemma FixedReplacements(rep: string)
    requires rep == [] || (|rep| == 1 && !IsDigit(rep[0])) || AllDigits(rep)
    ensures KeepDigits(rep, rep) == rep
  {
    if AllDigits(rep) {
      KeepDigitsOnDigits(rep, rep);
    } else {
      assert rep[1..] == [];
      assert KeepDigits(rep, rep) == rep + [];
    }
  }

  /** A longer replacement is not: keep_dgt("x", "ab") is "ab", and keep_dgt("ab", "ab") is "abab". */
  lemma NotIdempotent()
    ensures KeepDigits("x", "ab") == "ab"
    ensures KeepDigits(KeepDigits("x", "ab"), "ab") == "abab"
  {
    assert "x"[1..] == [];
    assert KeepDigits("x", "ab") == "ab" + [];
    assert "ab"[1..] == "b" && "b"[1..] == [];
    assert KeepDigits("b", "ab") == "ab" + [];
  }

  // ---------------------------------------------------------------------
  // The short ID (mpo.py:116-117)

  /** keep_dgt(str(order.order_id), '')[-8:]. */
  function OrderKey(orderId: string): string {
    Last8(KeepDigits(orderId, ""))
  }

  /** The short ID is the last at most 8 characters of the order ID's digits, and is all digits. */
  lemma OrderKeyMeaning(orderId: string)
    ensures |OrderKey(orderId)| <= 8
    ensures AllDigits(OrderKey(orderId))
    ensures exists pre :: KeepDigits(orderId, "") == pre + OrderKey(orderId)
    ensures |KeepDigits(orderId, "")| >= 8 ==> |OrderKey(orderId)| == 8
    ensures |KeepDigits(orderId, "")| <= 8 ==> OrderKey(orderId) == KeepDigits(orderId, "")
  {
    var d := KeepDigits(orderId, "");
    DigitsOnly(orderId);
    Last8Split(d);
    Last8Digits(d);
  }

  // ---------------------------------------------------------------------
  // The log entry (mpo.py:123)

  /**
   * An open order as get_active_orders reports it. Asset, amount, direction
   * and duration are kept as the text the f-string prints for them.
   */
  datatype ActiveOrder = ActiveOrder(orderId: string, asset: string, amount: string, direction: string, duration: string)

  /** The fields of the entry logged for an order under short ID `key` at clock `stamp`. */
  function Entry(stamp: nat, key: string, o: ActiveOrder): Captures {
    Captures(NatText(stamp), key, o.asset, o.amount, o.direction, o.duration)
  }

  /** An order whose printed fields are tokens of their kinds; its short ID must hold at least one digit. */
  predicate Printable(o: ActiveOrder) {
    OrderKey(o.orderId) != []
    && ValidToken(AssetName, o.asset) && ValidToken(Numeral, o.amount)
    && ValidToken(Word, o.direction) && ValidToken(Numeral, o.duration)
  }

  /** The entry for a printable order is read back by both consumer grammars with the fields it was written with. */
  lemma EntryReadsBack(time: string, stamp: nat, o: ActiveOrder)
    requires TimeText(time) && Printable(o)
    ensures Search(LogLine(time, Entry(stamp, OrderKey(o.orderId), o)), OneSpace) == Some(Entry(stamp, OrderKey(o.orderId), o))
    ensures Search(LogLine(time, Entry(stamp, OrderKey(o.orderId), o)), Whitespace) == Some(Entry(stamp, OrderKey(o.orderId), o))
  {
    var key := OrderKey(o.orderId);
    OrderKeyMeaning(o.orderId);
    NatTextToken(stamp);
    DigitsToken(key);
    LogLineRoundTrip(time, Entry(stamp, key, o), OneSpace);
    LogLineRoundTrip(time, Entry(stamp, key, o), Whitespace);
  }

  // ---------------------------------------------------------------------
  // main()

  /** The candidates of one cycle: every open order, keyed on its short ID, no extra check. */
  function OrderItems(active: seq<ActiveOrder>): seq<Item<string, ActiveOrder>> {
    seq(|active|, i requires 0 <= i < |active| => Item(OrderKey(active[i].orderId), true, active[i]))
  }

  /** The line written for an open order, keyed by its short ID. */
  function Writer(time: string, stamp: nat): ActiveOrder -> string {
    (o: ActiveOrder) => LogLine(time, Entry(stamp, OrderKey(o.orderId), o))
  }

  /** The lines written for the orders picked in a cycle. */
  function Lines(time: string, stamp: nat, picked: seq<Item<string, ActiveOrder>>): seq<string> {
    Mapped(Writer(time, stamp), picked)
  }

  /** An order is logged iff its short ID was not logged before, in an earlier cycle or earlier in this one. */
  lemma LoggedIff(active: seq<ActiveOrder>, seen: seq<string>)
    ensures forall i :: 0 <= i < |active| ==>
              (Admit(OrderItems(active), seen).taken[i] <==>
                 OrderKey(active[i].orderId) !in seen
                 && forall j :: 0 <= j < i ==> OrderKey(active[j].orderId) != OrderKey(active[i].orderId))
    ensures Admit(OrderItems(active), seen).seen == seen + Keys(Picked(OrderItems(active), Admit(OrderItems(active), seen).taken))
  {
    var items := OrderItems(active);
    assert forall i :: 0 <= i < |active| ==> items[i].key == OrderKey(active[i].orderId) && items[i].ok;
    AdmitMeaning(items, seen);
  }

  /** How one cycle ends. */
  datatype Pass = Stalled(attempts: nat) | Logged(count: nat)

  /**
   * The body of the for loop over the open orders (mpo.py:114-128), run from
   * the list_order the loop starts with: list_order with the new keys
   * appended, and the lines written, in order.
   */
  method NewPass(active: seq<ActiveOrder>, listOrder0: seq<string>, time: string, stamp: nat)
    returns (seen: seq<string>, written: seq<string>)
    ensures seen == Admit(OrderItems(active), listOrder0).seen
    ensures written == Lines(time, stamp, Picked(OrderItems(active), Admit(OrderItems(active), listOrder0).taken))
    ensures |written| == |Picked(OrderItems(active), Admit(OrderItems(active), listOrder0).taken)|
  {
    var items := OrderItems(active);
    seen, written := listOrder0, [];
    ghost var taken: seq<bool> := [];
    var i := 0;
    while i < |active|
      invariant |items| == |active|
      invariant Scanned(items, listOrder0, Writer(time, stamp), i, taken, seen, written)
    {
      var key := OrderKey(active[i].orderId);
      assert items[i] == Item(key, true, active[i]);
      ghost var taken0, seen0, written0 := taken, seen, written;
      var b := key !in seen;
      if b {
        written := written + [Writer(time, stamp)(active[i])];
        seen := seen + [key];
      }
      taken := taken + [b];
      ScanStep(items, listOrder0, Writer(time, stamp), i, taken0, seen0, written0, b, seen, written);
      i := i + 1;
    }
    ScanDone(items, listOrder0, Writer(time, stamp), taken, seen, written);
  }

  /** The state main() keeps across cycles: ListOrder, the counter, and orders.log. */
  class Master {
    var listOrder: seq<string>
    var cnt: nat
    var log: seq<string>

    constructor(log0: seq<string>)
      ensures listOrder == [] && cnt == 0 && log == log0
    {
      listOrder, cnt, log := [], 0, log0;
    }

    /** The for loop over the open orders (mpo.py:114-128). */
    method LogNew(active: seq<ActiveOrder>, time: string, stamp: nat) returns (count: nat)
      modifies this
      ensures listOrder == Admit(OrderItems(active), old(listOrder)).seen
      ensures log == old(log) + Lines(time, stamp, Picked(OrderItems(active), Admit(OrderItems(active), old(listOrder)).taken))
      ensures count == |Picked(OrderItems(active), Admit(OrderItems(active), old(listOrder)).taken)|
      ensures cnt == old(cnt)
    {
      var seen, written := NewPass(active, listOrder, time, stamp);
      listOrder, log := seen, log + written;
      count := |written|;
    }

    /**
     * One pass of the polling loop (mpo.py:80-135). `connected` is
     * is_connected at a health check and `after` its value after each
     * reconnection; `time` and `stamp` are the clock as printed and as int(timestamp()).
     */
    method Cycle(active: seq<ActiveOrder>, time: string, stamp: nat, connected: bool, after: seq<bool>) returns (out: Pass)
      modifies this
      ensures cnt == Step(old(cnt), active == []).cnt
      ensures Step(old(cnt), active == []).check && !connected && FirstTrue(after) == |after| ==>
                out == Stalled(|after|) && listOrder == old(listOrder) && log == old(log)
      ensures !(Step(old(cnt), active == []).check && !connected && FirstTrue(after) == |after|) ==>
                listOrder == Admit(OrderItems(active), old(listOrder)).seen
                && log == old(log) + Lines(time, stamp, Picked(OrderItems(active), Admit(OrderItems(active), old(listOrder)).taken))
                && out.Logged?
    {
      cnt := cnt + 1;
      if cnt >= Period && active == [] {
        cnt := 0;
        if !connected {
          var ok, attempts := ReconnectLoop(connected, after);
          if !ok {
            return Stalled(attempts);
          }
        }
      }
      var count := LogNew(active, time, stamp);
      out := Logged(count);
    }
  }
}
