/**
 * The PocketOption consumer (cpo.py): reads orders.log with the one-space
 * grammar, maps the direction onto the SDK's OrderDirection, dispatches fresh
 * unseen orders, and every 30th cycle reconnects until is_connected holds.
 */
module ConsumerPocket {
  import opened Wrappers
  import opened Text
  import opened Grammar
  import opened EventLog
  import opened Admission
  import opened Dispatch
  import opened Supervision

  datatype OrderDirection = CALL | PUT

  type Order = Record<OrderDirection>

  /**
   * The dict built at cpo.py:21-28. The stamp goes through float() and later
   * int() (cpo.py:156), so it is kept as its integer part; only int(id) can raise.
   */
  function ToOrder(c: Captures): Result<Order, ParseError> {
    match PyInt(c.id)
    case Err(e) => Err(e)
    case Ok(id) =>
      Ok(Record(Truncate(c.stamp), id, c.asset, c.amount,
                if Lower(c.direction) == "call" then CALL else PUT, Truncate(c.duration)))
  }

  /** read_orders_from_file: open() raises when the file is missing. */
  function OrdersFromFile(file: Option<seq<string>>): Result<seq<Order>, ParseError> {
    match file
    case None => Err(FileMissing)
    case Some(lines) => Parse(lines, OneSpace, ToOrder)
  }

  /** A matched line converts iff its ID has no '.'; the direction is CALL iff the word is "call" in any case. */
  lemma ToOrderMeaning(c: Captures)
    requires WellFormed(c)
    ensures ToOrder(c).Ok? <==> '.' !in c.id
    ensures '.' in c.id ==> ToOrder(c) == Err(ValueError(c.id))
    ensures ToOrder(c).Ok? ==> (ToOrder(c).value.direction == CALL <==> Lower(c.direction) == "call")
  {
    PyIntNumerals(0, c.id);
    if '.' !in c.id { NumeralDigits(c.id); }
  }

  /** A stamp is read as its integer part, with or without a fraction; the other fields come back as written. */
  lemma ToOrderReadsBack(stamp: nat, frac: string, id: nat, asset: string, amount: string, direction: string, duration: nat)
    requires Fraction(frac)
    ensures ToOrder(Captures(NatText(stamp) + frac, NatText(id), asset, amount, direction, NatText(duration)))
         == Ok(Record(stamp, id, asset, amount, if Lower(direction) == "call" then CALL else PUT, duration))
  {
    PyIntNumerals(id, "");
    TruncateNumerals(stamp, frac);
    TruncateNumerals(duration, "");
    assert NatText(duration) + "" == NatText(duration);
  }

  method ReadOrdersFromFile(file: Option<seq<string>>) returns (r: Result<seq<Order>, ParseError>)
    ensures file.None? ==> r == Err(FileMissing)
    ensures r == OrdersFromFile(file)
  {
    if file.None? {
      return Err(FileMissing);
    }
    r := ReadRecords(file.value, OneSpace, ToOrder);
  }

  // ---------------------------------------------------------------------
  // execute_order's verdict

  /** What place_order returns, when it returns an object. */
  datatype OrderResult = OrderResult(orderId: string, status: string, errorMessage: string)

  datatype Report = Placed(orderId: string) | Failed(message: string)

  /** cpo.py:45-48: placed iff a result came back and its status is not "error". */
  function Verdict(result: Option<OrderResult>): (r: Report)
    ensures r.Placed? <==> result.Some? && result.value.status != "error"
    ensures r.Failed? ==> r.message == if result.Some? then result.value.errorMessage else "Unknown error"
  {
    if result.Some? && result.value.status != "error" then Placed(result.value.orderId)
    else Failed(if result.Some? then result.value.errorMessage else "Unknown error")
  }

  // ---------------------------------------------------------------------
  // main()

  /** The state main() keeps across cycles: ListOrder and the health-check counter. */
  class Client {
    var listOrder: seq<int>
    var cnt: nat

    constructor()
      ensures listOrder == [] && cnt == 0
    {
      listOrder, cnt := [], 0;
    }

    /**
     * One pass of the polling loop (cpo.py:118-171). `connected` is
     * client.is_connected at a health check and `after` its value after each
     * reconnection; `now` is the clock read before admission.
     */
    method Cycle(file: Option<seq<string>>, now: real, connected: bool, after: seq<bool>) returns (out: CycleOutcome<Order>)
      modifies this
      ensures OrdersFromFile(file).Err? ==>
                out == Crashed(OrdersFromFile(file).error) && listOrder == old(listOrder) && cnt == old(cnt)
      ensures OrdersFromFile(file).Ok? ==> cnt == Step(old(cnt), true).cnt
      ensures OrdersFromFile(file).Ok? && Step(old(cnt), true).check && !connected && FirstTrue(after) == |after| ==>
                out == Reconnecting(|after|) && listOrder == old(listOrder)
      ensures OrdersFromFile(file).Ok? && !(Step(old(cnt), true).check && !connected && FirstTrue(after) == |after|) ==>
                out == Dispatched(Started(OrdersFromFile(file).value, now, old(listOrder)))
                && listOrder == Admit(Candidates(OrdersFromFile(file).value, now), old(listOrder)).seen
    {
      var orders := ReadOrdersFromFile(file);
      if orders.Err? {
        return Crashed(orders.error);
      }
      cnt := cnt + 1;
      if cnt >= Period {
        cnt := 0;
        if !connected {
          var ok, attempts := ReconnectLoop(connected, after);
          if !ok {
            return Reconnecting(attempts);
          }
        }
      }
      var items := Candidates(orders.value, now);
      var taken, seen' := AdmitAll(items, listOrder);
      listOrder := seen';
      out := Dispatched(Payloads(Picked(items, taken)));
    }
  }
}
