/**
 * The IQ Option consumer (ciq.py): reads orders.log with the one-space
 * grammar, lowercases the direction, translates each order into a digital
 * buy (durations over 300 seconds, in minutes) or a blitz buy (seconds),
 * and every 30th cycle reconnects until check_connect() holds.
 */
module ConsumerIq {
  import opened Wrappers
  import opened Text
  import opened Grammar
  import opened EventLog
  import opened Admission
  import opened Dispatch
  import opened Supervision

  type Order = Record<string>

  /** The dict built at ciq.py:22-29. */
  function ToOrder(c: Captures): Result<Order, ParseError> {
    match PyInt(c.id)
    case Err(e) => Err(e)
    case Ok(id) => Ok(Record(Truncate(c.stamp), id, c.asset, c.amount, Lower(c.direction), Truncate(c.duration)))
  }

  function OrdersFromFile(file: Option<seq<string>>): Result<seq<Order>, ParseError> {
    match file
    case None => Err(FileMissing)
    case Some(lines) => Parse(lines, OneSpace, ToOrder)
  }

  /** A matched line converts iff its ID has no '.'; the direction is the lowercased word. */
  lemma ToOrderMeaning(c: Captures)
    requires WellFormed(c)
    ensures ToOrder(c).Ok? <==> '.' !in c.id
    ensures '.' in c.id ==> ToOrder(c) == Err(ValueError(c.id))
    ensures ToOrder(c).Ok? ==> ToOrder(c).value.direction == Lower(c.direction)
  {
    PyIntNumerals(0, c.id);
    if '.' !in c.id { NumeralDigits(c.id); }
  }

  method ReadOrdersFromFile(file: Option<seq<string>>) returns (r: Result<seq<Order>, ParseError>)
    ensures file.None? ==> r == Err(FileMissing)
    ensures r == OrdersFromFile(file)
  {
    if file.None? {
      return Err(FileMissing);
    }
    r := ReadRecords(file.value, OneSpace, ToOrder);
  }

  // ---------------------------------------------------------------------
  // execute_order (ciq.py:32-52)

  /** Durations above this many seconds are placed as digital options, in minutes. */
  const BlitzLimit: real := 300.0

  /** The SDK call execute_order makes. */
  datatype Call =
    | Digital(amount: string, asset: string, direction: string, minutes: real)  // client.buy
    | Blitz(asset: string, amount: string, direction: string, seconds: real)    // client.buy_blitz

  /** The asset rewrite both paths apply. */
  function OtcAsset(asset: string): string {
    Replace(asset, "_otc", "-OTC")
  }

  function Translate(asset: string, amount: string, direction: string, duration: real): Call {
    if duration > BlitzLimit then Digital(amount, OtcAsset(asset), direction, duration / 60.0)
    else Blitz(OtcAsset(asset), amount, direction, duration)
  }

  /**
   * Longer than 300 seconds: a digital buy of the same length in minutes;
   * otherwise a blitz buy with the seconds as read. Either way no "_otc" remains
   * in the asset, an asset without one is passed unchanged, and amount and
   * direction are passed through.
   */
  lemma TranslateMeaning(o: Order)
    ensures Translate(o.asset, o.amount, o.direction, o.duration as real).Digital? <==> o.duration > 300
    ensures Translate(o.asset, o.amount, o.direction, o.duration as real).Digital? ==>
              Translate(o.asset, o.amount, o.direction, o.duration as real).minutes * 60.0 == o.duration as real
              && Translate(o.asset, o.amount, o.direction, o.duration as real).minutes > 5.0
    ensures Translate(o.asset, o.amount, o.direction, o.duration as real).Blitz? ==>
              Translate(o.asset, o.amount, o.direction, o.duration as real).seconds == o.duration as real
    ensures !Contains(Translate(o.asset, o.amount, o.direction, o.duration as real).asset, "_otc")
    ensures !Contains(o.asset, "_otc") ==> Translate(o.asset, o.amount, o.direction, o.duration as real).asset == o.asset
    ensures Translate(o.asset, o.amount, o.direction, o.duration as real).amount == o.amount
    ensures Translate(o.asset, o.amount, o.direction, o.duration as real).direction == o.direction
  {
    assert Disjoint("-OTC", "_otc");
    ReplaceRemovesAll(o.asset, "_otc", "-OTC");
    if !Contains(o.asset, "_otc") {
      ReplaceAbsent(o.asset, "_otc", "-OTC");
    }
  }

  /** What client.buy or client.buy_blitz returns first. */
  datatype SdkValue = Flag(b: bool) | Number(n: int) | NoValue | Object

  /** Python's `x == False`: False itself and the number 0. */
  predicate IsFalse(v: SdkValue) {
    v == Flag(false) || v == Number(0)
  }

  /** The order dict handed to the thread; execute_order overwrites its duration and asset. */
  class OrderDict {
    var id: int
    var asset: string
    var amount: string
    var direction: string
    var duration: real

    constructor(o: Order)
      ensures id == o.id && asset == o.asset && amount == o.amount
      ensures direction == o.direction && duration == o.duration as real
    {
      id, asset, amount, direction := o.id, o.asset, o.amount, o.direction;
      duration := o.duration as real;
    }
  }

  /**
   * execute_order: rewrite the dict, place the translated call, report it
   * placed iff the SDK's answer `result` is not False.
   */
  method ExecuteOrder(order: OrderDict, result: SdkValue) returns (call: Call, placed: bool)
    modifies order
    ensures call == Translate(old(order.asset), old(order.amount), old(order.direction), old(order.duration))
    ensures order.asset == call.asset
    ensures order.duration == if call.Digital? then call.minutes else old(order.duration)
    ensures order.id == old(order.id) && order.amount == old(order.amount) && order.direction == old(order.direction)
    ensures placed <==> !IsFalse(result)
  {
    if order.duration > BlitzLimit {
      order.duration := order.duration / 60.0;
      order.asset := Replace(order.asset, "_otc", "-OTC");
      call := Digital(order.amount, order.asset, order.direction, order.duration);
    } else {
      order.asset := Replace(order.asset, "_otc", "-OTC");
      call := Blitz(order.asset, order.amount, order.direction, order.duration);
    }
    placed := result != Flag(false) && result != Number(0);
  }

  // ---------------------------------------------------------------------
  // main()

  /** The state main() keeps across cycles: ListOrder and the health-check counter. */
  class Client {
    var listOrder: seq<int>
    var cnt: nat

    constructor()
      ensures listOrder == [] && cnt == 0
    {
      listOrder, cnt := [], 0;
    }

    /**
     * One pass of the polling loop (ciq.py:103-154). `connected` is
     * check_connect() at a health check and `after` its value after each
     * reconnection; `now` is the clock read before admission.
     */
    method Cycle(file: Option<seq<string>>, now: real, connected: bool, after: seq<bool>) returns (out: CycleOutcome<Order>)
      modifies this
      ensures OrdersFromFile(file).Err? ==>
                out == Crashed(OrdersFromFile(file).error) && listOrder == old(listOrder) && cnt == old(cnt)
      ensures OrdersFromFile(file).Ok? ==> cnt == Step(old(cnt), true).cnt
      ensures OrdersFromFile(file).Ok? && Step(old(cnt), true).check && !connected && FirstTrue(after) == |after| ==>
                out == Reconnecting(|after|) && listOrder == old(listOrder)
      ensures OrdersFromFile(file).Ok? && !(Step(old(cnt), true).check && !connected && FirstTrue(after) == |after|) ==>
                out == Dispatched(Started(OrdersFromFile(file).value, now, old(listOrder)))
                && listOrder == Admit(Candidates(OrdersFromFile(file).value, now), old(listOrder)).seen
    {
      var orders := ReadOrdersFromFile(file);
      if orders.Err? {
        return Crashed(orders.error);
      }
      cnt := cnt + 1;
      if cnt >= Period {
        cnt := 0;
        if !connected {
          var ok, attempts := ReconnectLoop(connected, after);
          if !ok {
            return Reconnecting(attempts);
          }
        }
      }
      var items := Candidates(orders.value, now);
      var taken, seen' := AdmitAll(items, listOrder);
      listOrder := seen';
      out := Dispatched(Payloads(Picked(items, taken)));
    }
  }
}
