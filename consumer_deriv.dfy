/**
 * The Deriv consumer (cdr.py): reads orders.log with the one-space grammar,
 * maps the direction onto the strings "CALL" and "PUT", resolves the asset
 * against the broker's asset index by substring, and dispatches fresh unseen
 * orders. It has no health check: its counter is never advanced.
 */
module ConsumerDeriv {
  import opened Wrappers
  import opened Text
  import opened Grammar
  import opened EventLog
  import opened Admission
  import opened Dispatch

  type Order = Record<string>

  /** The dict built at cdr.py:43-50. */
  function ToOrder(c: Captures): Result<Order, ParseError> {
    match PyInt(c.id)
    case Err(e) => Err(e)
    case Ok(id) =>
      Ok(Record(Truncate(c.stamp), id, c.asset, c.amount,
                if Lower(c.direction) == "call" then "CALL" else "PUT", Truncate(c.duration)))
  }

  function OrdersFromFile(file: Option<seq<string>>): Result<seq<Order>, ParseError> {
    match file
    case None => Err(FileMissing)
    case Some(lines) => Parse(lines, OneSpace, ToOrder)
  }

  /** A matched line converts iff its ID has no '.'; the direction is "CALL" iff the word is "call" in any case, else "PUT". */
  lemma ToOrderMeaning(c: Captures)
    requires WellFormed(c)
    ensures ToOrder(c).Ok? <==> '.' !in c.id
    ensures '.' in c.id ==> ToOrder(c) == Err(ValueError(c.id))
    ensures ToOrder(c).Ok? ==> ToOrder(c).value.direction in {"CALL", "PUT"}
    ensures ToOrder(c).Ok? ==> (ToOrder(c).value.direction == "CALL" <==> Lower(c.direction) == "call")
  {
    PyIntNumerals(0, c.id);
    if '.' !in c.id { NumeralDigits(c.id); }
  }

  method ReadOrdersFromFile(file: Option<seq<string>>) returns (r: Result<seq<Order>, ParseError>)
    ensures file.None? ==> r == Err(FileMissing)
    ensures r == OrdersFromFile(file)
  {
    if file.None? {
      return Err(FileMissing);
    }
    r := ReadRecords(file.value, OneSpace, ToOrder);
  }

  // ---------------------------------------------------------------------
  // Asset resolution (cdr.py:59-71)

  /** Position of the first symbol containing `asset`, or |index| when none does. */
  function FirstContaining(index: seq<string>, asset: string): (k: nat)
    ensures k <= |index|
    ensures forall j :: 0 <= j < k ==> !Contains(index[j], asset)
    ensures k < |index| ==> Contains(index[k], asset)
    decreases |index|
  {
    if index == [] then 0
    else if Contains(index[0], asset) then 0
    else 1 + FirstContaining(index[1..], asset)
  }

  /** How the lookup ends: a symbol, pk == False, or pk never assigned (an empty index). */
  datatype Lookup = Found(symbol: string) | NotFound | Unbound

  /** The for loop setting pk and nw_asset. */
  method FindAsset(asset: string, index: seq<string>) returns (r: Lookup)
    ensures r == Unbound <==> index == []
    ensures r == NotFound <==> index != [] && forall j :: 0 <= j < |index| ==> !Contains(index[j], asset)
    ensures r.Found? ==> FirstContaining(index, asset) < |index| && r.symbol == index[FirstContaining(index, asset)]
  {
    var pk: Option<bool> := None;
    var nwAsset := "";
    var i := 0;
    while i < |index|
      invariant 0 <= i <= |index|
      invariant forall j :: 0 <= j < i ==> !Contains(index[j], asset)
      invariant pk == if i == 0 then None else Some(false)
    {
      if Contains(index[i], asset) {
        nwAsset := index[i];
        pk := Some(true);
        break;
      } else {
        pk := Some(false);
      }
      i := i + 1;
    }
    if pk.None? {
      return Unbound;
    }
    if pk == Some(false) {
      return NotFound;
    }
    return Found(nwAsset);
  }

  // ---------------------------------------------------------------------
  // buy() and the verdict (cdr.py:12-28, cdr.py:84-87)

  /** A contract ID is truthy when present and non-zero. */
  predicate Truthy(contractId: Option<int>) {
    contractId.Some? && contractId.value != 0
  }

  /** What buy() returns: (contract_id, True) or (None, False). */
  datatype BuyResult = BuyResult(contract: Option<int>, ok: bool)

  /** buy()'s answer: the contract ID and True when the ID is truthy, (None, False) otherwise. */
  function Buy(contractId: Option<int>): (r: BuyResult)
    ensures r.ok <==> Truthy(contractId)
    ensures r.ok ==> r.contract == contractId
    ensures !r.ok ==> r.contract.None?
    ensures Succeeded(r) <==> Truthy(contractId)
  {
    if Truthy(contractId) then BuyResult(contractId, true) else BuyResult(None, false)
  }

  /** order_result[0] and order_result[1] == True. */
  predicate Succeeded(r: BuyResult) {
    Truthy(r.contract) && r.ok
  }

  /** How execute_order ends for one order. */
  datatype Execution =
    | Raised                                   // pk unbound: the thread reports an error
    | Skipped                                  // no symbol contains the asset: no buy
    | Bought(symbol: string, placed: bool)     // buy() ran on `symbol`

  /**
   * execute_order (cdr.py:53-90); `contractId` is the contract ID the broker
   * answers to the buy. A buy is attempted iff some symbol contains the
   * asset, on the first such symbol, and it is reported placed iff the
   * broker answered with a truthy contract ID.
   */
  method ExecuteOrder(asset: string, index: seq<string>, contractId: Option<int>) returns (e: Execution)
    ensures e == Raised <==> index == []
    ensures e == Skipped <==> index != [] && forall j :: 0 <= j < |index| ==> !Contains(index[j], asset)
    ensures e.Bought? <==> exists j :: 0 <= j < |index| && Contains(index[j], asset)
    ensures e.Bought? ==>
              e.symbol == index[FirstContaining(index, asset)] && Contains(e.symbol, asset)
              && (e.placed <==> Truthy(contractId))
  {
    var found := FindAsset(asset, index);
    match found {
      case Unbound => return Raised;
      case NotFound => return Skipped;
      case Found(symbol) =>
        var result := Buy(contractId);
        return Bought(symbol, Succeeded(result));
    }
  }

  // ---------------------------------------------------------------------
  // main()

  /** What main() does before polling (cdr.py:122-134, cdr.py:181-183). */
  datatype Start = NoToken | AuthorizationFailed | Polling

  /** An empty token exits before any connection; an empty account list exits after authorising. */
  function Startup(token: string, accounts: seq<string>): (s: Start)
    ensures s == NoToken <==> |token| == 0
    ensures s == Polling <==> |token| > 0 && accounts != []
  {
    if |token| == 0 then NoToken else if accounts == [] then AuthorizationFailed else Polling
  }

  /** The state main() keeps across cycles: ListOrder. */
  class Client {
    var listOrder: seq<int>

    constructor()
      ensures listOrder == []
    {
      listOrder := [];
    }

    /** One pass of the polling loop (cdr.py:152-180). */
    method Cycle(file: Option<seq<string>>, now: real) returns (out: CycleOutcome<Order>)
      modifies this
      ensures OrdersFromFile(file).Err? ==> out == Crashed(OrdersFromFile(file).error) && listOrder == old(listOrder)
      ensures OrdersFromFile(file).Ok? ==>
                out == Dispatched(Started(OrdersFromFile(file).value, now, old(listOrder)))
                && listOrder == Admit(Candidates(OrdersFromFile(file).value, now), old(listOrder)).seen
    {
      var orders := ReadOrdersFromFile(file);
      if orders.Err? {
        return Crashed(orders.error);
      }
      var items := Candidates(orders.value, now);
      var taken, seen' := AdmitAll(items, listOrder);
      listOrder := seen';
      out := Dispatched(Payloads(Picked(items, taken)));
    }
  }
}
