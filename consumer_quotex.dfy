/**
 * The Quotex consumer (cqu.py): reads orders.log with the \s+ grammar, keeps
 * stamp and ID as int(), lowercases the direction, and dispatches fresh unseen
 * trades; every 30th cycle it probes the connection and reconnects until the
 * probe succeeds.
 */
module ConsumerQuotex {
  import opened Wrappers
  import opened Text
  import opened Grammar
  import opened EventLog
  import opened Admission
  import opened Dispatch
  import opened Supervision

  /** A trade as read_trades_from_log returns it; the direction is the lowercased word. */
  type Trade = Record<string>

  /** The dict built at cqu.py:61-68; int(stamp) and int(id) raise on a '.'. */
  function ToTrade(c: Captures): Result<Trade, ParseError> {
    match PyInt(c.stamp)
    case Err(e) => Err(e)
    case Ok(stamp) =>
      match PyInt(c.id)
      case Err(e) => Err(e)
      case Ok(id) => Ok(Record(stamp, id, c.asset, c.amount, Lower(c.direction), Truncate(c.duration)))
  }

  /** read_trades_from_log: a missing file gives no trades; otherwise every line is read. */
  function TradesFromLog(file: Option<seq<string>>): Result<seq<Trade>, ParseError> {
    match file
    case None => Ok([])
    case Some(lines) => Parse(lines, Whitespace, ToTrade)
  }

  /**
   * Of the matched fields only the stamp and the ID can make the read fail, and
   * they do exactly when they hold a '.'; the stamp is converted first.
   */
  lemma ToTradeErrors(c: Captures)
    requires WellFormed(c)
    ensures ToTrade(c).Ok? <==> '.' !in c.stamp && '.' !in c.id
    ensures '.' in c.stamp ==> ToTrade(c) == Err(ValueError(c.stamp))
    ensures '.' !in c.stamp && '.' in c.id ==> ToTrade(c) == Err(ValueError(c.id))
  {
    PyIntNumerals(0, c.stamp);
    PyIntNumerals(0, c.id);
    if '.' !in c.stamp { NumeralDigits(c.stamp); }
    if '.' !in c.id { NumeralDigits(c.id); }
  }

  /** Fields written as str() of naturals come back as those naturals; the direction comes back lowercased. */
  lemma ToTradeReadsBack(stamp: nat, id: nat, asset: string, amount: string, direction: string, duration: nat)
    ensures ToTrade(Captures(NatText(stamp), NatText(id), asset, amount, direction, NatText(duration)))
         == Ok(Record(stamp, id, asset, amount, Lower(direction), duration))
  {
    PyIntNumerals(stamp, "");
    PyIntNumerals(id, "");
    TruncateNumerals(duration, "");
    assert NatText(duration) + "" == NatText(duration);
  }

  method ReadTradesFromLog(file: Option<seq<string>>) returns (r: Result<seq<Trade>, ParseError>)
    ensures file.None? ==> r == Ok([])
    ensures r == TradesFromLog(file)
  {
    if file.None? {
      return Ok([]);
    }
    r := ReadRecords(file.value, Whitespace, ToTrade);
  }

  /** The state main() keeps across cycles: ListTrade and the health-check counter. */
  class Client {
    var listTrade: seq<int>
    var cnt: nat

    constructor()
      ensures listTrade == [] && cnt == 0
    {
      listTrade, cnt := [], 0;
    }

    /**
     * One pass of the polling loop (cqu.py:511-580). `probe` is the first
     * test_connect() of a health check and `after` the probes after each
     * reconnection round; `now` is the clock read before admission.
     */
    method Cycle(file: Option<seq<string>>, now: real, probe: bool, after: seq<bool>) returns (out: CycleOutcome<Trade>)
      modifies this
      ensures TradesFromLog(file).Err? ==>
                out == Crashed(TradesFromLog(file).error) && listTrade == old(listTrade) && cnt == old(cnt)
      ensures TradesFromLog(file).Ok? ==> cnt == Step(old(cnt), true).cnt
      ensures TradesFromLog(file).Ok? && Step(old(cnt), true).check && !probe && FirstTrue(after) == |after| ==>
                out == Reconnecting(|after|) && listTrade == old(listTrade)
      ensures TradesFromLog(file).Ok? && !(Step(old(cnt), true).check && !probe && FirstTrue(after) == |after|) ==>
                out == Dispatched(Started(TradesFromLog(file).value, now, old(listTrade)))
                && listTrade == Admit(Candidates(TradesFromLog(file).value, now), old(listTrade)).seen
    {
      var trades := ReadTradesFromLog(file);
      if trades.Err? {
        return Crashed(trades.error);
      }
      cnt := cnt + 1;
      if cnt >= Period {
        cnt := 0;
        if !probe {
          var connected, attempts := ReconnectLoop(probe, after);
          if !connected {
            return Reconnecting(attempts);
          }
        }
      }
      var items := Candidates(trades.value, now);
      var taken, seen' := AdmitAll(items, listTrade);
      listTrade := seen';
      out := Dispatched(Payloads(Picked(items, taken)));
    }
  }
}
