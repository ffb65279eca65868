/**
 * The consumers' admission rule (cqu.py:549-565, cpo.py:153-165,
 * cdr.py:162-174, ciq.py:138-147): a record read from the log is dispatched
 * iff its ID is not in the seen-list and now - int(stamp) < 15; its ID is
 * appended before the order is handed to a thread.
 */
module Dispatch {
  import opened EventLog
  import opened Admission

  /** The freshness window, in seconds. */
  const Window: real := 15.0

  predicate Fresh(now: real, stamp: int) {
    now - stamp as real < Window
  }

  /** The records of one read, as admission candidates keyed on their ID. */
  function Candidates<D>(recs: seq<Record<D>>, now: real): seq<Item<int, Record<D>>> {
    seq(|recs|, i requires 0 <= i < |recs| => Item(recs[i].id, Fresh(now, recs[i].stamp), recs[i]))
  }

  function Ids<D>(recs: seq<Record<D>>): (ids: seq<int>)
    ensures |ids| == |recs| && forall i :: 0 <= i < |recs| ==> ids[i] == recs[i].id
  {
    seq(|recs|, i requires 0 <= i < |recs| => recs[i].id)
  }

  /** The records a cycle dispatches, in log order. */
  function Started<D>(recs: seq<Record<D>>, now: real, seen: seq<int>): seq<Record<D>> {
    var items := Candidates(recs, now);
    Payloads(Picked(items, Admit(items, seen).taken))
  }

  /** How one polling cycle of a consumer ends. */
  datatype CycleOutcome<R> =
    | Crashed(error: ParseError)       // reading the log raised: the process stops
    | Reconnecting(attempts: nat)     // still in the reconnect loop after `attempts` reconnections
    | Dispatched(started: seq<R>)     // these orders were handed to threads

  lemma {:induction false} PickedKeyed<D>(items: seq<Item<int, Record<D>>>, flags: seq<bool>)
    requires |flags| == |items|
    requires forall i :: 0 <= i < |items| ==> items[i].key == items[i].payload.id
    ensures Keys(Picked(items, flags)) == Ids(Payloads(Picked(items, flags)))
  {
    var p := Picked(items, flags);
    forall k | 0 <= k < |p| ensures p[k].key == p[k].payload.id {
      PickedFrom(items, flags, p[k]);
    }
  }

  /**
   * The rule in the consumers' terms: record i is dispatched iff its ID was not
   * seen, it is fresh, and no earlier fresh record of this read has its ID;
   * afterwards the seen-list is the old one followed by the dispatched IDs.
   */
  lemma DispatchRule<D>(recs: seq<Record<D>>, now: real, seen: seq<int>)
    ensures forall i :: 0 <= i < |recs| ==>
              (Admit(Candidates(recs, now), seen).taken[i] <==>
                 recs[i].id !in seen && Fresh(now, recs[i].stamp)
                 && forall j :: 0 <= j < i && Fresh(now, recs[j].stamp) ==> recs[j].id != recs[i].id)
    ensures Admit(Candidates(recs, now), seen).seen == seen + Ids(Started(recs, now, seen))
  {
    var items := Candidates(recs, now);
    assert forall i :: 0 <= i < |recs| ==> items[i].key == recs[i].id && items[i].ok == Fresh(now, recs[i].stamp);
    AdmitMeaning(items, seen);
    PickedKeyed(items, Admit(items, seen).taken);
  }

  /** Within one cycle no ID is dispatched twice, and none that was dispatched in an earlier cycle. */
  lemma StartedOnce<D>(recs: seq<Record<D>>, now: real, seen: seq<int>)
    ensures Distinct(Ids(Started(recs, now, seen)))
    ensures forall id :: id in Ids(Started(recs, now, seen)) ==> id !in seen
  {
    var items := Candidates(recs, now);
    TakenDistinct(items, seen);
    PickedKeyed(items, Admit(items, seen).taken);
  }
}
