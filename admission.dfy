/**
 * The deduplicating admission step every process runs once per polling cycle:
 *
 *   for x in candidates:
 *       if key(x) not in seen and check(x):
 *           seen.append(key(x)); act on x
 *
 * The consumers key on the order ID and check freshness (cqu.py:550-565,
 * cpo.py:155-165, cdr.py:164-174, ciq.py:140-147); the producers key on the
 * short ID and check nothing (mpo.py:121-127) or freshness (mdr.py:111-125).
 */
module Admission {
  import opened Text


  /** A candidate: the key it is deduplicated on, the outcome of the extra check, and what it carries. */
  datatype Item<K, T> = Item(key: K, ok: bool, payload: T)

  /** For each candidate whether it was taken, and the seen-list afterwards. */
  datatype Decision<K> = Decision(taken: seq<bool>, seen: seq<K>)

  /** One pass of the loop over `items`, starting from the seen-list `seen`. */
  function Admit<K(==), T>(items: seq<Item<K, T>>, seen: seq<K>): (d: Decision<K>)
    ensures |d.taken| == |items|
    decreases |items|
  {
    if items == [] then Decision([], seen)
    else
      var take := items[0].ok && items[0].key !in seen;
      var rest := Admit(items[1..], if take then seen + [items[0].key] else seen);
      Decision([take] + rest.taken, rest.seen)
  }

  /** The items that `flags` marks, in their order. */
  function Picked<K, T>(items: seq<Item<K, T>>, flags: seq<bool>): seq<Item<K, T>>
    requires |flags| == |items|
    decreases |items|
  {
    if items == [] then []
    else (if flags[0] then [items[0]] else []) + Picked(items[1..], flags[1..])
  }

  function Keys<K, T>(items: seq<Item<K, T>>): (ks: seq<K>)
    ensures |ks| == |items| && forall i :: 0 <= i < |items| ==> ks[i] == items[i].key
  {
    seq(|items|, i requires 0 <= i < |items| => items[i].key)
  }

  function Payloads<K, T>(items: seq<Item<K, T>>): (ps: seq<T>)
    ensures |ps| == |items| && forall i :: 0 <= i < |items| ==> ps[i] == items[i].payload
  {
    seq(|items|, i requires 0 <= i < |items| => items[i].payload)
  }

  predicate Distinct<K(==)>(s: seq<K>) {
    forall i, j :: 0 <= i < j < |s| ==> s[i] != s[j]
  }

  /** The keys taken over successive cycles, the seen-list carried from each cycle to the next. */
  function Lifetime<K(==), T>(cycles: seq<seq<Item<K, T>>>, seen: seq<K>): seq<K>
    decreases |cycles|
  {
    if cycles == [] then []
    else
      var d := Admit(cycles[0], seen);
      Keys(Picked(cycles[0], d.taken)) + Lifetime(cycles[1..], d.seen)
  }

  // ---------------------------------------------------------------------
  // Lemmas

  lemma {:induction false} KeysAppend<K, T>(a: seq<Item<K, T>>, b: seq<Item<K, T>>)
    ensures Keys(a + b) == Keys(a) + Keys(b)
  {
  }

  /** No candidate before position `i`, from position `lo` on, passes the check with key `k`. */
  ghost predicate NoEarlier<K, T>(items: seq<Item<K, T>>, lo: nat, i: nat, k: K)
    requires i <= |items|
  {
    forall j :: lo <= j < i && items[j].ok ==> items[j].key != k
  }

  lemma NoEarlierShift<K, T>(items: seq<Item<K, T>>, i: nat, k: K)
    requires 1 <= i <= |items|
    ensures NoEarlier(items[1..], 0, i - 1, k) <==> NoEarlier(items, 1, i, k)
    ensures NoEarlier(items, 0, i, k) <==> (items[0].ok ==> items[0].key != k) && NoEarlier(items, 1, i, k)
  {
    assert forall j :: 1 <= j < i ==> items[1..][j - 1] == items[j];
  }

  /** One pass grows the seen-list by the taken keys, in order. */
  lemma {:induction false} AdmitSeen<K, T>(items: seq<Item<K, T>>, seen: seq<K>)
    ensures Admit(items, seen).seen == seen + Keys(Picked(items, Admit(items, seen).taken))
    decreases |items|
  {
    if items != [] {
      var d := Admit(items, seen);
      var take := items[0].ok && items[0].key !in seen;
      var seen' := if take then seen + [items[0].key] else seen;
      var rest := Admit(items[1..], seen');
      AdmitSeen(items[1..], seen');
      var p := Picked(items[1..], rest.taken);
      assert d.taken[1..] == rest.taken;
      var head := if take then [items[0]] else [];
      assert Picked(items, d.taken) == head + p;
      KeysAppend(head, p);
      if take {
        assert Keys(head) == [items[0].key];
      } else {
        assert Keys(head) == [];
      }
    }
  }

  /**
   * A candidate is taken iff it passes the check, its key was not seen before
   * the pass, and no earlier candidate that passed the check had the same key.
   */
  lemma {:induction false} AdmitTaken<K, T>(items: seq<Item<K, T>>, seen: seq<K>)
    ensures forall i :: 0 <= i < |items| ==>
              (Admit(items, seen).taken[i] <==>
                 items[i].ok && items[i].key !in seen && NoEarlier(items, 0, i, items[i].key))
    decreases |items|
  {
    if items != [] {
      var d := Admit(items, seen);
      var take := items[0].ok && items[0].key !in seen;
      var seen' := if take then seen + [items[0].key] else seen;
      var rest := Admit(items[1..], seen');
      AdmitTaken(items[1..], seen');
      forall i | 0 <= i < |items|
        ensures d.taken[i] <==> items[i].ok && items[i].key !in seen && NoEarlier(items, 0, i, items[i].key)
      {
        if i > 0 {
          assert items[i] == items[1..][i - 1] && d.taken[i] == rest.taken[i - 1];
          NoEarlierShift(items, i, items[i].key);
        }
      }
    }
  }

  /** What one pass does: both halves above. */
  lemma AdmitMeaning<K, T>(items: seq<Item<K, T>>, seen: seq<K>)
    ensures Admit(items, seen).seen == seen + Keys(Picked(items, Admit(items, seen).taken))
    ensures forall i :: 0 <= i < |items| ==>
              (Admit(items, seen).taken[i] <==>
                 items[i].ok && items[i].key !in seen
                 && forall j :: 0 <= j < i && items[j].ok ==> items[j].key != items[i].key)
  {
    AdmitSeen(items, seen);
    AdmitTaken(items, seen);
  }

  /** The seen-list only grows. */
  lemma SeenGrows<K, T>(items: seq<Item<K, T>>, seen: seq<K>)
    ensures |seen| <= |Admit(items, seen).seen| && Admit(items, seen).seen[..|seen|] == seen
  {
    AdmitMeaning(items, seen);
    var d := Admit(items, seen);
    assert (seen + Keys(Picked(items, d.taken)))[..|seen|] == seen;
  }

  /** Afterwards the key of every candidate that passed the check is in the seen-list. */
  lemma EligibleSeen<K, T>(items: seq<Item<K, T>>, seen: seq<K>, i: nat)
    requires i < |items| && items[i].ok
    ensures items[i].key in Admit(items, seen).seen
  {
    AdmitMeaning(items, seen);
    var d := Admit(items, seen);
    if items[i].key !in seen {
      var j :| 0 <= j <= i && items[j].ok && items[j].key == items[i].key && items[j].key !in seen
                && forall l :: 0 <= l < j && items[l].ok ==> items[l].key != items[j].key by {
        FirstEligible(items, i);
      }
      assert d.taken[j];
      PickedHas(items, d.taken, j);
      var ks := Keys(Picked(items, d.taken));
      assert items[j].key in ks;
      assert d.seen == seen + ks;
    }
  }

  /** Among the candidates up to `i` that pass the check with the key of `i`, there is a first. */
  lemma {:induction false} FirstEligible<K, T>(items: seq<Item<K, T>>, i: nat)
    requires i < |items| && items[i].ok
    ensures exists j :: 0 <= j <= i && items[j].ok && items[j].key == items[i].key
                        && forall l :: 0 <= l < j && items[l].ok ==> items[l].key != items[j].key
    decreases i
  {
    if !forall l :: 0 <= l < i && items[l].ok ==> items[l].key != items[i].key {
      var l :| 0 <= l < i && items[l].ok && items[l].key == items[i].key;
      FirstEligible(items, l);
    }
  }

  lemma {:induction false} PickedHas<K, T>(items: seq<Item<K, T>>, flags: seq<bool>, j: nat)
    requires |flags| == |items| && j < |items| && flags[j]
    ensures items[j] in Picked(items, flags)
    decreases |items|
  {
    if j > 0 {
      PickedHas(items[1..], flags[1..], j - 1);
    }
  }

  lemma {:induction false} PickedFrom<K, T>(items: seq<Item<K, T>>, flags: seq<bool>, x: Item<K, T>)
    requires |flags| == |items| && x in Picked(items, flags)
    ensures exists j :: 0 <= j < |items| && flags[j] && items[j] == x
    decreases |items|
  {
    if !(flags[0] && items[0] == x) {
      var p := Picked(items[1..], flags[1..]);
      assert x in p;
      PickedFrom(items[1..], flags[1..], x);
      var j :| 0 <= j < |items[1..]| && flags[1..][j] && items[1..][j] == x;
      assert flags[j + 1] && items[j + 1] == x;
    }
  }

  /** The pass from candidate `i` on decides candidate `i` first, then the rest. */
  lemma AdmitStep<K, T>(items: seq<Item<K, T>>, i: nat, seen: seq<K>)
    requires i < |items|
    ensures Admit(items[i..], seen).taken
         == [items[i].ok && items[i].key !in seen]
            + Admit(items[i + 1..], if items[i].ok && items[i].key !in seen then seen + [items[i].key] else seen).taken
    ensures Admit(items[i..], seen).seen
         == Admit(items[i + 1..], if items[i].ok && items[i].key !in seen then seen + [items[i].key] else seen).seen
  {
    assert items[i..][0] == items[i] && items[i..][1..] == items[i + 1..];
  }

  /** Marking one more candidate at the end picks it after the others. */
  lemma {:induction false} PickedSnoc<K, T>(items: seq<Item<K, T>>, flags: seq<bool>, x: Item<K, T>, b: bool)
    requires |flags| == |items|
    ensures Picked(items + [x], flags + [b]) == Picked(items, flags) + (if b then [x] else [])
    decreases |items|
  {
    if items == [] {
      assert items + [x] == [x] && flags + [b] == [b];
      assert [x][1..] == [] && [b][1..] == [];
    } else {
      assert (items + [x])[1..] == items[1..] + [x];
      assert (flags + [b])[1..] == flags[1..] + [b];
      PickedSnoc(items[1..], flags[1..], x, b);
      var head := if flags[0] then [items[0]] else [];
      var tail := if b then [x] else [];
      assert head + (Picked(items[1..], flags[1..]) + tail) == (head + Picked(items[1..], flags[1..])) + tail;
    }
  }

  /** `f` applied to the payload of each item, in order. */
  function Mapped<K, T, U>(f: T -> U, picked: seq<Item<K, T>>): (r: seq<U>)
    ensures |r| == |picked| && forall k :: 0 <= k < |picked| ==> r[k] == f(picked[k].payload)
  {
    seq(|picked|, k requires 0 <= k < |picked| => f(picked[k].payload))
  }

  /**
   * Where a loop that runs the pass one candidate at a time stands after the
   * first `i`: the flags so far followed by the pass over the rest, and `out`
   * holding `f` of every candidate taken so far.
   */
  ghost predicate Scanned<K, T, U>(items: seq<Item<K, T>>, seen0: seq<K>, f: T -> U,
                                   i: nat, taken: seq<bool>, seen: seq<K>, out: seq<U>)
  {
    |taken| == i <= |items|
    && Admit(items, seen0).taken == taken + Admit(items[i..], seen).taken
    && Admit(items, seen0).seen == Admit(items[i..], seen).seen
    && out == Mapped(f, Picked(items[..i], taken))
  }

  /** Deciding candidate `i` as the pass does keeps the loop's invariant. */
  lemma ScanStep<K, T, U>(items: seq<Item<K, T>>, seen0: seq<K>, f: T -> U,
                          i: nat, taken: seq<bool>, seen: seq<K>, out: seq<U>,
                          b: bool, seen': seq<K>, out': seq<U>)
    requires i < |items| && Scanned(items, seen0, f, i, taken, seen, out)
    requires b == (items[i].ok && items[i].key !in seen)
    requires seen' == if b then seen + [items[i].key] else seen
    requires out' == if b then out + [f(items[i].payload)] else out
    ensures Scanned(items, seen0, f, i + 1, taken + [b], seen', out')
  {
    ScanStepDecision(items, seen0, i, taken, seen, b, seen');
    ScanStepOut(items, f, i, taken, out, b, out');
  }

  lemma ScanStepDecision<K, T>(items: seq<Item<K, T>>, seen0: seq<K>, i: nat, taken: seq<bool>, seen: seq<K>,
                               b: bool, seen': seq<K>)
    requires i < |items|
    requires Admit(items, seen0).taken == taken + Admit(items[i..], seen).taken
    requires Admit(items, seen0).seen == Admit(items[i..], seen).seen
    requires b == (items[i].ok && items[i].key !in seen)
    requires seen' == if b then seen + [items[i].key] else seen
    ensures Admit(items, seen0).taken == (taken + [b]) + Admit(items[i + 1..], seen').taken
    ensures Admit(items, seen0).seen == Admit(items[i + 1..], seen').seen
  {
    AdmitStep(items, i, seen);
    Assoc(taken, [b], Admit(items[i + 1..], seen').taken);
  }

  lemma ScanStepOut<K, T, U>(items: seq<Item<K, T>>, f: T -> U, i: nat, taken: seq<bool>, out: seq<U>,
                             b: bool, out': seq<U>)
    requires i < |items| && |taken| == i
    requires out == Mapped(f, Picked(items[..i], taken))
    requires out' == if b then out + [f(items[i].payload)] else out
    ensures out' == Mapped(f, Picked(items[..i + 1], taken + [b]))
  {
    assert items[..i + 1] == items[..i] + [items[i]];
    PickedSnoc(items[..i], taken, items[i], b);
    MappedSnoc(f, Picked(items[..i], taken), items[i], b);
  }

  lemma MappedSnoc<K, T, U>(f: T -> U, p: seq<Item<K, T>>, x: Item<K, T>, b: bool)
    ensures Mapped(f, p + (if b then [x] else [])) == Mapped(f, p) + (if b then [f(x.payload)] else [])
  {
    if !b { assert p + [] == p; }
  }


  /** When the loop has decided every candidate, its state is that of the pass. */
  lemma ScanDone<K, T, U>(items: seq<Item<K, T>>, seen0: seq<K>, f: T -> U,
                          taken: seq<bool>, seen: seq<K>, out: seq<U>)
    requires Scanned(items, seen0, f, |items|, taken, seen, out)
    ensures Admit(items, seen0) == Decision(taken, seen)
    ensures out == Mapped(f, Picked(items, taken))
  {
    assert items[|items|..] == [] && items[..|items|] == items;
    assert taken + [] == taken;
  }

  /** The keys taken in one pass are distinct and none was seen before. */
  lemma {:induction false} TakenDistinct<K, T>(items: seq<Item<K, T>>, seen: seq<K>)
    ensures Distinct(Keys(Picked(items, Admit(items, seen).taken)))
    ensures forall k :: k in Keys(Picked(items, Admit(items, seen).taken)) ==> k !in seen
    decreases |items|
  {
    if items != [] {
      var take := items[0].ok && items[0].key !in seen;
      var seen' := if take then seen + [items[0].key] else seen;
      var rest := Admit(items[1..], seen');
      var d := Admit(items, seen);
      TakenDistinct(items[1..], seen');
      var p := Picked(items[1..], rest.taken);
      assert d.taken[1..] == rest.taken;
      var head := if take then [items[0]] else [];
      assert Picked(items, d.taken) == head + p;
      KeysAppend(head, p);
      var ks := Keys(p);
      forall k | k in ks ensures k !in seen' {
        var i :| 0 <= i < |ks| && ks[i] == k;
        assert k == p[i].key;
      }
      var all := Keys(head) + ks;
      if take {
        assert Keys(head) == [items[0].key];
        forall a, b | 0 <= a < b < |all| ensures all[a] != all[b] {
          assert all[b] == ks[b - 1];
          if a == 0 {
            assert ks[b - 1] in ks;
          } else {
            assert all[a] == ks[a - 1];
          }
        }
        forall k | k in all ensures k !in seen {
          if k != items[0].key { assert k in ks; }
        }
      } else {
        assert Keys(head) == [] && all == ks;
      }
    }
  }

  /** No key is taken twice over the lifetime of a process, nor one that was seen at its start. */
  lemma {:induction false} LifetimeOnce<K, T>(cycles: seq<seq<Item<K, T>>>, seen: seq<K>)
    ensures Distinct(Lifetime(cycles, seen))
    ensures forall k :: k in Lifetime(cycles, seen) ==> k !in seen
    decreases |cycles|
  {
    if cycles != [] {
      var d := Admit(cycles[0], seen);
      var first := Keys(Picked(cycles[0], d.taken));
      var later := Lifetime(cycles[1..], d.seen);
      TakenDistinct(cycles[0], seen);
      AdmitMeaning(cycles[0], seen);
      LifetimeOnce(cycles[1..], d.seen);
      assert d.seen == seen + first;
      forall i, j | 0 <= i < j < |first + later| ensures (first + later)[i] != (first + later)[j] {
        if j >= |first| && i < |first| {
          assert (first + later)[i] == first[i];
          assert (first + later)[j] == later[j - |first|];
          assert later[j - |first|] in later;
        } else if i >= |first| {
          assert (first + later)[i] == later[i - |first|];
          assert (first + later)[j] == later[j - |first|];
        }
      }
    }
  }

  /** The loop itself. */
  method AdmitAll<K(==), T>(items: seq<Item<K, T>>, seen: seq<K>) returns (taken: seq<bool>, seen': seq<K>)
    ensures Decision(taken, seen') == Admit(items, seen)
  {
    taken, seen' := [], seen;
    var i := 0;
    while i < |items|
      invariant 0 <= i <= |items| && |taken| == i
      invariant Admit(items, seen).taken == taken + Admit(items[i..], seen').taken
      invariant Admit(items, seen).seen == Admit(items[i..], seen').seen
    {
      ghost var taken0, seen0 := taken, seen';
      var x := items[i];
      var take := x.key !in seen' && x.ok;
      if take {
        seen' := seen' + [x.key];
      }
      taken := taken + [take];
      ScanStepDecision(items, seen, i, taken0, seen0, take, seen');
      i := i + 1;
    }
    assert items[i..] == [] && taken + [] == taken;
  }
}
