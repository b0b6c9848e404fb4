/** `valueExists` and `CheckParentHasFunction`: is a function name already in
    the vtable of some ancestor? */
module Ancestry {
  import opened DebugInfo

  /** `valueExists`: scan a slot map for an entry whose name is `value`. The
      source scans in ascending slot order; the answer does not depend on the
      order. Its `ensures` is what justifies `CheckParentHasFunction` testing
      `f in vtables[p].Values` in place of the scan. */
  method ValueExists(m: map<U16, string>, value: string) returns (found: bool)
    ensures found <==> value in m.Values
  {
    var remaining := m.Keys;
    while remaining != {}
      invariant remaining <= m.Keys
      invariant forall k :: k in m && k !in remaining ==> m[k] != value
      decreases remaining
    {
      var k :| k in remaining;
      if m[k] == value {
        return true;
      }
      remaining := remaining - {k};
    }
    return false;
  }

  /** The outcome of `CheckParentHasFunction`. The source has no cycle guard:
      `Diverges` is the case in which its recursion never returns. */
  datatype Verdict = Inherited | NotInherited | Diverges

  /** `CheckParentHasFunction(c, f)`, with the classes already checked on this
      walk in `visited`: reaching one of them again means the source would
      recurse forever. The names in the ancestor's map are compared as
      stored, `<<` included. */
  function CheckParentHasFunction(
    vtables: map<string, map<U16, string>>, parents: map<string, string>,
    c: string, f: string, visited: set<string>): Verdict
    decreases parents.Keys - visited
  {
    if c in visited then Diverges
    else if c !in parents then NotInherited
    else if parents[c] !in vtables then NotInherited
    else if f in vtables[parents[c]].Values then Inherited
    else
      assert parents.Keys - (visited + {c}) < parents.Keys - visited;
      CheckParentHasFunction(vtables, parents, parents[c], f, visited + {c})
  }

  /** The source moves on from `c` to its parent: `c` has a parent, the parent
      has a vtable map, and `f` is not in it. */
  predicate Continues(vtables: map<string, map<U16, string>>, parents: map<string, string>,
                      c: string, f: string) {
    c in parents && parents[c] in vtables && f !in vtables[parents[c]].Values
  }

  /** The source's recursion, unrolled at most `n` times, returns true. */
  predicate FoundWithin(vtables: map<string, map<U16, string>>, parents: map<string, string>,
                        c: string, f: string, n: nat)
    decreases n
  {
    n > 0 && c in parents && parents[c] in vtables
    && (f in vtables[parents[c]].Values || FoundWithin(vtables, parents, parents[c], f, n - 1))
  }

  /** The source's recursion returns, either way, within `n` calls. */
  predicate StopsWithin(vtables: map<string, map<U16, string>>, parents: map<string, string>,
                        c: string, f: string, n: nat)
    decreases n
  {
    n > 0 && (!Continues(vtables, parents, c, f) || StopsWithin(vtables, parents, parents[c], f, n - 1))
  }

  /** `trail` is a walk of classes from which the source moved on, ending in
      a move to `c`. */
  ghost predicate Chain(vtables: map<string, map<U16, string>>, parents: map<string, string>,
                        trail: seq<string>, c: string, f: string) {
    forall i :: 0 <= i < |trail| ==>
      Continues(vtables, parents, trail[i], f) && parents[trail[i]] == (trail + [c])[i + 1]
  }

  /** On a cycle of moves the source neither finds `f` nor stops. */
  lemma {:induction false} CycleNeverStops(vtables: map<string, map<U16, string>>, parents: map<string, string>,
                                           cycle: seq<string>, f: string, n: nat)
    requires cycle != [] && Chain(vtables, parents, cycle, cycle[0], f)
    ensures forall k :: 0 <= k < |cycle| ==> !StopsWithin(vtables, parents, cycle[k], f, n)
    ensures forall k :: 0 <= k < |cycle| ==> !FoundWithin(vtables, parents, cycle[k], f, n)
  {
    if n > 0 {
      CycleNeverStops(vtables, parents, cycle, f, n - 1);
      forall k | 0 <= k < |cycle|
        ensures !StopsWithin(vtables, parents, cycle[k], f, n)
        ensures !FoundWithin(vtables, parents, cycle[k], f, n)
      {
        var next := if k + 1 < |cycle| then k + 1 else 0;
        assert parents[cycle[k]] == cycle[next];
      }
    }
  }

  lemma {:induction false} Characterize(vtables: map<string, map<U16, string>>, parents: map<string, string>,
                                        c: string, f: string, trail: seq<string>, visited: set<string>)
    requires Chain(vtables, parents, trail, c, f)
    requires forall x :: x in visited <==> x in trail
    ensures (CheckParentHasFunction(vtables, parents, c, f, visited) == Inherited)
            <==> (exists n: nat :: FoundWithin(vtables, parents, c, f, n))
    ensures (CheckParentHasFunction(vtables, parents, c, f, visited) == Diverges)
            <==> (forall n: nat :: !StopsWithin(vtables, parents, c, f, n))
    decreases parents.Keys - visited
  {
    if c in visited {
      var j :| 0 <= j < |trail| && trail[j] == c;
      var cycle := trail[j..];
      forall i | 0 <= i < |cycle|
        ensures Continues(vtables, parents, cycle[i], f) && parents[cycle[i]] == (cycle + [cycle[0]])[i + 1]
      {
        assert cycle[i] == trail[j + i];
        assert (trail + [c])[j + i + 1] == (cycle + [cycle[0]])[i + 1];
      }
      forall n: nat ensures !StopsWithin(vtables, parents, c, f, n) && !FoundWithin(vtables, parents, c, f, n) {
        CycleNeverStops(vtables, parents, cycle, f, n);
      }
    } else if !Continues(vtables, parents, c, f) {
      StopsNow(vtables, parents, c, f);
      if c in parents && parents[c] in vtables {
        FoundNow(vtables, parents, c, f);
      }
    } else {
      var p := parents[c];
      var trail' := trail + [c];
      forall i | 0 <= i < |trail'|
        ensures Continues(vtables, parents, trail'[i], f) && parents[trail'[i]] == (trail' + [p])[i + 1]
      {
        if i < |trail| { assert trail'[i] == trail[i]; assert (trail' + [p])[i + 1] == (trail + [c])[i + 1]; }
      }
      Characterize(vtables, parents, p, f, trail', visited + {c});
      if exists n: nat :: FoundWithin(vtables, parents, c, f, n) {
        var n: nat :| FoundWithin(vtables, parents, c, f, n);
        FoundDown(vtables, parents, c, f, n);
      }
      if exists n: nat :: FoundWithin(vtables, parents, p, f, n) {
        var n: nat :| FoundWithin(vtables, parents, p, f, n);
        FoundUp(vtables, parents, c, f, n);
      }
      if exists n: nat :: StopsWithin(vtables, parents, c, f, n) {
        var n: nat :| StopsWithin(vtables, parents, c, f, n);
        StopsDown(vtables, parents, c, f, n);
      }
      if exists n: nat :: StopsWithin(vtables, parents, p, f, n) {
        var n: nat :| StopsWithin(vtables, parents, p, f, n);
        StopsUp(vtables, parents, c, f, n);
      }
    }
  }

  lemma StopsNow(vtables: map<string, map<U16, string>>, parents: map<string, string>, c: string, f: string)
    requires !Continues(vtables, parents, c, f)
    ensures exists n: nat :: StopsWithin(vtables, parents, c, f, n)
  {
    var one: nat := 1;
    assert StopsWithin(vtables, parents, c, f, one);
  }

  lemma FoundNow(vtables: map<string, map<U16, string>>, parents: map<string, string>, c: string, f: string)
    requires c in parents && parents[c] in vtables && f in vtables[parents[c]].Values
    ensures exists n: nat :: FoundWithin(vtables, parents, c, f, n)
  {
    var one: nat := 1;
    assert FoundWithin(vtables, parents, c, f, one);
  }

  lemma FoundUp(vtables: map<string, map<U16, string>>, parents: map<string, string>, c: string, f: string, n: nat)
    requires Continues(vtables, parents, c, f) && FoundWithin(vtables, parents, parents[c], f, n)
    ensures exists k: nat :: FoundWithin(vtables, parents, c, f, k)
  {
    var k: nat := n + 1;
    assert FoundWithin(vtables, parents, c, f, k);
  }

  lemma FoundDown(vtables: map<string, map<U16, string>>, parents: map<string, string>, c: string, f: string, n: nat)
    requires Continues(vtables, parents, c, f) && FoundWithin(vtables, parents, c, f, n)
    ensures exists k: nat :: FoundWithin(vtables, parents, parents[c], f, k)
  {
    var k: nat := n - 1;
    assert FoundWithin(vtables, parents, parents[c], f, k);
  }

  lemma StopsUp(vtables: map<string, map<U16, string>>, parents: map<string, string>, c: string, f: string, n: nat)
    requires Continues(vtables, parents, c, f) && StopsWithin(vtables, parents, parents[c], f, n)
    ensures exists k: nat :: StopsWithin(vtables, parents, c, f, k)
  {
    var k: nat := n + 1;
    assert StopsWithin(vtables, parents, c, f, k);
  }

  lemma StopsDown(vtables: map<string, map<U16, string>>, parents: map<string, string>, c: string, f: string, n: nat)
    requires Continues(vtables, parents, c, f) && StopsWithin(vtables, parents, c, f, n)
    ensures exists k: nat :: StopsWithin(vtables, parents, parents[c], f, k)
  {
    var k: nat := n - 1;
    assert StopsWithin(vtables, parents, parents[c], f, k);
  }

  /** `CheckParentHasFunction(c, f)` is true exactly when, following parents
      from `c` while each parent has a vtable map, some parent's map holds
      `f`; it diverges exactly when that walk never returns. */
  lemma CheckParentHasFunctionSpec(vtables: map<string, map<U16, string>>, parents: map<string, string>,
                                   c: string, f: string)
    ensures (CheckParentHasFunction(vtables, parents, c, f, {}) == Inherited)
            <==> (exists n: nat :: FoundWithin(vtables, parents, c, f, n))
    ensures (CheckParentHasFunction(vtables, parents, c, f, {}) == Diverges)
            <==> (forall n: nat :: !StopsWithin(vtables, parents, c, f, n))
  {
    Characterize(vtables, parents, c, f, [], {});
  }

  /** A walk that finds `f` within `n` steps makes the check true. */
  lemma FoundMeansInherited(vtables: map<string, map<U16, string>>, parents: map<string, string>,
                            c: string, f: string, n: nat)
    requires FoundWithin(vtables, parents, c, f, n)
    ensures CheckParentHasFunction(vtables, parents, c, f, {}) == Inherited
  {
    CheckParentHasFunctionSpec(vtables, parents, c, f);
    assert exists k: nat :: FoundWithin(vtables, parents, c, f, k) by {
      assert FoundWithin(vtables, parents, c, f, n);
    }
  }
}
