/** Small reports worked out in full. */
module ReconcileExamples {
  import opened Wrappers
  import opened DebugInfo
  import opened Ordered
  import opened Strings
  import opened Ancestry
  import opened Reconcile

  /** `A` declares `foo` at slot 3; `B`, whose parent is `A`, declares `foo`
      at 3 and `bar` at 4. */
  const InheritVtables: map<string, map<U16, string>> := map["A" := map[3 := "foo"], "B" := map[3 := "foo", 4 := "bar"]]
  const InheritParents: map<string, string> := map["B" := "A"]

  /** Sections come in the order `A`, `B`. */
  lemma InheritClasses()
    ensures Classes(InheritVtables) == ["A", "B"]
  {
    assert StrLess("A", "B");
    assert Increasing(["A", "B"], StrLess);
    ClassesAre(InheritVtables, ["A", "B"]);
  }


  lemma InheritSlotsA()
    ensures InnerKeys(InheritVtables, "A") == [3]
  {
    InnerKeysAre(InheritVtables, "A", [3]);
  }

  lemma InheritSlotsB()
    ensures InnerKeys(InheritVtables, "B") == [3, 4]
  {
    InnerKeysAre(InheritVtables, "B", [3, 4]);
  }

  /** No ancestor check recurses forever here, so the report exists. */
  lemma InheritTerminates()
    ensures Terminates(InheritVtables, InheritParents)
  {
    InheritNames();
    assert "bar" !in InheritVtables["A"].Values;
    assert CheckParentHasFunction(InheritVtables, InheritParents, "A", "bar", {"B"}) == NotInherited;
  }

  lemma InheritNames()
    ensures StripMarker("foo") == "foo" && StripMarker("bar") == "bar"
  {
    assert FindDoubled("foo", '<', 0) == None;
    assert FindDoubled("bar", '<', 0) == None;
  }

  /** `A` has no parent: its `foo` survives. */
  lemma InheritCheckA()
    ensures Survives(InheritVtables, InheritParents, "A", 3)
  {
    InheritNames();
  }

  /** `B`'s `foo` is in `A`'s map; its `bar` is not. */
  lemma InheritChecksB()
    ensures !Survives(InheritVtables, InheritParents, "B", 3)
    ensures Survives(InheritVtables, InheritParents, "B", 4)
  {
    InheritNames();
    var a := InheritVtables["A"];
    assert a[3] in a.Values;
    assert "bar" !in a.Values;
    assert CheckParentHasFunction(InheritVtables, InheritParents, "A", "bar", {"B"}) == NotInherited;
  }

  /** `A` prints `foo`. */
  lemma InheritRecordsA()
    ensures ClassRecords(InheritVtables, InheritParents, "A") == [Function("foo", None, 3)]
  {
    InheritSlotsA();
    InheritSurvivorsA();
    InheritEmittedA();
  }

  lemma InheritSurvivorsA()
    ensures Survivors(InheritVtables, InheritParents, "A", [3]) == [3]
  {
    InheritCheckA();
    assert [3][..0] == [];
  }

  lemma InheritEmittedA()
    ensures Emitted(InheritVtables["A"], [3]) == [Function("foo", None, 3)]
  {
    InheritNames();
    assert [3][..0] == [];
    assert Name(InheritVtables["A"], 3) == "foo";
  }

  /** `B` prints only `bar`: its `foo` is found in `A`'s map. */
  lemma InheritRecordsB()
    ensures ClassRecords(InheritVtables, InheritParents, "B") == [Function("bar", None, 4)]
  {
    InheritSlotsB();
    InheritSurvivorsB();
    InheritEmittedB();
  }

  lemma InheritSurvivorsB()
    ensures Survivors(InheritVtables, InheritParents, "B", [3, 4]) == [4]
  {
    InheritChecksB();
    assert [3, 4][..1] == [3];
    assert [3][..0] == [];
    assert Survivors(InheritVtables, InheritParents, "B", [3]) == [];
  }

  lemma InheritEmittedB()
    ensures Emitted(InheritVtables["B"], [4]) == [Function("bar", None, 4)]
  {
    InheritNames();
    assert [4][..0] == [];
    assert Name(InheritVtables["B"], 4) == "bar";
  }

  /** `X` and `Y` are each other's parent, `X` declares `f` and `Y` declares
      `g` at slot 1. */
  const CycleVtables: map<string, map<U16, string>> := map["X" := map[1 := "f"], "Y" := map[1 := "g"]]
  const CycleParents: map<string, string> := map["X" := "Y", "Y" := "X"]

  /** A parent cycle need not make the run loop: each check goes round the
      cycle and finds the name in the class's own map, so every check
      returns and both entries are suppressed. */
  lemma CycleFound()
    ensures Terminates(CycleVtables, CycleParents)
    ensures !Survives(CycleVtables, CycleParents, "X", 1)
    ensures !Survives(CycleVtables, CycleParents, "Y", 1)
  {
    assert FindDoubled("f", '<', 0) == None;
    assert FindDoubled("g", '<', 0) == None;
    var x, y := CycleVtables["X"], CycleVtables["Y"];
    assert x[1] in x.Values && y[1] in y.Values;
    assert "f" !in y.Values && "g" !in x.Values;
    assert CheckParentHasFunction(CycleVtables, CycleParents, "Y", "f", {"X"}) == Inherited;
    assert CheckParentHasFunction(CycleVtables, CycleParents, "X", "g", {"Y"}) == Inherited;
  }

  /** The report then has the two headers and nothing under them. */
  lemma CycleRecords()
    ensures ClassRecords(CycleVtables, CycleParents, "X") == []
    ensures ClassRecords(CycleVtables, CycleParents, "Y") == []
  {
    CycleFound();
    InnerKeysAre(CycleVtables, "X", [1]);
    InnerKeysAre(CycleVtables, "Y", [1]);
    assert [1][..0] == [];
  }

  /** The same cycle with `X`'s entry stored as `f<<`. */
  const MarkedCycleVtables: map<string, map<U16, string>> := map["X" := map[1 := "f<<"], "Y" := map[1 := "g"]]

  /** The check on the stripped name `f` compares it with the stored `f<<`,
      never matches, and goes round the cycle forever: this run loops. */
  lemma MarkedCycleLoops()
    ensures CheckParentHasFunction(MarkedCycleVtables, CycleParents, "X", Name(MarkedCycleVtables["X"], 1), {}) == Diverges
    ensures !Terminates(MarkedCycleVtables, CycleParents)
  {
    assert FindDoubled("f<<", '<', 1) == Some(1);
    assert FindDoubled("f<<", '<', 0) == Some(1);
    assert "f<<"[..1] + "f<<"[3..] == "f";
    assert Name(MarkedCycleVtables["X"], 1) == "f";
    var x, y := MarkedCycleVtables["X"], MarkedCycleVtables["Y"];
    assert "f" !in y.Values && "f" !in x.Values;
    assert CheckParentHasFunction(MarkedCycleVtables, CycleParents, "Y", "f", {"X"}) == Diverges;
  }

  /** A class with entries at slots 0, 2 and 5, the last two both named
      `Tick` once "<<" is stripped. */
  const OverloadVtables: map<string, map<U16, string>> := map["C" := map[0 := "~C", 2 := "Tick", 5 := "Tick<<"]]

  lemma OverloadSlots()
    ensures InnerKeys(OverloadVtables, "C") == [0, 2, 5]
  {
    InnerKeysAre(OverloadVtables, "C", [0, 2, 5]);
  }

  /** Both `Tick` entries have the same name once "<<" is stripped. */
  lemma OverloadNames()
    ensures Name(OverloadVtables["C"], 2) == "Tick"
    ensures Name(OverloadVtables["C"], 5) == "Tick"
  {
    TickPlain();
    TickMarked();
  }

  lemma TickPlain()
    ensures StripMarker("Tick") == "Tick"
  {
    assert FindDoubled("Tick", '<', 0) == None;
  }

  lemma TickMarked()
    ensures StripMarker("Tick<<") == "Tick"
  {
    assert FindDoubled("Tick<<", '<', 0) == Some(4);
    assert "Tick<<"[..4] == "Tick";
  }

  /** With no parents, only slot 0 is dropped. */
  lemma OverloadSurvivors()
    ensures Survivors(OverloadVtables, map[], "C", [0, 2, 5]) == [2, 5]
  {
    assert [0, 2, 5][..2] == [0, 2];
    assert [0, 2, 5][..2][..1] == [0];
    assert Survivors(OverloadVtables, map[], "C", [0]) == [];
    assert Survivors(OverloadVtables, map[], "C", [0, 2]) == [2];
  }

  /** The destructor pair precedes slot 2, and the second `Tick` gets
      suffix 1. */
  lemma OverloadEmitted()
    ensures Emitted(OverloadVtables["C"], [2, 5])
            == [VecDelDtor(0), VecDelDtor(1), Function("Tick", None, 2), Function("Tick", Some(1), 5)]
  {
    OverloadNames();
    var m := OverloadVtables["C"];
    assert [2, 5][..1] == [2];
    assert Occurrences(m, [2], "Tick") == 1;
    assert Emitted(m, [2]) == [VecDelDtor(0), VecDelDtor(1), Function("Tick", None, 2)];
  }

  /** Slot 0 is dropped, the destructor pair precedes slot 2, and the
      second `Tick` gets suffix 1. */
  lemma OverloadExample()
    ensures ClassRecords(OverloadVtables, map[], "C")
            == [VecDelDtor(0), VecDelDtor(1), Function("Tick", None, 2), Function("Tick", Some(1), 5)]
  {
    OverloadSlots();
    OverloadSurvivors();
    OverloadEmitted();
  }
}
