/** The extractor as the source writes it: three global maps that the tree
    walks update in place, then a reporting pass over them. Each method is
    proved against the pure functions of `Extraction` and `Pipeline`. */
module Program {
  import opened Wrappers
  import opened DebugInfo
  import opened SlotDecoding
  import opened QualifiedNames
  import opened Extraction
  import opened Reconcile
  import opened MemberReport
  import opened Pipeline

  /** `allTargetVariables`, `allTargetVtables` and `allTargetParents`. */
  class Session {
    var variables: map<string, map<U16, string>>
    var vtables: map<string, map<U16, string>>
    var parents: map<string, string>

    /** The three maps as one value. */
    function State(): Tables
      reads this
    {
      Tables(variables, vtables, parents)
    }

    /** The maps start empty. */
    constructor ()
      ensures State() == EmptyTables
    {
      variables := map[];
      vtables := map[];
      parents := map[];
    }

    /** `SearchVirtualFunction` on the entry at `loc`. */
    method SearchVirtualFunction(loc: Loc)
      modifies this
      ensures State() == RecordVirtual(old(State()), loc)
    {
      var d := loc.node;
      if d.name.Some? && IsVirtualFunction(d) {
        var className := GetQualifiedName(loc.ancestors);
        if ClassNameExists(className, VtableClassNames) {
          var parentName :=
            if loc.ancestors == [] then None else ParentClassName(loc.ancestors[|loc.ancestors| - 1]);
          var offset := GetVirtualFunctionOffset(d);
          if parentName.Some? {
            parents := parents[className := parentName.value];
          }
          vtables := vtables[className := Inner(vtables, className)[offset := d.name.value]];
        }
      }
    }

    /** `SearcheFunction`: visit `d`, then each child's subtree in order. */
    method SearcheFunction(ancestors: seq<Die>, d: Die)
      modifies this
      ensures State() == Fold(FunctionMode, old(State()), Preorder(ancestors, d))
      decreases d
    {
      ghost var t0 := State();
      var loc := Loc(ancestors, d);
      if IsClassOrStruct(d) {
        SearchVirtualFunction(loc);
      }
      if d.containingType.Some? {
        SearchVirtualFunction(loc);
      }
      ghost var t1 := State();
      assert t1 == Visit(FunctionMode, t0, loc);
      var path := ancestors + [d];
      for i := 0 to |d.children|
        invariant State() == Fold(FunctionMode, t1, PreorderKids(path, d, i))
      {
        SearcheFunction(path, d.children[i]);
        FoldAppend(FunctionMode, t1, PreorderKids(path, d, i), Preorder(path, d.children[i]));
      }
      WalkUnfolds(FunctionMode, t0, ancestors, d);
    }

    /** `DecodeClass` on the entry at `loc`. */
    method DecodeClass(loc: Loc)
      modifies this
      ensures State() == Extraction.DecodeClass(old(State()), loc)
    {
      var d := loc.node;
      if d.name.Some? {
        ghost var t0 := State();
        ghost var owner := QualifiedName(loc.ancestors + [d]);
        for i := 0 to |d.children|
          invariant State() == DecodeMembers(t0, owner, d.children, i)
        {
          var child := d.children[i];
          if child.tag == Member {
            var offset := VariableOffset(child);
            var className := GetQualifiedName(loc.ancestors + [d]);
            if child.name.Some? && ClassNameExists(className, VariableClassNames) && offset > 0 {
              variables := variables[className := Inner(variables, className)[offset := child.name.value]];
            }
          }
        }
      }
    }

    /** `SearchClass`: visit `d`, then each child's subtree in order. */
    method SearchClass(ancestors: seq<Die>, d: Die)
      modifies this
      ensures State() == Fold(MemberMode, old(State()), Preorder(ancestors, d))
      decreases d
    {
      ghost var t0 := State();
      var loc := Loc(ancestors, d);
      if IsClassOrStruct(d) {
        DecodeClass(loc);
      }
      if d.containingType.Some? {
        DecodeClass(loc);
      }
      ghost var t1 := State();
      assert t1 == Visit(MemberMode, t0, loc);
      var path := ancestors + [d];
      for i := 0 to |d.children|
        invariant State() == Fold(MemberMode, t1, PreorderKids(path, d, i))
      {
        SearchClass(path, d.children[i]);
        FoldAppend(MemberMode, t1, PreorderKids(path, d, i), Preorder(path, d.children[i]));
      }
      WalkUnfolds(MemberMode, t0, ancestors, d);
    }

    /** `LoadDwarfFile` over the unit entries of the compilation units. */
    method LoadDwarfFile(units: seq<Die>, codeType: int)
      modifies this
      ensures State() == LoadUnits(old(State()), units, codeType, |units|)
    {
      ghost var t0 := State();
      for n := 0 to |units|
        invariant State() == LoadUnits(t0, units, codeType, n)
      {
        if codeType == 0 {
          SearcheFunction([], units[n]);
        }
        if codeType == 1 {
          SearchClass([], units[n]);
        }
      }
    }

    /** The reporting part of `main`: code type 1 lists the member map, code
        type 0 installs the two parent overrides and lists the reconciled
        vtables. */
    method Finish(codeType: int) returns (out: Output)
      modifies this
      ensures out == OutputFrom(old(State()), codeType)
      ensures variables == old(variables) && vtables == old(vtables)
      ensures parents == if codeType == 0 then WithOverrides(old(parents)) else old(parents)
    {
      if codeType == 1 {
        var sections := ReportMembers(variables);
        out := MemberListing(sections);
      } else if codeType != 0 {
        out := Silent;
      } else {
        parents := WithOverrides(parents);
        var r := ReportVtables(vtables, parents);
        out := if r.Some? then VtableListing(r.value) else Loops;
      }
    }
  }

  /** Visiting the root and then folding the children's subtrees is the fold
      over the whole preorder. */
  lemma WalkUnfolds(mode: Mode, t: Tables, ancestors: seq<Die>, d: Die)
    ensures Fold(mode, Visit(mode, t, Loc(ancestors, d)), PreorderKids(ancestors + [d], d, |d.children|))
            == Fold(mode, t, Preorder(ancestors, d))
  {
    var locs := Preorder(ancestors, d);
    assert locs[0] == Loc(ancestors, d);
    assert locs[1..] == PreorderKids(ancestors + [d], d, |d.children|);
  }

  /** The whole program on the unit entries `units`. */
  method Run(units: seq<Die>, codeType: int) returns (out: Output)
    ensures out == ProgramOutput(units, codeType)
  {
    var s := new Session();
    s.LoadDwarfFile(units, codeType);
    out := s.Finish(codeType);
  }
}
