/** The three accumulator maps and what the tree walk does to them, as pure
    functions: the reference that the `Session` methods are proved against. */
module Extraction {
  import opened Wrappers
  import opened DebugInfo
  import opened SlotDecoding
  import opened QualifiedNames

  /** `allTargetVariables`, `allTargetVtables` and `allTargetParents`. The
      member map's keys are `uint32_t` in the source but only ever receive
      16-bit offsets. */
  datatype Tables = Tables(
    variables: map<string, map<U16, string>>,
    vtables: map<string, map<U16, string>>,
    parents: map<string, string>)

  const EmptyTables := Tables(map[], map[], map[])

  /** The map `m[key]` denotes in C++: a missing key reads as an empty map. */
  function Inner(m: map<string, map<U16, string>>, key: string): map<U16, string> {
    if key in m then m[key] else map[]
  }

  /** The code type selected on the command line: 0 walks for virtual
      functions, 1 for data members. */
  datatype Mode = FunctionMode | MemberMode

  // ---------------------------------------------------------------- parents

  ghost predicate IsFirstInheritance(kids: seq<Die>, i: int) {
    0 <= i < |kids| && kids[i].tag == Inheritance
    && forall j :: 0 <= j < i ==> kids[j].tag != Inheritance
  }

  function FirstInheritance(kids: seq<Die>, k: nat): (r: Option<nat>)
    requires k <= |kids|
    ensures r.Some? ==> k <= r.value < |kids| && kids[r.value].tag == Inheritance
    ensures forall i :: k <= i < |kids| && (r.None? || i < r.value) ==> kids[i].tag != Inheritance
    decreases |kids| - k
  {
    if k == |kids| then None
    else if kids[k].tag == Inheritance then Some(k)
    else FirstInheritance(kids, k + 1)
  }

  /** `getParentClass(D).getShortName()`: the short name of the type that the
      first inheritance child refers to; later inheritance children are never
      looked at. */
  function ParentClassName(d: Die): (r: Option<string>)
    ensures r.Some? <==> exists i :: IsFirstInheritance(d.children, i)
                                    && d.children[i].typeRef.Some?
                                    && d.children[i].typeRef.value.name.Some?
    ensures forall i :: IsFirstInheritance(d.children, i) && r.Some?
                        ==> r.value == d.children[i].typeRef.value.name.value
  {
    var first := FirstInheritance(d.children, 0);
    assert forall i :: IsFirstInheritance(d.children, i) ==> first == Some(i);
    match first
    case None => None
    case Some(i) =>
      assert IsFirstInheritance(d.children, i);
      match d.children[i].typeRef
      case None => None
      case Some(t) => t.name
  }

  // ------------------------------------------------------- function mode

  /** `SearchVirtualFunction` on the entry at `loc`: a named virtual function
      whose enclosing entry's qualified name is on the vtable allow-list is
      stored at its slot (last write wins), and the enclosing entry's parent,
      when it has one, is recorded for that class. */
  function RecordVirtual(t: Tables, loc: Loc): Tables {
    var d := loc.node;
    if d.name.Some? && IsVirtualFunction(d) then
      var className := QualifiedName(loc.ancestors);
      if ClassNameExists(className, VtableClassNames) then
        var parentName :=
          if loc.ancestors == [] then None else ParentClassName(loc.ancestors[|loc.ancestors| - 1]);
        var slot := VirtualSlot(d.attrs);
        var parents := if parentName.Some? then t.parents[className := parentName.value] else t.parents;
        t.(parents := parents,
           vtables := t.vtables[className := Inner(t.vtables, className)[slot := d.name.value]])
      else t
    else t
  }

  // --------------------------------------------------------- member mode

  /** Whether the child `m` of a class named `className` is recorded. */
  predicate WritesMember(className: string, m: Die) {
    m.tag == Member && m.name.Some? && ClassNameExists(className, VariableClassNames)
    && VariableOffset(m) > 0
  }

  /** One iteration of `DecodeClass`'s loop. */
  function DecodeMember(t: Tables, className: string, m: Die): Tables {
    if WritesMember(className, m) then
      t.(variables := t.variables[className :=
           Inner(t.variables, className)[VariableOffset(m) := m.name.value]])
    else t
  }

  /** The first `n` iterations of `DecodeClass`'s loop. */
  function DecodeMembers(t: Tables, className: string, kids: seq<Die>, n: nat): Tables
    requires n <= |kids|
  {
    if n == 0 then t else DecodeMember(DecodeMembers(t, className, kids, n - 1), className, kids[n - 1])
  }

  /** `DecodeClass` on the entry at `loc`. */
  function DecodeClass(t: Tables, loc: Loc): Tables {
    var d := loc.node;
    if d.name.Some? then
      DecodeMembers(t, QualifiedName(loc.ancestors + [d]), d.children, |d.children|)
    else t
  }

  /** The offsets the first `n` children write, each with the last name
      written there. */
  function MemberWrites(className: string, kids: seq<Die>, n: nat): map<U16, string>
    requires n <= |kids|
  {
    if n == 0 then map[]
    else
      var w := MemberWrites(className, kids, n - 1);
      if WritesMember(className, kids[n - 1]) then w[VariableOffset(kids[n - 1]) := kids[n - 1].name.value]
      else w
  }

  // ----------------------------------------------------------- the walk

  /** The handler the walk calls for `mode`. */
  function Handle(mode: Mode, t: Tables, loc: Loc): Tables {
    match mode
    case FunctionMode => RecordVirtual(t, loc)
    case MemberMode => DecodeClass(t, loc)
  }

  /** What `SearcheFunction`/`SearchClass` do at one entry before descending:
      two independent checks feeding the same handler. */
  function Visit(mode: Mode, t: Tables, loc: Loc): Tables {
    var t1 := if IsClassOrStruct(loc.node) then Handle(mode, t, loc) else t;
    if loc.node.containingType.Some? then Handle(mode, t1, loc) else t1
  }

  /** The entries visited from `d`, in visiting order: `d` itself, then the
      subtree of each child in turn. */
  function Preorder(ancestors: seq<Die>, d: Die): seq<Loc>
    decreases d, 1, 0
  {
    [Loc(ancestors, d)] + PreorderKids(ancestors + [d], d, |d.children|)
  }

  /** The subtrees of the first `n` children of `d`, whose own path is `path`. */
  function PreorderKids(path: seq<Die>, d: Die, n: nat): seq<Loc>
    requires n <= |d.children|
    decreases d, 0, n
  {
    if n == 0 then [] else PreorderKids(path, d, n - 1) + Preorder(path, d.children[n - 1])
  }

  /** Applying the visits of `locs` in order. */
  function Fold(mode: Mode, t: Tables, locs: seq<Loc>): Tables
    decreases |locs|
  {
    if locs == [] then t else Fold(mode, Visit(mode, t, locs[0]), locs[1..])
  }

  /** The whole walk from the unit entry `root`. */
  function Walk(mode: Mode, t: Tables, root: Die): Tables {
    Fold(mode, t, Preorder([], root))
  }

  /** `LoadDwarfFile`'s dispatch over the unit entries of the first `n` units:
      code type 0 runs the function walk, 1 the member walk, anything else
      neither. */
  function LoadUnits(t: Tables, units: seq<Die>, codeType: int, n: nat): Tables
    requires n <= |units|
  {
    if n == 0 then t
    else
      var t1 := LoadUnits(t, units, codeType, n - 1);
      var t2 := if codeType == 0 then Walk(FunctionMode, t1, units[n - 1]) else t1;
      if codeType == 1 then Walk(MemberMode, t2, units[n - 1]) else t2
  }

  // ------------------------------------------------------------- lemmas

  lemma {:induction false} FoldAppend(mode: Mode, t: Tables, a: seq<Loc>, b: seq<Loc>)
    ensures Fold(mode, t, a + b) == Fold(mode, Fold(mode, t, a), b)
    decreases |a|
  {
    if a != [] {
      assert (a + b)[1..] == a[1..] + b;
      FoldAppend(mode, Visit(mode, t, a[0]), a[1..], b);
    } else {
      assert a + b == b;
    }
  }

  /** The number of entries in the tree under `d`, `d` included. */
  function Size(d: Die): nat
    decreases d, 1, 0
  {
    1 + SizeKids(d, |d.children|)
  }

  function SizeKids(d: Die, n: nat): nat
    requires n <= |d.children|
    decreases d, 0, n
  {
    if n == 0 then 0 else SizeKids(d, n - 1) + Size(d.children[n - 1])
  }

  /** The walk visits exactly as many entries as the tree has. */
  lemma {:induction false} PreorderSize(ancestors: seq<Die>, d: Die)
    ensures |Preorder(ancestors, d)| == Size(d)
    decreases d, 1, 0
  {
    PreorderKidsSize(ancestors + [d], d, |d.children|);
  }

  lemma {:induction false} PreorderKidsSize(path: seq<Die>, d: Die, n: nat)
    requires n <= |d.children|
    ensures |PreorderKids(path, d, n)| == SizeKids(d, n)
    decreases d, 0, n
  {
    if n > 0 {
      PreorderKidsSize(path, d, n - 1);
      PreorderSize(path, d.children[n - 1]);
    }
  }

  /** The walk starts at the entry itself and descends into every child: each
      entry of a child's subtree is visited, with the entry appended to its
      path, and nothing else is. */
  lemma {:induction false} PreorderVisitsChildren(ancestors: seq<Die>, d: Die)
    ensures Preorder(ancestors, d)[0] == Loc(ancestors, d)
    ensures forall i, l :: 0 <= i < |d.children| && l in Preorder(ancestors + [d], d.children[i])
              ==> l in Preorder(ancestors, d)
    ensures forall l :: l in Preorder(ancestors, d) ==>
              l == Loc(ancestors, d)
              || exists i :: 0 <= i < |d.children| && l in Preorder(ancestors + [d], d.children[i])
  {
    forall i, l | 0 <= i < |d.children| && l in Preorder(ancestors + [d], d.children[i])
      ensures l in Preorder(ancestors, d)
    {
      KidsContain(ancestors + [d], d, |d.children|, i, l);
    }
    forall l | l in Preorder(ancestors, d) && l != Loc(ancestors, d)
      ensures exists i :: 0 <= i < |d.children| && l in Preorder(ancestors + [d], d.children[i])
    {
      KidsFrom(ancestors + [d], d, |d.children|, l);
    }
  }

  lemma {:induction false} KidsContain(path: seq<Die>, d: Die, n: nat, i: nat, l: Loc)
    requires i < n <= |d.children| && l in Preorder(path, d.children[i])
    ensures l in PreorderKids(path, d, n)
    decreases n
  {
    if i < n - 1 { KidsContain(path, d, n - 1, i, l); }
  }

  lemma {:induction false} KidsFrom(path: seq<Die>, d: Die, n: nat, l: Loc)
    requires n <= |d.children| && l in PreorderKids(path, d, n)
    ensures exists i :: 0 <= i < n && l in Preorder(path, d.children[i])
    decreases n
  {
    if l !in Preorder(path, d.children[n - 1]) {
      KidsFrom(path, d, n - 1, l);
    }
  }
}
