/** What the tree walk promises about the accumulator maps. */
module ExtractionFacts {
  import opened Wrappers
  import opened DebugInfo
  import opened SlotDecoding
  import opened QualifiedNames
  import opened Extraction

  /** Every key of the vtable and parent maps is on the vtable allow-list,
      every key of the member map is on the member allow-list, and no member
      map holds offset 0. */
  ghost predicate Invariant(t: Tables) {
    && (forall c :: c in t.vtables ==> c in VtableClassNames)
    && (forall c :: c in t.parents ==> c in VtableClassNames)
    && (forall c :: c in t.variables ==> c in VariableClassNames && 0 !in t.variables[c])
  }

  lemma EmptyTablesInvariant()
    ensures Invariant(EmptyTables)
  {
  }

  /** `SearchVirtualFunction` records nothing for a class or structure entry:
      only subprograms are virtual functions. */
  lemma RecordVirtualIgnoresClasses(t: Tables, loc: Loc)
    requires IsClassOrStruct(loc.node)
    ensures RecordVirtual(t, loc) == t
    ensures Visit(FunctionMode, t, loc) == t
  {
  }

  /** When the gate holds, the function's short name is stored at its slot
      under the enclosing class's qualified name, overwriting what was there
      and adding no class but that one;
      every other (class, slot) entry and the member map are untouched, and
      the class's parent is set to the enclosing entry's parent name when it
      has one. When the gate does not hold, nothing changes. */
  lemma RecordVirtualStoresAtSlot(t: Tables, loc: Loc)
    ensures var d := loc.node;
            var c := QualifiedName(loc.ancestors);
            var s := VirtualSlot(d.attrs);
            var r := RecordVirtual(t, loc);
            if d.name.Some? && IsVirtualFunction(d) && c in VtableClassNames then
              && r.vtables.Keys == t.vtables.Keys + {c}
              && s in r.vtables[c] && r.vtables[c][s] == d.name.value
              && r.variables == t.variables
              && r.parents == (if loc.ancestors != [] && ParentClassName(loc.ancestors[|loc.ancestors| - 1]).Some?
                               then t.parents[c := ParentClassName(loc.ancestors[|loc.ancestors| - 1]).value]
                               else t.parents)
              && (forall c', s' :: c' != c || s' != s ==>
                    (c' in r.vtables && s' in r.vtables[c'] <==> c' in t.vtables && s' in t.vtables[c'])
                    && (c' in r.vtables && s' in r.vtables[c'] ==> r.vtables[c'][s'] == t.vtables[c'][s']))
            else r == t
  {
    var d := loc.node;
    var c := QualifiedName(loc.ancestors);
    if d.name.Some? && IsVirtualFunction(d) && c in VtableClassNames {
      var r := RecordVirtual(t, loc);
      var parentName :=
        if loc.ancestors == [] then None else ParentClassName(loc.ancestors[|loc.ancestors| - 1]);
      assert r.parents == if parentName.Some? then t.parents[c := parentName.value] else t.parents;
      assert r.vtables == t.vtables[c := Inner(t.vtables, c)[VirtualSlot(d.attrs) := d.name.value]];
      InnerWrite(t.vtables, c, VirtualSlot(d.attrs), d.name.value);
    }
  }

  /** Writing one (class, key) entry of a nested map adds at most that class
      and leaves every other entry as it was. */
  lemma InnerWrite(m: map<string, map<U16, string>>, c: string, s: U16, name: string)
    ensures var r := m[c := Inner(m, c)[s := name]];
            && r.Keys == m.Keys + {c}
            && s in r[c] && r[c][s] == name
            && (forall c', s' :: c' != c || s' != s ==>
                  (c' in r && s' in r[c'] <==> c' in m && s' in m[c'])
                  && (c' in r && s' in r[c'] ==> r[c'][s'] == m[c'][s']))
  {
  }

  /** A parent is recorded only for a virtual function of an allow-listed
      class whose enclosing entry has a first inheritance child referring to a
      named type, and what is recorded is that type's short name. */
  lemma ParentRecordedFromFirstInheritance(t: Tables, loc: Loc)
    ensures var r := RecordVirtual(t, loc);
            r.parents != t.parents ==>
              && loc.ancestors != []
              && var p := loc.ancestors[|loc.ancestors| - 1];
                 exists i :: IsFirstInheritance(p.children, i)
                   && p.children[i].typeRef.Some? && p.children[i].typeRef.value.name.Some?
                   && r.parents == t.parents[QualifiedName(loc.ancestors) := p.children[i].typeRef.value.name.value]
  {
  }

  /** One member write keeps the invariant and touches only the member map. */
  lemma DecodeMemberInvariant(t: Tables, c: string, m: Die)
    requires Invariant(t)
    ensures Invariant(DecodeMember(t, c, m))
    ensures DecodeMember(t, c, m).vtables == t.vtables
    ensures DecodeMember(t, c, m).parents == t.parents
  {
    if WritesMember(c, m) {
      var off := VariableOffset(m);
      var inner := Inner(t.variables, c)[off := m.name.value];
      var r := DecodeMember(t, c, m);
      assert r.variables == t.variables[c := inner];
      assert c in VariableClassNames by {
        var i :| 0 <= i < |VariableClassNames| && VariableClassNames[i] == c;
      }
      assert 0 !in inner;
      forall k | k in r.variables ensures k in VariableClassNames && 0 !in r.variables[k] {
        if k != c { assert r.variables[k] == t.variables[k]; }
      }
    }
  }

  lemma {:induction false} DecodeMembersInvariant(t: Tables, c: string, kids: seq<Die>, n: nat)
    requires n <= |kids| && Invariant(t)
    ensures Invariant(DecodeMembers(t, c, kids, n))
    ensures DecodeMembers(t, c, kids, n).vtables == t.vtables
    ensures DecodeMembers(t, c, kids, n).parents == t.parents
  {
    if n > 0 {
      DecodeMembersInvariant(t, c, kids, n - 1);
      DecodeMemberInvariant(DecodeMembers(t, c, kids, n - 1), c, kids[n - 1]);
    }
  }

  lemma RecordVirtualInvariant(t: Tables, loc: Loc)
    requires Invariant(t)
    ensures Invariant(RecordVirtual(t, loc))
  {
    var d := loc.node;
    var c := QualifiedName(loc.ancestors);
    if d.name.Some? && IsVirtualFunction(d) && ClassNameExists(c, VtableClassNames) {
      assert c in VtableClassNames by {
        var i :| 0 <= i < |VtableClassNames| && VtableClassNames[i] == c;
      }
      var r := RecordVirtual(t, loc);
      assert r.variables == t.variables;
      assert r.vtables == t.vtables[c := Inner(t.vtables, c)[VirtualSlot(d.attrs) := d.name.value]];
      assert r.parents.Keys <= t.parents.Keys + {c};
    }
  }

  lemma DecodeClassInvariant(t: Tables, loc: Loc)
    requires Invariant(t)
    ensures Invariant(DecodeClass(t, loc))
  {
    var d := loc.node;
    if d.name.Some? {
      DecodeMembersInvariant(t, QualifiedName(loc.ancestors + [d]), d.children, |d.children|);
    }
  }

  lemma HandleInvariant(mode: Mode, t: Tables, loc: Loc)
    requires Invariant(t)
    ensures Invariant(Handle(mode, t, loc))
  {
    match mode
    case FunctionMode => RecordVirtualInvariant(t, loc);
    case MemberMode => DecodeClassInvariant(t, loc);
  }

  lemma VisitInvariant(mode: Mode, t: Tables, loc: Loc)
    requires Invariant(t)
    ensures Invariant(Visit(mode, t, loc))
  {
    HandleInvariant(mode, t, loc);
    var t1 := if IsClassOrStruct(loc.node) then Handle(mode, t, loc) else t;
    HandleInvariant(mode, t1, loc);
  }


  lemma {:induction false} FoldInvariant(mode: Mode, t: Tables, locs: seq<Loc>)
    requires Invariant(t)
    ensures Invariant(Fold(mode, t, locs))
    decreases |locs|
  {
    if locs != [] {
      VisitInvariant(mode, t, locs[0]);
      FoldInvariant(mode, Visit(mode, t, locs[0]), locs[1..]);
    }
  }

  /** Loading any units in any mode keeps every key on its allow-list and
      offset 0 out of the member map. */
  lemma {:induction false} LoadUnitsInvariant(t: Tables, units: seq<Die>, codeType: int, n: nat)
    requires n <= |units| && Invariant(t)
    ensures Invariant(LoadUnits(t, units, codeType, n))
  {
    if n > 0 {
      LoadUnitsInvariant(t, units, codeType, n - 1);
      var t1 := LoadUnits(t, units, codeType, n - 1);
      FoldInvariant(FunctionMode, t1, Preorder([], units[n - 1]));
      var t2 := if codeType == 0 then Walk(FunctionMode, t1, units[n - 1]) else t1;
      FoldInvariant(MemberMode, t2, Preorder([], units[n - 1]));
    }
  }

  /** One of the first `n` children writes `name` at `off`. */
  ghost predicate WrittenBy(c: string, kids: seq<Die>, n: nat, off: U16, name: string) {
    exists i :: 0 <= i < n <= |kids| && WritesMember(c, kids[i])
                && VariableOffset(kids[i]) == off && kids[i].name == Some(name)
  }

  /** Every write comes from a direct member child with a short name and a
      non-zero offset, one that carries the name stored there. */
  lemma {:induction false} MemberWritesFromMembers(c: string, kids: seq<Die>, n: nat)
    requires n <= |kids|
    ensures forall off :: off in MemberWrites(c, kids, n) ==>
              off > 0 && WrittenBy(c, kids, n, off, MemberWrites(c, kids, n)[off])
  {
    if n > 0 { MemberWritesFromMembers(c, kids, n - 1); }
  }

  /** The tables with the writes `w` overlaid on class `c`'s member map. */
  function Overlay(t: Tables, c: string, w: map<U16, string>): Tables {
    if w == map[] then t else t.(variables := t.variables[c := Inner(t.variables, c) + w])
  }

  /** Writing `v` at `off` over an overlay is overlaying the extended writes. */
  lemma OverlayWrite(t: Tables, c: string, w: map<U16, string>, off: U16, v: string)
    ensures Overlay(t, c, w).(variables := Overlay(t, c, w).variables[c := Inner(Overlay(t, c, w).variables, c)[off := v]])
            == Overlay(t, c, w[off := v])
  {
    var o := Overlay(t, c, w);
    var base := Inner(t.variables, c);
    assert Inner(o.variables, c) == base + w by {
      if w == map[] { assert base + w == base; }
    }
    assert (base + w)[off := v] == base + w[off := v];
    assert off in w[off := v];
    assert o.variables[c := base + w[off := v]] == t.variables[c := base + w[off := v]];
  }

  lemma OverlayStep(t: Tables, c: string, w: map<U16, string>, m: Die)
    ensures DecodeMember(Overlay(t, c, w), c, m)
              == Overlay(t, c, if WritesMember(c, m) then w[VariableOffset(m) := m.name.value] else w)
  {
    if WritesMember(c, m) {
      OverlayWrite(t, c, w, VariableOffset(m), m.name.value);
    }
  }

  /** `DecodeClass`'s loop overlays the offsets its children write on the
      class's existing member map, and creates no entry when nothing is
      written. */
  lemma {:induction false} DecodeMembersOverlay(t: Tables, c: string, kids: seq<Die>, n: nat)
    requires n <= |kids|
    ensures DecodeMembers(t, c, kids, n) == Overlay(t, c, MemberWrites(c, kids, n))
  {
    if n > 0 {
      DecodeMembersOverlay(t, c, kids, n - 1);
      OverlayStep(t, c, MemberWrites(c, kids, n - 1), kids[n - 1]);
    }
  }

  /** Decoding a class twice leaves the member map as decoding it once. */
  lemma DecodeClassIdempotent(t: Tables, loc: Loc)
    ensures DecodeClass(DecodeClass(t, loc), loc) == DecodeClass(t, loc)
  {
    var d := loc.node;
    if d.name.Some? {
      var c := QualifiedName(loc.ancestors + [d]);
      var n := |d.children|;
      var w := MemberWrites(c, d.children, n);
      DecodeMembersOverlay(t, c, d.children, n);
      var once := DecodeClass(t, loc);
      DecodeMembersOverlay(once, c, d.children, n);
      if w != map[] {
        assert Inner(once.variables, c) + w == Inner(t.variables, c) + w + w;
        assert Inner(t.variables, c) + w + w == Inner(t.variables, c) + w;
        assert once.variables[c := Inner(t.variables, c) + w] == once.variables;
      }
    }
  }

  /** `DecodeClass` records (offset, name) only for a direct member child of a
      named class on the member allow-list, whose short name is that name and
      whose offset is non-zero. */
  lemma DecodeClassRecordsDirectMembers(t: Tables, loc: Loc, c: string, off: U16)
    requires c in DecodeClass(t, loc).variables && off in DecodeClass(t, loc).variables[c]
    requires c !in t.variables || off !in t.variables[c]
             || t.variables[c][off] != DecodeClass(t, loc).variables[c][off]
    ensures loc.node.name.Some? && c == QualifiedName(loc.ancestors + [loc.node])
    ensures c in VariableClassNames && off > 0
    ensures WrittenBy(c, loc.node.children, |loc.node.children|, off, DecodeClass(t, loc).variables[c][off])
  {
    var d := loc.node;
    if d.name.Some? {
      var cls := QualifiedName(loc.ancestors + [d]);
      var w := MemberWrites(cls, d.children, |d.children|);
      DecodeMembersOverlay(t, cls, d.children, |d.children|);
      MemberWritesFromMembers(cls, d.children, |d.children|);
      if w != map[] {
        var r := t.variables[cls := Inner(t.variables, cls) + w];
        assert DecodeClass(t, loc).variables == r;
        if c == cls && off in w {
          var i :| 0 <= i < |d.children| && WritesMember(cls, d.children[i])
                   && VariableOffset(d.children[i]) == off && d.children[i].name == Some(w[off]);
          assert ClassNameExists(cls, VariableClassNames);
        }
      }
    }
  }
}
