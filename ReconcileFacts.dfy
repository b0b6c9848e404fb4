/** What the function-mode report promises: which entries are printed, in
    what order, under which names, and where the destructor pair goes. */
module ReconcileFacts {
  import opened Wrappers
  import opened DebugInfo
  import opened Ordered
  import opened Ancestry
  import opened Reconcile

  /** The `Function` records of `rs`, in order. */
  function Functions(rs: seq<Record>): seq<Record> {
    if rs == [] then []
    else (if rs[0].Function? then [rs[0]] else []) + Functions(rs[1..])
  }

  lemma {:induction false} FunctionsMembers(rs: seq<Record>)
    ensures forall x :: x in Functions(rs) <==> x in rs && x.Function?
  {
    if rs != [] {
      assert forall x :: x in rs <==> x == rs[0] || x in rs[1..];
      FunctionsMembers(rs[1..]);
    }
  }

  lemma {:induction false} FunctionsAppend(a: seq<Record>, b: seq<Record>)
    ensures Functions(a + b) == Functions(a) + Functions(b)
  {
    if a == [] {
      assert a + b == b;
    } else {
      assert (a + b)[0] == a[0];
      assert (a + b)[1..] == a[1..] + b;
      FunctionsAppend(a[1..], b);
    }
  }

  /** How many of the records in `rs` print the name `nm`. */
  function NameCount(rs: seq<Record>, nm: string): nat {
    if rs == [] then 0
    else NameCount(rs[..|rs| - 1], nm) + (if rs[|rs| - 1].Function? && rs[|rs| - 1].name == nm then 1 else 0)
  }

  lemma FunctionsEmitOne(e: seq<Record>, nm: string, earlier: nat, s: U16)
    ensures Functions(e + EmitOne(nm, earlier, s)) == Functions(e) + [Function(nm, Suffix(earlier), s)]
  {
    var pre := if s == 2 then [VecDelDtor(0), VecDelDtor(1)] else [];
    var f := Function(nm, Suffix(earlier), s);
    assert EmitOne(nm, earlier, s) == pre + [f];
    FunctionsAppend(e, pre + [f]);
    FunctionsAppend(pre, [f]);
    assert Functions(pre) == [];
    assert Functions([f]) == [f];
  }

  /** The last surviving slot adds one `Function` record at the end. */
  lemma EmittedFunctionsStep(m: map<U16, string>, ss: seq<U16>)
    requires ss != [] && forall k :: k in ss ==> k in m
    ensures Functions(Emitted(m, ss))
            == Functions(Emitted(m, ss[..|ss| - 1]))
               + [Function(Name(m, ss[|ss| - 1]), Suffix(Occurrences(m, ss[..|ss| - 1], Name(m, ss[|ss| - 1]))), ss[|ss| - 1])]
  {
    var init := ss[..|ss| - 1];
    var s := ss[|ss| - 1];
    FunctionsEmitOne(Emitted(m, init), Name(m, s), Occurrences(m, init, Name(m, s)), s);
  }

  lemma {:induction false} EmittedFunctionsLength(m: map<U16, string>, ss: seq<U16>)
    requires forall k :: k in ss ==> k in m
    ensures |Functions(Emitted(m, ss))| == |ss|
  {
    if ss != [] {
      var init := ss[..|ss| - 1];
      assert forall k :: k in init ==> k in ss;
      EmittedFunctionsLength(m, init);
      EmittedFunctionsStep(m, ss);
    }
  }

  lemma {:induction false} EmittedFunctionAt(m: map<U16, string>, ss: seq<U16>, j: nat)
    requires j < |ss| && forall k :: k in ss ==> k in m
    ensures |Functions(Emitted(m, ss))| == |ss|
    ensures forall k :: k in ss[..j] ==> k in m
    ensures Functions(Emitted(m, ss))[j]
            == Function(Name(m, ss[j]), Suffix(Occurrences(m, ss[..j], Name(m, ss[j]))), ss[j])
  {
    var init := ss[..|ss| - 1];
    assert forall k :: k in init ==> k in ss;
    EmittedFunctionsLength(m, ss);
    EmittedFunctionsLength(m, init);
    EmittedFunctionsStep(m, ss);
    if j < |init| {
      EmittedFunctionAt(m, init, j);
      assert ss[..j] == init[..j];
      assert ss[j] == init[j];
    } else {
      assert ss[..j] == init;
    }
  }

  /** Each surviving slot yields one `Function` record, in the order of the
      slots, named after the slot's stripped name and suffixed with the
      number of earlier survivors of the same name. */
  lemma EmittedFunctions(m: map<U16, string>, ss: seq<U16>)
    requires forall k :: k in ss ==> k in m
    ensures |Functions(Emitted(m, ss))| == |ss|
    ensures forall j :: 0 <= j < |ss| ==>
              Functions(Emitted(m, ss))[j]
              == Function(Name(m, ss[j]), Suffix(Occurrences(m, ss[..j], Name(m, ss[j]))), ss[j])
  {
    EmittedFunctionsLength(m, ss);
    forall j | 0 <= j < |ss|
      ensures Functions(Emitted(m, ss))[j]
              == Function(Name(m, ss[j]), Suffix(Occurrences(m, ss[..j], Name(m, ss[j]))), ss[j])
    {
      EmittedFunctionAt(m, ss, j);
    }
  }

  /** `__vecDelDtor` records come only in the pair at 0 and 1, and a record
      at slot 2 is immediately preceded by that pair. */
  predicate PairPrecedesSlot2(rs: seq<Record>) {
    && (forall j :: 0 <= j < |rs| && rs[j].Function? && rs[j].slot == 2 ==>
          2 <= j && rs[j - 2] == VecDelDtor(0) && rs[j - 1] == VecDelDtor(1))
    && (forall r :: r in rs && r.VecDelDtor? ==> r.slot == 0 || r.slot == 1)
  }

  lemma PairAppend(e: seq<Record>, nm: string, earlier: nat, s: U16)
    requires PairPrecedesSlot2(e)
    ensures PairPrecedesSlot2(e + EmitOne(nm, earlier, s))
  {
    var pre := if s == 2 then [VecDelDtor(0), VecDelDtor(1)] else [];
    var f := Function(nm, Suffix(earlier), s);
    var rs := e + EmitOne(nm, earlier, s);
    assert rs == e + pre + [f];
    forall j | 0 <= j < |rs| && rs[j].Function? && rs[j].slot == 2
      ensures 2 <= j && rs[j - 2] == VecDelDtor(0) && rs[j - 1] == VecDelDtor(1)
    {
      if j < |e| {
        assert rs[j] == e[j] && rs[j - 2] == e[j - 2] && rs[j - 1] == e[j - 1];
      } else {
        assert j == |rs| - 1;
      }
    }
    forall r | r in rs && r.VecDelDtor? ensures r.slot == 0 || r.slot == 1 {
      assert r in e || r in pre || r == f;
    }
  }

  lemma {:induction false} EmittedPairPrecedesSlot2(m: map<U16, string>, ss: seq<U16>)
    requires forall k :: k in ss ==> k in m
    ensures PairPrecedesSlot2(Emitted(m, ss))
  {
    if ss != [] {
      var init := ss[..|ss| - 1];
      var s := ss[|ss| - 1];
      assert forall k :: k in init ==> k in ss;
      EmittedPairPrecedesSlot2(m, init);
      PairAppend(Emitted(m, init), Name(m, s), Occurrences(m, init, Name(m, s)), s);
    }
  }

  lemma {:induction false} EmittedDtorCount(m: map<U16, string>, ss: seq<U16>, x: U16)
    requires forall k :: k in ss ==> k in m
    requires x == 0 || x == 1
    ensures multiset(Emitted(m, ss))[VecDelDtor(x)] == multiset(ss)[2]
  {
    if ss != [] {
      var init := ss[..|ss| - 1];
      var s := ss[|ss| - 1];
      assert forall k :: k in init ==> k in ss;
      EmittedDtorCount(m, init, x);
      CountStep(Emitted(m, init), Name(m, s), Occurrences(m, init, Name(m, s)), s, x);
      CountLast(ss);
    }
  }

  lemma CountStep(e: seq<Record>, nm: string, earlier: nat, s: U16, x: U16)
    requires x == 0 || x == 1
    ensures multiset(e + EmitOne(nm, earlier, s))[VecDelDtor(x)]
            == multiset(e)[VecDelDtor(x)] + (if s == 2 then 1 else 0)
  {
    var pre := if s == 2 then [VecDelDtor(0), VecDelDtor(1)] else [];
    assert e + EmitOne(nm, earlier, s) == e + pre + [Function(nm, Suffix(earlier), s)];
    assert multiset(e + pre + [Function(nm, Suffix(earlier), s)])
           == multiset(e) + multiset(pre) + multiset{Function(nm, Suffix(earlier), s)};
  }

  lemma CountLast(ss: seq<U16>)
    requires ss != []
    ensures multiset(ss)[2] == multiset(ss[..|ss| - 1])[2] + (if ss[|ss| - 1] == 2 then 1 else 0)
  {
    assert ss == ss[..|ss| - 1] + [ss[|ss| - 1]];
  }

  /** The survivors of an ascending run of slots ascend too. */
  lemma {:induction false} SurvivorsIncreasing(vtables: map<string, map<U16, string>>, parents: map<string, string>,
                                               c: string, keys: seq<U16>)
    requires c in vtables && forall k :: k in keys ==> k in vtables[c]
    requires Ascending(keys)
    ensures Ascending(Survivors(vtables, parents, c, keys))
  {
    if keys != [] {
      var init := keys[..|keys| - 1];
      var last := keys[|keys| - 1];
      assert forall k :: k in init ==> k in keys;
      SurvivorsIncreasing(vtables, parents, c, init);
      var rest := Survivors(vtables, parents, c, init);
      forall x | x in rest ensures x < last {
        var i :| 0 <= i < |init| && init[i] == x;
        assert keys[i] == x;
      }
      if Survives(vtables, parents, c, last) {
        AscendingSnoc(rest, last);
      }
    }
  }

  lemma AscendingSnoc(ss: seq<U16>, x: U16)
    requires Ascending(ss) && forall y :: y in ss ==> y < x
    ensures Ascending(ss + [x])
  {
    var r := ss + [x];
    forall i, j | 0 <= i < j < |r| ensures r[i] < r[j] {
      if j < |ss| {
        assert r[i] == ss[i] && r[j] == ss[j];
      } else {
        assert r[i] in ss;
      }
    }
  }

  /** A slot appears at most once in an ascending sequence. */
  lemma {:induction false} IncreasingOnce(ss: seq<U16>, x: U16)
    requires Ascending(ss)
    ensures multiset(ss)[x] == if x in ss then 1 else 0
  {
    if ss != [] {
      var init := ss[..|ss| - 1];
      var s := ss[|ss| - 1];
      assert ss == init + [s];
      IncreasingOnce(init, x);
      if s == x {
        forall y | y in init ensures y != x {
          var i :| 0 <= i < |init| && init[i] == y;
          assert ss[i] == y;
        }
      }
    }
  }

  /** The `Function` records printed under the header of class `c`. */
  ghost function Printed(vtables: map<string, map<U16, string>>, parents: map<string, string>, c: string): seq<Record>
    requires c in vtables
  {
    Functions(ClassRecords(vtables, parents, c))
  }

  /** The printed slots of a class are exactly its surviving slots, in
      strictly ascending order; each is printed under its stripped name.
      So slot 0 is never printed, nor is any entry whose stripped name the
      ancestor check finds. */
  lemma PrintedSlots(vtables: map<string, map<U16, string>>, parents: map<string, string>, c: string)
    requires c in vtables
    ensures forall j :: 0 <= j < |Printed(vtables, parents, c)| ==>
              && Printed(vtables, parents, c)[j].Function?
              && Printed(vtables, parents, c)[j].slot in vtables[c]
              && Printed(vtables, parents, c)[j].slot != 0
              && CheckParentHasFunction(vtables, parents, c,
                   Name(vtables[c], Printed(vtables, parents, c)[j].slot), {}) != Inherited
              && Printed(vtables, parents, c)[j].name == Name(vtables[c], Printed(vtables, parents, c)[j].slot)
    ensures forall s :: s in vtables[c] && Survives(vtables, parents, c, s) ==>
              exists j :: 0 <= j < |Printed(vtables, parents, c)| && Printed(vtables, parents, c)[j].slot == s
    ensures forall i, j :: 0 <= i < j < |Printed(vtables, parents, c)| ==>
              Printed(vtables, parents, c)[i].slot < Printed(vtables, parents, c)[j].slot
  {
    var m := vtables[c];
    var keys := InnerKeys(vtables, c);
    var ss := Survivors(vtables, parents, c, keys);
    SurvivorsIncreasing(vtables, parents, c, keys);
    SurvivorsMembers(vtables, parents, c, keys);
    EmittedFunctions(m, ss);
    var p := Printed(vtables, parents, c);
    assert p == Functions(Emitted(m, ss));
    forall j | 0 <= j < |p|
      ensures p[j].Function? && p[j].slot in m && Survives(vtables, parents, c, p[j].slot)
      ensures p[j].name == Name(m, p[j].slot)
    {
      assert p[j] == Function(Name(m, ss[j]), Suffix(Occurrences(m, ss[..j], Name(m, ss[j]))), ss[j]);
      assert ss[j] in ss;
    }
    forall i, j | 0 <= i < j < |p| ensures p[i].slot < p[j].slot {
      assert p[i].slot == ss[i] && p[j].slot == ss[j];
    }
    forall s | s in m && Survives(vtables, parents, c, s)
      ensures exists j :: 0 <= j < |p| && p[j].slot == s
    {
      assert s in ss;
      var j :| 0 <= j < |ss| && ss[j] == s;
      assert p[j].slot == s;
    }
  }

  /** Within one class the first printed occurrence of a stripped name has
      no suffix and the k-th later one has suffix k. */
  lemma PrintedSuffixes(vtables: map<string, map<U16, string>>, parents: map<string, string>, c: string)
    requires c in vtables
    ensures forall j :: 0 <= j < |Printed(vtables, parents, c)| ==>
              Printed(vtables, parents, c)[j].Function? &&
              Printed(vtables, parents, c)[j].suffix
              == Suffix(NameCount(Printed(vtables, parents, c)[..j], Printed(vtables, parents, c)[j].name))
  {
    var m := vtables[c];
    var ss := Survivors(vtables, parents, c, InnerKeys(vtables, c));
    EmittedFunctions(m, ss);
    var p := Printed(vtables, parents, c);
    assert p == Functions(Emitted(m, ss));
    forall j | 0 <= j < |p|
      ensures p[j].suffix == Suffix(NameCount(p[..j], p[j].name))
    {
      CountsAgree(m, ss, p, j, p[j].name);
    }
  }

  lemma {:induction false} CountsAgree(m: map<U16, string>, ss: seq<U16>, p: seq<Record>, j: nat, nm: string)
    requires forall k :: k in ss ==> k in m
    requires |p| == |ss| && j <= |ss|
    requires forall i :: 0 <= i < |ss| ==> p[i].Function? && p[i].name == Name(m, ss[i])
    ensures NameCount(p[..j], nm) == Occurrences(m, ss[..j], nm)
  {
    if j > 0 {
      CountsAgree(m, ss, p, j - 1, nm);
      assert p[..j][..j - 1] == p[..j - 1];
      assert ss[..j][..j - 1] == ss[..j - 1];
    }
  }

  /** No two printed records are alike: two of the same name carry
      different suffixes. */
  lemma PrintedNamesDistinct(vtables: map<string, map<U16, string>>, parents: map<string, string>, c: string)
    requires c in vtables
    ensures var p := Printed(vtables, parents, c);
            forall i, j :: 0 <= i < j < |p| ==> p[i] != p[j]
    ensures var p := Printed(vtables, parents, c);
            forall i, j :: 0 <= i < j < |p| && p[i].Function? && p[j].Function? && p[i].name == p[j].name
              ==> p[i].suffix != p[j].suffix
  {
    PrintedSuffixes(vtables, parents, c);
    var p := Printed(vtables, parents, c);
    forall i, j | 0 <= i < j < |p|
      ensures p[i] != p[j]
      ensures p[i].Function? && p[j].Function? && p[i].name == p[j].name ==> p[i].suffix != p[j].suffix
    {
      if p[i].name == p[j].name {
        NameCountGrows(p, i, j, p[i].name);
      }
    }
  }

  lemma {:induction false} NameCountGrows(p: seq<Record>, i: nat, j: nat, nm: string)
    requires i < j <= |p| && p[i].Function? && p[i].name == nm
    ensures NameCount(p[..j], nm) > NameCount(p[..i], nm)
  {
    assert p[..i + 1][..i] == p[..i];
    if j > i + 1 {
      NameCountGrows(p, i, j - 1, nm);
      assert p[..j][..j - 1] == p[..j - 1];
    }
  }

  /** The destructor pair is printed exactly once, immediately before the
      record at slot 2, when slot 2 survives, and not at all otherwise. */
  lemma ClassDtorPair(vtables: map<string, map<U16, string>>, parents: map<string, string>, c: string)
    requires c in vtables
    ensures PairPrecedesSlot2(ClassRecords(vtables, parents, c))
    ensures multiset(ClassRecords(vtables, parents, c))[VecDelDtor(0)]
            == if 2 in vtables[c] && Survives(vtables, parents, c, 2) then 1 else 0
    ensures multiset(ClassRecords(vtables, parents, c))[VecDelDtor(1)]
            == if 2 in vtables[c] && Survives(vtables, parents, c, 2) then 1 else 0
  {
    var ss := Survivors(vtables, parents, c, InnerKeys(vtables, c));
    SurvivorsIncreasing(vtables, parents, c, InnerKeys(vtables, c));
    IncreasingOnce(ss, 2);
    SurvivorsMembers(vtables, parents, c, InnerKeys(vtables, c));
    EmittedPairPrecedesSlot2(vtables[c], ss);
    EmittedDtorCount(vtables[c], ss, 0);
    EmittedDtorCount(vtables[c], ss, 1);
  }

  lemma PrintedEntrySurvives(vtables: map<string, map<U16, string>>, parents: map<string, string>, c: string, j: nat)
    requires c in vtables && j < |Printed(vtables, parents, c)|
    ensures Printed(vtables, parents, c)[j].Function?
    ensures CheckParentHasFunction(vtables, parents, c, Printed(vtables, parents, c)[j].name, {}) != Inherited
  {
    PrintedSlots(vtables, parents, c);
  }

  /** An entry whose stripped name some ancestor's map holds is never
      printed, whatever its slot. */
  lemma InheritedNotPrinted(vtables: map<string, map<U16, string>>, parents: map<string, string>,
                            c: string, f: string, n: nat)
    requires c in vtables && FoundWithin(vtables, parents, c, f, n)
    ensures forall r :: r in ClassRecords(vtables, parents, c) && r.Function? ==> r.name != f
  {
    FoundMeansInherited(vtables, parents, c, f, n);
    FunctionsMembers(ClassRecords(vtables, parents, c));
    var p := Printed(vtables, parents, c);
    forall r | r in ClassRecords(vtables, parents, c) && r.Function?
      ensures r.name != f
    {
      assert r in p;
      var j :| 0 <= j < |p| && p[j] == r;
      PrintedEntrySurvives(vtables, parents, c, j);
    }
  }

  /** In particular, a name held by the parent's map is not printed. */
  lemma ParentFunctionNotPrinted(vtables: map<string, map<U16, string>>, parents: map<string, string>,
                                 c: string, f: string)
    requires c in vtables && c in parents && parents[c] in vtables && f in vtables[parents[c]].Values
    ensures forall r :: r in ClassRecords(vtables, parents, c) && r.Function? ==> r.name != f
  {
    assert FoundWithin(vtables, parents, c, f, 1);
    InheritedNotPrinted(vtables, parents, c, f, 1);
  }

  /** Section `i` of `SectionsOf` is class `classes[i]` with its records. */
  lemma {:induction false} SectionsOfAt(vtables: map<string, map<U16, string>>, parents: map<string, string>,
                                        classes: seq<string>, i: nat)
    requires i < |classes|
    ensures SectionsOf(vtables, parents, classes)[i] == Section(classes[i], RecordsOf(vtables, parents, classes[i]))
    decreases |classes|
  {
    var init := classes[..|classes| - 1];
    if i < |init| {
      SectionsOfAt(vtables, parents, init, i);
      assert classes[i] == init[i];
    }
  }

  /** The report has one section per class of the vtable map, each holding
      that class's records, in ascending class-name order; a class whose
      entries are all suppressed still gets its header. */
  lemma ReportSections(vtables: map<string, map<U16, string>>, parents: map<string, string>)
    ensures |Report(vtables, parents)| == |vtables.Keys|
    ensures forall i :: 0 <= i < |Report(vtables, parents)| ==>
              Report(vtables, parents)[i] == Section(Classes(vtables)[i], ClassRecords(vtables, parents, Classes(vtables)[i]))
  {
    var classes := Classes(vtables);
    forall i | 0 <= i < |classes|
      ensures Report(vtables, parents)[i] == Section(classes[i], ClassRecords(vtables, parents, classes[i]))
    {
      SectionsOfAt(vtables, parents, classes, i);
      assert classes[i] in vtables;
    }
  }

  /** Sections appear in strictly ascending class-name order. */
  lemma ReportOrdered(vtables: map<string, map<U16, string>>, parents: map<string, string>)
    ensures forall i, j :: 0 <= i < j < |Report(vtables, parents)| ==>
              StrLess(Report(vtables, parents)[i].className, Report(vtables, parents)[j].className)
  {
    ReportSections(vtables, parents);
  }

  /** Every class of the vtable map has a section, and only those. */
  lemma ReportCoverage(vtables: map<string, map<U16, string>>, parents: map<string, string>)
    ensures forall c :: c in vtables <==>
              exists i :: 0 <= i < |Report(vtables, parents)| && Report(vtables, parents)[i].className == c
  {
    var classes := Classes(vtables);
    var r := Report(vtables, parents);
    ReportSections(vtables, parents);
    forall c | c in vtables
      ensures exists i :: 0 <= i < |r| && r[i].className == c
    {
      var i :| 0 <= i < |classes| && classes[i] == c;
      assert r[i].className == c;
    }
    forall c | exists i :: 0 <= i < |r| && r[i].className == c
      ensures c in vtables
    {
      var i :| 0 <= i < |r| && r[i].className == c;
      assert classes[i] == c;
    }
  }

}
