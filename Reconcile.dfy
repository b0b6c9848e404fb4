/** The function-mode report: for every class with a vtable map, in ascending
    class-name order, the entries that survive reconciliation against the
    ancestors' maps, in ascending slot order. */
module Reconcile {
  import opened Wrappers
  import opened DebugInfo
  import opened Ordered
  import opened Strings
  import opened Ancestry

  /** One output line: a function at a slot, with its disambiguating suffix
      when it is not the first of its name in the class, or one of the two
      `__vecDelDtor` lines that precede the entry at slot 2. */
  datatype Record = Function(name: string, suffix: Option<nat>, slot: U16) | VecDelDtor(slot: U16)

  /** The `[ClassName]` header and the records under it. */
  datatype Section = Section(className: string, records: seq<Record>)

  lemma KeyLessIsStrictTotalOrder()
    ensures StrictTotalOrder(KeyLess)
  {
  }

  /** Remove the first occurrence of "<<" from a function name. */
  function StripMarker(s: string): string {
    match FindDoubled(s, '<', 0)
    case None => s
    case Some(i) => s[..i] + s[i + 2..]
  }

  /** A name without "<<" is left alone; otherwise exactly the first "<<"
      is cut out and nothing before it held one. */
  lemma StripMarkerSpec(s: string)
    ensures (forall i :: 0 <= i < |s| - 1 ==> !(s[i] == '<' && s[i + 1] == '<')) ==> StripMarker(s) == s
    ensures (exists i :: 0 <= i < |s| - 1 && s[i] == '<' && s[i + 1] == '<') ==>
              exists i :: 0 <= i <= |StripMarker(s)|
                          && s == StripMarker(s)[..i] + "<<" + StripMarker(s)[i..]
                          && forall j :: 0 <= j < i ==> !(s[j] == '<' && s[j + 1] == '<')
  {
    match FindDoubled(s, '<', 0)
    case None =>
    case Some(i) =>
      var r := StripMarker(s);
      assert r[..i] == s[..i];
      assert r[i..] == s[i + 2..];
      assert s == s[..i] + "<<" + s[i + 2..];
  }

  /** Only the first marker goes. */
  lemma StripMarkerOnce()
    ensures StripMarker("Tick<<<<") == "Tick<<"
  {
    var s := "Tick<<<<";
    assert FindDoubled(s, '<', 4) == Some(4);
    assert FindDoubled(s, '<', 3) == Some(4);
    assert FindDoubled(s, '<', 2) == Some(4);
    assert FindDoubled(s, '<', 1) == Some(4);
    assert FindDoubled(s, '<', 0) == Some(4);
    assert "Tick<<<<"[..4] == "Tick";
    assert "Tick<<<<"[6..] == "<<";
  }

  lemma StripMarkerAtStart()
    ensures StripMarker("<<Begin") == "Begin"
  {
    assert FindDoubled("<<Begin", '<', 0) == Some(0);
    assert "<<Begin"[2..] == "Begin";
  }


  /** The stripped name at slot `s` of a class's map. */
  function Name(m: map<U16, string>, s: U16): string
    requires s in m
  {
    StripMarker(m[s])
  }

  /** The entry at slot `s` of class `c` is printed: its slot is not 0 and
      its stripped name is not found in an ancestor's map. The source makes
      the ancestor check first. */
  predicate Survives(vtables: map<string, map<U16, string>>, parents: map<string, string>,
                     c: string, s: U16)
    requires c in vtables && s in vtables[c]
  {
    CheckParentHasFunction(vtables, parents, c, Name(vtables[c], s), {}) != Inherited && s != 0
  }

  /** Every ancestor check the report makes returns. */
  predicate Terminates(vtables: map<string, map<U16, string>>, parents: map<string, string>) {
    forall c, s :: c in vtables && s in vtables[c] ==>
      CheckParentHasFunction(vtables, parents, c, Name(vtables[c], s), {}) != Diverges
  }

  /** The surviving slots among `keys`, in the order of `keys`. */
  function Survivors(vtables: map<string, map<U16, string>>, parents: map<string, string>,
                     c: string, keys: seq<U16>): (r: seq<U16>)
    requires c in vtables && forall k :: k in keys ==> k in vtables[c]
    ensures forall s :: s in r ==> s in keys
  {
    if keys == [] then []
    else
      var init := keys[..|keys| - 1];
      var s := keys[|keys| - 1];
      assert forall x :: x in init ==> x in keys;
      var rest := Survivors(vtables, parents, c, init);
      if Survives(vtables, parents, c, s) then rest + [s] else rest
  }

  /** A slot survives exactly when its entry passes both tests. */
  lemma {:induction false} SurvivorsMembers(vtables: map<string, map<U16, string>>, parents: map<string, string>,
                                            c: string, keys: seq<U16>)
    requires c in vtables && forall k :: k in keys ==> k in vtables[c]
    ensures forall s :: s in Survivors(vtables, parents, c, keys) <==> s in keys && Survives(vtables, parents, c, s)
  {
    if keys != [] {
      var init := keys[..|keys| - 1];
      assert forall x :: x in keys <==> x in init || x == keys[|keys| - 1];
      SurvivorsMembers(vtables, parents, c, init);
    }
  }

  /** How many of the slots in `ss` carry the stripped name `nm`. */
  function Occurrences(m: map<U16, string>, ss: seq<U16>, nm: string): nat
    requires forall k :: k in ss ==> k in m
  {
    if ss == [] then 0
    else Occurrences(m, ss[..|ss| - 1], nm) + (if Name(m, ss[|ss| - 1]) == nm then 1 else 0)
  }

  /** The suffix of the entry preceded by `earlier` entries of its name. */
  function Suffix(earlier: nat): Option<nat> {
    if earlier == 0 then None else Some(earlier)
  }

  /** The records printed for one surviving entry. */
  function EmitOne(nm: string, earlier: nat, s: U16): seq<Record> {
    (if s == 2 then [VecDelDtor(0), VecDelDtor(1)] else []) + [Function(nm, Suffix(earlier), s)]
  }

  /** The records printed for the surviving slots `ss`, taken in order. */
  function Emitted(m: map<U16, string>, ss: seq<U16>): seq<Record>
    requires forall k :: k in ss ==> k in m
  {
    if ss == [] then []
    else
      var init := ss[..|ss| - 1];
      var s := ss[|ss| - 1];
      Emitted(m, init) + EmitOne(Name(m, s), Occurrences(m, init, Name(m, s)), s)
  }

  /** Strictly ascending slots. */
  predicate Ascending(ss: seq<U16>) {
    forall i, j :: 0 <= i < j < |ss| ==> ss[i] < ss[j]
  }

  /** The keys of inner map `c` of `maps` in the order a `std::map` visits
      them: a class's vtable slots, or a class's member offsets. */
  ghost function InnerKeys(maps: map<string, map<U16, string>>, c: string): (r: seq<U16>)
    requires c in maps
    ensures Ascending(r) && |r| == |maps[c].Keys| && forall s :: s in r <==> s in maps[c]
  {
    KeyLessIsStrictTotalOrder();
    var r := SortedSeq(maps[c].Keys, KeyLess);
    assert forall i, j :: 0 <= i < j < |r| ==> KeyLess(r[i], r[j]);
    r
  }

  /** Any ascending sequence of exactly those keys is that order. */
  lemma InnerKeysAre(maps: map<string, map<U16, string>>, c: string, ss: seq<U16>)
    requires c in maps && Ascending(ss) && forall s :: s in ss <==> s in maps[c]
    ensures InnerKeys(maps, c) == ss
  {
    KeyLessIsStrictTotalOrder();
    IncreasingUnique(InnerKeys(maps, c), ss, KeyLess);
  }

  /** The records under the header of class `c`. */
  ghost function ClassRecords(vtables: map<string, map<U16, string>>, parents: map<string, string>,
                              c: string): seq<Record>
    requires c in vtables
  {
    Emitted(vtables[c], Printable(vtables, parents, c))
  }

  /** The slots of class `c` whose entries are printed, in visiting order. */
  ghost function Printable(vtables: map<string, map<U16, string>>, parents: map<string, string>,
                           c: string): (r: seq<U16>)
    requires c in vtables
    ensures forall s :: s in r ==> s in vtables[c]
  {
    Survivors(vtables, parents, c, InnerKeys(vtables, c))
  }

  /** The classes in the order the source visits them. */
  ghost function Classes(vtables: map<string, map<U16, string>>): (r: seq<string>)
    ensures |r| == |vtables.Keys| && forall c :: c in r <==> c in vtables
  {
    StrLessIsStrictTotalOrder();
    SortedSeq(vtables.Keys, StrLess)
  }

  /** The classes are visited in strictly ascending name order. */
  lemma ClassesOrdered(vtables: map<string, map<U16, string>>)
    ensures Increasing(Classes(vtables), StrLess)
  {
    StrLessIsStrictTotalOrder();
  }

  /** An ascending sequence of exactly the classes is the visiting order. */
  lemma ClassesAre(vtables: map<string, map<U16, string>>, cs: seq<string>)
    requires Increasing(cs, StrLess) && forall c :: c in cs <==> c in vtables
    ensures Classes(vtables) == cs
  {
    StrLessIsStrictTotalOrder();
    ClassesOrdered(vtables);
    IncreasingUnique(Classes(vtables), cs, StrLess);
  }

  /** The whole function-mode report. */
  ghost function Report(vtables: map<string, map<U16, string>>, parents: map<string, string>): seq<Section>
  {
    SectionsOf(vtables, parents, Classes(vtables))
  }

  /** One section per class of `classes`, in that order (a class without a
      vtable map has no records). */
  ghost function SectionsOf(vtables: map<string, map<U16, string>>, parents: map<string, string>,
                            classes: seq<string>): (r: seq<Section>)
    ensures |r| == |classes|
  {
    if classes == [] then []
    else
      var last := classes[|classes| - 1];
      SectionsOf(vtables, parents, classes[..|classes| - 1]) + [Section(last, RecordsOf(vtables, parents, last))]
  }

  /** The records of `c`, or none when `c` has no vtable map. */
  ghost function RecordsOf(vtables: map<string, map<U16, string>>, parents: map<string, string>, c: string): seq<Record> {
    if c in vtables then ClassRecords(vtables, parents, c) else []
  }

  lemma SectionsOfStep(vtables: map<string, map<U16, string>>, parents: map<string, string>,
                       classes: seq<string>, i: nat)
    requires i < |classes| && classes[i] in vtables
    ensures SectionsOf(vtables, parents, classes[..i + 1])
            == SectionsOf(vtables, parents, classes[..i]) + [Section(classes[i], ClassRecords(vtables, parents, classes[i]))]
  {
    assert classes[..i + 1][..i] == classes[..i];
  }


  // ------------------------------------------------------------ the loops

  lemma SurvivorsStep(vtables: map<string, map<U16, string>>, parents: map<string, string>,
                      c: string, keys: seq<U16>, i: nat)
    requires c in vtables && i < |keys| && forall k :: k in keys ==> k in vtables[c]
    ensures Survives(vtables, parents, c, keys[i]) ==>
              Survivors(vtables, parents, c, keys[..i + 1]) == Survivors(vtables, parents, c, keys[..i]) + [keys[i]]
    ensures !Survives(vtables, parents, c, keys[i]) ==>
              Survivors(vtables, parents, c, keys[..i + 1]) == Survivors(vtables, parents, c, keys[..i])
  {
    assert keys[..i + 1][..i] == keys[..i];
  }

  lemma EmittedStep(m: map<U16, string>, done: seq<U16>, s: U16)
    requires s in m && forall k :: k in done ==> k in m
    ensures Emitted(m, done + [s]) == Emitted(m, done) + EmitOne(Name(m, s), Occurrences(m, done, Name(m, s)), s)
  {
    assert (done + [s])[..|done|] == done;
  }

  /** How many times `cacheMap` says `nm` was printed before. */
  function SeenBefore(cache: map<string, nat>, nm: string): nat {
    if nm in cache then cache[nm] + 1 else 0
  }

  /** `cacheMap` after printing `nm`. */
  function Bump(cache: map<string, nat>, nm: string): map<string, nat> {
    if nm in cache then cache[nm := cache[nm] + 1] else cache[nm := 0]
  }

  /** The source's `cacheMap` after the survivors `ss`. */
  function CacheAfter(m: map<U16, string>, ss: seq<U16>): map<string, nat>
    requires forall k :: k in ss ==> k in m
  {
    if ss == [] then map[]
    else Bump(CacheAfter(m, ss[..|ss| - 1]), Name(m, ss[|ss| - 1]))
  }

  /** `cacheMap` holds the names printed so far, each with one less than the
      number of times it was printed. */
  lemma {:induction false} CacheAfterCounts(m: map<U16, string>, ss: seq<U16>, nm: string)
    requires forall k :: k in ss ==> k in m
    ensures nm in CacheAfter(m, ss) <==> Occurrences(m, ss, nm) > 0
    ensures nm in CacheAfter(m, ss) ==> CacheAfter(m, ss)[nm] + 1 == Occurrences(m, ss, nm)
  {
    if ss != [] {
      CacheAfterCounts(m, ss[..|ss| - 1], nm);
    }
  }

  lemma CacheAfterStep(m: map<U16, string>, done: seq<U16>, s: U16)
    requires s in m && forall k :: k in done ==> k in m
    ensures CacheAfter(m, done + [s]) == Bump(CacheAfter(m, done), Name(m, s))
  {
    assert (done + [s])[..|done|] == done;
  }

  lemma ReconcileStep(vtables: map<string, map<U16, string>>, parents: map<string, string>,
                      c: string, keys: seq<U16>, i: nat)
    requires c in vtables && i < |keys| && forall k :: k in keys ==> k in vtables[c]
    ensures !Survives(vtables, parents, c, keys[i]) ==>
              && Emitted(vtables[c], Survivors(vtables, parents, c, keys[..i + 1]))
                 == Emitted(vtables[c], Survivors(vtables, parents, c, keys[..i]))
              && CacheAfter(vtables[c], Survivors(vtables, parents, c, keys[..i + 1]))
                 == CacheAfter(vtables[c], Survivors(vtables, parents, c, keys[..i]))
    ensures Survives(vtables, parents, c, keys[i]) ==>
              Emitted(vtables[c], Survivors(vtables, parents, c, keys[..i + 1]))
              == Emitted(vtables[c], Survivors(vtables, parents, c, keys[..i]))
                 + EmitOne(Name(vtables[c], keys[i]),
                           SeenBefore(CacheAfter(vtables[c], Survivors(vtables, parents, c, keys[..i])), Name(vtables[c], keys[i])),
                           keys[i])
    ensures Survives(vtables, parents, c, keys[i]) ==>
              CacheAfter(vtables[c], Survivors(vtables, parents, c, keys[..i + 1]))
              == Bump(CacheAfter(vtables[c], Survivors(vtables, parents, c, keys[..i])), Name(vtables[c], keys[i]))
  {
    SurvivorsStep(vtables, parents, c, keys, i);
    if Survives(vtables, parents, c, keys[i]) {
      PrintStep(vtables[c], Survivors(vtables, parents, c, keys[..i]), keys[i]);
    }
  }

  /** Printing one more survivor `s` after `done`: the suffix `cacheMap`
      gives is the number of earlier survivors with the same name. */
  lemma PrintStep(m: map<U16, string>, done: seq<U16>, s: U16)
    requires s in m && forall k :: k in done ==> k in m
    ensures Emitted(m, done + [s]) == Emitted(m, done) + EmitOne(Name(m, s), SeenBefore(CacheAfter(m, done), Name(m, s)), s)
    ensures CacheAfter(m, done + [s]) == Bump(CacheAfter(m, done), Name(m, s))
  {
    EmittedStep(m, done, s);
    CacheAfterStep(m, done, s);
    CacheAfterCounts(m, done, Name(m, s));
  }

  /** The lines printed for one surviving entry, and the updated
      `cacheMap`: a name seen before gets the next suffix. */
  method PrintEntry(cache: map<string, nat>, name: string, s: U16)
    returns (lines: seq<Record>, cache': map<string, nat>)
    ensures lines == EmitOne(name, SeenBefore(cache, name), s)
    ensures cache' == Bump(cache, name)
  {
    lines := [];
    if s == 2 {
      lines := lines + [VecDelDtor(0), VecDelDtor(1)];
    }
    if name in cache {
      cache' := cache[name := cache[name] + 1];
      lines := lines + [Function(name, Some(cache'[name]), s)];
    } else {
      cache' := cache[name := 0];
      lines := lines + [Function(name, None, s)];
    }
  }

  /** The per-class loop of the report: the source's `cacheMap` holds, for
      each name printed so far, one less than the number of times it was
      printed. */
  method ReconcileClass(vtables: map<string, map<U16, string>>, parents: map<string, string>, c: string)
    returns (records: seq<Record>)
    requires c in vtables
    ensures records == ClassRecords(vtables, parents, c)
  {
    var m := vtables[c];
    var keys := InnerKeysOf(vtables, c);
    var cache: map<string, nat> := map[];
    records := [];
    for i := 0 to |keys|
      invariant records == Emitted(m, Survivors(vtables, parents, c, keys[..i]))
      invariant cache == CacheAfter(m, Survivors(vtables, parents, c, keys[..i]))
    {
      ReconcileStep(vtables, parents, c, keys, i);
      var s := keys[i];
      var name := StripMarker(m[s]);
      var verdict := CheckParentHasFunction(vtables, parents, c, name, {});
      if verdict == Inherited || s == 0 {
        continue;
      }
      var lines;
      lines, cache := PrintEntry(cache, name, s);
      records := records + lines;
    }
    assert keys[..|keys|] == keys;
  }

  method InnerKeysOf(maps: map<string, map<U16, string>>, c: string) returns (keys: seq<U16>)
    requires c in maps
    ensures keys == InnerKeys(maps, c)
  {
    KeyLessIsStrictTotalOrder();
    keys := SortedKeys(maps[c], KeyLess);
  }

  method ClassesOf(vtables: map<string, map<U16, string>>) returns (classes: seq<string>)
    ensures classes == Classes(vtables)
  {
    StrLessIsStrictTotalOrder();
    classes := SortedKeys(vtables, StrLess);
  }

  /** The report over every class, in ascending class-name order. */
  method ReconcileAll(vtables: map<string, map<U16, string>>, parents: map<string, string>)
    returns (sections: seq<Section>)
    requires Terminates(vtables, parents)
    ensures sections == Report(vtables, parents)
  {
    var classes := ClassesOf(vtables);
    sections := ReconcileClasses(vtables, parents, classes);
  }

  /** The outer loop of the report, over the classes of `classes` in order. */
  method ReconcileClasses(vtables: map<string, map<U16, string>>, parents: map<string, string>, classes: seq<string>)
    returns (sections: seq<Section>)
    requires Terminates(vtables, parents) && forall c :: c in classes ==> c in vtables
    ensures sections == SectionsOf(vtables, parents, classes)
  {
    sections := [];
    for i := 0 to |classes|
      invariant sections == SectionsOf(vtables, parents, classes[..i])
    {
      SectionsOfStep(vtables, parents, classes, i);
      var records := ReconcileClass(vtables, parents, classes[i]);
      sections := sections + [Section(classes[i], records)];
    }
    assert classes[..|classes|] == classes;
  }


  /** The report, or `None` when one of its ancestor checks would recurse
      forever around a cycle of parents. */
  method ReportVtables(vtables: map<string, map<U16, string>>, parents: map<string, string>)
    returns (r: Option<seq<Section>>)
    ensures Terminates(vtables, parents) ==> r == Some(Report(vtables, parents))
    ensures !Terminates(vtables, parents) ==> r == None
  {
    if Terminates(vtables, parents) {
      var sections := ReconcileAll(vtables, parents);
      r := Some(sections);
    } else {
      r := None;
    }
  }
}
