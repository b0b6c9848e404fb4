/** `GetQualifiedName`: the `::`-joined short names on the path from the unit
    entry down to an entry. */
module QualifiedNames {
  import opened Wrappers
  import opened DebugInfo
  import opened Strings

  /** Whether an entry adds a segment: it is not the compile unit and has a
      short name. */
  predicate Contributes(d: Die) {
    d.tag != CompileUnit && d.name.Some?
  }

  /** One step of the loop: put `d`'s name in front of the name built so far,
      with a separator only when that name is non-empty. */
  function PrependName(d: Die, q: string): string {
    if !Contributes(d) then q
    else if q == [] then d.name.value
    else d.name.value + "::" + q
  }

  /** The qualified name of the entry at the end of `path` (root first). The
      empty path is the invalid entry, whose name is empty. */
  function QualifiedName(path: seq<Die>): string
    decreases |path|
  {
    if path == [] then "" else PrependName(path[0], QualifiedName(path[1..]))
  }

  /** `GetQualifiedName`: walk from the entry to the root, prepending. */
  method GetQualifiedName(path: seq<Die>) returns (q: string)
    ensures q == QualifiedName(path)
  {
    q := "";
    var i := |path|;
    while i > 0
      invariant 0 <= i <= |path|
      invariant q == QualifiedName(path[i..])
    {
      i := i - 1;
      var d := path[i];
      if d.tag != CompileUnit {
        if d.name.Some? {
          if q != [] {
            q := "::" + q;
          }
          q := d.name.value + q;
        }
      }
      assert path[i..][1..] == path[i + 1..];
    }
    assert path[0..] == path;
  }

  /** The names the path contributes, outermost first. */
  function Segments(path: seq<Die>): seq<string>
    decreases |path|
  {
    if path == [] then []
    else (if Contributes(path[0]) then [path[0].name.value] else []) + Segments(path[1..])
  }

  /** The `::`-join of `segs`. */
  function Join(segs: seq<string>): string
    decreases |segs|
  {
    if segs == [] then ""
    else if |segs| == 1 then segs[0]
    else segs[0] + "::" + Join(segs[1..])
  }

  /** `s` cut at every `::`, from the left. */
  function Split(s: string): seq<string>
    decreases |s|
  {
    match FindDoubled(s, ':', 0)
    case None => [s]
    case Some(i) => [s[..i]] + Split(s[i + 2..])
  }

  lemma {:induction false} JoinNonEmpty(segs: seq<string>)
    requires segs != [] && segs[0] != ""
    ensures Join(segs) != ""
  {
  }

  /** With non-empty short names, the qualified name is the `::`-join of the
      contributing names, outermost first. */
  lemma {:induction false} QualifiedNameIsJoin(path: seq<Die>)
    requires forall s :: s in Segments(path) ==> s != ""
    ensures QualifiedName(path) == Join(Segments(path))
    decreases |path|
  {
    if path != [] {
      var rest := Segments(path[1..]);
      assert forall s :: s in rest ==> s in Segments(path);
      QualifiedNameIsJoin(path[1..]);
      if Contributes(path[0]) {
        assert Segments(path) == [path[0].name.value] + rest;
        if rest != [] {
          assert rest[0] in rest;
          JoinNonEmpty(rest);
          assert ([path[0].name.value] + rest)[1..] == rest;
        }
      } else {
        assert Segments(path) == rest;
      }
    }
  }

  /** A qualified name built from non-empty, colon-free names splits back into
      exactly those names: no leading or trailing `::`, no empty segment. */
  lemma {:induction false} SplitJoin(segs: seq<string>)
    requires segs != []
    requires forall s :: s in segs ==> s != "" && ':' !in s
    ensures Split(Join(segs)) == segs
    decreases |segs|
  {
    var s0 := segs[0];
    assert s0 in segs;
    assert forall i :: 0 <= i < |s0| ==> s0[i] in s0;
    if |segs| == 1 {
      assert FindDoubled(s0, ':', 0).None?;
    } else {
      var rest := segs[1..];
      assert forall s :: s in rest ==> s in segs;
      var j := Join(segs);
      assert j == s0 + "::" + Join(rest);
      var r := FindDoubled(j, ':', 0);
      assert j[|s0|] == ':' && j[|s0| + 1] == ':';
      assert forall i :: 0 <= i < |s0| ==> j[i] == s0[i];
      assert r == Some(|s0|);
      assert j[..|s0|] == s0;
      assert j[|s0| + 2..] == Join(rest);
      SplitJoin(rest);
    }
  }

  /** A named entry none of whose ancestors contributes has its own short name
      as qualified name. */
  lemma {:induction false} OwnNameOnly(ancestors: seq<Die>, d: Die)
    requires Contributes(d)
    requires forall i :: 0 <= i < |ancestors| ==> !Contributes(ancestors[i])
    ensures QualifiedName(ancestors + [d]) == d.name.value
    decreases |ancestors|
  {
    if ancestors == [] {
      assert ([] + [d])[1..] == [];
    } else {
      assert (ancestors + [d])[1..] == ancestors[1..] + [d];
      OwnNameOnly(ancestors[1..], d);
    }
  }

  /** Compile units and nameless entries contribute nothing: removing one from
      the path leaves the qualified name unchanged. */
  lemma {:induction false} NonContributingSkipped(path: seq<Die>, k: nat)
    requires k < |path| && !Contributes(path[k])
    ensures QualifiedName(path) == QualifiedName(path[..k] + path[k + 1..])
    decreases k
  {
    if k == 0 {
      assert path[..0] + path[1..] == path[1..];
    } else {
      NonContributingSkipped(path[1..], k - 1);
      var shorter := path[..k] + path[k + 1..];
      assert shorter[0] == path[0];
      assert shorter[1..] == path[1..][..k - 1] + path[1..][k..];
    }
  }
}
