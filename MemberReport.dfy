/** The member-mode report: for every class in the member map, in ascending
    class-name order, its members in ascending offset order. */
module MemberReport {
  import opened DebugInfo
  import opened Ordered
  import opened Reconcile

  /** One `Name = 0xOFFSET` line. */
  datatype Line = Line(name: string, offset: U16)

  /** The `[ClassName]` header and the lines under it. */
  datatype MemberSection = MemberSection(className: string, lines: seq<Line>)

  /** One line per offset of `offsets`, in that order, with the name stored
      there. */
  function LinesOf(m: map<U16, string>, offsets: seq<U16>): (r: seq<Line>)
    requires forall k :: k in offsets ==> k in m
    ensures |r| == |offsets|
    ensures forall i :: 0 <= i < |r| ==> r[i] == Line(m[offsets[i]], offsets[i])
  {
    if offsets == [] then []
    else
      var last := offsets[|offsets| - 1];
      LinesOf(m, offsets[..|offsets| - 1]) + [Line(m[last], last)]
  }

  /** The lines under the header of class `c`. */
  ghost function ClassLines(variables: map<string, map<U16, string>>, c: string): seq<Line>
    requires c in variables
  {
    LinesOf(variables[c], InnerKeys(variables, c))
  }

  /** One line per recorded offset, each with the name stored there: no
      suffix is added even when names repeat. */
  lemma ClassLinesNamed(variables: map<string, map<U16, string>>, c: string)
    requires c in variables
    ensures |ClassLines(variables, c)| == |variables[c].Keys|
    ensures forall i :: 0 <= i < |ClassLines(variables, c)| ==>
              ClassLines(variables, c)[i].offset in variables[c]
              && ClassLines(variables, c)[i].name == variables[c][ClassLines(variables, c)[i].offset]
  {
    var offsets := InnerKeys(variables, c);
    var r := ClassLines(variables, c);
    assert r == LinesOf(variables[c], offsets);
    forall i | 0 <= i < |r|
      ensures r[i].offset in variables[c] && r[i].name == variables[c][r[i].offset]
    {
      assert r[i] == Line(variables[c][offsets[i]], offsets[i]);
      assert offsets[i] in offsets;
    }
  }

  /** Lines appear in strictly ascending offset order. */
  lemma ClassLinesAscending(variables: map<string, map<U16, string>>, c: string)
    requires c in variables
    ensures forall i, j :: 0 <= i < j < |ClassLines(variables, c)| ==>
              ClassLines(variables, c)[i].offset < ClassLines(variables, c)[j].offset
  {
    var offsets := InnerKeys(variables, c);
    var r := ClassLines(variables, c);
    assert r == LinesOf(variables[c], offsets);
    forall i, j | 0 <= i < j < |r| ensures r[i].offset < r[j].offset {
      assert r[i].offset == offsets[i] && r[j].offset == offsets[j];
    }
  }

  /** Every recorded offset has a line. */
  lemma ClassLinesCover(variables: map<string, map<U16, string>>, c: string)
    requires c in variables
    ensures forall off :: off in variables[c] ==>
              exists i :: 0 <= i < |ClassLines(variables, c)| && ClassLines(variables, c)[i].offset == off
  {
    var offsets := InnerKeys(variables, c);
    var r := ClassLines(variables, c);
    assert r == LinesOf(variables[c], offsets);
    forall off | off in variables[c]
      ensures exists i :: 0 <= i < |r| && r[i].offset == off
    {
      var i :| 0 <= i < |offsets| && offsets[i] == off;
      assert r[i].offset == off;
    }
  }

  /** The whole member-mode report. */
  ghost function Members(variables: map<string, map<U16, string>>): seq<MemberSection> {
    MemberSectionsOf(variables, Classes(variables))
  }

  /** One section per class of `classes`, in that order (a class without a
      member map has no lines). */
  ghost function MemberSectionsOf(variables: map<string, map<U16, string>>, classes: seq<string>): (r: seq<MemberSection>)
    ensures |r| == |classes|
  {
    if classes == [] then []
    else
      var last := classes[|classes| - 1];
      MemberSectionsOf(variables, classes[..|classes| - 1]) + [MemberSection(last, LinesIn(variables, last))]
  }

  /** The lines of `c`, or none when `c` has no member map. */
  ghost function LinesIn(variables: map<string, map<U16, string>>, c: string): seq<Line> {
    if c in variables then ClassLines(variables, c) else []
  }

  lemma MemberSectionsOfStep(variables: map<string, map<U16, string>>, classes: seq<string>, i: nat)
    requires i < |classes| && classes[i] in variables
    ensures MemberSectionsOf(variables, classes[..i + 1])
            == MemberSectionsOf(variables, classes[..i]) + [MemberSection(classes[i], ClassLines(variables, classes[i]))]
  {
    assert classes[..i + 1][..i] == classes[..i];
  }

  /** Section `i` of `MemberSectionsOf` is class `classes[i]` with its lines. */
  lemma {:induction false} MemberSectionsOfAt(variables: map<string, map<U16, string>>, classes: seq<string>, i: nat)
    requires i < |classes|
    ensures MemberSectionsOf(variables, classes)[i] == MemberSection(classes[i], LinesIn(variables, classes[i]))
    decreases |classes|
  {
    var init := classes[..|classes| - 1];
    if i < |init| {
      MemberSectionsOfAt(variables, init, i);
      assert classes[i] == init[i];
    }
  }

  /** The member report has one section per class of the member map, in
      ascending class-name order, each holding that class's lines. */
  lemma MembersSections(variables: map<string, map<U16, string>>)
    ensures |Members(variables)| == |variables.Keys|
    ensures forall i :: 0 <= i < |Members(variables)| ==>
              Members(variables)[i] == MemberSection(Classes(variables)[i], ClassLines(variables, Classes(variables)[i]))
    ensures forall i, j :: 0 <= i < j < |Members(variables)| ==>
              StrLess(Members(variables)[i].className, Members(variables)[j].className)
  {
    var classes := Classes(variables);
    forall i | 0 <= i < |classes|
      ensures Members(variables)[i] == MemberSection(classes[i], ClassLines(variables, classes[i]))
    {
      MemberSectionsOfAt(variables, classes, i);
      assert classes[i] in variables;
    }
  }


  /** The inner loop of the member report. */
  method ReportClassMembers(variables: map<string, map<U16, string>>, c: string) returns (lines: seq<Line>)
    requires c in variables
    ensures lines == ClassLines(variables, c)
  {
    var inner := variables[c];
    var offsets := InnerKeysOf(variables, c);
    lines := [];
    for i := 0 to |offsets|
      invariant lines == LinesOf(inner, offsets[..i])
    {
      LinesOfStep(inner, offsets, i);
      lines := lines + [Line(inner[offsets[i]], offsets[i])];
    }
    assert offsets[..|offsets|] == offsets;
  }

  lemma LinesOfStep(m: map<U16, string>, offsets: seq<U16>, i: nat)
    requires i < |offsets| && forall k :: k in offsets ==> k in m
    ensures LinesOf(m, offsets[..i + 1]) == LinesOf(m, offsets[..i]) + [Line(m[offsets[i]], offsets[i])]
  {
    assert offsets[..i + 1][..i] == offsets[..i];
  }

  /** The member report over every class, in ascending class-name order. */
  method ReportMembers(variables: map<string, map<U16, string>>) returns (sections: seq<MemberSection>)
    ensures sections == Members(variables)
  {
    var classes := ClassesOf(variables);
    sections := ReportClasses(variables, classes);
  }

  /** The outer loop of the member report, over the classes of `classes` in
      order. */
  method ReportClasses(variables: map<string, map<U16, string>>, classes: seq<string>) returns (sections: seq<MemberSection>)
    requires forall c :: c in classes ==> c in variables
    ensures sections == MemberSectionsOf(variables, classes)
  {
    sections := [];
    for i := 0 to |classes|
      invariant sections == MemberSectionsOf(variables, classes[..i])
    {
      MemberSectionsOfStep(variables, classes, i);
      var lines := ReportClassMembers(variables, classes[i]);
      sections := sections + [MemberSection(classes[i], lines)];
    }
    assert classes[..|classes|] == classes;
  }


  /** Class `C` with two members named `Flags`, at 0x8 and 0x10, prints both
      under the same name, in offset order. */
  lemma RepeatedMemberNameExample()
    ensures ClassLines(map["C" := map[8 := "Flags", 16 := "Flags"]], "C") == [Line("Flags", 8), Line("Flags", 16)]
  {
    var variables := map["C" := map[8 := "Flags", 16 := "Flags"]];
    InnerKeysAre(variables, "C", [8, 16]);
  }
}
