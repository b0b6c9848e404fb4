/** What the program prints for a given set of compilation units and code
    type: the walk fills the three maps from empty, then code type 1 prints
    the member map and code type 0 applies the two parent overrides and
    prints the reconciled vtables. */
module Pipeline {
  import opened Wrappers
  import opened DebugInfo
  import opened Extraction
  import opened ExtractionFacts
  import opened Reconcile
  import opened ReconcileFacts
  import opened MemberReport

  /** The program's output, as records rather than text. `Loops` is the run
      in which an ancestor check recurses forever around a cycle of parents. */
  datatype Output =
    | MemberListing(members: seq<MemberSection>)
    | VtableListing(vtables: seq<Section>)
    | Loops
    | Silent

  /** The two hard-coded parents, assigned after the walk and before the
      reconciliation. */
  function WithOverrides(parents: map<string, string>): (r: map<string, string>)
    ensures r.Keys == parents.Keys + {"UGameViewportClient", "AGameModeBase"}
    ensures r["UGameViewportClient"] == "UObject" && r["AGameModeBase"] == "AActor"
    ensures forall c :: c in parents && c != "UGameViewportClient" && c != "AGameModeBase" ==> r[c] == parents[c]
  {
    parents["UGameViewportClient" := "UObject"]["AGameModeBase" := "AActor"]
  }

  /** What is printed once the maps hold `t`. */
  ghost function OutputFrom(t: Tables, codeType: int): Output {
    if codeType == 1 then MemberListing(Members(t.variables))
    else if codeType == 0 then
      var parents := WithOverrides(t.parents);
      if Terminates(t.vtables, parents) then VtableListing(Report(t.vtables, parents)) else Loops
    else Silent
  }

  /** The whole run over the unit entries `units`. */
  ghost function ProgramOutput(units: seq<Die>, codeType: int): Output {
    OutputFrom(LoadUnits(EmptyTables, units, codeType, |units|), codeType)
  }

  /** A code type other than 0 and 1 walks nothing and prints nothing. */
  lemma OtherCodeTypesSilent(units: seq<Die>, codeType: int)
    requires codeType != 0 && codeType != 1
    ensures ProgramOutput(units, codeType) == Silent
    ensures LoadUnits(EmptyTables, units, codeType, |units|) == EmptyTables
  {
    LoadUnitsIdle(units, codeType, |units|);
  }

  lemma {:induction false} LoadUnitsIdle(units: seq<Die>, codeType: int, n: nat)
    requires codeType != 0 && codeType != 1 && n <= |units|
    ensures LoadUnits(EmptyTables, units, codeType, n) == EmptyTables
  {
    if n > 0 { LoadUnitsIdle(units, codeType, n - 1); }
  }

  /** Only classes on the vtable allow-list get a section. */
  lemma VtableSectionsAllowListed(units: seq<Die>)
    requires ProgramOutput(units, 0).VtableListing?
    ensures forall i :: 0 <= i < |ProgramOutput(units, 0).vtables| ==>
              ProgramOutput(units, 0).vtables[i].className in VtableClassNames
  {
    var t := LoadUnits(EmptyTables, units, 0, |units|);
    EmptyTablesInvariant();
    LoadUnitsInvariant(EmptyTables, units, 0, |units|);
    var parents := WithOverrides(t.parents);
    var sections := Report(t.vtables, parents);
    assert ProgramOutput(units, 0) == VtableListing(sections);
    SectionClassesKnown(t.vtables, parents);
  }

  lemma SectionClassesKnown(vtables: map<string, map<U16, string>>, parents: map<string, string>)
    ensures forall i :: 0 <= i < |Report(vtables, parents)| ==> Report(vtables, parents)[i].className in vtables
  {
    ReportSections(vtables, parents);
    forall i | 0 <= i < |Report(vtables, parents)| ensures Report(vtables, parents)[i].className in vtables {
      assert Classes(vtables)[i] in Classes(vtables);
    }
  }

  /** Only classes on the member allow-list get a section, and no printed
      member has offset 0. */
  lemma MemberSectionsAllowListed(units: seq<Die>)
    ensures ProgramOutput(units, 1).MemberListing?
    ensures forall i :: 0 <= i < |ProgramOutput(units, 1).members| ==>
              ProgramOutput(units, 1).members[i].className in VariableClassNames
    ensures forall i, j ::
              (0 <= i < |ProgramOutput(units, 1).members| && 0 <= j < |ProgramOutput(units, 1).members[i].lines|) ==>
              ProgramOutput(units, 1).members[i].lines[j].offset != 0
  {
    var t := LoadUnits(EmptyTables, units, 1, |units|);
    EmptyTablesInvariant();
    LoadUnitsInvariant(EmptyTables, units, 1, |units|);
    var out := Members(t.variables);
    MembersSections(t.variables);
    forall i | 0 <= i < |out| ensures out[i].className in VariableClassNames && out[i].className in t.variables {
      MemberClassKnown(t.variables, i);
    }
    forall i, j | 0 <= i < |out| && 0 <= j < |out[i].lines| ensures out[i].lines[j].offset != 0 {
      MemberClassKnown(t.variables, i);
      ClassLinesNamed(t.variables, out[i].className);
    }
  }

  lemma MemberClassKnown(variables: map<string, map<U16, string>>, i: nat)
    requires i < |Members(variables)|
    ensures Members(variables)[i].className in variables
    ensures Members(variables)[i].lines == ClassLines(variables, Members(variables)[i].className)
  {
    MembersSections(variables);
  }
}
