# llvm-dwarfvtable, modelled in Dafny

`llvm-dwarfvtable` reads the DWARF debug information of an object file and
prints, in one of two modes, either the data-member layout (member names at
byte offsets) or the virtual-function tables (function names at vtable
slots) of a fixed list of Unreal Engine classes.

The model covers the part of the tool beneath the LLVM plumbing.

- **The tree.** The debug-information tree is a `Die` datatype. Parent links
  become the path from the unit entry down, written as `Loc`.
- **Entry queries.** Slot decoding (`DW_OP_constu` followed by a ULEB128
  operand, sections 7.6 and 7.7.1 of the DWARF 4 standard), the virtual
  classification, member offsets and qualified names.
- **The two walks.** The function walk and the member walk fill three
  accumulator maps: class → slot → function name, class → offset → member
  name, and class → parent name.
  - Each walk is a pure fold over a preorder of the tree (`Extraction`).
  - `Program.Session` is a class holding the three maps as fields. Its
    methods update them in place, in the source's own control flow, and
    each method is proved equal to the fold.
- **The vtable report.** This is the reconciliation loop of `main`:
  - it applies the two hard-coded parent overrides;
  - it strips the first `<<` of each name;
  - it suppresses slot 0 and every name that an ancestor's map holds;
  - it emits the `__vecDelDtor` pair before slot 2;
  - it adds overload suffixes, counted by a per-class `cacheMap`.

  Output is a sequence of records (`Function(name, suffix, slot)` or
  `VecDelDtor(slot)`) under one `Section` per class, not text.
- **The member report.** A `MemberSection` of `Line(name, offset)` per class.
- **Ordering.** `std::map` iterates its keys in ascending order. The model
  enumerates a key set in ascending order (`Ordered.SortedSeq`) and proves
  that enumeration unique. It uses character-wise lexicographic order for class
  names and numeric order for slots and offsets.
- **The ancestor check.** `CheckParentHasFunction` has no cycle guard. The
  model carries the set of classes already visited and returns `Diverges`
  when the walk comes back to one. `Reconcile.Terminates` holds exactly when
  no check the report makes diverges. A run in which some ancestor check goes
  round a parent cycle without finding the name is the output `Loops`. A
  cycle through which every checked name is found still prints a report.

Points where the code behaves in a way that is easy to misread; the model
follows the code as written:

- The destructor pair is printed only when the entry at slot 2 survives
  suppression. The `continue` at llvm-dwarfvtable.cpp:416-419 comes before
  the pair at 420-423.
- A `[class]` header is printed for every class in the vtable map, even when
  none of its entries survive (line 407).
- The ancestor check compares the stripped name against the ancestor's
  stored names, `<<` included (line 362).
- The ancestor walk stops, with "not found", at the first parent that has no
  vtable map (line 359), even when a more distant ancestor would have one.
- The ancestor check is made for every entry, and before the slot-0 test.
  The model keeps that order, so a check that diverges on a slot-0 entry
  still makes the run loop.

## Model

| member | source | states |
|---|---|---|
| DebugInfo.ClassNameExists | llvm-dwarfvtable.cpp:78-82 | true exactly when some position of the allow-list holds the name |
| SlotDecoding.UlebLength | llvm-dwarfvtable.cpp:104 | the ULEB128 length is no more than the bytes there, at least 1 for a non-empty block; every byte before the last has the continuation bit and the last does not, unless the block ends first |
| SlotDecoding.CopySlot | llvm-dwarfvtable.cpp:102-106 | for an encoding of length n ≤ 2 the slot is the little-endian value of the first n operand bytes: the copy width is the encoding's length, not its value |
| SlotDecoding.OneByteSlotIsEncodedValue | llvm-dwarfvtable.cpp:102-106 | for a one-byte encoding (value below 0x80) the copied slot equals the encoded value |
| SlotDecoding.TwoByteSlotDiffers | llvm-dwarfvtable.cpp:102-106 | for a two-byte encoding the copied slot exceeds the encoded value by 0x80 × (second byte + 1), so they never agree |
| SlotDecoding.FirstSlotExpression | llvm-dwarfvtable.cpp:95-101 | the index returned is a `DW_AT_vtable_elem_location` block starting with `DW_OP_constu`, and no earlier attribute is one |
| SlotDecoding.GetVirtualFunctionOffset | llvm-dwarfvtable.cpp:94-114 | the attribute scan returns exactly the slot of the first slot expression, or 0 |
| SlotDecoding.SlotZeroUnlessConstu | llvm-dwarfvtable.cpp:94-113 | the slot is 0 when no attribute is a slot expression; otherwise it is the copied operand of the first one |
| SlotDecoding.VirtualSlot | llvm-dwarfvtable.cpp:94-114 | the slot of an attribute list, as a function; its meaning is stated by `SlotZeroUnlessConstu` and `GetVirtualFunctionOffset` |
| SlotDecoding.IsVirtualFunction | llvm-dwarfvtable.cpp:125-137 | true exactly when the tag is `DW_TAG_subprogram` and some attribute is `DW_AT_virtuality`, whatever its value |
| SlotDecoding.FindAttr | llvm-dwarfvtable.cpp:205 | the index returned carries the attribute name and no earlier attribute does |
| SlotDecoding.VariableOffset | llvm-dwarfvtable.cpp:204-213 | the first `DW_AT_data_member_location` yields its unsigned constant truncated to 16 bits (`% 0x10000`), or 0 when it is not a constant; the offset is 0 when there is no such attribute |
| Strings.FindDoubled | llvm-dwarfvtable.cpp:411 | the index returned starts a doubled character and no earlier index does; `None` means none occurs |
| QualifiedNames.GetQualifiedName | llvm-dwarfvtable.cpp:139-156 | the prepending loop from the entry up to the root yields `QualifiedName` of the path |
| QualifiedNames.QualifiedName | llvm-dwarfvtable.cpp:139-156 | the qualified name of a path, as a function; `QualifiedNameIsJoin`, `SplitJoin`, `OwnNameOnly` and `NonContributingSkipped` state what it is, and `GetQualifiedName` computes it |
| QualifiedNames.QualifiedNameIsJoin | llvm-dwarfvtable.cpp:139-156 | with non-empty short names the qualified name is the `::`-join, outermost first, of the names of the non-unit named entries on the path |
| QualifiedNames.SplitJoin | llvm-dwarfvtable.cpp:145-152 | a join of non-empty names without `:` splits back into exactly those names, so it has no leading or trailing `::` and no empty segment |
| QualifiedNames.OwnNameOnly | llvm-dwarfvtable.cpp:139-156 | a named entry with no contributing ancestor has its own short name as qualified name |
| QualifiedNames.NonContributingSkipped | llvm-dwarfvtable.cpp:144-146 | a compile unit or a nameless entry can be removed from the path without changing the qualified name |
| Extraction.FirstInheritance | llvm-dwarfvtable.cpp:159-163 | the index returned is an inheritance child and no earlier child is one |
| Extraction.ParentClassName | llvm-dwarfvtable.cpp:158-165 | a parent name exists exactly when the first inheritance child refers to a named type, and it is that type's short name |
| Extraction.RecordVirtual | llvm-dwarfvtable.cpp:167-186 | `SearchVirtualFunction` as a function on the maps; `RecordVirtualStoresAtSlot`, `ParentRecordedFromFirstInheritance`, `RecordVirtualIgnoresClasses` and `RecordVirtualInvariant` state what it does |
| Extraction.DecodeClass | llvm-dwarfvtable.cpp:266-293 | `DecodeClass` as a function on the maps; `DecodeMembersOverlay`, `DecodeClassRecordsDirectMembers`, `DecodeClassIdempotent` and `DecodeClassInvariant` state what it does |
| Extraction.Handle | llvm-dwarfvtable.cpp:190-197 | the handler of the selected walk; `HandleInvariant` states what it keeps |
| Extraction.Visit | llvm-dwarfvtable.cpp:189-198 | the two handler calls made at one entry; `VisitInvariant` and `RecordVirtualIgnoresClasses` state what they do |
| Extraction.Preorder | llvm-dwarfvtable.cpp:188-202 | the entries a walk visits, in order; `PreorderVisitsChildren` and `PreorderSize` state which |
| Extraction.Fold | llvm-dwarfvtable.cpp:188-202 | a walk as the visits of its entries in order; `FoldAppend` and `FoldInvariant` state its properties, and `Session.SearcheFunction` and `Session.SearchClass` are proved equal to it |
| Extraction.LoadUnits | llvm-dwarfvtable.cpp:332-340 | the dispatch over the unit entries; `LoadUnitsInvariant` and `OtherCodeTypesSilent` state its properties, and `Session.LoadDwarfFile` is proved equal to it |
| Extraction.PreorderVisitsChildren | llvm-dwarfvtable.cpp:188-202 | the walk visits the entry first, then every entry of every child's subtree with the entry appended to its path, and nothing else |
| Extraction.PreorderSize | llvm-dwarfvtable.cpp:197-201 | the walk visits as many entries as the tree has: the recursion into children is unconditional |
| Extraction.FoldAppend | llvm-dwarfvtable.cpp:197-201 | visiting one run of entries and then another is visiting their concatenation |
| ExtractionFacts.EmptyTablesInvariant | llvm-dwarfvtable.cpp:73-76 | the empty maps satisfy the key invariant |
| ExtractionFacts.RecordVirtualIgnoresClasses | llvm-dwarfvtable.cpp:190-192 | `SearchVirtualFunction` on a class or structure entry changes nothing, so neither does the function walk's visit of one |
| ExtractionFacts.RecordVirtualStoresAtSlot | llvm-dwarfvtable.cpp:167-186 | when the gate holds, the name is stored at (class, slot), overwriting, the vtable map gains no class key but that one, every other (class, slot) entry and the member map are unchanged, and the class's parent is set to the enclosing entry's parent name when it has one, the parent map being otherwise unchanged; when the gate fails nothing changes |
| ExtractionFacts.ParentRecordedFromFirstInheritance | llvm-dwarfvtable.cpp:175-181 | a changed parent map means the enclosing entry's first inheritance child refers to a named type, and exactly that short name was recorded for the class |
| ExtractionFacts.RecordVirtualInvariant | llvm-dwarfvtable.cpp:174-182 | vtable and parent keys stay on the vtable allow-list |
| ExtractionFacts.DecodeMemberInvariant | llvm-dwarfvtable.cpp:283-288 | member keys stay on the member allow-list, offset 0 never appears, and the vtable and parent maps are untouched |
| ExtractionFacts.DecodeMembersInvariant | llvm-dwarfvtable.cpp:271-291 | the same for the whole member loop |
| ExtractionFacts.DecodeClassInvariant | llvm-dwarfvtable.cpp:266-293 | `DecodeClass` keeps the key invariant |
| ExtractionFacts.HandleInvariant | llvm-dwarfvtable.cpp:190-197 | either handler keeps the key invariant |
| ExtractionFacts.VisitInvariant | llvm-dwarfvtable.cpp:190-197 | one visit (both handler calls) keeps the key invariant |
| ExtractionFacts.FoldInvariant | llvm-dwarfvtable.cpp:188-202 | a walk keeps the key invariant |
| ExtractionFacts.LoadUnitsInvariant | llvm-dwarfvtable.cpp:333-340 | loading any units in any mode leaves every vtable and parent key on the vtable allow-list, every member key on the member allow-list, and offset 0 out of every member map |
| ExtractionFacts.MemberWritesFromMembers | llvm-dwarfvtable.cpp:271-290 | every offset written comes from a direct member child with a short name and a non-zero offset, one carrying the name stored |
| ExtractionFacts.OverlayWrite | llvm-dwarfvtable.cpp:288 | one write into a class's member map extends the overlay of that class's writes |
| ExtractionFacts.OverlayStep | llvm-dwarfvtable.cpp:275-290 | one iteration of the member loop extends the overlay by that child's write, if any |
| ExtractionFacts.DecodeMembersOverlay | llvm-dwarfvtable.cpp:271-291 | the member loop overlays its writes, last one winning, on the class's existing map and creates no entry when it writes nothing |
| ExtractionFacts.DecodeClassIdempotent | llvm-dwarfvtable.cpp:266-293 | decoding a class twice leaves the maps as decoding it once |
| ExtractionFacts.DecodeClassRecordsDirectMembers | llvm-dwarfvtable.cpp:266-293 | a changed (class, offset) entry belongs to a named class whose qualified name is on the member allow-list, has offset > 0, and holds the name of a direct member child at that offset |
| Ancestry.ValueExists | llvm-dwarfvtable.cpp:343-351 | true exactly when the name is among the map's values |
| Ancestry.CheckParentHasFunction | llvm-dwarfvtable.cpp:353-368 | the ancestor check with a visited set, as a function; `CheckParentHasFunctionSpec` states what it returns |
| Ancestry.CheckParentHasFunctionSpec | llvm-dwarfvtable.cpp:353-368 | the check is true exactly when the parent walk from the class, continuing while each parent has a vtable map, reaches a parent whose map holds the name; it diverges exactly when that walk never returns |
| Ancestry.FoundMeansInherited | llvm-dwarfvtable.cpp:353-368 | a walk that finds the name within n steps makes the check true |
| Ancestry.Characterize | llvm-dwarfvtable.cpp:353-368 | the general form of the characterisation, for a walk that has already moved on from the visited classes |
| Ancestry.CycleNeverStops | llvm-dwarfvtable.cpp:366-367 | around a cycle of parents, none of whose maps holds the name, the recursion neither stops nor finds it |
| Reconcile.StripMarker | llvm-dwarfvtable.cpp:410-415 | the marker removal, as a function; `StripMarkerSpec` states what it returns |
| Reconcile.StripMarkerSpec | llvm-dwarfvtable.cpp:410-415 | a name without `<<` is unchanged; otherwise exactly the first `<<` is cut out |
| Reconcile.StripMarkerOnce | llvm-dwarfvtable.cpp:410-415 | only the first marker goes: `Tick<<<<` becomes `Tick<<` |
| Reconcile.StripMarkerAtStart | llvm-dwarfvtable.cpp:410-415 | a marker at the very start is removed |
| Reconcile.Survives | llvm-dwarfvtable.cpp:416-419 | the `continue` test, negated, as a predicate; `SurvivorsMembers` and `PrintedSlots` state its effect on the output |
| Reconcile.Terminates | llvm-dwarfvtable.cpp:416-419 | no ancestor check the report makes diverges; `ReportVtables`, `CycleNeverStops` and the cycle examples state when it holds |
| Reconcile.Survivors | llvm-dwarfvtable.cpp:416-419 | the surviving slots are drawn from the slots given |
| Reconcile.SurvivorsMembers | llvm-dwarfvtable.cpp:416-419 | a slot survives exactly when its slot is not 0 and the ancestor check on its stripped name is not true |
| Reconcile.InnerKeys | llvm-dwarfvtable.cpp:409 | the keys of a class's inner map (its vtable slots, or its member offsets at line 387), each exactly once and strictly ascending |
| Reconcile.InnerKeysAre | llvm-dwarfvtable.cpp:409 | any ascending sequence of exactly the class's keys is the visiting order |
| Reconcile.Classes | llvm-dwarfvtable.cpp:406 | the classes visited are exactly the keys of the vtable map, each exactly once |
| Reconcile.ClassesOrdered | llvm-dwarfvtable.cpp:406 | the classes are visited in strictly ascending name order |
| Reconcile.ClassesAre | llvm-dwarfvtable.cpp:406 | any ascending sequence of exactly the classes is the visiting order |
| Reconcile.Printable | llvm-dwarfvtable.cpp:409-419 | every printed slot is a slot of the class |
| Reconcile.SectionsOf | llvm-dwarfvtable.cpp:406-438 | one section per class given |
| Reconcile.CacheAfterCounts | llvm-dwarfvtable.cpp:425-434 | `cacheMap` holds exactly the names printed so far, each with one less than its number of printings |
| Reconcile.PrintStep | llvm-dwarfvtable.cpp:425-434 | printing one more survivor: the suffix read from `cacheMap` is the number of earlier survivors of that name |
| Reconcile.PrintEntry | llvm-dwarfvtable.cpp:420-434 | prints the pair before slot 2, then the name with the counter's suffix, and bumps the counter |
| Reconcile.ReconcileClass | llvm-dwarfvtable.cpp:408-437 | the per-class loop returns exactly that class's reconciled records |
| Reconcile.InnerKeysOf | llvm-dwarfvtable.cpp:409 | returns the class's keys in visiting order |
| Reconcile.ClassesOf | llvm-dwarfvtable.cpp:406 | returns the classes in visiting order |
| Reconcile.ReconcileClasses | llvm-dwarfvtable.cpp:406-438 | the outer loop over given classes returns their sections in order |
| Reconcile.ReconcileAll | llvm-dwarfvtable.cpp:406-438 | the loop over all classes returns exactly the report |
| Reconcile.ReportVtables | llvm-dwarfvtable.cpp:406-438 | the report when every ancestor check returns, and `None` exactly when one would recurse forever |
| ReconcileFacts.EmittedFunctions | llvm-dwarfvtable.cpp:425-434 | each surviving slot yields one function record, in slot order, named after its stripped name, suffixed with the number of earlier survivors of the same name |
| ReconcileFacts.EmittedPairPrecedesSlot2 | llvm-dwarfvtable.cpp:420-423 | `__vecDelDtor` records come only as the pair at 0 and 1, right before the record at slot 2 |
| ReconcileFacts.EmittedDtorCount | llvm-dwarfvtable.cpp:420-423 | each `__vecDelDtor` record occurs as often as slot 2 among the survivors |
| ReconcileFacts.SurvivorsIncreasing | llvm-dwarfvtable.cpp:409-419 | the survivors of an ascending run of slots ascend too |
| ReconcileFacts.IncreasingOnce | llvm-dwarfvtable.cpp:409 | a slot occurs at most once in an ascending sequence |
| ReconcileFacts.PrintedSlots | llvm-dwarfvtable.cpp:409-419 | the printed slots are exactly the surviving slots, a strictly ascending subsequence of the class's keys; none is 0, none has a name the ancestor check finds, each is printed under its stripped name |
| ReconcileFacts.PrintedSuffixes | llvm-dwarfvtable.cpp:425-434 | within a class the first printing of a name is unsuffixed and the k-th later one has suffix k; the counter starts afresh for each class |
| ReconcileFacts.PrintedNamesDistinct | llvm-dwarfvtable.cpp:425-434 | no two records of a class are equal, and two function records of the same name carry different suffixes |
| ReconcileFacts.ClassDtorPair | llvm-dwarfvtable.cpp:416-423 | the destructor pair is printed once, right before slot 2, when slot 2 survives, and not at all otherwise |
| ReconcileFacts.PrintedEntrySurvives | llvm-dwarfvtable.cpp:416-419 | every printed name fails the ancestor check |
| ReconcileFacts.InheritedNotPrinted | llvm-dwarfvtable.cpp:416-419 | a name that some ancestor's map holds, reachable by the parent walk, is never printed for the class |
| ReconcileFacts.ParentFunctionNotPrinted | llvm-dwarfvtable.cpp:416-419 | in particular, a name in the parent's map is not printed |
| ReconcileFacts.SectionsOfAt | llvm-dwarfvtable.cpp:406-438 | section i is class i with its records |
| ReconcileFacts.ReportSections | llvm-dwarfvtable.cpp:406-438 | one section per vtable class, each holding that class's records, a header even when all are suppressed |
| ReconcileFacts.ReportOrdered | llvm-dwarfvtable.cpp:406 | sections come in strictly ascending class-name order |
| ReconcileFacts.ReportCoverage | llvm-dwarfvtable.cpp:406-407 | a class has a section exactly when it has a vtable map |
| ReconcileExamples.InheritTerminates | llvm-dwarfvtable.cpp:353-368 | with `B`'s parent `A`, every ancestor check returns |
| ReconcileExamples.InheritChecksB | llvm-dwarfvtable.cpp:416-419 | `B`'s `foo`, held by its parent, is suppressed and its `bar` survives |
| ReconcileExamples.InheritRecordsA | llvm-dwarfvtable.cpp:408-437 | `A` prints `foo` at slot 3 |
| ReconcileExamples.InheritRecordsB | llvm-dwarfvtable.cpp:408-437 | `B` prints only `bar` at slot 4 |
| ReconcileExamples.CycleFound | llvm-dwarfvtable.cpp:353-368 | `X` and `Y` are each other's parent and declare `f` and `g`: every check returns, finding the name in the class's own map, and both entries are suppressed |
| ReconcileExamples.CycleRecords | llvm-dwarfvtable.cpp:406-437 | on that cycle both classes get a header with no records |
| ReconcileExamples.MarkedCycleLoops | llvm-dwarfvtable.cpp:353-368 | with `X`'s entry stored as `f<<`, the check on `f` goes round the cycle forever, so not every check returns |
| ReconcileExamples.OverloadNames | llvm-dwarfvtable.cpp:410-415 | `Tick` and `Tick<<` both strip to `Tick` |
| ReconcileExamples.OverloadSurvivors | llvm-dwarfvtable.cpp:416-419 | without parents only slot 0 is dropped |
| ReconcileExamples.OverloadExample | llvm-dwarfvtable.cpp:408-437 | slots 0, 2 and 5 print the destructor pair, `Tick` at 2 and `Tick` with suffix 1 at 5 |
| MemberReport.LinesOf | llvm-dwarfvtable.cpp:387-390 | one line per offset, in order, with the name stored there |
| MemberReport.ClassLinesNamed | llvm-dwarfvtable.cpp:387-390 | one line per recorded offset, each with its stored name |
| MemberReport.ClassLinesAscending | llvm-dwarfvtable.cpp:387 | lines appear in strictly ascending offset order |
| MemberReport.ClassLinesCover | llvm-dwarfvtable.cpp:387-390 | every recorded offset has a line |
| MemberReport.MemberSectionsOf | llvm-dwarfvtable.cpp:384-395 | one section per class given |
| MemberReport.MembersSections | llvm-dwarfvtable.cpp:384-395 | one section per member class, in strictly ascending class-name order, each with that class's lines |
| MemberReport.ReportClassMembers | llvm-dwarfvtable.cpp:387-390 | the inner loop returns exactly the class's lines |
| MemberReport.ReportClasses | llvm-dwarfvtable.cpp:384-395 | the outer loop over given classes returns their sections in order |
| MemberReport.ReportMembers | llvm-dwarfvtable.cpp:384-395 | the loop over all classes returns exactly the member report |
| MemberReport.RepeatedMemberNameExample | llvm-dwarfvtable.cpp:387-390 | two members of one name at 0x8 and 0x10 print both, with no suffix |
| Ordered.SortedSeq | llvm-dwarfvtable.cpp:73-76 | the ascending enumeration of a key set is increasing and holds each key exactly once |
| Ordered.IncreasingUnique | llvm-dwarfvtable.cpp:73-76 | two increasing sequences with the same elements are equal |
| Ordered.StrLessIsStrictTotalOrder | llvm-dwarfvtable.cpp:73-76 | string order is irreflexive, transitive and total |
| Ordered.SortedKeys | llvm-dwarfvtable.cpp:406 | iterating a map's keys yields the ascending enumeration |
| Pipeline.WithOverrides | llvm-dwarfvtable.cpp:403-404 | the overrides add or replace the parents of `UGameViewportClient` (`UObject`) and `AGameModeBase` (`AActor`) and keep every other parent |
| Pipeline.OtherCodeTypesSilent | llvm-dwarfvtable.cpp:333-340 | a code type other than 0 and 1 walks nothing and prints nothing |
| Pipeline.VtableSectionsAllowListed | llvm-dwarfvtable.cpp:406-407 | in a whole run only classes on the vtable allow-list get a section |
| Pipeline.MemberSectionsAllowListed | llvm-dwarfvtable.cpp:384-391 | in a whole run only classes on the member allow-list get a section and no line has offset 0 |
| Pipeline.OutputFrom | llvm-dwarfvtable.cpp:383-438 | the output of the reporting part for given maps, as a function; `Session.Finish` is proved equal to it |
| Pipeline.ProgramOutput | llvm-dwarfvtable.cpp:383-438 | the output of a whole run, as a function; `Run` is proved equal to it, and `OtherCodeTypesSilent`, `VtableSectionsAllowListed` and `MemberSectionsAllowListed` state its properties |
| Program.Session.constructor | llvm-dwarfvtable.cpp:73-76 | the three maps start empty |
| Program.Session.SearchVirtualFunction | llvm-dwarfvtable.cpp:167-186 | the in-place update equals `RecordVirtual` of the old maps |
| Program.Session.SearcheFunction | llvm-dwarfvtable.cpp:188-202 | the recursive walk leaves the maps as the function-mode fold over the preorder of the subtree |
| Program.Session.DecodeClass | llvm-dwarfvtable.cpp:266-293 | the member loop leaves the maps as `Extraction.DecodeClass` of the old maps |
| Program.Session.SearchClass | llvm-dwarfvtable.cpp:295-314 | the recursive walk leaves the maps as the member-mode fold over the preorder of the subtree |
| Program.Session.LoadDwarfFile | llvm-dwarfvtable.cpp:333-340 | dispatching each unit entry to the selected walk leaves the maps as `LoadUnits` of the old maps |
| Program.Session.Finish | llvm-dwarfvtable.cpp:383-438 | the report printed for the current maps; in code type 0 the parent map afterwards has the overrides and the other two maps are unchanged |
| Program.Run | llvm-dwarfvtable.cpp:382-438 | a whole run from empty maps yields `ProgramOutput` |

## Left out

- Object-file loading, LLVM target initialisation, `DWARFContext` and the
  enumeration of compile units (llvm-dwarfvtable.cpp:317-332) are foreign
  library I/O. The model takes the unit entries as a parameter, and a file
  that fails to open is the empty sequence.
- `getDemangledName` and `getLinkageName` are foreign calls and are never
  called.
- `getTypeNameRecursively` and `getTypeName` are dead code: their only call
  sites are commented out.
- Command-line handling (the argument count and `std::stoi`) is not modelled.
  The code type is an `int` parameter.
- Text rendering is not modelled: the `[class]` lines, ` = 0x`, `_k`,
  ` ####offset#### 0x` and the blank separator lines. In particular,
  `std::hex` stays set on `std::cout`, so suffixes after the first hex
  output are also printed in hexadecimal. The model emits records instead.
- The `Key: …, Value: …` listing of the parent map (lines 398-402) is
  diagnostic text and is not modelled.
- CopySlot: an encoding longer than 2 bytes makes the source's `memcpy`
  write past the `uint16_t` (undefined behaviour). The model copies the
  first two bytes, and its contract says nothing for that case.
- CopySlot: the ULEB128 length is bounded by the block rather than read
  unbounded, and the host is taken to be little-endian.
- ReconcileClass: `cacheMap` holds `uint32_t` counters. The model uses
  unbounded counters and so does not model a wrap after 2^32 repetitions of
  one name within one class.
- The infinite recursion of `CheckParentHasFunction` on a cycle of parents
  is modelled as the verdict `Diverges`, and the run as the output `Loops`.
  The model does not describe what a real run prints before the stack
  overflows.
- The member map's keys are `uint32_t`, but they only ever receive 16-bit
  offsets, so the model keys them by `U16`.
- Text is `seq<char>`. Class-name order is character-wise lexicographic
  order, which agrees with `std::string` comparison on the allow-listed
  ASCII names.
