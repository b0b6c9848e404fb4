/** The debug-information entry tree as the extractor sees it, and the two
    fixed allow-lists of class names. */
module DebugInfo {
  import opened Wrappers

  type Byte = x: int | 0 <= x < 0x100

  /** `uint16_t`: the key type of the slot maps, and the width to which member
      offsets are truncated. */
  type U16 = x: int | 0 <= x < 0x1_0000

  /** Numeric order on slots and offsets, the key order of the inner maps. */
  function KeyLess(a: U16, b: U16): bool { a < b }

  /** The tags the extractor distinguishes; every other tag is `OtherTag`. */
  datatype Tag = CompileUnit | ClassType | StructureType | Subprogram | Member | Inheritance | OtherTag

  /** The form of an attribute value, as far as the typed accessors are
      concerned: `getAsBlock` yields the bytes of a `Block` (block and exprloc
      forms), `getAsUnsignedConstant` the value of a `Constant`. */
  datatype Form = Block(bytes: seq<Byte>) | Constant(value: nat) | OtherForm

  datatype AttrName = AtVirtuality | AtVtableElemLocation | AtDataMemberLocation | AtOtherName

  datatype Attr = Attr(name: AttrName, form: Form)

  /** One debug-information entry. `name` is `DW_AT_name` (the short name);
      `containingType` and `typeRef` are the entries that `DW_AT_containing_type`
      and `DW_AT_type` resolve to, `None` when absent or unresolvable. Parent
      links are not stored: a location carries the path from the root. */
  datatype Die = Die(
    tag: Tag,
    name: Option<string>,
    attrs: seq<Attr>,
    containingType: Option<Die>,
    typeRef: Option<Die>,
    children: seq<Die>)

  /** An entry together with its ancestors, outermost (the unit entry) first. */
  datatype Loc = Loc(ancestors: seq<Die>, node: Die)

  predicate IsClassOrStruct(d: Die) {
    d.tag == ClassType || d.tag == StructureType
  }

  /** `ClassNameExists`: a linear search of an allow-list. */
  function ClassNameExists(name: string, classNames: seq<string>): (r: bool)
    ensures r <==> exists i :: 0 <= i < |classNames| && classNames[i] == name
  {
    if classNames == [] then false
    else if classNames[0] == name then true
    else
      var r := ClassNameExists(name, classNames[1..]);
      assert forall i :: 0 < i < |classNames| ==> classNames[i] == classNames[1..][i - 1];
      r
  }

  /** Classes whose data members are extracted (member mode). */
  const VariableClassNames: seq<string> := [
    "UObjectBase", "UScriptStruct::ICppStructOps", "FSoftClassProperty", "AGameModeBase",
    "FOutputDevice", "FEnumProperty", "UStruct", "FDelegateProperty", "UGameViewportClient",
    "FArchiveState", "AGameMode", "AActor", "AHUD", "UPlayer", "ULocalPlayer", "FByteProperty",
    "FField", "UField", "UFunction", "FProperty", "FMulticastDelegateProperty",
    "FObjectPropertyBase", "UScriptStruct", "UWorld", "UClass", "FSetProperty", "UEnum",
    "FStructProperty", "FArrayProperty", "FMapProperty", "FBoolProperty", "FClassProperty",
    "FInterfaceProperty", "FFieldPathProperty"]

  /** Classes whose virtual functions are extracted (function mode). */
  const VtableClassNames: seq<string> := [
    "FExec", "UObjectBase", "UObjectBaseUtility", "UObject", "UScriptStruct::ICppStructOps",
    "AGameModeBase", "FOutputDevice", "UStruct", "UField", "FMalloc", "UGameViewportClient",
    "FArchive", "FArchiveState", "AGameMode", "AActor", "AHUD", "UPlayer", "ULocalPlayer",
    "FField", "FProperty", "FNumericProperty", "FMulticastDelegateProperty",
    "FObjectPropertyBase"]
}
