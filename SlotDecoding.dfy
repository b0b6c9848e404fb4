/** Reading attributes of an entry: the vtable slot of a virtual function, the
    virtual classification, and the offset of a data member. */
module SlotDecoding {
  import opened Wrappers
  import opened DebugInfo

  /** `DW_OP_constu`, section 7.7.1 of the DWARF 4 standard. */
  const DW_OP_constu: Byte := 0x10

  /** The number of bytes of the ULEB128 (section 7.6 of the DWARF 4 standard)
      at the front of `bs`: up to and including the first byte below 0x80,
      and no further than the end of `bs`. */
  function UlebLength(bs: seq<Byte>): (n: nat)
    ensures n <= |bs|
    ensures bs != [] ==> 1 <= n
    ensures forall i :: 0 <= i < n - 1 ==> bs[i] >= 0x80
    ensures n < |bs| ==> n > 0 && bs[n - 1] < 0x80
  {
    if bs == [] then 0
    else if bs[0] < 0x80 then 1
    else
      var m := UlebLength(bs[1..]);
      assert forall i :: 0 < i < |bs| ==> bs[i] == bs[1..][i - 1];
      1 + m
  }

  /** The value the ULEB128 at the front of `bs` encodes. */
  function UlebValue(bs: seq<Byte>): nat {
    if bs == [] then 0
    else if bs[0] < 0x80 then bs[0]
    else (bs[0] - 0x80) + 0x80 * UlebValue(bs[1..])
  }

  /** The unsigned little-endian number held in `bs`. */
  function LittleEndian(bs: seq<Byte>): nat {
    if bs == [] then 0 else bs[0] + 0x100 * LittleEndian(bs[1..])
  }

  /** What `memcpy(&offset, operand, offset_size)` leaves in the `uint16_t`
      `offset`, on a little-endian host, where `offset_size` is the length of
      the ULEB128 at the front of `operand`: the copy width is the encoding's
      length, not its value. */
  function CopySlot(operand: seq<Byte>): (slot: U16)
    ensures UlebLength(operand) <= 2 ==> slot == LittleEndian(operand[..UlebLength(operand)])
  {
    var n := UlebLength(operand);
    if n == 0 then 0
    else if n == 1 then
      assert LittleEndian(operand[..1][1..]) == 0;
      operand[0]
    else
      assert LittleEndian(operand[..2][1..][1..]) == 0;
      operand[0] as int + 0x100 * operand[1] as int
  }

  /** A `DW_AT_vtable_elem_location` whose value is a non-empty block that
      starts with `DW_OP_constu`. */
  predicate IsSlotExpression(a: Attr) {
    a.name == AtVtableElemLocation && a.form.Block? && |a.form.bytes| > 0
    && a.form.bytes[0] == DW_OP_constu
  }

  /** The index of the first slot expression among `attrs[k..]`. */
  function FirstSlotExpression(attrs: seq<Attr>, k: nat): (r: Option<nat>)
    requires k <= |attrs|
    ensures r.Some? ==> k <= r.value < |attrs| && IsSlotExpression(attrs[r.value])
    ensures forall i :: k <= i < |attrs| && (r.None? || i < r.value) ==> !IsSlotExpression(attrs[i])
    decreases |attrs| - k
  {
    if k == |attrs| then None
    else if IsSlotExpression(attrs[k]) then Some(k)
    else FirstSlotExpression(attrs, k + 1)
  }

  /** `getVirtualFunctionOffset` as a function of an entry's attributes. */
  function VirtualSlot(attrs: seq<Attr>): U16 {
    match FirstSlotExpression(attrs, 0)
    case None => 0
    case Some(i) => CopySlot(attrs[i].form.bytes[1..])
  }

  /** `getVirtualFunctionOffset`: scan the attributes for the first slot
      expression and decode its operand. */
  method GetVirtualFunctionOffset(d: Die) returns (offset: U16)
    ensures offset == VirtualSlot(d.attrs)
  {
    var i := 0;
    while i < |d.attrs|
      invariant 0 <= i <= |d.attrs|
      invariant FirstSlotExpression(d.attrs, 0) == FirstSlotExpression(d.attrs, i)
    {
      var a := d.attrs[i];
      if a.name == AtVtableElemLocation {
        if a.form.Block? {
          var data := a.form.bytes;
          if |data| > 0 && data[0] == DW_OP_constu {
            offset := CopySlot(data[1..]);
            return;
          }
        }
      }
      i := i + 1;
    }
    return 0;
  }

  /** The slot is 0 unless some attribute is a slot expression; otherwise it
      comes from the first one. */
  lemma SlotZeroUnlessConstu(attrs: seq<Attr>)
    ensures (forall i :: 0 <= i < |attrs| ==> !IsSlotExpression(attrs[i])) ==> VirtualSlot(attrs) == 0
    ensures forall i :: 0 <= i < |attrs| && IsSlotExpression(attrs[i])
              && (forall j :: 0 <= j < i ==> !IsSlotExpression(attrs[j]))
              ==> VirtualSlot(attrs) == CopySlot(attrs[i].form.bytes[1..])
  {
    var r := FirstSlotExpression(attrs, 0);
    if r.Some? {
      forall i | 0 <= i < |attrs| && IsSlotExpression(attrs[i])
        && (forall j :: 0 <= j < i ==> !IsSlotExpression(attrs[j]))
        ensures i == r.value
      {
      }
    }
  }

  /** For a one-byte encoding (a value below 0x80) the copied slot is the
      encoded value. */
  lemma OneByteSlotIsEncodedValue(operand: seq<Byte>)
    requires operand != [] && operand[0] < 0x80
    ensures UlebLength(operand) == 1
    ensures CopySlot(operand) == UlebValue(operand) == operand[0]
  {
  }

  /** For a two-byte encoding the copied slot exceeds the encoded value by
      0x80 * (second byte + 1), so the two never agree. */
  lemma TwoByteSlotDiffers(operand: seq<Byte>)
    requires |operand| >= 2 && operand[0] >= 0x80 && operand[1] < 0x80
    ensures UlebLength(operand) == 2
    ensures CopySlot(operand) == UlebValue(operand) + 0x80 * (operand[1] as int + 1)
    ensures CopySlot(operand) != UlebValue(operand)
  {
    assert UlebLength(operand[1..]) == 1;
    assert UlebValue(operand[1..]) == operand[1];
  }

  /** The index of the first attribute named `n` among `attrs[k..]`: the
      lookup `DWARFDie::find` does. */
  function FindAttr(attrs: seq<Attr>, n: AttrName, k: nat): (r: Option<nat>)
    requires k <= |attrs|
    ensures r.Some? ==> k <= r.value < |attrs| && attrs[r.value].name == n
    ensures forall i :: k <= i < |attrs| && (r.None? || i < r.value) ==> attrs[i].name != n
    decreases |attrs| - k
  {
    if k == |attrs| then None
    else if attrs[k].name == n then Some(k)
    else FindAttr(attrs, n, k + 1)
  }

  /** `isVirtualFunction`: a subprogram carrying `DW_AT_virtuality`, whatever
      its value. */
  function IsVirtualFunction(d: Die): (r: bool)
    ensures r <==> d.tag == Subprogram
                   && exists i :: 0 <= i < |d.attrs| && d.attrs[i].name == AtVirtuality
  {
    d.tag == Subprogram && FindAttr(d.attrs, AtVirtuality, 0).Some?
  }

  /** `getVariableOffset`: the first `DW_AT_data_member_location`, when it is
      an unsigned constant, truncated to 16 bits; 0 otherwise. */
  function VariableOffset(d: Die): (offset: U16)
    ensures forall i :: 0 <= i < |d.attrs| && d.attrs[i].name == AtDataMemberLocation
                        && (forall j :: 0 <= j < i ==> d.attrs[j].name != AtDataMemberLocation)
                        ==> offset == (if d.attrs[i].form.Constant? then d.attrs[i].form.value % 0x1_0000 else 0)
    ensures (forall i :: 0 <= i < |d.attrs| ==> d.attrs[i].name != AtDataMemberLocation) ==> offset == 0
    ensures offset != 0 ==> exists i :: 0 <= i < |d.attrs| && d.attrs[i].name == AtDataMemberLocation
                              && (forall j :: 0 <= j < i ==> d.attrs[j].name != AtDataMemberLocation)
                              && d.attrs[i].form.Constant?
                              && offset == d.attrs[i].form.value % 0x1_0000
  {
    match FindAttr(d.attrs, AtDataMemberLocation, 0)
    case None => 0
    case Some(i) =>
      match d.attrs[i].form
      case Constant(v) => v % 0x1_0000
      case _ => 0
  }
}
