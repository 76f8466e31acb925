/**
 Rows in memory: null flags, writing a literal into uninitialised bytes and reading it
 back.  A scalar is its bit pattern, so floats and signed integers need no rounding or
 sign rules.  A string is a nonzero address into `heap`.
 */
module JitRow {
  import opened Basics
  import opened JitLayout
  import opened Memory

  datatype Constant = UnitValue | Scalar(ty: ColumnType, bits: nat) | Text(text: string)

  datatype NullableConstant = NonNull(constant: Constant) | Nullable(option: Option<Constant>)

  /** Dates and timestamps have no constants of their own: they are read as integers. */
  function ReadType(t: ColumnType): ColumnType {
    if t == Date then I32 else if t == Timestamp then I64 else t
  }

  predicate WellTyped(t: ColumnType, c: Constant) {
    if t == Unit then c.UnitValue?
    else if t == Str then c.Text?
    else t != Ptr && c.Scalar? && c.ty == ReadType(t) && c.bits < Pow2(8 * Size(t)) && (t == Bool ==> c.bits < 2)
  }

  /** The kind of constant that a column of type `t` is read as. */
  predicate ReadAs(t: ColumnType, c: Constant) {
    match t
    case Unit => c.UnitValue?
    case Str => c.Text?
    case Date => c.Scalar? && c.ty == I32
    case Timestamp => c.Scalar? && c.ty == I64
    case _ => c.Scalar? && c.ty == t
  }

  /** The scalar constants that a column accepts: those it is read as, with the bit patterns
      of its width. */
  lemma ScalarRanges(t: ColumnType, c: Constant)
    requires t != Unit && t != Str && t != Ptr
    ensures WellTyped(t, c) <==>
            && c.Scalar? && ReadAs(t, c)
            && match t
               case Bool => c.bits < 2
               case U8 => c.bits < 0x100
               case I8 => c.bits < 0x100
               case U16 => c.bits < 0x1_0000
               case I16 => c.bits < 0x1_0000
               case U32 => c.bits < 0x1_0000_0000
               case I32 => c.bits < 0x1_0000_0000
               case F32 => c.bits < 0x1_0000_0000
               case Date => c.bits < 0x1_0000_0000
               case _ => c.bits < 0x1_0000_0000_0000_0000
  {
    WordLimit(8 * Size(t));
  }

  ghost predicate LiteralFits(row: RowLayout, literal: seq<NullableConstant>) {
    && row.Valid() && |literal| == |row.columns|
    && forall k :: 0 <= k < |literal| ==> ColumnFits(row, k, literal[k])
  }

  ghost predicate ColumnFits(row: RowLayout, k: nat, c: NullableConstant)
    requires row.Valid() && k < |row.columns|
  {
    match c
    case NonNull(constant) => !row.nullable[k] && WellTyped(row.columns[k], constant)
    case Nullable(option) =>
      && row.nullable[k] && row.columns[k] != Ptr
      && (option.Some? ==> WellTyped(row.columns[k], option.value))
  }

  /** The addresses at which `ThinStr::from` put the strings of a literal. */
  ghost predicate AddressFits(c: NullableConstant, address: nat, heap: map<nat, string>) {
    match c
    case NonNull(constant) => PointsTo(constant, address, heap)
    case Nullable(Some(constant)) => PointsTo(constant, address, heap)
    case _ => true
  }

  ghost predicate PointsTo(c: Constant, address: nat, heap: map<nat, string>) {
    c.Text? ==>
      && address != 0 && Value(c, address) < Pow2(8 * Size(TypeOf(c)))
      && address in heap && heap[address] == c.text
  }

  function TypeOf(c: Constant): ColumnType {
    match c
    case UnitValue => Unit
    case Scalar(ty, _) => ty
    case Text(_) => Str
  }

  /** The word that stands for a constant; `address` is where a string was put. */
  function Value(c: Constant, address: nat): nat {
    match c
    case UnitValue => 0
    case Scalar(_, bits) => bits
    case Text(_) => address
  }

  ghost predicate Allocated(literal: seq<NullableConstant>, addresses: seq<nat>, heap: map<nat, string>) {
    && |addresses| == |literal|
    && forall k :: 0 <= k < |literal| ==> AddressFits(literal[k], addresses[k], heap)
  }

  // ---------------------------------------------------------------- null flags

  /** `bitset_occupants`: how many columns share the bitset of column `k`. */
  function Occupants(entries: seq<MemoryEntry>, k: nat): nat {
    if entries == [] then 0
    else if entries[0].BitSetEntry? && k in entries[0].columns then |entries[0].columns|
    else Occupants(entries[1..], k)
  }

  /** The layout knows where the flag or the string pointer of column `k` is. */
  ghost predicate FlagInside(l: NativeLayout, k: nat) {
    && k < |l.columnTypes| && k < |l.offsets|
    && if l.columnTypes[k] == Str then l.offsets[k] + Size(l.columnTypes[k]) <= l.size
       else
         && k < |l.bitsets| && l.bitsets[k].Some?
         && l.bitsets[k].value.bit < Bits(l.bitsets[k].value.ty)
         && l.bitsets[k].value.offset + Bytes(l.bitsets[k].value.ty) <= l.size
  }

  /** The flag is set or cleared in the loaded mask. */
  function NewMask(mask: nat, bit: nat, isNull: bool): nat {
    if isNull then Or(mask, Pow2(bit)) else AndNot(mask, Pow2(bit))
  }

  /** `UninitRow::set_column_null` on the bytes of the row. */
  function SetNull(mem: seq<Byte>, l: NativeLayout, k: nat, isNull: bool): (r: seq<Byte>)
    requires |mem| == l.size && FlagInside(l, k)
    ensures |r| == |mem|
  {
    if l.columnTypes[k] == Str then
      if isNull then Store(mem, l.offsets[k], Size(l.columnTypes[k]), 0) else mem
    else
      var f := l.bitsets[k].value;
      var value :=
        if Occupants(l.memoryOrder, k) == 1 then (if isNull then 1 else 0)
        else NewMask(Load(mem, f.offset, Bytes(f.ty)), f.bit, isNull);
      Store(mem, f.offset, Bytes(f.ty), value)
  }

  /** `column_is_null`. */
  predicate IsNull(mem: seq<Byte>, l: NativeLayout, k: nat)
    requires |mem| == l.size && FlagInside(l, k)
  {
    if l.columnTypes[k] == Str then Load(mem, l.offsets[k], Size(l.columnTypes[k])) == 0
    else
      var f := l.bitsets[k].value;
      var value := Load(mem, f.offset, Bytes(f.ty));
      if Occupants(l.memoryOrder, k) == 1 then value != 0 else And(value, Pow2(f.bit)) != 0
  }

  // ---------------------------------------------------------------- facts about layouts

  lemma FlagEntry(row: RowLayout, l: NativeLayout, k: nat) returns (a: nat, b: nat)
    requires ValidLayout(row, l) && k < |row.columns| && row.Flagged(k)
    ensures a < |l.memoryOrder| && l.memoryOrder[a].BitSetEntry?
    ensures b < |l.memoryOrder[a].columns| <= Bits(l.memoryOrder[a].bits) && l.memoryOrder[a].columns[b] == k
    ensures k < |l.bitsets| && l.bitsets[k] == Some(Flag(l.memoryOrder[a].bits, l.memoryOrder[a].offset, b))
    ensures l.memoryOrder[a].End() <= l.size
  {
    assert HasFlag(l.memoryOrder, k);
    a :| 0 <= a < |l.memoryOrder| && l.memoryOrder[a].BitSetEntry? && k in l.memoryOrder[a].columns;
    b :| 0 <= b < |l.memoryOrder[a].columns| && l.memoryOrder[a].columns[b] == k;
    assert EntryAgrees(row, l.offsets, l.bitsets, l.memoryOrder[a]);
  }

  lemma ColumnInside(row: RowLayout, l: NativeLayout, k: nat) returns (a: nat)
    requires ValidLayout(row, l) && k < |row.columns| && row.columns[k] != Unit
    ensures a < |l.memoryOrder| && l.memoryOrder[a].ColumnEntry? && l.memoryOrder[a].column == k
    ensures l.offsets[k] == l.memoryOrder[a].offset && Size(row.columns[k]) == l.memoryOrder[a].Width()
    ensures l.offsets[k] + Size(row.columns[k]) <= l.size
  {
    assert HasColumn(l.memoryOrder, k);
    a :| 0 <= a < |l.memoryOrder| && l.memoryOrder[a].ColumnEntry? && l.memoryOrder[a].column == k;
    assert EntryAgrees(row, l.offsets, l.bitsets, l.memoryOrder[a]);
  }

  lemma FlagIsInside(row: RowLayout, l: NativeLayout, k: nat)
    requires ValidLayout(row, l) && k < |row.columns| && row.nullable[k]
    ensures FlagInside(l, k)
  {
    if row.columns[k] == Str {
      var _ := ColumnInside(row, l, k);
    } else {
      var _, _ := FlagEntry(row, l, k);
    }
  }

  lemma {:induction false} OccupantsAt(entries: seq<MemoryEntry>, k: nat, a: nat)
    requires a < |entries| && entries[a].BitSetEntry? && k in entries[a].columns
    requires forall i :: 0 <= i < |entries| && entries[i].BitSetEntry? && k in entries[i].columns ==> i == a
    ensures Occupants(entries, k) == |entries[a].columns|
  {
    if a > 0 {
      assert entries[1..][a - 1] == entries[a];
      OccupantsAt(entries[1..], k, a - 1);
    }
  }

  lemma OneFlagEntry(row: RowLayout, l: NativeLayout, k: nat, a: nat)
    requires ValidLayout(row, l) && a < |l.memoryOrder|
    requires l.memoryOrder[a].BitSetEntry? && k in l.memoryOrder[a].columns
    ensures Occupants(l.memoryOrder, k) == |l.memoryOrder[a].columns|
  {
    var entries := l.memoryOrder;
    assert EntryAgrees(row, l.offsets, l.bitsets, entries[a]);
    forall i | 0 <= i < |entries| && entries[i].BitSetEntry? && k in entries[i].columns ensures i == a {
      assert EntryAgrees(row, l.offsets, l.bitsets, entries[i]);
      assert entries[i].offset == entries[a].offset;
      assert entries[i].End() > entries[i].offset && entries[a].End() > entries[a].offset;
    }
    OccupantsAt(entries, k, a);
  }

  predicate Disjoint(off: nat, w: nat, off': nat, w': nat) {
    off + w <= off' || off' + w' <= off
  }

  lemma ColumnsApart(row: RowLayout, l: NativeLayout, k: nat, j: nat)
    requires ValidLayout(row, l) && k < |row.columns| && j < |row.columns| && k != j
    requires row.columns[k] != Unit && row.columns[j] != Unit
    ensures Disjoint(l.offsets[k], Size(row.columns[k]), l.offsets[j], Size(row.columns[j]))
  {
    var a := ColumnInside(row, l, k);
    var b := ColumnInside(row, l, j);
  }

  lemma FlagApart(row: RowLayout, l: NativeLayout, k: nat, j: nat)
    requires ValidLayout(row, l) && k < |row.columns| && j < |row.columns| && row.Flagged(k) && row.columns[j] != Unit
    ensures FlagInside(l, k)
    ensures Disjoint(l.bitsets[k].value.offset, Bytes(l.bitsets[k].value.ty), l.offsets[j], Size(row.columns[j]))
  {
    FlagIsInside(row, l, k);
    var a, _ := FlagEntry(row, l, k);
    var b := ColumnInside(row, l, j);
  }

  /** Two flags are different bits of one shared bitset or lie in different bytes. */
  lemma FlagsApart(row: RowLayout, l: NativeLayout, k: nat, j: nat)
    requires ValidLayout(row, l) && k < |row.columns| && j < |row.columns| && k != j && row.Flagged(k) && row.Flagged(j)
    ensures FlagInside(l, k) && FlagInside(l, j)
    ensures var f, g := l.bitsets[k].value, l.bitsets[j].value;
            || Disjoint(f.offset, Bytes(f.ty), g.offset, Bytes(g.ty))
            || (f.offset == g.offset && f.ty == g.ty && f.bit != g.bit
                && Occupants(l.memoryOrder, k) != 1 && Occupants(l.memoryOrder, j) != 1)
  {
    FlagIsInside(row, l, k);
    FlagIsInside(row, l, j);
    var a, b := FlagEntry(row, l, k);
    var a', b' := FlagEntry(row, l, j);
    if a == a' {
      OneFlagEntry(row, l, k, a);
      OneFlagEntry(row, l, j, a);
    }
  }

  // ---------------------------------------------------------------- flags refine a map

  lemma MaskFits(mem: seq<Byte>, off: nat, w: nat, bit: nat, isNull: bool)
    requires off + w <= |mem| && bit < 8 * w
    ensures NewMask(Load(mem, off, w), bit, isNull) < Pow2(8 * w)
  {
    LoadFits(mem, off, w);
    Pow2Grows(bit, 8 * w);
    OrFits(Load(mem, off, w), Pow2(bit), 8 * w);
    AndNotFits(Load(mem, off, w), Pow2(bit));
  }

  /** A read-modify-write changes the one bit and no other. */
  lemma SetMask(mem: seq<Byte>, off: nat, w: nat, bit: nat, isNull: bool, other: nat)
    requires off + w <= |mem| && bit < 8 * w
    ensures var v := NewMask(Load(mem, off, w), bit, isNull);
            && (And(Load(Store(mem, off, w, v), off, w), Pow2(bit)) != 0) == isNull
            && (bit != other ==>
                  (And(Load(Store(mem, off, w, v), off, w), Pow2(other)) != 0) ==
                      (And(Load(mem, off, w), Pow2(other)) != 0))
  {
    var mask := Load(mem, off, w);
    var v := NewMask(mask, bit, isNull);
    MaskFits(mem, off, w, bit, isNull);
    LoadStore(mem, off, w, v);
    AndPow2(v, bit);
    AndPow2(v, other);
    AndPow2(mask, other);
    BitOfOr(mask, Pow2(bit), bit);
    BitOfOr(mask, Pow2(bit), other);
    BitOfAndNot(mask, Pow2(bit), bit);
    BitOfAndNot(mask, Pow2(bit), other);
    BitOfPow2(bit, bit);
    BitOfPow2(bit, other);
  }

  lemma WholeMask(mem: seq<Byte>, off: nat, w: nat, isNull: bool)
    requires 0 < w && off + w <= |mem|
    ensures (Load(Store(mem, off, w, if isNull then 1 else 0), off, w) != 0) == isNull
  {
    Pow2Grows(0, 8 * w);
    LoadStore(mem, off, w, if isNull then 1 else 0);
  }

  /** A flag that was set is read back. */
  lemma SetNullRead(row: RowLayout, l: NativeLayout, mem: seq<Byte>, k: nat, isNull: bool)
    requires ValidLayout(row, l) && |mem| == l.size && k < |row.columns| && row.nullable[k]
    requires row.columns[k] == Str ==> isNull
    ensures FlagInside(l, k) && IsNull(SetNull(mem, l, k, isNull), l, k) == isNull
  {
    FlagIsInside(row, l, k);
    if row.columns[k] == Str {
      LoadStore(mem, l.offsets[k], Size(row.columns[k]), 0);
    } else {
      var f := l.bitsets[k].value;
      if Occupants(l.memoryOrder, k) == 1 {
        WholeMask(mem, f.offset, Bytes(f.ty), isNull);
      } else {
        SetMask(mem, f.offset, Bytes(f.ty), f.bit, isNull, f.bit);
      }
    }
  }

  /** Bytes that setting the flag of column `k` may change. */
  predicate FlagBytes(l: NativeLayout, k: nat, x: nat)
    requires FlagInside(l, k)
  {
    if l.columnTypes[k] == Str then l.offsets[k] <= x < l.offsets[k] + Size(l.columnTypes[k])
    else l.bitsets[k].value.offset <= x < l.bitsets[k].value.offset + Bytes(l.bitsets[k].value.ty)
  }

  lemma SetNullFrame(l: NativeLayout, mem: seq<Byte>, k: nat, isNull: bool)
    requires |mem| == l.size && FlagInside(l, k)
    ensures forall x :: 0 <= x < |mem| && !FlagBytes(l, k, x) ==> SetNull(mem, l, k, isNull)[x] == mem[x]
  {
  }

  lemma SetNullOtherFlag(row: RowLayout, l: NativeLayout, mem: seq<Byte>, k: nat, isNull: bool, j: nat)
    requires ValidLayout(row, l) && |mem| == l.size && k < |row.columns| && j < |row.columns| && k != j
    requires row.Flagged(k) && row.Flagged(j)
    ensures FlagInside(l, k) && FlagInside(l, j) && IsNull(SetNull(mem, l, k, isNull), l, j) == IsNull(mem, l, j)
  {
    FlagsApart(row, l, k, j);
    var f, g := l.bitsets[k].value, l.bitsets[j].value;
    if Disjoint(f.offset, Bytes(f.ty), g.offset, Bytes(g.ty)) {
      SetNullFrame(l, mem, k, isNull);
      LoadFrame(mem, SetNull(mem, l, k, isNull), g.offset, Bytes(g.ty));
    } else {
      SetMask(mem, f.offset, Bytes(f.ty), f.bit, isNull, g.bit);
    }
  }

  lemma SetNullOtherString(row: RowLayout, l: NativeLayout, mem: seq<Byte>, k: nat, isNull: bool, j: nat)
    requires ValidLayout(row, l) && |mem| == l.size && k < |row.columns| && j < |row.columns| && k != j
    requires row.nullable[k] && row.nullable[j] && row.columns[j] == Str
    ensures FlagInside(l, k) && FlagInside(l, j) && IsNull(SetNull(mem, l, k, isNull), l, j) == IsNull(mem, l, j)
  {
    FlagIsInside(row, l, k);
    FlagIsInside(row, l, j);
    SetNullFrame(l, mem, k, isNull);
    if row.columns[k] == Str {
      ColumnsApart(row, l, k, j);
    } else {
      FlagApart(row, l, k, j);
    }
    LoadFrame(mem, SetNull(mem, l, k, isNull), l.offsets[j], Size(row.columns[j]));
  }

  /** ... and no other flag changes. */
  lemma SetNullOther(row: RowLayout, l: NativeLayout, mem: seq<Byte>, k: nat, isNull: bool, j: nat)
    requires ValidLayout(row, l) && |mem| == l.size && k < |row.columns| && j < |row.columns| && k != j
    requires row.nullable[k] && row.nullable[j]
    ensures FlagInside(l, k) && FlagInside(l, j) && IsNull(SetNull(mem, l, k, isNull), l, j) == IsNull(mem, l, j)
  {
    if row.columns[j] == Str {
      SetNullOtherString(row, l, mem, k, isNull, j);
    } else if row.Flagged(k) {
      SetNullOtherFlag(row, l, mem, k, isNull, j);
    } else {
      FlagIsInside(row, l, k);
      FlagApart(row, l, j, k);
      SetNullFrame(l, mem, k, isNull);
      LoadFrame(mem, SetNull(mem, l, k, isNull), l.bitsets[j].value.offset, Bytes(l.bitsets[j].value.ty));
    }
  }

  /** A sequence of `set_column_null` calls. */
  function SetNulls(mem: seq<Byte>, l: NativeLayout, calls: seq<(nat, bool)>): (r: seq<Byte>)
    requires |mem| == l.size && forall c :: c in calls ==> FlagInside(l, c.0)
    ensures |r| == |mem|
  {
    if calls == [] then mem
    else
      var last := calls[|calls| - 1];
      assert last in calls;
      SetNull(SetNulls(mem, l, calls[..|calls| - 1]), l, last.0, last.1)
  }

  /** What the same calls do to a map from columns to flags. */
  function Flags(calls: seq<(nat, bool)>): map<nat, bool> {
    if calls == [] then map[]
    else Flags(calls[..|calls| - 1])[calls[|calls| - 1].0 := calls[|calls| - 1].1]
  }

  /** The packed flags refine that map: after any calls on flagged columns, every column
      reads the value last set for it, and columns never set read what they did before. */
  lemma {:induction false} FlagsRefineMap(row: RowLayout, l: NativeLayout, mem: seq<Byte>, calls: seq<(nat, bool)>,
                                          k: nat)
    requires ValidLayout(row, l) && |mem| == l.size
    requires forall c :: c in calls ==> c.0 < |row.columns| && row.Flagged(c.0)
    requires k < |row.columns| && row.nullable[k]
    ensures FlagInside(l, k) && forall c :: c in calls ==> FlagInside(l, c.0)
    ensures IsNull(SetNulls(mem, l, calls), l, k) == if k in Flags(calls) then Flags(calls)[k] else IsNull(mem, l, k)
    decreases |calls|
  {
    FlagIsInside(row, l, k);
    forall c | c in calls ensures FlagInside(l, c.0) {
      FlagIsInside(row, l, c.0);
    }
    if calls != [] {
      var init, last := calls[..|calls| - 1], calls[|calls| - 1];
      assert last in calls;
      FlagsRefineMap(row, l, mem, init, k);
      var before := SetNulls(mem, l, init);
      if k == last.0 {
        SetNullRead(row, l, before, k, last.1);
      } else {
        SetNullOther(row, l, before, last.0, last.1, k);
      }
    }
  }

  /** No data byte of any column changes. */
  lemma {:induction false} FlagsKeepData(row: RowLayout, l: NativeLayout, mem: seq<Byte>, calls: seq<(nat, bool)>,
                                         j: nat, x: nat)
    requires ValidLayout(row, l) && |mem| == l.size
    requires forall c :: c in calls ==> c.0 < |row.columns| && row.Flagged(c.0)
    requires j < |row.columns| && l.offsets[j] <= x < l.offsets[j] + Size(row.columns[j])
    ensures x < |mem| && (forall c :: c in calls ==> FlagInside(l, c.0)) && SetNulls(mem, l, calls)[x] == mem[x]
    decreases |calls|
  {
    forall c | c in calls ensures FlagInside(l, c.0) {
      FlagIsInside(row, l, c.0);
    }
    var _ := ColumnInside(row, l, j);
    if calls != [] {
      var init, last := calls[..|calls| - 1], calls[|calls| - 1];
      assert last in calls;
      FlagsKeepData(row, l, mem, init, j, x);
      FlagApart(row, l, last.0, j);
      SetNullFrame(l, SetNulls(mem, l, init), last.0, last.1);
    }
  }

  // ---------------------------------------------------------------- literals

  /** `write_constant_to`. */
  function WriteConstant(mem: seq<Byte>, off: nat, c: Constant, address: nat): (r: seq<Byte>)
    requires c.UnitValue? || off + Size(TypeOf(c)) <= |mem|
    ensures |r| == |mem|
  {
    if c.UnitValue? then mem else Store(mem, off, Size(TypeOf(c)), Value(c, address))
  }

  ghost predicate ColumnReadable(mem: seq<Byte>, l: NativeLayout, t: ColumnType, k: nat, heap: map<nat, string>) {
    && k < |l.offsets| && t != Ptr
    && (t != Unit ==> l.offsets[k] + Size(t) <= |mem|)
    && (t == Str ==> Load(mem, l.offsets[k], Size(t)) in heap)
  }

  /** `constant_from_column`. */
  function ConstantFrom(mem: seq<Byte>, l: NativeLayout, t: ColumnType, k: nat, heap: map<nat, string>): Constant
    requires ColumnReadable(mem, l, t, k, heap)
  {
    if t == Unit then UnitValue
    else if t == Str then Text(heap[Load(mem, l.offsets[k], Size(t))])
    else Scalar(ReadType(t), Load(mem, l.offsets[k], Size(t)))
  }

  ghost predicate Readable(mem: seq<Byte>, row: RowLayout, l: NativeLayout, k: nat, heap: map<nat, string>) {
    && row.Valid() && k < |row.columns| && |mem| == l.size
    && (row.nullable[k] ==> FlagInside(l, k))
    && ((row.nullable[k] && IsNull(mem, l, k)) || ColumnReadable(mem, l, row.columns[k], k, heap))
  }

  /** One turn of the loop of `row_literal_from_row`. */
  function ReadColumn(mem: seq<Byte>, row: RowLayout, l: NativeLayout, k: nat, heap: map<nat, string>): NullableConstant
    requires Readable(mem, row, l, k, heap)
  {
    if !row.nullable[k] then NonNull(ConstantFrom(mem, l, row.columns[k], k, heap))
    else if IsNull(mem, l, k) then Nullable(None)
    else Nullable(Some(ConstantFrom(mem, l, row.columns[k], k, heap)))
  }

  /** The layout has room for everything the column may write. */
  ghost predicate Writable(mem: seq<Byte>, l: NativeLayout, k: nat, c: NullableConstant) {
    && |mem| == l.size && k < |l.offsets|
    && (c.Nullable? ==> FlagInside(l, k))
    && match c
       case NonNull(constant) => constant.UnitValue? || l.offsets[k] + Size(TypeOf(constant)) <= l.size
       case Nullable(None) => true
       case Nullable(Some(constant)) => constant.UnitValue? || l.offsets[k] + Size(TypeOf(constant)) <= l.size
  }

  /** One turn of the loop of `row_from_literal`. */
  function WriteColumn(mem: seq<Byte>, l: NativeLayout, k: nat, c: NullableConstant, address: nat): (r: seq<Byte>)
    requires Writable(mem, l, k, c)
    ensures |r| == |mem|
  {
    match c
    case NonNull(constant) => WriteConstant(mem, l.offsets[k], constant, address)
    case Nullable(option) =>
      var mem' := SetNull(mem, l, k, option.None?);
      if option.Some? then WriteConstant(mem', l.offsets[k], option.value, address) else mem'
  }

  lemma FitsIsWritable(row: RowLayout, l: NativeLayout, mem: seq<Byte>, k: nat, c: NullableConstant)
    requires ValidLayout(row, l) && |mem| == l.size && k < |row.columns| && ColumnFits(row, k, c)
    ensures Writable(mem, l, k, c)
  {
    if row.nullable[k] {
      FlagIsInside(row, l, k);
    }
    if row.columns[k] != Unit {
      var _ := ColumnInside(row, l, k);
    }
  }

  /** A constant of a column's type has the column's size, and its word fits. */
  lemma FitsColumn(t: ColumnType, c: Constant, address: nat, heap: map<nat, string>)
    requires WellTyped(t, c) && PointsTo(c, address, heap)
    ensures Size(TypeOf(c)) == Size(t) && (t == Unit <==> c.UnitValue?) && ReadAs(t, c)
    ensures t != Unit ==> Value(c, address) < Pow2(8 * Size(t))
  {
  }

  /** The word of a constant written to a column is loaded from it. */
  lemma WordRoundTrip(mem: seq<Byte>, off: nat, t: ColumnType, c: Constant, address: nat, heap: map<nat, string>)
    requires WellTyped(t, c) && PointsTo(c, address, heap) && t != Unit && off + Size(t) <= |mem|
    ensures Size(TypeOf(c)) == Size(t) && Load(WriteConstant(mem, off, c, address), off, Size(t)) == Value(c, address)
  {
    FitsColumn(t, c, address, heap);
    LoadStore(mem, off, Size(t), Value(c, address));
  }

  /** The constant that a word stands for. */
  lemma WordIsConstant(mem: seq<Byte>, l: NativeLayout, t: ColumnType, k: nat, c: Constant, address: nat,
                       heap: map<nat, string>)
    requires WellTyped(t, c) && PointsTo(c, address, heap) && k < |l.offsets|
    requires t != Unit ==> l.offsets[k] + Size(t) <= |mem| && Load(mem, l.offsets[k], Size(t)) == Value(c, address)
    ensures ColumnReadable(mem, l, t, k, heap) && ConstantFrom(mem, l, t, k, heap) == c
  {
  }

  /** A constant written to a column is read from it. */
  lemma ConstantRoundTrip(l: NativeLayout, t: ColumnType, mem: seq<Byte>, k: nat, c: Constant, address: nat,
                          heap: map<nat, string>)
    requires k < |l.offsets| && WellTyped(t, c) && (t != Unit ==> l.offsets[k] + Size(t) <= |mem|)
    requires PointsTo(c, address, heap)
    ensures Size(TypeOf(c)) == Size(t)
    ensures ColumnReadable(WriteConstant(mem, l.offsets[k], c, address), l, t, k, heap)
    ensures ConstantFrom(WriteConstant(mem, l.offsets[k], c, address), l, t, k, heap) == c && ReadAs(t, c)
  {
    FitsColumn(t, c, address, heap);
    if t != Unit {
      WordRoundTrip(mem, l.offsets[k], t, c, address, heap);
    }
    WordIsConstant(WriteConstant(mem, l.offsets[k], c, address), l, t, k, c, address, heap);
  }

  /** Data bytes written to a column leave its flag alone. */
  lemma DataKeepsFlag(row: RowLayout, l: NativeLayout, mem: seq<Byte>, k: nat, c: Constant, address: nat, j: nat)
    requires ValidLayout(row, l) && |mem| == l.size && k < |row.columns| && j < |row.columns|
    requires WellTyped(row.columns[k], c) && row.nullable[j] && (k == j ==> row.columns[k] != Str)
    requires c.UnitValue? || l.offsets[k] + Size(TypeOf(c)) <= l.size
    ensures FlagInside(l, j) && IsNull(WriteConstant(mem, l.offsets[k], c, address), l, j) == IsNull(mem, l, j)
  {
    FlagIsInside(row, l, j);
    var mem' := WriteConstant(mem, l.offsets[k], c, address);
    if row.columns[k] != Unit {
      if row.columns[j] == Str {
        ColumnsApart(row, l, k, j);
        LoadFrame(mem, mem', l.offsets[j], Size(row.columns[j]));
      } else {
        FlagApart(row, l, j, k);
        LoadFrame(mem, mem', l.bitsets[j].value.offset, Bytes(l.bitsets[j].value.ty));
      }
    }
  }

  /** A column that was written is read back, whatever the bytes were before. */
  lemma ColumnRoundTrip(row: RowLayout, l: NativeLayout, mem: seq<Byte>, k: nat, c: NullableConstant, address: nat,
                        heap: map<nat, string>)
    requires ValidLayout(row, l) && |mem| == l.size && k < |row.columns|
    requires ColumnFits(row, k, c) && AddressFits(c, address, heap)
    ensures Writable(mem, l, k, c)
    ensures Readable(WriteColumn(mem, l, k, c, address), row, l, k, heap)
    ensures ReadColumn(WriteColumn(mem, l, k, c, address), row, l, k, heap) == c
  {
    FitsIsWritable(row, l, mem, k, c);
    var t := row.columns[k];
    if t != Unit {
      var _ := ColumnInside(row, l, k);
    }
    match c
    case NonNull(constant) => ConstantRoundTrip(l, t, mem, k, constant, address, heap);
    case Nullable(None) => SetNullRead(row, l, mem, k, true);
    case Nullable(Some(constant)) =>
      var mem' := SetNull(mem, l, k, false);
      ConstantRoundTrip(l, t, mem', k, constant, address, heap);
      if t == Str {
        LoadStore(mem', l.offsets[k], Size(t), address);
      } else {
        SetNullRead(row, l, mem, k, false);
        DataKeepsFlag(row, l, mem', k, constant, address, k);
      }
  }

  /** The bytes that writing column `k` may change. */
  ghost predicate ColumnBytes(row: RowLayout, l: NativeLayout, k: nat, x: nat)
    requires row.Valid() && k < |row.columns| && k < |l.offsets|
  {
    || l.offsets[k] <= x < l.offsets[k] + Size(row.columns[k])
    || (row.nullable[k] && FlagInside(l, k) && FlagBytes(l, k, x))
  }

  lemma WriteColumnFrame(row: RowLayout, l: NativeLayout, mem: seq<Byte>, k: nat, c: NullableConstant, address: nat)
    requires ValidLayout(row, l) && |mem| == l.size && k < |row.columns| && ColumnFits(row, k, c)
    requires Writable(mem, l, k, c)
    ensures forall x :: 0 <= x < |mem| && !ColumnBytes(row, l, k, x) ==> WriteColumn(mem, l, k, c, address)[x] == mem[x]
  {
    if c.Nullable? {
      SetNullFrame(l, mem, k, c.option.None?);
    }
  }

  lemma ColumnBytesApart(row: RowLayout, l: NativeLayout, k: nat, j: nat, x: nat)
    requires ValidLayout(row, l) && k < |row.columns| && j < |row.columns| && k != j
    requires l.offsets[j] <= x < l.offsets[j] + Size(row.columns[j])
    ensures !ColumnBytes(row, l, k, x)
  {
    if row.columns[k] != Unit {
      ColumnsApart(row, l, k, j);
    }
    if row.Flagged(k) {
      FlagApart(row, l, k, j);
    }
  }

  lemma OtherData(row: RowLayout, l: NativeLayout, mem: seq<Byte>, k: nat, c: NullableConstant, address: nat, j: nat)
    requires ValidLayout(row, l) && |mem| == l.size && k < |row.columns| && j < |row.columns| && k != j
    requires ColumnFits(row, k, c) && Writable(mem, l, k, c) && row.columns[j] != Unit
    ensures l.offsets[j] + Size(row.columns[j]) <= l.size
    ensures Load(WriteColumn(mem, l, k, c, address), l.offsets[j], Size(row.columns[j])) ==
        Load(mem, l.offsets[j], Size(row.columns[j]))
  {
    var _ := ColumnInside(row, l, j);
    WriteColumnFrame(row, l, mem, k, c, address);
    forall x | l.offsets[j] <= x < l.offsets[j] + Size(row.columns[j]) ensures !ColumnBytes(row, l, k, x) {
      ColumnBytesApart(row, l, k, j, x);
    }
    LoadFrame(mem, WriteColumn(mem, l, k, c, address), l.offsets[j], Size(row.columns[j]));
  }

  lemma OtherFlag(row: RowLayout, l: NativeLayout, mem: seq<Byte>, k: nat, c: NullableConstant, address: nat, j: nat)
    requires ValidLayout(row, l) && |mem| == l.size && k < |row.columns| && j < |row.columns| && k != j
    requires ColumnFits(row, k, c) && Writable(mem, l, k, c) && row.nullable[j]
    ensures FlagInside(l, j) && IsNull(WriteColumn(mem, l, k, c, address), l, j) == IsNull(mem, l, j)
  {
    match c
    case NonNull(constant) => DataKeepsFlag(row, l, mem, k, constant, address, j);
    case Nullable(option) =>
      SetNullOther(row, l, mem, k, option.None?, j);
      if option.Some? {
        DataKeepsFlag(row, l, SetNull(mem, l, k, false), k, option.value, address, j);
      }
  }

  /** Writing one column does not change what any other column reads. */
  lemma OtherColumn(row: RowLayout, l: NativeLayout, mem: seq<Byte>, k: nat, c: NullableConstant, address: nat, j: nat,
                    heap: map<nat, string>)
    requires ValidLayout(row, l) && |mem| == l.size && k < |row.columns| && j < |row.columns| && k != j
    requires ColumnFits(row, k, c) && Writable(mem, l, k, c) && Readable(mem, row, l, j, heap)
    ensures Readable(WriteColumn(mem, l, k, c, address), row, l, j, heap)
    ensures ReadColumn(WriteColumn(mem, l, k, c, address), row, l, j, heap) == ReadColumn(mem, row, l, j, heap)
  {
    if row.nullable[j] {
      OtherFlag(row, l, mem, k, c, address, j);
    }
    if row.columns[j] != Unit {
      OtherData(row, l, mem, k, c, address, j);
    }
  }

  // ---------------------------------------------------------------- the operations

  /** A typed pointer write. */
  method StoreWord(data: array<Byte>, off: nat, w: nat, v: nat)
    requires off + w <= data.Length
    modifies data
    ensures data[..] == Store(old(data[..]), off, w, v)
  {
    var rest := v;
    for i := 0 to w
      invariant Store(old(data[..]), off, w, v) == Store(data[..], off + i, w - i, rest)
    {
      ghost var before := data[..];
      data[off + i] := rest % 256;
      assert data[..] == before[off + i := rest % 256];
      rest := rest / 256;
    }
  }

  class UninitRow {
    var data: array<Byte>

    /** Fresh memory: its contents are arbitrary. */
    constructor (size: nat)
      ensures fresh(data) && data.Length == size
    {
      data := new Byte[size];
    }

    method SetColumnNull(column: nat, l: NativeLayout, isNull: bool)
      requires data.Length == l.size && FlagInside(l, column)
      modifies data
      ensures data[..] == SetNull(old(data[..]), l, column, isNull)
    {
      if l.columnTypes[column] == Str {
        if isNull {
          StoreWord(data, l.offsets[column], Size(l.columnTypes[column]), 0);
        }
        return;
      }
      var Flag(ty, offset, bit) := l.bitsets[column].value;
      var value: nat := if isNull then 1 else 0;
      if Occupants(l.memoryOrder, column) != 1 {
        var mask := Load(data[..], offset, Bytes(ty));
        value := if isNull then Or(mask, Pow2(bit)) else AndNot(mask, Pow2(bit));
      }
      StoreWord(data, offset, Bytes(ty), value);
    }

    method WriteConstantTo(off: nat, c: Constant, address: nat)
      requires c.UnitValue? || off + Size(TypeOf(c)) <= data.Length
      modifies data
      ensures data[..] == WriteConstant(old(data[..]), off, c, address)
    {
      if !c.UnitValue? {
        StoreWord(data, off, Size(TypeOf(c)), Value(c, address));
      }
    }
  }

  /** What `row_from_literal` leaves in memory reads as the literal. */
  ghost predicate Holds(mem: seq<Byte>, row: RowLayout, l: NativeLayout, literal: seq<NullableConstant>, n: nat,
                        heap: map<nat, string>)
    requires n <= |literal|
  {
    forall j :: 0 <= j < n ==> Readable(mem, row, l, j, heap) && ReadColumn(mem, row, l, j, heap) == literal[j]
  }

  /** `row_from_literal`: the row reads as the literal, whatever the fresh memory held. */
  method RowFromLiteral(row: RowLayout, l: NativeLayout, literal: seq<NullableConstant>, addresses: seq<nat>,
                        ghost heap: map<nat, string>)
    returns (r: UninitRow)
    requires ValidLayout(row, l) && LiteralFits(row, literal) && Allocated(literal, addresses, heap)
    ensures fresh(r) && r.data.Length == l.size && Holds(r.data[..], row, l, literal, |literal|, heap)
  {
    r := new UninitRow(l.size);
    for k := 0 to |literal|
      invariant fresh(r) && fresh(r.data) && r.data.Length == l.size
      invariant Holds(r.data[..], row, l, literal, k, heap)
    {
      ghost var before := r.data[..];
      var c := literal[k];
      assert ColumnFits(row, k, c) && AddressFits(c, addresses[k], heap);
      FitsIsWritable(row, l, before, k, c);
      match c {
        case NonNull(constant) => r.WriteConstantTo(l.offsets[k], constant, addresses[k]);
        case Nullable(option) =>
          r.SetColumnNull(k, l, option.None?);
          if option.Some? {
            r.WriteConstantTo(l.offsets[k], option.value, addresses[k]);
          }
      }
      assert r.data[..] == WriteColumn(before, l, k, c, addresses[k]);
      HoldsNextColumn(row, l, before, literal, k, addresses[k], heap);
    }
  }

  lemma HoldsNextColumn(row: RowLayout, l: NativeLayout, mem: seq<Byte>, literal: seq<NullableConstant>, k: nat,
                        address: nat, heap: map<nat, string>)
    requires ValidLayout(row, l) && |mem| == l.size && LiteralFits(row, literal) && k < |literal|
    requires Holds(mem, row, l, literal, k, heap) && AddressFits(literal[k], address, heap)
    ensures Writable(mem, l, k, literal[k])
    ensures Holds(WriteColumn(mem, l, k, literal[k], address), row, l, literal, k + 1, heap)
  {
    assert ColumnFits(row, k, literal[k]);
    ColumnRoundTrip(row, l, mem, k, literal[k], address, heap);
    var mem' := WriteColumn(mem, l, k, literal[k], address);
    forall j | 0 <= j < k + 1
      ensures Readable(mem', row, l, j, heap) && ReadColumn(mem', row, l, j, heap) == literal[j]
    {
      if j < k {
        OtherColumn(row, l, mem, k, literal[k], address, j, heap);
      }
    }
  }

  /** What a literal's column says about the bytes of a row: whether there is a flag, whether
      it is set, and which constant the word of the column stands for. */
  ghost predicate Tells(c: NullableConstant, mem: seq<Byte>, row: RowLayout, l: NativeLayout, k: nat,
                        heap: map<nat, string>)
    requires Readable(mem, row, l, k, heap)
  {
    match c
    case NonNull(constant) => !row.nullable[k] && TellsWord(constant, mem, l, row.columns[k], k, heap)
    case Nullable(None) => row.nullable[k] && IsNull(mem, l, k)
    case Nullable(Some(constant)) =>
      row.nullable[k] && !IsNull(mem, l, k) && TellsWord(constant, mem, l, row.columns[k], k, heap)
  }

  ghost predicate TellsWord(c: Constant, mem: seq<Byte>, l: NativeLayout, t: ColumnType, k: nat, heap: map<nat, string>)
    requires ColumnReadable(mem, l, t, k, heap)
  {
    && ReadAs(t, c)
    && (c.Scalar? ==> c.bits == Load(mem, l.offsets[k], Size(t)))
    && (c.Text? ==> c.text == heap[Load(mem, l.offsets[k], Size(t))])
  }

  lemma ReadingTells(mem: seq<Byte>, row: RowLayout, l: NativeLayout, k: nat, heap: map<nat, string>)
    requires Readable(mem, row, l, k, heap)
    ensures Tells(ReadColumn(mem, row, l, k, heap), mem, row, l, k, heap)
  {
  }

  /** `row_literal_from_row`. */
  method RowLiteralFromRow(mem: seq<Byte>, row: RowLayout, l: NativeLayout, heap: map<nat, string>)
    returns (literal: seq<NullableConstant>)
    requires row.Valid() && forall k :: 0 <= k < |row.columns| ==> Readable(mem, row, l, k, heap)
    ensures |literal| == |row.columns|
    ensures forall k :: 0 <= k < |literal| ==> literal[k] == ReadColumn(mem, row, l, k, heap)
    ensures forall k :: 0 <= k < |literal| ==> Tells(literal[k], mem, row, l, k, heap)
  {
    literal := [];
    for k := 0 to |row.columns|
      invariant |literal| == k && forall j :: 0 <= j < k ==> literal[j] == ReadColumn(mem, row, l, j, heap)
      invariant forall j :: 0 <= j < k ==> Tells(literal[j], mem, row, l, j, heap)
    {
      ReadingTells(mem, row, l, k, heap);
      literal := literal + [ReadColumn(mem, row, l, k, heap)];
    }
  }

  /** From a row type to its layout, to the bytes of a literal, and back to the literal. */
  method RoundTrip(row: RowLayout, optimize: bool, literal: seq<NullableConstant>, addresses: seq<nat>,
                   heap: map<nat, string>)
    returns (back: Option<seq<NullableConstant>>)
    requires LiteralFits(row, literal) && Allocated(literal, addresses, heap)
    ensures back.Some? ==> back.value == literal
    ensures |row.columns| < 0x800_0000 ==> back.Some?
  {
    var layout, _, _ := FromRow(row, optimize);
    if layout == None {
      return None;
    }
    var r := RowFromLiteral(row, layout.value, literal, addresses, heap);
    var read := RowLiteralFromRow(r.data[..], row, layout.value, heap);
    assert read == literal;
    back := Some(read);
  }
}
