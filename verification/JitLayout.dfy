/**
 Row layouts of the dataflow JIT: how the columns and null flags of a row are placed in
 memory, for a target with 64-bit pointers.
 */
module JitLayout {
  import opened Basics

  datatype ColumnType =
    | Bool | U8 | I8 | U16 | I16 | U32 | I32 | U64 | I64 | Usize | Isize
    | F32 | F64 | Date | Timestamp | Str | Unit | Ptr

  /** Size and alignment in bytes of the native type of a column. */
  function Size(t: ColumnType): nat {
    if t == Unit then 0
    else if t == Bool || t == U8 || t == I8 then 1
    else if t == U16 || t == I16 then 2
    else if t == U32 || t == I32 || t == F32 || t == Date then 4
    else 8
  }

  datatype BitSetType = BitSet8 | BitSet16 | BitSet32 | BitSet64

  function Bytes(t: BitSetType): nat {
    match t
    case BitSet8 => 1
    case BitSet16 => 2
    case BitSet32 => 4
    case BitSet64 => 8
  }

  function Bits(t: BitSetType): nat {
    8 * Bytes(t)
  }

  datatype RowLayout = RowLayout(columns: seq<ColumnType>, nullable: seq<bool>)
  {
    ghost predicate Valid() {
      |columns| == |nullable|
    }

    /** Strings are null when their pointer is, all other columns have a flag. */
    predicate Flagged(k: nat)
      requires k < |columns| && k < |nullable|
    {
      nullable[k] && columns[k] != Str
    }
  }

  datatype MemoryEntry =
    | ColumnEntry(offset: nat, ty: ColumnType, column: nat, nullable: bool)
    | BitSetEntry(offset: nat, bits: BitSetType, columns: seq<nat>)
  {
    function Width(): nat {
      match this
      case ColumnEntry(_, ty, _, _) => Size(ty)
      case BitSetEntry(_, bits, _) => Bytes(bits)
    }

    function End(): nat {
      offset + Width()
    }

    predicate Covers(x: nat) {
      offset <= x < End()
    }
  }

  /** Where the null flag of a column lives: bit `bit` of the bitset at `offset`. */
  datatype Flag = Flag(ty: BitSetType, offset: nat, bit: nat)

  datatype NativeLayout = NativeLayout(
    size: nat, align: nat, columnTypes: seq<ColumnType>, offsets: seq<nat>,
    bitsets: seq<Option<Flag>>, memoryOrder: seq<MemoryEntry>, paddingBytes: seq<nat>)

  // ---------------------------------------------------------------- validity

  /** Entries follow each other without overlap. */
  ghost predicate Ordered(entries: seq<MemoryEntry>, end: nat) {
    && (forall a, b :: 0 <= a < b < |entries| ==> entries[a].End() <= entries[b].offset)
    && (forall a :: 0 <= a < |entries| ==> entries[a].End() <= end)
  }

  /** Alignments are 1, 2, 4 and 8. */
  predicate IsMultiple(n: nat, align: nat) {
    || align == 1
    || (align == 2 && n % 2 == 0)
    || (align == 4 && n % 4 == 0)
    || (align == 8 && n % 8 == 0)
  }

  ghost predicate Aligned(entries: seq<MemoryEntry>, align: nat) {
    forall a :: 0 <= a < |entries| ==>
      entries[a].Width() > 0 && IsMultiple(entries[a].offset, entries[a].Width()) && entries[a].Width() <= align
  }

  /** The tables `offsets` and `bitsets` say what the entry says. */
  ghost predicate EntryAgrees(row: RowLayout, offsets: seq<nat>, bitsets: seq<Option<Flag>>, e: MemoryEntry) {
    match e
    case ColumnEntry(offset, ty, k, nullable) =>
      && k < |row.columns| && k < |row.nullable| && k < |offsets|
      && ty == row.columns[k] && ty != Unit && nullable == row.nullable[k] && offsets[k] == offset
    case BitSetEntry(offset, bits, columns) =>
      && |columns| <= Bits(bits)
      && forall b :: 0 <= b < |columns| ==> columns[b] < |bitsets| && bitsets[columns[b]] == Some(Flag(bits, offset, b))
  }

  ghost predicate HasColumn(entries: seq<MemoryEntry>, k: nat) {
    exists a :: 0 <= a < |entries| && entries[a].ColumnEntry? && entries[a].column == k
  }

  ghost predicate HasFlag(entries: seq<MemoryEntry>, k: nat) {
    exists a :: 0 <= a < |entries| && entries[a].BitSetEntry? && k in entries[a].columns
  }

  ghost predicate Covered(entries: seq<MemoryEntry>, x: nat) {
    exists a :: 0 <= a < |entries| && entries[a].Covers(x)
  }

  function DataEnd(entries: seq<MemoryEntry>): nat {
    if entries == [] then 0 else entries[|entries| - 1].End()
  }

  /** What the rest of the JIT relies on. */
  ghost predicate ValidLayout(row: RowLayout, l: NativeLayout) {
    && row.Valid()
    && l.columnTypes == row.columns
    && |l.offsets| == |row.columns|
    && Ordered(l.memoryOrder, l.size)
    && Aligned(l.memoryOrder, l.align)
    && (forall a :: 0 <= a < |l.memoryOrder| ==> EntryAgrees(row, l.offsets, l.bitsets, l.memoryOrder[a]))
    && (forall k :: 0 <= k < |row.columns| && row.columns[k] != Unit ==> HasColumn(l.memoryOrder, k))
    && (forall k :: 0 <= k < |row.columns| && row.Flagged(k) ==> HasFlag(l.memoryOrder, k))
    && (l.align == 1 || l.align == 2 || l.align == 4 || l.align == 8)
    && IsMultiple(l.size, l.align)
  }

  /** `padding_bytes` lists the uncovered bytes in front of the last field.  The bytes
      after it, which round the size up to the alignment, are not listed. */
  ghost predicate PaddingListed(l: NativeLayout) {
    forall x: nat :: x in l.paddingBytes <==> x < DataEnd(l.memoryOrder) && !Covered(l.memoryOrder, x)
  }

  /** The last field ends at `end`, and the size is that, rounded up to the alignment. */
  ghost predicate Measured(l: NativeLayout, end: nat, align: nat) {
    && DataEnd(l.memoryOrder) == end && l.align == align
    && l.size == RoundUp(end, align)
  }

  /** All padding is listed exactly when the last field ends at a multiple of the alignment. */
  lemma AllPaddingListedExactly(row: RowLayout, l: NativeLayout, end: nat, align: nat)
    requires ValidLayout(row, l) && PaddingListed(l) && Measured(l, end, align)
    ensures (forall x: nat :: x < l.size && !Covered(l.memoryOrder, x) ==> x in l.paddingBytes)
            <==> IsMultiple(end, align)
  {
    UnlistedBehind(row, l, end, align);
    RoundUpSame(end, align);
    if !IsMultiple(end, align) {
      assert end < l.size && !Covered(l.memoryOrder, end);
    }
  }

  /** No byte behind the last field is covered or listed. */
  lemma UnlistedBehind(row: RowLayout, l: NativeLayout, end: nat, align: nat)
    requires ValidLayout(row, l) && PaddingListed(l) && Measured(l, end, align)
    ensures forall x: nat :: end <= x ==> !Covered(l.memoryOrder, x) && x !in l.paddingBytes
  {
    assert forall a :: 0 <= a < |l.memoryOrder| ==> l.memoryOrder[a].End() <= end;
  }

  // ---------------------------------------------------------------- fields

  datatype Field =
    | ColumnField(column: nat, ty: ColumnType, nullable: bool)
    | BitSetField(columns: seq<nat>, bits: BitSetType)
  {
    function Width(): nat {
      match this
      case ColumnField(_, ty, _) => Size(ty)
      case BitSetField(_, bits) => Bytes(bits)
    }
  }

  ghost predicate FieldFits(row: RowLayout, f: Field) {
    match f
    case ColumnField(k, ty, nullable) =>
      k < |row.columns| && k < |row.nullable| && ty == row.columns[k] && nullable == row.nullable[k]
    case BitSetField(columns, bits) =>
      && |columns| <= Bits(bits)
      && (forall b :: 0 <= b < |columns| ==>
            columns[b] < |row.columns| && columns[b] < |row.nullable| && row.nullable[columns[b]])
      && (forall b, b' :: 0 <= b < b' < |columns| ==> columns[b] != columns[b'])
  }

  /** The two fields place different things. */
  ghost predicate Apart(f: Field, g: Field) {
    match (f, g)
    case (ColumnField(k, _, _), ColumnField(k', _, _)) => k != k'
    case (BitSetField(columns, _), BitSetField(columns', _)) => forall c :: c in columns ==> c !in columns'
    case _ => true
  }

  ghost predicate AllApart(fields: seq<Field>) {
    forall i, j :: 0 <= i < j < |fields| ==> Apart(fields[i], fields[j])
  }

  ghost predicate PlacesColumn(fields: seq<Field>, k: nat) {
    exists f :: f in fields && f.ColumnField? && f.column == k
  }

  ghost predicate PlacesFlag(fields: seq<Field>, k: nat) {
    exists f :: f in fields && f.BitSetField? && k in f.columns
  }

  ghost predicate Complete(row: RowLayout, fields: seq<Field>) {
    && (forall f :: f in fields ==> FieldFits(row, f))
    && AllApart(fields)
    && (forall k :: 0 <= k < |row.columns| ==> PlacesColumn(fields, k))
    && (forall k :: 0 <= k < |row.columns| && k < |row.nullable| && row.Flagged(k) ==> PlacesFlag(fields, k))
  }

  // ---------------------------------------------------------------- bitsets

  ghost predicate Distinct(xs: seq<nat>) {
    forall i, j :: 0 <= i < j < |xs| ==> xs[i] != xs[j]
  }

  /** The bitset fields hold exactly the columns, each once. */
  ghost predicate Holds(fields: seq<Field>, columns: seq<nat>) {
    && AllApart(fields)
    && (forall f :: f in fields ==> BitsOf(f, columns))
    && (forall c :: c in columns ==> PlacesFlag(fields, c))
  }

  /** The bits of the field stand for different columns. */
  ghost predicate BitsOf(f: Field, columns: seq<nat>) {
    && f.BitSetField? && |f.columns| <= Bits(f.bits) && Distinct(f.columns)
    && forall c :: c in f.columns ==> c in columns
  }

  /** How many flags the first `i` bitsets have room for. */
  function Room(fields: seq<Field>, i: nat): nat
    requires i <= |fields|
  {
    if i == 0 then 0
    else Room(fields, i - 1) + if fields[i - 1].BitSetField? then Bits(fields[i - 1].bits) else 0
  }

  /** `fields'` begins with `fields`. */
  ghost predicate Extends(fields': seq<Field>, fields: seq<Field>) {
    |fields| <= |fields'| && forall i :: 0 <= i < |fields| ==> fields'[i] == fields[i]
  }

  lemma {:induction false} RoomSame(fields: seq<Field>, fields': seq<Field>, i: nat)
    requires Extends(fields', fields) && i <= |fields|
    ensures Room(fields', i) == Room(fields, i)
  {
    if i > 0 {
      RoomSame(fields, fields', i - 1);
    }
  }

  lemma {:induction false} RoomGrows(fields: seq<Field>, i: nat, j: nat)
    requires i <= j <= |fields|
    ensures Room(fields, i) <= Room(fields, j)
  {
    if i < j {
      RoomGrows(fields, i, j - 1);
    }
  }

  /** The bitset takes the columns from position `from` on, as many as it has room for. */
  ghost predicate Takes(f: Field, columns: seq<nat>, from: nat) {
    && f.BitSetField?
    && |f.columns| == (if |columns| <= from then 0 else Min(|columns| - from, Bits(f.bits)))
    && forall b :: 0 <= b < |f.columns| ==> f.columns[b] == columns[from + b]
  }

  ghost predicate TakesAt(fields: seq<Field>, columns: seq<nat>, i: nat)
    requires i < |fields|
  {
    Takes(fields[i], columns, Room(fields, i))
  }

  /** The bitsets take the columns in order, each as many as it has room for. */
  ghost predicate Greedy(fields: seq<Field>, columns: seq<nat>) {
    forall i :: 0 <= i < |fields| ==> TakesAt(fields, columns, i)
  }

  /** The bitset that takes the column at position `p`. */
  lemma {:induction false} TakesColumn(fields: seq<Field>, p: nat, n: nat) returns (i: nat)
    requires n <= |fields| && p < Room(fields, n)
    ensures i < n && Room(fields, i) <= p < Room(fields, i + 1)
  {
    if p < Room(fields, n - 1) {
      i := TakesColumn(fields, p, n - 1);
    } else {
      i := n - 1;
    }
  }

  lemma ChunksApart(f: Field, g: Field, columns: seq<nat>, from: nat, from': nat)
    requires Takes(f, columns, from) && Takes(g, columns, from') && from + Bits(f.bits) <= from' && Distinct(columns)
    ensures Apart(f, g)
  {
    forall c | c in f.columns ensures c !in g.columns {
      var a :| 0 <= a < |f.columns| && f.columns[a] == c;
      forall b | 0 <= b < |g.columns| ensures g.columns[b] != c {
        assert columns[from + a] != columns[from' + b];
      }
    }
  }

  /** Bitsets with room for all columns hold each of them once. */
  lemma GreedyHolds(fields: seq<Field>, columns: seq<nat>)
    requires Greedy(fields, columns) && Distinct(columns) && |columns| <= Room(fields, |fields|)
    ensures Holds(fields, columns)
  {
    forall i, j | 0 <= i < j < |fields| ensures Apart(fields[i], fields[j]) {
      assert TakesAt(fields, columns, i) && TakesAt(fields, columns, j);
      RoomGrows(fields, i + 1, j);
      ChunksApart(fields[i], fields[j], columns, Room(fields, i), Room(fields, j));
    }
    forall f | f in fields ensures BitsOf(f, columns) {
      var i :| 0 <= i < |fields| && fields[i] == f;
      assert TakesAt(fields, columns, i);
      TakesBits(f, columns, Room(fields, i));
    }
    forall c | c in columns ensures PlacesFlag(fields, c) {
      GreedyPlaces(fields, columns, c);
    }
  }

  lemma GreedyPlaces(fields: seq<Field>, columns: seq<nat>, c: nat)
    requires Greedy(fields, columns) && |columns| <= Room(fields, |fields|) && c in columns
    ensures PlacesFlag(fields, c)
  {
    var p :| 0 <= p < |columns| && columns[p] == c;
    var i := TakesColumn(fields, p, |fields|);
    assert TakesAt(fields, columns, i);
    assert fields[i].columns[p - Room(fields, i)] == c && fields[i] in fields;
  }

  lemma TakesBits(f: Field, columns: seq<nat>, from: nat)
    requires Takes(f, columns, from) && Distinct(columns)
    ensures BitsOf(f, columns)
  {
    forall c | c in f.columns ensures c in columns {
      var b :| 0 <= b < |f.columns| && f.columns[b] == c;
      assert columns[from + b] == c;
    }
    forall a, b | 0 <= a < b < |f.columns| ensures f.columns[a] != f.columns[b] {
      assert columns[from + a] != columns[from + b];
    }
  }

  ghost predicate Filled(fields: seq<Field>, columns: seq<nat>, taken: nat) {
    Greedy(fields, columns) && taken == Min(Room(fields, |fields|), |columns|)
  }

  lemma GreedyNext(fields: seq<Field>, columns: seq<nat>, f: Field, fields': seq<Field>)
    requires Greedy(fields, columns) && fields' == fields + [f] && Takes(f, columns, Room(fields, |fields|))
    ensures Greedy(fields', columns) && Room(fields', |fields'|) == Room(fields, |fields|) + Bits(f.bits)
  {
    forall i | 0 <= i < |fields'| ensures TakesAt(fields', columns, i) {
      RoomSame(fields, fields', i);
      assert i < |fields| ==> TakesAt(fields, columns, i);
    }
    RoomSame(fields, fields', |fields|);
  }

  /** One more bitset; `taken` is the position of the iterator over `columns`. */
  method PushBitset(columns: seq<nat>, taken: nat, fields: seq<Field>, ty: BitSetType)
    returns (taken': nat, fields': seq<Field>)
    requires Filled(fields, columns, taken)
    ensures Filled(fields', columns, taken') && |fields'| == |fields| + 1 && Extends(fields', fields)
    ensures fields'[|fields|].BitSetField? && fields'[|fields|].bits == ty
    ensures Room(fields', |fields'|) == Room(fields, |fields|) + Bits(ty)
  {
    taken' := Min(taken + Bits(ty), |columns|);
    var f := BitSetField(columns[taken..taken'], ty);
    fields' := fields + [f];
    GreedyNext(fields, columns, f, fields');
  }

  /** Bitsets `from` to `to` have width `ty`. */
  ghost predicate AllOf(fields: seq<Field>, from: nat, to: nat, ty: BitSetType) {
    from <= to <= |fields| && forall i :: from <= i < to ==> fields[i].BitSetField? && fields[i].bits == ty
  }

  /** As many bitsets of one width as `total` flags fill. */
  method WholeBitsets(total: nat, columns: seq<nat>, taken: nat, fields: seq<Field>, ty: BitSetType)
    returns (left: nat, taken': nat, fields': seq<Field>)
    requires Filled(fields, columns, taken)
    ensures Filled(fields', columns, taken') && left < Bits(ty)
    ensures Extends(fields', fields) && AllOf(fields', |fields|, |fields'|, ty)
    ensures Room(fields', |fields'|) + left == Room(fields, |fields|) + total
    ensures |fields'| + left <= |fields| + total
  {
    left, taken', fields' := total, taken, fields;
    while left >= Bits(ty)
      invariant Filled(fields', columns, taken')
      invariant Extends(fields', fields) && AllOf(fields', |fields|, |fields'|, ty)
      invariant Room(fields', |fields'|) + left == Room(fields, |fields|) + total
      invariant |fields'| + left <= |fields| + total
    {
      left := left - Bits(ty);
      taken', fields' := PushBitset(columns, taken', fields', ty);
    }
  }

  /** The widths: as many of 64 bits as `total` fills, then of 32, then of 16, and the rest
      in bytes.  The bounds say where each width begins. */
  ghost predicate Widths(fields: seq<Field>, total: nat, n64: nat, n32: nat, n16: nat) {
    && AllOf(fields, 0, n64, BitSet64) && AllOf(fields, n64, n32, BitSet32)
    && AllOf(fields, n32, n16, BitSet16) && AllOf(fields, n16, |fields|, BitSet8)
    && 64 * n64 <= total
    && var r := total - 64 * n64;
    && r < 64 && 32 * (n32 - n64) <= r
    && var r' := r - 32 * (n32 - n64);
    && r' < 32 && 16 * (n16 - n32) <= r'
    && var r'' := r' - 16 * (n16 - n32);
    && r'' < 16 && |fields| - n16 == (r'' + 7) / 8
  }

  lemma {:induction false} AllOfRoom(fields: seq<Field>, from: nat, to: nat, ty: BitSetType)
    requires AllOf(fields, from, to, ty)
    ensures Room(fields, to) == Room(fields, from) + Bits(ty) * (to - from)
  {
    if from < to {
      AllOfRoom(fields, from, to - 1, ty);
      assert Bits(ty) * (to - from) == Bits(ty) * (to - 1 - from) + Bits(ty);
    }
  }

  /** A longer list keeps the widths of the shorter one. */
  lemma AllOfLonger(fields: seq<Field>, fields': seq<Field>, from: nat, to: nat, ty: BitSetType)
    requires AllOf(fields, from, to, ty) && Extends(fields', fields)
    ensures AllOf(fields', from, to, ty)
  {
  }

  /** The rest of the flags, in bytes. */
  method LastBitsets(total: nat, columns: seq<nat>, taken: nat, fields: seq<Field>)
    returns (taken': nat, fields': seq<Field>)
    requires Filled(fields, columns, taken)
    ensures Filled(fields', columns, taken')
    ensures |fields'| == |fields| + (total + 7) / 8 && Extends(fields', fields)
    ensures AllOf(fields', |fields|, |fields'|, BitSet8)
    ensures Room(fields', |fields'|) >= Room(fields, |fields|) + total
  {
    taken', fields' := taken, fields;
    var left := total;
    while left != 0
      invariant Filled(fields', columns, taken')
      invariant |fields'| + (left + 7) / 8 == |fields| + (total + 7) / 8
      invariant Extends(fields', fields) && AllOf(fields', |fields|, |fields'|, BitSet8)
      invariant Room(fields', |fields'|) + left >= Room(fields, |fields|) + total
    {
      left := if left < 8 then 0 else left - 8;
      taken', fields' := PushBitset(columns, taken', fields', BitSet8);
    }
  }

  /** `total` counts all nullable columns, including the strings that need no flag. */
  method Bitsets(total: nat, columns: seq<nat>)
    returns (fields: seq<Field>, ghost n64: nat, ghost n32: nat, ghost n16: nat)
    requires Distinct(columns) && |columns| <= total
    ensures Holds(fields, columns) && Greedy(fields, columns) && |fields| <= total
    ensures Widths(fields, total, n64, n32, n16)
  {
    var left: nat, taken: nat := total, 0;
    var f64: seq<Field>, f32: seq<Field>, f16: seq<Field>;
    left, taken, f64 := WholeBitsets(left, columns, taken, [], BitSet64);
    AllOfRoom(f64, 0, |f64|, BitSet64);
    left, taken, f32 := WholeBitsets(left, columns, taken, f64, BitSet32);
    AllOfRoom(f32, |f64|, |f32|, BitSet32);
    RoomSame(f64, f32, |f64|);
    left, taken, f16 := WholeBitsets(left, columns, taken, f32, BitSet16);
    AllOfRoom(f16, |f32|, |f16|, BitSet16);
    RoomSame(f32, f16, |f32|);
    n64, n32, n16 := |f64|, |f32|, |f16|;
    taken, fields := LastBitsets(left, columns, taken, f16);
    AllOfLonger(f64, f32, 0, n64, BitSet64);
    AllOfLonger(f32, f16, 0, n64, BitSet64);
    AllOfLonger(f16, fields, 0, n64, BitSet64);
    AllOfLonger(f32, f16, n64, n32, BitSet32);
    AllOfLonger(f16, fields, n64, n32, BitSet32);
    AllOfLonger(f16, fields, n32, n16, BitSet16);
    GreedyHolds(fields, columns);
  }

  // ---------------------------------------------------------------- ordering

  /** The rank of `sort_by_key`: fields without size first, then by falling
      `log2(max(align, size))`, pointers first.  A bitset's size counts bits here. */
  function Rank(f: Field): nat {
    match f
    case ColumnField(_, ty, _) =>
      if ty == Unit then 0
      else 16 - (2 * Log2(Size(ty)) + (if ty == Str || ty == Ptr then 1 else 0))
    case BitSetField(_, bits) => 16 - 2 * (3 + Log2(Bytes(bits)))
  }

  function Log2(n: nat): nat {
    if n <= 1 then 0 else if n == 2 then 1 else if n == 4 then 2 else 3
  }

  /** Stable insertion: behind everything of the same rank. */
  function Insert(f: Field, fields: seq<Field>): (r: seq<Field>)
    ensures |r| == |fields| + 1
    ensures forall g :: g in r <==> g == f || g in fields
  {
    if fields == [] then [f]
    else if Rank(fields[|fields| - 1]) <= Rank(f) then fields + [f]
    else
      var r := Insert(f, fields[..|fields| - 1]) + [fields[|fields| - 1]];
      assert fields == fields[..|fields| - 1] + [fields[|fields| - 1]];
      r
  }

  function SortByRank(fields: seq<Field>): (r: seq<Field>)
    ensures |r| == |fields|
    ensures forall g :: g in r <==> g in fields
  {
    if fields == [] then []
    else
      assert fields == fields[..|fields| - 1] + [fields[|fields| - 1]];
      Insert(fields[|fields| - 1], SortByRank(fields[..|fields| - 1]))
  }

  ghost predicate Ranked(fields: seq<Field>) {
    forall i, j :: 0 <= i < j < |fields| ==> Rank(fields[i]) <= Rank(fields[j])
  }

  lemma {:induction false} InsertApart(f: Field, fields: seq<Field>)
    requires AllApart(fields)
    requires forall g :: g in fields ==> Apart(f, g) && Apart(g, f)
    ensures AllApart(Insert(f, fields))
  {
    if fields != [] {
      var last := fields[|fields| - 1];
      var init := fields[..|fields| - 1];
      if Rank(last) > Rank(f) {
        InsertApart(f, init);
        var r := Insert(f, init);
        forall i | 0 <= i < |r| ensures Apart(r[i], last) {
          assert r[i] in r;
          if r[i] in init {
            var j :| 0 <= j < |init| && init[j] == r[i];
            assert Apart(fields[j], fields[|fields| - 1]);
          }
        }
      }
    }
  }

  lemma {:induction false} InsertRanked(f: Field, fields: seq<Field>)
    requires Ranked(fields)
    ensures Ranked(Insert(f, fields))
  {
    if fields != [] {
      var last := fields[|fields| - 1];
      var init := fields[..|fields| - 1];
      if Rank(last) > Rank(f) {
        InsertRanked(f, init);
        var r := Insert(f, init);
        forall i | 0 <= i < |r| ensures Rank(r[i]) <= Rank(last) {
          assert r[i] in r;
        }
      }
    }
  }

  lemma {:induction false} SortKeeps(fields: seq<Field>)
    requires AllApart(fields)
    ensures AllApart(SortByRank(fields)) && Ranked(SortByRank(fields))
  {
    if fields != [] {
      var last := fields[|fields| - 1];
      var init := fields[..|fields| - 1];
      SortKeeps(init);
      forall g | g in SortByRank(init) ensures Apart(last, g) && Apart(g, last) {
        var i :| 0 <= i < |init| && init[i] == g;
        assert Apart(fields[i], fields[|fields| - 1]);
      }
      InsertApart(last, SortByRank(init));
      InsertRanked(last, SortByRank(init));
    }
  }

  lemma {:induction false} InsertPermutes(f: Field, fields: seq<Field>)
    ensures multiset(Insert(f, fields)) == multiset(fields) + multiset{f}
  {
    if fields != [] && Rank(fields[|fields| - 1]) > Rank(f) {
      InsertPermutes(f, fields[..|fields| - 1]);
      LastCounts(fields);
    }
  }

  lemma {:induction false} SortPermutes(fields: seq<Field>)
    ensures multiset(SortByRank(fields)) == multiset(fields)
  {
    if fields != [] {
      SortPermutes(fields[..|fields| - 1]);
      InsertPermutes(fields[|fields| - 1], SortByRank(fields[..|fields| - 1]));
      LastCounts(fields);
    }
  }

  lemma LastCounts(fields: seq<Field>)
    requires fields != []
    ensures multiset(fields) == multiset(fields[..|fields| - 1]) + multiset{fields[|fields| - 1]}
  {
    assert fields == fields[..|fields| - 1] + [fields[|fields| - 1]];
  }

  /** The order in which fields are listed: columns by number, then bitsets by the columns
      they hold. */
  ghost predicate Earlier(f: Field, g: Field) {
    match (f, g)
    case (ColumnField(k, _, _), ColumnField(k', _, _)) => k < k'
    case (ColumnField(_, _, _), BitSetField(_, _)) => true
    case (BitSetField(_, _), ColumnField(_, _, _)) => false
    case (BitSetField(columns, _), BitSetField(columns', _)) =>
      forall c, c' :: c in columns && c' in columns' ==> c < c'
  }

  ghost predicate AllEarlier(fields: seq<Field>) {
    forall i, j :: 0 <= i < j < |fields| ==> Earlier(fields[i], fields[j])
  }

  ghost predicate Stable(fields: seq<Field>) {
    forall i, j :: 0 <= i < j < |fields| && Rank(fields[i]) == Rank(fields[j]) ==> Earlier(fields[i], fields[j])
  }

  lemma {:induction false} InsertStable(f: Field, fields: seq<Field>)
    requires Stable(fields) && forall g :: g in fields ==> Earlier(g, f)
    ensures Stable(Insert(f, fields))
  {
    if fields != [] {
      var init, last := fields[..|fields| - 1], fields[|fields| - 1];
      if Rank(last) <= Rank(f) {
        assert forall i :: 0 <= i < |fields| ==> fields[i] in fields;
      } else {
        assert forall g :: g in init ==> g in fields;
        InsertStable(f, init);
        var r := Insert(f, init);
        forall i | 0 <= i < |r| && Rank(r[i]) == Rank(last) ensures Earlier(r[i], last) {
          assert r[i] in r;
          var j :| 0 <= j < |init| && init[j] == r[i];
          assert fields[j] == r[i];
        }
      }
    }
  }

  /** Fields of equal rank stay in the order in which they were listed. */
  lemma {:induction false} SortStable(fields: seq<Field>)
    requires AllEarlier(fields)
    ensures Stable(SortByRank(fields))
  {
    if fields != [] {
      var init, last := fields[..|fields| - 1], fields[|fields| - 1];
      SortStable(init);
      forall g | g in SortByRank(init) ensures Earlier(g, last) {
        var i :| 0 <= i < |init| && init[i] == g;
        assert fields[i] == g;
      }
      InsertStable(last, SortByRank(init));
    }
  }

  predicate IsPointer(f: Field) {
    f.ColumnField? && (f.ty == Str || f.ty == Ptr)
  }

  /** Where an optimised layout may put `f` in front of `g`: columns without size come first,
      then bitsets of more than eight bits, the wider the earlier, then the columns by
      falling size, pointers ahead of the other columns of eight bytes, and the bitsets of
      eight bits behind the columns of eight bytes.  Otherwise the order of listing decides. */
  ghost predicate InOrder(f: Field, g: Field) {
    match (f, g)
    case (ColumnField(_, _, _), ColumnField(_, _, _)) =>
      if f.Width() == 0 || g.Width() == 0 then f.Width() == 0 && (g.Width() == 0 ==> f.column < g.column)
      else
        && f.Width() >= g.Width()
        && (f.Width() == g.Width() ==> IsPointer(f) || !IsPointer(g))
        && (f.Width() == g.Width() && IsPointer(f) == IsPointer(g) ==> f.column < g.column)
    case (ColumnField(_, _, _), BitSetField(_, bits)) => f.Width() == 0 || (bits == BitSet8 && f.Width() == 8)
    case (BitSetField(_, bits), ColumnField(_, _, _)) => g.Width() > 0 && (bits == BitSet8 ==> g.Width() < 8)
    case (BitSetField(_, bits), BitSetField(_, bits')) =>
      Bytes(bits) >= Bytes(bits') && (bits == bits' ==> Earlier(f, g))
  }

  lemma RankInOrder(f: Field, g: Field)
    requires Rank(f) <= Rank(g) && (Rank(f) == Rank(g) ==> Earlier(f, g))
    ensures InOrder(f, g)
  {
  }

  ghost predicate AllInOrder(fields: seq<Field>) {
    forall i, j :: 0 <= i < j < |fields| ==> InOrder(fields[i], fields[j])
  }

  lemma SortInOrder(fields: seq<Field>)
    requires AllApart(fields) && AllEarlier(fields)
    ensures AllInOrder(SortByRank(fields)) && multiset(SortByRank(fields)) == multiset(fields)
  {
    SortPermutes(fields);
    SortKeeps(fields);
    SortStable(fields);
    var sorted := SortByRank(fields);
    forall i, j | 0 <= i < j < |sorted| ensures InOrder(sorted[i], sorted[j]) {
      RankInOrder(sorted[i], sorted[j]);
    }
  }

  // ---------------------------------------------------------------- placement

  const U32_LIMIT: nat := 0x1_0000_0000

  /** `padding_needed_for` with its wrapping 32-bit arithmetic; clearing the low bits of a
      number rounds it down to a multiple of the power of two `align`. */
  function PaddingNeeded(size: nat, align: nat): nat
    requires align > 0
  {
    var up := (size + align - 1) % U32_LIMIT;
    var rounded := up - up % align;
    (rounded - size) % U32_LIMIT
  }

  predicate IsAlignment(n: nat) {
    n == 1 || n == 2 || n == 4 || n == 8
  }

  lemma PaddingAligns(size: nat, align: nat)
    requires IsAlignment(align) && size < U32_LIMIT
    ensures PaddingNeeded(size, align) < align
    ensures IsMultiple(size + PaddingNeeded(size, align), align)
  {
    match align
    case 8 => PaddingAligns8(size);
    case 4 => PaddingAligns4(size);
    case 2 => PaddingAligns2(size);
    case _ =>
  }

  lemma PaddingAligns8(size: nat)
    requires size < U32_LIMIT
    ensures PaddingNeeded(size, 8) < 8 && (size + PaddingNeeded(size, 8)) % 8 == 0
  {
  }

  lemma PaddingAligns4(size: nat)
    requires size < U32_LIMIT
    ensures PaddingNeeded(size, 4) < 4 && (size + PaddingNeeded(size, 4)) % 4 == 0
  {
  }

  lemma PaddingAligns2(size: nat)
    requires size < U32_LIMIT
    ensures PaddingNeeded(size, 2) < 2 && (size + PaddingNeeded(size, 2)) % 2 == 0
  {
  }

  /** `total_null_columns`. */
  function NullColumns(nullable: seq<bool>): nat {
    if nullable == [] then 0 else NullColumns(nullable[..|nullable| - 1]) + if nullable[|nullable| - 1] then 1 else 0
  }

  lemma {:induction false} SomeNull(nullable: seq<bool>, k: nat)
    requires k < |nullable| && nullable[k]
    ensures NullColumns(nullable) > 0
  {
    if k < |nullable| - 1 {
      SomeNull(nullable[..|nullable| - 1], k);
    }
  }

  /** The tables that placement fills. */
  datatype Tables = Tables(offsets: seq<nat>, columnTypes: seq<ColumnType>, bitsets: seq<Option<Flag>>)

  ghost predicate TablesShape(row: RowLayout, t: Tables) {
    && |t.offsets| == |t.columnTypes| == |row.columns|
    && (|t.bitsets| == |row.columns| || NullColumns(row.nullable) == 0)
  }

  ghost predicate FromField(e: MemoryEntry, fields: seq<Field>) {
    match e
    case ColumnEntry(_, _, k, _) => PlacesColumn(fields, k)
    case BitSetEntry(_, bits, columns) => BitSetField(columns, bits) in fields
  }

  ghost predicate EntriesAgree(row: RowLayout, t: Tables, entries: seq<MemoryEntry>, fields: seq<Field>) {
    forall a :: 0 <= a < |entries| ==>
      EntryAgrees(row, t.offsets, t.bitsets, entries[a]) && FromField(entries[a], fields)
  }

  ghost predicate HasField(entries: seq<MemoryEntry>, f: Field) {
    match f
    case ColumnField(k, ty, _) => ty == Unit || HasColumn(entries, k)
    case BitSetField(columns, _) => forall c :: c in columns ==> HasFlag(entries, c)
  }

  ghost predicate TypesFilled(row: RowLayout, columnTypes: seq<ColumnType>, fields: seq<Field>) {
    && |columnTypes| == |row.columns|
    && forall k :: 0 <= k < |columnTypes| ==> columnTypes[k] == if PlacesColumn(fields, k) then row.columns[k] else Unit
  }

  /** The fields in `fields` have been placed. */
  ghost predicate Placed(row: RowLayout, fields: seq<Field>, t: Tables, entries: seq<MemoryEntry>) {
    && TablesShape(row, t)
    && EntriesAgree(row, t, entries, fields)
    && (forall f :: f in fields ==> HasField(entries, f))
    && TypesFilled(row, t.columnTypes, fields)
  }

  lemma HasMore(entries: seq<MemoryEntry>, e: MemoryEntry, f: Field)
    requires HasField(entries, f)
    ensures HasField(entries + [e], f)
  {
    var more := entries + [e];
    match f
    case ColumnField(k, ty, _) =>
      if ty != Unit {
        var a :| 0 <= a < |entries| && entries[a].ColumnEntry? && entries[a].column == k;
        assert more[a] == entries[a];
      }
    case BitSetField(columns, _) =>
      forall c | c in columns ensures HasFlag(more, c) {
        var a :| 0 <= a < |entries| && entries[a].BitSetEntry? && c in entries[a].columns;
        assert more[a] == entries[a];
      }
  }

  lemma TypesNext(row: RowLayout, columnTypes: seq<ColumnType>, fields: seq<Field>, f: Field)
    requires TypesFilled(row, columnTypes, fields) && FieldFits(row, f)
    ensures var types := if f.ColumnField? && f.ty != Unit then columnTypes[f.column := f.ty] else columnTypes;
            TypesFilled(row, types, fields + [f])
  {
    var more := fields + [f];
    assert f in more;
    forall k | 0 <= k < |columnTypes|
      ensures PlacesColumn(more, k) <==> PlacesColumn(fields, k) || (f.ColumnField? && f.column == k)
    {
      if PlacesColumn(fields, k) {
        var g :| g in fields && g.ColumnField? && g.column == k;
        assert g in more;
      }
    }
  }

  lemma FromMore(e: MemoryEntry, fields: seq<Field>, f: Field)
    requires FromField(e, fields)
    ensures FromField(e, fields + [f])
  {
    if e.ColumnEntry? {
      var g :| g in fields && g.ColumnField? && g.column == e.column;
      assert g in fields + [f];
    }
  }

  /** Placing a column keeps what was placed before. */
  lemma PlaceColumn(row: RowLayout, fields: seq<Field>, f: Field, t: Tables, entries: seq<MemoryEntry>, offset: nat)
    requires Placed(row, fields, t, entries) && FieldFits(row, f) && f.ColumnField?
    requires forall g :: g in fields ==> Apart(g, f)
    ensures var t' := t.(offsets := t.offsets[f.column := offset],
                         columnTypes := if f.ty != Unit then t.columnTypes[f.column := f.ty] else t.columnTypes);
            Placed(row, fields + [f], t',
                   if f.ty == Unit then entries else entries + [ColumnEntry(offset, f.ty, f.column, f.nullable)])
  {
    var e := ColumnEntry(offset, f.ty, f.column, f.nullable);
    var entries' := if f.ty == Unit then entries else entries + [e];
    var offsets' := t.offsets[f.column := offset];
    TypesNext(row, t.columnTypes, fields, f);
    assert f in fields + [f];
    forall a | 0 <= a < |entries'|
      ensures EntryAgrees(row, offsets', t.bitsets, entries'[a]) && FromField(entries'[a], fields + [f])
    {
      if a < |entries| {
        assert EntryAgrees(row, t.offsets, t.bitsets, entries[a]) && FromField(entries[a], fields);
        FromMore(entries[a], fields, f);
        assert entries[a].ColumnEntry? ==> entries[a].column != f.column;
      }
    }
    forall g | g in fields + [f] ensures HasField(entries', g) {
      if g in fields {
        HasMore(entries, e, g);
      } else if f.ty != Unit {
        assert entries'[|entries|] == e;
      }
    }
  }

  /** Placing a bitset keeps what was placed before. */
  lemma PlaceBitset(row: RowLayout, fields: seq<Field>, f: Field, t: Tables, bitsets: seq<Option<Flag>>,
                    entries: seq<MemoryEntry>, offset: nat)
    requires Placed(row, fields, t, entries) && FieldFits(row, f) && f.BitSetField?
    requires forall g :: g in fields ==> Apart(g, f)
    requires |bitsets| == |t.bitsets|
    requires forall b :: 0 <= b < |f.columns| ==>
               f.columns[b] < |bitsets| && bitsets[f.columns[b]] == Some(Flag(f.bits, offset, b))
    requires forall k :: 0 <= k < |bitsets| && k !in f.columns ==> bitsets[k] == t.bitsets[k]
    ensures Placed(row, fields + [f], t.(bitsets := bitsets), entries + [BitSetEntry(offset, f.bits, f.columns)])
  {
    var e := BitSetEntry(offset, f.bits, f.columns);
    var entries' := entries + [e];
    TypesNext(row, t.columnTypes, fields, f);
    assert f in fields + [f];
    forall a | 0 <= a < |entries'|
      ensures EntryAgrees(row, t.offsets, bitsets, entries'[a]) && FromField(entries'[a], fields + [f])
    {
      if a < |entries| {
        assert EntryAgrees(row, t.offsets, t.bitsets, entries[a]) && FromField(entries[a], fields);
        FromMore(entries[a], fields, f);
        if entries[a].BitSetEntry? {
          var columns := entries[a].columns;
          assert Apart(BitSetField(columns, entries[a].bits), f);
          assert forall b :: 0 <= b < |columns| ==> columns[b] in columns;
        }
      }
    }
    forall g | g in fields + [f] ensures HasField(entries', g) {
      if g in fields {
        HasMore(entries, e, g);
      } else {
        assert entries'[|entries|] == e;
      }
    }
  }

  ghost predicate Listed(entries: seq<MemoryEntry>, padding: seq<nat>) {
    forall x: nat :: x in padding <==> x < DataEnd(entries) && !Covered(entries, x)
  }

  /** The offsets of `pad` bytes from `start` on. */
  function PadBytes(start: nat, pad: nat): seq<nat> {
    seq(pad, i requires 0 <= i => start + i)
  }

  lemma ListedNext(entries: seq<MemoryEntry>, padding: seq<nat>, pad: nat, e: MemoryEntry)
    requires Listed(entries, padding) && Ordered(entries, DataEnd(entries))
    requires e.offset == DataEnd(entries) + pad
    ensures Listed(entries + [e], padding + PadBytes(DataEnd(entries), pad))
  {
    var offset := DataEnd(entries);
    var extra := PadBytes(offset, pad);
    var more := entries + [e];
    forall x: nat ensures x in padding + extra <==> x < DataEnd(more) && !Covered(more, x) {
      assert x in extra <==> offset <= x < offset + pad by {
        if offset <= x < offset + pad {
          assert extra[x - offset] == x;
        }
      }
      if Covered(entries, x) {
        var a :| 0 <= a < |entries| && entries[a].Covers(x);
        assert more[a].Covers(x);
      }
      assert more[|entries|] == e;
    }
  }

  lemma EntryAppended(entries: seq<MemoryEntry>, align: nat, pad: nat, e: MemoryEntry)
    requires Ordered(entries, DataEnd(entries)) && Aligned(entries, align)
    requires e.offset == DataEnd(entries) + pad && e.Width() > 0 && IsMultiple(e.offset, e.Width())
    ensures Ordered(entries + [e], e.End()) && DataEnd(entries + [e]) == e.End()
    ensures Aligned(entries + [e], if align < e.Width() then e.Width() else align)
  {
  }

  /** The next multiple of `align`. */
  function RoundUp(n: nat, align: nat): nat {
    if align == 2 then (n + 1) / 2 * 2
    else if align == 4 then (n + 3) / 4 * 4
    else if align == 8 then (n + 7) / 8 * 8
    else n
  }

  lemma RoundUpIs(n: nat, align: nat, pad: nat)
    requires IsAlignment(align) && pad < align && IsMultiple(n + pad, align)
    ensures RoundUp(n, align) == n + pad
  {
    match align
    case 8 => RoundUpIs8(n, (n + pad) / 8);
    case 4 => RoundUpIs4(n, (n + pad) / 4);
    case 2 => RoundUpIs2(n, (n + pad) / 2);
    case _ =>
  }

  lemma RoundUpSame(n: nat, align: nat)
    requires IsAlignment(align)
    ensures n <= RoundUp(n, align) && (RoundUp(n, align) == n <==> IsMultiple(n, align))
  {
    match align
    case 8 => RoundUpSame8(n, n / 8);
    case 4 => RoundUpSame4(n, n / 4);
    case 2 => RoundUpSame2(n, n / 2);
    case _ =>
  }

  lemma RoundUpSame8(n: nat, k: nat)
    requires 8 * k <= n < 8 * k + 8
    ensures (n + 7) / 8 == if n == 8 * k then k else k + 1
    ensures n % 8 == n - 8 * k
  {
  }

  lemma RoundUpSame4(n: nat, k: nat)
    requires 4 * k <= n < 4 * k + 4
    ensures (n + 3) / 4 == if n == 4 * k then k else k + 1
    ensures n % 4 == n - 4 * k
  {
  }

  lemma RoundUpSame2(n: nat, k: nat)
    requires 2 * k <= n < 2 * k + 2
    ensures (n + 1) / 2 == if n == 2 * k then k else k + 1
    ensures n % 2 == n - 2 * k
  {
  }

  lemma RoundUpIs8(n: nat, k: nat)
    requires n <= 8 * k < n + 8
    ensures (n + 7) / 8 == k
  {
  }

  lemma RoundUpIs4(n: nat, k: nat)
    requires n <= 4 * k < n + 4
    ensures (n + 3) / 4 == k
  {
  }

  lemma RoundUpIs2(n: nat, k: nat)
    requires n <= 2 * k < n + 2
    ensures (n + 1) / 2 == k
  {
  }

  /** Where the last of the fields ends, and the alignment of all of them. */
  function EndOf(fields: seq<Field>): nat {
    if fields == [] then 0
    else
      var end, w := EndOf(fields[..|fields| - 1]), fields[|fields| - 1].Width();
      if w == 0 then end else RoundUp(end, w) + w
  }

  /** The padding in front of the fields. */
  function PadOf(fields: seq<Field>): seq<nat> {
    if fields == [] then []
    else
      var init, w := fields[..|fields| - 1], fields[|fields| - 1].Width();
      if w == 0 then PadOf(init) else PadOf(init) + PadBytes(EndOf(init), RoundUp(EndOf(init), w) - EndOf(init))
  }

  function AlignOf(fields: seq<Field>): nat {
    if fields == [] then 1
    else
      var align, w := AlignOf(fields[..|fields| - 1]), fields[|fields| - 1].Width();
      if align < w then w else align
  }

  lemma EndOfNext(fields: seq<Field>, f: Field)
    ensures var end := EndOf(fields);
            EndOf(fields + [f]) == if f.Width() == 0 then end else RoundUp(end, f.Width()) + f.Width()
    ensures AlignOf(fields + [f]) == if AlignOf(fields) < f.Width() then f.Width() else AlignOf(fields)
    ensures var end := EndOf(fields);
            PadOf(fields + [f]) == if f.Width() == 0 then PadOf(fields)
                                   else PadOf(fields) + PadBytes(end, RoundUp(end, f.Width()) - end)
  {
    assert (fields + [f])[..|fields|] == fields;
  }

  /** The variables of the placement loop. */
  datatype Placement = Placement(align: nat, offset: nat, tables: Tables, entries: seq<MemoryEntry>, padding: seq<nat>)

  ghost predicate PlacementInv(row: RowLayout, done: seq<Field>, s: Placement) {
    && Placed(row, done, s.tables, s.entries)
    && Ordered(s.entries, s.offset) && Aligned(s.entries, s.align) && IsAlignment(s.align)
    && s.offset == DataEnd(s.entries) < U32_LIMIT
    && Listed(s.entries, s.padding)
  }

  /** The tables and the memory entry for one field at `offset`. */
  method PlaceTables(row: RowLayout, ghost done: seq<Field>, f: Field, t: Tables, ghost entries: seq<MemoryEntry>,
                     offset: nat)
    returns (tables: Tables, entry: MemoryEntry)
    requires row.Valid() && Placed(row, done, t, entries)
    requires FieldFits(row, f) && f.Width() > 0 && forall g :: g in done ==> Apart(g, f)
    ensures Placed(row, done + [f], tables, entries + [entry])
    ensures entry.offset == offset && entry.Width() == f.Width()
  {
    match f {
      case ColumnField(k, ty, nullable) =>
        tables := t.(columnTypes := t.columnTypes[k := ty], offsets := t.offsets[k := offset]);
        entry := ColumnEntry(offset, ty, k, nullable);
        PlaceColumn(row, done, f, t, entries, offset);
      case BitSetField(columns, bits) =>
        if columns != [] {
          SomeNull(row.nullable, columns[0]);
        }
        var bitsets := SetFlags(t.bitsets, columns, bits, offset);
        tables := t.(bitsets := bitsets);
        entry := BitSetEntry(offset, bits, columns);
        PlaceBitset(row, done, f, t, bitsets, entries, offset);
    }
  }

  method Pad(size: nat, align: nat) returns (pad: nat)
    requires IsAlignment(align) && size < U32_LIMIT
    ensures pad < align && IsMultiple(size + pad, align) && size + pad == RoundUp(size, align)
  {
    pad := PaddingNeeded(size, align);
    PaddingAligns(size, align);
    RoundUpIs(size, align, pad);
  }

  /** One field with a size is placed behind its padding; `None` is a panic on overflow. */
  method PlaceField(row: RowLayout, ghost done: seq<Field>, f: Field, s: Placement) returns (r: Option<Placement>)
    requires row.Valid() && PlacementInv(row, done, s)
    requires FieldFits(row, f) && f.Width() > 0 && forall g :: g in done ==> Apart(g, f)
    ensures r.Some? ==> PlacementInv(row, done + [f], r.value) && r.value.offset <= s.offset + 16
    ensures r.Some? ==> r.value.offset == RoundUp(s.offset, f.Width()) + f.Width()
    ensures r.Some? ==> r.value.align == if s.align < f.Width() then f.Width() else s.align
    ensures r.Some? ==> r.value.padding == s.padding + PadBytes(s.offset, RoundUp(s.offset, f.Width()) - s.offset)
    ensures r.None? ==> s.offset + 16 >= U32_LIMIT
  {
    var pad := Pad(s.offset, f.Width());
    if s.offset + pad >= U32_LIMIT || s.offset + pad + f.Width() >= U32_LIMIT {
      return None;
    }
    var s' := PlaceAt(row, done, f, s, pad, f.Width());
    r := Some(s');
  }

  /** The field is placed behind `pad` bytes of padding. */
  method PlaceAt(row: RowLayout, ghost done: seq<Field>, f: Field, s: Placement, pad: nat, w: nat)
    returns (s': Placement)
    requires row.Valid() && PlacementInv(row, done, s)
    requires FieldFits(row, f) && w == f.Width() && IsAlignment(w) && forall g :: g in done ==> Apart(g, f)
    requires IsMultiple(s.offset + pad, w) && s.offset + pad + w < U32_LIMIT
    ensures PlacementInv(row, done + [f], s') && s'.offset == s.offset + pad + w
    ensures s'.align == (if s.align < w then w else s.align) && s'.padding == s.padding + PadBytes(s.offset, pad)
  {
    var tables, entry := PlaceTables(row, done, f, s.tables, s.entries, s.offset + pad);
    var padding := s.padding + PadBytes(s.offset, pad);
    PlacedNext(row, done, f, s, pad, tables, entry, padding, w);
    s' := Placement(if s.align < w then w else s.align, s.offset + pad + w, tables, s.entries + [entry], padding);
  }

  lemma PlacedNext(row: RowLayout, done: seq<Field>, f: Field, s: Placement, pad: nat, tables: Tables,
                   entry: MemoryEntry, padding: seq<nat>, w: nat)
    requires PlacementInv(row, done, s) && Placed(row, done + [f], tables, s.entries + [entry])
    requires entry.offset == s.offset + pad && entry.Width() == w && IsAlignment(w)
    requires IsMultiple(s.offset + pad, w) && s.offset + pad + w < U32_LIMIT
    requires padding == s.padding + PadBytes(s.offset, pad)
    ensures PlacementInv(row, done + [f],
                         Placement(if s.align < w then w else s.align, s.offset + pad + w, tables,
                                   s.entries + [entry], padding))
  {
    ListedNext(s.entries, s.padding, pad, entry);
    EntryAppended(s.entries, s.align, pad, entry);
  }

  lemma UnitPlaced(row: RowLayout, done: seq<Field>, f: Field, t: Tables, entries: seq<MemoryEntry>, offset: nat)
    requires Placed(row, done, t, entries) && FieldFits(row, f) && f.Width() == 0
    requires forall g :: g in done ==> Apart(g, f)
    ensures f.ColumnField? && f.column < |t.offsets|
    ensures Placed(row, done + [f], t.(offsets := t.offsets[f.column := offset]), entries)
  {
    assert f.ColumnField? && f.ty == Unit;
    PlaceColumn(row, done, f, t, entries, offset);
  }

  /** A field without a size takes no room. */
  method PlaceUnit(row: RowLayout, ghost done: seq<Field>, f: Field, s: Placement) returns (s': Placement)
    requires row.Valid() && PlacementInv(row, done, s)
    requires FieldFits(row, f) && f.Width() == 0 && forall g :: g in done ==> Apart(g, f)
    ensures PlacementInv(row, done + [f], s')
    ensures s'.offset == s.offset && s'.align == s.align && s'.padding == s.padding
  {
    UnitPlaced(row, done, f, s.tables, s.entries, s.offset);
    s' := s.(tables := s.tables.(offsets := s.tables.offsets[f.column := s.offset]));
  }

  /** The loop of `compute_native_layout` over its fields. */
  method PlaceAll(row: RowLayout, fields: seq<Field>) returns (r: Option<Placement>)
    requires row.Valid() && Complete(row, fields)
    ensures r.Some? ==> PlacedUpTo(row, fields, r.value)
    ensures r.None? ==> 16 * |fields| >= U32_LIMIT
  {
    var s := PlaceNone(row, fields);
    for i := 0 to |fields|
      invariant PlacedFirst(row, fields, i, s)
    {
      r := PlaceNth(row, fields, i, s);
      if r == None {
        return;
      }
      s := r.value;
    }
    AllPlaced(row, fields, s);
    r := Some(s);
  }

  method PlaceNone(row: RowLayout, ghost fields: seq<Field>) returns (s: Placement)
    requires row.Valid()
    ensures PlacedFirst(row, fields, 0, s)
  {
    var n := |row.columns|;
    var noFlags: seq<Option<Flag>> := if NullColumns(row.nullable) == 0 then [] else seq(n, _ => None);
    s := Placement(1, 0, Tables(seq(n, _ => 0), seq(n, _ => Unit), noFlags), [], []);
    NothingPlaced(row, s);
    assert fields[..0] == [];
  }

  /** The first `i` fields have been placed. */
  ghost predicate PlacedFirst(row: RowLayout, fields: seq<Field>, i: nat, s: Placement) {
    i <= |fields| && PlacedUpTo(row, fields[..i], s)
  }

  lemma AllPlaced(row: RowLayout, fields: seq<Field>, s: Placement)
    requires PlacedFirst(row, fields, |fields|, s)
    ensures PlacedUpTo(row, fields, s)
  {
    assert fields[..|fields|] == fields;
  }

  method PlaceNth(row: RowLayout, fields: seq<Field>, i: nat, s: Placement) returns (r: Option<Placement>)
    requires row.Valid() && Complete(row, fields) && i < |fields| && PlacedFirst(row, fields, i, s)
    ensures r.Some? ==> PlacedFirst(row, fields, i + 1, r.value)
    ensures r.None? ==> 16 * |fields| >= U32_LIMIT
  {
    NextField(row, fields, i);
    r := PlaceNext(row, fields[..i], fields[i], s);
  }

  /** The fields in `done` have been placed. */
  ghost predicate PlacedUpTo(row: RowLayout, done: seq<Field>, s: Placement) {
    && PlacementInv(row, done, s) && s.offset <= 16 * |done|
    && s.offset == EndOf(done) && s.align == AlignOf(done) && s.padding == PadOf(done)
  }

  lemma NothingPlaced(row: RowLayout, s: Placement)
    requires row.Valid() && s.entries == [] && s.padding == [] && s.offset == 0 && s.align == 1
    requires TablesShape(row, s.tables) && s.tables.columnTypes == seq(|row.columns|, _ => Unit)
    ensures PlacedUpTo(row, [], s)
  {
  }

  lemma NextField(row: RowLayout, fields: seq<Field>, i: nat)
    requires Complete(row, fields) && i < |fields|
    ensures FieldFits(row, fields[i]) && forall g :: g in fields[..i] ==> Apart(g, fields[i])
    ensures fields[..i + 1] == fields[..i] + [fields[i]]
  {
  }

  /** One turn of the loop. */
  method PlaceNext(row: RowLayout, ghost done: seq<Field>, f: Field, s: Placement) returns (r: Option<Placement>)
    requires row.Valid() && PlacedUpTo(row, done, s)
    requires FieldFits(row, f) && forall g :: g in done ==> Apart(g, f)
    ensures r.Some? ==> PlacedUpTo(row, done + [f], r.value)
    ensures r.None? ==> 16 * |done| + 16 >= U32_LIMIT
  {
    EndOfNext(done, f);
    if f.Width() == 0 {
      var s' := PlaceUnit(row, done, f, s);
      r := Some(s');
    } else {
      r := PlaceField(row, done, f, s);
    }
  }

  /** A valid layout in which the fields are packed in their order. */
  ghost predicate Laid(row: RowLayout, fields: seq<Field>, l: NativeLayout) {
    && ValidLayout(row, l) && PaddingListed(l)
    && Measured(l, EndOf(fields), AlignOf(fields)) && l.paddingBytes == PadOf(fields)
  }

  /** ... and the final rounding of the size to the alignment. */
  method Place(row: RowLayout, fields: seq<Field>) returns (r: Option<NativeLayout>)
    requires row.Valid() && Complete(row, fields)
    ensures r.Some? ==> Laid(row, fields, r.value)
    ensures r.None? ==> 16 * |fields| + 8 >= U32_LIMIT
  {
    var placed := PlaceAll(row, fields);
    if placed == None {
      return None;
    }
    r := RoundOff(row, fields, placed.value);
  }

  method RoundOff(row: RowLayout, fields: seq<Field>, s: Placement) returns (r: Option<NativeLayout>)
    requires row.Valid() && Complete(row, fields) && PlacedUpTo(row, fields, s)
    ensures r.Some? ==> Laid(row, fields, r.value)
    ensures r.None? ==> 16 * |fields| + 8 >= U32_LIMIT
  {
    PlacedBounds(row, fields, s);
    var pad := Pad(s.offset, s.align);
    if s.offset + pad >= U32_LIMIT {
      return None;
    }
    var l := Close(row, fields, s, pad);
    r := Some(l);
  }

  lemma PlacedBounds(row: RowLayout, fields: seq<Field>, s: Placement)
    requires PlacedUpTo(row, fields, s)
    ensures s.offset < U32_LIMIT && s.offset <= 16 * |fields| && IsAlignment(s.align)
  {
  }

  method Close(row: RowLayout, ghost fields: seq<Field>, s: Placement, pad: nat) returns (l: NativeLayout)
    requires row.Valid() && Complete(row, fields) && PlacedUpTo(row, fields, s)
    requires IsMultiple(s.offset + pad, s.align) && s.offset + pad == RoundUp(s.offset, s.align)
    ensures Laid(row, fields, l)
  {
    l := NativeLayout(s.offset + pad, s.align, s.tables.columnTypes, s.tables.offsets, s.tables.bitsets, s.entries,
                      s.padding);
    Finished(row, fields, s, l);
  }

  lemma OrderedBelow(entries: seq<MemoryEntry>, end: nat, size: nat)
    requires Ordered(entries, end) && end <= size
    ensures Ordered(entries, size)
  {
  }

  lemma Finished(row: RowLayout, fields: seq<Field>, s: Placement, l: NativeLayout)
    requires row.Valid() && Complete(row, fields) && PlacedUpTo(row, fields, s)
    requires IsMultiple(l.size, s.align) && s.offset <= l.size == RoundUp(s.offset, s.align)
    requires l == NativeLayout(l.size, s.align, s.tables.columnTypes, s.tables.offsets,
                               s.tables.bitsets, s.entries, s.padding)
    ensures Laid(row, fields, l)
  {
    OrderedBelow(s.entries, s.offset, l.size);
    assert Tables(l.offsets, l.columnTypes, l.bitsets) == s.tables;
    PlacedIsValid(row, fields, l);
  }

  /** The flags of one bitset, in the order of its columns. */
  method SetFlags(bitsets: seq<Option<Flag>>, columns: seq<nat>, bits: BitSetType, offset: nat)
    returns (r: seq<Option<Flag>>)
    requires forall b :: 0 <= b < |columns| ==> columns[b] < |bitsets|
    requires Distinct(columns)
    ensures |r| == |bitsets|
    ensures forall b :: 0 <= b < |columns| ==> r[columns[b]] == Some(Flag(bits, offset, b))
    ensures forall k :: 0 <= k < |bitsets| && k !in columns ==> r[k] == bitsets[k]
  {
    r := bitsets;
    for b := 0 to |columns|
      invariant |r| == |bitsets|
      invariant forall a :: 0 <= a < b ==> r[columns[a]] == Some(Flag(bits, offset, a))
      invariant forall k :: 0 <= k < |bitsets| && k !in columns ==> r[k] == bitsets[k]
    {
      r := r[columns[b] := Some(Flag(bits, offset, b))];
    }
  }

  lemma PlacedIsValid(row: RowLayout, fields: seq<Field>, l: NativeLayout)
    requires row.Valid() && Complete(row, fields)
    requires Placed(row, fields, Tables(l.offsets, l.columnTypes, l.bitsets), l.memoryOrder)
    requires Ordered(l.memoryOrder, l.size) && Aligned(l.memoryOrder, l.align)
    requires IsAlignment(l.align) && IsMultiple(l.size, l.align)
    ensures ValidLayout(row, l)
  {
    forall k | 0 <= k < |row.columns| && row.columns[k] != Unit ensures HasColumn(l.memoryOrder, k) {
      var f :| f in fields && f.ColumnField? && f.column == k;
      assert FieldFits(row, f) && HasField(l.memoryOrder, f);
    }
    forall k | 0 <= k < |row.columns| && row.Flagged(k) ensures HasFlag(l.memoryOrder, k) {
      assert PlacesFlag(fields, k);
      var f :| f in fields && f.BitSetField? && k in f.columns;
      assert HasField(l.memoryOrder, f);
    }
  }

  lemma {:induction false} NullColumnsBound(nullable: seq<bool>)
    ensures NullColumns(nullable) <= |nullable|
  {
    if nullable != [] {
      NullColumnsBound(nullable[..|nullable| - 1]);
    }
  }

  // ---------------------------------------------------------------- from a row to its layout

  /** The columns below `k` that need a flag, in order. */
  function Flags(row: RowLayout, k: nat): (flags: seq<nat>)
    requires row.Valid() && k <= |row.columns|
    ensures forall c: nat :: c in flags <==> c < k && row.Flagged(c)
  {
    if k == 0 then [] else if row.Flagged(k - 1) then Flags(row, k - 1) + [k - 1] else Flags(row, k - 1)
  }

  ghost predicate Ascending(xs: seq<nat>) {
    forall i, j :: 0 <= i < j < |xs| ==> xs[i] < xs[j]
  }

  lemma {:induction false} FlagsAscend(row: RowLayout, k: nat)
    requires row.Valid() && k <= |row.columns|
    ensures Ascending(Flags(row, k)) && |Flags(row, k)| <= NullColumns(row.nullable[..k])
  {
    if k > 0 {
      FlagsAscend(row, k - 1);
      assert row.nullable[..k][..k - 1] == row.nullable[..k - 1];
      var below := Flags(row, k - 1);
      assert forall i :: 0 <= i < |below| ==> below[i] in below;
    }
  }

  /** The fields of a row as they are listed: its columns in order, then its bitsets. */
  ghost predicate IsListing(row: RowLayout, columnFields: seq<Field>, bitsets: seq<Field>, n64: nat, n32: nat, n16: nat)
    requires row.Valid()
  {
    && |columnFields| == |row.columns|
    && (forall k :: 0 <= k < |columnFields| ==> columnFields[k] == ColumnField(k, row.columns[k], row.nullable[k]))
    && Greedy(bitsets, Flags(row, |row.columns|)) && Widths(bitsets, NullColumns(row.nullable), n64, n32, n16)
  }

  ghost predicate Listing(row: RowLayout, fields: seq<Field>)
    requires row.Valid()
  {
    exists columnFields, bitsets, n64, n32, n16 ::
      IsListing(row, columnFields, bitsets, n64, n32, n16) && fields == columnFields + bitsets
  }

  /** Bitsets that take ascending columns in turn are listed in order. */
  lemma ChunksEarlier(f: Field, g: Field, columns: seq<nat>, from: nat, from': nat)
    requires Takes(f, columns, from) && Takes(g, columns, from') && from + Bits(f.bits) <= from' && Ascending(columns)
    ensures Earlier(f, g)
  {
    forall c, c' | c in f.columns && c' in g.columns ensures c < c' {
      var a :| 0 <= a < |f.columns| && f.columns[a] == c;
      var b :| 0 <= b < |g.columns| && g.columns[b] == c';
      assert columns[from + a] < columns[from' + b];
    }
  }

  lemma ListedInOrder(row: RowLayout, columnFields: seq<Field>, bitsets: seq<Field>, n64: nat, n32: nat, n16: nat)
    requires row.Valid() && IsListing(row, columnFields, bitsets, n64, n32, n16)
    ensures AllEarlier(columnFields + bitsets)
  {
    var fields, n := columnFields + bitsets, |columnFields|;
    FlagsAscend(row, n);
    forall i, j | 0 <= i < j < |fields| ensures Earlier(fields[i], fields[j]) {
      if j >= n {
        assert TakesAt(bitsets, Flags(row, n), j - n);
        if i >= n {
          assert TakesAt(bitsets, Flags(row, n), i - n);
          RoomGrows(bitsets, i - n + 1, j - n);
          ChunksEarlier(fields[i], fields[j], Flags(row, n), Room(bitsets, i - n), Room(bitsets, j - n));
        }
      }
    }
  }

  /** The columns of a row and its bitsets. */
  method ListFields(row: RowLayout) returns (fields: seq<Field>)
    requires row.Valid()
    ensures Complete(row, fields) && Listing(row, fields) && |fields| <= 2 * |row.columns|
    ensures AllEarlier(fields)
    ensures NullColumns(row.nullable) == 0 ==> forall f :: f in fields ==> f.ColumnField?
  {
    var n := |row.columns|;
    var columnFields: seq<Field> := [];
    var flagged: seq<nat> := [];
    for k := 0 to n
      invariant |columnFields| == k && flagged == Flags(row, k)
      invariant forall j :: 0 <= j < k ==> columnFields[j] == ColumnField(j, row.columns[j], row.nullable[j])
    {
      columnFields := columnFields + [ColumnField(k, row.columns[k], row.nullable[k])];
      if row.Flagged(k) {
        flagged := flagged + [k];
      }
    }
    FlagsAscend(row, n);
    assert row.nullable[..n] == row.nullable;
    NullColumnsBound(row.nullable);
    var bitsets, n64, n32, n16 := Bitsets(NullColumns(row.nullable), flagged);
    fields := columnFields + bitsets;
    FieldsAreComplete(row, columnFields, bitsets, flagged);
    assert IsListing(row, columnFields, bitsets, n64, n32, n16);
    ListedInOrder(row, columnFields, bitsets, n64, n32, n16);
  }

  /** `NativeLayout::from_row`: every layout it returns is valid, and it returns one for
      every row of fewer than 2^27 columns.  The fields are packed as listed or, in an
      optimised layout, as `AllInOrder` says. */
  method FromRow(row: RowLayout, optimize: bool)
    returns (r: Option<NativeLayout>, ghost fields: seq<Field>, ghost listed: seq<Field>)
    requires row.Valid()
    ensures Listing(row, listed) && multiset(fields) == multiset(listed)
    ensures if optimize then AllInOrder(fields) else fields == listed
    ensures NullColumns(row.nullable) == 0 ==> forall f :: f in fields ==> f.ColumnField?
    ensures r.Some? ==> Laid(row, fields, r.value)
    ensures |row.columns| < 0x800_0000 ==> r.Some?
  {
    var all := ListFields(row);
    listed := all;
    if optimize {
      SortIsComplete(row, all);
      SortInOrder(all);
      all := SortByRank(all);
    }
    fields := all;
    r := Place(row, all);
  }

  // ---------------------------------------------------------------- padding

  lemma MultipleOfSmaller(n: nat, w: nat, w': nat)
    requires IsAlignment(w) && IsAlignment(w') && w' <= w && IsMultiple(n, w)
    ensures IsMultiple(n, w') && IsMultiple(n + w, w')
  {
  }

  lemma RoundUpMultiple(n: nat, w: nat)
    requires IsAlignment(w)
    ensures IsMultiple(RoundUp(n, w), w)
  {
  }

  /** Fields at least `w` wide end at a multiple of `w`. */
  lemma {:induction false} EndIsMultiple(fields: seq<Field>, w: nat)
    requires IsAlignment(w) && forall i :: 0 <= i < |fields| ==> fields[i].Width() == 0 || w <= fields[i].Width()
    ensures IsMultiple(EndOf(fields), w)
  {
    if fields != [] {
      var init, f := fields[..|fields| - 1], fields[|fields| - 1];
      EndIsMultiple(init, w);
      if f.Width() > 0 {
        RoundUpMultiple(EndOf(init), f.Width());
        MultipleOfSmaller(RoundUp(EndOf(init), f.Width()), f.Width(), w);
      }
    }
  }

  /** Columns by falling size need no padding. */
  lemma {:induction false} FallingNeedsNoPadding(fields: seq<Field>)
    requires AllInOrder(fields) && forall i :: 0 <= i < |fields| ==> fields[i].ColumnField?
    ensures PadOf(fields) == []
  {
    if fields != [] {
      var init, f := fields[..|fields| - 1], fields[|fields| - 1];
      FallingNeedsNoPadding(init);
      if f.Width() > 0 {
        assert forall i :: 0 <= i < |init| ==> InOrder(fields[i], f);
        EndIsMultiple(init, f.Width());
        RoundUpSame(EndOf(init), f.Width());
      }
    }
  }

  /** An optimised row without nullable columns has no padding in front of any column. */
  method OptimisedHasNoPadding(row: RowLayout) returns (l: Option<NativeLayout>)
    requires row.Valid() && forall k :: 0 <= k < |row.nullable| ==> !row.nullable[k]
    ensures l.Some? ==> ValidLayout(row, l.value) && l.value.paddingBytes == []
    ensures |row.columns| < 0x800_0000 ==> l.Some?
  {
    var r;
    ghost var fields;
    ghost var listed;
    r, fields, listed := FromRow(row, true);
    NoNullColumns(row.nullable);
    FallingNeedsNoPadding(fields);
    l := r;
  }

  lemma {:induction false} NoNullColumns(nullable: seq<bool>)
    requires forall k :: 0 <= k < |nullable| ==> !nullable[k]
    ensures NullColumns(nullable) == 0
  {
    if nullable != [] {
      NoNullColumns(nullable[..|nullable| - 1]);
    }
  }

  /** Fields of one width follow each other without padding. */
  lemma {:induction false} UniformEnd(fields: seq<Field>, w: nat)
    requires IsAlignment(w) && forall i :: 0 <= i < |fields| ==> fields[i].Width() == w
    ensures EndOf(fields) == |fields| * w && AlignOf(fields) == (if fields == [] then 1 else w)
  {
    if fields != [] {
      var init := fields[..|fields| - 1];
      UniformEnd(init, w);
      EndIsMultiple(init, w);
      RoundUpSame(EndOf(init), w);
      assert |fields| * w == |init| * w + w;
    }
  }

  lemma {:induction false} UnitEnd(fields: seq<Field>)
    requires forall i :: 0 <= i < |fields| ==> fields[i].Width() == 0
    ensures EndOf(fields) == 0 && AlignOf(fields) == 1
  {
    if fields != [] {
      UnitEnd(fields[..|fields| - 1]);
    }
  }

  lemma UniformFields(row: RowLayout, fields: seq<Field>, t: ColumnType)
    requires row.Valid() && Listing(row, fields)
    requires forall k :: 0 <= k < |row.columns| ==> row.columns[k] == t && !row.nullable[k]
    ensures |fields| == |row.columns| && forall i :: 0 <= i < |fields| ==> fields[i].Width() == Size(t)
  {
    NoNullColumns(row.nullable);
    var columnFields, bitsets, n64, n32, n16 :|
      IsListing(row, columnFields, bitsets, n64, n32, n16) && fields == columnFields + bitsets;
    assert bitsets == [];
  }

  lemma UniformSize(fields: seq<Field>, w: nat)
    requires (w == 0 || IsAlignment(w)) && forall i :: 0 <= i < |fields| ==> fields[i].Width() == w
    ensures RoundUp(EndOf(fields), AlignOf(fields)) == |fields| * w
  {
    if w == 0 {
      UnitEnd(fields);
    } else {
      UniformEnd(fields, w);
      EndIsMultiple(fields, w);
      RoundUpSame(EndOf(fields), w);
    }
  }

  /** The bytes that one column takes. */
  predicate Occupies(t: ColumnType, w: nat) {
    match t
    case Unit => w == 0
    case Bool => w == 1
    case U8 => w == 1
    case I8 => w == 1
    case U16 => w == 2
    case I16 => w == 2
    case U32 => w == 4
    case I32 => w == 4
    case F32 => w == 4
    case Date => w == 4
    case _ => w == 8
  }

  lemma SizeOccupies(t: ColumnType)
    ensures Occupies(t, Size(t))
  {
  }

  /** A row of columns of one type is as large as its columns. */
  method UniformRow(row: RowLayout, t: ColumnType) returns (l: NativeLayout, w: nat)
    requires row.Valid() && |row.columns| < 0x800_0000
    requires forall k :: 0 <= k < |row.columns| ==> row.columns[k] == t && !row.nullable[k]
    ensures ValidLayout(row, l) && Occupies(t, w) && l.size == |row.columns| * w
  {
    var r;
    ghost var fields;
    ghost var listed;
    r, fields, listed := FromRow(row, false);
    l, w := r.value, Size(t);
    SizeOccupies(t);
    UniformFields(row, fields, t);
    UniformSize(fields, w);
  }

  lemma EndOfTwo(fields: seq<Field>)
    requires |fields| == 2 && fields[0].Width() == 8 && fields[1].Width() == 1
    ensures EndOf(fields) == 9 && AlignOf(fields) == 8
  {
    var first := fields[..1];
    assert first[..0] == [] && first[0] == fields[0];
    assert EndOf(first) == 8 && AlignOf(first) == 8;
  }

  /** A row whose layout has padding that is not listed: an 8-byte column, then a byte. */
  method UnlistedPadding(row: RowLayout) returns (l: NativeLayout)
    requires row == RowLayout([U64, U8], [false, false])
    ensures ValidLayout(row, l) && l.size == 16
    ensures forall x: nat :: 9 <= x < 16 ==> !Covered(l.memoryOrder, x) && x !in l.paddingBytes
  {
    var r;
    ghost var fields;
    ghost var listed;
    r, fields, listed := FromRow(row, false);
    l := r.value;
    WideThenNarrow(row, fields);
    UnlistedBehind(row, l, EndOf(fields), AlignOf(fields));
  }

  lemma WideThenNarrow(row: RowLayout, fields: seq<Field>)
    requires row.Valid() && |row.columns| == 2 && row.columns[0] == U64 && row.columns[1] == U8
    requires Listing(row, fields) && forall k :: 0 <= k < |row.nullable| ==> !row.nullable[k]
    ensures EndOf(fields) == 9 && AlignOf(fields) == 8
  {
    NoNullColumns(row.nullable);
    var columnFields, bitsets, n64, n32, n16 :|
      IsListing(row, columnFields, bitsets, n64, n32, n16) && fields == columnFields + bitsets;
    assert bitsets == [];
    assert fields[0] == ColumnField(0, U64, row.nullable[0]) && fields[1] == ColumnField(1, U8, row.nullable[1]);
    EndOfTwo(fields);
  }

  lemma FieldsAreComplete(row: RowLayout, columnFields: seq<Field>, bitsets: seq<Field>, flagged: seq<nat>)
    requires row.Valid() && |columnFields| == |row.columns|
    requires forall j :: 0 <= j < |columnFields| ==> columnFields[j] == ColumnField(j, row.columns[j], row.nullable[j])
    requires Holds(bitsets, flagged)
    requires forall c: nat :: c in flagged <==> c < |row.columns| && row.Flagged(c)
    ensures Complete(row, columnFields + bitsets)
  {
    var fields := columnFields + bitsets;
    forall f | f in fields ensures FieldFits(row, f) {
      if f in bitsets {
        forall b | 0 <= b < |f.columns| ensures f.columns[b] < |row.columns| && row.nullable[f.columns[b]] {
          assert f.columns[b] in f.columns && f.columns[b] in flagged;
        }
      }
    }
    forall k | 0 <= k < |row.columns| ensures PlacesColumn(fields, k) {
      assert columnFields[k] in fields;
    }
    forall k | 0 <= k < |row.columns| && row.Flagged(k) ensures PlacesFlag(fields, k) {
      assert k in flagged;
      var f :| f in bitsets && f.BitSetField? && k in f.columns;
      assert f in fields;
    }
    forall i, j | 0 <= i < j < |fields| ensures Apart(fields[i], fields[j]) {
      if i < |columnFields| <= j {
        assert fields[j] in bitsets;
      }
    }
  }

  lemma SortIsComplete(row: RowLayout, fields: seq<Field>)
    requires Complete(row, fields)
    ensures Complete(row, SortByRank(fields))
  {
    SortKeeps(fields);
    var sorted := SortByRank(fields);
    forall k | 0 <= k < |row.columns| ensures PlacesColumn(sorted, k) {
      assert PlacesColumn(fields, k);
      var f :| f in fields && f.ColumnField? && f.column == k;
      assert f in sorted;
    }
    forall k | 0 <= k < |row.columns| && k < |row.nullable| && row.Flagged(k) ensures PlacesFlag(sorted, k) {
      assert PlacesFlag(fields, k);
      var f :| f in fields && f.BitSetField? && k in f.columns;
      assert f in sorted;
    }
  }
}
