/**
 Saving the progress of an ED2K download and loading it again: one bit per
 verified part, one bit per 16 KiB cell of every other part.
 */
module Checkpoint {

  import opened Base
  import opened Ranges
  import opened BlockClaims

  const CELL_LENGTH: int := 16384

  // ---------------------------------------------------------------------------
  // Bit fields
  // ---------------------------------------------------------------------------

  /** Bit k of a byte, counted from the most significant one. */
  function Mask(k: nat): bv8
    requires k < 8
  {
    if k == 0 then 0x80 else if k == 1 then 0x40 else if k == 2 then 0x20 else if k == 3 then 0x10
    else if k == 4 then 0x08 else if k == 5 then 0x04 else if k == 6 then 0x02 else 0x01
  }

  predicate HasBit(x: bv8, k: nat)
    requires k < 8
  {
    x & Mask(k) != 0
  }

  function WithBit(x: bv8, k: nat): bv8
    requires k < 8
  {
    x | Mask(k)
  }

  predicate BitAt(data: seq<bv8>, i: nat) {
    i / 8 < |data| && HasBit(data[i / 8], i % 8)
  }

  /** The bytes hold the bits, padded with zeros to a whole byte. */
  ghost predicate Packs(data: seq<bv8>, bits: seq<bool>) {
    && |data| == (|bits| + 7) / 8
    && forall i: nat :: BitAt(data, i) <==> i < |bits| && bits[i]
  }

  method PackBits(bits: seq<bool>) returns (out: seq<bv8>)
    ensures Packs(out, bits)
  {
    out := seq((|bits| + 7) / 8, _ => 0);
    for i := 0 to |bits|
      invariant |out| == (|bits| + 7) / 8
      invariant forall j: nat :: BitAt(out, j) <==> j < i && bits[j]
    {
      if bits[i] {
        forall j: nat ensures BitAt(SetBitOf(out, i), j) <==> j == i || BitAt(out, j) {
          BitSet(out, i, j);
        }
        out := SetBitOf(out, i);
      }
    }
  }

  function SetBitOf(data: seq<bv8>, i: nat): seq<bv8>
    requires i / 8 < |data|
  {
    data[i / 8 := WithBit(data[i / 8], i % 8)]
  }

  /** Setting one bit changes no other bit. */
  lemma BitSet(data: seq<bv8>, i: nat, j: nat)
    requires i / 8 < |data|
    ensures BitAt(SetBitOf(data, i), j) <==> j == i || BitAt(data, j)
  {
  }

  method UnpackBits(data: seq<bv8>, count: nat) returns (bits: seq<bool>)
    ensures |bits| == count
    ensures forall i :: 0 <= i < count ==> (bits[i] <==> BitAt(data, i))
  {
    bits := seq(count, _ => false);
    var i := 0;
    while i < count && i / 8 < |data|
      invariant 0 <= i <= count && |bits| == count
      invariant forall j :: 0 <= j < i ==> (bits[j] <==> BitAt(data, j))
      invariant forall j :: i <= j < count ==> !bits[j]
    {
      bits := bits[i := HasBit(data[i / 8], i % 8)];
      i := i + 1;
    }
  }

  /** A bit field read back with its own length is the one written. */
  method BitsRoundTrip(bits: seq<bool>) returns (again: seq<bool>)
    ensures again == bits
  {
    var data := PackBits(bits);
    again := UnpackBits(data, |bits|);
  }

  // ---------------------------------------------------------------------------
  // Cells
  // ---------------------------------------------------------------------------

  function Cell(size: nat, index: nat, block: nat): Range {
    var part := Part(size, index);
    var first := part.begin + block * CELL_LENGTH;
    Range(first, Min(first + CELL_LENGTH, part.end))
  }

  function CellCount(length: int): nat {
    if length <= 0 then 0 else (length + CELL_LENGTH - 1) / CELL_LENGTH
  }

  function CellOf(x: nat): nat {
    (x - PartOf(x) * PIECE_LENGTH) / CELL_LENGTH
  }

  /** The bytes of the cell `x` lies in. */
  ghost function CellBytes(size: nat, x: nat): set<int> {
    var cell := Cell(size, PartOf(x), CellOf(x));
    Interval(cell.begin, cell.end)
  }

  lemma CellPartition(size: nat, x: nat, index: nat, block: nat)
    requires x < size && index < PartCount(size)
    requires block < CellCount(Part(size, index).end - Part(size, index).begin)
    ensures CellOf(x) < CellCount(Part(size, PartOf(x)).end - Part(size, PartOf(x)).begin)
    ensures x in CellBytes(size, x)
    ensures x in Interval(Cell(size, index, block).begin, Cell(size, index, block).end)
            <==> index == PartOf(x) && block == CellOf(x)
  {
    var part := Part(size, PartOf(x));
    assert part.begin <= x < part.end;
    if index == PartOf(x) {
      var first := part.begin + block * CELL_LENGTH;
      assert first <= x < first + CELL_LENGTH <==> block == CellOf(x);
    } else {
      PartPartition(size, x, index);
      assert Cell(size, index, block).begin >= Part(size, index).begin;
    }
  }

  // ---------------------------------------------------------------------------
  // The stored record
  // ---------------------------------------------------------------------------

  /** The progress part of a download record. */
  datatype Record = Record(size: nat, parts: seq<bool>, received: seq<Range>)

  /** A row of the piece table. */
  datatype Row = Row(index: int, length: int, bits: seq<bv8>)

  /** What the database holds: the part bit field and the rows in index order. */
  datatype Stored = Stored(size: nat, bitfield: seq<bv8>, rows: seq<Row>)

  /** One listed range contains all of [begin, end). */
  predicate CoveredBy(ranges: seq<Range>, begin: int, end: int) {
    exists r :: r in ranges && r.begin <= begin && end <= r.end
  }

  method Covered(ranges: seq<Range>, begin: int, end: int) returns (r: bool)
    ensures r == CoveredBy(ranges, begin, end)
  {
    for k := 0 to |ranges|
      invariant forall i :: 0 <= i < k ==> !(ranges[i].begin <= begin && end <= ranges[i].end)
    {
      if ranges[k].begin <= begin && end <= ranges[k].end {
        assert ranges[k] in ranges;
        return true;
      }
    }
    return false;
  }

  // ---------------------------------------------------------------------------
  // Checkpoint
  // ---------------------------------------------------------------------------

  function Clip(size: nat, r: Range, index: nat): Range {
    Range(Max(r.begin, Part(size, index).begin), Min(r.end, Part(size, index).end))
  }

  /** `c` is the piece of a listed range that lies in an unverified part. */
  ghost predicate IsClip(size: nat, verified: seq<bool>, ranges: seq<Range>, c: Range) {
    exists r, i: nat :: r in ranges && i < |verified| && !verified[i] && c == Clip(size, r, i)
  }

  /** The listed pieces of unverified parts, one per range and part they share bytes with. */
  ghost predicate Clipped(pieces: seq<Range>, size: nat, verified: seq<bool>, ranges: seq<Range>) {
    && (forall c :: c in pieces ==> IsClip(size, verified, ranges, c))
    && (forall r, i: nat ::
          r in ranges && i < |verified| && !verified[i] && Meets(r, Part(size, i)) ==> Clip(size, r, i) in pieces)
  }

  predicate Meets(a: Range, b: Range) {
    a.begin < b.end && b.begin < a.end
  }

  /** Inside unverified parts the list answers coverage questions exactly. */
  ghost predicate Mirrors(pieces: seq<Range>, size: nat, verified: seq<bool>, received: set<int>) {
    forall i: nat, b, e ::
      i < |verified| && !verified[i] && Part(size, i).begin <= b < e <= Part(size, i).end ==>
      (CoveredBy(pieces, b, e) <==> Interval(b, e) <= received)
  }

  method Checkpoint(parts: Parts) returns (record: Record)
    requires parts.Valid()
    ensures record.size == parts.size && record.parts == parts.verified
    ensures Mirrors(record.received, parts.size, parts.verified, parts.received.Contents())
  {
    var ranges := parts.received.ranges;
    var pieces := [];
    for k := 0 to |ranges|
      invariant Clipped(pieces, parts.size, parts.verified, ranges[..k])
    {
      RangeInFile(ranges, k, parts.size);
      var more := ClipRange(parts, ranges[k]);
      ClippedConcat(pieces, more, parts.size, parts.verified, ranges[..k], ranges[k]);
      assert ranges[..k + 1] == ranges[..k] + [ranges[k]];
      pieces := pieces + more;
    }
    assert ranges[..|ranges|] == ranges;
    ClippedMirrors(pieces, parts.size, parts.verified, ranges);
    record := Record(parts.size, parts.verified, pieces);
  }

  lemma RangeInFile(ranges: seq<Range>, k: nat, size: nat)
    requires Coalesced(ranges) && k < |ranges| && Bytes(ranges) <= Interval(0, size)
    ensures 0 <= ranges[k].begin < ranges[k].end <= size
  {
    var r := ranges[k];
    assert r.begin in Interval(r.begin, r.end) && r.end - 1 in Interval(r.begin, r.end);
    assert r.begin in Bytes(ranges) && r.end - 1 in Bytes(ranges);
  }

  /** The inner loop: the pieces of one received range. */
  method ClipRange(parts: Parts, r: Range) returns (pieces: seq<Range>)
    requires parts.Valid() && 0 <= r.begin < r.end <= parts.size
    ensures Clipped(pieces, parts.size, parts.verified, [r])
  {
    pieces := [];
    PartPartition(parts.size, r.begin, 0);
    PartPartition(parts.size, r.end - 1, 0);
    var index := PartOf(r.begin);
    while index <= PartOf(r.end - 1)
      invariant PartOf(r.begin) <= index <= PartOf(r.end - 1) + 1
      invariant forall c :: c in pieces ==> IsClip(parts.size, parts.verified, [r], c)
      invariant forall i :: PartOf(r.begin) <= i < index && !parts.verified[i] ==> Clip(parts.size, r, i) in pieces
    {
      if !parts.verified[index] {
        assert r in [r];
        pieces := pieces + [Clip(parts.size, r, index)];
      }
      index := index + 1;
    }
    forall i: nat | i < |parts.verified| && Meets(r, Part(parts.size, i))
      ensures PartOf(r.begin) <= i <= PartOf(r.end - 1)
    {
      MeetsSpan(parts.size, r, i);
    }
  }

  lemma MeetsSpan(size: nat, r: Range, i: nat)
    requires 0 <= r.begin < r.end <= size && Meets(r, Part(size, i))
    ensures PartOf(r.begin) <= i <= PartOf(r.end - 1)
  {
  }

  lemma ClippedConcat(a: seq<Range>, b: seq<Range>, size: nat, verified: seq<bool>, ranges: seq<Range>, r: Range)
    requires Clipped(a, size, verified, ranges) && Clipped(b, size, verified, [r])
    ensures Clipped(a + b, size, verified, ranges + [r])
  {
  }

  lemma ClippedMirrors(pieces: seq<Range>, size: nat, verified: seq<bool>, ranges: seq<Range>)
    requires Coalesced(ranges) && Clipped(pieces, size, verified, ranges)
    ensures Mirrors(pieces, size, verified, Bytes(ranges))
  {
    forall i: nat, b, e |
      i < |verified| && !verified[i] && Part(size, i).begin <= b < e <= Part(size, i).end
      ensures CoveredBy(pieces, b, e) <==> Interval(b, e) <= Bytes(ranges)
    {
      var it := UpperBound(ranges, b);
      ContainsIsSubset(ranges, b, e, it);
      if CoveredBy(pieces, b, e) {
        PieceIsReceived(pieces, size, verified, ranges, b, e);
      }
      if Interval(b, e) <= Bytes(ranges) {
        assert Clip(size, ranges[it - 1], i) in pieces;
      }
    }
  }

  lemma PieceIsReceived(pieces: seq<Range>, size: nat, verified: seq<bool>, ranges: seq<Range>, b: int, e: int)
    requires Clipped(pieces, size, verified, ranges) && CoveredBy(pieces, b, e)
    ensures Interval(b, e) <= Bytes(ranges)
  {
    var c :| c in pieces && c.begin <= b && e <= c.end;
    var r, j: nat :| r in ranges && j < |verified| && !verified[j] && c == Clip(size, r, j);
    var k :| 0 <= k < |ranges| && ranges[k] == r;
    forall x | x in Interval(b, e) ensures x in Bytes(ranges) {
      assert x in Interval(ranges[k].begin, ranges[k].end);
    }
  }

  // ---------------------------------------------------------------------------
  // Save
  // ---------------------------------------------------------------------------

  /** The row of an unverified part says of each of its cells whether it is covered. */
  ghost predicate RowFor(record: Record, row: Row) {
    && 0 <= row.index < |record.parts|
    && !record.parts[row.index]
    && row.length == Part(record.size, row.index).end - Part(record.size, row.index).begin
    && forall block: nat ::
         BitAt(row.bits, block) <==> block < CellCount(row.length) && CellCovered(record, row.index, block)
  }

  predicate CellCovered(record: Record, index: nat, block: nat) {
    CoveredBy(record.received, Cell(record.size, index, block).begin, Cell(record.size, index, block).end)
  }

  ghost predicate RowsFor(record: Record, rows: seq<Row>, n: nat) {
    && (forall k :: 0 <= k < |rows| ==> RowFor(record, rows[k]) && rows[k].index < n)
    && (forall k, l :: 0 <= k < l < |rows| ==> rows[k].index < rows[l].index)
    && (forall i, block: nat ::
          0 <= i < n && i < |record.parts| && !record.parts[i]
          && block < CellCount(Part(record.size, i).end - Part(record.size, i).begin)
          && CellCovered(record, i, block) ==>
          exists k :: 0 <= k < |rows| && rows[k].index == i)
  }

  method Save(record: Record) returns (stored: Stored)
    requires |record.parts| == PartCount(record.size)
    ensures stored.size == record.size && Packs(stored.bitfield, record.parts)
    ensures RowsFor(record, stored.rows, |record.parts|)
  {
    var bitfield := PackBits(record.parts);
    var rows := [];
    for index := 0 to |record.parts|
      invariant RowsFor(record, rows, index)
    {
      if record.parts[index] {
        continue;
      }
      PartShape(record.size, index);
      var begin := index * PIECE_LENGTH;
      var length := Min(PIECE_LENGTH, record.size - begin);
      var blocks, any := CellBits(record, index, length);
      if !any {
        continue;
      }
      var bits := PackBits(blocks);
      var row := Row(index, length, bits);
      assert RowFor(record, row);
      ghost var before := rows;
      rows := rows + [row];
      assert rows[|before|].index == index;
      assert forall i :: 0 <= i < |before| ==> rows[i] == before[i];
    }
    stored := Stored(record.size, bitfield, rows);
  }

  /** The inner loop: which cells of a part are covered, and whether any is. */
  method CellBits(record: Record, index: nat, length: nat) returns (blocks: seq<bool>, any: bool)
    requires length == Part(record.size, index).end - Part(record.size, index).begin
    ensures |blocks| == CellCount(length)
    ensures forall b :: 0 <= b < |blocks| ==> (blocks[b] <==> CellCovered(record, index, b))
    ensures any <==> exists b :: 0 <= b < |blocks| && blocks[b]
  {
    blocks, any := seq(CellCount(length), _ => false), false;
    for block := 0 to |blocks|
      invariant |blocks| == CellCount(length)
      invariant forall b :: 0 <= b < block ==> (blocks[b] <==> CellCovered(record, index, b))
      invariant any ==> exists b :: 0 <= b < block && blocks[b]
      invariant !any ==> forall b :: 0 <= b < block ==> !blocks[b]
    {
      var cell := Cell(record.size, index, block);
      var hit := Covered(record.received, cell.begin, cell.end);
      ghost var before := blocks;
      blocks := blocks[block := hit];
      assert blocks[block] == hit && forall b :: 0 <= b < block ==> blocks[b] == before[b];
      if any {
        ghost var b :| 0 <= b < block && before[b];
        assert blocks[b];
      }
      any := any || hit;
    }
  }

  // ---------------------------------------------------------------------------
  // Load
  // ---------------------------------------------------------------------------

  /** Rows outside the file or without length are skipped. */
  predicate RowUsable(size: nat, row: Row) {
    row.index >= 0 && row.index * PIECE_LENGTH < size && row.length > 0
  }

  function RowCell(row: Row, block: nat): Range {
    var first := row.index * PIECE_LENGTH + block * CELL_LENGTH;
    Range(first, Min(first + CELL_LENGTH, row.index * PIECE_LENGTH + row.length))
  }

  /** Bytes of the first `n` cells of a row whose bit is set. */
  ghost function RowBytes(size: nat, row: Row, n: nat): set<int> {
    set b, x | 0 <= b < n && RowUsable(size, row) && BitAt(row.bits, b)
               && x in Interval(RowCell(row, b).begin, RowCell(row, b).end) :: x
  }

  ghost function RowsBytes(size: nat, rows: seq<Row>): set<int> {
    if rows == [] then {}
    else
      var last := rows[|rows| - 1];
      RowsBytes(size, rows[..|rows| - 1]) + RowBytes(size, last, CellCount(last.length))
  }

  /** Rows as `Save` writes them: ascending, each inside its own part. */
  ghost predicate Orderly(rows: seq<Row>) {
    && (forall k :: 0 <= k < |rows| ==> 0 <= rows[k].index && 0 < rows[k].length <= PIECE_LENGTH)
    && (forall k, l :: 0 <= k < l < |rows| ==> rows[k].index < rows[l].index)
  }

  /** Appends a range, growing the last one when it ends where the new one begins. */
  function Merge(list: seq<Range>, r: Range): seq<Range> {
    if list != [] && list[|list| - 1].end == r.begin then
      list[..|list| - 1] + [Range(list[|list| - 1].begin, r.end)]
    else
      list + [r]
  }

  lemma MergeBytes(list: seq<Range>, r: Range)
    requires r.begin <= r.end && (list != [] ==> list[|list| - 1].begin <= list[|list| - 1].end)
    ensures Bytes(Merge(list, r)) == Bytes(list) + Interval(r.begin, r.end)
  {
    SingletonBytes(r);
    if list != [] && list[|list| - 1].end == r.begin {
      var init, last := list[..|list| - 1], list[|list| - 1];
      assert list == init + [last];
      SplitBytes(init, [last]);
      SplitBytes(init, [Range(last.begin, r.end)]);
      SingletonBytes(last);
      SingletonBytes(Range(last.begin, r.end));
      assert Interval(last.begin, r.end) == Interval(last.begin, last.end) + Interval(r.begin, r.end);
    } else {
      SplitBytes(list, [r]);
    }
  }

  lemma RowBytesStep(size: nat, row: Row, block: nat)
    requires RowUsable(size, row)
    ensures RowBytes(size, row, block + 1) ==
            RowBytes(size, row, block)
            + if BitAt(row.bits, block) then Interval(RowCell(row, block).begin, RowCell(row, block).end) else {}
  {
  }

  /** What loading has built so far; orderly rows give a coalesced list ending at or before `reached`. */
  ghost predicate Loaded(list: seq<Range>, bytes: set<int>, orderly: bool, reached: int) {
    && Bytes(list) == bytes
    && (list != [] ==> list[|list| - 1].begin < list[|list| - 1].end)
    && (orderly ==> Coalesced(list) && (list != [] ==> list[|list| - 1].end <= reached))
  }

  lemma LoadStep(list: seq<Range>, bytes: set<int>, orderly: bool, reached: int, r: Range)
    requires Loaded(list, bytes, orderly, reached) && r.begin < r.end && reached <= r.begin
    ensures Loaded(Merge(list, r), bytes + Interval(r.begin, r.end), orderly, r.end)
  {
    MergeBytes(list, r);
  }

  method Load(stored: Stored) returns (record: Record)
    ensures record.size == stored.size
    ensures |record.parts| == PartCount(stored.size)
    ensures forall i :: 0 <= i < |record.parts| ==> (record.parts[i] <==> BitAt(stored.bitfield, i))
    ensures Bytes(record.received) == RowsBytes(stored.size, stored.rows)
    ensures Orderly(stored.rows) ==> Coalesced(record.received)
  {
    var bits := UnpackBits(stored.bitfield, PartCount(stored.size));
    var received := [];
    var rows := stored.rows;
    ghost var orderly := Orderly(rows);
    for k := 0 to |rows|
      invariant Loaded(received, RowsBytes(stored.size, rows[..k]), orderly,
                       if k == 0 then 0 else (rows[k - 1].index + 1) * PIECE_LENGTH)
    {
      var row := rows[k];
      assert rows[..k + 1][..k] == rows[..k];
      if RowUsable(stored.size, row) {
        received := LoadRow(stored.size, row, received, RowsBytes(stored.size, rows[..k]), orderly);
      } else {
        assert RowBytes(stored.size, row, CellCount(row.length)) == {};
      }
    }
    assert rows[..|rows|] == rows;
    record := Record(stored.size, bits, received);
  }

  /** The first `n` cells of a row are loaded. */
  ghost predicate RowLoaded(size: nat, row: Row, n: nat, list: seq<Range>, bytes: set<int>, orderly: bool) {
    Loaded(list, bytes + RowBytes(size, row, n), orderly, row.index * PIECE_LENGTH + Min(n * CELL_LENGTH, row.length))
  }

  lemma RowBegun(size: nat, row: Row, list: seq<Range>, bytes: set<int>, orderly: bool)
    requires RowUsable(size, row) && Loaded(list, bytes, orderly, row.index * PIECE_LENGTH)
    ensures RowLoaded(size, row, 0, list, bytes, orderly)
  {
    assert bytes + RowBytes(size, row, 0) == bytes;
  }

  /** One cell further, appended when its bit is set. */
  lemma CellLoaded(size: nat, row: Row, block: nat, list: seq<Range>, bytes: set<int>, orderly: bool)
    requires RowUsable(size, row) && block < CellCount(row.length)
    requires RowLoaded(size, row, block, list, bytes, orderly)
    ensures RowLoaded(size, row, block + 1, if BitAt(row.bits, block) then Merge(list, RowCell(row, block)) else list,
                      bytes, orderly)
  {
    var r := RowCell(row, block);
    var before, after := bytes + RowBytes(size, row, block), bytes + RowBytes(size, row, block + 1);
    RowBytesStep(size, row, block);
    if BitAt(row.bits, block) {
      assert after == before + Interval(r.begin, r.end);
      LoadStep(list, before, orderly, r.begin, r);
    } else {
      assert after == before;
    }
  }

  /** The inner loop: appends the set cells of one row. */
  method LoadRow(size: nat, row: Row, list: seq<Range>, ghost bytes: set<int>, ghost orderly: bool)
    returns (received: seq<Range>)
    requires RowUsable(size, row) && (orderly ==> row.length <= PIECE_LENGTH)
    requires Loaded(list, bytes, orderly, row.index * PIECE_LENGTH)
    ensures Loaded(received, bytes + RowBytes(size, row, CellCount(row.length)), orderly,
                   (row.index + 1) * PIECE_LENGTH)
  {
    var blocks := UnpackBits(row.bits, CellCount(row.length));
    received := list;
    RowBegun(size, row, list, bytes, orderly);
    for block := 0 to |blocks|
      invariant RowLoaded(size, row, block, received, bytes, orderly)
    {
      CellLoaded(size, row, block, received, bytes, orderly);
      if blocks[block] {
        received := Merge(received, RowCell(row, block));
      }
    }
  }

  // ---------------------------------------------------------------------------
  // Reload
  // ---------------------------------------------------------------------------

  ghost function VerifiedBytes(size: nat, parts: seq<bool>, n: nat): set<int> {
    set x | 0 <= x < size && PartOf(x) < n && PartOf(x) < |parts| && parts[PartOf(x)]
  }

  /** The bytes known once the verified parts and the first `k` ranges are back. */
  ghost function Restored(record: Record, k: nat): set<int>
    requires k <= |record.received|
  {
    VerifiedBytes(record.size, record.parts, |record.parts|) + Bytes(record.received[..k]) * Interval(0, record.size)
  }

  /** A record as `Load` returns it for rows that `Save` wrote. */
  ghost predicate Tidy(record: Record) {
    && |record.parts| == PartCount(record.size)
    && Coalesced(record.received)
    && Bytes(record.received) <= Interval(0, record.size)
    && Bytes(record.received) !! VerifiedBytes(record.size, record.parts, |record.parts|)
  }

  /** Part `i` is the first unverified part that lies inside the range. */
  ghost predicate FirstInside(record: Record, r: Range, i: nat) {
    && Inside(record, r, i)
    && forall j: nat :: j < i ==> !Inside(record, r, j)
  }

  ghost predicate Inside(record: Record, r: Range, i: nat) {
    i < |record.parts| && !record.parts[i] && r.begin <= Part(record.size, i).begin && Part(record.size, i).end <= r.end
  }

  /**
   Rebuilds the part table. `queued` are the parts whose hash is checked next; of several
   adjacent parts that wait for their check only the first one is queued.
   */
  method Reload(record: Record) returns (parts: Parts, queued: seq<nat>)
    requires |record.parts| == PartCount(record.size)
    ensures parts.Valid() && fresh(parts) && parts.size == record.size && parts.verified == record.parts
    ensures parts.received.Contents() == VerifiedBytes(record.size, record.parts, |record.parts|)
                                         + Bytes(record.received) * Interval(0, record.size)
    ensures Tidy(record) ==> Queues(record, record.received, queued)
  {
    parts := RestoreVerified(record);
    queued := [];
    var list := record.received;
    ghost var size := record.size;
    for k := 0 to |list|
      invariant parts.Valid() && fresh(parts) && fresh(parts.received) && parts.size == size
      invariant parts.verified == record.parts
      invariant parts.received.Contents() == Restored(record, k)
      invariant Tidy(record) ==> Queues(record, list[..k], queued)
    {
      var filled := parts.Add(list[k].begin, list[k].end);
      RestoredStep(record, k);
      if Tidy(record) {
        RangeInFile(list, k, size);
        QueueStep(record, k, filled, queued);
      }
      if filled.Some? {
        queued := queued + [filled.value];
      }
    }
    assert list[..|list|] == list;
  }

  method RestoreVerified(record: Record) returns (parts: Parts)
    requires |record.parts| == PartCount(record.size)
    ensures parts.Valid() && fresh(parts) && fresh(parts.received)
    ensures parts.size == record.size && parts.verified == record.parts
    ensures parts.received.Contents() == VerifiedBytes(record.size, record.parts, |record.parts|)
  {
    parts := new Parts(record.size);
    for index := 0 to |record.parts|
      invariant parts.Valid() && fresh(parts) && fresh(parts.received) && parts.size == record.size
      invariant |parts.verified| == |record.parts|
      invariant forall i :: 0 <= i < |record.parts| ==> parts.verified[i] == (i < index && record.parts[i])
      invariant parts.received.Contents() == VerifiedBytes(record.size, record.parts, index)
    {
      VerifiedStep(record.size, record.parts, index);
      if record.parts[index] {
        parts.Verify(index);
      }
    }
  }

  /** The queue holds, for each range, the first unverified part inside it. */
  ghost predicate Queues(record: Record, list: seq<Range>, queued: seq<nat>) {
    forall i: nat :: i in queued <==> exists r :: r in list && FirstInside(record, r, i)
  }

  lemma RestoredStep(record: Record, k: nat)
    requires k < |record.received|
    ensures var r := record.received[k];
            Restored(record, k + 1) == Restored(record, k) + Interval(Max(r.begin, 0), Min(r.end, record.size))
  {
    ClampedStep(record.received, k, record.size);
  }

  lemma ClampedStep(list: seq<Range>, k: nat, size: nat)
    requires k < |list|
    ensures Bytes(list[..k + 1]) * Interval(0, size) ==
            Bytes(list[..k]) * Interval(0, size) + Interval(Max(list[k].begin, 0), Min(list[k].end, size))
  {
    PrefixStep(list, k);
    assert Interval(Max(list[k].begin, 0), Min(list[k].end, size)) ==
           Interval(list[k].begin, list[k].end) * Interval(0, size);
  }

  lemma VerifiedStep(size: nat, parts: seq<bool>, index: nat)
    requires index < |parts| == PartCount(size)
    ensures VerifiedBytes(size, parts, index + 1) ==
            VerifiedBytes(size, parts, index)
            + if parts[index] then Interval(Part(size, index).begin, Part(size, index).end) else {}
  {
  }

  /** Adding the next range of a tidy record reports the first part inside that range. */
  lemma QueueStep(record: Record, k: nat, filled: Option<nat>, queued: seq<nat>)
    requires Tidy(record) && k < |record.received| && Queues(record, record.received[..k], queued)
    requires var r := record.received[k];
             && 0 <= r.begin < r.end <= record.size
             && FirstFull(record.size, record.parts, Restored(record, k + 1),
                        PartOf(r.begin), PartOf(r.end - 1), filled)
    ensures Queues(record, record.received[..k + 1], if filled.Some? then queued + [filled.value] else queued)
  {
    var list, r := record.received, record.received[k];
    forall i: nat ensures filled == Some(i) <==> FirstInside(record, r, i) {
      ReportedIsFirst(record, k, filled, i);
    }
    assert list[..k + 1] == list[..k] + [r];
  }

  lemma ReportedIsFirst(record: Record, k: nat, filled: Option<nat>, i: nat)
    requires Tidy(record) && k < |record.received|
    requires var r := record.received[k];
             && 0 <= r.begin < r.end <= record.size
             && FirstFull(record.size, record.parts, Restored(record, k + 1),
                        PartOf(r.begin), PartOf(r.end - 1), filled)
    ensures filled == Some(i) <==> FirstInside(record, record.received[k], i)
  {
    var r := record.received[k];
    forall j: nat
      ensures Inside(record, r, j) <==>
              PartOf(r.begin) <= j <= PartOf(r.end - 1)
              && Unchecked(record.size, record.parts, Restored(record, k + 1), j)
    {
      InsideIsUnchecked(record, k, j);
    }
    if filled.Some? {
      assert Inside(record, r, filled.value);
    }
    if FirstInside(record, r, i) {
      assert Unchecked(record.size, record.parts, Restored(record, k + 1), i);
    }
  }

  lemma InsideIsUnchecked(record: Record, k: nat, j: nat)
    requires Tidy(record) && k < |record.received|
    requires 0 <= record.received[k].begin < record.received[k].end <= record.size
    ensures var r := record.received[k];
            Inside(record, r, j) <==>
            PartOf(r.begin) <= j <= PartOf(r.end - 1)
            && Unchecked(record.size, record.parts, Restored(record, k + 1), j)
  {
    var r, head, part := record.received[k], record.received[..k + 1], Part(record.size, j);
    var verifiedBytes := VerifiedBytes(record.size, record.parts, |record.parts|);
    if j < |record.parts| && !record.parts[j] {
      PartShape(record.size, j);
      forall x | x in Interval(part.begin, part.end) ensures x !in verifiedBytes && x in Interval(0, record.size) {
        PartPartition(record.size, x, j);
      }
      assert Interval(part.begin, part.end) <= verifiedBytes + Bytes(head) * Interval(0, record.size) <==>
             Interval(part.begin, part.end) <= Bytes(head);
      var it := UpperBound(head, part.begin);
      ContainsIsSubset(head, part.begin, part.end, it);
      if Interval(part.begin, part.end) <= Bytes(head) && PartOf(r.begin) <= j <= PartOf(r.end - 1) {
        // The one range that holds the part meets `r`, so it is `r`.
        assert it - 1 == k;
      }
      if Inside(record, r, j) {
        assert it == k + 1;
      }
    }
  }

  // ---------------------------------------------------------------------------
  // Checkpoint, save, load and reload together
  // ---------------------------------------------------------------------------

  /** What outlives a restart: verified parts, and cells received in full. */
  ghost predicate Survives(size: nat, verified: seq<bool>, received: set<int>, x: int) {
    && 0 <= x < size
    && PartOf(x) < |verified|
    && (verified[PartOf(x)] || CellBytes(size, x) <= received)
  }

  /**
   A restart keeps the verified parts and exactly the surviving bytes, and queues a part that
   waits for its hash check unless the part before it waits as well.
   */
  method Restart(parts: Parts) returns (again: Parts, queued: seq<nat>)
    requires parts.Valid()
    ensures again.Valid() && fresh(again) && again.size == parts.size && again.verified == parts.verified
    ensures forall x :: x in again.received.Contents() <==>
              Survives(parts.size, parts.verified, parts.received.Contents(), x)
    ensures forall i: nat :: i in queued <==>
              && Unchecked(parts.size, parts.verified, parts.received.Contents(), i)
              && !(i > 0 && Unchecked(parts.size, parts.verified, parts.received.Contents(), i - 1))
  {
    var record := Checkpoint(parts);
    var stored := Save(record);
    var loaded := Load(stored);
    ghost var size, verified, received := parts.size, parts.verified, parts.received.Contents();
    assert loaded.parts == verified;
    LoadedSurvivors(record, stored, received);
    assert SurvivingCells(loaded, received);
    again, queued := Reload(loaded);
    RestoredSurvivors(loaded, received);
    SurvivorsTidy(loaded, received);
    forall i: nat
      ensures i in queued <==>
              && Unchecked(size, verified, received, i)
              && !(i > 0 && Unchecked(size, verified, received, i - 1))
    {
      FirstOfRun(loaded, received, i);
    }
  }

  /** A restart never invents a byte, and loses only bytes of partly received cells. */
  lemma SurvivorsBound(size: nat, verified: seq<bool>, received: set<int>, x: int)
    requires |verified| == PartCount(size) && received <= Interval(0, size)
    requires forall i :: 0 <= i < |verified| && verified[i] ==> PartReceived(size, received, i)
    ensures Survives(size, verified, received, x) ==> x in received
    ensures x in received && !Survives(size, verified, received, x) ==>
              exists y :: y in CellBytes(size, x) && y !in received
  {
  }

  /** The loaded ranges are the fully received cells of the unverified parts. */
  ghost predicate SurvivingCells(record: Record, received: set<int>) {
    && |record.parts| == PartCount(record.size)
    && Coalesced(record.received)
    && forall x :: x in Bytes(record.received) <==>
         0 <= x < record.size && !record.parts[PartOf(x)] && CellBytes(record.size, x) <= received
  }

  lemma {:induction false} RowsBytesMember(size: nat, rows: seq<Row>, x: int)
    ensures x in RowsBytes(size, rows) <==>
            exists k :: 0 <= k < |rows| && x in RowBytes(size, rows[k], CellCount(rows[k].length))
  {
    if rows == [] {
    } else {
      var init, last := rows[..|rows| - 1], rows[|rows| - 1];
      RowsBytesMember(size, init, x);
      if x in RowsBytes(size, init) {
        var k :| 0 <= k < |init| && x in RowBytes(size, init[k], CellCount(init[k].length));
        assert rows[k] == init[k];
      }
      forall k | 0 <= k < |rows| && x in RowBytes(size, rows[k], CellCount(rows[k].length))
        ensures x in RowsBytes(size, rows)
      {
        if k < |init| {
          assert init[k] == rows[k];
        }
      }
    }
  }

  lemma LoadedSurvivors(record: Record, stored: Stored, received: set<int>)
    requires |record.parts| == PartCount(record.size) && stored.size == record.size
    requires Mirrors(record.received, record.size, record.parts, received)
    requires RowsFor(record, stored.rows, |record.parts|)
    ensures Orderly(stored.rows)
    ensures forall x :: x in RowsBytes(stored.size, stored.rows) <==>
              0 <= x < record.size && !record.parts[PartOf(x)] && CellBytes(record.size, x) <= received
  {
    forall x
      ensures x in RowsBytes(stored.size, stored.rows) <==>
              0 <= x < record.size && !record.parts[PartOf(x)] && CellBytes(record.size, x) <= received
    {
      RowsBytesMember(stored.size, stored.rows, x);
      forall k | 0 <= k < |stored.rows|
        ensures x in RowBytes(stored.size, stored.rows[k], CellCount(stored.rows[k].length)) <==>
                && 0 <= x < record.size && PartOf(x) == stored.rows[k].index
                && CellBytes(record.size, x) <= received
      {
        RowBytesSurvive(record, stored.rows[k], received, x);
      }
      if 0 <= x < record.size && !record.parts[PartOf(x)] && CellBytes(record.size, x) <= received {
        CellHasRow(record, stored.rows, received, x);
      }
    }
  }

  /** A row stands for the fully received cells of its part. */
  lemma RowBytesSurvive(record: Record, row: Row, received: set<int>, x: int)
    requires |record.parts| == PartCount(record.size)
    requires Mirrors(record.received, record.size, record.parts, received) && RowFor(record, row)
    ensures x in RowBytes(record.size, row, CellCount(row.length)) <==>
            0 <= x < record.size && PartOf(x) == row.index && CellBytes(record.size, x) <= received
  {
    if x in RowBytes(record.size, row, CellCount(row.length)) {
      RowByteIsReceived(record, row, received, x);
    }
    if 0 <= x < record.size && PartOf(x) == row.index {
      PartShape(record.size, row.index);
      CellPartition(record.size, x, PartOf(x), 0);
      RowBitSurvives(record, row, received, CellOf(x));
    }
  }

  lemma RowByteIsReceived(record: Record, row: Row, received: set<int>, x: int)
    requires |record.parts| == PartCount(record.size)
    requires Mirrors(record.received, record.size, record.parts, received) && RowFor(record, row)
    requires x in RowBytes(record.size, row, CellCount(row.length))
    ensures 0 <= x < record.size && PartOf(x) == row.index && CellBytes(record.size, x) <= received
  {
    var b: nat :| b < CellCount(row.length) && BitAt(row.bits, b)
                  && x in Interval(RowCell(row, b).begin, RowCell(row, b).end);
    PartShape(record.size, row.index);
    RowBitSurvives(record, row, received, b);
    CellPartition(record.size, x, row.index, b);
  }

  lemma RowBitSurvives(record: Record, row: Row, received: set<int>, b: nat)
    requires |record.parts| == PartCount(record.size)
    requires Mirrors(record.received, record.size, record.parts, received) && RowFor(record, row)
    requires b < CellCount(row.length)
    ensures RowUsable(record.size, row) && RowCell(row, b) == Cell(record.size, row.index, b)
    ensures BitAt(row.bits, b) <==>
            Interval(Cell(record.size, row.index, b).begin, Cell(record.size, row.index, b).end) <= received
  {
  }

  lemma CellHasRow(record: Record, rows: seq<Row>, received: set<int>, x: nat)
    requires |record.parts| == PartCount(record.size) && RowsFor(record, rows, |record.parts|)
    requires Mirrors(record.received, record.size, record.parts, received)
    requires x < record.size && PartOf(x) < |record.parts| && !record.parts[PartOf(x)]
    requires CellBytes(record.size, x) <= received
    ensures exists k :: 0 <= k < |rows| && rows[k].index == PartOf(x)
  {
    PartShape(record.size, PartOf(x));
    CellPartition(record.size, x, PartOf(x), 0);
    var cell := Cell(record.size, PartOf(x), CellOf(x));
    assert Part(record.size, PartOf(x)).begin <= cell.begin < cell.end <= Part(record.size, PartOf(x)).end;
    assert CellCovered(record, PartOf(x), CellOf(x));
  }

  lemma RestoredSurvivors(record: Record, received: set<int>)
    requires SurvivingCells(record, received)
    ensures forall x ::
              x in VerifiedBytes(record.size, record.parts, |record.parts|)
                   + Bytes(record.received) * Interval(0, record.size) <==>
              Survives(record.size, record.parts, received, x)
  {
  }

  lemma SurvivorsTidy(record: Record, received: set<int>)
    requires SurvivingCells(record, received)
    ensures Tidy(record)
  {
  }

  lemma FirstOfRun(record: Record, received: set<int>, i: nat)
    requires SurvivingCells(record, received) && Tidy(record)
    ensures (exists r :: r in record.received && FirstInside(record, r, i)) <==>
            && Unchecked(record.size, record.parts, received, i)
            && !(i > 0 && Unchecked(record.size, record.parts, received, i - 1))
  {
    InsideSomeRange(record, received, i);
    if i > 0 {
      InsideSomeRange(record, received, i - 1);
    }
    if r :| r in record.received && FirstInside(record, r, i) {
      if i > 0 {
        forall q | q in record.received && Inside(record, q, i - 1) ensures q == r {
          NeighboursShareRange(record, q, r, i);
        }
      }
    }
    if Unchecked(record.size, record.parts, received, i)
       && !(i > 0 && Unchecked(record.size, record.parts, received, i - 1)) {
      var r :| r in record.received && Inside(record, r, i);
      forall j: nat | j < i ensures !Inside(record, r, j) {
        if Inside(record, r, j) {
          PartBetween(record, r, j, i);
        }
      }
    }
  }

  /** A part waits for its check exactly when one loaded range holds all of it. */
  lemma InsideSomeRange(record: Record, received: set<int>, i: nat)
    requires SurvivingCells(record, received)
    ensures (exists r :: r in record.received && Inside(record, r, i)) <==>
            Unchecked(record.size, record.parts, received, i)
  {
    if i < |record.parts| && !record.parts[i] {
      PartShape(record.size, i);
      var part, list := Part(record.size, i), record.received;
      assert Interval(part.begin, part.end) <= Bytes(list) <==> Interval(part.begin, part.end) <= received by {
        forall x | x in Interval(part.begin, part.end)
          ensures PartOf(x) == i && x in CellBytes(record.size, x)
          ensures CellBytes(record.size, x) <= Interval(part.begin, part.end)
        {
          PartPartition(record.size, x, i);
          CellPartition(record.size, x, i, 0);
        }
      }
      var it := UpperBound(list, part.begin);
      ContainsIsSubset(list, part.begin, part.end, it);
      if r :| r in list && Inside(record, r, i) {
        var k :| 0 <= k < |list| && list[k] == r;
        forall x | x in Interval(part.begin, part.end) ensures x in Bytes(list) {
          assert x in Interval(list[k].begin, list[k].end);
        }
      }
      if Interval(part.begin, part.end) <= Bytes(list) {
        assert list[it - 1] in list && Inside(record, list[it - 1], i);
      }
    }
  }

  lemma NeighboursShareRange(record: Record, q: Range, r: Range, i: nat)
    requires Tidy(record) && i > 0
    requires q in record.received && r in record.received && Inside(record, q, i - 1) && Inside(record, r, i)
    ensures q == r
  {
  }

  /** A range over parts `j` and `i` holds the part before `i`, which is unverified like all it covers. */
  lemma PartBetween(record: Record, r: Range, j: nat, i: nat)
    requires Tidy(record) && r in record.received && j < i && Inside(record, r, j) && Inside(record, r, i)
    ensures Inside(record, r, i - 1)
  {
    var list := record.received;
    var k :| 0 <= k < |list| && list[k] == r;
    var x := Part(record.size, i - 1).begin;
    PartShape(record.size, i);
    PartShape(record.size, i - 1);
    assert x in Interval(list[k].begin, list[k].end);
    assert x in Bytes(list);
    PartPartition(record.size, x, i - 1);
  }
}
