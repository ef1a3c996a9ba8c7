/** 128-bit Kad ids, their word-wise XOR distance and the order it induces. */
module KadId {

  import opened Base

  import opened ByteStrings

  const HASH_LENGTH: nat := 16

  predicate ValidId(id: Bytes) {
    |id| == HASH_LENGTH
  }

  type Id = id: Bytes | ValidId(id) witness seq(HASH_LENGTH, _ => 0)

  /** Little-endian 32-bit word `k`, as the packet reader does it. */
  function Word(id: Id, k: nat): uint32
    requires k < 4
  {
    WordBound(id[4 * k..4 * k + 4]);
    ReadLE(id[4 * k..4 * k + 4])
  }

  lemma WordBound(data: Bytes)
    requires |data| == 4
    ensures ReadLE(data) < 0x1_0000_0000 == Power256(4) == Power2(32)
  {
    ReadBound(data);
    assert Power256(4) == 0x1_0000_0000;
    assert Power2(8) == 256 && Power2(16) == 0x1_0000 && Power2(24) == 0x100_0000 && Power2(32) == 0x1_0000_0000;
  }

  /** Word `k` of the XOR distance. */
  function DistanceWord(id: Id, target: Id, k: nat): nat
    requires k < 4
  {
    Xor(Word(id, k), Word(target, k), 32)
  }

  function Distance(id: Id, target: Id): (d: seq<nat>)
    ensures |d| == 4
  {
    seq(4, k requires 0 <= k < 4 => DistanceWord(id, target, k))
  }

  /** -1, 0 or 1 as the first different words, from word `k` on, are in order, absent or out of order. */
  function Compare(a: seq<nat>, b: seq<nat>, k: nat): int
    requires |a| == |b| && k <= |a|
    decreases |a| - k
  {
    if k == |a| then 0
    else if a[k] < b[k] then -1
    else if a[k] > b[k] then 1
    else Compare(a, b, k + 1)
  }

  /** The sign of the comparison of two distances; None when an argument is not a valid id. */
  method DistanceCompare(a: Bytes, b: Bytes, target: Bytes) returns (r: Option<int>)
    ensures r == if ValidId(a) && ValidId(b) && ValidId(target)
                 then Some(Compare(Distance(a, target), Distance(b, target), 0)) else None
  {
    if !ValidId(a) || !ValidId(b) || !ValidId(target) {
      return None;
    }
    r := CompareWords(a, b, target);
  }

  method CompareWords(a: Id, b: Id, target: Id) returns (r: Option<int>)
    ensures r == Some(Compare(Distance(a, target), Distance(b, target), 0))
  {
    ghost var x, y := Distance(a, target), Distance(b, target);
    var k := 0;
    while k < 4
      invariant 0 <= k <= 4 && Compare(x, y, k) == Compare(x, y, 0)
    {
      var da, db := DistanceWord(a, target, k), DistanceWord(b, target, k);
      assert x[k] == da && y[k] == db;
      if da < db {
        return Some(-1);
      }
      if da > db {
        return Some(1);
      }
      k := k + 1;
    }
    return Some(0);
  }

  /** `a` is strictly closer to the target than `b`. */
  predicate Closer(a: Id, b: Id, target: Id) {
    Compare(Distance(a, target), Distance(b, target), 0) < 0
  }

  // ---------------------------------------------------------------------------
  // Closeness is a strict total order on ids
  // ---------------------------------------------------------------------------

  lemma {:induction false} CompareMirrors(a: seq<nat>, b: seq<nat>, k: nat)
    requires |a| == |b| && k <= |a|
    ensures Compare(a, b, k) == -Compare(b, a, k)
    ensures Compare(a, b, k) == 0 ==> a[k..] == b[k..]
    decreases |a| - k
  {
    if k >= |a| {
    } else {
      CompareMirrors(a, b, k + 1);
      assert a[k..] == [a[k]] + a[k + 1..] && b[k..] == [b[k]] + b[k + 1..];
    }
  }

  lemma {:induction false} CompareTransitive(a: seq<nat>, b: seq<nat>, c: seq<nat>, k: nat)
    requires |a| == |b| == |c| && k <= |a| && Compare(a, b, k) <= 0 && Compare(b, c, k) <= 0
    ensures Compare(a, c, k) <= 0
    ensures Compare(a, c, k) == 0 ==> Compare(a, b, k) == 0 == Compare(b, c, k)
    decreases |a| - k
  {
    if k < |a| && a[k] == b[k] == c[k] {
      CompareTransitive(a, b, c, k + 1);
    }
  }

  lemma WordInjective(a: Id, b: Id, target: Id, k: nat)
    requires k < 4 && DistanceWord(a, target, k) == DistanceWord(b, target, k)
    ensures a[4 * k..4 * k + 4] == b[4 * k..4 * k + 4]
  {
    WordBound(a[4 * k..4 * k + 4]);
    WordBound(b[4 * k..4 * k + 4]);
    XorInjective(Word(a, k), Word(b, k), Word(target, k), 32);
    ReadInjective(a[4 * k..4 * k + 4], b[4 * k..4 * k + 4]);
  }

  /** Two ids at the same distance from one target are the same id. */
  lemma DistanceInjective(a: Id, b: Id, target: Id)
    requires Distance(a, target) == Distance(b, target)
    ensures a == b
  {
    forall k | 0 <= k < 4 ensures a[4 * k..4 * k + 4] == b[4 * k..4 * k + 4] {
      assert Distance(a, target)[k] == Distance(b, target)[k];
      WordInjective(a, b, target, k);
    }
    forall i | 0 <= i < HASH_LENGTH ensures a[i] == b[i] {
      var k := i / 4;
      assert a[i] == a[4 * k..4 * k + 4][i - 4 * k] && b[i] == b[4 * k..4 * k + 4][i - 4 * k];
    }
  }

  /** For any target exactly one of: `a` closer, the same id, `b` closer. */
  lemma CloserTotal(a: Id, b: Id, target: Id)
    ensures a == b <==> !Closer(a, b, target) && !Closer(b, a, target)
    ensures !(Closer(a, b, target) && Closer(b, a, target))
  {
    var x, y := Distance(a, target), Distance(b, target);
    CompareMirrors(x, y, 0);
    assert x[0..] == x && y[0..] == y;
    if x == y {
      DistanceInjective(a, b, target);
    }
  }

  lemma CloserTransitive(a: Id, b: Id, c: Id, target: Id)
    requires !Closer(b, a, target) && !Closer(c, b, target)
    ensures !Closer(c, a, target)
    ensures Closer(a, b, target) || Closer(b, c, target) ==> Closer(a, c, target)
  {
    var x, y, z := Distance(a, target), Distance(b, target), Distance(c, target);
    CompareMirrors(x, y, 0);
    CompareMirrors(y, z, 0);
    CompareMirrors(x, z, 0);
    CompareTransitive(x, y, z, 0);
  }

  /** The distance as one 128-bit number, most significant word first. */
  function Number(d: seq<nat>): nat
    requires |d| == 4
  {
    ((d[0] * 0x1_0000_0000 + d[1]) * 0x1_0000_0000 + d[2]) * 0x1_0000_0000 + d[3]
  }

  /** The word-wise comparison orders ids by the size of that number. */
  lemma CloserIsNumeric(a: Id, b: Id, target: Id)
    ensures Closer(a, b, target) <==> Number(Distance(a, target)) < Number(Distance(b, target))
  {
    DistanceBound(a, target);
    DistanceBound(b, target);
    CompareIsNumeric(Distance(a, target), Distance(b, target));
  }

  lemma DistanceBound(a: Id, target: Id)
    ensures forall k :: 0 <= k < 4 ==> Distance(a, target)[k] < 0x1_0000_0000
  {
    WordBound(a[0..4]);
    forall k | 0 <= k < 4 ensures Distance(a, target)[k] < 0x1_0000_0000 {
      assert Distance(a, target)[k] == DistanceWord(a, target, k);
    }
  }

  lemma CompareIsNumeric(x: seq<nat>, y: seq<nat>)
    requires |x| == |y| == 4 && forall k :: 0 <= k < 4 ==> x[k] < 0x1_0000_0000 && y[k] < 0x1_0000_0000
    ensures Compare(x, y, 0) < 0 <==> Number(x) < Number(y)
  {
    var p1, q1 := x[0] * 0x1_0000_0000 + x[1], y[0] * 0x1_0000_0000 + y[1];
    var p2, q2 := p1 * 0x1_0000_0000 + x[2], q1 * 0x1_0000_0000 + y[2];
    HigherWordsFirst(x[0], y[0], x[1], y[1]);
    HigherWordsFirst(p1, q1, x[2], y[2]);
    HigherWordsFirst(p2, q2, x[3], y[3]);
    assert Compare(x, y, 4) == 0;
    assert Compare(x, y, 3) == if x[3] < y[3] then -1 else if x[3] > y[3] then 1 else 0;
    assert Compare(x, y, 2) == if x[2] < y[2] then -1 else if x[2] > y[2] then 1 else Compare(x, y, 3);
    assert Compare(x, y, 1) == if x[1] < y[1] then -1 else if x[1] > y[1] then 1 else Compare(x, y, 2);
  }

  lemma HigherWordsFirst(p: nat, q: nat, u: nat, v: nat)
    requires u < 0x1_0000_0000 && v < 0x1_0000_0000
    ensures p * 0x1_0000_0000 + u < q * 0x1_0000_0000 + v <==> p < q || (p == q && u < v)
    ensures p * 0x1_0000_0000 + u == q * 0x1_0000_0000 + v <==> p == q && u == v
  {
  }
}
