/** The buckets of a routing table: which distances each one holds, and an id drawn for one. */
module KadBuckets {

  import opened Base
  import opened ByteStrings
  import opened KadId

  /** Buckets for the part of the id space whose distance starts with one of four set bits. */
  const SPLIT_LEVELS: nat := 4
  const FAR_BUCKETS: nat := 15
  const BUCKET_COUNT: nat := FAR_BUCKETS + 128 - SPLIT_LEVELS

  ghost predicate Words(d: seq<nat>) {
    |d| == 4 && forall k :: 0 <= k < 4 ==> d[k] < 0x1_0000_0000
  }

  /** Position, from the bottom, of the highest set bit of a number of `n` bits. */
  function TopBit(x: nat, n: nat): (t: nat)
    requires 0 < x < Power2(n)
    ensures t < n && Power2(t) <= x < Power2(t + 1)
  {
    if x >= Power2(n - 1) then n - 1 else TopBit(x, n - 1)
  }

  /** The bucket of a distance whose words before `chunk` are zero. */
  function BucketFrom(d: seq<nat>, chunk: nat): (b: nat)
    requires Words(d) && chunk <= 4
    ensures b < BUCKET_COUNT
    decreases 4 - chunk
  {
    if chunk == 4 then BUCKET_COUNT - 1
    else if d[chunk] == 0 then BucketFrom(d, chunk + 1)
    else if chunk == 0 && d[0] / 0x1000_0000 != 0 then d[0] / 0x1000_0000 - 1
    else
      Powers();
      FAR_BUCKETS + 32 * chunk + 31 - TopBit(d[chunk], 32) - SPLIT_LEVELS
  }

  /** The bucket an id belongs to in the table of `self`. */
  function BucketOf(id: Id, self: Id): (b: nat)
    ensures b < BUCKET_COUNT
  {
    DistanceBound(id, self);
    BucketFrom(Distance(id, self), 0)
  }

  lemma Powers()
    ensures Power2(32) == 0x1_0000_0000 && Power2(28) == 0x1000_0000
  {
    assert Power2(8) == 256 && Power2(16) == 0x1_0000 && Power2(24) == 0x100_0000;
  }

  // ---------------------------------------------------------------------------
  // Buckets are ranges of distances
  // ---------------------------------------------------------------------------

  /** The smallest distance in the bucket. */
  function Low(b: nat): nat
    requires b < BUCKET_COUNT
  {
    if b < FAR_BUCKETS then (b + 1) * Power2(124)
    else if b == BUCKET_COUNT - 1 then 0
    else Power2(BUCKET_COUNT - 1 - b)
  }

  /** The smallest distance beyond the bucket. */
  function High(b: nat): nat
    requires b < BUCKET_COUNT
  {
    if b < FAR_BUCKETS then (b + 2) * Power2(124) else Power2(BUCKET_COUNT - b)
  }

  lemma {:induction false} PowerAdds(a: nat, b: nat)
    ensures Power2(a + b) == Power2(a) * Power2(b)
  {
    if a == 0 {
    } else {
      PowerAdds(a - 1, b);
      assert Power2(a + b) == 2 * Power2(a - 1 + b);
    }
  }

  lemma {:induction false} PowerGrows(a: nat, b: nat)
    requires a <= b
    ensures Power2(a) <= Power2(b)
    decreases b
  {
    if a >= b {
    } else {
      PowerGrows(a, b - 1);
    }
  }

  lemma LargePowers()
    ensures Power2(0) == 1 && Power2(32) == 0x1_0000_0000 && Power2(64) == 0x1_0000_0000_0000_0000
    ensures Power2(96) == 0x1_0000_0000_0000_0000_0000_0000
  {
    Powers();
    PowerAdds(32, 32);
    PowerAdds(64, 32);
  }

  lemma NumberParts(d: seq<nat>)
    requires |d| == 4
    ensures Number(d) == d[0] * 0x1_0000_0000_0000_0000_0000_0000
                      + d[1] * 0x1_0000_0000_0000_0000 + d[2] * 0x1_0000_0000 + d[3]
  {
  }

  /** With the words before `c` zero, word `c` alone places the number between two multiples. */
  lemma NumberBetween(d: seq<nat>, c: nat)
    requires Words(d) && c < 4 && forall k :: 0 <= k < c ==> d[k] == 0
    ensures d[c] * Power2(32 * (3 - c)) <= Number(d) < (d[c] + 1) * Power2(32 * (3 - c))
  {
    LargePowers();
    NumberParts(d);
    assert 32 * (3 - c) == if c == 0 then 96 else if c == 1 then 64 else if c == 2 then 32 else 0;
  }

  lemma Scaled(x: nat, y: nat, p: nat, n: nat)
    requires p > 0 && x * p <= n < (x + 1) * p
    ensures y <= x ==> y * p <= n
    ensures x < y ==> n < y * p
  {
  }

  lemma ZeroRange(d: seq<nat>)
    requires Words(d) && forall k :: 0 <= k < 4 ==> d[k] == 0
    ensures var b := BucketFrom(d, 4); Low(b) <= Number(d) < High(b)
  {
    assert Number(d) == 0;
  }

  lemma FarBucketRange(d: seq<nat>)
    requires Words(d) && d[0] / 0x1000_0000 != 0
    ensures var b := BucketFrom(d, 0); Low(b) <= Number(d) < High(b)
  {
    FarRange(d);
  }

  lemma {:induction false} BucketFromRange(d: seq<nat>, c: nat)
    requires Words(d) && c <= 4 && forall k :: 0 <= k < c ==> d[k] == 0
    ensures var b := BucketFrom(d, c); Low(b) <= Number(d) < High(b)
    decreases 4 - c
  {
    if c == 4 {
      ZeroRange(d);
    } else if d[c] == 0 {
      BucketFromRange(d, c + 1);
    } else if c == 0 && d[0] / 0x1000_0000 != 0 {
      FarBucketRange(d);
    } else {
      NearRange(d, c);
    }
  }

  const FAR_UNIT: nat := 0x1000_0000_0000_0000_0000_0000_0000_0000

  lemma FarUnit()
    ensures Power2(124) == FAR_UNIT
  {
    Powers();
    LargePowers();
    PowerAdds(28, 96);
  }

  lemma FarRange(d: seq<nat>)
    requires Words(d) && d[0] / 0x1000_0000 != 0
    ensures var x := d[0] / 0x1000_0000; x <= 15 && x * Power2(124) <= Number(d) < (x + 1) * Power2(124)
  {
    FarUnit();
    FarNumber(d);
  }

  lemma FarNumber(d: seq<nat>)
    requires Words(d)
    ensures var x := d[0] / 0x1000_0000; x * FAR_UNIT <= Number(d) < (x + 1) * FAR_UNIT
  {
  }

  lemma NearRange(d: seq<nat>, c: nat)
    requires Words(d) && c < 4 && d[c] != 0 && forall k :: 0 <= k < c ==> d[k] == 0
    requires c == 0 ==> d[0] / 0x1000_0000 == 0
    ensures var b := BucketFrom(d, c); FAR_BUCKETS <= b && Low(b) <= Number(d) < High(b)
  {
    Powers();
    var top, rest := TopBit(d[c], 32), 32 * (3 - c);
    if c == 0 {
      BelowFar(d[0], top);
    }
    NumberBetween(d, c);
    TopPlaces(d[c], top, rest, Number(d));
    assert BucketFrom(d, c) == BUCKET_COUNT - 1 - (top + rest);
  }

  lemma BelowFar(x: nat, top: nat)
    requires x < 0x1000_0000 && Power2(top) <= x
    ensures top < 28
  {
    Powers();
    if top >= 28 {
      PowerGrows(28, top);
    }
  }

  lemma TopPlaces(x: nat, top: nat, rest: nat, n: nat)
    requires Power2(top) <= x < Power2(top + 1)
    requires x * Power2(rest) <= n < (x + 1) * Power2(rest)
    ensures Power2(top + rest) <= n < Power2(top + rest + 1)
  {
    PowerAdds(top, rest);
    PowerAdds(top + 1, rest);
    Scaled(x, Power2(top), Power2(rest), n);
    Scaled(x, Power2(top + 1), Power2(rest), n);
  }

  /** No distance is in two buckets. */
  lemma RangesApart(a: nat, b: nat, n: nat)
    requires a < BUCKET_COUNT && b < BUCKET_COUNT && Low(a) <= n < High(a) && Low(b) <= n < High(b)
    ensures a == b
  {
    if a < b {
      RangesOrdered(a, b, n);
    } else if b < a {
      RangesOrdered(b, a, n);
    }
  }

  lemma RangesOrdered(a: nat, b: nat, n: nat)
    requires a < b < BUCKET_COUNT
    ensures !(Low(a) <= n < High(a) && Low(b) <= n < High(b))
  {
    if b < FAR_BUCKETS {
      Ordered(a + 2, b + 1, Power2(124));
    } else if a < FAR_BUCKETS {
      PowerGrows(BUCKET_COUNT - b, 124);
      Ordered(1, a + 1, Power2(124));
    } else {
      PowerGrows(BUCKET_COUNT - b, BUCKET_COUNT - 1 - a);
    }
  }

  lemma Ordered(x: nat, y: nat, p: nat)
    requires x <= y
    ensures x * p <= y * p
  {
  }

  /** The bucket of an id is the one whose range holds its distance, and the only one. */
  lemma BucketIsRange(id: Id, self: Id, b: nat)
    requires b < BUCKET_COUNT
    ensures BucketOf(id, self) == b <==> Low(b) <= Number(Distance(id, self)) < High(b)
  {
    var d := Distance(id, self);
    DistanceBound(id, self);
    BucketFromRange(d, 0);
    if Low(b) <= Number(d) < High(b) {
      RangesApart(b, BucketFrom(d, 0), Number(d));
    }
  }

  // ---------------------------------------------------------------------------
  // Finding the bucket
  // ---------------------------------------------------------------------------

  /** Whether the bit at this position from the bottom is set. */
  predicate BitSet(x: nat, bit: nat) {
    x / Power2(bit) % 2 == 1
  }

  lemma BitSetIsTop(x: nat, bit: nat)
    requires x < Power2(bit + 1)
    ensures BitSet(x, bit) <==> x >= Power2(bit)
  {
    var p := Power2(bit);
    QuotientIs(x, p, if x >= p then 1 else 0);
  }

  lemma QuotientIs(x: nat, p: nat, q: nat)
    requires p > 0 && q * p <= x < (q + 1) * p
    ensures x / p == q
  {
    var k := x / p;
    assert k * p <= x < (k + 1) * p;
    if k < q {
      Ordered(k + 1, q, p);
    } else if q < k {
      Ordered(q + 1, k, p);
    }
  }

  method TestBit(x: nat, bit: nat) returns (isSet: bool)
    requires x < Power2(bit + 1)
    ensures isSet <==> x >= Power2(bit)
  {
    BitSetIsTop(x, bit);
    isSet := BitSet(x, bit);
  }

  /** The position of the highest set bit, counted from the top, found by trying each in turn. */
  method LeadingBit(x: nat, width: nat) returns (bit: nat)
    requires 0 < x < Power2(width)
    ensures bit == width - 1 - TopBit(x, width)
  {
    bit := 0;
    ghost var n := width;
    while true
      invariant n >= 0 && bit + n == width && x < Power2(n) && TopBit(x, n) == TopBit(x, width)
      decreases n
    {
      var isSet := TestBit(x, width - 1 - bit);
      if isSet {
        return;
      }
      bit, n := bit + 1, n - 1;
    }
  }

  method BucketIndex(id: Id, self: Id) returns (b: nat)
    ensures b == BucketOf(id, self)
  {
    ghost var d := Distance(id, self);
    DistanceBound(id, self);
    Powers();
    var chunk := 0;
    while chunk < 4
      invariant 0 <= chunk <= 4 && BucketFrom(d, chunk) == BucketFrom(d, 0)
    {
      var x := Xor(Word(self, chunk), Word(id, chunk), 32);
      XorCommutes(Word(self, chunk), Word(id, chunk), 32);
      assert x == d[chunk];
      if x != 0 {
        if chunk == 0 && x / 0x1000_0000 != 0 {
          return x / 0x1000_0000 - 1;
        }
        var bit := LeadingBit(x, 32);
        return FAR_BUCKETS + chunk * 32 + bit - SPLIT_LEVELS;
      }
      chunk := chunk + 1;
    }
    return BUCKET_COUNT - 1;
  }

  // ---------------------------------------------------------------------------
  // An id for a bucket
  // ---------------------------------------------------------------------------

  lemma {:induction false} SkipZeros(d: seq<nat>, c: nat)
    requires Words(d) && c <= 4 && forall k :: 0 <= k < c ==> d[k] == 0
    ensures BucketFrom(d, 0) == BucketFrom(d, c)
  {
  }

  lemma {:induction false} TopBitIs(x: nat, n: nat, t: nat)
    requires 0 < x < Power2(n) && Power2(t) <= x < Power2(t + 1)
    ensures TopBit(x, n) == t
  {
    var r := TopBit(x, n);
    if r < t {
      PowerGrows(r + 1, t);
    } else if t < r {
      PowerGrows(t + 1, r);
    }
  }

  /** Words that start with zeros and one set bit are a distance in the bucket of that prefix. */
  lemma PrefixBucket(d: seq<nat>, c: nat, top: nat, index: nat)
    requires Words(d) && c < 4 && top < 32 && forall k :: 0 <= k < c ==> d[k] == 0
    requires Power2(top) <= d[c] < Power2(top + 1)
    requires FAR_BUCKETS <= index == FAR_BUCKETS + 32 * c + 31 - top - SPLIT_LEVELS
    ensures BucketFrom(d, 0) == index
  {
    Powers();
    SkipZeros(d, c);
    TopBitIs(d[c], 32, top);
    if c == 0 {
      PowerGrows(top + 1, 28);
    }
  }

  lemma FarBucket(d: seq<nat>, index: nat, low: nat)
    requires Words(d) && index < FAR_BUCKETS && low < 0x1000_0000 && d[0] == (index + 1) * 0x1000_0000 + low
    ensures BucketFrom(d, 0) == index
  {
  }

  /** A random distance inside a bucket: a fixed prefix up to the bucket's top bit, random bits below. */
  method DrawDistance(index: nat, random: seq<uint32>) returns (words: seq<uint32>)
    requires index < BUCKET_COUNT && |random| == 4
    ensures Words(words) && BucketFrom(words, 0) == index
  {
    words := random;
    if index < FAR_BUCKETS {
      var low := words[0] / 16;
      words := words[0 := (index + 1) * 0x1000_0000 + low];
      FarBucket(words, index, low);
    } else {
      var prefix := Min(index - FAR_BUCKETS + SPLIT_LEVELS, 127);
      var chunk := 0;
      while chunk < prefix / 32
        invariant 0 <= chunk <= prefix / 32 && |words| == 4
        invariant forall k :: 0 <= k < chunk ==> words[k] == 0
      {
        words := words[chunk := 0];
        chunk := chunk + 1;
      }
      var c, top := prefix / 32, 31 - prefix % 32;
      var word := WithTopBit(words[c], top);
      words := words[c := word];
      PrefixBucket(words, c, top, index);
    }
  }

  /** The word with the bit at `top` set and every higher bit cleared. */
  method WithTopBit(word: uint32, top: nat) returns (r: uint32)
    requires top < 32
    ensures Power2(top) <= r < Power2(top + 1)
  {
    var bit := Power2(top);
    Powers();
    PowerGrows(top + 1, 32);
    r := bit + word % bit;
  }

  function WithWord(id: Id, k: nat, v: uint32): Id
    requires k < 4
  {
    id[..4 * k] + PackLE(v, 4) + id[4 * k + 4..]
  }

  /** Word `k` replaced, the others kept. */
  lemma ReplaceWord(id: Id, k: nat, v: uint32)
    requires k < 4
    ensures var r := WithWord(id, k, v);
            Word(r, k) == v && forall j :: 0 <= j < 4 && j != k ==> Word(r, j) == Word(id, j)
  {
    var r := WithWord(id, k, v);
    assert r[4 * k..4 * k + 4] == PackLE(v, 4);
    assert Power256(4) == 0x1_0000_0000;
    PackRoundTrip(v, 4);
    forall j | 0 <= j < 4 && j != k ensures Word(r, j) == Word(id, j) {
      assert r[4 * j..4 * j + 4] == id[4 * j..4 * j + 4];
    }
  }

  /** An id of the bucket, for any random words: the lookup that refreshes a bucket aims at it. */
  method RandomIdIn(index: nat, self: Id, random: seq<uint32>) returns (id: Id)
    requires index < BUCKET_COUNT && |random| == 4
    ensures BucketOf(id, self) == index
  {
    var words := DrawDistance(index, random);
    id := self;
    var k := 0;
    while k < 4
      invariant 0 <= k <= 4
      invariant forall j :: 0 <= j < k ==> Word(id, j) == Xor(Word(self, j), words[j], 32)
      invariant forall j :: k <= j < 4 ==> Word(id, j) == Word(self, j)
    {
      Powers();
      var v: uint32 := Xor(Word(id, k), words[k], 32);
      ReplaceWord(id, k, v);
      id := WithWord(id, k, v);
      k := k + 1;
    }
    AtDistance(id, self, words);
  }

  lemma AtDistance(id: Id, self: Id, words: seq<nat>)
    requires Words(words) && forall k :: 0 <= k < 4 ==> Word(id, k) == Xor(Word(self, k), words[k], 32)
    ensures Distance(id, self) == words
  {
    Powers();
    forall k | 0 <= k < 4 ensures Distance(id, self)[k] == words[k] {
      XorCommutes(Word(self, k), words[k], 32);
      XorInvolution(words[k], Word(self, k), 32);
    }
  }
}
