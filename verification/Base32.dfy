/** Base32 as regrouping of bits, and the loops over a 32-bit buffer that do it. */
module Base32 {

  import opened Base
  import opened ByteStrings

  type Bits = seq<bool>

  // ---------------------------------------------------------------------------
  // Bits of a number, most significant first
  // ---------------------------------------------------------------------------

  function BitsOf(v: nat, n: nat): (r: Bits)
    ensures |r| == n
  {
    if n == 0 then [] else BitsOf(v / 2, n - 1) + [v % 2 == 1]
  }

  function Value(bits: Bits): nat {
    if bits == [] then 0 else 2 * Value(bits[..|bits| - 1]) + if bits[|bits| - 1] then 1 else 0
  }

  /** The number without its low `m` bits. */
  function Shift(v: nat, m: nat): nat {
    if m == 0 then v else Shift(v / 2, m - 1)
  }

  lemma {:induction false} ValueOfBits(v: nat, n: nat)
    requires v < Power2(n)
    ensures Value(BitsOf(v, n)) == v
  {
    if n == 0 {
    } else {
      ValueOfBits(v / 2, n - 1);
      assert BitsOf(v, n)[..n - 1] == BitsOf(v / 2, n - 1);
    }
  }

  lemma {:induction false} BitsOfValue(bits: Bits)
    ensures BitsOf(Value(bits), |bits|) == bits && Value(bits) < Power2(|bits|)
  {
    if bits == [] {
    } else {
      BitsOfValue(bits[..|bits| - 1]);
    }
  }

  /** The high bits, then the low bits. */
  lemma {:induction false} BitsSplit(v: nat, n: nat, m: nat)
    ensures BitsOf(v, n + m) == BitsOf(Shift(v, m), n) + BitsOf(v, m)
  {
    if m == 0 {
    } else {
      BitsSplit(v / 2, n, m - 1);
    }
  }

  lemma HalfSum(a: nat, x: nat, m: nat)
    requires m > 0
    ensures (a * Power2(m) + x) / 2 == a * Power2(m - 1) + x / 2 && (a * Power2(m) + x) % 2 == x % 2
  {
  }

  /** The low bits do not depend on what is above. */
  lemma {:induction false} BitsLow(a: nat, x: nat, m: nat, n: nat)
    requires n <= m
    ensures BitsOf(a * Power2(m) + x, n) == BitsOf(x, n)
  {
    if n == 0 {
    } else {
      HalfSum(a, x, m);
      BitsLow(a, x / 2, m - 1, n - 1);
    }
  }

  lemma {:induction false} ShiftSum(a: nat, x: nat, m: nat)
    requires x < Power2(m)
    ensures Shift(a * Power2(m) + x, m) == a
  {
    if m == 0 {
    } else {
      HalfSum(a, x, m);
      ShiftSum(a, x / 2, m - 1);
    }
  }

  lemma Words32()
    ensures Power2(5) == 32 && Power2(8) == 256 && Power2(32) == 0x1_0000_0000
  {
    assert Power2(16) == 0x1_0000 && Power2(24) == 0x100_0000;
  }

  /** Shifting a 32-bit buffer and adding low bits appends them; what it loses at the top is not looked at. */
  lemma ShiftIn(buffer: nat, held: nat, x: nat, m: nat)
    requires x < Power2(m) && held + m <= 32
    ensures BitsOf((buffer * Power2(m) + x) % 0x1_0000_0000, held + m) == BitsOf(buffer, held) + BitsOf(x, m)
  {
    var v := buffer * Power2(m) + x;
    Words32();
    BitsLow(v / 0x1_0000_0000, v % 0x1_0000_0000, 32, held + m);
    BitsSplit(v, held, m);
    ShiftSum(buffer, x, m);
    BitsLow(buffer, x, m, m);
  }

  /** Taking the top `m` of the bits leaves the others. */
  lemma TakeOut(buffer: nat, held: nat, m: nat, q: nat, x: nat)
    requires Shift(buffer, held) == q * Power2(m) + x
    ensures BitsOf(buffer, m + held) == BitsOf(x, m) + BitsOf(buffer, held)
  {
    BitsSplit(buffer, m, held);
    BitsLow(q, x, m, m);
  }

  // ---------------------------------------------------------------------------
  // Regrouping
  // ---------------------------------------------------------------------------

  /** The bits of numbers of `n` bits each. */
  function Spread(vs: seq<nat>, n: nat): Bits {
    if vs == [] then [] else BitsOf(vs[0], n) + Spread(vs[1..], n)
  }

  /** Numbers of `n` bits each; bits that are left over are dropped. */
  function Group(bits: Bits, n: nat): seq<nat>
    requires n > 0
  {
    if |bits| < n then [] else [Value(bits[..n])] + Group(bits[n..], n)
  }

  lemma {:induction false} SpreadAppend(vs: seq<nat>, v: nat, n: nat)
    ensures Spread(vs + [v], n) == Spread(vs, n) + BitsOf(v, n)
  {
    if vs == [] {
      assert [v][1..] == [];
    } else {
      SpreadAppend(vs[1..], v, n);
      assert (vs + [v])[1..] == vs[1..] + [v];
    }
  }

  lemma {:induction false} SpreadLength(vs: seq<nat>, n: nat)
    ensures |Spread(vs, n)| == n * |vs|
  {
    if vs == [] {
    } else {
      SpreadLength(vs[1..], n);
      assert n * |vs| == n + n * |vs[1..]|;
    }
  }

  /** Numbers survive spreading and grouping, with fewer bits than one number after them. */
  lemma {:induction false} GroupSpread(vs: seq<nat>, n: nat, rest: Bits)
    requires n > 0 && |rest| < n && forall i :: 0 <= i < |vs| ==> vs[i] < Power2(n)
    ensures Group(Spread(vs, n) + rest, n) == vs
  {
    if vs == [] {
      assert [] + rest == rest;
    } else {
      var first, others := BitsOf(vs[0], n), Spread(vs[1..], n);
      var bits := first + others + rest;
      assert bits[..n] == first && bits[n..] == others + rest;
      assert Spread(vs, n) + rest == bits;
      ValueOfBits(vs[0], n);
      GroupSpread(vs[1..], n, rest);
      assert vs == [vs[0]] + vs[1..];
    }
  }

  /** Bits survive grouping and spreading when nothing is left over. */
  lemma {:induction false} SpreadGroup(bits: Bits, n: nat, k: nat)
    requires n > 0 && |bits| == k * n
    ensures Spread(Group(bits, n), n) == bits
    decreases k
  {
    if k > 0 {
      assert |bits| == n + (k - 1) * n;
      SpreadGroup(bits[n..], n, k - 1);
      BitsOfValue(bits[..n]);
      var g := Group(bits, n);
      assert g[1..] == Group(bits[n..], n);
      assert bits == bits[..n] + bits[n..];
    } else {
      assert Group(bits, n) == [];
    }
  }

  // ---------------------------------------------------------------------------
  // The alphabet
  // ---------------------------------------------------------------------------

  /** A to Z, then 2 to 7. */
  function Letter(x: nat): byte
    requires x < 32
  {
    if x < 26 then 65 + x else 24 + x
  }

  /** The number a letter stands for, in either case. */
  function Index(c: byte): Option<nat> {
    if 65 <= c <= 90 then Some(c - 65)
    else if 97 <= c <= 122 then Some(c - 97)
    else if 50 <= c <= 55 then Some(c - 24)
    else None
  }

  function Letters(xs: seq<nat>): (r: Bytes)
    requires forall i :: 0 <= i < |xs| ==> xs[i] < 32
    ensures |r| == |xs| && forall i :: 0 <= i < |xs| ==> r[i] == Letter(xs[i])
  {
    if xs == [] then [] else Letters(xs[..|xs| - 1]) + [Letter(xs[|xs| - 1])]
  }

  function Indices(v: Bytes): (r: Option<seq<nat>>)
    ensures r.Some? ==> |r.value| == |v| && forall i :: 0 <= i < |v| ==> Index(v[i]) == Some(r.value[i])
    ensures r == None ==> exists i :: 0 <= i < |v| && Index(v[i]) == None
  {
    if v == [] then Some([])
    else match Indices(v[..|v| - 1])
      case None => None
      case Some(xs) => match Index(v[|v| - 1])
        case None => None
        case Some(x) => Some(xs + [x])
  }

  lemma IndexOfLetter(x: nat)
    requires x < 32
    ensures Index(Letter(x)) == Some(x)
  {
  }

  lemma IndicesOfLetters(xs: seq<nat>)
    requires forall i :: 0 <= i < |xs| ==> xs[i] < 32
    ensures Indices(Letters(xs)) == Some(xs)
  {
    var r := Indices(Letters(xs));
    forall i | 0 <= i < |xs| ensures Index(Letters(xs)[i]) == Some(xs[i]) {
      IndexOfLetter(xs[i]);
    }
    assert r.Some? && r.value == xs;
  }

  // ---------------------------------------------------------------------------
  // Encoding and decoding
  // ---------------------------------------------------------------------------

  lemma {:induction false} GroupBound(bits: Bits, n: nat)
    requires n > 0
    ensures forall i :: 0 <= i < |Group(bits, n)| ==> Group(bits, n)[i] < Power2(n)
  {
    if |bits| < n {
    } else {
      BitsOfValue(bits[..n]);
      GroupBound(bits[n..], n);
    }
  }

  /** The zero bits that fill the last letter. */
  function Padding(n: nat): (r: Bits)
    ensures |r| < 5 && (n + |r|) % 5 == 0 && forall i :: 0 <= i < |r| ==> !r[i]
  {
    seq((5 - n % 5) % 5, _ => false)
  }

  function Symbols(v: Bytes): (r: seq<nat>)
    ensures forall i :: 0 <= i < |r| ==> r[i] < 32
  {
    var bits := Spread(v, 8);
    var padded := bits + Padding(|bits|);
    GroupBound(padded, 5);
    Words32();
    Group(padded, 5)
  }

  function Encode(v: Bytes): Bytes {
    Letters(Symbols(v))
  }

  function Octets(xs: seq<nat>): Bytes {
    GroupBound(Spread(xs, 5), 8);
    Words32();
    Group(Spread(xs, 5), 8)
  }

  /** The bytes the letters stand for; None when one is not in the alphabet. */
  function Decode(v: Bytes): Option<Bytes> {
    match Indices(v)
    case None => None
    case Some(xs) => Some(Octets(xs))
  }

  lemma ByteBound(v: Bytes)
    ensures forall i :: 0 <= i < |v| ==> v[i] < Power2(8)
  {
  }

  /** Every byte string survives, whatever its length. */
  lemma RoundTrip(v: Bytes)
    ensures Decode(Encode(v)) == Some(v)
  {
    var bits := Spread(v, 8);
    var padding := Padding(|bits|);
    IndicesOfLetters(Symbols(v));
    SpreadGroup(bits + padding, 5, |bits + padding| / 5);
    ByteBound(v);
    GroupSpread(v, 8, padding);
  }

  /** Letters that differ only in case stand for the same bytes. */
  lemma CaseIgnored(v: Bytes, w: Bytes)
    requires |v| == |w| && forall i :: 0 <= i < |v| ==> v[i] == w[i] || (65 <= v[i] <= 90 && w[i] == v[i] + 32)
    ensures Decode(v) == Decode(w)
  {
    if Indices(v).Some? {
      IndicesAre(w, Indices(v).value);
    } else {
      var i :| 0 <= i < |v| && Index(v[i]) == None;
      NoIndices(w, i);
    }
  }

  lemma {:induction false} ZeroBits(n: nat)
    ensures forall i :: 0 <= i < n ==> !BitsOf(0, n)[i]
  {
    if n == 0 {
    } else {
      ZeroBits(n - 1);
    }
  }

  /** Symbols that spread to the padded bits are the symbols of the bytes. */
  lemma SymbolsAre(v: Bytes, xs: seq<nat>, bits: Bits)
    requires bits == Spread(v, 8) && Spread(xs, 5) == bits + Padding(|bits|)
    requires forall i :: 0 <= i < |xs| ==> xs[i] < 32
    ensures xs == Symbols(v)
  {
    Words32();
    GroupSpread(xs, 5, []);
    assert Spread(xs, 5) + [] == Spread(xs, 5);
  }

  lemma PaddingIs(bits: Bits, k: nat)
    requires k < 5 && (|bits| + k) % 5 == 0
    ensures bits + BitsOf(0, k) == bits + Padding(|bits|)
  {
    ZeroBits(k);
    var padding := Padding(|bits|);
    assert |padding| == k;
    assert BitsOf(0, k) == padding;
  }

  /** The numbers written so far and the bits still held are all bits so far. */
  ghost predicate Holds(xs: seq<nat>, n: nat, buffer: nat, held: nat, bits: Bits) {
    Spread(xs, n) + BitsOf(buffer, held) == bits
  }

  lemma PushHolds(xs: seq<nat>, n: nat, buffer: nat, held: nat, bits: Bits, x: nat, m: nat)
    requires Holds(xs, n, buffer, held, bits) && x < Power2(m) && held + m <= 32
    ensures Holds(xs, n, (buffer * Power2(m) + x) % 0x1_0000_0000, held + m, bits + BitsOf(x, m))
  {
    ShiftIn(buffer, held, x, m);
  }

  lemma PopHolds(xs: seq<nat>, n: nat, buffer: nat, held: nat, bits: Bits, q: nat, x: nat)
    requires Holds(xs, n, buffer, held + n, bits) && Shift(buffer, held) == q * Power2(n) + x
    ensures Holds(xs + [x], n, buffer, held, bits)
  {
    TakeOut(buffer, held, n, q, x);
    SpreadAppend(xs, x, n);
  }

  lemma PushByte(xs: seq<nat>, buffer: nat, held: nat, bits: Bits, x: byte)
    requires Holds(xs, 5, buffer, held, bits) && held < 5
    ensures Holds(xs, 5, (buffer * 256 + x) % 0x1_0000_0000, held + 8, bits + BitsOf(x, 8))
  {
    Words32();
    PushHolds(xs, 5, buffer, held, bits, x, 8);
  }

  ghost predicate Small(xs: seq<nat>) {
    forall k :: 0 <= k < |xs| ==> xs[k] < 32
  }

  lemma LettersAppend(xs: seq<nat>, x: nat)
    requires Small(xs) && x < 32
    ensures Small(xs + [x]) && Letters(xs + [x]) == Letters(xs) + [Letter(x)]
  {
  }

  /** Writes a letter for every five bits held. */
  method WriteLetters(before: Bytes, buffer: uint32, bitsHeld: nat, ghost symbols: seq<nat>, ghost bits: Bits)
    returns (r: Bytes, held: nat, ghost xs: seq<nat>)
    requires Small(symbols) && before == Letters(symbols) && Holds(symbols, 5, buffer, bitsHeld, bits)
    ensures Small(xs) && r == Letters(xs) && Holds(xs, 5, buffer, held, bits) && held < 5
  {
    r, held, xs := before, bitsHeld, symbols;
    while held >= 5
      invariant Small(xs) && r == Letters(xs) && Holds(xs, 5, buffer, held, bits)
    {
      held := held - 5;
      var top := Shift(buffer, held);
      Words32();
      PopHolds(xs, 5, buffer, held, bits, top / 32, top % 32);
      LettersAppend(xs, top % 32);
      r := r + [Letter(top % 32)];
      xs := xs + [top % 32];
    }
  }

  lemma NextByte(v: Bytes, i: nat)
    requires i < |v|
    ensures Spread(v[..i + 1], 8) == Spread(v[..i], 8) + BitsOf(v[i], 8)
  {
    SpreadAppend(v[..i], v[i], 8);
    assert v[..i + 1] == v[..i] + [v[i]];
  }

  /** Takes in one byte. */
  method AddByte(x: byte, before: Bytes, last: uint32, bitsHeld: nat, ghost symbols: seq<nat>, ghost bits: Bits)
    returns (r: Bytes, buffer: uint32, held: nat, ghost xs: seq<nat>)
    requires bitsHeld < 5 && Small(symbols) && before == Letters(symbols) && Holds(symbols, 5, last, bitsHeld, bits)
    ensures held < 5 && Small(xs) && r == Letters(xs) && Holds(xs, 5, buffer, held, bits + BitsOf(x, 8))
  {
    PushByte(symbols, last, bitsHeld, bits, x);
    buffer := (last * 256 + x) % 0x1_0000_0000;
    r, held, xs := WriteLetters(before, buffer, bitsHeld + 8, symbols, bits + BitsOf(x, 8));
  }

  method EncodeBytes(v: Bytes) returns (r: Bytes)
    ensures r == Encode(v)
  {
    r := [];
    var buffer: uint32, held := 0, 0;
    ghost var xs: seq<nat> := [];
    for i := 0 to |v|
      invariant held < 5 && Small(xs) && r == Letters(xs) && Holds(xs, 5, buffer, held, Spread(v[..i], 8))
    {
      r, buffer, held, xs := AddByte(v[i], r, buffer, held, xs, Spread(v[..i], 8));
      NextByte(v, i);
    }
    assert v[..|v|] == v;
    if held > 0 {
      var w: uint32 := (buffer * Power2(5 - held)) % 0x1_0000_0000;
      EndsInside(v, xs, buffer, held, w);
      r := r + [Letter(w % 32)];
    } else {
      EndsExactly(v, xs, buffer);
    }
  }

  lemma EndsExactly(v: Bytes, xs: seq<nat>, buffer: nat)
    requires Small(xs) && Holds(xs, 5, buffer, 0, Spread(v, 8))
    ensures Letters(xs) == Encode(v)
  {
    var bits := Spread(v, 8);
    assert bits == Spread(xs, 5);
    NoPadding(xs, bits);
    SymbolsAre(v, xs, bits);
  }

  lemma NoPadding(xs: seq<nat>, bits: Bits)
    requires bits == Spread(xs, 5)
    ensures bits + Padding(|bits|) == bits
  {
    SpreadLength(xs, 5);
  }

  lemma EndsInside(v: Bytes, xs: seq<nat>, buffer: nat, held: nat, w: nat)
    requires 0 < held < 5 && w == (buffer * Power2(5 - held)) % 0x1_0000_0000
    requires Small(xs) && Holds(xs, 5, buffer, held, Spread(v, 8))
    ensures Letters(xs) + [Letter(w % 32)] == Encode(v)
  {
    LastSymbol(xs, buffer, held, w, Spread(v, 8));
    LettersAppend(xs, w % 32);
    SymbolsAre(v, xs + [w % 32], Spread(v, 8));
  }

  lemma LastSymbol(xs: seq<nat>, buffer: nat, held: nat, w: nat, bits: Bits)
    requires 0 < held < 5 && w == (buffer * Power2(5 - held)) % 0x1_0000_0000 && Holds(xs, 5, buffer, held, bits)
    ensures Spread(xs + [w % 32], 5) == bits + Padding(|bits|)
  {
    PushHolds(xs, 5, buffer, held, bits, 0, 5 - held);
    LowFive(w);
    SpreadAppend(xs, w % 32, 5);
    PaddedLength(xs, buffer, held, bits);
    PaddingIs(bits, 5 - held);
  }

  lemma PaddedLength(xs: seq<nat>, buffer: nat, held: nat, bits: Bits)
    requires held < 5 && Holds(xs, 5, buffer, held, bits)
    ensures (|bits| + (5 - held)) % 5 == 0
  {
    SpreadLength(xs, 5);
  }

  lemma LowFive(w: nat)
    ensures BitsOf(w % 32, 5) == BitsOf(w, 5)
  {
    Words32();
    BitsLow(w / 32, w % 32, 5, 5);
  }

  /** Takes in the number of the next letter. */
  method AddLetter(before: Bytes, last: uint32, bitsHeld: nat, x: nat, ghost xs: seq<nat>)
    returns (out: Bytes, buffer: uint32, held: nat)
    requires x < 32 && bitsHeld < 8 && Holds(before, 8, last, bitsHeld, Spread(xs, 5))
    ensures held < 8 && Holds(out, 8, buffer, held, Spread(xs + [x], 5))
  {
    Words32();
    PushHolds(before, 8, last, bitsHeld, Spread(xs, 5), x, 5);
    SpreadAppend(xs, x, 5);
    buffer := (last * 32 + x) % 0x1_0000_0000;
    out, held := WriteOctet(before, buffer, bitsHeld + 5, Spread(xs + [x], 5));
  }

  method DecodeLetters(v: Bytes) returns (r: Option<Bytes>)
    ensures r == Decode(v)
  {
    var out: Bytes := [];
    var buffer: uint32, held := 0, 0;
    ghost var xs: seq<nat> := [];
    for i := 0 to |v|
      invariant held < 8 && Holds(out, 8, buffer, held, Spread(xs, 5))
      invariant |xs| == i && forall k :: 0 <= k < i ==> Index(v[k]) == Some(xs[k])
    {
      var index := Index(v[i]);
      if index == None {
        NoIndices(v, i);
        return None;
      }
      out, buffer, held := AddLetter(out, buffer, held, index.value, xs);
      xs := xs + [index.value];
    }
    DecodedAre(v, xs, out, buffer, held);
    return Some(out);
  }

  lemma DecodedAre(v: Bytes, xs: seq<nat>, out: Bytes, buffer: nat, held: nat)
    requires held < 8 && Holds(out, 8, buffer, held, Spread(xs, 5))
    requires |xs| == |v| && forall k :: 0 <= k < |v| ==> Index(v[k]) == Some(xs[k])
    ensures Decode(v) == Some(out)
  {
    IndicesAre(v, xs);
    OctetsAre(xs, out, BitsOf(buffer, held));
  }

  lemma OctetsAre(xs: seq<nat>, out: Bytes, rest: Bits)
    requires Spread(xs, 5) == Spread(out, 8) + rest && |rest| < 8
    ensures Octets(xs) == out
  {
    ByteBound(out);
    GroupSpread(out, 8, rest);
  }

  /** Writes a byte when eight bits are held. */
  method WriteOctet(before: Bytes, buffer: uint32, bitsHeld: nat, ghost bits: Bits) returns (out: Bytes, held: nat)
    requires bitsHeld < 16 && Holds(before, 8, buffer, bitsHeld, bits)
    ensures held < 8 && Holds(out, 8, buffer, held, bits)
  {
    out, held := before, bitsHeld;
    if held >= 8 {
      held := held - 8;
      var top := Shift(buffer, held);
      Words32();
      PopHolds(out, 8, buffer, held, bits, top / 256, top % 256);
      out := out + [top % 256];
    }
  }

  lemma NoIndices(v: Bytes, i: nat)
    requires i < |v| && Index(v[i]) == None
    ensures Indices(v) == None
  {
  }

  lemma IndicesAre(v: Bytes, xs: seq<nat>)
    requires |xs| == |v| && forall k :: 0 <= k < |v| ==> Index(v[k]) == Some(xs[k])
    ensures Indices(v) == Some(xs)
  {
    assert Indices(v).Some? && Indices(v).value == xs;
  }
}
