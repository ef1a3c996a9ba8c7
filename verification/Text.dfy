/** Text as bytes: splitting, percent-encoding, hexadecimal and decimal. */
module Text {

  import opened Base
  import opened ByteStrings

  // ---------------------------------------------------------------------------
  // Hexadecimal digits
  // ---------------------------------------------------------------------------

  function HexValue(c: byte): int {
    if 48 <= c <= 57 then c - 48
    else if 97 <= c <= 102 then c - 87
    else if 65 <= c <= 70 then c - 55
    else -1
  }

  function LowerDigit(n: nat): byte
    requires n < 16
  {
    if n < 10 then 48 + n else 87 + n
  }

  function UpperDigit(n: nat): byte
    requires n < 16
  {
    if n < 10 then 48 + n else 55 + n
  }

  function ToHex(v: Bytes): Bytes {
    if v == [] then [] else [LowerDigit(v[0] / 16), LowerDigit(v[0] % 16)] + ToHex(v[1..])
  }

  function FromHex(h: Bytes): Option<Bytes> {
    if h == [] then Some([])
    else if |h| == 1 || HexValue(h[0]) < 0 || HexValue(h[1]) < 0 then None
    else match FromHex(h[2..])
      case None => None
      case Some(rest) => Some([16 * HexValue(h[0]) + HexValue(h[1])] + rest)
  }

  lemma {:induction false} HexRoundTrip(v: Bytes)
    ensures FromHex(ToHex(v)) == Some(v) && |ToHex(v)| == 2 * |v|
  {
    if v == [] {
    } else {
      HexRoundTrip(v[1..]);
      var h := ToHex(v);
      assert h[2..] == ToHex(v[1..]) && h[0] == LowerDigit(v[0] / 16) && h[1] == LowerDigit(v[0] % 16);
      assert v == [v[0]] + v[1..];
    }
  }

  lemma {:induction false} FromHexLength(h: Bytes)
    ensures FromHex(h).Some? ==> 2 * |FromHex(h).value| == |h|
  {
    if |h| < 2 {
    } else {
      FromHexLength(h[2..]);
    }
  }

  /** Hexadecimal text has none of the separators. */
  predicate Alphanumeric(c: byte) {
    48 <= c <= 57 || 65 <= c <= 90 || 97 <= c <= 122
  }

  lemma {:induction false} HexAlphanumeric(v: Bytes)
    ensures forall i :: 0 <= i < |ToHex(v)| ==> Alphanumeric(ToHex(v)[i])
  {
    if v == [] {
    } else {
      HexAlphanumeric(v[1..]);
    }
  }

  // ---------------------------------------------------------------------------
  // Percent-encoding
  // ---------------------------------------------------------------------------

  /** Letters, digits and - . _ ~ stand for themselves. */
  predicate Unreserved(c: byte) {
    Alphanumeric(c) || c == 45 || c == 46 || c == 95 || c == 126
  }

  const PERCENT: byte := 37

  function PercentEncode(v: Bytes): Bytes {
    if v == [] then []
    else (if Unreserved(v[0]) then [v[0]] else [PERCENT, UpperDigit(v[0] / 16), UpperDigit(v[0] % 16)])
         + PercentEncode(v[1..])
  }

  predicate Escaped(v: Bytes) {
    |v| > 2 && v[0] == PERCENT && HexValue(v[1]) >= 0 && HexValue(v[2]) >= 0
  }

  function PercentDecode(v: Bytes): (r: Bytes)
    ensures v != [] ==> r != []
  {
    if v == [] then []
    else if Escaped(v) then [16 * HexValue(v[1]) + HexValue(v[2])] + PercentDecode(v[3..])
    else [v[0]] + PercentDecode(v[1..])
  }

  lemma {:induction false} PercentRoundTrip(v: Bytes)
    ensures PercentDecode(PercentEncode(v)) == v
  {
    if v == [] {
    } else {
      PercentRoundTrip(v[1..]);
      var e := PercentEncode(v);
      if Unreserved(v[0]) {
        assert e[0] == v[0] && e[1..] == PercentEncode(v[1..]);
      } else {
        assert e[3..] == PercentEncode(v[1..]);
      }
    }
  }

  lemma {:induction false} PercentChars(v: Bytes)
    ensures var e := PercentEncode(v); |e| >= |v| && forall i :: 0 <= i < |e| ==> Unreserved(e[i]) || e[i] == PERCENT
  {
    if v == [] {
    } else {
      PercentChars(v[1..]);
    }
  }

  lemma DecodeStep(v: Bytes, i: nat)
    requires i < |v|
    ensures PercentDecode(v[i..]) ==
            if v[i] == PERCENT && i + 2 < |v| && HexValue(v[i + 1]) >= 0 && HexValue(v[i + 2]) >= 0
            then [16 * HexValue(v[i + 1]) + HexValue(v[i + 2])] + PercentDecode(v[i + 3..])
            else [v[i]] + PercentDecode(v[i + 1..])
  {
  }

  lemma Regroup<T>(a: seq<T>, b: seq<T>, c: seq<T>)
    ensures a + (b + c) == a + b + c
  {
  }

  method DecodePercent(v: Bytes) returns (r: Bytes)
    ensures r == PercentDecode(v)
  {
    r := [];
    var i := 0;
    assert v[0..] == v;
    while i < |v|
      invariant 0 <= i <= |v| && r + PercentDecode(v[i..]) == PercentDecode(v)
    {
      DecodeStep(v, i);
      if v[i] == PERCENT && i + 2 < |v| && HexValue(v[i + 1]) >= 0 && HexValue(v[i + 2]) >= 0 {
        Regroup(r, [16 * HexValue(v[i + 1]) + HexValue(v[i + 2])], PercentDecode(v[i + 3..]));
        r := r + [16 * HexValue(v[i + 1]) + HexValue(v[i + 2])];
        i := i + 3;
      } else {
        Regroup(r, [v[i]], PercentDecode(v[i + 1..]));
        r := r + [v[i]];
        i := i + 1;
      }
    }
  }

  // ---------------------------------------------------------------------------
  // Decimal
  // ---------------------------------------------------------------------------

  function ToDecimal(n: nat): (r: Bytes)
    ensures r != []
  {
    if n < 10 then [48 + n] else ToDecimal(n / 10) + [48 + n % 10]
  }

  predicate Digit(c: byte) {
    48 <= c <= 57
  }

  /** The number the digits spell; None when there are none or another character is among them. */
  function Digits(v: Bytes): Option<nat> {
    if v == [] || !Digit(v[|v| - 1]) then None
    else if |v| == 1 then Some(v[0] - 48)
    else match Digits(v[..|v| - 1])
      case None => None
      case Some(n) => Some(10 * n + v[|v| - 1] - 48)
  }

  const MAX_INT64: int := 0x7fff_ffff_ffff_ffff

  /** A non-negative 64-bit number; minus zero is zero, and nothing else may have a sign. */
  function ToInt(v: Bytes): Option<nat> {
    var negative := v != [] && v[0] == 45;
    match Digits(if negative then v[1..] else v)
    case None => None
    case Some(n) => if n > MAX_INT64 || (negative && n > 0) then None else Some(n)
  }

  lemma {:induction false} DecimalDigits(n: nat)
    ensures Digits(ToDecimal(n)) == Some(n) && forall i :: 0 <= i < |ToDecimal(n)| ==> Digit(ToDecimal(n)[i])
  {
    if n < 10 {
    } else {
      DecimalDigits(n / 10);
      var d := ToDecimal(n);
      assert d[..|d| - 1] == ToDecimal(n / 10);
    }
  }

  lemma {:induction false} DecimalRoundTrip(n: nat)
    requires n <= MAX_INT64
    ensures ToInt(ToDecimal(n)) == Some(n)
  {
    DecimalDigits(n);
  }
}
