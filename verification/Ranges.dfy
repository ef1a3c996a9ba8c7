/**
 The sorted, coalesced interval list that both download engines keep their
 progress in, specified as a finite set of byte offsets.
 */
module Ranges {

  import opened Base

  /** Half-open interval [begin, end). */
  datatype Range = Range(begin: int, end: int)

  predicate Within(begin: int, x: int, end: int) {
    begin <= x < end
  }

  ghost function Interval(begin: int, end: int): set<int> {
    set x | begin <= x < end && Within(begin, x, end)
  }

  /** The offsets an interval list stands for. */
  ghost function Bytes(s: seq<Range>): set<int> {
    set i, x | 0 <= i < |s| && x in Interval(s[i].begin, s[i].end) :: x
  }

  /** Non-empty, ascending and never touching: at most one list per set of offsets. */
  ghost predicate Coalesced(s: seq<Range>) {
    && (forall i :: 0 <= i < |s| ==> s[i].begin < s[i].end)
    && (forall i, j :: 0 <= i < j < |s| ==> s[i].end < s[j].begin)
  }

  /** Index of the first range that begins after `key`. */
  function UpperBound(s: seq<Range>, key: int): (k: nat)
    ensures k <= |s|
    ensures forall i :: 0 <= i < k ==> s[i].begin <= key
    ensures k < |s| ==> key < s[k].begin
  {
    if s == [] || key < s[0].begin then 0 else 1 + UpperBound(s[1..], key)
  }

  /** True exactly when every offset of [begin, end) is present. */
  function Contains(s: seq<Range>, begin: int, end: int): (r: bool)
    ensures Coalesced(s) ==> (r <==> Interval(begin, end) <= Bytes(s))
  {
    if begin >= end then
      true
    else
      var it := UpperBound(s, begin);
      var r := it > 0 && s[it - 1].end >= end;
      assert Coalesced(s) ==> (r <==> Interval(begin, end) <= Bytes(s)) by {
        if Coalesced(s) {
          ContainsIsSubset(s, begin, end, it);
        }
      }
      r
  }

  lemma ContainsIsSubset(s: seq<Range>, begin: int, end: int, it: nat)
    requires Coalesced(s) && begin < end && it == UpperBound(s, begin)
    ensures (it > 0 && s[it - 1].end >= end) <==> Interval(begin, end) <= Bytes(s)
  {
    if it > 0 && s[it - 1].end >= end {
      forall x | x in Interval(begin, end) ensures x in Bytes(s) {
        assert x in Interval(s[it - 1].begin, s[it - 1].end);
      }
    } else {
      // The first offset at or after `begin` that no range holds lies below `end`.
      var x := if it > 0 && s[it - 1].end > begin then s[it - 1].end else begin;
      assert x in Interval(begin, end);
      NotIn(s, x);
    }
  }

  lemma NotIn(s: seq<Range>, x: int)
    requires forall i :: 0 <= i < |s| ==> !(s[i].begin <= x < s[i].end)
    ensures x !in Bytes(s)
  {
  }

  /** The first maximal missing run inside [from, limit), if there is one. */
  function FirstGap(s: seq<Range>, from: int, limit: int): (gap: Option<Range>)
    ensures Coalesced(s) ==> IsFirstGap(s, from, limit, gap)
  {
    var it := UpperBound(s, from);
    var cursor := if it > 0 && s[it - 1].end > from then s[it - 1].end else from;
    var gap :=
      if cursor >= limit then None
      else Some(Range(cursor, if it == |s| then limit else Min(limit, s[it].begin)));
    assert Coalesced(s) ==> IsFirstGap(s, from, limit, gap) by {
      if Coalesced(s) {
        FirstGapIsFirst(s, from, limit, it, cursor);
      }
    }
    gap
  }

  ghost predicate IsFirstGap(s: seq<Range>, from: int, limit: int, gap: Option<Range>) {
    match gap
    case None => Interval(from, limit) <= Bytes(s)
    case Some(g) =>
      && from <= g.begin < g.end <= limit
      && Interval(from, g.begin) <= Bytes(s)
      && Interval(g.begin, g.end) !! Bytes(s)
      && (g.end == limit || g.end in Bytes(s))
  }

  lemma FirstGapIsFirst(s: seq<Range>, from: int, limit: int, it: nat, cursor: int)
    requires Coalesced(s) && it == UpperBound(s, from)
    requires cursor == if it > 0 && s[it - 1].end > from then s[it - 1].end else from
    ensures Interval(from, cursor) <= Bytes(s)
    ensures Interval(cursor, if it == |s| then limit else Min(limit, s[it].begin)) !! Bytes(s)
    ensures it < |s| ==> s[it].begin in Bytes(s) && cursor < s[it].begin
  {
    forall x | x in Interval(from, cursor) ensures x in Bytes(s) {
      assert x in Interval(s[it - 1].begin, s[it - 1].end);
    }
    forall x | x in Interval(cursor, if it == |s| then limit else Min(limit, s[it].begin))
      ensures x !in Bytes(s)
    {
      NotIn(s, x);
    }
    if it < |s| {
      assert s[it].begin in Interval(s[it].begin, s[it].end);
    }
  }

  // ---------------------------------------------------------------------------
  // The representation is canonical
  // ---------------------------------------------------------------------------

  /** Two coalesced lists with the same offsets are the same list. */
  lemma {:induction false} Canonical(a: seq<Range>, b: seq<Range>)
    requires Coalesced(a) && Coalesced(b)
    requires Bytes(a) == Bytes(b)
    ensures a == b
  {
    if a != [] {
      HeadIsLeastRun(a);
    }
    if b != [] {
      HeadIsLeastRun(b);
    }
    assert a == [] <==> b == [];
    if a != [] {
      assert a[0].begin == b[0].begin;
      assert a[0].end in Interval(b[0].begin, b[0].end) <==> a[0].end < b[0].end;
      assert b[0].end in Interval(a[0].begin, a[0].end) <==> b[0].end < a[0].end;
      Canonical(a[1..], b[1..]);
    }
  }

  lemma HeadIsLeastRun(s: seq<Range>)
    requires Coalesced(s) && s != []
    ensures s[0].begin in Bytes(s) && forall x :: x in Bytes(s) ==> s[0].begin <= x
    ensures Interval(s[0].begin, s[0].end) <= Bytes(s) && s[0].end !in Bytes(s)
    ensures Bytes(s[1..]) == Bytes(s) - Interval(s[0].begin, s[0].end)
  {
    assert s[0].begin in Interval(s[0].begin, s[0].end);
    forall x
      ensures x in Bytes(s[1..]) <==> x in Bytes(s) && x !in Interval(s[0].begin, s[0].end)
    {
      if x in Bytes(s[1..]) {
        var i :| 0 <= i < |s[1..]| && x in Interval(s[1..][i].begin, s[1..][i].end);
        assert x in Interval(s[i + 1].begin, s[i + 1].end);
      }
      if x in Bytes(s) && x !in Interval(s[0].begin, s[0].end) {
        var i :| 0 <= i < |s| && x in Interval(s[i].begin, s[i].end);
        assert x in Interval(s[1..][i - 1].begin, s[1..][i - 1].end);
      }
    }
    NotIn(s, s[0].end);
  }

  // ---------------------------------------------------------------------------
  // Cardinalities
  // ---------------------------------------------------------------------------

  lemma {:induction false} IntervalSize(begin: int, end: int)
    ensures |Interval(begin, end)| == if begin <= end then end - begin else 0
    decreases end - begin
  {
    if begin < end {
      IntervalSize(begin, end - 1);
      assert Interval(begin, end) == Interval(begin, end - 1) + {end - 1};
    } else {
      assert Interval(begin, end) == {};
    }
  }

  /** A prefix of the list grows by exactly the size of its next interval, within any window. */
  lemma PrefixSize(s: seq<Range>, k: nat, begin: int, end: int)
    requires Coalesced(s) && k < |s|
    ensures |Bytes(s[..k + 1]) * Interval(begin, end)|
         == |Bytes(s[..k]) * Interval(begin, end)| + Max(0, Min(end, s[k].end) - Max(begin, s[k].begin))
  {
    var window := Interval(begin, end);
    var low, high := Max(begin, s[k].begin), Min(end, s[k].end);
    PrefixStep(s, k);
    assert Interval(s[k].begin, s[k].end) * window == Interval(low, high);
    assert Bytes(s[..k + 1]) * window == Bytes(s[..k]) * window + Interval(low, high);
    PrefixBefore(s, k, low, high);
    IntervalSize(low, high);
  }

  lemma PrefixBefore(s: seq<Range>, k: nat, low: int, high: int)
    requires Coalesced(s) && k < |s| && s[k].begin <= low
    ensures Bytes(s[..k]) !! Interval(low, high)
  {
  }

  lemma PrefixStep(s: seq<Range>, k: nat)
    requires k < |s|
    ensures Bytes(s[..k + 1]) == Bytes(s[..k]) + Interval(s[k].begin, s[k].end)
  {
  }

  lemma SingletonBytes(r: Range)
    ensures Bytes([r]) == Interval(r.begin, r.end)
  {
    forall x | x in Interval(r.begin, r.end) ensures x in Bytes([r]) {
      assert x in Interval([r][0].begin, [r][0].end);
    }
  }

  lemma SplitBytes(a: seq<Range>, b: seq<Range>)
    ensures Bytes(a + b) == Bytes(a) + Bytes(b)
  {
    var s := a + b;
    forall x ensures x in Bytes(s) <==> x in Bytes(a) || x in Bytes(b) {
      if x in Bytes(s) {
        var i :| 0 <= i < |s| && x in Interval(s[i].begin, s[i].end);
        if i < |a| {
          assert x in Interval(a[i].begin, a[i].end);
        } else {
          assert x in Interval(b[i - |a|].begin, b[i - |a|].end);
        }
      }
      if x in Bytes(a) {
        var i :| 0 <= i < |a| && x in Interval(a[i].begin, a[i].end);
        assert x in Interval(s[i].begin, s[i].end);
      }
      if x in Bytes(b) {
        var i :| 0 <= i < |b| && x in Interval(b[i].begin, b[i].end);
        assert x in Interval(s[|a| + i].begin, s[|a| + i].end);
      }
    }
  }

  // ---------------------------------------------------------------------------
  // The mutable container
  // ---------------------------------------------------------------------------

  class RangeSet {
    /** The ordered map begin -> end, in key order. */
    var ranges: seq<Range>

    ghost predicate Valid()
      reads this
    {
      Coalesced(ranges)
    }

    ghost function Contents(): set<int>
      reads this
    {
      Bytes(ranges)
    }

    constructor ()
      ensures Valid() && ranges == [] && Contents() == {}
    {
      ranges := [];
    }

    constructor Copy(other: RangeSet)
      requires other.Valid()
      ensures Valid() && ranges == other.ranges
    {
      ranges := other.ranges;
    }

    method Clear()
      modifies this
      ensures Valid() && ranges == [] && Contents() == {}
    {
      ranges := [];
    }

    /** Union with [begin, end). */
    method Add(begin: int, end: int)
      requires Valid()
      modifies this
      ensures Valid()
      ensures Contents() == old(Contents()) + Interval(begin, end)
    {
      if begin >= end {
        return;
      }
      var low, high := begin, end;
      var it := UpperBound(ranges, low);
      if it > 0 && ranges[it - 1].end >= low {
        it := it - 1;
        Absorbed(ranges, it, low, high);
        low := ranges[it].begin;
      }
      while it < |ranges| && ranges[it].begin <= high
        invariant 0 <= it <= |ranges| && FitsAt(ranges, it, low, high)
        invariant Bytes(ranges) + Interval(low, high) == old(Contents()) + Interval(begin, end)
        decreases |ranges|
      {
        Swallowed(ranges, it, low, high);
        high := Max(high, ranges[it].end);
        ranges := ranges[..it] + ranges[it + 1..];
      }
      Inserted(ranges, it, Range(low, high));
      ranges := ranges[..it] + [Range(low, high)] + ranges[it..];
    }

    /** Difference with [begin, end). */
    method Remove(begin: int, end: int)
      requires Valid()
      modifies this
      ensures Valid()
      ensures Contents() == old(Contents()) - Interval(begin, end)
    {
      if begin >= end {
        return;
      }
      var it := UpperBound(ranges, begin);
      if it > 0 {
        it := it - 1;
        assert ranges[it].begin <= begin;
      }
      ghost var gone := Interval(begin, end);
      while it < |ranges| && ranges[it].begin < end
        invariant Valid()
        invariant 0 <= it <= |ranges|
        invariant forall i :: 0 <= i < it ==> ranges[i].end <= begin
        invariant Bytes(ranges) - gone == old(Contents()) - gone
        decreases |ranges| - it
      {
        var first, last := ranges[it].begin, ranges[it].end;
        if last <= begin {
          it := it + 1;
          continue;
        }
        var pieces := Pieces(ranges[it], begin, end);
        Trimmed(ranges, it, begin, end);
        ranges := ranges[..it] + pieces + ranges[it + 1..];
        if last > end {
          break;
        }
        it := it + |pieces|;
      }
      Outside(ranges, begin, end);
    }

    /** Number of offsets present. */
    method Total() returns (sum: int)
      requires Valid()
      ensures sum == |Contents()|
    {
      sum := 0;
      var it := 0;
      ghost var all := WindowOf(ranges);
      assert Bytes(ranges[..0]) == {};
      while it < |ranges|
        invariant 0 <= it <= |ranges|
        invariant sum == |Bytes(ranges[..it])|
      {
        var lo, hi := ranges[it].begin, ranges[it].end;
        PrefixSize(ranges, it, all.begin, all.end);
        PrefixInWindow(ranges, it);
        PrefixInWindow(ranges, it + 1);
        sum := sum + (hi - lo);
        it := it + 1;
      }
      assert ranges[..it] == ranges;
    }

    /** Number of offsets of [begin, end) present. */
    method Covered(begin: int, end: int) returns (sum: int)
      requires Valid()
      ensures sum == |Contents() * Interval(begin, end)|
    {
      sum := 0;
      var it := UpperBound(ranges, begin);
      if it > 0 {
        it := it - 1;
        assert ranges[it].begin <= begin;
      }
      Outside(ranges[..it], begin, end);
      assert Bytes(ranges[..it]) * Interval(begin, end) == {};
      while it < |ranges| && ranges[it].begin < end
        invariant 0 <= it <= |ranges|
        invariant sum == |Bytes(ranges[..it]) * Interval(begin, end)|
      {
        PrefixSize(ranges, it, begin, end);
        sum := sum + Max(0, Min(end, ranges[it].end) - Max(begin, ranges[it].begin));
        it := it + 1;
      }
      RestOutside(ranges, it, begin, end);
    }
  }

  lemma RestOutside(s: seq<Range>, it: nat, begin: int, end: int)
    requires Coalesced(s) && it <= |s| && (it < |s| ==> end <= s[it].begin)
    ensures Bytes(s) * Interval(begin, end) == Bytes(s[..it]) * Interval(begin, end)
  {
  }

  lemma Outside(s: seq<Range>, begin: int, end: int)
    requires forall i :: 0 <= i < |s| ==> s[i].end <= begin || end <= s[i].begin
    ensures Bytes(s) !! Interval(begin, end)
  {
  }

  ghost function WindowOf(s: seq<Range>): Range {
    if s == [] then Range(0, 0) else Range(s[0].begin, s[|s| - 1].end)
  }

  lemma PrefixInWindow(s: seq<Range>, k: nat)
    requires Coalesced(s) && k <= |s|
    ensures Bytes(s[..k]) * Interval(WindowOf(s).begin, WindowOf(s).end) == Bytes(s[..k])
  {
  }

  lemma Erased(s: seq<Range>, it: nat)
    requires it < |s|
    ensures Bytes(s) == Bytes(s[..it] + s[it + 1..]) + Interval(s[it].begin, s[it].end)
  {
    SplitBytes(s[..it], s[it + 1..]);
    SplitBytes(s[..it], [s[it]]);
    SplitBytes(s[..it] + [s[it]], s[it + 1..]);
    SingletonBytes(s[it]);
    assert s[..it] + [s[it]] + s[it + 1..] == s;
  }

  /** A coalesced list with room for [low, high) at index `it` as far as its left end goes. */
  ghost predicate FitsAt(s: seq<Range>, it: nat, low: int, high: int) {
    && Coalesced(s)
    && it <= |s|
    && low < high
    && (forall i :: 0 <= i < it ==> s[i].end < low)
    && (forall i :: it <= i < |s| ==> low <= s[i].begin)
  }

  /** Moving the left end onto a range that reaches it covers nothing new. */
  lemma Absorbed(s: seq<Range>, it: nat, low: int, high: int)
    requires Coalesced(s) && it < |s| && low < high && s[it].begin <= low <= s[it].end
    ensures Bytes(s) + Interval(s[it].begin, high) == Bytes(s) + Interval(low, high)
    ensures FitsAt(s, it, s[it].begin, high)
  {
    Erased(s, it);
    assert Interval(s[it].begin, high) <= Interval(s[it].begin, s[it].end) + Interval(low, high);
  }

  /** Erasing a range that meets [low, high) and growing `high` over it keeps the union. */
  lemma Swallowed(s: seq<Range>, it: nat, low: int, high: int)
    requires FitsAt(s, it, low, high) && it < |s| && s[it].begin <= high
    ensures FitsAt(s[..it] + s[it + 1..], it, low, Max(high, s[it].end))
    ensures Bytes(s[..it] + s[it + 1..]) + Interval(low, Max(high, s[it].end)) == Bytes(s) + Interval(low, high)
  {
    Erased(s, it);
    assert Interval(low, Max(high, s[it].end)) == Interval(low, high) + Interval(s[it].begin, s[it].end);
  }

  lemma Inserted(s: seq<Range>, it: nat, r: Range)
    requires FitsAt(s, it, r.begin, r.end)
    requires it < |s| ==> r.end < s[it].begin
    ensures Coalesced(s[..it] + [r] + s[it..])
    ensures Bytes(s[..it] + [r] + s[it..]) == Bytes(s) + Interval(r.begin, r.end)
  {
    var t := s[..it] + [r] + s[it..];
    assert t[..it] + t[it + 1..] == s by {
      assert t[..it] == s[..it] && t[it + 1..] == s[it..];
    }
    Erased(t, it);
    Spliced(s[..it], [r], s[it..]);
  }

  /** Concatenation keeps lists coalesced when each ends before the next begins. */
  lemma Spliced(a: seq<Range>, m: seq<Range>, b: seq<Range>)
    requires Coalesced(a) && Coalesced(m) && Coalesced(b)
    requires forall i, j :: 0 <= i < |a| && 0 <= j < |m| ==> a[i].end < m[j].begin
    requires forall i, j :: 0 <= i < |m| && 0 <= j < |b| ==> m[i].end < b[j].begin
    requires forall i, j :: 0 <= i < |a| && 0 <= j < |b| ==> a[i].end < b[j].begin
    ensures Coalesced(a + m + b)
  {
  }

  /** What is left of `r` without [begin, end): at most a head and a tail. */
  function Pieces(r: Range, begin: int, end: int): seq<Range> {
    (if r.begin < begin then [Range(r.begin, begin)] else [])
    + (if r.end > end then [Range(end, r.end)] else [])
  }

  lemma PiecesShape(r: Range, begin: int, end: int)
    requires r.begin < r.end && begin < end && begin < r.end && r.begin < end
    ensures Coalesced(Pieces(r, begin, end))
    ensures forall p :: p in Pieces(r, begin, end) ==> r.begin <= p.begin && p.end <= r.end
    ensures Bytes(Pieces(r, begin, end)) == Interval(r.begin, r.end) - Interval(begin, end)
  {
    var left := if r.begin < begin then [Range(r.begin, begin)] else [];
    var right := if r.end > end then [Range(end, r.end)] else [];
    PieceBytes(left, r.begin, begin);
    PieceBytes(right, end, r.end);
    SplitBytes(left, right);
  }

  lemma Trimmed(s: seq<Range>, it: nat, begin: int, end: int)
    requires Coalesced(s) && it < |s| && begin < end && begin < s[it].end && s[it].begin < end
    ensures Coalesced(s[..it] + Pieces(s[it], begin, end) + s[it + 1..])
    ensures Bytes(s[..it] + Pieces(s[it], begin, end) + s[it + 1..]) - Interval(begin, end)
         == Bytes(s) - Interval(begin, end)
  {
    var pieces := Pieces(s[it], begin, end);
    PiecesShape(s[it], begin, end);
    assert Coalesced(s[..it] + pieces + s[it + 1..]) by {
      PiecesFit(s, it, pieces);
    }
    ReplacedBytes(s, it, pieces);
  }

  lemma PiecesFit(s: seq<Range>, it: nat, pieces: seq<Range>)
    requires Coalesced(s) && it < |s| && Coalesced(pieces)
    requires forall p :: p in pieces ==> s[it].begin <= p.begin && p.end <= s[it].end
    ensures Coalesced(s[..it] + pieces + s[it + 1..])
  {
  }

  lemma PieceBytes(piece: seq<Range>, begin: int, end: int)
    requires piece == if begin < end then [Range(begin, end)] else []
    ensures Bytes(piece) == Interval(begin, end)
  {
    SingletonBytes(Range(begin, end));
  }

  lemma ReplacedBytes(s: seq<Range>, it: nat, pieces: seq<Range>)
    requires it < |s|
    ensures Bytes(s[..it] + pieces + s[it + 1..]) == Bytes(s[..it] + s[it + 1..]) + Bytes(pieces)
    ensures Bytes(s) == Bytes(s[..it] + s[it + 1..]) + Interval(s[it].begin, s[it].end)
  {
    SplitBytes(s[..it], pieces);
    SplitBytes(s[..it] + pieces, s[it + 1..]);
    SplitBytes(s[..it], s[it + 1..]);
    Erased(s, it);
  }

  // ---------------------------------------------------------------------------
  // The queries rely on coalescing
  // ---------------------------------------------------------------------------

  /** Non-empty and ascending, but allowed to touch. */
  ghost predicate Ascending(s: seq<Range>) {
    && (forall i :: 0 <= i < |s| ==> s[i].begin < s[i].end)
    && (forall i, j :: 0 <= i < j < |s| ==> s[i].end <= s[j].begin)
  }

  /** Two touching ranges hold an interval that `Contains` misses. */
  lemma TouchingRangesMislead(s: seq<Range>, i: nat)
    requires Ascending(s) && i + 1 < |s| && s[i].end == s[i + 1].begin
    ensures Interval(s[i].begin, s[i + 1].end) <= Bytes(s) && !Contains(s, s[i].begin, s[i + 1].end)
  {
    forall x | x in Interval(s[i].begin, s[i + 1].end) ensures x in Bytes(s) {
      assert x in Interval(s[i].begin, s[i].end) || x in Interval(s[i + 1].begin, s[i + 1].end);
    }
    var it := UpperBound(s, s[i].begin);
    assert it <= i + 1 && it > i;
  }

  /** An ascending list that is not coalesced has neighbours that touch. */
  lemma {:induction false} TouchingNeighbours(s: seq<Range>) returns (i: nat)
    requires Ascending(s) && !Coalesced(s)
    ensures i + 1 < |s| && s[i].end == s[i + 1].begin
  {
    if s[0].end == s[1].begin {
      i := 0;
    } else {
      assert forall j :: 1 <= j < |s| ==> s[0].end < s[j].begin;
      i := TouchingNeighbours(s[1..]);
      i := i + 1;
    }
  }

  /** Among ascending lists, `Contains` answers every query right exactly when no two ranges touch. */
  lemma ContainsNeedsCoalescing(s: seq<Range>)
    requires Ascending(s)
    ensures (forall begin, end :: Contains(s, begin, end) <==> Interval(begin, end) <= Bytes(s)) <==> Coalesced(s)
  {
    if !Coalesced(s) {
      var i := TouchingNeighbours(s);
      TouchingRangesMislead(s, i);
    }
  }

  /** Where two ranges touch, `FirstGap` reports an empty gap between them. */
  lemma TouchingRangesGap(s: seq<Range>, i: nat)
    requires Ascending(s) && i + 1 < |s| && s[i].end == s[i + 1].begin
    ensures FirstGap(s, s[i].begin, s[i + 1].end) == Some(Range(s[i].end, s[i].end))
  {
    var it := UpperBound(s, s[i].begin);
    assert it <= i + 1 && it > i;
  }

  /** Among ascending lists, `FirstGap` answers every query right exactly when no two ranges touch. */
  lemma FirstGapNeedsCoalescing(s: seq<Range>)
    requires Ascending(s)
    ensures (forall from, limit :: IsFirstGap(s, from, limit, FirstGap(s, from, limit))) <==> Coalesced(s)
  {
    if !Coalesced(s) {
      var i := TouchingNeighbours(s);
      TouchingRangesGap(s, i);
      assert !IsFirstGap(s, s[i].begin, s[i + 1].end, FirstGap(s, s[i].begin, s[i + 1].end));
    }
  }
}
