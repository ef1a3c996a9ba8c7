/**
 Block claims over a file cut into ED2K parts: which source requests which
 block, including the endgame in which stale claims are duplicated.
 */
module BlockClaims {

  import opened Base
  import opened Ranges

  const PIECE_LENGTH: int := 9728000
  const BLOCK_LENGTH: int := 184320
  /** Seconds before a claim may be duplicated in the endgame. */
  const DUPLICATE_AFTER: real := 5.0

  /** Identity of a source (the source code uses its address). */
  type Owner = nat

  datatype Claim = Claim(begin: int, end: int, owner: Owner, since: real)

  function PartCount(size: nat): nat {
    (size + PIECE_LENGTH - 1) / PIECE_LENGTH
  }

  function Part(size: nat, index: nat): Range {
    var begin := index * PIECE_LENGTH;
    Range(begin, Min(begin + PIECE_LENGTH, size))
  }

  function PartOf(offset: nat): nat {
    offset / PIECE_LENGTH
  }

  // ---------------------------------------------------------------------------
  // The part grid
  // ---------------------------------------------------------------------------

  /** Every offset of the file lies in exactly one part, the one `PartOf` names. */
  lemma PartPartition(size: nat, x: nat, index: nat)
    requires x < size
    ensures PartOf(x) < PartCount(size)
    ensures x in Interval(Part(size, index).begin, Part(size, index).end) <==> index == PartOf(x)
  {
  }

  lemma PartShape(size: nat, index: nat)
    requires index < PartCount(size)
    ensures 0 <= Part(size, index).begin < Part(size, index).end <= size
    ensures Part(size, index).end - Part(size, index).begin <= PIECE_LENGTH
    ensures PartOf(Part(size, index).begin) == index
  {
  }

  lemma PartsDisjoint(size: nat, i: nat, j: nat)
    requires i != j
    ensures Interval(Part(size, i).begin, Part(size, i).end) !! Interval(Part(size, j).begin, Part(size, j).end)
  {
  }

  // ---------------------------------------------------------------------------
  // Claims
  // ---------------------------------------------------------------------------

  predicate Overlap(a: Claim, b: Claim) {
    a.begin < b.end && b.begin < a.end
  }

  /** Two claims may share bytes only across owners and only 5 s apart. */
  predicate Compatible(a: Claim, b: Claim) {
    Overlap(a, b) ==>
      a.owner != b.owner && (a.since - b.since >= DUPLICATE_AFTER || b.since - a.since >= DUPLICATE_AFTER)
  }

  ghost predicate ClaimsOk(claims: seq<Claim>) {
    && (forall i :: 0 <= i < |claims| ==> claims[i].begin < claims[i].end)
    && (forall i, j :: 0 <= i < j < |claims| ==> Ordered(claims[i], claims[j]))
  }

  /** Key order of the multimap, and compatibility. */
  predicate Ordered(a: Claim, b: Claim) {
    a.begin <= b.begin && Compatible(a, b)
  }

  /** One round of claiming for `owner` at time `now`. */
  datatype Pass = Pass(owner: Owner, endgame: bool, now: real)

  /** A claim that keeps the owner off its bytes in this pass. */
  predicate Blocking(c: Claim, pass: Pass) {
    c.owner == pass.owner || !pass.endgame || pass.now - c.since < DUPLICATE_AFTER
  }

  predicate Holds(c: Claim, x: int) {
    c.begin <= x < c.end
  }

  ghost predicate Blocked(claims: seq<Claim>, pass: Pass, x: int) {
    exists c :: c in claims && Blocking(c, pass) && Holds(c, x)
  }

  /** Position of a new claim in the multimap: after those with the same begin. */
  function ClaimIndex(claims: seq<Claim>, begin: int): (k: nat)
    ensures k <= |claims|
    ensures forall i :: 0 <= i < k ==> claims[i].begin <= begin
    ensures k < |claims| ==> begin < claims[k].begin
  {
    if claims == [] || begin < claims[0].begin then 0 else 1 + ClaimIndex(claims[1..], begin)
  }

  function Emplace(claims: seq<Claim>, c: Claim): seq<Claim> {
    var k := ClaimIndex(claims, c.begin);
    claims[..k] + [c] + claims[k..]
  }

  lemma EmplaceMembers(claims: seq<Claim>, c: Claim)
    ensures multiset(Emplace(claims, c)) == multiset(claims) + multiset{c}
    ensures forall d :: d in Emplace(claims, c) <==> d == c || d in claims
  {
    var k := ClaimIndex(claims, c.begin);
    assert claims == claims[..k] + claims[k..];
    forall d ensures d in Emplace(claims, c) <==> d == c || d in claims {
      assert d in Emplace(claims, c) <==> d in multiset(Emplace(claims, c));
      assert d in claims <==> d in multiset(claims);
    }
  }

  /** A new claim disjoint from every claim that blocks it keeps the whole table compatible. */
  lemma EmplaceOk(claims: seq<Claim>, c: Claim, pass: Pass)
    requires ClaimsOk(claims) && c.begin < c.end && c.owner == pass.owner && c.since == pass.now
    requires forall d :: d in claims && Blocking(d, pass) ==> !Overlap(d, c)
    ensures ClaimsOk(Emplace(claims, c))
  {
    var k := ClaimIndex(claims, c.begin);
    forall i | 0 <= i < |claims|
      ensures i < k ==> Ordered(claims[i], c)
      ensures k <= i ==> Ordered(c, claims[i])
    {
      assert claims[i] in claims;
      if k < i {
        assert Ordered(claims[k], claims[i]);
      }
    }
    InsertPairwise(claims, k, c, Ordered);
    EmplaceMembers(claims, c);
  }

  /** One owner's claims never share a byte, in any reachable table. */
  lemma OwnClaimsDisjoint(claims: seq<Claim>, i: nat, j: nat)
    requires ClaimsOk(claims) && i < |claims| && j < |claims| && i != j
    requires claims[i].owner == claims[j].owner
    ensures !Overlap(claims[i], claims[j]) && claims[i].begin != claims[j].begin
  {
  }

  // ---------------------------------------------------------------------------
  // What a source can be asked for
  // ---------------------------------------------------------------------------

  predicate Available(available: seq<bool>, index: nat) {
    available == [] || (index < |available| && available[index])
  }

  /** A missing byte of an unverified part the source holds. */
  ghost predicate Wanted(size: nat, verified: seq<bool>, received: set<int>, available: seq<bool>, x: int) {
    && 0 <= x < size
    && x !in received
    && PartOf(x) < |verified|
    && !verified[PartOf(x)]
    && Available(available, PartOf(x))
  }

  /** An unverified part with missing bytes that the source holds. */
  ghost predicate EligiblePart(size: nat, verified: seq<bool>, received: set<int>, available: seq<bool>, index: nat) {
    && index < |verified|
    && !verified[index]
    && !PartReceived(size, received, index)
    && Available(available, index)
  }

  ghost predicate Claimed(claims: seq<Claim>, x: int) {
    exists c :: c in claims && Holds(c, x)
  }

  /** A request block: non-empty, unreceived, inside one 180 KB cell of the part. */
  ghost predicate BlockOf(size: nat, received: set<int>, index: nat, b: Range) {
    var part := Part(size, index);
    && part.begin <= b.begin < b.end <= part.end
    && (b.begin - part.begin) / BLOCK_LENGTH == (b.end - 1 - part.begin) / BLOCK_LENGTH
    && Interval(b.begin, b.end) !! received
  }

  ghost predicate PartReceived(size: nat, received: set<int>, index: nat) {
    Interval(Part(size, index).begin, Part(size, index).end) <= received
  }

  /** Received in full but not verified: a part that waits for its hash check. */
  ghost predicate Unchecked(size: nat, verified: seq<bool>, received: set<int>, index: nat) {
    index < |verified| && !verified[index] && PartReceived(size, received, index)
  }

  /** The lowest unchecked part of `from`..`to`, if there is one. */
  ghost predicate FirstFull(size: nat, verified: seq<bool>, received: set<int>, from: nat, to: nat, r: Option<nat>) {
    match r
    case Some(i) =>
      && from <= i <= to
      && Unchecked(size, verified, received, i)
      && (forall j :: from <= j < i ==> !Unchecked(size, verified, received, j))
    case None => forall j :: from <= j <= to ==> !Unchecked(size, verified, received, j)
  }

  /** In every state, the one reported part is the only unchecked part of `from`..`to`. */
  ghost predicate ReportsAll(size: nat, from: nat, to: nat) {
    forall verified, received, r, i ::
      |verified| == PartCount(size) && FirstFull(size, verified, received, from, to, r)
      && from <= i <= to && Unchecked(size, verified, received, i) ==>
      r == Some(i)
  }

  /**
   `Add` reports one part per call. It reports every unchecked part it touched, whatever the
   state, exactly when the added bytes lie in a single part.
   */
  lemma AddReportsAll(size: nat, begin: nat, end: nat)
    requires begin < end <= size
    ensures ReportsAll(size, PartOf(begin), PartOf(end - 1)) <==> PartOf(begin) == PartOf(end - 1)
  {
    if PartOf(begin) != PartOf(end - 1) {
      var verified := seq(PartCount(size), _ => false);
      var received := Interval(0, size);
      var r, i := Some(PartOf(begin)), PartOf(end - 1);
      PartPartition(size, begin, 0);
      PartPartition(size, end - 1, 0);
      assert FirstFull(size, verified, received, PartOf(begin), PartOf(end - 1), r);
      assert Unchecked(size, verified, received, i) && r != Some(i);
    }
  }

  // ---------------------------------------------------------------------------
  // Ranking of candidate parts
  // ---------------------------------------------------------------------------

  /** Lower is better: own part, preview edge, started, rarity, then a random tie-break. */
  datatype Rank = Rank(mine: int, edge: int, started: int, rarity: int, tie: nat)

  predicate Before(a: Rank, b: Rank) {
    || a.mine < b.mine
    || (a.mine == b.mine && (
          || a.edge < b.edge
          || (a.edge == b.edge && (
                || a.started < b.started
                || (a.started == b.started && (
                      || a.rarity < b.rarity
                      || (a.rarity == b.rarity && a.tie < b.tie)))))))
  }

  datatype Candidate = Candidate(index: nat, rank: Rank)

  predicate Edge(size: nat, index: nat) {
    var last := PartCount(size) - 1;
    || index == 0
    || index == last
    || (index + 1 == last && size - Part(size, last).begin < PIECE_LENGTH / 3)
  }

  ghost predicate ClaimedIn(claims: seq<Claim>, part: Range) {
    exists c :: c in claims && c.begin < part.end && c.end > part.begin
  }

  ghost predicate MineIn(claims: seq<Claim>, part: Range, owner: Owner) {
    exists c :: c in claims && c.begin < part.end && c.end > part.begin && c.owner == owner
  }

  /** What a source asks for, against the state it is asked in. */
  datatype Query = Query(size: nat, verified: seq<bool>, received: set<int>, claims: seq<Claim>, owner: Owner,
                         available: seq<bool>, availability: seq<int>, preview: bool, random: nat -> nat)

  ghost function RankOf(q: Query, index: nat): Rank {
    var part := Part(q.size, index);
    var started := ClaimedIn(q.claims, part) || q.received * Interval(part.begin, part.end) != {};
    Rank(if MineIn(q.claims, part, q.owner) then 0 else 1,
         if q.preview && Edge(q.size, index) then 0 else 1,
         if started then 0 else 1,
         if index < |q.availability| then q.availability[index] else 0,
         q.random(index))
  }

  predicate NotAfter(a: Candidate, b: Candidate) {
    !Before(b.rank, a.rank)
  }

  lemma InsertSorted(s: seq<Candidate>, k: nat, c: Candidate)
    requires k <= |s| && (k < |s| ==> Before(c.rank, s[k].rank))
    requires forall i, j :: 0 <= i < j < |s| ==> NotAfter(s[i], s[j])
    requires forall i :: 0 <= i < k ==> NotAfter(s[i], c)
    ensures var t := s[..k] + [c] + s[k..]; forall i, j :: 0 <= i < j < |t| ==> NotAfter(t[i], t[j])
  {
  }

  ghost predicate WantedBy(q: Query, x: int) {
    Wanted(q.size, q.verified, q.received, q.available, x)
  }

  ghost predicate EligibleFor(q: Query, index: nat) {
    EligiblePart(q.size, q.verified, q.received, q.available, index)
  }

  ghost predicate HasUnclaimed(q: Query) {
    exists x :: WantedBy(q, x) && !Claimed(q.claims, x)
  }

  /** The candidates are exactly the eligible parts below `n`, each under its rank. */
  ghost predicate Lists(candidates: seq<Candidate>, q: Query, n: nat) {
    && (forall c :: c in candidates ==> EligibleFor(q, c.index) && c.rank == RankOf(q, c.index))
    && (forall i: nat :: i < n && EligibleFor(q, i) ==> Candidate(i, RankOf(q, i)) in candidates)
  }

  /** Orders candidates by rank; equal ranks may come in any order. */
  method SortCandidates(candidates: seq<Candidate>) returns (sorted: seq<Candidate>)
    ensures multiset(sorted) == multiset(candidates)
    ensures forall i, j :: 0 <= i < j < |sorted| ==> NotAfter(sorted[i], sorted[j])
  {
    sorted := [];
    for n := 0 to |candidates|
      invariant multiset(sorted) == multiset(candidates[..n])
      invariant forall i, j :: 0 <= i < j < |sorted| ==> NotAfter(sorted[i], sorted[j])
    {
      var c := candidates[n];
      var k := 0;
      while k < |sorted| && !Before(c.rank, sorted[k].rank)
        invariant 0 <= k <= |sorted|
        invariant forall i :: 0 <= i < k ==> NotAfter(sorted[i], c)
      {
        k := k + 1;
      }
      InsertSorted(sorted, k, c);
      assert sorted == sorted[..k] + sorted[k..];
      assert candidates[..n + 1] == candidates[..n] + [c];
      sorted := sorted[..k] + [c] + sorted[k..];
    }
    assert candidates[..|candidates|] == candidates;
  }

  // ---------------------------------------------------------------------------
  // The allocator
  // ---------------------------------------------------------------------------

  function NewClaim(b: Range, pass: Pass): Claim {
    Claim(b.begin, b.end, pass.owner, pass.now)
  }

  /** The claims a list of blocks turns into. */
  function ClaimsFor(blocks: seq<Range>, pass: Pass): seq<Claim> {
    seq(|blocks|, i requires 0 <= i < |blocks| => NewClaim(blocks[i], pass))
  }

  class Parts {
    const size: nat
    var verified: seq<bool>
    const received: RangeSet
    /** The multimap begin -> claim, in key order. */
    var claims: seq<Claim>

    ghost predicate Valid()
      reads this, received
    {
      && received.Valid()
      && |verified| == PartCount(size)
      && received.Contents() <= Interval(0, size)
      && (forall i :: 0 <= i < |verified| && verified[i] ==> PartReceived(size, received.Contents(), i))
      && ClaimsOk(claims)
    }

    constructor (size: nat)
      ensures Valid() && fresh(received)
      ensures this.size == size && received.Contents() == {} && claims == []
      ensures forall i :: 0 <= i < |verified| ==> !verified[i]
    {
      this.size := size;
      verified := seq(PartCount(size), _ => false);
      received := new RangeSet();
      claims := [];
    }

    /** True exactly when no byte of the part is missing. */
    predicate Filled(index: nat)
      requires received.Valid()
      reads this, received
      ensures Filled(index) <==> PartReceived(size, received.Contents(), index)
    {
      Contains(received.ranges, Part(size, index).begin, Part(size, index).end)
    }

    /** All parts verified. */
    predicate Complete()
      reads this
    {
      forall i :: 0 <= i < |verified| ==> verified[i]
    }

    /** Received bytes; a complete download has received the whole file. */
    method Completed() returns (bytes: int)
      requires Valid()
      ensures bytes == |received.Contents()|
      ensures Complete() ==> bytes == size
    {
      bytes := received.Total();
      if Complete() {
        assert received.Contents() == Interval(0, size) by {
          forall x | x in Interval(0, size) ensures x in received.Contents() {
            PartPartition(size, x, PartOf(x));
            assert PartReceived(size, received.Contents(), PartOf(x));
          }
        }
        IntervalSize(0, size);
      }
    }

    /** Records received bytes; reports the lowest touched part that is full but unverified. */
    method Add(begin: int, end: int) returns (filled: Option<nat>)
      requires Valid()
      modifies received
      ensures Valid()
      ensures received.Contents() == old(received.Contents()) + Interval(Max(begin, 0), Min(end, size))
      ensures Max(begin, 0) >= Min(end, size) ==> filled == None
      ensures Max(begin, 0) < Min(end, size) ==>
                FirstFull(size, verified, received.Contents(),
                          PartOf(Max(begin, 0)), PartOf(Min(end, size) - 1), filled)
    {
      var low, high := Max(begin, 0), Min(end, size);
      if low >= high {
        return None;
      }
      received.Add(low, high);
      PartPartition(size, low, 0);
      PartPartition(size, high - 1, 0);
      var index := PartOf(low);
      while index <= PartOf(high - 1)
        invariant PartOf(low) <= index <= PartOf(high - 1) + 1
        invariant forall j :: PartOf(low) <= j < index ==> !Unchecked(size, verified, received.Contents(), j)
      {
        if !verified[index] && Filled(index) {
          return Some(index);
        }
        index := index + 1;
      }
      return None;
    }

    method Verify(index: nat)
      requires Valid() && index < |verified|
      modifies this`verified, received
      ensures Valid()
      ensures verified == old(verified)[index := true]
      ensures received.Contents() == old(received.Contents())
                                     + Interval(Part(size, index).begin, Part(size, index).end)
    {
      verified := verified[index := true];
      var part := Part(size, index);
      PartShape(size, index);
      received.Add(part.begin, part.end);
    }

    /** A part failed its hash: exactly its bytes are missing again. */
    method Reject(index: nat)
      requires Valid() && index < |verified|
      modifies this`verified, received
      ensures Valid()
      ensures verified == old(verified)[index := false]
      ensures received.Contents() == old(received.Contents())
                                     - Interval(Part(size, index).begin, Part(size, index).end)
    {
      verified := verified[index := false];
      var part := Part(size, index);
      received.Remove(part.begin, part.end);
      forall i | 0 <= i < |verified| && verified[i]
        ensures PartReceived(size, received.Contents(), i)
      {
        PartsDisjoint(size, i, index);
      }
    }

    /** True exactly when the source holds a byte that is missing here. */
    method Wants(available: seq<bool>) returns (r: bool)
      requires Valid()
      ensures r <==> exists x :: Wanted(size, verified, received.Contents(), available, x)
    {
      for index := 0 to |verified|
        invariant forall i :: 0 <= i < index ==> verified[i] || Filled(i) || !Available(available, i)
      {
        if !verified[index] && !Filled(index) && Available(available, index) {
          var part := Part(size, index);
          PartShape(size, index);
          ghost var x :| x in Interval(part.begin, part.end) && x !in received.Contents();
          PartPartition(size, x, index);
          assert Wanted(size, verified, received.Contents(), available, x);
          return true;
        }
      }
      forall x ensures !Wanted(size, verified, received.Contents(), available, x) {
        if 0 <= x < size {
          PartPartition(size, x, PartOf(x));
          var i := PartOf(x);
          assert verified[i] || Filled(i) || !Available(available, i);
        }
      }
      return false;
    }

    /** The first stretch of `gap` no blocking claim covers; everything before it is blocked. */
    method FreeStretch(pass: Pass, gap: Range) returns (begin: int, end: int)
      requires ClaimsOk(claims)
      ensures gap.begin <= begin && end <= gap.end
      ensures forall x :: gap.begin <= x < begin ==> Blocked(claims, pass, x)
      ensures begin < end ==>
                Clear(claims, pass, begin, end)
      ensures begin >= end ==> begin >= gap.end
    {
      begin, end := gap.begin, gap.end;
      var moved := true;
      while moved && begin < end
        invariant gap.begin <= begin && end <= gap.end
        invariant forall x :: gap.begin <= x < begin ==> Blocked(claims, pass, x)
        invariant moved ==> end == gap.end
        invariant begin >= end ==> begin >= gap.end
        invariant !moved ==> Clear(claims, pass, begin, end)
        decreases end - begin, moved
      {
        moved := false;
        var k := 0;
        while k < |claims|
          invariant 0 <= k <= |claims| && begin < end <= gap.end
          invariant end == gap.end || (forall j :: k <= j < |claims| ==> end <= claims[j].begin)
          invariant Clear(claims[..k], pass, begin, end)
        {
          var c := claims[k];
          assert claims[..k + 1] == claims[..k] + [c];
          if c.end <= begin || c.begin >= end || !Blocking(c, pass) {
            k := k + 1;
            continue;
          }
          if c.begin <= begin {
            assert c in claims;
            begin := c.end;
            moved := true;
            break;
          }
          end := c.begin;
          k := k + 1;
        }
        assert !moved ==> claims[..k] == claims;
      }
    }

    /** Claims the free stretches of one part, grid cell by grid cell, until `room` blocks are out. */
    method ClaimGaps(pass: Pass, index: nat, room: nat) returns (out: seq<Range>)
      requires Valid() && index < |verified|
      modifies this`claims
      ensures ClaimsOk(claims) && |out| <= room
      ensures Issued(old(claims), claims, out, pass)
      ensures forall b :: b in out ==> BlockOf(size, received.Contents(), index, b)
      ensures |out| < room ==> Exhausted(size, received.Contents(), claims, pass, index)
    {
      var part := Part(size, index);
      PartShape(size, index);
      var from := part.begin;
      out := [];
      ghost var bytes := received.Contents();
      while |out| < room
        invariant ClaimsOk(claims) && |out| <= room
        invariant part.begin <= from <= part.end
        invariant Issued(old(claims), claims, out, pass)
        invariant forall b :: b in out ==> BlockOf(size, bytes, index, b)
        invariant DoneUpTo(claims, pass, bytes, part.begin, from)
        decreases part.end - from
      {
        var gap := FirstGap(received.ranges, from, part.end);
        if gap == None {
          DoneExtends(claims, pass, bytes, part.begin, from, part.end, part.end);
          break;
        }
        var begin, end := FreeStretch(pass, gap.value);
        if begin >= end {
          DoneExtends(claims, pass, bytes, part.begin, from, gap.value.begin, gap.value.end);
          from := gap.value.end;
          continue;
        }
        var block := GridBlock(part, begin, end);
        var claim := NewClaim(block, pass);
        ClaimStep(old(claims), claims, out, pass, size, bytes, index, from, gap.value, begin, end);
        claims := Emplace(claims, claim);
        out := out + [block];
        from := block.end;
      }
    }

    /** The state a request is answered in, together with the request. */
    ghost function Asking(owner: Owner, available: seq<bool>, availability: seq<int>, preview: bool,
                          random: nat -> nat): Query
      reads this, received
    {
      Query(size, verified, received.Contents(), claims, owner, available, availability, preview, random)
    }

    /** Whether any claim, and whether one of `owner`, touches the part. */
    method Touching(owner: Owner, part: Range) returns (mine: bool, claimedHere: bool)
      ensures mine == MineIn(claims, part, owner) && claimedHere == ClaimedIn(claims, part)
    {
      mine, claimedHere := false, false;
      for k := 0 to |claims|
        invariant mine == MineIn(claims[..k], part, owner) && claimedHere == ClaimedIn(claims[..k], part)
      {
        var c := claims[k];
        assert claims[..k + 1] == claims[..k] + [c];
        if c.begin < part.end && c.end > part.begin {
          claimedHere := true;
          mine := mine || c.owner == owner;
          assert c in claims[..k + 1];
        }
      }
      assert claims[..|claims|] == claims;
    }

    /** The eligible parts, ranked. */
    method Candidates(owner: Owner, available: seq<bool>, availability: seq<int>, preview: bool, random: nat -> nat)
      returns (candidates: seq<Candidate>)
      requires Valid()
      ensures Lists(candidates, Asking(owner, available, availability, preview, random), |verified|)
    {
      candidates := [];
      ghost var q := Asking(owner, available, availability, preview, random);
      for index := 0 to |verified|
        invariant Lists(candidates, q, index)
      {
        if verified[index] || Filled(index) || !Available(available, index) {
          continue;
        }
        var part := Part(size, index);
        var mine, claimedHere := Touching(owner, part);
        var covered := received.Covered(part.begin, part.end);
        var started := claimedHere || covered > 0;
        var rarity := if index < |availability| then availability[index] else 0;
        var rank := Rank(if mine then 0 else 1, if preview && Edge(size, index) then 0 else 1,
                         if started then 0 else 1, rarity, random(index));
        assert rank == RankOf(q, index);
        candidates := candidates + [Candidate(index, rank)];
      }
    }

    /** One pass over the ranked candidates. */
    method ClaimPass(pass: Pass, candidates: seq<Candidate>, count: nat)
      returns (out: seq<Range>)
      requires Valid() && forall c :: c in candidates ==> c.index < |verified|
      modifies this`claims
      ensures ClaimsOk(claims) && |out| <= count
      ensures Issued(old(claims), claims, out, pass)
      ensures forall b :: b in out ==>
                TakenInOrder(size, received.Contents(), claims, pass, candidates, b)
      ensures |out| < count ==>
                forall c :: c in candidates ==>
                  Exhausted(size, received.Contents(), claims, pass, c.index)
    {
      out := [];
      ghost var bytes := received.Contents();
      for n := 0 to |candidates|
        invariant ClaimsOk(claims) && |out| <= count
        invariant Issued(old(claims), claims, out, pass)
        invariant forall b :: b in out ==> TakenInOrder(size, bytes, claims, pass, candidates, b)
        invariant |out| < count ==> ExhaustedBefore(size, bytes, claims, pass, candidates, n)
      {
        if |out| >= count {
          return;
        }
        ghost var mid := claims;
        assert candidates[n] in candidates;
        var blocks := ClaimGaps(pass, candidates[n].index, count - |out|);
        PassStep(old(claims), mid, claims, size, bytes, pass, candidates, n, out, blocks);
        out := out + blocks;
      }
    }

    /**
     Claims up to `count` blocks. Stale claims of others are duplicated only when every byte the
     source holds is claimed already; a part is used only when better-ranked parts have nothing
     left; fewer than `count` blocks come back only when nothing unblocked is left.
     */
    method ClaimBlocks(owner: Owner, available: seq<bool>, count: nat, availability: seq<int>,
                       preview: bool, now: real, random: nat -> nat)
      returns (out: seq<Range>)
      requires Valid()
      modifies this`claims
      ensures Valid() && |out| <= count
      ensures var q := old(Asking(owner, available, availability, preview, random));
              && Answers(q, claims, Pass(owner, !HasUnclaimed(q), now), out, count)
              && (HasUnclaimed(q) && count > 0 ==> out != [])
    {
      var ranked := Candidates(owner, available, availability, preview, random);
      var candidates := SortCandidates(ranked);
      SameMembers(ranked, candidates);
      ghost var q := Asking(owner, available, availability, preview, random);
      var pass := Pass(owner, false, now);
      out := ClaimPass(pass, candidates, count);
      PassAnswers(q, claims, pass, candidates, out, count);
      if count > 0 && out == [] {
        ghost var mid := claims;
        pass := Pass(owner, true, now);
        out := ClaimPass(pass, candidates, count);
        IssuedTwice(q.claims, mid, claims, [], out, pass);
        assert [] + out == out;
        PassAnswers(q, claims, pass, candidates, out, count);
      }
    }

    /**
     Gives a block back. No two claims of an owner begin at the same byte, so the removed claim
     is the only one that could be meant; every other claim stays, in place.
     */
    method Release(owner: Owner, range: Range)
      requires Valid()
      modifies this`claims
      ensures Valid()
      ensures forall c :: c in claims <==> c in old(claims) && !(c.owner == owner && c.begin == range.begin)
      ensures |claims| >= |old(claims)| - 1
      ensures forall c :: c in old(claims) && c.owner == owner && c.begin == range.begin ==>
                multiset(claims) == multiset(old(claims)) - multiset{c}
    {
      for k := 0 to |claims|
        invariant claims == old(claims)
        invariant forall i :: 0 <= i < k ==> !(claims[i].owner == owner && claims[i].begin == range.begin)
      {
        if claims[k].begin == range.begin && claims[k].owner == owner {
          OnlyNamed(claims, k);
          claims := claims[..k] + claims[k + 1..];
          return;
        }
      }
    }

    method ReleaseAll(owner: Owner)
      requires Valid()
      modifies this`claims
      ensures Valid()
      ensures multiset(claims) <= multiset(old(claims))
      ensures forall c :: c in claims <==> c in old(claims) && c.owner != owner
    {
      var kept := [];
      for k := 0 to |claims|
        invariant claims == old(claims)
        invariant kept == OthersOf(claims[..k], owner)
      {
        assert claims[..k + 1][..k] == claims[..k];
        if claims[k].owner != owner {
          kept := kept + [claims[k]];
        }
      }
      assert claims[..|claims|] == claims;
      OthersKept(claims, owner);
      claims := kept;
    }

    /** True exactly when [begin, end) lies inside one block `owner` claimed. */
    method IsClaimed(owner: Owner, begin: int, end: int) returns (r: bool)
      ensures r <==> exists c :: c in claims && c.owner == owner && c.begin <= begin && end <= c.end
    {
      for k := 0 to |claims|
        invariant forall i :: 0 <= i < k ==>
                    !(claims[i].owner == owner && claims[i].begin <= begin && end <= claims[i].end)
      {
        if claims[k].owner == owner && claims[k].begin <= begin && end <= claims[k].end {
          assert claims[k] in claims;
          return true;
        }
      }
      return false;
    }
  }

  function OthersOf(claims: seq<Claim>, owner: Owner): seq<Claim> {
    if claims == [] then []
    else
      var c := claims[|claims| - 1];
      OthersOf(claims[..|claims| - 1], owner) + if c.owner != owner then [c] else []
  }

  lemma {:induction false} OthersAre(claims: seq<Claim>, owner: Owner)
    ensures multiset(OthersOf(claims, owner)) <= multiset(claims)
    ensures forall c :: c in OthersOf(claims, owner) <==> c in claims && c.owner != owner
  {
    if claims == [] {
    } else {
      var init, last := claims[..|claims| - 1], claims[|claims| - 1];
      assert claims == init + [last];
      OthersAre(init, owner);
    }
  }

  lemma {:induction false} OthersOk(claims: seq<Claim>, owner: Owner)
    requires ClaimsOk(claims)
    ensures ClaimsOk(OthersOf(claims, owner))
  {
    if claims == [] {
    } else {
      var init, last := claims[..|claims| - 1], claims[|claims| - 1];
      OthersOk(init, owner);
      if last.owner != owner {
        var kept := OthersOf(init, owner);
        forall i | 0 <= i < |kept| ensures Ordered(kept[i], last) {
          KeptBefore(claims, owner, i);
        }
        InsertPairwise(kept, |kept|, last, Ordered);
        assert kept[..|kept|] + [last] + kept[|kept|..] == kept + [last];
      }
    }
  }

  lemma KeptBefore(claims: seq<Claim>, owner: Owner, i: nat)
    requires ClaimsOk(claims) && claims != [] && i < |OthersOf(claims[..|claims| - 1], owner)|
    ensures Ordered(OthersOf(claims[..|claims| - 1], owner)[i], claims[|claims| - 1])
  {
    var init := claims[..|claims| - 1];
    OthersAre(init, owner);
    var c := OthersOf(init, owner)[i];
    assert c in OthersOf(init, owner);
    var j :| 0 <= j < |init| && init[j] == c;
    assert Ordered(claims[j], claims[|claims| - 1]);
  }

  lemma OthersKept(claims: seq<Claim>, owner: Owner)
    requires ClaimsOk(claims)
    ensures ClaimsOk(OthersOf(claims, owner))
    ensures multiset(OthersOf(claims, owner)) <= multiset(claims)
    ensures forall c :: c in OthersOf(claims, owner) <==> c in claims && c.owner != owner
  {
    OthersAre(claims, owner);
    OthersOk(claims, owner);
  }

  lemma Survives(claims: seq<Claim>, k: nat, c: Claim)
    requires ClaimsOk(claims) && k < |claims|
    ensures c in claims[..k] + claims[k + 1..] <==>
            c in claims && !(c.owner == claims[k].owner && c.begin == claims[k].begin)
  {
  }

  /** Erasing one claim removes every claim of its owner at that begin, and nothing else. */
  lemma OnlyNamed(claims: seq<Claim>, k: nat)
    requires ClaimsOk(claims) && k < |claims|
    ensures var rest := claims[..k] + claims[k + 1..];
            && ClaimsOk(rest)
            && multiset(rest) == multiset(claims) - multiset{claims[k]}
            && forall c :: c in rest <==>
                 c in claims && !(c.owner == claims[k].owner && c.begin == claims[k].begin)
  {
    RemovePairwise(claims, k, Ordered);
    forall c
      ensures c in claims[..k] + claims[k + 1..] <==>
              c in claims && !(c.owner == claims[k].owner && c.begin == claims[k].begin)
    {
      Survives(claims, k, c);
    }
  }

  lemma SameMembers<T>(a: seq<T>, b: seq<T>)
    requires multiset(a) == multiset(b)
    ensures forall x :: x in a <==> x in b
  {
    forall x ensures x in a <==> x in b {
      assert x in a <==> x in multiset(a);
      assert x in b <==> x in multiset(b);
    }
  }

  /** A request answered in full: what was claimed, from where, in which order, and why no more. */
  ghost predicate Answers(q: Query, after: seq<Claim>, pass: Pass, out: seq<Range>, count: nat) {
    // Exactly the returned blocks are claimed, none over a claim that blocks it.
    && Issued(q.claims, after, out, pass)
    && (forall b :: b in out ==> exists i: nat :: EligibleFor(q, i) && BlockOf(q.size, q.received, i, b))
    // Short answers leave nothing unblocked.
    && (|out| < count ==> forall x :: WantedBy(q, x) ==> Blocked(after, pass, x))
    // A part is used only when every better-ranked eligible part has nothing left.
    && (forall b, i: nat, j: nat ::
          b in out && BlockOf(q.size, q.received, j, b) && EligibleFor(q, i) && Before(RankOf(q, i), RankOf(q, j)) ==>
          Exhausted(q.size, q.received, after, pass, i))
  }

  /** What one pass over the sorted candidates means for the bytes of the file. */
  lemma PassAnswers(q: Query, after: seq<Claim>, pass: Pass, candidates: seq<Candidate>, out: seq<Range>, count: nat)
    requires |q.verified| == PartCount(q.size) && Lists(candidates, q, |q.verified|)
    requires forall i, j :: 0 <= i < j < |candidates| ==> NotAfter(candidates[i], candidates[j])
    requires Issued(q.claims, after, out, pass)
    requires forall b :: b in out ==> TakenInOrder(q.size, q.received, after, pass, candidates, b)
    requires |out| < count ==> forall c :: c in candidates ==> Exhausted(q.size, q.received, after, pass, c.index)
    ensures Answers(q, after, pass, out, count)
    ensures !pass.endgame && out != [] ==> HasUnclaimed(q)
    ensures !pass.endgame && |out| < count && out == [] ==> !HasUnclaimed(q)
  {
    forall b | b in out
      ensures exists i: nat :: EligibleFor(q, i) && BlockOf(q.size, q.received, i, b)
      ensures !pass.endgame ==> HasUnclaimed(q)
    {
      var j := CandidateOf(q.size, q.received, after, pass, candidates, b);
      assert candidates[j] in candidates;
      if !pass.endgame {
        BlockWitness(q, pass, candidates[j].index, b);
      }
    }
    if !pass.endgame && out != [] {
      assert out[0] in out;
    }
    if |out| < count {
      NothingLeft(q, after, pass, candidates);
      if out == [] {
        SameMembers(q.claims, after);
      }
    }
    forall b, i: nat, j: nat |
      b in out && BlockOf(q.size, q.received, j, b) && EligibleFor(q, i) && Before(RankOf(q, i), RankOf(q, j))
      ensures Exhausted(q.size, q.received, after, pass, i)
    {
      BetterRankExhausted(q, after, pass, candidates, b, i, j);
    }
  }

  lemma NothingLeft(q: Query, after: seq<Claim>, pass: Pass, candidates: seq<Candidate>)
    requires |q.verified| == PartCount(q.size) && Lists(candidates, q, |q.verified|)
    requires forall c :: c in candidates ==> Exhausted(q.size, q.received, after, pass, c.index)
    ensures forall x :: WantedBy(q, x) ==> Blocked(after, pass, x)
  {
    forall x | WantedBy(q, x) ensures Blocked(after, pass, x) {
      PartPartition(q.size, x, PartOf(x));
      assert EligibleFor(q, PartOf(x));
      assert Candidate(PartOf(x), RankOf(q, PartOf(x))) in candidates;
    }
  }

  lemma CandidateOf(size: nat, received: set<int>, claims: seq<Claim>, pass: Pass,
                    candidates: seq<Candidate>, b: Range) returns (j: nat)
    requires TakenInOrder(size, received, claims, pass, candidates, b)
    ensures j < |candidates| && BlockOf(size, received, candidates[j].index, b)
    ensures ExhaustedBefore(size, received, claims, pass, candidates, j)
  {
    j :| 0 <= j < |candidates|
      && BlockOf(size, received, candidates[j].index, b)
      && ExhaustedBefore(size, received, claims, pass, candidates, j);
  }

  lemma BlockWitness(q: Query, pass: Pass, index: nat, b: Range)
    requires |q.verified| == PartCount(q.size) && EligibleFor(q, index) && !pass.endgame
    requires BlockOf(q.size, q.received, index, b) && Clear(q.claims, pass, b.begin, b.end)
    ensures HasUnclaimed(q)
  {
    PartPartition(q.size, b.begin, index);
    assert b.begin in Interval(b.begin, b.end);
    assert WantedBy(q, b.begin) && !Claimed(q.claims, b.begin);
  }

  lemma OnePartPerBlock(size: nat, received: set<int>, i: nat, j: nat, b: Range)
    requires BlockOf(size, received, i, b) && BlockOf(size, received, j, b)
    ensures i == j
  {
  }

  lemma BetterRankExhausted(q: Query, claims: seq<Claim>, pass: Pass, candidates: seq<Candidate>, b: Range,
                            i: nat, j: nat)
    requires forall i, j :: 0 <= i < j < |candidates| ==> NotAfter(candidates[i], candidates[j])
    requires Lists(candidates, q, |q.verified|)
    requires EligibleFor(q, i) && Before(RankOf(q, i), RankOf(q, j))
    requires BlockOf(q.size, q.received, j, b) && TakenInOrder(q.size, q.received, claims, pass, candidates, b)
    ensures Exhausted(q.size, q.received, claims, pass, i)
  {
    var k := CandidateOf(q.size, q.received, claims, pass, candidates, b);
    assert candidates[k] in candidates;
    OnePartPerBlock(q.size, q.received, candidates[k].index, j, b);
    var n :| 0 <= n < |candidates| && candidates[n] == Candidate(i, RankOf(q, i));
    BetterIsEarlier(candidates, n, k);
  }

  lemma BetterIsEarlier(candidates: seq<Candidate>, n: nat, k: nat)
    requires n < |candidates| && k < |candidates| && Before(candidates[n].rank, candidates[k].rank)
    requires forall i, j :: 0 <= i < j < |candidates| ==> NotAfter(candidates[i], candidates[j])
    ensures n < k
  {
  }

  ghost predicate ExhaustedBefore(size: nat, received: set<int>, claims: seq<Claim>, pass: Pass,
                                candidates: seq<Candidate>, n: nat)
    requires n <= |candidates|
  {
    forall i :: 0 <= i < n ==> Exhausted(size, received, claims, pass, candidates[i].index)
  }

  /** The block comes from a candidate whose better-placed candidates have nothing left. */
  ghost predicate TakenInOrder(size: nat, received: set<int>, claims: seq<Claim>, pass: Pass,
                             candidates: seq<Candidate>, b: Range)
  {
    exists j :: 0 <= j < |candidates|
             && BlockOf(size, received, candidates[j].index, b)
             && ExhaustedBefore(size, received, claims, pass, candidates, j)
  }

  lemma BlockedGrows(before: seq<Claim>, after: seq<Claim>, blocks: seq<Range>,
                     pass: Pass)
    requires Issued(before, after, blocks, pass)
    ensures forall c :: c in before ==> c in after
    ensures forall x :: Blocked(before, pass, x) ==> Blocked(after, pass, x)
  {
    forall c | c in before ensures c in after {
      assert c in multiset(before);
      assert c in multiset(after);
    }
  }

  lemma IssuedTwice(before: seq<Claim>, mid: seq<Claim>, after: seq<Claim>, a: seq<Range>, b: seq<Range>,
                    pass: Pass)
    requires Issued(before, mid, a, pass) && Issued(mid, after, b, pass)
    ensures Issued(before, after, a + b, pass)
  {
    BlockedGrows(before, mid, a, pass);
    assert ClaimsFor(a + b, pass) == ClaimsFor(a, pass) + ClaimsFor(b, pass);
  }

  lemma PassStep(before: seq<Claim>, mid: seq<Claim>, after: seq<Claim>, size: nat, received: set<int>,
                 pass: Pass, candidates: seq<Candidate>, n: nat,
                 out: seq<Range>, blocks: seq<Range>)
    requires n < |candidates|
    requires Issued(before, mid, out, pass) && Issued(mid, after, blocks, pass)
    requires forall b :: b in out ==> TakenInOrder(size, received, mid, pass, candidates, b)
    requires ExhaustedBefore(size, received, mid, pass, candidates, n)
    requires forall b :: b in blocks ==> BlockOf(size, received, candidates[n].index, b)
    ensures Issued(before, after, out + blocks, pass)
    ensures forall b :: b in out + blocks ==>
              TakenInOrder(size, received, after, pass, candidates, b)
    ensures Exhausted(size, received, after, pass, candidates[n].index) ==>
              ExhaustedBefore(size, received, after, pass, candidates, n + 1)
  {
    IssuedTwice(before, mid, after, out, blocks, pass);
    BlockedGrows(mid, after, blocks, pass);
    forall j | 0 <= j <= |candidates| && ExhaustedBefore(size, received, mid, pass, candidates, j)
      ensures ExhaustedBefore(size, received, after, pass, candidates, j)
    {
    }
    forall b | b in out + blocks
      ensures TakenInOrder(size, received, after, pass, candidates, b)
    {
      if b in out {
        var j :| 0 <= j < |candidates|
              && BlockOf(size, received, candidates[j].index, b)
              && ExhaustedBefore(size, received, mid, pass, candidates, j);
      }
    }
  }

  /** The stretch up to the next multiple of a block length from the start of the part. */
  function GridBlock(part: Range, begin: int, end: int): Range {
    var grid := part.begin + ((begin - part.begin) / BLOCK_LENGTH + 1) * BLOCK_LENGTH;
    Range(begin, Min(end, grid))
  }

  lemma GridBlockOk(size: nat, received: set<int>, index: nat, gap: Range, begin: int, end: int)
    requires var part := Part(size, index); part.begin <= gap.begin && gap.end <= part.end
    requires gap.begin <= begin < end <= gap.end && Interval(gap.begin, gap.end) !! received
    ensures var b := GridBlock(Part(size, index), begin, end);
            BlockOf(size, received, index, b) && b.begin == begin && b.end <= end
  {
  }

  lemma ClearShrinks(claims: seq<Claim>, pass: Pass, begin: int, end: int, to: int)
    requires Clear(claims, pass, begin, end) && to <= end
    ensures Clear(claims, pass, begin, to)
  {
  }

  /** `after` is `before` plus one claim per block, each free of claims that block it. */
  ghost predicate Issued(before: seq<Claim>, after: seq<Claim>, blocks: seq<Range>,
                         pass: Pass)
  {
    && multiset(after) == multiset(before) + multiset(ClaimsFor(blocks, pass))
    && (forall b :: b in blocks ==> Clear(before, pass, b.begin, b.end))
  }

  lemma IssueStep(before: seq<Claim>, mid: seq<Claim>, blocks: seq<Range>,
                  pass: Pass, b: Range)
    requires Issued(before, mid, blocks, pass) && ClaimsOk(mid)
    requires b.begin < b.end && Clear(mid, pass, b.begin, b.end)
    ensures var after := Emplace(mid, NewClaim(b, pass));
            Issued(before, after, blocks + [b], pass) && ClaimsOk(after)
  {
    var c := NewClaim(b, pass);
    EmplaceMembers(mid, c);
    EmplaceOk(mid, c, pass);
    assert ClaimsFor(blocks + [b], pass) == ClaimsFor(blocks, pass) + [c];
    forall d | d in before ensures d in mid {
      assert d in multiset(before);
      assert d in multiset(mid);
    }
  }

  /** Claiming the grid block at the head of a free stretch keeps everything the allocator promises. */
  lemma ClaimStep(before: seq<Claim>, mid: seq<Claim>, blocks: seq<Range>, pass: Pass,
                  size: nat, received: set<int>, index: nat, from: int, gap: Range, begin: int, end: int)
    requires Issued(before, mid, blocks, pass) && ClaimsOk(mid)
    requires var part := Part(size, index);
             && part.begin <= from <= gap.begin && gap.end <= part.end
             && DoneUpTo(mid, pass, received, part.begin, from)
    requires gap.begin <= begin < end <= gap.end
    requires Interval(from, gap.begin) <= received && Interval(gap.begin, gap.end) !! received
    requires forall x :: gap.begin <= x < begin ==> Blocked(mid, pass, x)
    requires Clear(mid, pass, begin, end)
    ensures var part := Part(size, index);
            var b := GridBlock(part, begin, end);
            var after := Emplace(mid, NewClaim(b, pass));
            && b.begin == begin && b.end <= end
            && BlockOf(size, received, index, b)
            && ClaimsOk(after)
            && Issued(before, after, blocks + [b], pass)
            && DoneUpTo(after, pass, received, part.begin, b.end)
  {
    var part := Part(size, index);
    var block := GridBlock(part, begin, end);
    DoneExtends(mid, pass, received, part.begin, from, gap.begin, begin);
    GridBlockOk(size, received, index, gap, begin, end);
    ClearShrinks(mid, pass, begin, end, block.end);
    IssueStep(before, mid, blocks, pass, block);
    DoneStep(mid, pass, received, part.begin, NewClaim(block, pass));
  }

  /** Every missing byte of [begin, end) is blocked. */
  ghost predicate DoneUpTo(claims: seq<Claim>, pass: Pass,
                           received: set<int>, begin: int, end: int)
  {
    forall x :: begin <= x < end && x !in received ==> Blocked(claims, pass, x)
  }

  lemma DoneExtends(claims: seq<Claim>, pass: Pass,
                    received: set<int>, begin: int, from: int, gap: int, to: int)
    requires DoneUpTo(claims, pass, received, begin, from)
    requires Interval(from, gap) <= received
    requires forall x :: gap <= x < to ==> Blocked(claims, pass, x)
    ensures DoneUpTo(claims, pass, received, begin, to)
  {
  }

  lemma DoneStep(claims: seq<Claim>, pass: Pass,
                 received: set<int>, begin: int, c: Claim)
    requires DoneUpTo(claims, pass, received, begin, c.begin)
    requires c.owner == pass.owner
    ensures DoneUpTo(Emplace(claims, c), pass, received, begin, c.end)
  {
    EmplaceMembers(claims, c);
    forall x | begin <= x < c.end && x !in received
      ensures Blocked(Emplace(claims, c), pass, x)
    {
      if x < c.begin {
        var d :| d in claims && Blocking(d, pass) && Holds(d, x);
        assert d in Emplace(claims, c);
      } else {
        assert c in Emplace(claims, c) && Holds(c, x);
      }
    }
  }

  ghost predicate Clear(claims: seq<Claim>, pass: Pass, begin: int, end: int) {
    forall c :: c in claims && Blocking(c, pass) ==> c.end <= begin || end <= c.begin
  }

  /** No byte of the part is both missing and free to this owner. */
  ghost predicate Exhausted(size: nat, received: set<int>, claims: seq<Claim>, pass: Pass, index: nat)
  {
    DoneUpTo(claims, pass, received, Part(size, index).begin, Part(size, index).end)
  }
}
