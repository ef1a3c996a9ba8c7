/**
 Division of a server's connections among its downloads: one seat each in
 joining order, each further one to whoever has the most work left for every
 connection it holds.
 */
module Dhondt {

  import opened Base

  /** What one download asks for: connections and remaining bytes (-1 when unknown). */
  datatype Share = Share(wanted: int, remaining: int)

  function Weight(s: Share): (w: real)
    ensures w >= 1.0
  {
    Max(1, s.remaining) as real
  }

  function Quotient(s: Share, given: int): real
    requires given >= 0
  {
    Weight(s) / (given + 1) as real
  }

  /** May receive another seat. */
  predicate Hungry(s: Share, given: int) {
    0 < given < s.wanted
  }

  /** First index below `n` with the largest quotient among the hungry. */
  function Best(list: seq<Share>, given: seq<int>, n: nat): (best: Option<nat>)
    requires n <= |list| == |given|
    ensures best == None <==> forall i :: 0 <= i < n ==> !Hungry(list[i], given[i])
    ensures best.Some? ==>
              && best.value < n && Hungry(list[best.value], given[best.value])
              && (forall i :: 0 <= i < n && Hungry(list[i], given[i]) ==>
                    Quotient(list[best.value], given[best.value]) >= Quotient(list[i], given[i]))
  {
    if n == 0 then None
    else
      var before := Best(list, given, n - 1);
      var i := n - 1;
      if !Hungry(list[i], given[i]) then before
      else if before == None ||
              Quotient(list[i], given[i]) > Quotient(list[before.value], given[before.value]) then Some(i)
      else before
  }

  /** One more seat to the largest quotient, if anyone is hungry. */
  function Grant(list: seq<Share>, given: seq<int>): (r: seq<int>)
    requires |list| == |given|
    ensures |r| == |given|
  {
    match Best(list, given, |list|)
    case None => given
    case Some(b) => given[b := given[b] + 1]
  }

  function Distribute(list: seq<Share>, given: seq<int>, seats: nat): (r: seq<int>)
    requires |list| == |given|
    ensures |r| == |given|
    decreases seats
  {
    if seats == 0 then given else Distribute(list, Grant(list, given), seats - 1)
  }

  function FirstSeats(n: nat, seats: nat): (r: seq<int>)
    ensures |r| == n
  {
    seq(n, i => if i < seats then 1 else 0)
  }

  /** The seats of each download; without a limit everyone gets what it wants. */
  function Seats(list: seq<Share>, limit: int): (r: seq<int>)
    ensures |r| == |list|
  {
    if limit <= 0 then
      seq(|list|, i requires 0 <= i < |list| => list[i].wanted)
    else
      Distribute(list, FirstSeats(|list|, limit), if limit <= |list| then 0 else limit - |list|)
  }

  /** The inner loop: the hungry download with the largest quotient, the earliest of equals. */
  method FindBest(list: seq<Share>, given: seq<int>) returns (best: Option<nat>)
    requires |list| == |given| && forall k :: 0 <= k < |given| ==> given[k] >= 0
    ensures best == Best(list, given, |list|)
  {
    var bestQuotient := 0.0;
    best := None;
    for k := 0 to |list|
      invariant best == Best(list, given, k)
      invariant best.Some? ==> bestQuotient == Quotient(list[best.value], given[best.value])
    {
      if given[k] == 0 || given[k] >= list[k].wanted {
        continue;
      }
      var quotient := Quotient(list[k], given[k]);
      if best == None || quotient > bestQuotient {
        best, bestQuotient := Some(k), quotient;
      }
    }
  }

  /** The allocator's loops compute exactly `Seats`. */
  method Allocate(list: seq<Share>, limit: int) returns (given: seq<int>)
    ensures given == Seats(list, limit)
  {
    if limit <= 0 {
      given := seq(|list|, i requires 0 <= i < |list| => list[i].wanted);
      return;
    }
    var seats: nat := limit;
    given := seq(|list|, _ => 0);
    var i := 0;
    while i < |list| && seats > 0
      invariant 0 <= i <= |list| && |given| == |list| && seats == limit - i
      invariant given == FirstSeats(|list|, i)
    {
      given := given[i := 1];
      i, seats := i + 1, seats - 1;
    }
    assert given == FirstSeats(|list|, limit);
    given := GrantAll(list, given, seats);
  }

  /** The second loop: the remaining seats, one at a time. */
  method GrantAll(list: seq<Share>, start: seq<int>, total: nat) returns (given: seq<int>)
    requires |list| == |start| && forall k :: 0 <= k < |start| ==> start[k] >= 0
    ensures given == Distribute(list, start, total)
  {
    given := start;
    var seats := total;
    ghost var target := Distribute(list, start, total);
    while seats > 0
      invariant |given| == |list| && forall k :: 0 <= k < |given| ==> given[k] >= 0
      invariant Distribute(list, given, seats) == target
    {
      var best := FindBest(list, given);
      if best == None {
        Settled(list, given, seats);
        break;
      }
      GrantAtBest(list, given, seats, best.value);
      given := given[best.value := given[best.value] + 1];
      seats := seats - 1;
    }
  }

  lemma GrantAtBest(list: seq<Share>, given: seq<int>, seats: nat, b: nat)
    requires |list| == |given| && seats > 0 && Best(list, given, |list|) == Some(b)
    ensures Distribute(list, given, seats) == Distribute(list, given[b := given[b] + 1], seats - 1)
  {
  }

  lemma OneGrant(list: seq<Share>, given: seq<int>, seats: nat)
    requires |list| == |given| && seats > 0
    ensures Distribute(list, given, seats) == Distribute(list, Grant(list, given), seats - 1)
  {
  }

  lemma {:induction false} Settled(list: seq<Share>, given: seq<int>, seats: nat)
    requires |list| == |given| && Best(list, given, |list|) == None
    ensures Distribute(list, given, seats) == given
  {
    if seats == 0 {
    } else {
      Settled(list, given, seats - 1);
    }
  }

  // ---------------------------------------------------------------------------
  // What the allocation guarantees
  // ---------------------------------------------------------------------------

  function Sum(s: seq<int>): int {
    if s == [] then 0 else Sum(s[..|s| - 1]) + s[|s| - 1]
  }

  function Wishes(list: seq<Share>): (r: seq<int>)
    ensures |r| == |list|
  {
    seq(|list|, i requires 0 <= i < |list| => list[i].wanted)
  }

  ghost predicate Sane(list: seq<Share>) {
    forall i :: 0 <= i < |list| ==> list[i].wanted >= 1
  }

  ghost predicate Within(list: seq<Share>, given: seq<int>) {
    |given| == |list| && forall i :: 0 <= i < |list| ==> 0 <= given[i] <= list[i].wanted
  }

  /** No seat beyond the first is worth more to a seated download that wants one more. */
  predicate FairPair(a: Share, x: int, b: Share, y: int) {
    x >= 2 && Hungry(b, y) ==> Weight(a) * (y + 1) as real >= Weight(b) * x as real
  }

  ghost predicate Fair(list: seq<Share>, given: seq<int>) {
    |given| == |list|
    && forall i, j :: 0 <= i < |list| && 0 <= j < |list| ==> FairPair(list[i], given[i], list[j], given[j])
  }

  lemma CrossMultiply(a: real, b: real, c: real, d: real)
    requires b > 0.0 && d > 0.0 && a / b >= c / d
    ensures a * d >= c * b
  {
  }

  lemma GrowPair(a: Share, x: int, b: Share, y: int)
    requires y >= 1 && FairPair(a, x, b, y)
    requires Hungry(b, y)
    ensures FairPair(a, x, b, y + 1)
  {
  }

  lemma BestPair(a: Share, x: int, b: Share, y: int)
    requires x >= 1 && y >= 1 && Quotient(a, x) >= Quotient(b, y)
    ensures FairPair(a, x + 1, b, y)
  {
    CrossMultiply(Weight(a), (x + 1) as real, Weight(b), (y + 1) as real);
  }

  lemma GrantFair(list: seq<Share>, given: seq<int>)
    requires Within(list, given) && Fair(list, given)
    ensures Within(list, Grant(list, given)) && Fair(list, Grant(list, given))
  {
    var r := Grant(list, given);
    var best := Best(list, given, |list|);
    if best.Some? {
      var b := best.value;
      forall i, j | 0 <= i < |list| && 0 <= j < |list| ensures FairPair(list[i], r[i], list[j], r[j]) {
        assert FairPair(list[i], given[i], list[j], given[j]);
        if i == b && j == b {
          assert Weight(list[b]) * (r[b] + 1) as real >= Weight(list[b]) * r[b] as real;
        } else if i == b {
          if Hungry(list[j], given[j]) {
            BestPair(list[b], given[b], list[j], given[j]);
          }
        } else if j == b {
          GrowPair(list[i], given[i], list[b], given[b]);
        }
      }
    }
  }

  lemma {:induction false} DistributeFair(list: seq<Share>, given: seq<int>, seats: nat)
    requires Within(list, given) && Fair(list, given)
    ensures Within(list, Distribute(list, given, seats)) && Fair(list, Distribute(list, given, seats))
    decreases seats
  {
    if seats == 0 {
    } else {
      GrantFair(list, given);
      DistributeFair(list, Grant(list, given), seats - 1);
    }
  }

  lemma {:induction false} SumUpdate(s: seq<int>, k: nat, v: int)
    requires k < |s|
    ensures Sum(s[k := v]) == Sum(s) - s[k] + v
  {
    var n := |s| - 1;
    if k < n {
      SumUpdate(s[..n], k, v);
      assert s[k := v][..n] == s[..n][k := v];
    } else {
      assert s[k := v][..n] == s[..n];
    }
  }

  lemma {:induction false} SumOrder(a: seq<int>, b: seq<int>)
    requires |a| == |b| && forall i :: 0 <= i < |a| ==> a[i] <= b[i]
    ensures Sum(a) <= Sum(b)
    ensures Sum(a) == Sum(b) ==> a == b
  {
    if a == [] {
    } else {
      var n := |a| - 1;
      SumOrder(a[..n], b[..n]);
      assert a == a[..n] + [a[n]] && b == b[..n] + [b[n]];
    }
  }

  /** Nobody is hungry, so every wish is met. */
  lemma SettledSum(list: seq<Share>, given: seq<int>, seats: nat)
    requires Within(list, given) && (forall i :: 0 <= i < |given| ==> given[i] >= 1)
    requires Best(list, given, |list|) == None
    ensures Sum(Distribute(list, given, seats)) == Sum(given) == Sum(Wishes(list))
  {
    Settled(list, given, seats);
    assert given == Wishes(list);
  }

  /** With everyone seated, a round of grants uses every seat until all wishes are met. */
  lemma {:induction false} DistributeSum(list: seq<Share>, given: seq<int>, seats: nat)
    requires Within(list, given) && forall i :: 0 <= i < |given| ==> given[i] >= 1
    ensures Sum(Distribute(list, given, seats)) == Min(Sum(given) + seats, Sum(Wishes(list)))
    decreases seats
  {
    if seats == 0 {
      SumOrder(given, Wishes(list));
    } else if Best(list, given, |list|) == None {
      SettledSum(list, given, seats);
    } else {
      var next := Grant(list, given);
      GrantSum(list, given);
      OneGrant(list, given, seats);
      DistributeSum(list, next, seats - 1);
    }
  }

  lemma GrantSum(list: seq<Share>, given: seq<int>)
    requires Within(list, given) && Best(list, given, |list|).Some?
    ensures Sum(Grant(list, given)) == Sum(given) + 1 && Within(list, Grant(list, given))
    ensures forall i :: 0 <= i < |given| ==> given[i] <= Grant(list, given)[i]
  {
    var b := Best(list, given, |list|).value;
    SumUpdate(given, b, given[b] + 1);
  }

  lemma {:induction false} DistributeGrows(list: seq<Share>, given: seq<int>, seats: nat)
    requires |list| == |given|
    ensures forall i :: 0 <= i < |given| ==> given[i] <= Distribute(list, given, seats)[i]
    decreases seats
  {
    if seats == 0 {
    } else {
      DistributeGrows(list, Grant(list, given), seats - 1);
      OneGrant(list, given, seats);
    }
  }

  lemma {:induction false} FirstSeatsSum(n: nat, seats: nat)
    ensures Sum(FirstSeats(n, seats)) == Min(n, seats)
  {
    if n == 0 {
    } else {
      FirstSeatsSum(n - 1, seats);
      assert FirstSeats(n, seats)[..n - 1] == FirstSeats(n - 1, seats);
    }
  }

  /**
   Within every wish; all of the limit or all that is wanted; a seat for everyone when there are
   enough, else for the first to come; and no second seat that another would have used better.
   */
  lemma Allocation(list: seq<Share>, limit: int)
    requires Sane(list) && limit > 0
    ensures Within(list, Seats(list, limit))
    ensures Sum(Seats(list, limit)) == Min(limit, Sum(Wishes(list)))
    ensures limit >= |list| ==> forall i :: 0 <= i < |list| ==> Seats(list, limit)[i] >= 1
    ensures limit < |list| ==> forall i :: 0 <= i < |list| ==> Seats(list, limit)[i] == if i < limit then 1 else 0
    ensures Fair(list, Seats(list, limit))
  {
    var first, rest := FirstSeats(|list|, limit), if limit <= |list| then 0 else limit - |list|;
    AllocationSum(list, limit);
    DistributeFair(list, first, rest);
    DistributeGrows(list, first, rest);
  }

  lemma AllocationSum(list: seq<Share>, limit: int)
    requires Sane(list) && limit > 0
    ensures Sum(Seats(list, limit)) == Min(limit, Sum(Wishes(list)))
  {
    var first := FirstSeats(|list|, limit);
    FirstSeatsSum(|list|, limit);
    if limit <= |list| {
      SumOrder(first, Wishes(list));
    } else {
      DistributeSum(list, first, limit - |list|);
    }
  }

  /** A limit that covers every wish gives the same as no limit. */
  lemma LimitCoversAll(list: seq<Share>, limit: int)
    requires Sane(list) && limit >= Sum(Wishes(list)) && limit > 0
    ensures Seats(list, limit) == Seats(list, 0)
  {
    Allocation(list, limit);
    SumOrder(Seats(list, limit), Wishes(list));
  }

  // ---------------------------------------------------------------------------
  // Growing the limit by one
  // ---------------------------------------------------------------------------

  /** The last grant of a longer distribution comes on top of the shorter one. */
  lemma {:induction false} LastGrant(list: seq<Share>, given: seq<int>, seats: nat)
    requires |list| == |given|
    ensures Distribute(list, given, seats + 1) == Grant(list, Distribute(list, given, seats))
    decreases seats
  {
    if seats == 0 {
    } else {
      LastGrant(list, Grant(list, given), seats - 1);
    }
  }

  /** One more connection takes nothing away from anyone (house monotonicity), nor does lifting the limit. */
  lemma HouseMonotone(list: seq<Share>, limit: int)
    requires Sane(list) && limit > 0
    ensures forall i :: 0 <= i < |list| ==> Seats(list, limit)[i] <= Seats(list, limit + 1)[i]
    ensures forall i :: 0 <= i < |list| ==> Seats(list, limit)[i] <= Seats(list, 0)[i]
  {
    assert Within(list, Seats(list, limit)) by {
      Allocation(list, limit);
    }
    OneMoreSeat(list, limit);
  }

  lemma OneMoreSeat(list: seq<Share>, limit: int)
    requires limit > 0
    ensures forall i :: 0 <= i < |list| ==> Seats(list, limit)[i] <= Seats(list, limit + 1)[i]
  {
    if limit < |list| {
      OneMoreFirst(list, limit);
    } else {
      OneMoreGrant(list, limit);
    }
  }

  lemma OneMoreFirst(list: seq<Share>, limit: int)
    requires 0 < limit < |list|
    ensures Seats(list, limit + 1) == Seats(list, limit)[limit := 1] && Seats(list, limit)[limit] == 0
  {
  }

  lemma OneMoreGrant(list: seq<Share>, limit: int)
    requires limit >= |list| && limit > 0
    ensures forall i :: 0 <= i < |list| ==> Seats(list, limit)[i] <= Seats(list, limit + 1)[i]
  {
    var first := FirstSeats(|list|, limit);
    assert FirstSeats(|list|, limit + 1) == first;
    LastGrant(list, first, limit - |list|);
    GrantGrows(list, Distribute(list, first, limit - |list|));
  }

  lemma GrantGrows(list: seq<Share>, given: seq<int>)
    requires |list| == |given|
    ensures forall i :: 0 <= i < |given| ==> given[i] <= Grant(list, given)[i]
  {
  }

  /** A higher limit, or none, takes nothing away from anyone. */
  lemma {:induction false} SeatsGrow(list: seq<Share>, limit: int, limit': int, i: nat)
    requires Sane(list) && i < |list|
    requires limit' == limit || (limit > 0 && (limit' > limit || limit' == 0))
    ensures Seats(list, limit)[i] <= Seats(list, limit')[i]
    decreases limit' - limit
  {
    if limit' == limit {
    } else {
      HouseMonotone(list, limit);
      if limit' != 0 {
        SeatsGrow(list, limit + 1, limit', i);
      }
    }
  }

  // ---------------------------------------------------------------------------
  // Optimality
  // ---------------------------------------------------------------------------

  lemma Surplus(a: seq<int>, b: seq<int>) returns (j: nat)
    requires |a| == |b| && Sum(a) == Sum(b) && a != b
    ensures j < |a| && a[j] > b[j]
  {
    if forall i :: 0 <= i < |a| ==> a[i] <= b[i] {
      SumOrder(a, b);
    }
    j :| 0 <= j < |a| && a[j] > b[j];
  }

  /**
   Any other division of the same connections that seats everyone gives some download a second
   seat with no more work behind it than every second seat of this one has.
   */
  lemma BestWorstSeat(list: seq<Share>, limit: int, other: seq<int>) returns (j: nat)
    requires Sane(list) && limit >= |list| && limit > 0
    requires Within(list, other) && (forall i :: 0 <= i < |other| ==> other[i] >= 1)
    requires Sum(other) == Sum(Seats(list, limit)) && other != Seats(list, limit)
    ensures j < |list| && other[j] >= 2
    ensures forall i :: 0 <= i < |list| && Seats(list, limit)[i] >= 2 ==>
              Weight(list[j]) / other[j] as real <= Weight(list[i]) / Seats(list, limit)[i] as real
  {
    var given := Seats(list, limit);
    Allocation(list, limit);
    j := Surplus(other, given);
    forall i | 0 <= i < |list| && given[i] >= 2
      ensures Weight(list[j]) / other[j] as real <= Weight(list[i]) / given[i] as real
    {
      assert FairPair(list[i], given[i], list[j], given[j]);
      FairSeat(list[i], given[i], list[j], given[j], other[j]);
    }
  }

  lemma FairSeat(a: Share, x: int, b: Share, y: int, z: int)
    requires FairPair(a, x, b, y) && x >= 2 && Hungry(b, y) && y < z
    ensures Weight(b) / z as real <= Weight(a) / x as real
  {
    WorseQuotient(Weight(a), x as real, Weight(b), (y + 1) as real, z as real);
  }

  lemma WorseQuotient(a: real, x: real, b: real, y: real, z: real)
    requires a > 0.0 && b > 0.0 && x > 0.0 && 0.0 < y <= z
    requires a * y >= b * x
    ensures b / z <= a / x
  {
  }
}
