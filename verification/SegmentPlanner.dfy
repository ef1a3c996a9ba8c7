/**
 Which byte range each connection of an HTTP download fetches: gaps first,
 then part of what the slowest worker has left, then a second copy where one
 range delays the whole.
 */
module Segments {

  import opened Base
  import opened Ranges

  const UNBOUNDED: int := 0x7fff_ffff_ffff_ffff
  const ALIGNMENT: int := 4096
  const RACE_SECONDS: real := 2.0
  const MEASURE_SECONDS: real := 1.0
  const MIN_RACE_SECONDS: real := 0.5
  const MIN_SPLIT_FLOOR: int := 65536
  const MAX_COPIES: int := 3

  /** `position` is the next byte, `end` the assigned end, `requestEnd` the end the request asked for. */
  datatype Worker = Worker(position: int, end: int, requestEnd: int, receiving: bool, speed: real, age: real)

  type Workers = map<int, Worker>

  function Starting(r: Range): Worker {
    Worker(r.begin, r.end, r.end, false, 0.0, 0.0)
  }

  // ---------------------------------------------------------------------------
  // Ownership
  // ---------------------------------------------------------------------------

  /** The bytes a worker has still to receive. */
  ghost function Left(w: Worker): set<int> {
    Interval(w.position, w.end)
  }

  /** The bytes some worker has still to receive. */
  ghost function Owned(workers: Workers): set<int> {
    set id, x | id in workers && x in Left(workers[id]) :: x
  }

  ghost function OwnedAmong(workers: Workers, ids: seq<int>): set<int> {
    set id, x | id in ids && id in workers && x in Left(workers[id]) :: x
  }

  lemma AmongStep(workers: Workers, ids: seq<int>, k: nat)
    requires k < |ids| && forall id :: id in ids ==> id in workers
    ensures ids[k] in workers
    ensures OwnedAmong(workers, ids[..k + 1]) == OwnedAmong(workers, ids[..k]) + Left(workers[ids[k]])
  {
    assert ids[k] in ids;
    assert ids[..k + 1] == ids[..k] + [ids[k]];
    forall id ensures id in ids[..k + 1] <==> id in ids[..k] || id == ids[k] {
    }
  }

  /** No byte has two owners, and no received byte has one. */
  ghost predicate Apart(workers: Workers, received: set<int>) {
    && (forall i, j :: i in workers && j in workers && i != j ==> Left(workers[i]) !! Left(workers[j]))
    && (forall i :: i in workers ==> Left(workers[i]) !! received)
  }

  lemma OwnedBy(workers: Workers, id: int)
    requires id in workers
    ensures Owned(workers) == Owned(workers - {id}) + Left(workers[id])
  {
    forall x ensures x in Owned(workers) <==> x in Owned(workers - {id}) + Left(workers[id]) {
      if x in Owned(workers) {
        var i :| i in workers && x in Left(workers[i]);
        if i != id {
          assert i in workers - {id} && x in Left((workers - {id})[i]);
        }
      }
      if x in Owned(workers - {id}) {
        var i :| i in workers - {id} && x in Left((workers - {id})[i]);
        assert x in Left(workers[i]);
      }
    }
  }

  lemma OwnedUpdate(workers: Workers, id: int, w: Worker)
    ensures Owned(workers[id := w]) == Owned(workers - {id}) + Left(w)
  {
    OwnedBy(workers[id := w], id);
    assert workers[id := w] - {id} == workers - {id};
  }

  /** A new or changed worker whose bytes nobody else owns keeps owners apart. */
  lemma ApartUpdate(workers: Workers, received: set<int>, id: int, w: Worker)
    requires Apart(workers - {id}, received)
    requires Left(w) !! Owned(workers - {id}) && Left(w) !! received
    ensures Apart(workers[id := w], received)
  {
    var rest, workers' := workers - {id}, workers[id := w];
    forall i | i in workers' && i != id ensures i in rest && workers'[i] == rest[i] && Left(rest[i]) <= Owned(rest) {
      assert i in rest;
    }
    forall i, j | i in workers' && j in workers' && i != j ensures Left(workers'[i]) !! Left(workers'[j]) {
      if i != id && j != id {
        assert i in rest && j in rest;
      }
    }
  }

  lemma ApartRest(workers: Workers, received: set<int>, id: int)
    requires Apart(workers, received)
    ensures Apart(workers - {id}, received)
    ensures id in workers ==> Left(workers[id]) !! Owned(workers - {id})
  {
  }

  // ---------------------------------------------------------------------------
  // Speeds
  // ---------------------------------------------------------------------------

  predicate Delivering(w: Worker) {
    w.receiving && w.speed > 0.0
  }

  function SpeedSum(ids: seq<int>, workers: Workers, except: int): (r: (real, nat))
    requires forall id :: id in ids ==> id in workers
    ensures r.0 >= 0.0 && (r.1 > 0 ==> r.0 > 0.0)
  {
    if ids == [] then (0.0, 0)
    else
      var id := ids[|ids| - 1];
      assert id in ids;
      var before := SpeedSum(ids[..|ids| - 1], workers, except);
      if id != except && Delivering(workers[id]) then (before.0 + workers[id].speed, before.1 + 1) else before
  }

  /** The average speed of the connections that deliver, 0 when none does. */
  function TypicalSpeed(workers: Workers, except: int): real {
    Mean(SpeedSum(InOrder(workers.Keys), workers, except))
  }

  function Mean(sum: (real, nat)): real {
    if sum.1 == 0 then 0.0 else sum.0 / sum.1 as real
  }

  /** Its own measured speed once the sample is old enough, before that what the others do. */
  function ExpectedSpeed(w: Worker, typical: real): real {
    var measured := w.receiving && w.age >= MEASURE_SECONDS;
    if measured && w.speed > 0.0 then w.speed else typical
  }

  /** `keep` is the weight of the past; the first sample counts in full. */
  function Smoothed(was: real, sample: real, keep: real): real {
    if was > 0.0 then was * keep + sample * (1.0 - keep) else sample
  }

  function SmoothedOver(was: real, samples: seq<real>, keep: real): real {
    if samples == [] then was
    else Smoothed(SmoothedOver(was, samples[..|samples| - 1], keep), samples[|samples| - 1], keep)
  }

  /** A figure between two bounds stays there as long as the samples do. */
  lemma SmoothedBetween(was: real, sample: real, keep: real, low: real, high: real)
    requires 0.0 <= keep <= 1.0 && low <= was <= high && low <= sample <= high
    ensures low <= Smoothed(was, sample, keep) <= high
  {
    Weighted(was - low, sample - low, keep);
    Weighted(high - was, high - sample, keep);
  }

  lemma Weighted(x: real, y: real, keep: real)
    requires 0.0 <= keep <= 1.0 && x >= 0.0 && y >= 0.0
    ensures x * keep + y * (1.0 - keep) >= 0.0
  {
    assert x * keep >= 0.0 && y * (1.0 - keep) >= 0.0;
  }

  /** After any samples at all the figure lies between the least and the greatest of them. */
  lemma {:induction false} SmoothedWithin(was: real, samples: seq<real>, keep: real, low: real, high: real)
    requires 0.0 <= keep <= 1.0 && samples != [] && (was <= 0.0 || low <= was <= high)
    requires forall i :: 0 <= i < |samples| ==> low <= samples[i] <= high
    ensures low <= SmoothedOver(was, samples, keep) <= high
  {
    var n := |samples| - 1;
    var before := SmoothedOver(was, samples[..n], keep);
    if n == 0 {
      assert samples[..n] == [];
    } else {
      SmoothedWithin(was, samples[..n], keep, low, high);
    }
    if before > 0.0 {
      SmoothedBetween(before, samples[n], keep, low, high);
    }
  }

  function Faded(gap: real, keep: real, n: nat): real {
    if n == 0 then gap else Faded(gap, keep, n - 1) * keep
  }

  lemma {:induction false} SmoothedPositive(was: real, samples: seq<real>, keep: real)
    requires 0.0 < keep < 1.0 && was > 0.0 && forall i :: 0 <= i < |samples| ==> samples[i] >= 0.0
    ensures SmoothedOver(was, samples, keep) > 0.0
  {
    if samples == [] {
    } else {
      var n := |samples| - 1;
      SmoothedPositive(was, samples[..n], keep);
      var before := SmoothedOver(was, samples[..n], keep);
      assert before * keep > 0.0 && samples[n] * (1.0 - keep) >= 0.0;
    }
  }

  lemma SmoothedGap(x: real, y: real, sample: real, keep: real, gap: real)
    requires x > 0.0 && y > 0.0 && x - y == gap
    ensures Smoothed(x, sample, keep) - Smoothed(y, sample, keep) == gap * keep
  {
  }

  /** The past fades: with every sample the influence of the first figure shrinks by the same factor. */
  lemma {:induction false} SmoothedForgets(a: real, b: real, samples: seq<real>, keep: real)
    requires 0.0 < keep < 1.0 && a > 0.0 && b > 0.0 && forall i :: 0 <= i < |samples| ==> samples[i] >= 0.0
    ensures SmoothedOver(a, samples, keep) - SmoothedOver(b, samples, keep) == Faded(a - b, keep, |samples|)
  {
    if samples == [] {
    } else {
      var n := |samples| - 1;
      var init := samples[..n];
      SmoothedPositive(a, init, keep);
      SmoothedPositive(b, init, keep);
      SmoothedForgets(a, b, init, keep);
      SmoothedGap(SmoothedOver(a, init, keep), SmoothedOver(b, init, keep), samples[n], keep, Faded(a - b, keep, n));
    }
  }

  /** No connection is faster than the fastest seen. */
  ghost predicate Paced(workers: Workers, peakSpeed: real) {
    peakSpeed >= 0.0 && forall id {:trigger workers[id].speed} :: id in workers ==> workers[id].speed <= peakSpeed
  }

  lemma PacedUpdate(workers: Workers, peakSpeed: real, id: int, w: Worker)
    requires Paced(workers, peakSpeed) && w.speed <= peakSpeed
    ensures Paced(workers[id := w], peakSpeed)
  {
  }

  ghost predicate SumBelow(sum: (real, nat), bound: real) {
    sum.0 <= bound * sum.1 as real
  }

  lemma SumBelowStep(sum: (real, nat), speed: real, bound: real)
    requires SumBelow(sum, bound) && speed <= bound
    ensures SumBelow((sum.0 + speed, sum.1 + 1), bound)
  {
    assert bound * (sum.1 + 1) as real == bound * sum.1 as real + bound;
  }

  lemma {:induction false} SumPaced(ids: seq<int>, workers: Workers, except: int, peakSpeed: real)
    requires Paced(workers, peakSpeed) && forall id :: id in ids ==> id in workers
    ensures SumBelow(SpeedSum(ids, workers, except), peakSpeed)
  {
    if ids == [] {
    } else {
      var init, id := ids[..|ids| - 1], ids[|ids| - 1];
      assert id in ids;
      SumPaced(init, workers, except, peakSpeed);
      SumBelowStep(SpeedSum(init, workers, except), workers[id].speed, peakSpeed);
    }
  }

  /** The least that is worth splitting off at this speed. */
  function MinSplitFor(minSplit: int, startup: real, speed: real): (least: int)
    requires minSplit > 0
    ensures Min(MIN_SPLIT_FLOOR, minSplit) <= least <= minSplit && least > 0
  {
    if speed <= 0.0 || startup <= 0.0 then
      minSplit
    else
      var worth := (2.0 * speed * startup).Floor;
      Max(Min(worth, minSplit), Min(MIN_SPLIT_FLOOR, minSplit))
  }

  // ---------------------------------------------------------------------------
  // Splitting
  // ---------------------------------------------------------------------------

  predicate Splittable(w: Worker, minSplit: int, startup: real, typical: real)
    requires minSplit > 0
  {
    w.end != UNBOUNDED && w.end - w.position >= 2 * MinSplitFor(minSplit, startup, ExpectedSpeed(w, typical))
  }

  /** Seconds until the worker is expected to finish; unknown speeds compare by size. */
  function TimeLeft(w: Worker, typical: real): real {
    var remaining := (w.end - w.position) as real;
    var speed := ExpectedSpeed(w, typical);
    if speed > 0.0 then remaining / speed else remaining * 0.001
  }

  /** Where both connections are expected to finish together, clamped and aligned. */
  function CutPoint(w: Worker, minSplit: int, startup: real, typical: real): (cut: int)
    requires minSplit > 0 && w.position >= 0 && Splittable(w, minSplit, startup, typical)
    ensures var least := MinSplitFor(minSplit, startup, ExpectedSpeed(w, typical));
            w.position + least <= cut <= w.end - least
  {
    var remaining := w.end - w.position;
    var own := ExpectedSpeed(w, typical);
    var newcomer := if typical > 0.0 then typical else own;
    var share := if own > 0.0 && newcomer > 0.0 then own / (own + newcomer) else 0.5;
    var least := MinSplitFor(minSplit, startup, own);
    var wish := w.position + (remaining as real * share).Floor;
    var cut := Max(Min(wish, w.end - least), w.position + least);
    if cut - cut % ALIGNMENT > w.position + least then cut - cut % ALIGNMENT else cut
  }

  // ---------------------------------------------------------------------------
  // Racing
  // ---------------------------------------------------------------------------

  /** How long a copy may go without data: three start-ups, within bounds. */
  function SilentAfter(startup: real): real {
    if startup <= 0.0 then RACE_SECONDS
    else if 3.0 * startup < MIN_RACE_SECONDS then MIN_RACE_SECONDS
    else if RACE_SECONDS < 3.0 * startup then RACE_SECONDS
    else 3.0 * startup
  }

  predicate Active(w: Worker) {
    w.position < w.end && w.end != UNBOUNDED
  }

  predicate Silent(w: Worker, after: real) {
    !w.receiving && w.age >= after
  }

  predicate Young(w: Worker, after: real) {
    w.age < if w.receiving then RACE_SECONDS else after
  }

  function Speed(w: Worker): real {
    if w.receiving then w.speed else 0.0
  }

  function FinishTime(w: Worker): real {
    if Speed(w) > 0.0 then (w.end - w.position) as real / Speed(w) else 1000000000.0
  }

  /** Copies of one range: the earliest to finish, and how many deliver or stay silent. */
  datatype Group = Group(leader: int, time: real, copies: nat, silent: nat, young: bool)

  function Join(group: Option<Group>, id: int, w: Worker, after: real): Group {
    var g := if group.Some? then group.value else Group(-1, 0.0, 0, 0, false);
    var time := FinishTime(w);
    var leads := g.leader < 0 || time < g.time;
    Group(if leads then id else g.leader, if leads then time else g.time,
          if Silent(w, after) then g.copies else g.copies + 1,
          if Silent(w, after) then g.silent + 1 else g.silent,
          g.young || Young(w, after))
  }

  /** The group of the workers among `ids` that end at `end`. */
  function GroupOf(ids: seq<int>, workers: Workers, after: real, end: int): Option<Group>
    requires forall id :: id in ids ==> id in workers
  {
    if ids == [] then None
    else
      var id := ids[|ids| - 1];
      assert id in ids;
      var before := GroupOf(ids[..|ids| - 1], workers, after, end);
      if Active(workers[id]) && workers[id].end == end then Some(Join(before, id, workers[id], after)) else before
  }

  predicate InGroup(workers: Workers, id: int, end: int) {
    id in workers && Active(workers[id]) && workers[id].end == end
  }

  /**
   The leader finishes first; the group is young when any copy is; silent copies are counted apart. An id below zero
   reads as no leader, so such a copy leads only where every copy has one, and then the last does.
   */
  ghost predicate Describes(g: Group, ids: seq<int>, workers: Workers, after: real, end: int) {
    && g.leader in ids && InGroup(workers, g.leader, end)
    && g.time == FinishTime(workers[g.leader])
    && (forall id :: id in ids && InGroup(workers, id, end) && id >= 0 ==>
          g.leader >= 0 && g.time <= FinishTime(workers[id]))
    && (g.leader < 0 ==> forall id :: id in ids && InGroup(workers, id, end) ==> id <= g.leader)
    && (g.young <==> exists id :: id in ids && InGroup(workers, id, end) && Young(workers[id], after))
    && g.silent == |GroupMembers(ids, workers, after, end, true)|
    && g.copies == |GroupMembers(ids, workers, after, end, false)|
  }

  /** The members of a group that are silent, or those that are not. */
  ghost function GroupMembers(ids: seq<int>, workers: Workers, after: real, end: int, silent: bool): set<int> {
    set id | id in ids && InGroup(workers, id, end) && Silent(workers[id], after) == silent
  }

  ghost predicate GroupRight(group: Option<Group>, ids: seq<int>, workers: Workers, after: real, end: int) {
    match group
    case None => forall id :: id in ids ==> !InGroup(workers, id, end)
    case Some(g) => Describes(g, ids, workers, after, end)
  }

  lemma {:induction false} GroupDescribed(ids: seq<int>, workers: Workers, after: real, end: int)
    requires forall id :: id in ids ==> id in workers
    requires forall i, j :: 0 <= i < j < |ids| ==> ids[i] < ids[j]
    ensures GroupRight(GroupOf(ids, workers, after, end), ids, workers, after, end)
  {
    if ids == [] {
    } else {
      var init, id := ids[..|ids| - 1], ids[|ids| - 1];
      InitOf(ids);
      GroupDescribed(init, workers, after, end);
      var before := GroupOf(init, workers, after, end);
      if InGroup(workers, id, end) {
        JoinDescribed(before, init, id, workers, after, end);
      } else {
        SameGroup(before, init, id, workers, after, end);
      }
    }
  }

  lemma InitOf(ids: seq<int>)
    requires ids != [] && forall i, j :: 0 <= i < j < |ids| ==> ids[i] < ids[j]
    ensures var init, id := ids[..|ids| - 1], ids[|ids| - 1];
            && ids == init + [id]
            && id !in init && id in ids
            && (forall x :: x in init ==> x in ids && x < id)
            && (forall i, j :: 0 <= i < j < |init| ==> init[i] < init[j])
  {
  }

  lemma SameGroup(group: Option<Group>, init: seq<int>, id: int, workers: Workers, after: real, end: int)
    requires id !in init && !InGroup(workers, id, end) && GroupRight(group, init, workers, after, end)
    ensures GroupRight(group, init + [id], workers, after, end)
  {
    MembersStep(init, id, workers, after, end, true);
    MembersStep(init, id, workers, after, end, false);
    assert forall x :: x in init + [id] <==> x in init || x == id;
  }

  lemma MembersStep(init: seq<int>, id: int, workers: Workers, after: real, end: int, silent: bool)
    requires id !in init
    ensures |GroupMembers(init + [id], workers, after, end, silent)| ==
            |GroupMembers(init, workers, after, end, silent)|
            + if InGroup(workers, id, end) && Silent(workers[id], after) == silent then 1 else 0
  {
    var joins := InGroup(workers, id, end) && Silent(workers[id], after) == silent;
    assert GroupMembers(init + [id], workers, after, end, silent)
        == GroupMembers(init, workers, after, end, silent) + if joins then {id} else {};
  }

  lemma JoinDescribed(before: Option<Group>, init: seq<int>, id: int, workers: Workers, after: real, end: int)
    requires (forall i :: i in init ==> i in workers && i < id) && InGroup(workers, id, end)
    requires GroupRight(before, init, workers, after, end)
    ensures Describes(Join(before, id, workers[id], after), init + [id], workers, after, end)
  {
    var ids, g := init + [id], Join(before, id, workers[id], after);
    MembersStep(init, id, workers, after, end, true);
    MembersStep(init, id, workers, after, end, false);
    assert forall x :: x in ids <==> x in init || x == id;
    if before == None {
      assert GroupMembers(init, workers, after, end, true) == {} == GroupMembers(init, workers, after, end, false);
    }
    assert g.young <==> (before.Some? && before.value.young) || Young(workers[id], after);
    forall i | i in ids && InGroup(workers, i, end) && i >= 0
      ensures g.leader >= 0 && g.time <= FinishTime(workers[i])
    {
    }
  }

  /** A copy is worth starting: it would finish well first, and the leader is markedly slow. */
  predicate WorthRacing(g: Group, leader: Worker, startup: real, reference: real) {
    var remaining := (leader.end - leader.position) as real;
    var copy := (if startup > 0.0 then startup else RACE_SECONDS)
                + (if reference > 0.0 then remaining / reference else 0.0);
    && !g.young
    && g.copies < MAX_COPIES
    && g.silent < 2 * MAX_COPIES
    && g.time > MaxReal(MIN_RACE_SECONDS, 1.5 * copy)
    && (reference <= 0.0 || Speed(leader) < reference / 2.0)
  }

  function GroupAt(workers: Workers, startup: real, end: int): Option<Group> {
    GroupOf(InOrder(workers.Keys), workers, SilentAfter(startup), end)
  }

  /** The group that ends at `end` should get another copy. */
  predicate Raceable(workers: Workers, startup: real, peakSpeed: real, end: int) {
    var g := GroupAt(workers, startup, end);
    && g.Some?
    && g.value.leader in workers
    && WorthRacing(g.value, workers[g.value.leader], startup,
                   MaxReal(TypicalSpeed(workers, g.value.leader), peakSpeed))
  }

  lemma MeanBelow(sum: (real, nat), bound: real)
    requires bound >= 0.0 && SumBelow(sum, bound)
    ensures Mean(sum) <= bound
  {
  }

  /** The average of any connections never exceeds the fastest speed seen. */
  lemma TypicalBelow(workers: Workers, except: int, peakSpeed: real)
    requires Paced(workers, peakSpeed)
    ensures TypicalSpeed(workers, except) <= peakSpeed
  {
    var ids := InOrder(workers.Keys);
    SumPaced(ids, workers, except, peakSpeed);
    MeanBelow(SpeedSum(ids, workers, except), peakSpeed);
  }

  /** So a leader is measured against the fastest speed seen, whatever its siblings do. */
  lemma ReferenceIsPeak(workers: Workers, startup: real, peakSpeed: real, end: int)
    requires Paced(workers, peakSpeed)
    ensures var g := GroupAt(workers, startup, end);
            Raceable(workers, startup, peakSpeed, end)
            <==> g.Some? && g.value.leader in workers
                 && WorthRacing(g.value, workers[g.value.leader], startup, peakSpeed)
  {
    var g := GroupAt(workers, startup, end);
    if g.Some? {
      TypicalBelow(workers, g.value.leader, peakSpeed);
      assert MaxReal(TypicalSpeed(workers, g.value.leader), peakSpeed) == peakSpeed;
    }
  }

  // ---------------------------------------------------------------------------
  // Invariants of the planner
  // ---------------------------------------------------------------------------

  /** A worker's end never passes its request or the known length. */
  ghost predicate WorkersOk(workers: Workers, length: int) {
    forall id :: id in workers ==>
     
      && workers[id].position >= 0
      && workers[id].end <= workers[id].requestEnd
      && (length >= 0 ==> workers[id].end <= length)
  }

  /** Where a worker began, what it asked for, and the bytes credited to it so far. */
  datatype Life = Life(begin: int, asked: int, credited: set<int>)

  /** The credited bytes are one run from the worker's first byte, inside its request. */
  ghost predicate OneRun(w: Worker, life: Life) {
    && life.begin <= w.position
    && life.credited == Interval(life.begin, w.position)
    && life.credited <= Interval(life.begin, life.asked)
    && w.requestEnd <= life.asked
  }

  ghost predicate LivesOk(workers: Workers, lives: map<int, Life>) {
    lives.Keys == workers.Keys && forall id :: id in workers ==> OneRun(workers[id], lives[id])
  }

  /** While no byte was deliberately given a second owner, none has one. */
  ghost predicate PlanOk(workers: Workers, lives: map<int, Life>, received: set<int>, length: int, shared: bool) {
    WorkersOk(workers, length) && LivesOk(workers, lives) && (!shared ==> Apart(workers, received))
  }

  lemma NewWorkerOk(workers: Workers, lives: map<int, Life>, length: int, id: int, w: Worker)
    requires WorkersOk(workers, length) && LivesOk(workers, lives)
    requires w.position >= 0 && w.end <= w.requestEnd && (length >= 0 ==> w.end <= length)
    ensures WorkersOk(workers[id := w], length)
    ensures LivesOk(workers[id := w], lives[id := Life(w.position, w.requestEnd, {})])
  {
  }

  /** Shrinking or growing a worker's end inside its request and the length. */
  lemma MovedEndOk(workers: Workers, lives: map<int, Life>, length: int, id: int, end: int)
    requires WorkersOk(workers, length) && LivesOk(workers, lives) && id in workers
    requires end <= workers[id].requestEnd && (length >= 0 ==> end <= length)
    ensures WorkersOk(workers[id := workers[id].(end := end)], length)
    ensures LivesOk(workers[id := workers[id].(end := end)], lives)
  {
  }

  /** Worker `v` would finish last of all that can be split, and is cut where both halves finish together. */
  ghost predicate SplitChoice(workers: Workers, minSplit: int, startup: real, v: int, cut: int)
    requires minSplit > 0
  {
    var typical := TypicalSpeed(workers, -1);
    && v in workers && workers[v].position >= 0 && Splittable(workers[v], minSplit, startup, typical)
    && (forall u {:trigger TimeLeft(workers[u], typical)} ::
          u in workers && Splittable(workers[u], minSplit, startup, typical) ==>
            TimeLeft(workers[u], typical) <= TimeLeft(workers[v], typical))
    && cut == CutPoint(workers[v], minSplit, startup, typical)
  }

  ghost predicate NoneSplittable(workers: Workers, minSplit: int, startup: real)
    requires minSplit > 0
  {
    forall u :: u in workers ==> !Splittable(workers[u], minSplit, startup, TypicalSpeed(workers, -1))
  }

  /** Among the given workers, `victim` is the splittable one with the longest time left. */
  ghost predicate LastToFinish(workers: Workers, minSplit: int, startup: real, typical: real, ids: seq<int>,
                               victim: Option<int>, longest: real)
    requires minSplit > 0
  {
    && (victim.Some? ==>
          && victim.value in workers && longest == TimeLeft(workers[victim.value], typical)
          && Splittable(workers[victim.value], minSplit, startup, typical))
    && (forall u :: u in ids && u in workers && Splittable(workers[u], minSplit, startup, typical) ==>
          victim.Some? && TimeLeft(workers[u], typical) <= longest)
  }

  lemma VictimStep(workers: Workers, minSplit: int, startup: real, typical: real, ids: seq<int>,
                   victim: Option<int>, longest: real, id: int)
    requires minSplit > 0 && id in workers
    requires LastToFinish(workers, minSplit, startup, typical, ids, victim, longest)
    ensures var time := TimeLeft(workers[id], typical);
            if Splittable(workers[id], minSplit, startup, typical) && (victim == None || time > longest)
            then LastToFinish(workers, minSplit, startup, typical, ids + [id], Some(id), time)
            else LastToFinish(workers, minSplit, startup, typical, ids + [id], victim, longest)
  {
    assert forall u :: u in ids + [id] <==> u in ids || u == id;
  }

  /** The slowest worker gives its end to the new one; nothing else changes hands. */
  ghost predicate SplitOutcome(before: Workers, after: Workers, minSplit: int, startup: real, id: int, r: Range)
    requires minSplit > 0
  {
    exists v :: SplitChoice(before, minSplit, startup, v, r.begin)
             && r.end == before[v].end
             && after == SplitAt(before, v, r.begin, id)
  }

  /** Both halves of a split are worth a connection of their own. */
  lemma SplitHalves(workers: Workers, minSplit: int, startup: real, v: int, cut: int)
    requires minSplit > 0 && SplitChoice(workers, minSplit, startup, v, cut)
    ensures var least := MinSplitFor(minSplit, startup, ExpectedSpeed(workers[v], TypicalSpeed(workers, -1)));
            0 < least <= cut - workers[v].position && least <= workers[v].end - cut
  {
  }

  function SplitAt(workers: Workers, v: int, cut: int, id: int): Workers
    requires v in workers
  {
    workers[v := workers[v].(end := cut)][id := Starting(Range(cut, workers[v].end))]
  }

  lemma SplitDone(workers: Workers, minSplit: int, startup: real, v: int, cut: int, id: int)
    requires minSplit > 0 && SplitChoice(workers, minSplit, startup, v, cut)
    ensures workers[v].position < cut < workers[v].end
    ensures SplitOutcome(workers, SplitAt(workers, v, cut, id), minSplit, startup, id, Range(cut, workers[v].end))
  {
    SplitHalves(workers, minSplit, startup, v, cut);
  }

  /** The new connection may take the place of an old one; only what that one had left loses its owner. */
  lemma SplitKeeps(workers: Workers, received: set<int>, v: int, cut: int, id: int)
    requires v in workers && workers[v].position <= cut <= workers[v].end
    ensures var after := SplitAt(workers, v, cut, id);
            && Owned(after) == Owned(workers - {id}) + Interval(cut, workers[v].end)
            && (id !in workers ==> Owned(after) == Owned(workers))
            && (Apart(workers, received) ==> Apart(after, received))
  {
    if id == v {
      SplitSelf(workers, received, v, cut);
    } else {
      SplitOther(workers, received, v, cut, id);
    }
  }

  lemma SplitOther(workers: Workers, received: set<int>, v: int, cut: int, id: int)
    requires v in workers && id != v && workers[v].position <= cut <= workers[v].end
    ensures var after := SplitAt(workers, v, cut, id);
            && Owned(after) == Owned(workers - {id}) + Interval(cut, workers[v].end)
            && (id !in workers ==> Owned(after) == Owned(workers))
            && (Apart(workers, received) ==> Apart(after, received))
  {
    var w, rest := workers[v], workers - {id};
    var head, tail := w.(end := cut), Starting(Range(cut, w.end));
    var mid := workers[v := head];
    assert Left(head) + Left(tail) == Left(w) && Left(head) !! Left(tail);
    assert mid - {id} == rest[v := head];
    OwnedBy(rest, v);
    OwnedUpdate(rest, v, head);
    OwnedUpdate(mid, id, tail);
    if id !in workers {
      assert rest == workers;
    }
    if Apart(workers, received) {
      ApartRest(workers, received, id);
      ApartRest(rest, received, v);
      ApartUpdate(rest, received, v, head);
      ApartUpdate(mid, received, id, tail);
    }
  }

  lemma SplitSelf(workers: Workers, received: set<int>, v: int, cut: int)
    requires v in workers && workers[v].position <= cut <= workers[v].end
    ensures var after := SplitAt(workers, v, cut, v);
            && Owned(after) == Owned(workers - {v}) + Interval(cut, workers[v].end)
            && (Apart(workers, received) ==> Apart(after, received))
  {
    var tail := Starting(Range(cut, workers[v].end));
    assert SplitAt(workers, v, cut, v) == workers[v := tail];
    assert Left(tail) <= Left(workers[v]);
    OwnedUpdate(workers, v, tail);
    if Apart(workers, received) {
      ApartRest(workers, received, v);
      ApartUpdate(workers, received, v, tail);
    }
  }

  lemma SplitPaced(workers: Workers, peakSpeed: real, v: int, cut: int, id: int)
    requires Paced(workers, peakSpeed) && v in workers
    ensures Paced(SplitAt(workers, v, cut, id), peakSpeed)
  {
  }

  lemma SplitOk(workers: Workers, lives: map<int, Life>, received: set<int>, length: int, shared: bool,
                v: int, cut: int, id: int)
    requires PlanOk(workers, lives, received, length, shared) && v in workers
    requires workers[v].position <= cut <= workers[v].end
    ensures PlanOk(SplitAt(workers, v, cut, id), lives[id := Life(cut, workers[v].end, {})], received, length, shared)
  {
    SplitKeeps(workers, received, v, cut, id);
    MovedEndOk(workers, lives, length, v, cut);
    NewWorkerOk(workers[v := workers[v].(end := cut)], lives, length, id, Starting(Range(cut, workers[v].end)));
  }

  /**
   A copy of the range whose earliest finish is latest among those worth racing. It gives the bytes a second
   owner unless the leader itself starts anew.
   */
  ghost predicate RaceOutcome(before: Workers, after: Workers, startup: real, peakSpeed: real, id: int, r: Range,
                              shared: bool, wasShared: bool)
  {
    exists leader :: leader in before && RaceChoice(before, startup, peakSpeed, leader)
                  && r == Range(before[leader].position, before[leader].end)
                  && after == before[id := Starting(r)]
                  && (shared <==> wasShared || leader != id)
  }

  /** Workers that stay keep their history. */
  ghost predicate SameLives(before: map<int, Life>, after: map<int, Life>) {
    forall id :: id in before && id in after ==> after[id] == before[id]
  }

  /** The longest run of bytes without an owner, the earliest of equals. */
  ghost predicate LargestFree(taken: set<int>, length: int, r: Range) {
    && 0 <= r.begin < r.end <= length
    && Interval(r.begin, r.end) !! taken
    && (forall a, b {:trigger Interval(a, b)} :: 0 <= a < b <= length && Interval(a, b) !! taken ==>
          b - a < r.end - r.begin || (b - a == r.end - r.begin && r.begin <= a))
  }

  class SegmentPlanner {
    const minSplit: int
    var length: int
    const received: RangeSet
    var workers: Workers
    var peakSpeed: real
    var startup: real
    /** Set once a byte was deliberately given a second owner. */
    ghost var shared: bool
    ghost var lives: map<int, Life>

    ghost predicate Valid()
      reads this, received
    {
      && minSplit > 0
      && received.Valid()
      && PlanOk(workers, lives, received.Contents(), length, shared)
      && Paced(workers, peakSpeed)
    }

    constructor (minSplit: int)
      requires minSplit > 0
      ensures Valid() && fresh(received) && this.minSplit == minSplit
      ensures length == -1 && workers == map[] && received.Contents() == {} && !shared
    {
      this.minSplit := minSplit;
      length, workers, peakSpeed, startup := -1, map[], 0.0, 0.0;
      received := new RangeSet();
      shared, lives := false, map[];
    }

    /** The length is learnt; no worker may reach past it. */
    method SetLength(length: int)
      requires Valid()
      modifies this`length, this`workers
      ensures Valid() && this.length == length
      ensures workers.Keys == old(workers).Keys
      ensures forall id :: id in workers ==>
                workers[id] == old(workers)[id].(end := Min(old(workers)[id].end, length),
                                                 requestEnd := Min(old(workers)[id].requestEnd, length))
    {
      this.length := length;
      workers := map id | id in workers ::
        workers[id].(end := Min(workers[id].end, length), requestEnd := Min(workers[id].requestEnd, length));
      assert forall id :: id in workers ==> Left(workers[id]) <= Left(old(workers)[id]);
    }

    /** Bytes already on disk. Overlapping a running range gives those bytes a second owner. */
    method Restore(ranges: seq<Range>)
      requires Valid()
      modifies received, this`shared
      ensures Valid()
      ensures received.Contents() == old(received.Contents()) + Bytes(ranges)
      ensures shared <==> old(shared) || !(Bytes(ranges) !! Owned(workers))
    {
      for k := 0 to |ranges|
        invariant received.Valid() && shared == old(shared)
        invariant received.Contents() == old(received.Contents()) + Bytes(ranges[..k])
      {
        PrefixStep(ranges, k);
        received.Add(ranges[k].begin, ranges[k].end);
      }
      assert ranges[..|ranges|] == ranges;
      shared := shared || !(Bytes(ranges) !! Owned(workers));
      if !shared {
        forall i | i in workers ensures Left(workers[i]) !! received.Contents() {
          OwnedBy(workers, i);
        }
      }
    }

    method Reset()
      requires Valid()
      modifies this, received
      ensures Valid() && length == -1 && workers == map[] && received.Contents() == {} && peakSpeed == 0.0
      ensures !shared && startup == old(startup)
    {
      received.Clear();
      workers, length, peakSpeed := map[], -1, 0.0;
      shared, lives := false, map[];
    }

    /** A worker for a range chosen by the caller; it replaces a worker of the same id. */
    method Place(id: int, begin: int, requestEnd: int)
      requires Valid() && begin >= 0
      modifies this`workers, this`shared, this`lives
      ensures SameLives(old(lives) - {id}, lives)
      ensures Valid()
      ensures var end := if length >= 0 then Min(requestEnd, length) else requestEnd;
              && workers == old(workers)[id := Worker(begin, end, requestEnd, false, 0.0, 0.0)]
              && (shared <==>
                    old(shared) || !(Interval(begin, end) !! Owned(old(workers) - {id}) + received.Contents()))
    {
      var end := if length >= 0 then Min(requestEnd, length) else requestEnd;
      var w := Worker(begin, end, requestEnd, false, 0.0, 0.0);
      shared := shared || !(Interval(begin, end) !! Owned(workers - {id}) + received.Contents());
      NewWorkerOk(workers, lives, length, id, w);
      if !shared {
        ApartRest(workers, received.Contents(), id);
        ApartUpdate(workers, received.Contents(), id, w);
      }
      workers := workers[id := w];
      lives := lives[id := Life(begin, requestEnd, {})];
    }

    predicate Complete()
      requires received.Valid()
      reads this, received
      ensures Complete() <==> length >= 0 && Interval(0, length) <= received.Contents()
    {
      length >= 0 && Contains(received.ranges, 0, length)
    }

    /** Received bytes together with the bytes the listed workers own. */
    method TakenBy(ids: seq<int>) returns (owned: RangeSet)
      requires received.Valid() && forall id :: id in ids ==> id in workers
      ensures fresh(owned) && owned.Valid()
      ensures owned.Contents() == received.Contents() + OwnedAmong(workers, ids)
    {
      owned := new RangeSet.Copy(received);
      ghost var base := received.Contents();
      for k := 0 to |ids|
        invariant owned.Valid() && fresh(owned)
        invariant owned.Contents() == base + OwnedAmong(workers, ids[..k])
      {
        AmongStep(workers, ids, k);
        owned.Add(workers[ids[k]].position, workers[ids[k]].end);
      }
      assert ids[..|ids|] == ids;
    }

    /** The largest range neither received nor owned; None when every byte is one of the two. */
    method LargestGap() returns (best: Option<Range>)
      requires Valid()
      ensures length < 0 ==> best == None
      ensures length >= 0 ==>
                match best
                case None => Interval(0, length) <= received.Contents() + Owned(workers)
                case Some(r) => LargestFree(received.Contents() + Owned(workers), length, r)
    {
      if length < 0 {
        return None;
      }
      var owned := TakenBy(InOrder(workers.Keys));
      assert OwnedAmong(workers, InOrder(workers.Keys)) == Owned(workers);
      best := LargestMissing(owned.ranges, length);
    }

    method MeasureTypical(except: int) returns (speed: real)
      ensures speed == TypicalSpeed(workers, except)
    {
      var sum := SumSpeeds(InOrder(workers.Keys), workers, except);
      speed := Mean(sum);
    }

    /** The splittable worker that would finish last. */
    method FindVictim(typical: real) returns (victim: Option<int>)
      requires minSplit > 0
      ensures victim == None ==> forall u :: u in workers ==> !Splittable(workers[u], minSplit, startup, typical)
      ensures victim.Some? ==>
                && victim.value in workers
                && Splittable(workers[victim.value], minSplit, startup, typical)
                && (forall u :: u in workers && Splittable(workers[u], minSplit, startup, typical) ==>
                      TimeLeft(workers[u], typical) <= TimeLeft(workers[victim.value], typical))
    {
      var ids := InOrder(workers.Keys);
      victim := None;
      var longest := 0.0;
      for k := 0 to |ids|
        invariant LastToFinish(workers, minSplit, startup, typical, ids[..k], victim, longest)
      {
        assert ids[k] in ids;
        PrefixGrows(ids, k);
        var w := workers[ids[k]];
        VictimStep(workers, minSplit, startup, typical, ids[..k], victim, longest, ids[k]);
        if !Splittable(w, minSplit, startup, typical) {
          continue;
        }
        if victim == None || TimeLeft(w, typical) > longest {
          victim, longest := Some(ids[k]), TimeLeft(w, typical);
        }
      }
      assert ids[..|ids|] == ids;
    }

    method ChooseSplit() returns (choice: Option<(int, int)>)
      requires Valid()
      ensures choice == None ==> NoneSplittable(workers, minSplit, startup)
      ensures choice.Some? ==> SplitChoice(workers, minSplit, startup, choice.value.0, choice.value.1)
    {
      var typical := MeasureTypical(-1);
      var victim := FindVictim(typical);
      if victim == None {
        return None;
      }
      return Some((victim.value, CutPoint(workers[victim.value], minSplit, startup, typical)));
    }

    method Split(id: int) returns (r: Option<Range>)
      requires Valid()
      modifies this`workers, this`lives
      ensures SameLives(old(lives) - {id}, lives)
      ensures Valid()
      ensures r == None ==> workers == old(workers) && lives == old(lives) && NoneSplittable(workers, minSplit, startup)
      ensures r.Some? ==> SplitOutcome(old(workers), workers, minSplit, startup, id, r.value)
      ensures r.Some? ==>
                && r.value.begin < r.value.end
                && Owned(workers) == Owned(old(workers) - {id}) + Interval(r.value.begin, r.value.end)
                && (id !in old(workers) ==> Owned(workers) == Owned(old(workers)))
    {
      var choice := ChooseSplit();
      if choice == None {
        return None;
      }
      var range := HandOver(choice.value.0, choice.value.1, id);
      return Some(range);
    }

    /** Cuts worker `v` and registers the tail as worker `id`. */
    method HandOver(v: int, cut: int, id: int) returns (r: Range)
      requires Valid() && SplitChoice(workers, minSplit, startup, v, cut)
      modifies this`workers, this`lives
      ensures SameLives(old(lives) - {id}, lives)
      ensures Valid() && SplitOutcome(old(workers), workers, minSplit, startup, id, r) && r.begin < r.end
      ensures Owned(workers) == Owned(old(workers) - {id}) + Interval(r.begin, r.end)
      ensures id !in old(workers) ==> Owned(workers) == Owned(old(workers))
    {
      r := Range(cut, workers[v].end);
      SplitDone(workers, minSplit, startup, v, cut, id);
      SplitKeeps(workers, received.Contents(), v, cut, id);
      Cut(v, cut, id);
    }

    method Cut(v: int, cut: int, id: int)
      requires Valid() && v in workers && workers[v].position <= cut <= workers[v].end
      modifies this`workers, this`lives
      ensures SameLives(old(lives) - {id}, lives)
      ensures Valid() && workers == SplitAt(old(workers), v, cut, id)
    {
      SplitOk(workers, lives, received.Contents(), length, shared, v, cut, id);
      SplitPaced(workers, peakSpeed, v, cut, id);
      lives := lives[id := Life(cut, workers[v].end, {})];
      workers := SplitAt(workers, v, cut, id);
    }

    /** The leader of the group that most needs another copy. */
    method ChooseRace() returns (leader: Option<int>)
      ensures leader == None ==> forall e :: !Raceable(workers, startup, peakSpeed, e)
      ensures leader.Some? ==> RaceChoice(workers, startup, peakSpeed, leader.value)
    {
      var ids := InOrder(workers.Keys);
      forall i | 0 <= i < |ids| ensures ids[i] in workers {
        assert ids[i] in ids;
      }
      var groups := GroupAll(ids, workers, SilentAfter(startup));
      var ends := InOrder(groups.Keys);
      leader := None;
      ghost var chosen := 0;
      var longest := 0.0;
      for k := 0 to |ends|
        invariant Scanned(workers, startup, peakSpeed, ends[..k], leader, chosen, longest)
      {
        assert ends[k] in ends;
        PrefixGrows(ends, k);
        var group := groups[ends[k]];
        var worthy := IsWorthy(group, ends[k]);
        ScanStep(workers, startup, peakSpeed, ends[..k], leader, chosen, longest, ends[k], group);
        if worthy && group.time > longest {
          leader, longest, chosen := Some(group.leader), group.time, ends[k];
        }
      }
      assert ends[..|ends|] == ends;
      forall e | e !in ends ensures !Raceable(workers, startup, peakSpeed, e) {
        assert e !in groups;
      }
      ScanDone(workers, startup, peakSpeed, ends, leader, chosen, longest);
    }

    /** The tests of the second loop, for the group that ends at `end`. */
    method IsWorthy(group: Group, end: int) returns (worthy: bool)
      requires GroupAt(workers, startup, end) == Some(group)
      ensures worthy == Raceable(workers, startup, peakSpeed, end)
      ensures InGroup(workers, group.leader, end) && (worthy ==> group.time > 0.0)
    {
      GroupDescribed(InOrder(workers.Keys), workers, SilentAfter(startup), end);
      var typical := MeasureTypical(group.leader);
      worthy := WorthRacing(group, workers[group.leader], startup, MaxReal(typical, peakSpeed));
    }

    method Race(id: int) returns (r: Option<Range>)
      requires Valid()
      modifies this`workers, this`lives, this`shared
      ensures SameLives(old(lives) - {id}, lives)
      ensures Valid()
      ensures r == None ==> workers == old(workers) && shared == old(shared)
                            && forall e :: !Raceable(workers, startup, peakSpeed, e)
      ensures r.Some? ==> RaceOutcome(old(workers), workers, startup, peakSpeed, id, r.value, shared, old(shared))
      ensures r.Some? ==>
                && r.value.begin < r.value.end
                && Owned(workers) == Owned(old(workers) - {id}) + Interval(r.value.begin, r.value.end)
                && (id !in old(workers) ==> shared && Owned(workers) == Owned(old(workers)))
    {
      var leader := ChooseRace();
      if leader == None {
        return None;
      }
      assert leader.value in workers && Active(workers[leader.value]) by {
        var end :| InGroup(workers, leader.value, end);
      }
      var range := CopyOf(leader.value, id);
      return Some(range);
    }

    /** Registers worker `id` for the same bytes as worker `leader`. */
    method CopyOf(leader: int, id: int) returns (range: Range)
      requires Valid() && leader in workers
      modifies this`workers, this`lives, this`shared
      ensures SameLives(old(lives) - {id}, lives)
      ensures Valid() && range == Range(old(workers)[leader].position, old(workers)[leader].end)
      ensures workers == old(workers)[id := Starting(range)] && (shared <==> old(shared) || leader != id)
      ensures Owned(workers) == Owned(old(workers) - {id}) + Interval(range.begin, range.end)
      ensures id !in old(workers) ==> Owned(workers) == Owned(old(workers))
    {
      range := Range(workers[leader].position, workers[leader].end);
      RaceOk(workers, lives, received.Contents(), length, shared, leader, id);
      RaceOwned(workers, leader, id);
      PacedUpdate(workers, peakSpeed, id, Starting(range));
      workers := workers[id := Starting(range)];
      lives := lives[id := Life(range.begin, range.end, {})];
      shared := shared || leader != id;
    }

    /**
     Work for another connection: the longest stretch without an owner, else the end of what the
     slowest worker has left, else a second copy where one range delays the whole. Nothing comes
     back only when every byte is received or owned.
     */
    method Assign(id: int) returns (r: Option<Range>)
      requires Valid()
      modifies this`workers, this`lives, this`shared
      ensures SameLives(old(lives) - {id}, lives)
      ensures Valid()
      ensures length < 0 ==> r == None
      ensures r == None ==> workers == old(workers) && shared == old(shared)
      ensures r.Some? ==> Owned(workers) == Owned(old(workers) - {id}) + Interval(r.value.begin, r.value.end)
      ensures r.Some? && id !in old(workers) ==>
                Owned(workers) == Owned(old(workers)) + Interval(r.value.begin, r.value.end)
      ensures length >= 0 ==>
                var taken := received.Contents() + Owned(old(workers));
                if Interval(0, length) <= taken then
                  AssignTaken(old(workers), workers, minSplit, startup, peakSpeed, id, r, shared, old(shared))
                else
                  && r.Some? && LargestFree(taken, length, r.value)
                  && workers == old(workers)[id := Starting(r.value)] && shared == old(shared)
    {
      if length < 0 {
        return None;
      }
      assert id !in workers ==> workers - {id} == workers;
      var gap := LargestGap();
      if gap.Some? {
        FillGap(id, gap.value);
        return gap;
      }
      r := SplitOrRace(id);
    }

    /** The last two resorts of an assignment. */
    method SplitOrRace(id: int) returns (r: Option<Range>)
      requires Valid()
      modifies this`workers, this`lives, this`shared
      ensures SameLives(old(lives) - {id}, lives)
      ensures Valid()
      ensures r == None ==> workers == old(workers) && shared == old(shared)
      ensures r.Some? ==> Owned(workers) == Owned(old(workers) - {id}) + Interval(r.value.begin, r.value.end)
      ensures AssignTaken(old(workers), workers, minSplit, startup, peakSpeed, id, r, shared, old(shared))
    {
      r := Split(id);
      if r == None {
        r := Race(id);
        TakenByRace(old(workers), workers, minSplit, startup, peakSpeed, id, r, shared, old(shared));
      } else {
        TakenBySplit(old(workers), workers, minSplit, startup, peakSpeed, id, r.value, shared);
      }
    }

    method FillGap(id: int, gap: Range)
      requires Valid() && length >= 0
      requires LargestFree(received.Contents() + Owned(workers), length, gap)
      modifies this`workers, this`lives
      ensures SameLives(old(lives) - {id}, lives)
      ensures Valid() && workers == old(workers)[id := Starting(gap)]
      ensures Owned(workers) == Owned(old(workers) - {id}) + Interval(gap.begin, gap.end)
      ensures !(Interval(0, length) <= received.Contents() + Owned(old(workers)))
    {
      assert gap.begin in Interval(gap.begin, gap.end) && gap.begin in Interval(0, length);
      GapOk(workers, lives, received.Contents(), length, shared, id, gap);
      workers := workers[id := Starting(gap)];
      lives := lives[id := Life(gap.begin, gap.end, {})];
    }

    /**
     Records received bytes; those beyond the assignment are not credited. What is credited
     extends the worker's one run.
     */
    method Receive(id: int, bytes: nat) returns (usable: nat)
      requires Valid() && id in workers
      modifies this`workers, this`lives, received
      ensures Valid()
      ensures usable == Max(0, Min(old(workers)[id].end - old(workers)[id].position, bytes))
      ensures workers == old(workers)[id := Advanced(old(workers)[id], usable)]
      ensures var run := Interval(old(workers)[id].position, old(workers)[id].position + usable);
              && received.Contents() == old(received.Contents()) + run
              && lives == old(lives)[id := Credited(old(lives)[id], old(workers)[id], usable)]
              && (length >= 0 ==> run <= Interval(0, length))
    {
      var w := workers[id];
      usable := Max(0, Min(w.end - w.position, bytes));
      ghost var before := received.Contents();
      ReceiveKept(workers, lives, length, id, usable);
      received.Add(w.position, w.position + usable);
      Advance(id, usable, before);
    }

    /** Moves the worker past bytes that were just recorded. */
    method Advance(id: int, usable: nat, ghost before: set<int>)
      requires minSplit > 0 && received.Valid() && id in workers
      requires PlanOk(workers, lives, before, length, shared) && Paced(workers, peakSpeed)
      requires usable > 0 ==> usable <= workers[id].end - workers[id].position
      requires received.Contents() == before + Interval(workers[id].position, workers[id].position + usable)
      modifies this`workers, this`lives
      ensures Valid()
      ensures workers == old(workers)[id := Advanced(old(workers)[id], usable)]
      ensures lives == old(lives)[id := Credited(old(lives)[id], old(workers)[id], usable)]
    {
      ReceiveOk(workers, lives, before, length, shared, id, usable);
      PacedUpdate(workers, peakSpeed, id, Advanced(workers[id], usable));
      lives := lives[id := Credited(lives[id], workers[id], usable)];
      workers := workers[id := Advanced(workers[id], usable)];
    }

    method UpdateSpeed(id: int, bytesPerSecond: real, seconds: real)
      requires Valid()
      modifies this`workers, this`peakSpeed
      ensures Valid()
      ensures id !in workers ==> workers == old(workers) && peakSpeed == old(peakSpeed)
      ensures id in workers ==>
                var was := old(workers)[id];
                var speed := Smoothed(was.speed, bytesPerSecond, 0.6);
                && workers == old(workers)[id := was.(age := was.age + seconds, speed := speed)]
                && peakSpeed == MaxReal(old(peakSpeed), speed)
    {
      if id in workers {
        var w := workers[id];
        var speed := Smoothed(w.speed, bytesPerSecond, 0.6);
        Remeasured(workers, lives, received.Contents(), length, id, w.(age := w.age + seconds, speed := speed));
        workers := workers[id := w.(age := w.age + seconds, speed := speed)];
        peakSpeed := MaxReal(peakSpeed, speed);
      }
    }

    method NoteSpeed(bytesPerSecond: real)
      requires Valid()
      modifies this`peakSpeed
      ensures Valid() && peakSpeed == MaxReal(old(peakSpeed), bytesPerSecond)
    {
      peakSpeed := MaxReal(peakSpeed, bytesPerSecond);
    }

    method NoteStartup(seconds: real)
      requires Valid()
      modifies this`startup
      ensures Valid() && startup == Smoothed(old(startup), seconds, 0.7)
    {
      startup := Smoothed(startup, seconds, 0.7);
    }

    method Release(id: int)
      requires Valid()
      modifies this`workers, this`lives
      ensures SameLives(old(lives), lives)
      ensures Valid() && workers == old(workers) - {id}
    {
      if !shared {
        ApartRest(workers, received.Contents(), id);
      }
      workers := workers - {id};
      lives := lives - {id};
    }

    /** After a failed check the bytes have to be fetched once more. */
    method Forget(begin: int, end: int)
      requires Valid()
      modifies received
      ensures Valid() && received.Contents() == old(received.Contents()) - Interval(begin, end)
    {
      received.Remove(begin, end);
    }

    /** Workers whose remaining bytes are all received by others. */
    method Redundant() returns (result: seq<int>)
      requires received.Valid()
      ensures forall id :: id in result <==> IsRedundant(workers, received.Contents(), id)
    {
      var ids := InOrder(workers.Keys);
      result := [];
      ghost var bytes := received.Contents();
      for k := 0 to |ids|
        invariant forall id :: id in result ==> IsRedundant(workers, bytes, id)
        invariant forall j :: 0 <= j < k && IsRedundant(workers, bytes, ids[j]) ==> ids[j] in result
      {
        assert ids[k] in ids;
        var w := workers[ids[k]];
        if w.position < w.end && Contains(received.ranges, w.position, w.end) {
          result := result + [ids[k]];
        }
      }
      forall id | IsRedundant(workers, bytes, id) ensures id in result {
        assert id in ids;
      }
    }

    /** The first neighbour that has not produced data yet. */
    method FindIdle(id: int) returns (other: Option<int>)
      requires id in workers
      ensures other == None ==> forall o :: !Idle(workers, id, o)
      ensures other.Some? ==> Idle(workers, id, other.value) && forall o :: Idle(workers, id, o) ==> other.value <= o
    {
      var ids := InOrder(workers.Keys);
      for k := 0 to |ids|
        invariant forall j :: 0 <= j < k ==> !Idle(workers, id, ids[j])
      {
        assert ids[k] in ids;
        if ids[k] != id && workers[ids[k]].position == workers[id].end && !workers[ids[k]].receiving {
          forall o | Idle(workers, id, o) ensures ids[k] <= o {
            assert o in ids;
          }
          return Some(ids[k]);
        }
      }
      forall o ensures !Idle(workers, id, o) {
        assert o in workers ==> o in ids;
      }
      return None;
    }

    /**
     More for a worker whose request reaches further: the range of a neighbour that has no data yet,
     which is cancelled, or bytes without an owner, up to the next owned byte.
     */
    method Extend(id: int) returns (grown: bool, cancelled: Option<int>)
      requires Valid() && id in workers
      modifies this`workers, this`lives
      ensures SameLives(old(lives), lives)
      ensures Valid()
      ensures ExtendOutcome(old(workers), workers, received.Contents(), length, id, grown, cancelled)
    {
      if !CanExtend(workers[id], length) {
        return false, None;
      }
      cancelled := FindIdle(id);
      if cancelled.Some? {
        TakeOver(id, cancelled.value);
        return true, cancelled;
      }
      var limit := LimitOf(workers[id], length);
      var owned := TakenBy(InOrder(workers.Keys - {id}));
      OthersTaken(workers, id);
      var gap := FirstGap(owned.ranges, workers[id].end, limit);
      grown := gap.Some? && gap.value.begin == workers[id].end;
      assert workers[id].end in Interval(workers[id].end, limit);
      if grown {
        Continue(id, gap.value.end);
      }
    }

    method TakeOver(id: int, other: int)
      requires Valid() && id in workers && Idle(workers, id, other) && CanExtend(workers[id], length)
      modifies this`workers, this`lives
      ensures SameLives(old(lives), lives)
      ensures Valid() && workers == TakenOver(old(workers), id, other)
    {
      TakeOverOk(workers, lives, received.Contents(), length, id, other);
      workers := TakenOver(workers, id, other);
      lives := lives - {other};
    }

    method Continue(id: int, end: int)
      requires Valid() && id in workers && workers[id].end < end <= LimitOf(workers[id], length)
      requires Interval(workers[id].end, end) !! received.Contents() + Owned(workers - {id})
      modifies this`workers
      ensures Valid() && workers == old(workers)[id := old(workers)[id].(end := end)]
    {
      MovedEndOk(workers, lives, length, id, end);
      if !shared {
        ContinueApart(workers, received.Contents(), id, end);
      }
      workers := workers[id := workers[id].(end := end)];
    }

    /**
     The loop around `Receive` and `Extend` that takes in one chunk: it always ends, consumes a
     contiguous run, and stops short only when the worker can be neither fed nor extended.
     */
    method Consume(id: int, size: nat) returns (consumed: nat)
      requires Valid() && id in workers
      modifies this`workers, this`lives, received
      ensures Valid() && id in workers && consumed <= size
      ensures workers[id].position == old(workers)[id].position + consumed
      ensures lives[id].begin == old(lives)[id].begin
      ensures consumed < size ==>
                workers[id].end <= workers[id].position && !Extensible(workers, received.Contents(), length, id)
    {
      consumed := 0;
      while consumed < size
        invariant Valid() && id in workers && consumed <= size
        invariant workers[id].position == old(workers)[id].position + consumed
        invariant lives[id].begin == old(lives)[id].begin
        decreases size - consumed, |workers|, workers[id].requestEnd - workers[id].end
      {
        var usable := Receive(id, size - consumed);
        if usable > 0 {
          consumed := consumed + usable;
          continue;
        }
        var grown := Grow(id);
        if !grown {
          return;
        }
      }
    }

    /** An extension moves no position and either cancels a worker or moves the end up. */
    method Grow(id: int) returns (grown: bool)
      requires Valid() && id in workers
      modifies this`workers, this`lives
      ensures Valid() && id in workers && SameLives(old(lives), lives)
      ensures workers[id].position == old(workers)[id].position && workers[id].requestEnd == old(workers)[id].requestEnd
      ensures grown <==> Extensible(old(workers), received.Contents(), length, id)
      ensures !grown ==> workers == old(workers)
      ensures grown ==>
                |workers| < |old(workers)| || (|workers| == |old(workers)| && workers[id].end > old(workers)[id].end)
    {
      ghost var before := workers;
      var cancelled;
      grown, cancelled := Extend(id);
      if grown {
        ExtendProgress(before, workers, received.Contents(), length, id, cancelled);
      }
    }
  }

  predicate CanExtend(w: Worker, length: int) {
    w.end < w.requestEnd && !(length >= 0 && w.end >= length)
  }

  function LimitOf(w: Worker, length: int): int {
    if length >= 0 then Min(w.requestEnd, length) else w.requestEnd
  }

  /** `other` begins where `id` ends and has not produced data yet. */
  predicate Idle(workers: Workers, id: int, other: int)
    requires id in workers
  {
    other in workers && other != id && workers[other].position == workers[id].end && !workers[other].receiving
  }

  function TakenOver(workers: Workers, id: int, other: int): Workers
    requires id in workers && other in workers
  {
    (workers - {other})[id := workers[id].(end := Min(workers[id].requestEnd, workers[other].end))]
  }

  /** The worker could take over a neighbour or continue into a byte without an owner. */
  ghost predicate Extensible(workers: Workers, received: set<int>, length: int, id: int)
    requires id in workers
  {
    && CanExtend(workers[id], length)
    && ((exists o :: Idle(workers, id, o)) || workers[id].end !in received + Owned(workers - {id}))
  }

  ghost predicate ExtendOutcome(before: Workers, after: Workers, received: set<int>, length: int, id: int,
                                grown: bool, cancelled: Option<int>)
    requires id in before
  {
    && (grown <==> Extensible(before, received, length, id))
    && (!grown ==> after == before && cancelled == None)
    && (cancelled.Some? <==> grown && exists o :: Idle(before, id, o))
    && (cancelled.Some? ==>
          && Idle(before, id, cancelled.value)
          && (forall o :: Idle(before, id, o) ==> cancelled.value <= o)
          && after == TakenOver(before, id, cancelled.value))
    && (grown && cancelled == None ==> ContinuedFreely(before, after, received, length, id))
  }

  /** The worker's end moved over free bytes, as far as its limit or the next taken byte. */
  ghost predicate ContinuedFreely(before: Workers, after: Workers, received: set<int>, length: int, id: int)
    requires id in before
  {
    var others := received + Owned(before - {id});
    exists end :: before[id].end < end <= LimitOf(before[id], length)
               && Interval(before[id].end, end) !! others
               && (end == LimitOf(before[id], length) || end in others)
               && after == before[id := before[id].(end := end)]
  }

  lemma ExtendProgress(before: Workers, after: Workers, received: set<int>, length: int,
                       id: int, cancelled: Option<int>)
    requires id in before && ExtendOutcome(before, after, received, length, id, true, cancelled)
    ensures id in after && after[id].position == before[id].position && after[id].requestEnd == before[id].requestEnd
    ensures |after| < |before| || (|after| == |before| && after[id].end > before[id].end)
  {
  }

  lemma OthersTaken(workers: Workers, id: int)
    ensures OwnedAmong(workers, InOrder(workers.Keys - {id})) == Owned(workers - {id})
  {
    var ids := InOrder(workers.Keys - {id});
    forall x ensures x in OwnedAmong(workers, ids) <==> x in Owned(workers - {id}) {
      if x in OwnedAmong(workers, ids) {
        var i :| i in ids && i in workers && x in Left(workers[i]);
        assert i in workers - {id} && x in Left((workers - {id})[i]);
      }
      if x in Owned(workers - {id}) {
        var i :| i in workers - {id} && x in Left((workers - {id})[i]);
        assert i in ids && x in Left(workers[i]);
      }
    }
  }

  lemma TakeOverOk(workers: Workers, lives: map<int, Life>, received: set<int>, length: int, id: int, other: int)
    requires WorkersOk(workers, length) && LivesOk(workers, lives)
    requires id in workers && Idle(workers, id, other) && CanExtend(workers[id], length)
    ensures WorkersOk(TakenOver(workers, id, other), length)
    ensures LivesOk(TakenOver(workers, id, other), lives - {other})
    ensures Apart(workers, received) ==> Apart(TakenOver(workers, id, other), received)
  {
    var rest := workers - {other};
    var w := workers[id].(end := Min(workers[id].requestEnd, workers[other].end));
    MovedEndOk(rest, lives - {other}, length, id, w.end);
    if Apart(workers, received) {
      ApartRest(workers, received, other);
      ApartRest(rest, received, id);
      assert Left(w) <= Left(workers[id]) + Left(workers[other]);
      OwnedBy(rest, id);
      ApartUpdate(rest, received, id, w);
    }
  }

  lemma ContinueApart(workers: Workers, received: set<int>, id: int, end: int)
    requires Apart(workers, received) && id in workers && workers[id].end < end
    requires Interval(workers[id].end, end) !! received + Owned(workers - {id})
    ensures Apart(workers[id := workers[id].(end := end)], received)
  {
    var w := workers[id].(end := end);
    ApartRest(workers, received, id);
    assert Left(w) <= Left(workers[id]) + Interval(workers[id].end, end);
    ApartUpdate(workers, received, id, w);
  }

  ghost predicate IsRedundant(workers: Workers, received: set<int>, id: int) {
    id in workers && workers[id].position < workers[id].end && Left(workers[id]) <= received
  }

  /** Once everything is received every worker with bytes left is redundant. */
  lemma CompleteLeavesNoWork(workers: Workers, received: set<int>, length: int, id: int)
    requires WorkersOk(workers, length) && length >= 0 && Interval(0, length) <= received
    requires id in workers && workers[id].position < workers[id].end
    ensures IsRedundant(workers, received, id)
  {
  }

  /** Dropping every redundant worker leaves each byte received or owned that was so before. */
  lemma RedundantCostsNothing(workers: Workers, received: set<int>, dropped: set<int>)
    requires forall id :: id in dropped ==> IsRedundant(workers, received, id)
    ensures received + Owned(workers - dropped) == received + Owned(workers)
  {
    forall x | x in Owned(workers) ensures x in received + Owned(workers - dropped) {
      var id :| id in workers && x in Left(workers[id]);
      if id !in dropped {
        assert id in workers - dropped && x in Left((workers - dropped)[id]);
      }
    }
    forall x | x in Owned(workers - dropped) ensures x in Owned(workers) {
      var id :| id in workers - dropped && x in Left((workers - dropped)[id]);
      assert x in Left(workers[id]);
    }
  }

  /** A worker with other speed figures owns what it owned. */
  lemma Remeasured(workers: Workers, lives: map<int, Life>, received: set<int>, length: int, id: int, w: Worker)
    requires WorkersOk(workers, length) && LivesOk(workers, lives) && id in workers
    requires w.position == workers[id].position && w.end == workers[id].end && w.requestEnd == workers[id].requestEnd
    ensures WorkersOk(workers[id := w], length) && LivesOk(workers[id := w], lives)
    ensures Apart(workers, received) ==> Apart(workers[id := w], received)
  {
  }

  /** The outcomes of an assignment when no byte is without an owner. */
  ghost predicate AssignTaken(before: Workers, after: Workers, minSplit: int, startup: real, peakSpeed: real,
                              id: int, r: Option<Range>, shared: bool, wasShared: bool)
    requires minSplit > 0
  {
    match r
    case None => NoneSplittable(before, minSplit, startup) && forall e :: !Raceable(before, startup, peakSpeed, e)
    case Some(range) =>
      if NoneSplittable(before, minSplit, startup)
      then RaceOutcome(before, after, startup, peakSpeed, id, range, shared, wasShared)
      else SplitOutcome(before, after, minSplit, startup, id, range) && shared == wasShared
  }

  lemma TakenBySplit(before: Workers, after: Workers, minSplit: int, startup: real, peakSpeed: real, id: int,
                     r: Range, shared: bool)
    requires minSplit > 0 && SplitOutcome(before, after, minSplit, startup, id, r)
    ensures AssignTaken(before, after, minSplit, startup, peakSpeed, id, Some(r), shared, shared)
  {
  }

  lemma TakenByRace(before: Workers, after: Workers, minSplit: int, startup: real, peakSpeed: real, id: int,
                    r: Option<Range>, shared: bool, wasShared: bool)
    requires minSplit > 0 && NoneSplittable(before, minSplit, startup)
    requires r == None ==> forall e :: !Raceable(before, startup, peakSpeed, e)
    requires r.Some? ==> RaceOutcome(before, after, startup, peakSpeed, id, r.value, shared, wasShared)
    ensures AssignTaken(before, after, minSplit, startup, peakSpeed, id, r, shared, wasShared)
  {
  }

  lemma GapOk(workers: Workers, lives: map<int, Life>, received: set<int>, length: int, shared: bool,
              id: int, gap: Range)
    requires PlanOk(workers, lives, received, length, shared) && length >= 0
    requires LargestFree(received + Owned(workers), length, gap)
    ensures PlanOk(workers[id := Starting(gap)], lives[id := Life(gap.begin, gap.end, {})], received, length, shared)
    ensures Owned(workers[id := Starting(gap)]) == Owned(workers - {id}) + Interval(gap.begin, gap.end)
  {
    NewWorkerOk(workers, lives, length, id, Starting(gap));
    OwnedUpdate(workers, id, Starting(gap));
    if id in workers {
      OwnedBy(workers, id);
    } else {
      assert workers - {id} == workers;
    }
    if !shared {
      ApartRest(workers, received, id);
      ApartUpdate(workers, received, id, Starting(gap));
    }
  }

  function Advanced(w: Worker, usable: nat): Worker {
    w.(position := w.position + usable, receiving := true)
  }

  lemma ReceiveMoves(workers: Workers, received: set<int>, id: int, usable: nat)
    requires Apart(workers, received) && id in workers
    requires usable > 0 ==> usable <= workers[id].end - workers[id].position
    ensures var run := Interval(workers[id].position, workers[id].position + usable);
            Apart(workers[id := Advanced(workers[id], usable)], received + run) && run !! received
  {
    var w, w' := workers[id], Advanced(workers[id], usable);
    var run := Interval(w.position, w.position + usable);
    ApartRest(workers, received, id);
    assert run <= Left(w) && Left(w') <= Left(w) && run !! Left(w');
    RestApart(workers, received, id, run);
    ApartUpdate(workers, received + run, id, w');
  }

  /** Bytes that move from their one owner to the received set are new, and still have one place. */
  lemma ReceiveApart(workers: Workers, received: set<int>, id: int, usable: nat)
    requires Apart(workers, received) && id in workers
    requires usable > 0 ==> usable <= workers[id].end - workers[id].position
    ensures var run := Interval(workers[id].position, workers[id].position + usable);
            && Apart(workers[id := Advanced(workers[id], usable)], received + run)
            && run !! received && |received + run| == |received| + usable
  {
    ReceiveMoves(workers, received, id, usable);
    NewBytes(received, workers[id].position, usable);
  }

  lemma NewBytes(received: set<int>, from: int, usable: nat)
    requires Interval(from, from + usable) !! received
    ensures |received + Interval(from, from + usable)| == |received| + usable
  {
    IntervalSize(from, from + usable);
  }

  lemma RestApart(workers: Workers, received: set<int>, id: int, run: set<int>)
    requires Apart(workers, received) && id in workers && run <= Left(workers[id])
    ensures Apart(workers - {id}, received + run)
  {
  }

  /** Credited bytes lengthen the one run of a worker. */
  lemma RunGrows(w: Worker, life: Life, usable: nat)
    requires OneRun(w, life) && w.end <= w.requestEnd && (usable > 0 ==> usable <= w.end - w.position)
    ensures OneRun(Advanced(w, usable), Credited(life, w, usable))
  {
  }

  ghost function Credited(life: Life, w: Worker, usable: nat): Life {
    life.(credited := life.credited + Interval(w.position, w.position + usable))
  }

  lemma ReceiveKept(workers: Workers, lives: map<int, Life>, length: int, id: int, usable: nat)
    requires WorkersOk(workers, length) && LivesOk(workers, lives) && id in workers
    requires usable > 0 ==> usable <= workers[id].end - workers[id].position
    ensures WorkersOk(workers[id := Advanced(workers[id], usable)], length)
    ensures LivesOk(workers[id := Advanced(workers[id], usable)], lives[id := Credited(lives[id], workers[id], usable)])
    ensures length >= 0 ==> Interval(workers[id].position, workers[id].position + usable) <= Interval(0, length)
  {
    RunGrows(workers[id], lives[id], usable);
  }

  /** Receiving keeps every invariant of the plan. */
  lemma ReceiveOk(workers: Workers, lives: map<int, Life>, received: set<int>, length: int, shared: bool,
                  id: int, usable: nat)
    requires PlanOk(workers, lives, received, length, shared) && id in workers
    requires usable > 0 ==> usable <= workers[id].end - workers[id].position
    ensures var run := Interval(workers[id].position, workers[id].position + usable);
            PlanOk(workers[id := Advanced(workers[id], usable)], lives[id := Credited(lives[id], workers[id], usable)],
                   received + run, length, shared)
  {
    ReceiveKept(workers, lives, length, id, usable);
    if !shared {
      ReceiveApart(workers, received, id, usable);
    }
  }

  /** `id` leads the raceable group whose earliest finish is latest. */
  ghost predicate RaceChoice(workers: Workers, startup: real, peakSpeed: real, id: int) {
    exists end :: Raceable(workers, startup, peakSpeed, end)
               && GroupAt(workers, startup, end).value.leader == id
               && InGroup(workers, id, end)
               && forall e :: Raceable(workers, startup, peakSpeed, e) ==>
                    GroupAt(workers, startup, e).value.time <= GroupAt(workers, startup, end).value.time
  }

  lemma RaceOk(workers: Workers, lives: map<int, Life>, received: set<int>, length: int, shared: bool,
               leader: int, id: int)
    requires PlanOk(workers, lives, received, length, shared) && leader in workers
    ensures var r := Range(workers[leader].position, workers[leader].end);
            var after := workers[id := Starting(r)];
            PlanOk(after, lives[id := Life(r.begin, r.end, {})], received, length, shared || leader != id)
  {
    var r := Range(workers[leader].position, workers[leader].end);
    NewWorkerOk(workers, lives, length, id, Starting(r));
    if !shared && leader == id {
      ApartRest(workers, received, id);
      ApartUpdate(workers, received, id, Starting(r));
    }
  }

  lemma RaceOwned(workers: Workers, leader: int, id: int)
    requires leader in workers
    ensures var r := Range(workers[leader].position, workers[leader].end);
            var after := workers[id := Starting(r)];
            && Owned(after) == Owned(workers - {id}) + Interval(r.begin, r.end)
            && (id !in workers ==> Owned(after) == Owned(workers))
  {
    OwnedUpdate(workers, id, Starting(Range(workers[leader].position, workers[leader].end)));
    if id !in workers {
      OwnedBy(workers, leader);
      assert workers - {id} == workers;
    }
  }

  /** Among the given ends, `end` is raceable with the longest time, and `id` leads its group. */
  ghost predicate Longest(workers: Workers, startup: real, peakSpeed: real, ends: seq<int>,
                          end: int, id: int, time: real)
  {
    && Raceable(workers, startup, peakSpeed, end)
    && GroupAt(workers, startup, end).value.leader == id
    && GroupAt(workers, startup, end).value.time == time
    && InGroup(workers, id, end)
    && forall e :: e in ends && Raceable(workers, startup, peakSpeed, e) ==>
         GroupAt(workers, startup, e).value.time <= time
  }

  ghost predicate Scanned(workers: Workers, startup: real, peakSpeed: real, ends: seq<int>,
                          leader: Option<int>, end: int, time: real)
  {
    match leader
    case None => time == 0.0 && forall e :: e in ends ==> !Raceable(workers, startup, peakSpeed, e)
    case Some(id) => Longest(workers, startup, peakSpeed, ends, end, id, time)
  }

  lemma ScanStep(workers: Workers, startup: real, peakSpeed: real, ends: seq<int>,
                 leader: Option<int>, end: int, time: real, e: int, group: Group)
    requires Scanned(workers, startup, peakSpeed, ends, leader, end, time)
    requires GroupAt(workers, startup, e) == Some(group) && InGroup(workers, group.leader, e)
    requires Raceable(workers, startup, peakSpeed, e) ==> group.time > 0.0
    ensures if Raceable(workers, startup, peakSpeed, e) && group.time > time
            then Scanned(workers, startup, peakSpeed, ends + [e], Some(group.leader), e, group.time)
            else Scanned(workers, startup, peakSpeed, ends + [e], leader, end, time)
  {
    assert forall x :: x in ends + [e] <==> x in ends || x == e;
  }

  lemma ScanDone(workers: Workers, startup: real, peakSpeed: real, ends: seq<int>,
                 leader: Option<int>, end: int, time: real)
    requires Scanned(workers, startup, peakSpeed, ends, leader, end, time)
    requires forall e :: e !in ends ==> !Raceable(workers, startup, peakSpeed, e)
    ensures leader == None ==> forall e :: !Raceable(workers, startup, peakSpeed, e)
    ensures leader.Some? ==> RaceChoice(workers, startup, peakSpeed, leader.value)
  {
  }

  /** The first loop of a race: the groups by end. */
  method GroupAll(ids: seq<int>, workers: Workers, after: real) returns (groups: map<int, Group>)
    requires (forall id :: id in ids ==> id in workers) && forall i :: 0 <= i < |ids| ==> ids[i] in workers
    ensures forall e :: GroupOf(ids, workers, after, e) == if e in groups then Some(groups[e]) else None
  {
    groups := map[];
    for k := 0 to |ids|
      invariant forall e :: GroupOf(ids[..k], workers, after, e) == if e in groups then Some(groups[e]) else None
    {
      assert ids[..k + 1][..k] == ids[..k];
      var w := workers[ids[k]];
      if w.end - w.position <= 0 || w.end == UNBOUNDED {
        continue;
      }
      var before := if w.end in groups then Some(groups[w.end]) else None;
      groups := groups[w.end := Join(before, ids[k], w, after)];
    }
    assert ids[..|ids|] == ids;
  }

  method SumSpeeds(ids: seq<int>, workers: Workers, except: int) returns (r: (real, nat))
    requires forall id :: id in ids ==> id in workers
    ensures r == SpeedSum(ids, workers, except)
  {
    r := (0.0, 0);
    for k := 0 to |ids|
      invariant r == SpeedSum(ids[..k], workers, except)
    {
      assert ids[k] in ids;
      assert ids[..k + 1][..k] == ids[..k];
      if ids[k] != except && Delivering(workers[ids[k]]) {
        r := (r.0 + workers[ids[k]].speed, r.1 + 1);
      }
    }
    assert ids[..|ids|] == ids;
  }

  /** The gap loop: the first longest missing run of [0, length). */
  method LargestMissing(s: seq<Range>, length: int) returns (best: Option<Range>)
    requires Coalesced(s)
    ensures match best
            case None => Interval(0, length) <= Bytes(s)
            case Some(r) => LargestFree(Bytes(s), length, r)
  {
    best := None;
    ghost var from := 0;
    var gap := FirstGap(s, 0, length);
    while gap.Some?
      invariant 0 <= from && IsFirstGap(s, from, length, gap)
      invariant LargestBelow(Bytes(s), length, from, best)
      decreases length - from
    {
      var g := gap.value;
      GapStep(Bytes(s), length, from, best, g);
      if best == None || g.end - g.begin > best.value.end - best.value.begin {
        best := gap;
      }
      from := g.end;
      gap := FirstGap(s, g.end, length);
    }
    LargestAll(Bytes(s), length, from, best);
  }

  /** Every free run that begins below `from` is at most as long as `best`, which comes first. */
  ghost predicate LargestBelow(taken: set<int>, length: int, from: int, best: Option<Range>) {
    && (best == None ==> Interval(0, from) <= taken)
    && (best.Some? ==> 0 <= best.value.begin < best.value.end <= from && best.value.end <= length
                       && Interval(best.value.begin, best.value.end) !! taken)
    && (forall a, b {:trigger Interval(a, b)} :: 0 <= a < from && a < b <= length && Interval(a, b) !! taken ==>
          && best.Some?
          && (b - a < best.value.end - best.value.begin
              || (b - a == best.value.end - best.value.begin && best.value.begin <= a)))
  }

  lemma GapStep(taken: set<int>, length: int, from: int, best: Option<Range>, g: Range)
    requires LargestBelow(taken, length, from, best) && 0 <= from <= g.begin < g.end <= length
    requires Interval(from, g.begin) <= taken && Interval(g.begin, g.end) !! taken
    requires g.end == length || g.end in taken
    ensures LargestBelow(taken, length, g.end,
                         if best == None || g.end - g.begin > best.value.end - best.value.begin then Some(g) else best)
  {
    forall a, b | 0 <= a < g.end && a < b <= length && Interval(a, b) !! taken
      ensures a < from || (g.begin <= a && b <= g.end)
    {
      assert a in Interval(a, b);
      assert a in Interval(from, g.begin) <==> from <= a < g.begin;
      assert g.end in Interval(a, b) <==> a <= g.end < b;
    }
  }

  lemma LargestAll(taken: set<int>, length: int, from: int, best: Option<Range>)
    requires 0 <= from && LargestBelow(taken, length, from, best) && Interval(from, length) <= taken
    ensures match best
            case None => Interval(0, length) <= taken
            case Some(r) => LargestFree(taken, length, r)
  {
    if best == None {
      assert Interval(0, length) <= Interval(0, from) + Interval(from, length);
    } else {
      forall a, b | 0 <= a < b <= length && Interval(a, b) !! taken ensures a < from {
        assert a in Interval(a, b);
        assert a in Interval(from, length) <==> from <= a < length;
      }
    }
  }
}
