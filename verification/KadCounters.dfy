/**
 When the counters of a lookup are right: exactly as long as every report is harmless, and what a lookup with
 right counters promises.
 */
module KadCounters {

  import opened Base
  import opened ByteStrings
  import opened KadId
  import opened KadLookup
  import opened KadObservers
  import opened KadRuns
  import opened KadStrays

  /** By how much the number in flight exceeds the observers that owe an answer. */
  ghost function Drift(w: Walk): int {
    w.inFlight - |IdsOf(w.observers, Open)|
  }

  /** By how much the searches in flight exceed those not reported as ended. */
  ghost function SearchDrift(w: Walk, log: Log): int {
    w.searchInFlight - |log.openSearches|
  }

  /** Both counters are right. */
  ghost predicate Exact(t: Trace) {
    Drift(t.walk) == 0 && SearchDrift(t.walk, t.log) == 0
  }

  /** `r` with its log has drifted exactly as far as `w`. */
  ghost predicate SameDrift(w: Walk, log: Log, r: Walk, rlog: Log) {
    Drift(r) == Drift(w) && SearchDrift(r, rlog) == SearchDrift(w, log)
  }

  // ---------------------------------------------------------------------------
  // Issuing requests
  // ---------------------------------------------------------------------------

  /** A change of one observer that leaves it open or not open as it was. */
  lemma OpenKept(obs: seq<Observer>, i: nat, o: Observer)
    requires i < |obs| && SameNode(o.contact, obs[i].contact) && Open(o) == Open(obs[i])
    ensures IdsOf(obs[i := o], Open) == IdsOf(obs, Open)
  {
    UpdateSameMarks(obs, i, o, Open);
    SameMarksIds(obs, obs[i := o], Open);
  }

  lemma FindDrift(cfg: Config, w: Walk, log: Log, i: nat)
    requires Safe(cfg, w, log) && i < |w.observers|
    requires !w.observers[i].queried && !w.observers[i].alive && !w.observers[i].failed
    ensures SameDrift(w, log, QueriedAt(w, i), Record(log, [FindNode(w.observers[i].contact)]))
  {
    MarkAdds(w.observers, cfg.target, i, w.observers[i].(queried := true), Open);
    RecordOne(log, w.observers[i].contact);
  }

  lemma SearchAtDrift(cfg: Config, w: Walk, log: Log, i: nat, anyAnswered: bool)
    requires Safe(cfg, w, log) && i < |w.observers| && w.observers[i].alive
    ensures var r := SearchAt(cfg, w, i, anyAnswered); SameDrift(w, log, r.0, Record(log, r.1))
  {
    if MaySearch(cfg, w, i, anyAnswered) {
      var o := w.observers[i].(searched := true);
      OpenKept(w.observers, i, o);
      LogGrows(w.observers, cfg.target, i, o, Searched, log.searches);
      RecordOne(log, w.observers[i].contact);
    }
  }

  lemma {:induction false} QueryDrift(cfg: Config, w: Walk, log: Log, i: nat, considered: nat)
    requires Safe(cfg, w, log)
    ensures var r := QueryFrom(cfg, w, i, considered); SameDrift(w, log, r.0, Record(log, r.2))
    decreases |w.observers| - i
  {
    if i >= |w.observers| {
      return;
    }
    var o := w.observers[i];
    if o.failed {
      QueryDrift(cfg, w, log, i + 1, considered);
    } else if considered >= cfg.targetNodes {
    } else if !o.alive && !o.queried && w.inFlight < cfg.branchFactor + w.extra {
      FindDrift(cfg, w, log, i);
      FindSafe(cfg, w, log, i);
      QueryDrift(cfg, QueriedAt(w, i), Record(log, [FindNode(o.contact)]), i + 1, considered + 1);
      RecordConcat(log, [FindNode(o.contact)], QueryFrom(cfg, QueriedAt(w, i), i + 1, considered + 1).2);
    } else {
      QueryDrift(cfg, w, log, i + 1, considered + 1);
    }
  }

  lemma SearchesDrift(cfg: Config, w: Walk, log: Log)
    requires Safe(cfg, w, log)
    ensures var r := SearchFrom(cfg, w, 0, 0); SameDrift(w, log, r.0, Record(log, r.1))
  {
    var inv := (r: Walk, rlog: Log) => Safe(cfg, r, rlog) && SameDrift(w, log, r, rlog);
    forall r: Walk, rlog: Log, i: nat | inv(r, rlog) && i < |r.observers| && r.observers[i].alive
      ensures inv(SearchAt(cfg, r, i, true).0, Record(rlog, SearchAt(cfg, r, i, true).1))
    {
      SearchAtSafe(cfg, r, rlog, i, true);
      SearchAtDrift(cfg, r, rlog, i, true);
    }
    SearchInduction(cfg, w, log, 0, 0, inv);
  }

  /** Issuing requests moves neither counter away from what it counts. */
  lemma NextDrift(cfg: Config, w: Walk, log: Log)
    requires Safe(cfg, w, log)
    ensures var r := NextActions(cfg, w); SameDrift(w, log, r.0, Record(log, r.1))
  {
    if !w.done && !w.converged {
      var (w1, converged, finds) := QueryFrom(cfg, w, 0, 0);
      QueryDrift(cfg, w, log, 0, 0);
      if converged {
        QuerySafe(cfg, w, log, 0, 0);
        var w2 := w1.(converged := true);
        SearchesDrift(cfg, w2, Record(log, finds));
        RecordConcat(log, finds, SearchFrom(cfg, w2, 0, 0).1);
      }
    }
  }

  lemma AddNextDrift(cfg: Config, w: Walk, log: Log, contacts: seq<Contact>)
    requires Safe(cfg, w, log)
    ensures var r := Start(cfg, w, contacts); SameDrift(w, log, r.0, Record(log, r.1))
  {
    var obs' := AddContacts(w.observers, contacts, cfg.target);
    AddAllSameMarks(w.observers, contacts, cfg.target, Open);
    SameMarksIds(w.observers, obs', Open);
    AddLedger(cfg.target, w.observers, log, contacts);
    NextDrift(cfg, w.(observers := obs'), log);
  }

  // ---------------------------------------------------------------------------
  // Reports
  // ---------------------------------------------------------------------------

  /** An answer is counted once too often when it comes from a node already given up while others are awaited. */
  ghost predicate HarmlessAnswer(w: Walk, c: Contact) {
    var i := Find(w.observers, c);
    || i == None || w.inFlight == 0
    || !w.observers[i.value].queried || w.observers[i.value].alive || !w.observers[i.value].failed
  }

  /** A failure is counted for a node that was never asked as well. */
  ghost predicate HarmlessFailure(w: Walk, c: Contact) {
    var i := Find(w.observers, c);
    i == None || w.inFlight == 0 || w.observers[i.value].queried || w.observers[i.value].failed
  }

  /**
   The end of a search gives up the node even while its answer is awaited, and is counted for whichever search is
   in flight.
   */
  ghost predicate HarmlessEnd(w: Walk, log: Log, c: Contact, failed: bool) {
    var i := Find(w.observers, c);
    && (failed && i.Some? ==> !Open(w.observers[i.value]))
    && (c.id in log.openSearches || w.searchInFlight == 0)
  }

  ghost predicate Harmless(t: Trace, e: Event) {
    match e
    case Response(c, _) => t.walk.done || HarmlessAnswer(t.walk, c)
    case Failure(c) => HarmlessFailure(t.walk, c)
    case Stall => true
    case Seeded(_) => true
    case SearchDone(c, failed) => HarmlessEnd(t.walk, t.log, c, failed)
  }

  /** What an answer marks, before contacts and requests follow. */
  lemma AnsweredDrift(cfg: Config, w: Walk, log: Log, c: Contact)
    requires Safe(cfg, w, log) && Drift(w) == 0
    ensures var r := Answered(cfg, w, c);
            && (Drift(r.0) == 0 <==> HarmlessAnswer(w, c))
            && SearchDrift(r.0, Record(log, r.1)) == SearchDrift(w, log)
  {
    var i := Find(w.observers, c);
    if i.Some? && w.observers[i.value].queried && !w.observers[i.value].alive {
      var marked := MarkedAlive(w, i.value);
      var o := marked.observers[i.value];
      RemarkLedger(cfg.target, w.observers, log, i.value, o);
      SearchAtDrift(cfg, marked, log, i.value, false);
      assert Answered(cfg, w, c) == SearchAt(cfg, marked, i.value, false);
      if w.observers[i.value].failed {
        OpenKept(w.observers, i.value, o);
      } else {
        UnmarkRemoves(w.observers, cfg.target, i.value, o, Open);
      }
    }
  }

  lemma ResponseDrift(cfg: Config, w: Walk, log: Log, c: Contact, closer: seq<Contact>)
    requires Safe(cfg, w, log) && Drift(w) == 0 && SearchDrift(w, log) == 0
    ensures var r := OnResponse(cfg, w, c, closer);
            && (Drift(r.0) == 0 <==> w.done || HarmlessAnswer(w, c))
            && SearchDrift(r.0, Record(log, r.1)) == 0
  {
    if !w.done {
      var (w1, searches) := Answered(cfg, w, c);
      AnsweredDrift(cfg, w, log, c);
      AnsweredSafe(cfg, w, log, c);
      AddNextDrift(cfg, w1, Record(log, searches), closer);
      RecordConcat(log, searches, Start(cfg, w1, closer).1);
    }
  }

  lemma FailureDrift(cfg: Config, w: Walk, log: Log, c: Contact)
    requires Safe(cfg, w, log) && Drift(w) == 0 && SearchDrift(w, log) == 0
    ensures var r := OnFailure(cfg, w, c);
            && (Drift(r.0) == 0 <==> HarmlessFailure(w, c))
            && SearchDrift(r.0, Record(log, r.1)) == 0
  {
    var i, w' := Find(w.observers, c), Failed(w, c);
    if w' != w {
      var o := w.observers[i.value].(failed := true);
      RemarkLedger(cfg.target, w.observers, log, i.value, o);
      if w.observers[i.value].queried {
        UnmarkRemoves(w.observers, cfg.target, i.value, o, Open);
      } else {
        OpenKept(w.observers, i.value, o);
      }
    }
    NextDrift(cfg, w', log);
  }

  lemma FinishDrift(target: Id, w: Walk, c: Contact, failed: bool)
    requires Listed(w.observers, target) && Drift(w) == 0
    ensures var i := Find(w.observers, c);
            Drift(FinishSearch(w, c, failed)) == 0 <==> (failed && i.Some? ==> !Open(w.observers[i.value]))
  {
    var i := Find(w.observers, c);
    if i.Some? && failed {
      var o := w.observers[i.value].(failed := true);
      if Open(w.observers[i.value]) {
        UnmarkRemoves(w.observers, target, i.value, o, Open);
      } else {
        OpenKept(w.observers, i.value, o);
      }
    }
  }

  lemma OneLess(w: Walk, n: nat, log: Log, id: Bytes)
    requires n == |log.openSearches| && w.searchInFlight == Less(n)
    ensures SearchDrift(w, log.(openSearches := log.openSearches - {id})) == 0 <==> id in log.openSearches || n == 0
  {
    if id !in log.openSearches {
      assert log.openSearches - {id} == log.openSearches;
    }
  }

  lemma EndDrift(target: Id, w: Walk, log: Log, c: Contact, failed: bool)
    requires Listed(w.observers, target) && Drift(w) == 0 && SearchDrift(w, log) == 0
    ensures var r, log' := FinishSearch(w, c, failed), log.(openSearches := log.openSearches - {c.id});
            Drift(r) == 0 && SearchDrift(r, log') == 0 <==> HarmlessEnd(w, log, c, failed)
  {
    FinishDrift(target, w, c, failed);
    OneLess(FinishSearch(w, c, failed), w.searchInFlight, log, c.id);
  }

  // ---------------------------------------------------------------------------
  // Steps and runs
  // ---------------------------------------------------------------------------

  /** After any event at all, right counters are right again exactly when the event was harmless. */
  lemma StepExact(cfg: Config, t: Trace, e: Event)
    requires TraceSafe(cfg, t) && Exact(t)
    ensures Exact(Step(cfg, t, e)) <==> Harmless(t, e)
  {
    match e
    case Response(c, closer) =>
      OpenIrrelevant(cfg, t.walk, t.log, t.log.openFinds - {c.id});
      ResponseDrift(cfg, t.walk, t.log.(openFinds := t.log.openFinds - {c.id}), c, closer);
    case Failure(c) =>
      OpenIrrelevant(cfg, t.walk, t.log, t.log.openFinds - {c.id});
      FailureDrift(cfg, t.walk, t.log.(openFinds := t.log.openFinds - {c.id}), c);
    case Stall => NextDrift(cfg, Widened(cfg, t.walk), t.log);
    case Seeded(seeds) => AddNextDrift(cfg, t.walk, t.log, seeds);
    case SearchDone(c, failed) => EndDrift(cfg.target, t.walk, t.log, c, failed);
  }

  ghost predicate AllHarmless(cfg: Config, t: Trace, events: seq<Event>)
    decreases |events|
  {
    events == [] || (Harmless(t, events[0]) && AllHarmless(cfg, Step(cfg, t, events[0]), events[1..]))
  }

  /** The counters are right after every event. */
  ghost predicate AlwaysExact(cfg: Config, t: Trace, events: seq<Event>) {
    forall k :: 0 <= k <= |events| ==> Exact(Run(cfg, t, events[..k]))
  }

  lemma RunPrefix(cfg: Config, t: Trace, events: seq<Event>, k: nat)
    requires 0 < k <= |events|
    ensures Run(cfg, t, events[..k]) == Run(cfg, Step(cfg, t, events[0]), events[1..][..k - 1])
  {
    assert events[..k][1..] == events[1..][..k - 1];
  }

  lemma AlwaysExactStep(cfg: Config, t: Trace, events: seq<Event>)
    requires events != []
    ensures AlwaysExact(cfg, t, events) <==> Exact(t) && AlwaysExact(cfg, Step(cfg, t, events[0]), events[1..])
  {
    var t', rest := Step(cfg, t, events[0]), events[1..];
    assert Run(cfg, t, events[..0]) == t;
    forall k | 0 < k <= |events| ensures Run(cfg, t, events[..k]) == Run(cfg, t', rest[..k - 1]) {
      RunPrefix(cfg, t, events, k);
    }
    if AlwaysExact(cfg, t, events) {
      forall k | 0 <= k <= |rest| ensures Exact(Run(cfg, t', rest[..k])) {
        assert Exact(Run(cfg, t, events[..k + 1]));
      }
    }
  }

  /** From right counters on, they are right after every event of a run exactly when every event is harmless. */
  lemma {:induction false} RunExact(cfg: Config, t: Trace, events: seq<Event>)
    requires TraceSafe(cfg, t) && Exact(t)
    ensures AlwaysExact(cfg, t, events) <==> AllHarmless(cfg, t, events)
    decreases |events|
  {
    if events == [] {
      assert events[..0] == [];
    } else {
      var t' := Step(cfg, t, events[0]);
      AlwaysExactStep(cfg, t, events);
      StepExact(cfg, t, events[0]);
      if Exact(t') {
        StepSafe(cfg, t, events[0]);
        RunExact(cfg, t', events[1..]);
      } else {
        assert !AlwaysExact(cfg, t', events[1..]) by {
          assert Run(cfg, t', events[1..][..0]) == t';
        }
      }
    }
  }

  // ---------------------------------------------------------------------------
  // What harmless runs promise
  // ---------------------------------------------------------------------------

  /** With right counters, a walk that issued what it could and did not converge has a request in flight. */
  lemma NextBusy(cfg: Config, w: Walk, log: Log)
    requires ConfigOk(cfg) && Safe(cfg, w, log) && Settled(w) && Drift(NextActions(cfg, w).0) == 0
    ensures Busy(NextActions(cfg, w).0)
  {
    NextDrift(cfg, w, log);
    QueryKeeps(cfg, w, 0, 0);
    forall k | 0 <= k < |w.observers| && Open(w.observers[k]) ensures w.inFlight > 0 {
      assert w.observers[k].contact.id in IdsOf(w.observers, Open);
    }
    if !w.converged {
      if QueryFrom(cfg, w, 0, 0).1 {
        SearchKeeps(cfg, w.(converged := true), 0, 0);
      } else {
        QueryBusy(cfg, w, 0, 0);
      }
    }
  }

  lemma AddNextBusy(cfg: Config, w: Walk, log: Log, contacts: seq<Contact>)
    requires ConfigOk(cfg) && Safe(cfg, w, log) && Settled(w) && Drift(Start(cfg, w, contacts).0) == 0
    ensures Busy(Start(cfg, w, contacts).0)
  {
    AddLedger(cfg.target, w.observers, log, contacts);
    NextBusy(cfg, w.(observers := AddContacts(w.observers, contacts, cfg.target)), log);
  }

  lemma ResponseBusy(cfg: Config, w: Walk, log: Log, c: Contact, closer: seq<Contact>)
    requires ConfigOk(cfg) && Safe(cfg, w, log) && Settled(w) && Drift(OnResponse(cfg, w, c, closer).0) == 0
    ensures Busy(OnResponse(cfg, w, c, closer).0)
  {
    if !w.done {
      var (w1, searches) := Answered(cfg, w, c);
      AnsweredSafe(cfg, w, log, c);
      AnsweredKeeps(cfg, w, c);
      AddNextBusy(cfg, w1, Record(log, searches), closer);
    }
  }

  lemma FailureBusy(cfg: Config, w: Walk, log: Log, c: Contact)
    requires ConfigOk(cfg) && Safe(cfg, w, log) && Settled(w) && Drift(OnFailure(cfg, w, c).0) == 0
    ensures Busy(OnFailure(cfg, w, c).0)
  {
    var i, w' := Find(w.observers, c), Failed(w, c);
    if w' != w {
      RemarkLedger(cfg.target, w.observers, log, i.value, w.observers[i.value].(failed := true));
    }
    NextBusy(cfg, w', log);
  }

  lemma StepBusy(cfg: Config, t: Trace, e: Event)
    requires ConfigOk(cfg) && TraceSafe(cfg, t) && Busy(t.walk) && Exact(Step(cfg, t, e))
    ensures Busy(Step(cfg, t, e).walk)
  {
    match e
    case Response(c, closer) => ResponseBusy(cfg, t.walk, t.log, c, closer);
    case Failure(c) => FailureBusy(cfg, t.walk, t.log, c);
    case Stall => NextBusy(cfg, Widened(cfg, t.walk), t.log);
    case Seeded(seeds) => AddNextBusy(cfg, t.walk, t.log, seeds);
    case SearchDone(c, failed) =>
  }

  lemma {:induction false} HarmlessRun(cfg: Config, t: Trace, events: seq<Event>)
    requires ConfigOk(cfg) && TraceSafe(cfg, t) && Exact(t) && Busy(t.walk) && AllHarmless(cfg, t, events)
    ensures var r := Run(cfg, t, events); TraceSafe(cfg, r) && Exact(r) && Busy(r.walk)
    decreases |events|
  {
    if events == [] {
    } else {
      StepSafe(cfg, t, events[0]);
      StepExact(cfg, t, events[0]);
      StepBusy(cfg, t, events[0]);
      HarmlessRun(cfg, Step(cfg, t, events[0]), events[1..]);
    }
  }

  lemma StartExact(cfg: Config, seeds: seq<Contact>)
    ensures TraceSafe(cfg, Started(cfg, seeds)) && Exact(Started(cfg, seeds))
    ensures ConfigOk(cfg) ==> Busy(Started(cfg, seeds).walk)
  {
    var unstarted := Trace(FRESH, NO_LOG, {}, 0, 0);
    assert IdsOf([], Open) == {};
    StepSafe(cfg, unstarted, Seeded(seeds));
    StepExact(cfg, unstarted, Seeded(seeds));
    if ConfigOk(cfg) {
      AddNextBusy(cfg, FRESH, NO_LOG, seeds);
    }
  }

  /** From its start on, the counters of a lookup are right exactly as long as it is told nothing harmful. */
  lemma CountersRight(cfg: Config, seeds: seq<Contact>, events: seq<Event>)
    ensures AlwaysExact(cfg, Started(cfg, seeds), events) <==> AllHarmless(cfg, Started(cfg, seeds), events)
  {
    StartExact(cfg, seeds);
    RunExact(cfg, Started(cfg, seeds), events);
  }

  /** A request that was issued has neither been answered nor failed, or a search has not ended. */
  ghost predicate Waits(t: Trace) {
    || (exists i :: 0 <= i < |t.walk.observers| && Open(t.walk.observers[i])
                    && Names(t.log.finds, t.walk.observers[i].contact))
    || (exists k :: 0 <= k < |t.log.searches| && t.log.searches[k].id in t.log.openSearches)
  }

  lemma AskedNamed(target: Id, obs: seq<Observer>, finds: seq<Contact>, i: nat)
    requires Listed(obs, target) && LogOk(obs, Queried, finds) && i < |obs| && obs[i].queried
    ensures Names(finds, obs[i].contact)
  {
    assert Queried(obs[i]);
    assert obs[i].contact.id in LogIds(finds);
    var k :| 0 <= k < |finds| && finds[k].id == obs[i].contact.id;
    assert Has(obs, Queried, finds[k]);
    var j :| 0 <= j < |obs| && Queried(obs[j]) && SameNode(finds[k], obs[j].contact);
    if j != i {
      DistinctIds(obs, target, i, j);
    }
    assert SameNode(obs[i].contact, finds[k]);
  }

  /** A lookup told nothing harmful is done or waits for a request it made. */
  lemma HarmlessWaits(cfg: Config, seeds: seq<Contact>, events: seq<Event>)
    requires ConfigOk(cfg) && AllHarmless(cfg, Started(cfg, seeds), events)
    ensures var t := Run(cfg, Started(cfg, seeds), events); Exact(t) && (t.walk.done || Waits(t))
  {
    StartExact(cfg, seeds);
    HarmlessRun(cfg, Started(cfg, seeds), events);
    var t := Run(cfg, Started(cfg, seeds), events);
    if !t.walk.converged {
      var id := Witness(IdsOf(t.walk.observers, Open));
      var i :| 0 <= i < |t.walk.observers| && Open(t.walk.observers[i]) && t.walk.observers[i].contact.id == id;
      AskedNamed(cfg.target, t.walk.observers, t.log.finds, i);
    } else if !t.walk.done {
      var id := Witness(t.log.openSearches);
      assert id in LogIds(t.log.searches);
    }
  }

  /** Ends of its own open requests are harmless. */
  lemma {:induction false} LegalIsHarmless(cfg: Config, t: Trace, events: seq<Event>)
    requires ConfigOk(cfg) && TraceOk(cfg, t) && Legal(cfg, t, events)
    ensures AllHarmless(cfg, t, events)
    decreases |events|
  {
    if events == [] {
    } else {
      AllowedIsHarmless(cfg, t, events[0]);
      StepSound(cfg, t, events[0]);
      StepBalanced(cfg, t, events[0]);
      LegalIsHarmless(cfg, Step(cfg, t, events[0]), events[1..]);
    }
  }

  lemma AllowedIsHarmless(cfg: Config, t: Trace, e: Event)
    requires TraceOk(cfg, t) && Allowed(t, e)
    ensures Harmless(t, e)
  {
    match e
    case Response(c, closer) => var _ := OpenObserver(cfg, t.walk, t.log, c);
    case Failure(c) => var _ := OpenObserver(cfg, t.walk, t.log, c);
    case Stall =>
    case Seeded(seeds) =>
    case SearchDone(c, failed) =>
      var _ := LoggedObserver(cfg.target, t.walk.observers, Searched, t.log.searches, c);
  }

  // ---------------------------------------------------------------------------
  // Harmful reports
  // ---------------------------------------------------------------------------

  function Unasked(c: Contact): Observer {
    Observer(c, false, false, false, false)
  }

  /** Two contacts that can both be observed, the first one closer. */
  ghost predicate Pair(target: Id, a: Contact, b: Contact) {
    Usable(a) && Usable(b) && Nearer(a.id, b.id, target) && !SameEndpoint(a, b)
  }

  lemma PairAdded(target: Id, a: Contact, b: Contact)
    requires Pair(target, a, b)
    ensures AddContacts([], [a, b], target) == [Unasked(a), Unasked(b)]
  {
    CloserTotal(a.id, b.id, target);
    var first := [Unasked(a)];
    assert AddContacts([], [a], target) == first by {
      assert [a][..0] == [];
      assert [] + first + [] == first;
    }
    assert AddContact(first, b, target) == [Unasked(a), Unasked(b)] by {
      assert Find(first, b) == None;
      assert LowerBound(first, b.id, target) == 1;
      assert first[..1] + [Unasked(b)] + first[1..] == [Unasked(a), Unasked(b)];
    }
    assert [a, b][..1] == [a];
  }

  /** The query loop over two observers that need no request, one of which has not answered. */
  lemma QueryRests(cfg: Config, w: Walk)
    requires |w.observers| == 2 && !w.observers[1].alive && !w.observers[1].failed
    requires w.observers[0].alive || w.observers[0].failed
    requires w.observers[1].queried || w.inFlight >= cfg.branchFactor + w.extra
    requires (if w.observers[0].failed then 0 else 1) < cfg.targetNodes
    ensures !w.done && !w.converged ==> NextActions(cfg, w) == (w, [])
  {
    var n := if w.observers[0].failed then 0 else 1;
    assert QueryFrom(cfg, w, 2, n + 1) == (w, true, []);
    assert QueryFrom(cfg, w, 1, n) == (w, false, []);
    assert QueryFrom(cfg, w, 0, 0) == (w, false, []);
  }

  /** A node that is given up and then answers after all: nothing is in flight, and another still owes an answer. */
  lemma LateAnswerDrifts(cfg: Config, a: Contact, b: Contact)
    requires Pair(cfg.target, a, b) && cfg.branchFactor >= 2 && cfg.targetNodes >= 2
    ensures var t := Run(cfg, Started(cfg, [a, b]), [Failure(a), Response(a, [])]);
            t.walk.inFlight == 0 && IdsOf(t.walk.observers, Open) == {b.id}
  {
    var events := [Failure(a), Response(a, [])];
    var t0 := Started(cfg, [a, b]);
    BothAsked(cfg, a, b);
    var t1 := Step(cfg, t0, events[0]);
    var w1 := Failed(t0.walk, a);
    assert w1.observers == [Unasked(a).(queried := true, failed := true), Unasked(b).(queried := true)];
    QueryRests(cfg, w1);
    var w2 := Answered(cfg, w1, a).0;
    assert AddContacts(w2.observers, [], cfg.target) == w2.observers;
    QueryRests(cfg, w2);
    assert events[1..] == [events[1]] && events[1..][1..] == [];
    var t := Step(cfg, t1, events[1]);
    assert Run(cfg, t0, events) == Run(cfg, t1, events[1..]) == Run(cfg, t, []) == t;
    var obs := t.walk.observers;
    assert Open(obs[1]) && !Open(obs[0]);
  }

  lemma BothAsked(cfg: Config, a: Contact, b: Contact)
    requires Pair(cfg.target, a, b) && cfg.branchFactor >= 2 && cfg.targetNodes >= 2
    ensures Started(cfg, [a, b]).walk
         == FRESH.(observers := [Unasked(a).(queried := true), Unasked(b).(queried := true)],
                   queried := 2, inFlight := 2)
  {
    PairAdded(cfg.target, a, b);
    var w := FRESH.(observers := [Unasked(a), Unasked(b)]);
    var w1 := QueriedAt(w, 0);
    var w2 := QueriedAt(w1, 1);
    assert QueryFrom(cfg, w2, 2, 2) == (w2, true, []);
    assert QueryFrom(cfg, w1, 1, 1).0 == w2 && !QueryFrom(cfg, w1, 1, 1).1;
    assert QueryFrom(cfg, w, 0, 0).0 == w2 && !QueryFrom(cfg, w, 0, 0).1;
  }

  lemma OneAsked(cfg: Config, a: Contact, b: Contact)
    requires Pair(cfg.target, a, b) && cfg.branchFactor == 1 && cfg.targetNodes > 0
    ensures var t := Started(cfg, [a, b]);
            && t.walk == FRESH.(observers := [Unasked(a).(queried := true), Unasked(b)], queried := 1, inFlight := 1)
            && t.log == Log([a], [], {a.id}, {}) && Start(cfg, FRESH, [a, b]).1 == [FindNode(a)]
  {
    PairAdded(cfg.target, a, b);
    var w := FRESH.(observers := [Unasked(a), Unasked(b)]);
    var w1 := QueriedAt(w, 0);
    assert QueryFrom(cfg, w1, 2, 2) == (w1, true, []);
    assert QueryFrom(cfg, w1, 1, 1).0 == w1 && QueryFrom(cfg, w1, 1, 1).2 == [];
    assert [FindNode(a)] + [] == [FindNode(a)];
    assert QueryFrom(cfg, w, 0, 0) == (w1, false, [FindNode(a)]);
    RecordOne(NO_LOG, a);
    assert LogFind(NO_LOG, a) == Log([a], [], {a.id}, {});
  }

  lemma StrayThenQuiet(cfg: Config, a: Contact, b: Contact)
    requires Pair(cfg.target, a, b) && cfg.branchFactor == 1 && cfg.targetNodes > 0
    ensures var w := FinishSearch(Started(cfg, [a, b]).walk, a, true);
            && w.observers == [Unasked(a).(queried := true, failed := true), Unasked(b)] && !w.done
            && OnFailure(cfg, w, a) == (w, [])
  {
    OneAsked(cfg, a, b);
    var w := FinishSearch(Started(cfg, [a, b]).walk, a, true);
    assert w.observers == [Unasked(a).(queried := true, failed := true), Unasked(b)];
    assert Failed(w, a) == w;
    QueryRests(cfg, w);
  }

  /**
   The failed search of another lookup gives up a node while it is being asked. Its own failure is not counted
   afterwards, so the lookup waits for nothing although a node was never asked.
   */
  lemma StraySearchStrands(cfg: Config, a: Contact, b: Contact)
    requires Pair(cfg.target, a, b) && cfg.branchFactor == 1 && cfg.targetNodes > 0
    ensures var t := Run(cfg, Started(cfg, [a, b]), [SearchDone(a, true), Failure(a)]);
            && !t.walk.done && !Waits(t) && t.log.openFinds == {} && t.log.openSearches == {}
            && t.walk.observers == [Unasked(a).(queried := true, failed := true), Unasked(b)]
  {
    var events := [SearchDone(a, true), Failure(a)];
    var t0 := Started(cfg, [a, b]);
    OneAsked(cfg, a, b);
    StrayThenQuiet(cfg, a, b);
    var t1 := Step(cfg, t0, events[0]);
    assert events[1..] == [events[1]] && events[1..][1..] == [];
    var t := Step(cfg, t1, events[1]);
    assert Run(cfg, t0, events) == Run(cfg, t1, events[1..]) == Run(cfg, t, []) == t;
  }
}
