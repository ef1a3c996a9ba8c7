/**
 What a lookup keeps whatever is reported to it: answers twice or from strangers, failures of nodes
 never asked, ends of searches never issued.
 */
module KadStrays {

  import opened ByteStrings
  import opened KadId
  import opened KadLookup
  import opened KadObservers
  import opened KadRuns

  /** The logs name exactly who was asked and who was searched, each once. */
  ghost predicate Ledger(target: Id, obs: seq<Observer>, log: Log) {
    && Listed(obs, target) && LogOk(obs, Queried, log.finds) && LogOk(obs, Searched, log.searches)
    && log.openSearches <= LogIds(log.searches)
  }

  ghost predicate Safe(cfg: Config, w: Walk, log: Log) {
    && Ledger(cfg.target, w.observers, log)
    && w.searches == |log.searches| <= cfg.maxSearches
    && w.extra <= 2 * cfg.branchFactor
    && w.inFlight <= cfg.branchFactor + w.extra
  }

  // ---------------------------------------------------------------------------
  // Elementary steps
  // ---------------------------------------------------------------------------

  /** Marks that say neither asked nor searched may change freely. */
  lemma RemarkLedger(target: Id, obs: seq<Observer>, log: Log, i: nat, o: Observer)
    requires Ledger(target, obs, log) && i < |obs| && o.contact == obs[i].contact && FlagsOk(o)
    requires o.queried == obs[i].queried && o.searched == obs[i].searched
    ensures Ledger(target, obs[i := o], log)
  {
    UpdateListed(obs, target, i, o);
    UpdateSameMarks(obs, i, o, Queried);
    LogKept(obs, obs[i := o], Queried, log.finds);
    UpdateSameMarks(obs, i, o, Searched);
    LogKept(obs, obs[i := o], Searched, log.searches);
  }

  lemma AddLedger(target: Id, obs: seq<Observer>, log: Log, contacts: seq<Contact>)
    requires Ledger(target, obs, log)
    ensures Ledger(target, AddContacts(obs, contacts, target), log)
  {
    var obs' := AddContacts(obs, contacts, target);
    AddAllListed(obs, contacts, target);
    AddAllSameMarks(obs, contacts, target, Queried);
    AddAllSameMarks(obs, contacts, target, Searched);
    LogKept(obs, obs', Queried, log.finds);
    LogKept(obs, obs', Searched, log.searches);
  }

  lemma FindLedger(target: Id, obs: seq<Observer>, log: Log, i: nat)
    requires Ledger(target, obs, log) && i < |obs| && !obs[i].queried
    ensures Ledger(target, obs[i := obs[i].(queried := true)], LogFind(log, obs[i].contact))
  {
    var o := obs[i].(queried := true);
    UpdateListed(obs, target, i, o);
    LogGrows(obs, target, i, o, Queried, log.finds);
    UpdateSameMarks(obs, i, o, Searched);
    LogKept(obs, obs[i := o], Searched, log.searches);
  }

  lemma SearchLedger(target: Id, obs: seq<Observer>, log: Log, i: nat)
    requires Ledger(target, obs, log) && i < |obs| && obs[i].alive && !obs[i].searched
    ensures Ledger(target, obs[i := obs[i].(searched := true)], LogSearch(log, obs[i].contact))
  {
    var o := obs[i].(searched := true);
    UpdateListed(obs, target, i, o);
    LogGrows(obs, target, i, o, Searched, log.searches);
    LogIdsAppend(log.searches, obs[i].contact);
    UpdateSameMarks(obs, i, o, Queried);
    LogKept(obs, obs[i := o], Queried, log.finds);
  }

  lemma SearchAtSafe(cfg: Config, w: Walk, log: Log, i: nat, anyAnswered: bool)
    requires Safe(cfg, w, log) && i < |w.observers| && w.observers[i].alive
    ensures var r := SearchAt(cfg, w, i, anyAnswered); Safe(cfg, r.0, Record(log, r.1))
  {
    if MaySearch(cfg, w, i, anyAnswered) {
      SearchLedger(cfg.target, w.observers, log, i);
      RecordOne(log, w.observers[i].contact);
    }
  }

  // ---------------------------------------------------------------------------
  // The two loops
  // ---------------------------------------------------------------------------

  lemma FindSafe(cfg: Config, w: Walk, log: Log, i: nat)
    requires Safe(cfg, w, log) && i < |w.observers|
    requires !w.observers[i].queried && w.inFlight < cfg.branchFactor + w.extra
    ensures Safe(cfg, QueriedAt(w, i), Record(log, [FindNode(w.observers[i].contact)]))
  {
    FindLedger(cfg.target, w.observers, log, i);
    RecordOne(log, w.observers[i].contact);
  }

  lemma {:induction false} QuerySafe(cfg: Config, w: Walk, log: Log, i: nat, considered: nat)
    requires Safe(cfg, w, log)
    ensures var r := QueryFrom(cfg, w, i, considered); Safe(cfg, r.0, Record(log, r.2))
    decreases |w.observers| - i
  {
    if i >= |w.observers| {
      return;
    }
    var o := w.observers[i];
    if o.failed {
      QuerySafe(cfg, w, log, i + 1, considered);
    } else if considered >= cfg.targetNodes {
    } else if !o.alive && !o.queried && w.inFlight < cfg.branchFactor + w.extra {
      FindSafe(cfg, w, log, i);
      QuerySafe(cfg, QueriedAt(w, i), Record(log, [FindNode(o.contact)]), i + 1, considered + 1);
      RecordConcat(log, [FindNode(o.contact)], QueryFrom(cfg, QueriedAt(w, i), i + 1, considered + 1).2);
    } else {
      QuerySafe(cfg, w, log, i + 1, considered + 1);
    }
  }

  lemma SearchSafe(cfg: Config, w: Walk, log: Log)
    requires Safe(cfg, w, log)
    ensures var r := SearchFrom(cfg, w, 0, 0); Safe(cfg, r.0, Record(log, r.1))
  {
    var inv := (w: Walk, log: Log) => Safe(cfg, w, log);
    forall w: Walk, log: Log, i: nat | inv(w, log) && i < |w.observers| && w.observers[i].alive
      ensures inv(SearchAt(cfg, w, i, true).0, Record(log, SearchAt(cfg, w, i, true).1))
    {
      SearchAtSafe(cfg, w, log, i, true);
    }
    SearchInduction(cfg, w, log, 0, 0, inv);
  }

  lemma NextSafe(cfg: Config, w: Walk, log: Log)
    requires Safe(cfg, w, log)
    ensures var r := NextActions(cfg, w); Safe(cfg, r.0, Record(log, r.1))
  {
    if !w.done && !w.converged {
      var (w1, converged, finds) := QueryFrom(cfg, w, 0, 0);
      QuerySafe(cfg, w, log, 0, 0);
      if converged {
        var w2 := w1.(converged := true);
        SearchSafe(cfg, w2, Record(log, finds));
        RecordConcat(log, finds, SearchFrom(cfg, w2, 0, 0).1);
      }
    }
  }

  lemma NextSettled(cfg: Config, w: Walk)
    requires Settled(w)
    ensures Settled(NextActions(cfg, w).0)
  {
    QueryKeeps(cfg, w, 0, 0);
    SearchKeeps(cfg, QueryFrom(cfg, w, 0, 0).0.(converged := true), 0, 0);
  }

  // ---------------------------------------------------------------------------
  // Any event
  // ---------------------------------------------------------------------------

  lemma AnsweredSafe(cfg: Config, w: Walk, log: Log, c: Contact)
    requires Safe(cfg, w, log)
    ensures var r := Answered(cfg, w, c); Safe(cfg, r.0, Record(log, r.1))
  {
    var i := Find(w.observers, c);
    if i.Some? && w.observers[i.value].queried && !w.observers[i.value].alive {
      var marked := MarkedAlive(w, i.value);
      RemarkLedger(cfg.target, w.observers, log, i.value, marked.observers[i.value]);
      SearchAtSafe(cfg, marked, log, i.value, false);
      assert Answered(cfg, w, c) == SearchAt(cfg, marked, i.value, false);
    }
  }

  lemma AddNextSafe(cfg: Config, w: Walk, log: Log, contacts: seq<Contact>)
    requires Safe(cfg, w, log) && Settled(w)
    ensures var r := Start(cfg, w, contacts); Safe(cfg, r.0, Record(log, r.1)) && Settled(r.0)
  {
    var w' := w.(observers := AddContacts(w.observers, contacts, cfg.target));
    AddLedger(cfg.target, w.observers, log, contacts);
    NextSafe(cfg, w', log);
    NextSettled(cfg, w');
  }

  lemma ResponseSafe(cfg: Config, w: Walk, log: Log, c: Contact, closer: seq<Contact>)
    requires Safe(cfg, w, log) && Settled(w)
    ensures var r := OnResponse(cfg, w, c, closer); Safe(cfg, r.0, Record(log, r.1)) && Settled(r.0)
  {
    if !w.done {
      var (w1, searches) := Answered(cfg, w, c);
      AnsweredSafe(cfg, w, log, c);
      AnsweredKeeps(cfg, w, c);
      AddNextSafe(cfg, w1, Record(log, searches), closer);
      RecordConcat(log, searches, Start(cfg, w1, closer).1);
    }
  }

  lemma FailureSafe(cfg: Config, w: Walk, log: Log, c: Contact)
    requires Safe(cfg, w, log) && Settled(w)
    ensures var r := OnFailure(cfg, w, c); Safe(cfg, r.0, Record(log, r.1)) && Settled(r.0)
  {
    var i, w' := Find(w.observers, c), Failed(w, c);
    if w' != w {
      RemarkLedger(cfg.target, w.observers, log, i.value, w.observers[i.value].(failed := true));
    }
    NextSafe(cfg, w', log);
    NextSettled(cfg, w');
  }

  lemma StallSafe(cfg: Config, w: Walk, log: Log)
    requires Safe(cfg, w, log) && Settled(w)
    ensures var r := Stalled(cfg, w); Safe(cfg, r.0, Record(log, r.1)) && Settled(r.0)
  {
    NextSafe(cfg, Widened(cfg, w), log);
    NextSettled(cfg, Widened(cfg, w));
  }

  lemma SearchEndSafe(cfg: Config, w: Walk, log: Log, c: Contact, failed: bool)
    requires Safe(cfg, w, log) && Settled(w)
    ensures var w' := FinishSearch(w, c, failed); Safe(cfg, w', log) && Settled(w')
  {
    var i := Find(w.observers, c);
    if i.Some? && failed {
      RemarkLedger(cfg.target, w.observers, log, i.value, w.observers[i.value].(failed := true));
    }
  }

  /** The books do not depend on what is still open. */
  lemma OpenIrrelevant(cfg: Config, w: Walk, log: Log, finds: set<Bytes>)
    requires Safe(cfg, w, log)
    ensures Safe(cfg, w, log.(openFinds := finds))
  {
  }

  ghost predicate TraceSafe(cfg: Config, t: Trace) {
    Safe(cfg, t.walk, t.log) && Settled(t.walk)
  }

  lemma StepSafe(cfg: Config, t: Trace, e: Event)
    requires TraceSafe(cfg, t)
    ensures TraceSafe(cfg, Step(cfg, t, e))
  {
    match e
    case Response(c, closer) =>
      OpenIrrelevant(cfg, t.walk, t.log, t.log.openFinds - {c.id});
      ResponseSafe(cfg, t.walk, t.log.(openFinds := t.log.openFinds - {c.id}), c, closer);
    case Failure(c) =>
      OpenIrrelevant(cfg, t.walk, t.log, t.log.openFinds - {c.id});
      FailureSafe(cfg, t.walk, t.log.(openFinds := t.log.openFinds - {c.id}), c);
    case Stall => StallSafe(cfg, t.walk, t.log);
    case Seeded(seeds) => AddNextSafe(cfg, t.walk, t.log, seeds);
    case SearchDone(c, failed) => SearchEndSafe(cfg, t.walk, t.log, c, failed);
  }

  /** Ids heard of include every observer's, whatever happens. */
  lemma StepKnown(cfg: Config, t: Trace, e: Event)
    requires Known(t.walk.observers, t.heard)
    ensures Known(Step(cfg, t, e).walk.observers, Step(cfg, t, e).heard)
  {
    match e
    case Response(c, closer) =>
      var w1 := Answered(cfg, t.walk, c).0;
      AddAllKnown(w1.observers, closer, cfg.target, t.heard);
      NextConserves(cfg, w1.(observers := AddContacts(w1.observers, closer, cfg.target)));
    case Failure(c) => NextConserves(cfg, Failed(t.walk, c));
    case Stall => NextConserves(cfg, Widened(cfg, t.walk));
    case Seeded(seeds) =>
      AddAllKnown(t.walk.observers, seeds, cfg.target, t.heard);
      NextConserves(cfg, t.walk.(observers := AddContacts(t.walk.observers, seeds, cfg.target)));
    case SearchDone(c, failed) =>
  }

  lemma {:induction false} RunSafe(cfg: Config, t: Trace, events: seq<Event>)
    requires TraceSafe(cfg, t) && Known(t.walk.observers, t.heard)
    ensures TraceSafe(cfg, Run(cfg, t, events))
    ensures Known(Run(cfg, t, events).walk.observers, Run(cfg, t, events).heard)
    decreases |events|
  {
    if events == [] {
    } else {
      StepSafe(cfg, t, events[0]);
      StepKnown(cfg, t, events[0]);
      RunSafe(cfg, Step(cfg, t, events[0]), events[1..]);
    }
  }

  /** After any events at all, reported in good faith or not. */
  lemma AnyRun(cfg: Config, seeds: seq<Contact>, events: seq<Event>)
    ensures var t := Run(cfg, Started(cfg, seeds), events); TraceSafe(cfg, t) && Known(t.walk.observers, t.heard)
  {
    var unstarted := Trace(FRESH, NO_LOG, {}, 0, 0);
    StepSafe(cfg, unstarted, Seeded(seeds));
    StepKnown(cfg, unstarted, Seeded(seeds));
    RunSafe(cfg, Started(cfg, seeds), events);
  }

  /** No node and no endpoint is asked twice or searched twice, and every budget holds. */
  lemma AskedOnce(cfg: Config, seeds: seq<Contact>, events: seq<Event>)
    ensures var t := Run(cfg, Started(cfg, seeds), events);
            && NoTwice(t.log.finds) && NoTwice(t.log.searches)
            && LogIds(t.log.searches) <= LogIds(t.log.finds) <= t.heard
            && |t.log.searches| <= cfg.maxSearches && t.walk.inFlight <= 3 * cfg.branchFactor
            && (t.walk.done <==> t.walk.converged && t.walk.searchInFlight == 0)
  {
    AnyRun(cfg, seeds, events);
    var t := Run(cfg, Started(cfg, seeds), events);
    LoggedAmong(cfg.target, t.walk.observers, t.log, t.heard);
  }

  /** The observers are strictly ordered by distance and differ in id and in endpoint. */
  lemma ObserversOrdered(cfg: Config, seeds: seq<Contact>, events: seq<Event>, i: nat, j: nat)
    requires i < j < |Run(cfg, Started(cfg, seeds), events).walk.observers|
    ensures var obs := Run(cfg, Started(cfg, seeds), events).walk.observers;
            && Nearer(obs[i].contact.id, obs[j].contact.id, cfg.target)
            && obs[i].contact.id != obs[j].contact.id && !SameEndpoint(obs[i].contact, obs[j].contact)
  {
    AnyRun(cfg, seeds, events);
    var obs := Run(cfg, Started(cfg, seeds), events).walk.observers;
    DistinctIds(obs, cfg.target, i, j);
    assert Precedes(cfg.target, obs[i], obs[j]);
  }
}
