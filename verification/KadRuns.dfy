/**
 Whole runs of a lookup. The environment answers or fails each issued request
 at most once and reports nothing else; everything else is arbitrary.
 */
module KadRuns {

  import opened Base
  import opened ByteStrings
  import opened KadId
  import opened KadLookup
  import opened KadObservers

  // ---------------------------------------------------------------------------
  // The request log beside the state
  // ---------------------------------------------------------------------------

  /** Requests issued so far, and the ids of those not yet answered or failed. */
  datatype Log = Log(finds: seq<Contact>, searches: seq<Contact>, openFinds: set<Bytes>, openSearches: set<Bytes>)

  function Record(log: Log, actions: seq<Action>): Log
    decreases |actions|
  {
    if actions == [] then log
    else match actions[0]
      case FindNode(c) =>
        Record(log.(finds := log.finds + [c], openFinds := log.openFinds + {c.id}), actions[1..])
      case Search(c) =>
        Record(log.(searches := log.searches + [c], openSearches := log.openSearches + {c.id}), actions[1..])
  }

  lemma {:induction false} RecordConcat(log: Log, a: seq<Action>, b: seq<Action>)
    ensures Record(log, a + b) == Record(Record(log, a), b)
    decreases |a|
  {
    if a == [] {
      assert a + b == b;
    } else {
      assert (a + b)[1..] == a[1..] + b;
      match a[0]
      case FindNode(c) =>
        RecordConcat(log.(finds := log.finds + [c], openFinds := log.openFinds + {c.id}), a[1..], b);
      case Search(c) =>
        RecordConcat(log.(searches := log.searches + [c], openSearches := log.openSearches + {c.id}), a[1..], b);
    }
  }

  ghost predicate ConfigOk(cfg: Config) {
    cfg.branchFactor > 0 && cfg.targetNodes > 0
  }

  /** The log and the observers agree on who was asked, searched, and has not answered yet. */
  ghost predicate Books(target: Id, obs: seq<Observer>, log: Log) {
    && Listed(obs, target)
    && LogOk(obs, Queried, log.finds)
    && LogOk(obs, Searched, log.searches)
    && log.openFinds == IdsOf(obs, Open)
    && log.openSearches <= LogIds(log.searches)
  }

  /** The counters count exactly what is in flight, and no budget is exceeded. */
  ghost predicate Counters(cfg: Config, w: Walk, log: Log) {
    && w.inFlight == |log.openFinds|
    && w.queried == |log.finds|
    && w.searches == |log.searches| <= cfg.maxSearches
    && w.searchInFlight == |log.openSearches|
    && w.extra <= 2 * cfg.branchFactor
    && w.inFlight <= cfg.branchFactor + w.extra
  }

  ghost predicate Sound(cfg: Config, w: Walk, log: Log) {
    Books(cfg.target, w.observers, log) && Counters(cfg, w, log)
  }

  // ---------------------------------------------------------------------------
  // Elementary steps
  // ---------------------------------------------------------------------------

  function LogFind(log: Log, c: Contact): Log {
    log.(finds := log.finds + [c], openFinds := log.openFinds + {c.id})
  }

  function LogSearch(log: Log, c: Contact): Log {
    log.(searches := log.searches + [c], openSearches := log.openSearches + {c.id})
  }

  lemma RecordOne(log: Log, c: Contact)
    ensures Record(log, [FindNode(c)]) == LogFind(log, c) && Record(log, [Search(c)]) == LogSearch(log, c)
  {
  }

  lemma FindBooks(target: Id, obs: seq<Observer>, log: Log, i: nat)
    requires Books(target, obs, log) && i < |obs| && !obs[i].queried && !obs[i].failed
    ensures Books(target, obs[i := obs[i].(queried := true)], LogFind(log, obs[i].contact))
    ensures obs[i].contact.id !in log.openFinds
  {
    var o := obs[i].(queried := true);
    UpdateListed(obs, target, i, o);
    LogGrows(obs, target, i, o, Queried, log.finds);
    UpdateSameMarks(obs, i, o, Searched);
    LogKept(obs, obs[i := o], Searched, log.searches);
    MarkAdds(obs, target, i, o, Open);
  }

  lemma SearchBooks(target: Id, obs: seq<Observer>, log: Log, i: nat)
    requires Books(target, obs, log) && i < |obs| && obs[i].alive && !obs[i].searched
    ensures Books(target, obs[i := obs[i].(searched := true)], LogSearch(log, obs[i].contact))
    ensures obs[i].contact.id !in log.openSearches
  {
    var o := obs[i].(searched := true);
    UpdateListed(obs, target, i, o);
    LogGrows(obs, target, i, o, Searched, log.searches);
    LogIdsAppend(log.searches, obs[i].contact);
    UpdateSameMarks(obs, i, o, Queried);
    LogKept(obs, obs[i := o], Queried, log.finds);
    UpdateSameMarks(obs, i, o, Open);
    SameMarksIds(obs, obs[i := o], Open);
  }

  /** A FIND_NODE that was answered or failed is closed; nothing else changes. */
  lemma CloseBooks(target: Id, obs: seq<Observer>, log: Log, i: nat, o: Observer)
    requires Books(target, obs, log) && i < |obs| && Open(obs[i])
    requires o.contact == obs[i].contact && o.queried && !Open(o) && FlagsOk(o) && o.searched == obs[i].searched
    ensures Books(target, obs[i := o], log.(openFinds := log.openFinds - {o.contact.id}))
    ensures o.contact.id in log.openFinds
  {
    UpdateListed(obs, target, i, o);
    UpdateSameMarks(obs, i, o, Queried);
    LogKept(obs, obs[i := o], Queried, log.finds);
    UpdateSameMarks(obs, i, o, Searched);
    LogKept(obs, obs[i := o], Searched, log.searches);
    UnmarkRemoves(obs, target, i, o, Open);
  }

  /** A failed search marks an observer that had answered: no request is affected. */
  lemma FailedSearchBooks(target: Id, obs: seq<Observer>, log: Log, i: nat)
    requires Books(target, obs, log) && i < |obs| && obs[i].alive
    ensures Books(target, obs[i := obs[i].(failed := true)], log)
  {
    var o := obs[i].(failed := true);
    UpdateListed(obs, target, i, o);
    UpdateSameMarks(obs, i, o, Queried);
    LogKept(obs, obs[i := o], Queried, log.finds);
    UpdateSameMarks(obs, i, o, Searched);
    LogKept(obs, obs[i := o], Searched, log.searches);
    UpdateSameMarks(obs, i, o, Open);
    SameMarksIds(obs, obs[i := o], Open);
  }

  lemma AddBooks(target: Id, obs: seq<Observer>, log: Log, contacts: seq<Contact>)
    requires Books(target, obs, log)
    ensures Books(target, AddContacts(obs, contacts, target), log)
  {
    var obs' := AddContacts(obs, contacts, target);
    AddAllListed(obs, contacts, target);
    AddAllSameMarks(obs, contacts, target, Queried);
    AddAllSameMarks(obs, contacts, target, Searched);
    AddAllSameMarks(obs, contacts, target, Open);
    LogKept(obs, obs', Queried, log.finds);
    LogKept(obs, obs', Searched, log.searches);
    SameMarksIds(obs, obs', Open);
  }

  function QueriedAt(w: Walk, i: nat): Walk
    requires i < |w.observers|
  {
    w.(observers := w.observers[i := w.observers[i].(queried := true)], queried := w.queried + 1,
       inFlight := w.inFlight + 1)
  }

  lemma FindStep(cfg: Config, w: Walk, log: Log, i: nat)
    requires Sound(cfg, w, log) && i < |w.observers|
    requires !w.observers[i].queried && !w.observers[i].failed && w.inFlight < cfg.branchFactor + w.extra
    ensures Sound(cfg, QueriedAt(w, i), Record(log, [FindNode(w.observers[i].contact)]))
  {
    FindBooks(cfg.target, w.observers, log, i);
    RecordOne(log, w.observers[i].contact);
  }

  lemma SearchAtSound(cfg: Config, w: Walk, log: Log, i: nat, anyAnswered: bool)
    requires Sound(cfg, w, log) && i < |w.observers| && w.observers[i].alive
    ensures var r := SearchAt(cfg, w, i, anyAnswered); Sound(cfg, r.0, Record(log, r.1))
  {
    if MaySearch(cfg, w, i, anyAnswered) {
      SearchBooks(cfg.target, w.observers, log, i);
      SearchCounters(cfg, w, log, w.observers[i].contact, SearchAt(cfg, w, i, anyAnswered).0.observers);
      RecordOne(log, w.observers[i].contact);
    }
  }

  lemma SearchCounters(cfg: Config, w: Walk, log: Log, c: Contact, obs: seq<Observer>)
    requires Counters(cfg, w, log) && c.id !in log.openSearches && w.searches < cfg.maxSearches
    ensures var r := w.(observers := obs, searches := w.searches + 1, searchInFlight := w.searchInFlight + 1);
            Counters(cfg, r, LogSearch(log, c))
  {
  }

  // ---------------------------------------------------------------------------
  // The two loops
  // ---------------------------------------------------------------------------

  /** The query loop keeps the books. */
  lemma {:induction false} QuerySound(cfg: Config, w: Walk, log: Log, i: nat, considered: nat)
    requires Sound(cfg, w, log)
    ensures var r := QueryFrom(cfg, w, i, considered); Sound(cfg, r.0, Record(log, r.2))
    decreases |w.observers| - i
  {
    if i >= |w.observers| {
      return;
    }
    var o := w.observers[i];
    if o.failed {
      QuerySound(cfg, w, log, i + 1, considered);
    } else if considered >= cfg.targetNodes {
    } else if !o.alive && !o.queried && w.inFlight < cfg.branchFactor + w.extra {
      FindStep(cfg, w, log, i);
      QuerySound(cfg, QueriedAt(w, i), Record(log, [FindNode(o.contact)]), i + 1, considered + 1);
      RecordConcat(log, [FindNode(o.contact)], QueryFrom(cfg, QueriedAt(w, i), i + 1, considered + 1).2);
    } else {
      QuerySound(cfg, w, log, i + 1, considered + 1);
    }
  }

  /** It changes nothing when everyone considered answered, and touches only counters of requests. */
  lemma {:induction false} QueryKeeps(cfg: Config, w: Walk, i: nat, considered: nat)
    ensures var r := QueryFrom(cfg, w, i, considered);
            && (r.1 ==> r.0 == w && r.2 == [])
            && r.0.inFlight >= w.inFlight
            && r.0.converged == w.converged && r.0.done == w.done && r.0.searchInFlight == w.searchInFlight
    decreases |w.observers| - i
  {
    if i >= |w.observers| {
      return;
    }
    var o := w.observers[i];
    if o.failed {
      QueryKeeps(cfg, w, i + 1, considered);
    } else if considered >= cfg.targetNodes {
    } else if !o.alive && !o.queried && w.inFlight < cfg.branchFactor + w.extra {
      QueryKeeps(cfg, QueriedAt(w, i), i + 1, considered + 1);
    } else {
      QueryKeeps(cfg, w, i + 1, considered + 1);
    }
  }

  /** An observer that owes an answer is counted. */
  ghost predicate OpenCounted(w: Walk) {
    forall k :: 0 <= k < |w.observers| && Open(w.observers[k]) ==> w.inFlight > 0
  }

  lemma SoundCounts(cfg: Config, w: Walk, log: Log)
    requires Sound(cfg, w, log)
    ensures OpenCounted(w)
  {
    forall k | 0 <= k < |w.observers| && Open(w.observers[k]) ensures w.inFlight > 0 {
      assert w.observers[k].contact.id in log.openFinds;
    }
  }

  /** Unless everyone considered answered, a request is in flight afterwards. */
  lemma {:induction false} QueryBusy(cfg: Config, w: Walk, i: nat, considered: nat)
    requires ConfigOk(cfg) && OpenCounted(w) && !QueryFrom(cfg, w, i, considered).1
    ensures QueryFrom(cfg, w, i, considered).0.inFlight > 0
    decreases |w.observers| - i
  {
    var o := w.observers[i];
    if o.failed {
      QueryBusy(cfg, w, i + 1, considered);
    } else if o.alive {
      QueryBusy(cfg, w, i + 1, considered + 1);
    } else if !o.queried && w.inFlight < cfg.branchFactor + w.extra {
      QueryKeeps(cfg, QueriedAt(w, i), i + 1, considered + 1);
    } else {
      QueryKeeps(cfg, w, i + 1, considered + 1);
      assert o.queried ==> Open(o);
    }
  }

  /** Searching one observer that answered keeps `inv`. */
  ghost predicate SearchStable(cfg: Config, inv: (Walk, Log) -> bool) {
    forall w: Walk, log: Log, i: nat {:trigger inv(w, log), SearchAt(cfg, w, i, true)} ::
      inv(w, log) && i < |w.observers| && w.observers[i].alive
      ==> inv(SearchAt(cfg, w, i, true).0, Record(log, SearchAt(cfg, w, i, true).1))
  }

  lemma {:induction false} SearchInduction(cfg: Config, w: Walk, log: Log, i: nat, considered: nat,
                                           inv: (Walk, Log) -> bool)
    requires inv(w, log) && SearchStable(cfg, inv)
    ensures var r := SearchFrom(cfg, w, i, considered); inv(r.0, Record(log, r.1))
    decreases |w.observers| - i
  {
    if i >= |w.observers| {
    } else if w.observers[i].alive && considered < cfg.targetNodes {
      var step := SearchAt(cfg, w, i, true);
      SearchInduction(cfg, step.0, Record(log, step.1), i + 1, considered + 1, inv);
      RecordConcat(log, step.1, SearchFrom(cfg, step.0, i + 1, considered + 1).1);
    } else {
      SearchInduction(cfg, w, log, i + 1, considered, inv);
    }
  }

  /** The final loop keeps the books. */
  lemma SearchSound(cfg: Config, w: Walk, log: Log)
    requires Sound(cfg, w, log)
    ensures var r := SearchFrom(cfg, w, 0, 0); Sound(cfg, r.0, Record(log, r.1))
  {
    var inv := (w: Walk, log: Log) => Sound(cfg, w, log);
    forall w: Walk, log: Log, i: nat | inv(w, log) && i < |w.observers| && w.observers[i].alive
      ensures inv(SearchAt(cfg, w, i, true).0, Record(log, SearchAt(cfg, w, i, true).1))
    {
      SearchAtSound(cfg, w, log, i, true);
    }
    SearchInduction(cfg, w, log, 0, 0, inv);
  }

  lemma {:induction false} SearchKeeps(cfg: Config, w: Walk, i: nat, considered: nat)
    ensures var r := SearchFrom(cfg, w, i, considered); r.0.converged == w.converged && r.0.done == w.done
    decreases |w.observers| - i
  {
    if i >= |w.observers| {
    } else {
      if w.observers[i].alive && considered < cfg.targetNodes {
        SearchKeeps(cfg, SearchAt(cfg, w, i, true).0, i + 1, considered + 1);
      } else {
        SearchKeeps(cfg, w, i + 1, considered);
      }
    }
  }

  // ---------------------------------------------------------------------------
  // Events
  // ---------------------------------------------------------------------------

  /** Done exactly when the walk converged and no search is outstanding. */
  ghost predicate Settled(w: Walk) {
    w.done <==> w.converged && w.searchInFlight == 0
  }

  /** A walk that has not converged has a FIND_NODE in flight. */
  ghost predicate Busy(w: Walk) {
    !w.converged ==> w.inFlight > 0
  }

  lemma NextSound(cfg: Config, w: Walk, log: Log)
    requires ConfigOk(cfg) && Sound(cfg, w, log) && Settled(w)
    ensures var r := NextActions(cfg, w);
            Sound(cfg, r.0, Record(log, r.1)) && Settled(r.0) && Busy(r.0)
  {
    if !w.converged {
      var q := QueryFrom(cfg, w, 0, 0);
      QuerySound(cfg, w, log, 0, 0);
      QueryKeeps(cfg, w, 0, 0);
      if !q.1 {
        SoundCounts(cfg, w, log);
        QueryBusy(cfg, w, 0, 0);
      } else {
        ConvergeSound(cfg, w, log);
      }
    }
  }

  lemma ConvergeSound(cfg: Config, w: Walk, log: Log)
    requires Sound(cfg, w, log) && !w.done && QueryFrom(cfg, w, 0, 0) == (w, true, [])
    ensures var r := NextActions(cfg, w);
            w.converged || (Sound(cfg, r.0, Record(log, r.1)) && r.0.converged && Settled(r.0))
  {
    if !w.converged {
      var c := w.(converged := true);
      assert Sound(cfg, c, log);
      SearchSound(cfg, c, log);
      SearchKeeps(cfg, c, 0, 0);
      var (w2, searches) := SearchFrom(cfg, c, 0, 0);
      assert [] + searches == searches;
    }
  }

  datatype Event =
    | Response(contact: Contact, closer: seq<Contact>)
    | Failure(contact: Contact)
    | Stall
    | Seeded(seeds: seq<Contact>)
    | SearchDone(contact: Contact, failed: bool)

  /** A run so far: the state, the requests, the ids heard of, and how many answers came. */
  datatype Trace = Trace(walk: Walk, log: Log, heard: set<Bytes>, answers: nat, searchAnswers: nat)

  ghost function IdSet(contacts: seq<Contact>): set<Bytes> {
    set i | 0 <= i < |contacts| :: contacts[i].id
  }

  /** The log has a request to this node; what else is known about the node may have changed since. */
  ghost predicate Names(log: seq<Contact>, c: Contact) {
    exists k :: 0 <= k < |log| && SameNode(c, log[k])
  }

  /** The lookup is running, and the event answers or fails a request that is still open. */
  ghost predicate Allowed(t: Trace, e: Event) {
    && !t.walk.done
    && match e
       case Response(c, _) => Names(t.log.finds, c) && c.id in t.log.openFinds
       case Failure(c) => Names(t.log.finds, c) && c.id in t.log.openFinds
       case Stall => true
       case Seeded(_) => true
       case SearchDone(c, _) => Names(t.log.searches, c) && c.id in t.log.openSearches
  }

  ghost function Step(cfg: Config, t: Trace, e: Event): Trace {
    match e
    case Response(c, closer) =>
      var r := OnResponse(cfg, t.walk, c, closer);
      Trace(r.0, Record(t.log.(openFinds := t.log.openFinds - {c.id}), r.1), t.heard + IdSet(closer),
            t.answers + 1, t.searchAnswers)
    case Failure(c) =>
      var r := OnFailure(cfg, t.walk, c);
      Trace(r.0, Record(t.log.(openFinds := t.log.openFinds - {c.id}), r.1), t.heard, t.answers + 1, t.searchAnswers)
    case Stall =>
      var r := Stalled(cfg, t.walk);
      Trace(r.0, Record(t.log, r.1), t.heard, t.answers, t.searchAnswers)
    case Seeded(seeds) =>
      var r := Start(cfg, t.walk, seeds);
      Trace(r.0, Record(t.log, r.1), t.heard + IdSet(seeds), t.answers, t.searchAnswers)
    case SearchDone(c, failed) =>
      Trace(FinishSearch(t.walk, c, failed), t.log.(openSearches := t.log.openSearches - {c.id}), t.heard,
            t.answers, t.searchAnswers + 1)
  }

  const NO_LOG: Log := Log([], [], {}, {})

  ghost function Started(cfg: Config, seeds: seq<Contact>): Trace {
    Step(cfg, Trace(FRESH, NO_LOG, {}, 0, 0), Seeded(seeds))
  }

  /** The observer behind a logged request. */
  lemma LoggedObserver(target: Id, obs: seq<Observer>, p: Observer -> bool, log: seq<Contact>, c: Contact)
    returns (i: nat)
    requires Listed(obs, target) && LogOk(obs, p, log) && Names(log, c)
    ensures i < |obs| && p(obs[i]) && SameNode(c, obs[i].contact) && Find(obs, c) == Some(i)
  {
    var k :| 0 <= k < |log| && SameNode(c, log[k]);
    assert Has(obs, p, log[k]);
    i :| 0 <= i < |obs| && p(obs[i]) && SameNode(log[k], obs[i].contact);
    FindsItself(obs, target, c, i);
  }

  /** An id still open belongs to the observer it was sent to. */
  lemma OpenObserver(cfg: Config, w: Walk, log: Log, c: Contact) returns (i: nat)
    requires Sound(cfg, w, log) && Names(log.finds, c) && c.id in log.openFinds
    ensures i < |w.observers| && Open(w.observers[i]) && w.observers[i].contact.id == c.id
    ensures Find(w.observers, c) == Some(i)
  {
    i := LoggedObserver(cfg.target, w.observers, Queried, log.finds, c);
    var k :| 0 <= k < |w.observers| && Open(w.observers[k]) && w.observers[k].contact.id == c.id;
    if k != i {
      DistinctIds(w.observers, cfg.target, k, i);
    }
  }

  function MarkedAlive(w: Walk, i: nat): Walk
    requires i < |w.observers|
  {
    w.(observers := w.observers[i := w.observers[i].(alive := true, failed := false)],
       answered := w.answered + 1, inFlight := Less(w.inFlight))
  }

  lemma MarkedSound(cfg: Config, w: Walk, log: Log, c: Contact) returns (i: nat)
    requires Sound(cfg, w, log) && Names(log.finds, c) && c.id in log.openFinds
    ensures i < |w.observers| && Answered(cfg, w, c) == SearchAt(cfg, MarkedAlive(w, i), i, false)
    ensures Sound(cfg, MarkedAlive(w, i), log.(openFinds := log.openFinds - {c.id}))
  {
    i := OpenObserver(cfg, w, log, c);
    CloseBooks(cfg.target, w.observers, log, i, w.observers[i].(alive := true, failed := false));
  }

  lemma AnsweredSound(cfg: Config, w: Walk, log: Log, c: Contact)
    requires Sound(cfg, w, log) && Names(log.finds, c) && c.id in log.openFinds
    ensures var r := Answered(cfg, w, c); Sound(cfg, r.0, Record(log.(openFinds := log.openFinds - {c.id}), r.1))
  {
    var i := MarkedSound(cfg, w, log, c);
    SearchAtSound(cfg, MarkedAlive(w, i), log.(openFinds := log.openFinds - {c.id}), i, false);
  }

  lemma AnsweredKeeps(cfg: Config, w: Walk, c: Contact)
    ensures var r := Answered(cfg, w, c).0;
            r.converged == w.converged && r.done == w.done && r.searchInFlight >= w.searchInFlight
  {
  }

  lemma ResponseSound(cfg: Config, w: Walk, log: Log, c: Contact, closer: seq<Contact>)
    requires ConfigOk(cfg) && Sound(cfg, w, log) && Settled(w) && !w.done
    requires Names(log.finds, c) && c.id in log.openFinds
    ensures var r := OnResponse(cfg, w, c, closer);
            && Sound(cfg, r.0, Record(log.(openFinds := log.openFinds - {c.id}), r.1))
            && Settled(r.0) && Busy(r.0)
  {
    var log' := log.(openFinds := log.openFinds - {c.id});
    var (w1, searches) := Answered(cfg, w, c);
    AnsweredSound(cfg, w, log, c);
    AnsweredKeeps(cfg, w, c);
    var w2 := w1.(observers := AddContacts(w1.observers, closer, cfg.target));
    AddBooks(cfg.target, w1.observers, Record(log', searches), closer);
    assert Sound(cfg, w2, Record(log', searches));
    NextSound(cfg, w2, Record(log', searches));
    RecordConcat(log', searches, NextActions(cfg, w2).1);
  }

  lemma FailureSound(cfg: Config, w: Walk, log: Log, c: Contact)
    requires ConfigOk(cfg) && Sound(cfg, w, log) && Settled(w)
    requires Names(log.finds, c) && c.id in log.openFinds
    ensures var r := OnFailure(cfg, w, c);
            && Sound(cfg, r.0, Record(log.(openFinds := log.openFinds - {c.id}), r.1))
            && Settled(r.0) && Busy(r.0)
  {
    var i := OpenObserver(cfg, w, log, c);
    var log' := log.(openFinds := log.openFinds - {c.id});
    CloseBooks(cfg.target, w.observers, log, i, w.observers[i].(failed := true));
    assert Sound(cfg, Failed(w, c), log');
    NextSound(cfg, Failed(w, c), log');
  }

  lemma WidenedSound(cfg: Config, w: Walk, log: Log)
    requires Sound(cfg, w, log)
    ensures Sound(cfg, Widened(cfg, w), log)
  {
  }

  lemma StallSound(cfg: Config, w: Walk, log: Log)
    requires ConfigOk(cfg) && Sound(cfg, w, log) && Settled(w)
    ensures var r := Stalled(cfg, w);
            Sound(cfg, r.0, Record(log, r.1)) && Settled(r.0) && Busy(r.0)
  {
    WidenedSound(cfg, w, log);
    NextSound(cfg, Widened(cfg, w), log);
  }

  lemma SearchDoneSound(cfg: Config, w: Walk, log: Log, c: Contact, failed: bool)
    requires Sound(cfg, w, log) && Settled(w) && Busy(w)
    requires Names(log.searches, c) && c.id in log.openSearches
    ensures var w' := FinishSearch(w, c, failed);
            Sound(cfg, w', log.(openSearches := log.openSearches - {c.id})) && Settled(w') && Busy(w')
  {
    var i := LoggedObserver(cfg.target, w.observers, Searched, log.searches, c);
    if failed {
      FailedSearchBooks(cfg.target, w.observers, log, i);
    }
  }

  // ---------------------------------------------------------------------------
  // Conservation of requests, and the ids heard of
  // ---------------------------------------------------------------------------

  /** Same contacts at the same places. */
  ghost predicate SameContacts(a: seq<Observer>, b: seq<Observer>) {
    |a| == |b| && forall k :: 0 <= k < |a| ==> a[k].contact == b[k].contact
  }

  /** Requests issued minus requests in flight, of both kinds, are unchanged, and so are the contacts. */
  ghost predicate Conserves(w: Walk, r: Walk) {
    && r.queried - r.inFlight == w.queried - w.inFlight
    && r.searches - r.searchInFlight == w.searches - w.searchInFlight
    && SameContacts(w.observers, r.observers)
  }

  lemma {:induction false} QueryConserves(cfg: Config, w: Walk, i: nat, considered: nat)
    ensures Conserves(w, QueryFrom(cfg, w, i, considered).0)
    decreases |w.observers| - i
  {
    if i >= |w.observers| {
      return;
    }
    var o := w.observers[i];
    if o.failed {
      QueryConserves(cfg, w, i + 1, considered);
    } else if considered >= cfg.targetNodes {
    } else if !o.alive && !o.queried && w.inFlight < cfg.branchFactor + w.extra {
      QueryConserves(cfg, QueriedAt(w, i), i + 1, considered + 1);
    } else {
      QueryConserves(cfg, w, i + 1, considered + 1);
    }
  }

  lemma {:induction false} SearchConserves(cfg: Config, w: Walk, i: nat, considered: nat)
    ensures Conserves(w, SearchFrom(cfg, w, i, considered).0)
    decreases |w.observers| - i
  {
    if i >= |w.observers| {
    } else {
      if w.observers[i].alive && considered < cfg.targetNodes {
        SearchConserves(cfg, SearchAt(cfg, w, i, true).0, i + 1, considered + 1);
      } else {
        SearchConserves(cfg, w, i + 1, considered);
      }
    }
  }

  lemma NextConserves(cfg: Config, w: Walk)
    ensures Conserves(w, NextActions(cfg, w).0)
  {
    var w1 := QueryFrom(cfg, w, 0, 0).0;
    QueryConserves(cfg, w, 0, 0);
    SearchConserves(cfg, w1.(converged := true), 0, 0);
  }

  /** Ids of observers come from contacts heard of. */
  ghost predicate Known(obs: seq<Observer>, heard: set<Bytes>) {
    forall i :: 0 <= i < |obs| ==> obs[i].contact.id in heard
  }

  lemma AddKnown(obs: seq<Observer>, c: Contact, target: Id, heard: set<Bytes>)
    requires Known(obs, heard)
    ensures Known(AddContact(obs, c, target), heard + {c.id})
  {
    if Usable(c) && Find(obs, c) == None {
      var k := LowerBound(obs, c.id, target);
      var t := obs[..k] + [Observer(c, false, false, false, false)] + obs[k..];
      assert Known(t, heard + {c.id});
      assert Trim(t) <= t;
    }
  }

  lemma {:induction false} AddAllKnown(obs: seq<Observer>, contacts: seq<Contact>, target: Id, heard: set<Bytes>)
    requires Known(obs, heard)
    ensures Known(AddContacts(obs, contacts, target), heard + IdSet(contacts))
  {
    if contacts == [] {
    } else {
      var n := |contacts| - 1;
      AddAllKnown(obs, contacts[..n], target, heard);
      AddKnown(AddContacts(obs, contacts[..n], target), contacts[n], target, heard + IdSet(contacts[..n]));
      assert forall i :: 0 <= i < n ==> contacts[..n][i] == contacts[i];
      assert heard + IdSet(contacts[..n]) + {contacts[n].id} <= heard + IdSet(contacts);
    }
  }

  // ---------------------------------------------------------------------------
  // Runs
  // ---------------------------------------------------------------------------

  /** Every request was answered, failed, or is still in flight. */
  ghost predicate Balanced(t: Trace) {
    && t.walk.queried == t.answers + t.walk.inFlight
    && t.walk.searches == t.searchAnswers + t.walk.searchInFlight
  }

  ghost predicate TraceOk(cfg: Config, t: Trace) {
    && Sound(cfg, t.walk, t.log) && Settled(t.walk) && Busy(t.walk)
    && Balanced(t) && Known(t.walk.observers, t.heard)
  }

  lemma SeededSound(cfg: Config, w: Walk, log: Log, seeds: seq<Contact>)
    requires ConfigOk(cfg) && Sound(cfg, w, log) && Settled(w)
    ensures var r := Start(cfg, w, seeds);
            Sound(cfg, r.0, Record(log, r.1)) && Settled(r.0) && Busy(r.0)
  {
    var w' := w.(observers := AddContacts(w.observers, seeds, cfg.target));
    AddBooks(cfg.target, w.observers, log, seeds);
    assert Sound(cfg, w', log);
    NextSound(cfg, w', log);
  }

  lemma SeededBalanced(cfg: Config, t: Trace, seeds: seq<Contact>)
    requires Balanced(t) && Known(t.walk.observers, t.heard)
    ensures var r := Step(cfg, t, Seeded(seeds)); Balanced(r) && Known(r.walk.observers, r.heard)
  {
    var w := t.walk.(observers := AddContacts(t.walk.observers, seeds, cfg.target));
    AddAllKnown(t.walk.observers, seeds, cfg.target, t.heard);
    NextConserves(cfg, w);
    assert Step(cfg, t, Seeded(seeds)).walk == NextActions(cfg, w).0;
  }

  lemma StepSound(cfg: Config, t: Trace, e: Event)
    requires ConfigOk(cfg) && TraceOk(cfg, t) && Allowed(t, e)
    ensures var r := Step(cfg, t, e); Sound(cfg, r.walk, r.log) && Settled(r.walk) && Busy(r.walk)
  {
    match e
    case Response(c, closer) => ResponseSound(cfg, t.walk, t.log, c, closer);
    case Failure(c) => FailureSound(cfg, t.walk, t.log, c);
    case Stall => StallSound(cfg, t.walk, t.log);
    case Seeded(seeds) => SeededSound(cfg, t.walk, t.log, seeds);
    case SearchDone(c, failed) => SearchDoneSound(cfg, t.walk, t.log, c, failed);
  }

  lemma StepBalanced(cfg: Config, t: Trace, e: Event)
    requires TraceOk(cfg, t) && Allowed(t, e)
    ensures var r := Step(cfg, t, e); Balanced(r) && Known(r.walk.observers, r.heard)
  {
    match e
    case Response(c, closer) => ResponseBalanced(cfg, t, c, closer);
    case Failure(c) => FailureBalanced(cfg, t, c);
    case Stall => NextConserves(cfg, Widened(cfg, t.walk));
    case Seeded(seeds) => SeededBalanced(cfg, t, seeds);
    case SearchDone(c, failed) =>
  }

  lemma FailureBalanced(cfg: Config, t: Trace, c: Contact)
    requires TraceOk(cfg, t) && Allowed(t, Failure(c))
    ensures var r := Step(cfg, t, Failure(c)); Balanced(r) && Known(r.walk.observers, r.heard)
  {
    var i := OpenObserver(cfg, t.walk, t.log, c);
    var w := Failed(t.walk, c);
    NextConserves(cfg, w);
    assert Step(cfg, t, Failure(c)).walk == NextActions(cfg, w).0;
  }

  lemma AnsweredBalanced(cfg: Config, t: Trace, c: Contact)
    requires TraceOk(cfg, t) && Names(t.log.finds, c) && c.id in t.log.openFinds
    ensures var w := Answered(cfg, t.walk, c).0;
            && w.queried == t.answers + 1 + w.inFlight
            && w.searches == t.searchAnswers + w.searchInFlight
            && Known(w.observers, t.heard)
  {
    var i := MarkedSound(cfg, t.walk, t.log, c);
  }

  lemma ResponseBalanced(cfg: Config, t: Trace, c: Contact, closer: seq<Contact>)
    requires TraceOk(cfg, t) && Allowed(t, Response(c, closer))
    ensures var r := Step(cfg, t, Response(c, closer)); Balanced(r) && Known(r.walk.observers, r.heard)
  {
    AnsweredBalanced(cfg, t, c);
    var w1 := Answered(cfg, t.walk, c).0;
    var w2 := w1.(observers := AddContacts(w1.observers, closer, cfg.target));
    AddAllKnown(w1.observers, closer, cfg.target, t.heard);
    NextConserves(cfg, w2);
    assert Step(cfg, t, Response(c, closer)).walk == NextActions(cfg, w2).0;
  }

  ghost function Run(cfg: Config, t: Trace, events: seq<Event>): Trace
    decreases |events|
  {
    if events == [] then t else Run(cfg, Step(cfg, t, events[0]), events[1..])
  }

  ghost predicate Legal(cfg: Config, t: Trace, events: seq<Event>)
    decreases |events|
  {
    events == [] || (Allowed(t, events[0]) && Legal(cfg, Step(cfg, t, events[0]), events[1..]))
  }

  lemma {:induction false} RunFrom(cfg: Config, t: Trace, events: seq<Event>)
    requires ConfigOk(cfg) && TraceOk(cfg, t) && Legal(cfg, t, events)
    ensures TraceOk(cfg, Run(cfg, t, events))
    decreases |events|
  {
    if events == [] {
    } else {
      StepSound(cfg, t, events[0]);
      StepBalanced(cfg, t, events[0]);
      RunFrom(cfg, Step(cfg, t, events[0]), events[1..]);
    }
  }

  /** Every state a lookup can reach keeps the books, whatever its peers answer. */
  lemma EveryRun(cfg: Config, seeds: seq<Contact>, events: seq<Event>)
    requires ConfigOk(cfg) && Legal(cfg, Started(cfg, seeds), events)
    ensures TraceOk(cfg, Run(cfg, Started(cfg, seeds), events))
  {
    SeededSound(cfg, FRESH, NO_LOG, seeds);
    SeededBalanced(cfg, Trace(FRESH, NO_LOG, {}, 0, 0), seeds);
    RunFrom(cfg, Started(cfg, seeds), events);
  }

  // ---------------------------------------------------------------------------
  // What that means for a lookup
  // ---------------------------------------------------------------------------

  /** A lookup that is not done waits for at least one answer, so answers alone can finish it. */
  lemma NeverStuck(cfg: Config, t: Trace)
    requires TraceOk(cfg, t) && !t.walk.done
    ensures exists c: Contact :: Allowed(t, Failure(c)) || Allowed(t, SearchDone(c, true))
  {
    if t.walk.inFlight > 0 {
      var id := Witness(t.log.openFinds);
      var i :| 0 <= i < |t.walk.observers| && Open(t.walk.observers[i]) && t.walk.observers[i].contact.id == id;
      assert Queried(t.walk.observers[i]);
      assert id in LogIds(t.log.finds);
      var k :| 0 <= k < |t.log.finds| && t.log.finds[k].id == id;
      assert SameNode(t.log.finds[k], t.log.finds[k]);
      assert Allowed(t, Failure(t.log.finds[k]));
    } else {
      var id := Witness(t.log.openSearches);
      assert id in LogIds(t.log.searches);
      var k :| 0 <= k < |t.log.searches| && t.log.searches[k].id == id;
      assert SameNode(t.log.searches[k], t.log.searches[k]);
      assert Allowed(t, SearchDone(t.log.searches[k], true));
    }
  }

  /** What is counted as in flight is exactly what has not been answered or failed. */
  lemma CountersExact(cfg: Config, seeds: seq<Contact>, events: seq<Event>)
    requires ConfigOk(cfg) && Legal(cfg, Started(cfg, seeds), events)
    ensures var t := Run(cfg, Started(cfg, seeds), events);
            && t.walk.inFlight == |IdsOf(t.walk.observers, Open)| && IdsOf(t.walk.observers, Open) == t.log.openFinds
            && t.walk.searchInFlight == |t.log.openSearches|
            && |t.log.finds| == t.answers + |t.log.openFinds|
            && |t.log.searches| == t.searchAnswers + |t.log.openSearches|
  {
    EveryRun(cfg, seeds, events);
  }

  /** Whoever was searched had been asked, and whoever was asked had been heard of. */
  lemma LoggedAmong(target: Id, obs: seq<Observer>, log: Log, heard: set<Bytes>)
    requires Listed(obs, target) && LogOk(obs, Queried, log.finds) && LogOk(obs, Searched, log.searches)
    requires Known(obs, heard)
    ensures LogIds(log.searches) <= LogIds(log.finds) <= heard
  {
    forall x | x in LogIds(log.searches) ensures x in LogIds(log.finds) {
      assert x in IdsOf(obs, Searched);
      var i :| 0 <= i < |obs| && Searched(obs[i]) && obs[i].contact.id == x;
      assert Queried(obs[i]);
      assert x in IdsOf(obs, Queried);
    }
    forall x | x in LogIds(log.finds) ensures x in heard {
      assert x in IdsOf(obs, Queried);
    }
  }

  function Answers(events: seq<Event>): nat {
    if events == [] then 0 else (if events[0].Stall? || events[0].Seeded? then 0 else 1) + Answers(events[1..])
  }

  lemma {:induction false} AnswersCounted(cfg: Config, t: Trace, events: seq<Event>)
    ensures var r := Run(cfg, t, events);
            r.answers + r.searchAnswers == t.answers + t.searchAnswers + Answers(events)
    decreases |events|
  {
    if events == [] {
    } else {
      AnswersCounted(cfg, Step(cfg, t, events[0]), events[1..]);
    }
  }

  lemma LogBounded(cfg: Config, t: Trace)
    requires TraceOk(cfg, t)
    ensures |t.log.finds| <= |t.heard| && |t.log.searches| <= Min(|t.heard|, cfg.maxSearches)
  {
    LoggedAmong(cfg.target, t.walk.observers, t.log, t.heard);
    LogSize(t.log.finds);
    LogSize(t.log.searches);
    SubsetSize(LogIds(t.log.finds), t.heard);
    SubsetSize(LogIds(t.log.searches), t.heard);
  }

  /** Only so many answers can arrive before a lookup is done: one per node heard of, and one per search. */
  lemma AnswersBounded(cfg: Config, seeds: seq<Contact>, events: seq<Event>)
    requires ConfigOk(cfg) && Legal(cfg, Started(cfg, seeds), events)
    ensures var heard := |Run(cfg, Started(cfg, seeds), events).heard|;
            Answers(events) <= heard + Min(heard, cfg.maxSearches)
  {
    EveryRun(cfg, seeds, events);
    AnswersCounted(cfg, Started(cfg, seeds), events);
    LogBounded(cfg, Run(cfg, Started(cfg, seeds), events));
  }

  /** Every contact the events bring has its id in `u`. */
  ghost predicate BringsOnly(events: seq<Event>, u: set<Bytes>) {
    forall e :: e in events ==>
      (e.Response? ==> IdSet(e.closer) <= u) && (e.Seeded? ==> IdSet(e.seeds) <= u)
  }

  lemma {:induction false} HeardOnly(cfg: Config, t: Trace, events: seq<Event>, u: set<Bytes>)
    requires t.heard <= u && BringsOnly(events, u)
    ensures Run(cfg, t, events).heard <= u
    decreases |events|
  {
    if events == [] {
    } else {
      assert events[0] in events;
      HeardOnly(cfg, Step(cfg, t, events[0]), events[1..], u);
    }
  }

  /**
   A lookup among the nodes `u` ends: unless it is done it waits for a request, and only so many
   requests are ever made. After that many answers it is done.
   */
  lemma RunEnds(cfg: Config, seeds: seq<Contact>, events: seq<Event>, u: set<Bytes>)
    requires ConfigOk(cfg) && Legal(cfg, Started(cfg, seeds), events)
    requires IdSet(seeds) <= u && BringsOnly(events, u)
    ensures var t := Run(cfg, Started(cfg, seeds), events); var most := |u| + Min(|u|, cfg.maxSearches);
            && Answers(events) <= most
            && (t.walk.done || Answers(events) < |t.log.finds| + |t.log.searches| <= most)
            && (Answers(events) == most ==> t.walk.done)
  {
    var t := Run(cfg, Started(cfg, seeds), events);
    EveryRun(cfg, seeds, events);
    AnswersCounted(cfg, Started(cfg, seeds), events);
    LogBounded(cfg, t);
    HeardOnly(cfg, Started(cfg, seeds), events, u);
    SubsetSize(t.heard, u);
  }

  lemma {:induction false} SubsetSize<T>(a: set<T>, b: set<T>)
    requires a <= b
    ensures |a| <= |b|
  {
    if a == {} {
    } else {
      var x := Witness(a);
      SubsetSize(a - {x}, b - {x});
    }
  }

  /** Once done, a lookup stays done and asks nobody, whatever still arrives. */
  lemma {:induction false} DoneIsFinal(cfg: Config, t: Trace, events: seq<Event>)
    requires t.walk.done
    ensures var r := Run(cfg, t, events);
            r.walk.done && r.log.finds == t.log.finds && r.log.searches == t.log.searches
    decreases |events|
  {
    if events == [] {
    } else {
      DoneIsFinal(cfg, Step(cfg, t, events[0]), events[1..]);
    }
  }

  // ---------------------------------------------------------------------------
  // Reports about requests of another lookup
  // ---------------------------------------------------------------------------

  /**
   The end of a search this lookup did not issue is counted as the end of one it did, and a failed one
   gives up the node even while its own answer is awaited. Both counters are right afterwards exactly
   when no search was outstanding and no open request was given up.
   */
  lemma StraySearchEnd(cfg: Config, w: Walk, log: Log, c: Contact, failed: bool)
    requires Sound(cfg, w, log)
    ensures var r := FinishSearch(w, c, failed); var i := Find(w.observers, c);
            && (r.searchInFlight == |log.openSearches| <==> w.searchInFlight == 0)
            && (r.inFlight == |IdsOf(r.observers, Open)| <==> !(failed && i.Some? && Open(w.observers[i.value])))
  {
    var i := Find(w.observers, c);
    if i.Some? && failed {
      var o := w.observers[i.value].(failed := true);
      if Open(w.observers[i.value]) {
        UnmarkRemoves(w.observers, cfg.target, i.value, o, Open);
      } else {
        UpdateSameMarks(w.observers, i.value, o, Open);
        SameMarksIds(w.observers, w.observers[i.value := o], Open);
      }
    }
  }
}
