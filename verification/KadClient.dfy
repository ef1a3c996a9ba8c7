/**
 A lookup behind the transaction table: what it is told are the ends of transactions. While none of an earlier
 lookup of the same target is left over, every report is the end of a request of its own.
 */
module KadClient {

  import opened Base
  import opened ByteStrings
  import opened KadId
  import opened KadLookup
  import opened KadObservers
  import opened KadRuns
  import opened KadCounters
  import opened KadTransactions

  const FIND_ANSWER: byte := 0x29
  const SEARCH_ANSWER: byte := 0x3b
  const PUBLISH_ANSWER: byte := 0x4b

  /** The lookup, what it was told so far, and the transactions of the whole client. */
  datatype Client = Client(trace: Trace, told: seq<Event>, pending: seq<Transaction>)

  /** `ends` is the answer a search of this lookup expects. */
  function Request(a: Action, target: Id, ends: byte, now: int64): Transaction {
    Transaction(a.contact.host, a.contact.udpPort, a.contact, if a.FindNode? then FIND_ANSWER else ends, target, now)
  }

  function Requests(actions: seq<Action>, target: Id, ends: byte, now: int64): seq<Transaction> {
    if actions == [] then [] else [Request(actions[0], target, ends, now)] + Requests(actions[1..], target, ends, now)
  }

  // ---------------------------------------------------------------------------
  // The client as a step machine
  // ---------------------------------------------------------------------------

  /** The requests an event makes the lookup issue. */
  ghost function Issued(cfg: Config, t: Trace, e: Event): seq<Action> {
    match e
    case Response(c, closer) => OnResponse(cfg, t.walk, c, closer).1
    case Failure(c) => OnFailure(cfg, t.walk, c).1
    case Stall => Stalled(cfg, t.walk).1
    case Seeded(seeds) => Start(cfg, t.walk, seeds).1
    case SearchDone(c, failed) => []
  }

  ghost function Tell(cfg: Config, ends: byte, s: Client, e: Event, now: int64): Client {
    Client(Step(cfg, s.trace, e), s.told + [e], s.pending + Requests(Issued(cfg, s.trace, e), cfg.target, ends, now))
  }

  /**
   Packets about the target of the lookup, time passing, a lookup without answers for a while, and whatever else the
   client does with transactions of other targets.
   */
  datatype Input =
    | Answer(host: Bytes, port: uint16, key: uint32, closer: seq<Contact>)
    | End(host: Bytes, port: uint16, published: bool)
    | Timeout(timeout: int64)
    | Quiet
    | Elsewhere(pending: seq<Transaction>)

  datatype Moment = Moment(now: int64, input: Input)

  /** The transactions of this target. */
  ghost function Own(ts: seq<Transaction>, target: Id): seq<Transaction> {
    if ts == [] then [] else (if ts[0].target == target then [ts[0]] else []) + Own(ts[1..], target)
  }

  ghost function EndOf(t: Transaction): Event {
    if t.opcode == FIND_ANSWER then Failure(t.contact) else SearchDone(t.contact, true)
  }

  /** The loop over the expired transactions. */
  ghost function TellExpired(cfg: Config, ends: byte, s: Client, expired: seq<Transaction>, now: int64): Client
    decreases |expired|
  {
    if expired == [] then s
    else if expired[0].target != cfg.target then TellExpired(cfg, ends, s, expired[1..], now)
    else TellExpired(cfg, ends, Tell(cfg, ends, s, EndOf(expired[0]), now), expired[1..], now)
  }

  ghost function Handle(cfg: Config, ends: byte, s: Client, m: Moment): Client {
    match m.input
    case Answer(host, port, key, closer) => (
      match FirstFit(s.pending, host, port, FIND_ANSWER, cfg.target)
      case None => s
      case Some(i) =>
        var c := s.pending[i].contact;
        Tell(cfg, ends, s.(pending := Removed(s.pending, i)),
             Response(if key == 0 then c else c.(udpKey := key), closer), m.now))
    case End(host, port, published) => (
      match FirstFit(s.pending, host, port, if published then PUBLISH_ANSWER else SEARCH_ANSWER, cfg.target)
      case None => s
      case Some(i) =>
        Tell(cfg, ends, s.(pending := Removed(s.pending, i)), SearchDone(s.pending[i].contact, false), m.now))
    case Timeout(timeout) =>
      TellExpired(cfg, ends, s.(pending := Sifted(s.pending, m.now, timeout, false)),
                  Sifted(s.pending, m.now, timeout, true), m.now)
    case Quiet => Tell(cfg, ends, s, Stall, m.now)
    case Elsewhere(pending) =>
      if Own(pending, cfg.target) == Own(s.pending, cfg.target) then s.(pending := pending) else s
  }

  ghost function HandleAll(cfg: Config, ends: byte, s: Client, moments: seq<Moment>): Client
    decreases |moments|
  {
    if moments == [] then s else HandleAll(cfg, ends, Handle(cfg, ends, s, moments[0]), moments[1..])
  }

  ghost function Launched(cfg: Config, ends: byte, pending: seq<Transaction>, seeds: seq<Contact>, now: int64): Client {
    Client(Started(cfg, seeds), [], pending + Requests(Start(cfg, FRESH, seeds).1, cfg.target, ends, now))
  }

  // ---------------------------------------------------------------------------
  // Transactions and the log
  // ---------------------------------------------------------------------------

  /** The nodes asked about the target, or those searched, with repetitions. */
  ghost function Ids(ts: seq<Transaction>, target: Id, finds: bool): multiset<Bytes> {
    if ts == [] then multiset{}
    else
      var mine := ts[0].target == target && (ts[0].opcode == FIND_ANSWER) == finds;
      Ids(ts[1..], target, finds) + if mine then multiset{ts[0].contact.id} else multiset{}
  }

  lemma {:induction false} IdsConcat(a: seq<Transaction>, b: seq<Transaction>, target: Id, finds: bool)
    ensures Ids(a + b, target, finds) == Ids(a, target, finds) + Ids(b, target, finds)
  {
    if a == [] {
      assert a + b == b;
    } else {
      assert (a + b)[1..] == a[1..] + b;
      IdsConcat(a[1..], b, target, finds);
    }
  }

  lemma IdsRemoved(ts: seq<Transaction>, i: nat, target: Id, finds: bool)
    requires i < |ts|
    ensures Ids(ts, target, finds) == Ids(Removed(ts, i), target, finds) + Ids([ts[i]], target, finds)
  {
    var a, b := ts[..i], ts[i + 1..];
    assert ts == a + [ts[i]] + b;
    IdsConcat(a + [ts[i]], b, target, finds);
    IdsConcat(a, [ts[i]], target, finds);
    IdsConcat(a, b, target, finds);
  }

  /** The ids of a transaction alone, where it is wanted. */
  ghost function IdsIf(t: Transaction, wanted: bool, target: Id, finds: bool): multiset<Bytes> {
    if wanted then Ids([t], target, finds) else multiset{}
  }

  lemma SiftedStep(init: seq<Transaction>, last: Transaction, now: int64, timeout: int64, due: bool, target: Id,
                   finds: bool)
    ensures Ids(Sifted(init + [last], now, timeout, due), target, finds)
         == Ids(Sifted(init, now, timeout, due), target, finds)
            + IdsIf(last, Due(last, now, timeout) == due, target, finds)
  {
    assert (init + [last])[..|init|] == init;
    if Due(last, now, timeout) == due {
      IdsConcat(Sifted(init, now, timeout, due), [last], target, finds);
    } else {
      assert Sifted(init + [last], now, timeout, due) == Sifted(init, now, timeout, due);
    }
  }

  lemma {:induction false} IdsSifted(ts: seq<Transaction>, now: int64, timeout: int64, target: Id, finds: bool)
    ensures Ids(ts, target, finds)
         == Ids(Sifted(ts, now, timeout, false), target, finds) + Ids(Sifted(ts, now, timeout, true), target, finds)
  {
    if ts == [] {
    } else {
      var init, last := ts[..|ts| - 1], ts[|ts| - 1];
      assert ts == init + [last];
      IdsSifted(init, now, timeout, target, finds);
      SiftedStep(init, last, now, timeout, true, target, finds);
      SiftedStep(init, last, now, timeout, false, target, finds);
      IdsConcat(init, [last], target, finds);
    }
  }

  lemma {:induction false} IdsOwn(ts: seq<Transaction>, target: Id, finds: bool)
    ensures Ids(Own(ts, target), target, finds) == Ids(ts, target, finds)
  {
    if ts == [] {
    } else {
      IdsOwn(ts[1..], target, finds);
      IdsConcat(if ts[0].target == target then [ts[0]] else [], Own(ts[1..], target), target, finds);
    }
  }

  lemma {:induction false} OwnHas(ts: seq<Transaction>, target: Id, t: Transaction)
    ensures t in Own(ts, target) <==> t in ts && t.target == target
  {
    if ts == [] {
    } else {
      OwnHas(ts[1..], target, t);
    }
  }

  lemma {:induction false} IdsWitness(ts: seq<Transaction>, target: Id, finds: bool)
    requires Ids(ts, target, finds) != multiset{}
    ensures exists k :: 0 <= k < |ts| && ts[k].target == target
  {
    if ts[0].target == target {
    } else {
      IdsWitness(ts[1..], target, finds);
      var k :| 0 <= k < |ts[1..]| && ts[1..][k].target == target;
      assert ts[k + 1].target == target;
    }
  }

  /** A transaction of the target has its request in the log. */
  ghost predicate Logged(log: Log, t: Transaction) {
    Names(if t.opcode == FIND_ANSWER then log.finds else log.searches, t.contact)
  }

  /** The transactions of the target, in the table or taken out to be told, are the open requests, each once. */
  ghost predicate Linked(target: Id, log: Log, pending: seq<Transaction>, backlog: seq<Transaction>) {
    && Ids(pending, target, true) + Ids(backlog, target, true) == multiset(log.openFinds)
    && Ids(pending, target, false) + Ids(backlog, target, false) == multiset(log.openSearches)
    && (forall t :: t in pending && t.target == target ==> Logged(log, t))
    && (forall t :: t in backlog && t.target == target ==> Logged(log, t))
  }

  // ---------------------------------------------------------------------------
  // Issuing requests
  // ---------------------------------------------------------------------------

  function Count(actions: seq<Action>, finds: bool): nat {
    if actions == [] then 0 else (if actions[0].FindNode? == finds then 1 else 0) + Count(actions[1..], finds)
  }

  ghost function OpenOf(log: Log, finds: bool): set<Bytes> {
    if finds then log.openFinds else log.openSearches
  }

  ghost function MadeOf(log: Log, finds: bool): seq<Contact> {
    if finds then log.finds else log.searches
  }

  function Logs(log: Log, a: Action): Log {
    match a
    case FindNode(c) => LogFind(log, c)
    case Search(c) => LogSearch(log, c)
  }

  lemma {:induction false} RecordCounts(log: Log, actions: seq<Action>, finds: bool)
    ensures var r := Record(log, actions);
            && |MadeOf(r, finds)| == |MadeOf(log, finds)| + Count(actions, finds)
            && |OpenOf(r, finds)| <= |OpenOf(log, finds)| + Count(actions, finds)
    decreases |actions|
  {
    if actions == [] {
    } else {
      assert Record(log, actions) == Record(Logs(log, actions[0]), actions[1..]);
      RecordCounts(Logs(log, actions[0]), actions[1..], finds);
    }
  }

  /** As many more open requests as were made: each is a new transaction. */
  lemma {:induction false} RecordIds(log: Log, actions: seq<Action>, target: Id, ends: byte, now: int64, finds: bool)
    requires ends != FIND_ANSWER
    requires |OpenOf(Record(log, actions), finds)| == |OpenOf(log, finds)| + Count(actions, finds)
    ensures multiset(OpenOf(Record(log, actions), finds))
         == multiset(OpenOf(log, finds)) + Ids(Requests(actions, target, ends, now), target, finds)
    decreases |actions|
  {
    if actions == [] {
    } else {
      var log1 := Logs(log, actions[0]);
      assert Record(log, actions) == Record(log1, actions[1..]);
      RecordCounts(log1, actions[1..], finds);
      RecordIds(log1, actions[1..], target, ends, now, finds);
      RequestIds(log, actions, target, ends, now, finds);
    }
  }

  lemma RequestIds(log: Log, actions: seq<Action>, target: Id, ends: byte, now: int64, finds: bool)
    requires ends != FIND_ANSWER && actions != []
    requires var more := if actions[0].FindNode? == finds then 1 else 0;
             |OpenOf(Logs(log, actions[0]), finds)| == |OpenOf(log, finds)| + more
    ensures multiset(OpenOf(Logs(log, actions[0]), finds))
            + Ids(Requests(actions[1..], target, ends, now), target, finds)
         == multiset(OpenOf(log, finds)) + Ids(Requests(actions, target, ends, now), target, finds)
  {
    var id := actions[0].contact.id;
    var rs := Requests(actions, target, ends, now);
    assert rs[1..] == Requests(actions[1..], target, ends, now);
    if actions[0].FindNode? == finds {
      assert OpenOf(Logs(log, actions[0]), finds) == OpenOf(log, finds) + {id};
      assert id !in OpenOf(log, finds);
    }
  }

  lemma {:induction false} RecordLogs(log: Log, actions: seq<Action>, target: Id, ends: byte, now: int64,
                                      t: Transaction)
    requires ends != FIND_ANSWER && (Logged(log, t) || t in Requests(actions, target, ends, now))
    ensures Logged(Record(log, actions), t)
    decreases |actions|
  {
    if actions == [] {
    } else {
      var log1 := Logs(log, actions[0]);
      assert Record(log, actions) == Record(log1, actions[1..]);
      LogsKeep(log, actions[0], t);
      if t == Request(actions[0], target, ends, now) {
        LogsNew(log, actions[0], t);
      }
      RecordLogs(log1, actions[1..], target, ends, now, t);
    }
  }

  lemma LogsKeep(log: Log, a: Action, t: Transaction)
    ensures Logged(log, t) ==> Logged(Logs(log, a), t)
  {
    if Logged(log, t) {
      var was := MadeOf(log, t.opcode == FIND_ANSWER);
      var made := MadeOf(Logs(log, a), t.opcode == FIND_ANSWER);
      var k :| 0 <= k < |was| && SameNode(t.contact, was[k]);
      assert made[k] == was[k];
    }
  }

  lemma LogsNew(log: Log, a: Action, t: Transaction)
    requires t.contact == a.contact && (t.opcode == FIND_ANSWER) == a.FindNode?
    ensures Logged(Logs(log, a), t)
  {
    var made := MadeOf(Logs(log, a), a.FindNode?);
    assert made[|made| - 1] == a.contact;
  }

  lemma RecordLinked(target: Id, ends: byte, log: Log, actions: seq<Action>, now: int64,
                     pending: seq<Transaction>, backlog: seq<Transaction>)
    requires ends != FIND_ANSWER && Linked(target, log, pending, backlog)
    requires var r := Record(log, actions);
             && |r.openFinds| == |log.openFinds| + Count(actions, true)
             && |r.openSearches| == |log.openSearches| + Count(actions, false)
    ensures Linked(target, Record(log, actions), pending + Requests(actions, target, ends, now), backlog)
  {
    var more := Requests(actions, target, ends, now);
    forall finds: bool | true
      ensures Ids(pending + more, target, finds) + Ids(backlog, target, finds)
           == multiset(OpenOf(Record(log, actions), finds))
    {
      IdsConcat(pending, more, target, finds);
      RecordIds(log, actions, target, ends, now, finds);
      assert multiset(OpenOf(log, finds)) == Ids(pending, target, finds) + Ids(backlog, target, finds);
    }
    assert multiset(OpenOf(Record(log, actions), true)) == multiset(Record(log, actions).openFinds);
    assert multiset(OpenOf(Record(log, actions), false)) == multiset(Record(log, actions).openSearches);
    forall t | (t in pending + more || t in backlog) && t.target == target ensures Logged(Record(log, actions), t) {
      RecordLogs(log, actions, target, ends, now, t);
    }
  }

  // ---------------------------------------------------------------------------
  // Telling the lookup
  // ---------------------------------------------------------------------------

  /** The log once the request that an event ends is closed. */
  ghost function Closed(log: Log, e: Event): Log {
    match e
    case Response(c, _) => log.(openFinds := log.openFinds - {c.id})
    case Failure(c) => log.(openFinds := log.openFinds - {c.id})
    case Stall => log
    case Seeded(_) => log
    case SearchDone(c, _) => log.(openSearches := log.openSearches - {c.id})
  }

  lemma StepLog(cfg: Config, t: Trace, e: Event)
    ensures Step(cfg, t, e).log == Record(Closed(t.log, e), Issued(cfg, t, e))
  {
  }

  /** In an expected step the open requests grow by what is issued. */
  lemma StepOpens(cfg: Config, t: Trace, e: Event)
    requires ConfigOk(cfg) && TraceOk(cfg, t) && Allowed(t, e)
    ensures TraceOk(cfg, Step(cfg, t, e))
    ensures var closed, r := Closed(t.log, e), Step(cfg, t, e).log;
            && |r.openFinds| == |closed.openFinds| + Count(Issued(cfg, t, e), true)
            && |r.openSearches| == |closed.openSearches| + Count(Issued(cfg, t, e), false)
  {
    StepSound(cfg, t, e);
    StepBalanced(cfg, t, e);
    StepLog(cfg, t, e);
    RecordCounts(Closed(t.log, e), Issued(cfg, t, e), true);
    RecordCounts(Closed(t.log, e), Issued(cfg, t, e), false);
  }

  lemma {:induction false} RunAppend(cfg: Config, t: Trace, events: seq<Event>, e: Event)
    ensures Run(cfg, t, events + [e]) == Step(cfg, Run(cfg, t, events), e)
    ensures Legal(cfg, t, events + [e]) <==> Legal(cfg, t, events) && Allowed(Run(cfg, t, events), e)
    decreases |events|
  {
    if events == [] {
      assert (events + [e])[1..] == [];
    } else {
      assert (events + [e])[1..] == events[1..] + [e];
      RunAppend(cfg, Step(cfg, t, events[0]), events[1..], e);
    }
  }

  /** Everything told so far was legal, and the transactions of the target are the open requests; or it is done. */
  ghost predicate Good(cfg: Config, seeds: seq<Contact>, s: Client, backlog: seq<Transaction>) {
    && s.trace == Run(cfg, Started(cfg, seeds), s.told)
    && (s.trace.walk.done
        || (Legal(cfg, Started(cfg, seeds), s.told) && Linked(cfg.target, s.trace.log, s.pending, backlog)))
  }

  lemma TellGood(cfg: Config, ends: byte, seeds: seq<Contact>, s: Client, backlog: seq<Transaction>, e: Event,
                 now: int64)
    requires ConfigOk(cfg) && ends != FIND_ANSWER && s.trace == Run(cfg, Started(cfg, seeds), s.told)
    requires !s.trace.walk.done ==>
               && Legal(cfg, Started(cfg, seeds), s.told) && Allowed(s.trace, e)
               && Linked(cfg.target, Closed(s.trace.log, e), s.pending, backlog)
    ensures Good(cfg, seeds, Tell(cfg, ends, s, e, now), backlog)
  {
    RunAppend(cfg, Started(cfg, seeds), s.told, e);
    if s.trace.walk.done {
      DoneStays(cfg, s.trace, e);
    } else {
      EveryRun(cfg, seeds, s.told);
      StepOpens(cfg, s.trace, e);
      StepLog(cfg, s.trace, e);
      RecordLinked(cfg.target, ends, Closed(s.trace.log, e), Issued(cfg, s.trace, e), now, s.pending, backlog);
    }
  }

  lemma DoneStays(cfg: Config, t: Trace, e: Event)
    requires t.walk.done
    ensures Step(cfg, t, e).walk.done
  {
    DoneIsFinal(cfg, t, [e]);
    assert Run(cfg, t, [e]) == Run(cfg, Step(cfg, t, e), []);
  }

  /** One transaction fewer, and the request it stands for is closed. */
  lemma CloseOne(rest: multiset<Bytes>, open: set<Bytes>, id: Bytes)
    requires rest + multiset{id} == multiset(open)
    ensures id in open && rest == multiset(open - {id})
  {
    assert id in multiset(open);
    assert open == (open - {id}) + {id};
    var left := multiset(open - {id});
    assert multiset(open) == left + multiset{id};
    forall x ensures rest[x] == left[x] {
      assert (rest + multiset{id})[x] == (left + multiset{id})[x];
    }
  }

  ghost predicate Ends(e: Event, t: Transaction) {
    if t.opcode == FIND_ANSWER then (e.Response? || e.Failure?) && SameNode(e.contact, t.contact)
    else e.SearchDone? && SameNode(e.contact, t.contact)
  }

  /** A transaction is taken out, of the table or of the backlog, and nothing else is. */
  ghost predicate Taken(target: Id, t: Transaction, pending: seq<Transaction>, backlog: seq<Transaction>,
                        pending': seq<Transaction>, backlog': seq<Transaction>)
  {
    && (forall finds: bool {:trigger Ids(pending', target, finds)} ::
          Ids(pending, target, finds) + Ids(backlog, target, finds)
          == Ids(pending', target, finds) + Ids(backlog', target, finds) + Ids([t], target, finds))
    && (forall x :: x in pending' ==> x in pending) && (forall x :: x in backlog' ==> x in backlog)
    && (t in pending || t in backlog)
  }

  lemma IdsOne(t: Transaction, target: Id, finds: bool)
    requires t.target == target
    ensures Ids([t], target, finds) == if (t.opcode == FIND_ANSWER) == finds then multiset{t.contact.id} else multiset{}
  {
    assert [t][1..] == [];
  }

  lemma TakenIds(log: Log, t: Transaction, e: Event, finds: multiset<Bytes>, searches: multiset<Bytes>)
    requires Ends(e, t)
    requires finds + (if t.opcode == FIND_ANSWER then multiset{t.contact.id} else multiset{}) == multiset(log.openFinds)
    requires searches + (if t.opcode == FIND_ANSWER then multiset{} else multiset{t.contact.id})
          == multiset(log.openSearches)
    ensures t.contact.id in OpenOf(log, t.opcode == FIND_ANSWER)
    ensures finds == multiset(Closed(log, e).openFinds) && searches == multiset(Closed(log, e).openSearches)
  {
    if t.opcode == FIND_ANSWER {
      CloseOne(finds, log.openFinds, t.contact.id);
    } else {
      CloseOne(searches, log.openSearches, t.contact.id);
    }
  }

  lemma ClosedLogs(log: Log, e: Event, t: Transaction)
    ensures Logged(Closed(log, e), t) <==> Logged(log, t)
  {
  }

  lemma TakenLinked(target: Id, log: Log, t: Transaction, e: Event,
                    pending: seq<Transaction>, backlog: seq<Transaction>,
                    pending': seq<Transaction>, backlog': seq<Transaction>)
    requires Linked(target, log, pending, backlog) && Taken(target, t, pending, backlog, pending', backlog')
    requires t.target == target && Ends(e, t)
    ensures t.contact.id in OpenOf(log, t.opcode == FIND_ANSWER)
    ensures Linked(target, Closed(log, e), pending', backlog')
  {
    IdsOne(t, target, true);
    IdsOne(t, target, false);
    TakenIds(log, t, e, Ids(pending', target, true) + Ids(backlog', target, true),
             Ids(pending', target, false) + Ids(backlog', target, false));
    forall x | (x in pending' || x in backlog') && x.target == target ensures Logged(Closed(log, e), x) {
      ClosedLogs(log, e, x);
    }
  }

  /** Hence the end of a transaction of the target is a legal report. */
  lemma TakenAllowed(target: Id, t: Trace, tr: Transaction, e: Event, pending: seq<Transaction>,
                     backlog: seq<Transaction>, pending': seq<Transaction>, backlog': seq<Transaction>)
    requires Linked(target, t.log, pending, backlog) && Taken(target, tr, pending, backlog, pending', backlog')
    requires tr.target == target && Ends(e, tr) && !t.walk.done
    ensures Allowed(t, e) && Linked(target, Closed(t.log, e), pending', backlog')
  {
    TakenLinked(target, t.log, tr, e, pending, backlog, pending', backlog');
    assert Logged(t.log, tr);
    var made := MadeOf(t.log, tr.opcode == FIND_ANSWER);
    var k :| 0 <= k < |made| && SameNode(tr.contact, made[k]);
    assert SameNode(e.contact, made[k]);
  }

  // ---------------------------------------------------------------------------
  // What the client does
  // ---------------------------------------------------------------------------

  lemma RemovedTaken(target: Id, pending: seq<Transaction>, i: nat)
    requires i < |pending|
    ensures Taken(target, pending[i], pending, [], Removed(pending, i), [])
  {
    forall finds: bool | true
      ensures Ids(pending, target, finds) + Ids([], target, finds)
           == Ids(Removed(pending, i), target, finds) + Ids([], target, finds) + Ids([pending[i]], target, finds)
    {
      IdsRemoved(pending, i, target, finds);
    }
  }

  lemma FirstTaken(target: Id, pending: seq<Transaction>, backlog: seq<Transaction>)
    requires backlog != []
    ensures Taken(target, backlog[0], pending, backlog, pending, backlog[1..])
  {
    forall finds: bool | true
      ensures Ids(pending, target, finds) + Ids(backlog, target, finds)
           == Ids(pending, target, finds) + Ids(backlog[1..], target, finds) + Ids([backlog[0]], target, finds)
    {
      IdsConcat([backlog[0]], backlog[1..], target, finds);
      assert backlog == [backlog[0]] + backlog[1..];
    }
  }

  /** An answer or the end of a search that fits a transaction. */
  lemma CompleteGood(cfg: Config, ends: byte, seeds: seq<Contact>, s: Client, i: nat, e: Event, now: int64)
    requires ConfigOk(cfg) && ends != FIND_ANSWER && Good(cfg, seeds, s, [])
    requires i < |s.pending| && s.pending[i].target == cfg.target && Ends(e, s.pending[i])
    ensures Good(cfg, seeds, Tell(cfg, ends, s.(pending := Removed(s.pending, i)), e, now), [])
  {
    var s' := s.(pending := Removed(s.pending, i));
    if !s.trace.walk.done {
      RemovedTaken(cfg.target, s.pending, i);
      TakenAllowed(cfg.target, s.trace, s.pending[i], e, s.pending, [], s'.pending, []);
    }
    TellGood(cfg, ends, seeds, s', [], e, now);
  }

  lemma ForeignLinked(target: Id, log: Log, pending: seq<Transaction>, backlog: seq<Transaction>)
    requires backlog != [] && backlog[0].target != target && Linked(target, log, pending, backlog)
    ensures Linked(target, log, pending, backlog[1..])
  {
  }

  lemma {:induction false} ExpiredGood(cfg: Config, ends: byte, seeds: seq<Contact>, s: Client,
                                       expired: seq<Transaction>, now: int64)
    requires ConfigOk(cfg) && ends != FIND_ANSWER && Good(cfg, seeds, s, expired)
    ensures Good(cfg, seeds, TellExpired(cfg, ends, s, expired, now), [])
    decreases |expired|
  {
    if expired == [] {
    } else if expired[0].target != cfg.target {
      if !s.trace.walk.done {
        ForeignLinked(cfg.target, s.trace.log, s.pending, expired);
      }
      ExpiredGood(cfg, ends, seeds, s, expired[1..], now);
    } else {
      var e := EndOf(expired[0]);
      if !s.trace.walk.done {
        FirstTaken(cfg.target, s.pending, expired);
        TakenAllowed(cfg.target, s.trace, expired[0], e, s.pending, expired, s.pending, expired[1..]);
      }
      TellGood(cfg, ends, seeds, s, expired[1..], e, now);
      ExpiredGood(cfg, ends, seeds, Tell(cfg, ends, s, e, now), expired[1..], now);
    }
  }

  lemma SiftedLinked(target: Id, log: Log, pending: seq<Transaction>, now: int64, timeout: int64)
    requires Linked(target, log, pending, [])
    ensures Linked(target, log, Sifted(pending, now, timeout, false), Sifted(pending, now, timeout, true))
  {
    IdsSifted(pending, now, timeout, target, true);
    IdsSifted(pending, now, timeout, target, false);
    forall t, due | t in Sifted(pending, now, timeout, due) && t.target == target ensures Logged(log, t) {
      SiftedEach(pending, now, timeout, due, t);
    }
  }

  lemma ElsewhereLinked(target: Id, log: Log, pending: seq<Transaction>, pending': seq<Transaction>)
    requires Linked(target, log, pending, []) && Own(pending', target) == Own(pending, target)
    ensures Linked(target, log, pending', [])
  {
    forall finds: bool | true ensures Ids(pending', target, finds) == Ids(pending, target, finds) {
      IdsOwn(pending, target, finds);
      IdsOwn(pending', target, finds);
    }
    forall t | t in pending' && t.target == target ensures Logged(log, t) {
      OwnHas(pending, target, t);
      OwnHas(pending', target, t);
    }
  }

  lemma HandleGood(cfg: Config, ends: byte, seeds: seq<Contact>, s: Client, m: Moment)
    requires ConfigOk(cfg) && ends != FIND_ANSWER && Good(cfg, seeds, s, [])
    ensures Good(cfg, seeds, Handle(cfg, ends, s, m), [])
  {
    match m.input
    case Answer(host, port, key, closer) =>
      var i := FirstFit(s.pending, host, port, FIND_ANSWER, cfg.target);
      if i.Some? {
        var c := s.pending[i.value].contact;
        CompleteGood(cfg, ends, seeds, s, i.value, Response(if key == 0 then c else c.(udpKey := key), closer), m.now);
      }
    case End(host, port, published) =>
      var i := FirstFit(s.pending, host, port, if published then PUBLISH_ANSWER else SEARCH_ANSWER, cfg.target);
      if i.Some? {
        CompleteGood(cfg, ends, seeds, s, i.value, SearchDone(s.pending[i.value].contact, false), m.now);
      }
    case Timeout(timeout) =>
      if !s.trace.walk.done {
        SiftedLinked(cfg.target, s.trace.log, s.pending, m.now, timeout);
      }
      ExpiredGood(cfg, ends, seeds, s.(pending := Sifted(s.pending, m.now, timeout, false)),
                  Sifted(s.pending, m.now, timeout, true), m.now);
    case Quiet => TellGood(cfg, ends, seeds, s, [], Stall, m.now);
    case Elsewhere(pending) =>
      if !s.trace.walk.done && Own(pending, cfg.target) == Own(s.pending, cfg.target) {
        ElsewhereLinked(cfg.target, s.trace.log, s.pending, pending);
      }
  }

  lemma {:induction false} HandleAllGood(cfg: Config, ends: byte, seeds: seq<Contact>, s: Client, moments: seq<Moment>)
    requires ConfigOk(cfg) && ends != FIND_ANSWER && Good(cfg, seeds, s, [])
    ensures Good(cfg, seeds, HandleAll(cfg, ends, s, moments), [])
    decreases |moments|
  {
    if moments == [] {
    } else {
      HandleGood(cfg, ends, seeds, s, moments[0]);
      HandleAllGood(cfg, ends, seeds, Handle(cfg, ends, s, moments[0]), moments[1..]);
    }
  }

  /** No transaction of the target is left over from another lookup. */
  ghost predicate NoneOf(pending: seq<Transaction>, target: Id) {
    forall t :: t in pending ==> t.target != target
  }

  lemma {:induction false} NoneOfIds(pending: seq<Transaction>, target: Id, finds: bool)
    requires NoneOf(pending, target)
    ensures Ids(pending, target, finds) == multiset{}
  {
    if pending == [] {
    } else {
      assert pending[0] in pending;
      NoneOfIds(pending[1..], target, finds);
    }
  }

  lemma LaunchedGood(cfg: Config, ends: byte, pending: seq<Transaction>, seeds: seq<Contact>, now: int64)
    requires ConfigOk(cfg) && ends != FIND_ANSWER && NoneOf(pending, cfg.target)
    ensures Good(cfg, seeds, Launched(cfg, ends, pending, seeds, now), [])
  {
    var actions := Start(cfg, FRESH, seeds).1;
    EveryRun(cfg, seeds, []);
    NoneOfIds(pending, cfg.target, true);
    NoneOfIds(pending, cfg.target, false);
    RecordCounts(NO_LOG, actions, true);
    RecordCounts(NO_LOG, actions, false);
    RecordLinked(cfg.target, ends, NO_LOG, actions, now, pending, []);
  }

  /**
   A lookup of a target without transactions left over is told legal events only until it is done, whatever packets
   come, whatever expires and whatever else the client does; and until then a transaction of its own is in the table.
   */
  lemma TableMakesLegal(cfg: Config, ends: byte, pending: seq<Transaction>, seeds: seq<Contact>, now: int64,
                        moments: seq<Moment>)
    requires ConfigOk(cfg) && ends != FIND_ANSWER && NoneOf(pending, cfg.target)
    ensures var s := HandleAll(cfg, ends, Launched(cfg, ends, pending, seeds, now), moments);
            && s.trace == Run(cfg, Started(cfg, seeds), s.told)
            && (s.trace.walk.done || Legal(cfg, Started(cfg, seeds), s.told))
            && (s.trace.walk.done || exists k :: 0 <= k < |s.pending| && s.pending[k].target == cfg.target)
  {
    LaunchedGood(cfg, ends, pending, seeds, now);
    HandleAllGood(cfg, ends, seeds, Launched(cfg, ends, pending, seeds, now), moments);
    var s := HandleAll(cfg, ends, Launched(cfg, ends, pending, seeds, now), moments);
    if !s.trace.walk.done {
      EveryRun(cfg, seeds, s.told);
      OpenPending(cfg, s);
    }
  }

  lemma OpenPending(cfg: Config, s: Client)
    requires TraceOk(cfg, s.trace) && !s.trace.walk.done && Linked(cfg.target, s.trace.log, s.pending, [])
    ensures exists k :: 0 <= k < |s.pending| && s.pending[k].target == cfg.target
  {
    var finds := s.trace.walk.inFlight > 0;
    var id := Witness(OpenOf(s.trace.log, finds));
    assert id in multiset(OpenOf(s.trace.log, finds)) && Ids([], cfg.target, finds) == multiset{};
    assert id in Ids(s.pending, cfg.target, finds);
    IdsWitness(s.pending, cfg.target, finds);
  }

  // ---------------------------------------------------------------------------
  // Time alone finishes a lookup
  // ---------------------------------------------------------------------------

  lemma {:induction false} AnswersAppend(events: seq<Event>, e: Event)
    ensures Answers(events + [e]) == Answers(events) + if e.Stall? || e.Seeded? then 0 else 1
  {
    if events == [] {
      assert (events + [e])[1..] == [];
    } else {
      assert (events + [e])[1..] == events[1..] + [e];
      AnswersAppend(events[1..], e);
    }
  }

  /** Every expired transaction of the target is one more answer. */
  lemma {:induction false} ExpiredAnswers(cfg: Config, ends: byte, s: Client, expired: seq<Transaction>, now: int64)
    ensures Answers(TellExpired(cfg, ends, s, expired, now).told) == Answers(s.told) + |Own(expired, cfg.target)|
    decreases |expired|
  {
    if expired == [] {
    } else if expired[0].target != cfg.target {
      ExpiredAnswers(cfg, ends, s, expired[1..], now);
    } else {
      var e := EndOf(expired[0]);
      AnswersAppend(s.told, e);
      ExpiredAnswers(cfg, ends, Tell(cfg, ends, s, e, now), expired[1..], now);
    }
  }

  /** A running lookup whose transactions are all due, at the moment they expire. */
  ghost predicate Overdue(cfg: Config, s: Client, m: Moment) {
    && !s.trace.walk.done && m.input.Timeout?
    && forall t :: t in s.pending && t.target == cfg.target ==> Due(t, m.now, m.input.timeout)
  }

  lemma HandleAnswers(cfg: Config, ends: byte, seeds: seq<Contact>, s: Client, m: Moment)
    requires ConfigOk(cfg) && Good(cfg, seeds, s, [])
    ensures Answers(Handle(cfg, ends, s, m).told) >= Answers(s.told) + if Overdue(cfg, s, m) then 1 else 0
  {
    match m.input
    case Answer(host, port, key, closer) =>
      var i := FirstFit(s.pending, host, port, FIND_ANSWER, cfg.target);
      if i.Some? {
        var c := s.pending[i.value].contact;
        AnswersAppend(s.told, Response(if key == 0 then c else c.(udpKey := key), closer));
      }
    case End(host, port, published) =>
      var i := FirstFit(s.pending, host, port, if published then PUBLISH_ANSWER else SEARCH_ANSWER, cfg.target);
      if i.Some? {
        AnswersAppend(s.told, SearchDone(s.pending[i.value].contact, false));
      }
    case Timeout(timeout) =>
      ExpiredAnswers(cfg, ends, s.(pending := Sifted(s.pending, m.now, timeout, false)),
                     Sifted(s.pending, m.now, timeout, true), m.now);
      if Overdue(cfg, s, m) {
        OverdueTells(cfg, seeds, s, m);
      }
    case Quiet => AnswersAppend(s.told, Stall);
    case Elsewhere(pending) =>
  }

  lemma OverdueTells(cfg: Config, seeds: seq<Contact>, s: Client, m: Moment)
    requires ConfigOk(cfg) && Good(cfg, seeds, s, []) && Overdue(cfg, s, m)
    ensures |Own(Sifted(s.pending, m.now, m.input.timeout, true), cfg.target)| > 0
  {
    EveryRun(cfg, seeds, s.told);
    OpenPending(cfg, s);
    var k :| 0 <= k < |s.pending| && s.pending[k].target == cfg.target;
    var expired := Sifted(s.pending, m.now, m.input.timeout, true);
    SiftedEach(s.pending, m.now, m.input.timeout, true, s.pending[k]);
    OwnHas(expired, cfg.target, s.pending[k]);
  }

  /** How often everything the lookup waits for expires. */
  ghost function Overdues(cfg: Config, ends: byte, s: Client, moments: seq<Moment>): nat
    decreases |moments|
  {
    if moments == [] then 0
    else
      (if Overdue(cfg, s, moments[0]) then 1 else 0)
      + Overdues(cfg, ends, Handle(cfg, ends, s, moments[0]), moments[1..])
  }

  lemma {:induction false} OverduesCounted(cfg: Config, ends: byte, seeds: seq<Contact>, s: Client,
                                           moments: seq<Moment>)
    requires ConfigOk(cfg) && ends != FIND_ANSWER && Good(cfg, seeds, s, [])
    ensures Answers(HandleAll(cfg, ends, s, moments).told) >= Answers(s.told) + Overdues(cfg, ends, s, moments)
    decreases |moments|
  {
    if moments == [] {
    } else {
      HandleAnswers(cfg, ends, seeds, s, moments[0]);
      HandleGood(cfg, ends, seeds, s, moments[0]);
      OverduesCounted(cfg, ends, seeds, Handle(cfg, ends, s, moments[0]), moments[1..]);
    }
  }

  /** Every contact the packets bring has its id in `u`. */
  ghost predicate PacketsBring(moments: seq<Moment>, u: set<Bytes>) {
    forall m :: m in moments && m.input.Answer? ==> IdSet(m.input.closer) <= u
  }

  lemma {:induction false} ExpiredBrings(cfg: Config, ends: byte, s: Client, expired: seq<Transaction>, now: int64,
                                         u: set<Bytes>)
    requires BringsOnly(s.told, u)
    ensures BringsOnly(TellExpired(cfg, ends, s, expired, now).told, u)
    decreases |expired|
  {
    if expired == [] {
    } else if expired[0].target != cfg.target {
      ExpiredBrings(cfg, ends, s, expired[1..], now, u);
    } else {
      ExpiredBrings(cfg, ends, Tell(cfg, ends, s, EndOf(expired[0]), now), expired[1..], now, u);
    }
  }

  lemma {:induction false} HandleBrings(cfg: Config, ends: byte, s: Client, moments: seq<Moment>, u: set<Bytes>)
    requires BringsOnly(s.told, u) && PacketsBring(moments, u)
    ensures BringsOnly(HandleAll(cfg, ends, s, moments).told, u)
    decreases |moments|
  {
    if moments == [] {
    } else {
      var m := moments[0];
      assert m in moments;
      if m.input.Timeout? {
        ExpiredBrings(cfg, ends, s.(pending := Sifted(s.pending, m.now, m.input.timeout, false)),
                      Sifted(s.pending, m.now, m.input.timeout, true), m.now, u);
      }
      HandleBrings(cfg, ends, Handle(cfg, ends, s, m), moments[1..], u);
    }
  }

  /**
   A lookup among the nodes `u` without transactions left over is done once everything it waits for has expired
   often enough, whatever else happens in between and whether or not anybody answers.
   */
  lemma TimeFinishes(cfg: Config, ends: byte, pending: seq<Transaction>, seeds: seq<Contact>, now: int64,
                     moments: seq<Moment>, u: set<Bytes>)
    requires ConfigOk(cfg) && ends != FIND_ANSWER && NoneOf(pending, cfg.target)
    requires IdSet(seeds) <= u && PacketsBring(moments, u)
    ensures var s := Launched(cfg, ends, pending, seeds, now);
            HandleAll(cfg, ends, s, moments).trace.walk.done
            || Overdues(cfg, ends, s, moments) < |u| + Min(|u|, cfg.maxSearches)
  {
    var s := Launched(cfg, ends, pending, seeds, now);
    TableMakesLegal(cfg, ends, pending, seeds, now, moments);
    LaunchedGood(cfg, ends, pending, seeds, now);
    OverduesCounted(cfg, ends, seeds, s, moments);
    HandleBrings(cfg, ends, s, moments, u);
    var r := HandleAll(cfg, ends, s, moments);
    if !r.trace.walk.done {
      RunEnds(cfg, seeds, r.told, u);
    }
  }

  // ---------------------------------------------------------------------------
  // A transaction left over
  // ---------------------------------------------------------------------------

  lemma SiftedOne(t: Transaction, now: int64, timeout: int64, due: bool)
    ensures Sifted([t], now, timeout, due) == if Due(t, now, timeout) == due then [t] else []
  {
    assert [t][..0] == [];
  }

  lemma SiftedTwo(t: Transaction, u: Transaction, now: int64, timeout: int64, due: bool)
    ensures Sifted([t, u], now, timeout, due)
         == Sifted([t], now, timeout, due) + Sifted([u], now, timeout, due)
  {
    assert [t, u][..1] == [t];
    SiftedOne(u, now, timeout, due);
  }

  lemma TellOne(cfg: Config, ends: byte, s: Client, t: Transaction, now: int64)
    requires t.target == cfg.target
    ensures TellExpired(cfg, ends, s, [t], now) == Tell(cfg, ends, s, EndOf(t), now)
  {
    var s' := Tell(cfg, ends, s, EndOf(t), now);
    assert [t][1..] == [];
    assert TellExpired(cfg, ends, s', [], now) == s';
  }

  lemma FirstExpires(cfg: Config, ends: byte, s: Client, first: Transaction, second: Transaction, m: Moment)
    requires m.input.Timeout? && s.pending == [first, second] && first.target == cfg.target
    requires Due(first, m.now, m.input.timeout) && !Due(second, m.now, m.input.timeout)
    ensures Handle(cfg, ends, s, m) == Tell(cfg, ends, s.(pending := [second]), EndOf(first), m.now)
  {
    var timeout := m.input.timeout;
    forall due: bool | true
      ensures Sifted(s.pending, m.now, timeout, due) == if due then [first] else [second]
    {
      SiftedTwo(first, second, m.now, timeout, due);
      SiftedOne(first, m.now, timeout, due);
      SiftedOne(second, m.now, timeout, due);
    }
    assert Sifted(s.pending, m.now, timeout, true) == [first] && Sifted(s.pending, m.now, timeout, false) == [second];
    TellOne(cfg, ends, s.(pending := [second]), first, m.now);
  }

  lemma OnlyExpires(cfg: Config, ends: byte, s: Client, t: Transaction, m: Moment)
    requires m.input.Timeout? && s.pending == [t] && t.target == cfg.target && Due(t, m.now, m.input.timeout)
    ensures Handle(cfg, ends, s, m) == Tell(cfg, ends, s.(pending := []), EndOf(t), m.now)
  {
    SiftedOne(t, m.now, m.input.timeout, true);
    SiftedOne(t, m.now, m.input.timeout, false);
    TellOne(cfg, ends, s.(pending := []), t, m.now);
  }

  /**
   Without that condition it can strand: an earlier lookup of the same target was searching the node this one asks
   first. When both requests have expired nothing of the lookup is in the table, it is not done, and the other node
   was never asked. Only a stall gets it going again.
   */
  lemma LeftoverStrands(cfg: Config, a: Contact, b: Contact)
    requires Pair(cfg.target, a, b) && cfg.branchFactor == 1 && cfg.targetNodes > 0
    ensures var left := Transaction(a.host, a.udpPort, a, SEARCH_ANSWER, cfg.target, 0);
            var s := HandleAll(cfg, SEARCH_ANSWER, Launched(cfg, SEARCH_ANSWER, [left], [a, b], 1),
                               [Moment(8, Timeout(8)), Moment(9, Timeout(8))]);
            && !s.trace.walk.done && s.pending == []
            && s.trace.walk.observers == [Unasked(a).(queried := true, failed := true), Unasked(b)]
  {
    var left := Transaction(a.host, a.udpPort, a, SEARCH_ANSWER, cfg.target, 0);
    var asked := Request(FindNode(a), cfg.target, SEARCH_ANSWER, 1);
    var moments := [Moment(8, Timeout(8)), Moment(9, Timeout(8))];
    var s0 := Launched(cfg, SEARCH_ANSWER, [left], [a, b], 1);
    assert s0.pending == [left, asked] by {
      OneAsked(cfg, a, b);
      assert Requests([FindNode(a)], cfg.target, SEARCH_ANSWER, 1) == [asked];
    }
    FirstExpires(cfg, SEARCH_ANSWER, s0, left, asked, moments[0]);
    var s1 := Handle(cfg, SEARCH_ANSWER, s0, moments[0]);
    OnlyExpires(cfg, SEARCH_ANSWER, s1, asked, moments[1]);
    var s2 := Handle(cfg, SEARCH_ANSWER, s1, moments[1]);
    StrayThenQuiet(cfg, a, b);
    assert moments[1..] == [moments[1]] && moments[1..][1..] == [];
    assert HandleAll(cfg, SEARCH_ANSWER, s0, moments) == HandleAll(cfg, SEARCH_ANSWER, s1, moments[1..])
        == HandleAll(cfg, SEARCH_ANSWER, s2, []) == s2;
  }
}
