/**
 An iterative Kademlia lookup as a step machine: what each event does to the
 list of observers and the counters, and which requests it issues.
 */
module KadLookup {

  import opened Base
  import opened ByteStrings
  import opened KadId

  datatype Contact = Contact(id: Bytes, host: Bytes, udpPort: uint16, tcpPort: uint16, version: byte, udpKey: uint32)

  datatype Observer = Observer(contact: Contact, queried: bool, alive: bool, failed: bool, searched: bool)

  datatype Action = FindNode(contact: Contact) | Search(contact: Contact)

  /** What a lookup is created with; `searchable` may be absent. */
  datatype Config = Config(target: Id, searchable: Option<Contact -> bool>, maxSearches: nat,
                           branchFactor: nat, targetNodes: nat)

  datatype Walk = Walk(observers: seq<Observer>, inFlight: nat, extra: nat, queried: nat, answered: nat,
                       searches: nat, searchInFlight: nat, converged: bool, done: bool)

  const MAX_OBSERVERS: nat := 128

  const FRESH: Walk := Walk([], 0, 0, 0, 0, 0, 0, false, false)

  predicate SameEndpoint(a: Contact, b: Contact) {
    a.host == b.host && a.udpPort == b.udpPort
  }

  predicate SameContact(a: Contact, b: Contact) {
    (a.id != [] && a.id == b.id) || SameEndpoint(a, b)
  }

  /** `a` is strictly closer to the target than `b`; both are valid ids. */
  predicate Nearer(a: Bytes, b: Bytes, target: Id) {
    ValidId(a) && ValidId(b) && Closer(a, b, target)
  }

  /** The first observer that is the same contact or has the same endpoint. */
  function Find(observers: seq<Observer>, c: Contact): (i: Option<nat>)
    ensures i == None ==> forall k :: 0 <= k < |observers| ==> !SameContact(observers[k].contact, c)
    ensures i.Some? ==> i.value < |observers| && SameContact(observers[i.value].contact, c)
                        && forall k :: 0 <= k < i.value ==> !SameContact(observers[k].contact, c)
  {
    if observers == [] then None
    else if SameContact(observers[0].contact, c) then Some(0)
    else match Find(observers[1..], c)
      case None => None
      case Some(k) => Some(k + 1)
  }

  // ---------------------------------------------------------------------------
  // Adding contacts
  // ---------------------------------------------------------------------------

  /** A known contact only fills in what it did not tell before. */
  function Merge(known: Contact, c: Contact): Contact {
    known.(tcpPort := if known.tcpPort == 0 then c.tcpPort else known.tcpPort,
           version := if known.version == 0 then c.version else known.version,
           udpKey := if known.udpKey == 0 then c.udpKey else known.udpKey)
  }

  /** Position of the first observer that is not strictly closer than `id`. */
  function LowerBound(observers: seq<Observer>, id: Bytes, target: Id): (k: nat)
    ensures k <= |observers|
    ensures forall i :: 0 <= i < k ==> Nearer(observers[i].contact.id, id, target)
    ensures k < |observers| ==> !Nearer(observers[k].contact.id, id, target)
  {
    if observers == [] || !Nearer(observers[0].contact.id, id, target) then 0
    else 1 + LowerBound(observers[1..], id, target)
  }

  /** A long list loses its far end, up to the last observer that was asked. */
  function Trim(observers: seq<Observer>): (r: seq<Observer>)
    ensures r <= observers
    ensures forall k :: |r| <= k < |observers| ==> !observers[k].queried
  {
    if |observers| > MAX_OBSERVERS && !observers[|observers| - 1].queried
    then Trim(observers[..|observers| - 1])
    else observers
  }

  predicate Usable(c: Contact) {
    ValidId(c.id) && c.host != [] && c.udpPort != 0
  }

  function AddContact(observers: seq<Observer>, c: Contact, target: Id): seq<Observer> {
    if !Usable(c) then observers
    else match Find(observers, c)
      case Some(i) => observers[i := observers[i].(contact := Merge(observers[i].contact, c))]
      case None =>
        var k := LowerBound(observers, c.id, target);
        Trim(observers[..k] + [Observer(c, false, false, false, false)] + observers[k..])
  }

  function AddContacts(observers: seq<Observer>, contacts: seq<Contact>, target: Id): seq<Observer> {
    if contacts == [] then observers
    else AddContact(AddContacts(observers, contacts[..|contacts| - 1], target), contacts[|contacts| - 1], target)
  }

  // ---------------------------------------------------------------------------
  // Issuing requests
  // ---------------------------------------------------------------------------

  /** The observer may be searched: not yet, within the budget, and close enough unless that is waived. */
  predicate MaySearch(cfg: Config, w: Walk, i: nat, anyAnswered: bool)
    requires i < |w.observers|
  {
    && !w.observers[i].searched
    && w.searches < cfg.maxSearches
    && cfg.searchable.Some?
    && (anyAnswered || cfg.searchable.value(w.observers[i].contact))
  }

  function SearchAt(cfg: Config, w: Walk, i: nat, anyAnswered: bool): (Walk, seq<Action>)
    requires i < |w.observers|
  {
    if MaySearch(cfg, w, i, anyAnswered) then
      (w.(observers := w.observers[i := w.observers[i].(searched := true)],
          searches := w.searches + 1, searchInFlight := w.searchInFlight + 1),
       [Search(w.observers[i].contact)])
    else (w, [])
  }

  /** The query loop from observer `i` on: next state, whether all considered answered, and the requests. */
  function QueryFrom(cfg: Config, w: Walk, i: nat, considered: nat): (r: (Walk, bool, seq<Action>))
    decreases |w.observers| - i
  {
    if i >= |w.observers| then (w, true, [])
    else if w.observers[i].failed then QueryFrom(cfg, w, i + 1, considered)
    else if considered >= cfg.targetNodes then (w, true, [])
    else if w.observers[i].alive then QueryFrom(cfg, w, i + 1, considered + 1)
    else if !w.observers[i].queried && w.inFlight < cfg.branchFactor + w.extra then
      var w' := w.(observers := w.observers[i := w.observers[i].(queried := true)],
                   queried := w.queried + 1, inFlight := w.inFlight + 1);
      var rest := QueryFrom(cfg, w', i + 1, considered + 1);
      (rest.0, false, [FindNode(w.observers[i].contact)] + rest.2)
    else
      var rest := QueryFrom(cfg, w, i + 1, considered + 1);
      (rest.0, false, rest.2)
  }

  /** The final loop from observer `i` on: the closest that answered are searched. */
  function SearchFrom(cfg: Config, w: Walk, i: nat, considered: nat): (r: (Walk, seq<Action>))
    decreases |w.observers| - i
  {
    if i >= |w.observers| then (w, [])
    else if w.observers[i].alive && considered < cfg.targetNodes then
      var step := SearchAt(cfg, w, i, true);
      var rest := SearchFrom(cfg, step.0, i + 1, considered + 1);
      (rest.0, step.1 + rest.1)
    else SearchFrom(cfg, w, i + 1, considered)
  }

  function NextActions(cfg: Config, w: Walk): (Walk, seq<Action>) {
    if w.done || w.converged then (w, [])
    else
      var (w1, converged, finds) := QueryFrom(cfg, w, 0, 0);
      if !converged then (w1, finds)
      else
        var (w2, searches) := SearchFrom(cfg, w1.(converged := true), 0, 0);
        (w2.(done := w2.done || w2.searchInFlight == 0), finds + searches)
  }

  // ---------------------------------------------------------------------------
  // Events
  // ---------------------------------------------------------------------------

  function Less(n: nat): nat {
    if n > 0 then n - 1 else 0
  }

  function Start(cfg: Config, w: Walk, seeds: seq<Contact>): (Walk, seq<Action>) {
    NextActions(cfg, w.(observers := AddContacts(w.observers, seeds, cfg.target)))
  }

  /** Marks the observer that answered, and searches it when it is close enough. */
  function Answered(cfg: Config, w: Walk, c: Contact): (Walk, seq<Action>) {
    match Find(w.observers, c)
    case Some(i) =>
      if w.observers[i].queried && !w.observers[i].alive then
        SearchAt(cfg, w.(observers := w.observers[i := w.observers[i].(alive := true, failed := false)],
                         answered := w.answered + 1, inFlight := Less(w.inFlight)), i, false)
      else (w, [])
    case None => (w, [])
  }

  function OnResponse(cfg: Config, w: Walk, c: Contact, closer: seq<Contact>): (Walk, seq<Action>) {
    if w.done then (w, [])
    else
      var (w1, searches) := Answered(cfg, w, c);
      var (w2, next) := NextActions(cfg, w1.(observers := AddContacts(w1.observers, closer, cfg.target)));
      (w2, searches + next)
  }

  function Failed(w: Walk, c: Contact): Walk {
    match Find(w.observers, c)
    case Some(i) =>
      if !w.observers[i].failed && !w.observers[i].alive then
        w.(observers := w.observers[i := w.observers[i].(failed := true)], inFlight := Less(w.inFlight))
      else w
    case None => w
  }

  function OnFailure(cfg: Config, w: Walk, c: Contact): (Walk, seq<Action>) {
    NextActions(cfg, Failed(w, c))
  }

  /** A slot more for requests, at most two further branch factors in all. */
  function Widened(cfg: Config, w: Walk): Walk {
    if w.extra < 2 * cfg.branchFactor then w.(extra := w.extra + 1) else w
  }

  function Stalled(cfg: Config, w: Walk): (Walk, seq<Action>) {
    NextActions(cfg, Widened(cfg, w))
  }

  function FinishSearch(w: Walk, c: Contact, failed: bool): Walk {
    var i := Find(w.observers, c);
    var w1 := if i.Some? && failed
              then w.(observers := w.observers[i.value := w.observers[i.value].(failed := true)])
              else w;
    var w2 := w1.(searchInFlight := Less(w1.searchInFlight));
    w2.(done := w2.done || (w2.converged && w2.searchInFlight == 0))
  }

  // ---------------------------------------------------------------------------
  // The lookup object
  // ---------------------------------------------------------------------------

  class KadTraversal {
    const cfg: Config
    var observers: seq<Observer>
    var inFlight: nat
    var extra: nat
    var queried: nat
    var answered: nat
    var searches: nat
    var searchInFlight: nat
    var converged: bool
    var done: bool

    function State(): Walk
      reads this
    {
      Walk(observers, inFlight, extra, queried, answered, searches, searchInFlight, converged, done)
    }

    /** Zero stands for the default branch factor and number of target nodes; a bad target id is an error. */
    constructor (target: Id, searchable: Option<Contact -> bool>, maxSearches: nat, branchFactor: nat, targetNodes: nat)
      ensures State() == FRESH
      ensures cfg == Config(target, searchable, maxSearches, if branchFactor == 0 then 3 else branchFactor,
                            if targetNodes == 0 then 8 else targetNodes)
    {
      cfg := Config(target, searchable, maxSearches, if branchFactor == 0 then 3 else branchFactor,
                    if targetNodes == 0 then 8 else targetNodes);
      observers, inFlight, extra, queried, answered := [], 0, 0, 0, 0;
      searches, searchInFlight, converged, done := 0, 0, false, false;
    }

    method Lookup(c: Contact) returns (i: Option<nat>)
      ensures i == Find(observers, c)
    {
      for k := 0 to |observers|
        invariant forall j :: 0 <= j < k ==> !SameContact(observers[j].contact, c)
      {
        if SameContact(observers[k].contact, c) {
          return Some(k);
        }
      }
      return None;
    }

    method Add(c: Contact)
      modifies this`observers
      ensures observers == AddContact(old(observers), c, cfg.target)
    {
      if !Usable(c) {
        return;
      }
      var known := Lookup(c);
      if known.Some? {
        var i := known.value;
        observers := observers[i := observers[i].(contact := Merge(observers[i].contact, c))];
        return;
      }
      var at := 0;
      while at < |observers| && Nearer(observers[at].contact.id, c.id, cfg.target)
        invariant 0 <= at <= |observers|
        invariant forall i :: 0 <= i < at ==> Nearer(observers[i].contact.id, c.id, cfg.target)
      {
        at := at + 1;
      }
      LowerBoundUnique(observers, c.id, cfg.target, at);
      observers := observers[..at] + [Observer(c, false, false, false, false)] + observers[at..];
      ghost var inserted := observers;
      while |observers| > MAX_OBSERVERS && !observers[|observers| - 1].queried
        invariant Trim(observers) == Trim(inserted)
        decreases |observers|
      {
        observers := observers[..|observers| - 1];
      }
    }

    method AddAll(contacts: seq<Contact>)
      modifies this`observers
      ensures observers == AddContacts(old(observers), contacts, cfg.target)
    {
      for k := 0 to |contacts|
        invariant observers == AddContacts(old(observers), contacts[..k], cfg.target)
      {
        assert contacts[..k + 1][..k] == contacts[..k];
        Add(contacts[k]);
      }
      assert contacts[..|contacts|] == contacts;
    }

    method SearchObserver(i: nat, anyAnswered: bool) returns (actions: seq<Action>)
      requires i < |observers|
      modifies this`observers, this`searches, this`searchInFlight
      ensures (State(), actions) == SearchAt(cfg, old(State()), i, anyAnswered)
    {
      if !MaySearch(cfg, State(), i, anyAnswered) {
        return [];
      }
      actions := [Search(observers[i].contact)];
      observers := observers[i := observers[i].(searched := true)];
      searches, searchInFlight := searches + 1, searchInFlight + 1;
    }

    method Query() returns (all: bool, actions: seq<Action>)
      modifies this`observers, this`queried, this`inFlight
      ensures (State(), all, actions) == QueryFrom(cfg, old(State()), 0, 0)
    {
      var considered := 0;
      var i := 0;
      all, actions := true, [];
      ghost var target := QueryFrom(cfg, State(), 0, 0);
      while i < |observers|
        invariant 0 <= i <= |observers| && 0 <= considered
        invariant var r := QueryFrom(cfg, State(), i, considered);
                  target.0 == r.0 && target.1 == (all && r.1) && target.2 == actions + r.2
      {
        ghost var r := QueryFrom(cfg, State(), i, considered);
        if observers[i].failed {
          i := i + 1;
          continue;
        }
        considered := considered + 1;
        if considered > cfg.targetNodes {
          assert r == (State(), true, []);
          break;
        }
        if !observers[i].alive {
          all := false;
          if !observers[i].queried && inFlight < cfg.branchFactor + extra {
            actions := actions + [FindNode(observers[i].contact)];
            observers := observers[i := observers[i].(queried := true)];
            queried, inFlight := queried + 1, inFlight + 1;
            assert r.2 == [FindNode(observers[i].contact)] + QueryFrom(cfg, State(), i + 1, considered).2;
          }
        }
        i := i + 1;
      }
      assert actions + [] == actions;
      assert target == (State(), all, actions);
    }

    method SearchClosest() returns (actions: seq<Action>)
      modifies this`observers, this`searches, this`searchInFlight
      ensures (State(), actions) == SearchFrom(cfg, old(State()), 0, 0)
    {
      var considered := 0;
      var i := 0;
      actions := [];
      ghost var target := SearchFrom(cfg, State(), 0, 0);
      while i < |observers|
        invariant 0 <= i <= |observers| && 0 <= considered
        invariant var r := SearchFrom(cfg, State(), i, considered);
                  target.0 == r.0 && target.1 == actions + r.1
        decreases |observers| - i
      {
        ghost var r := SearchFrom(cfg, State(), i, considered);
        if observers[i].alive && considered < cfg.targetNodes {
          considered := considered + 1;
          var more := SearchObserver(i, true);
          assert r.1 == more + SearchFrom(cfg, State(), i + 1, considered).1;
          actions := actions + more;
        }
        i := i + 1;
      }
      assert actions + [] == actions;
      assert target == (State(), actions);
    }

    method Next() returns (actions: seq<Action>)
      modifies this
      ensures (State(), actions) == NextActions(cfg, old(State()))
    {
      if done || converged {
        return [];
      }
      var all, finds := Query();
      if !all {
        return finds;
      }
      converged := true;
      var more := SearchClosest();
      if searchInFlight == 0 {
        done := true;
      }
      return finds + more;
    }

    method Begin(seeds: seq<Contact>) returns (actions: seq<Action>)
      modifies this
      ensures (State(), actions) == Start(cfg, old(State()), seeds)
    {
      AddAll(seeds);
      actions := Next();
    }

    method Respond(c: Contact, closer: seq<Contact>) returns (actions: seq<Action>)
      modifies this
      ensures (State(), actions) == OnResponse(cfg, old(State()), c, closer)
    {
      actions := [];
      if done {
        return;
      }
      var found := Lookup(c);
      if found.Some? && observers[found.value].queried && !observers[found.value].alive {
        var i := found.value;
        observers := observers[i := observers[i].(alive := true, failed := false)];
        answered := answered + 1;
        inFlight := if inFlight > 0 then inFlight - 1 else 0;
        actions := SearchObserver(i, false);
      }
      AddAll(closer);
      var next := Next();
      actions := actions + next;
    }

    method Fail(c: Contact) returns (actions: seq<Action>)
      modifies this
      ensures (State(), actions) == OnFailure(cfg, old(State()), c)
    {
      var found := Lookup(c);
      if found.Some? && !observers[found.value].failed && !observers[found.value].alive {
        observers := observers[found.value := observers[found.value].(failed := true)];
        inFlight := if inFlight > 0 then inFlight - 1 else 0;
      }
      actions := Next();
    }

    method Stall() returns (actions: seq<Action>)
      modifies this
      ensures (State(), actions) == Stalled(cfg, old(State()))
    {
      if extra < 2 * cfg.branchFactor {
        extra := extra + 1;
      }
      actions := Next();
    }

    method Finish(c: Contact, failed: bool)
      modifies this
      ensures State() == FinishSearch(old(State()), c, failed)
    {
      var found := Lookup(c);
      if found.Some? && failed {
        observers := observers[found.value := observers[found.value].(failed := true)];
      }
      searchInFlight := if searchInFlight > 0 then searchInFlight - 1 else 0;
      if converged && searchInFlight == 0 {
        done := true;
      }
    }
  }

  lemma {:induction false} LowerBoundUnique(observers: seq<Observer>, id: Bytes, target: Id, k: nat)
    requires k <= |observers| && (forall i :: 0 <= i < k ==> Nearer(observers[i].contact.id, id, target))
    requires k < |observers| ==> !Nearer(observers[k].contact.id, id, target)
    ensures LowerBound(observers, id, target) == k
  {
  }
}
