/**
 When a lookup converges: everyone who has neither answered nor failed has enough live observers strictly closer
 to the target.
 */
module KadConvergence {

  import opened ByteStrings
  import opened KadId
  import opened KadLookup
  import opened KadObservers
  import opened KadRuns
  import opened KadStrays

  predicate Live(o: Observer) {
    o.alive && !o.failed
  }

  /** Neither answered nor failed. */
  predicate Pending(o: Observer) {
    !o.alive && !o.failed
  }

  /** The live observers strictly closer to the target than `id`. */
  ghost function LiveNearer(obs: seq<Observer>, id: Bytes, target: Id): set<Bytes> {
    set k | 0 <= k < |obs| && Live(obs[k]) && Nearer(obs[k].contact.id, id, target) :: obs[k].contact.id
  }

  /** Whoever neither answered nor failed has the wanted number of live observers closer to the target. */
  ghost predicate Surrounded(cfg: Config, obs: seq<Observer>) {
    forall j :: 0 <= j < |obs| && Pending(obs[j]) ==>
      |LiveNearer(obs, obs[j].contact.id, cfg.target)| >= cfg.targetNodes
  }

  // ---------------------------------------------------------------------------
  // Places in the list are distances
  // ---------------------------------------------------------------------------

  /** How many of the observers from `i` up to `j` answered and did not fail since. */
  ghost function AliveBetween(obs: seq<Observer>, i: nat, j: nat): nat
    requires i <= j <= |obs|
    decreases j - i
  {
    if i == j then 0 else (if Live(obs[i]) then 1 else 0) + AliveBetween(obs, i + 1, j)
  }

  ghost function LiveBetween(obs: seq<Observer>, i: nat, j: nat): set<Bytes>
    requires i <= j <= |obs|
  {
    set k | i <= k < j && Live(obs[k]) :: obs[k].contact.id
  }

  lemma LiveBetweenStep(obs: seq<Observer>, target: Id, i: nat, j: nat)
    requires Listed(obs, target) && i < j <= |obs|
    ensures |LiveBetween(obs, i, j)| == (if Live(obs[i]) then 1 else 0) + |LiveBetween(obs, i + 1, j)|
  {
    forall k | i + 1 <= k < j ensures obs[k].contact.id != obs[i].contact.id {
      DistinctIds(obs, target, i, k);
    }
    var rest := LiveBetween(obs, i + 1, j);
    assert obs[i].contact.id !in rest;
    assert LiveBetween(obs, i, j) == rest + if Live(obs[i]) then {obs[i].contact.id} else {};
  }

  lemma {:induction false} AliveCounted(obs: seq<Observer>, target: Id, i: nat, j: nat)
    requires Listed(obs, target) && i <= j <= |obs|
    ensures AliveBetween(obs, i, j) == |LiveBetween(obs, i, j)|
    decreases j - i
  {
    if i == j {
      assert LiveBetween(obs, i, j) == {};
    } else {
      AliveCounted(obs, target, i + 1, j);
      LiveBetweenStep(obs, target, i, j);
    }
  }

  lemma BeforeIsNearer(obs: seq<Observer>, target: Id, k: nat, j: nat)
    requires Listed(obs, target) && k < |obs| && j < |obs|
    ensures Nearer(obs[k].contact.id, obs[j].contact.id, target) <==> k < j
  {
    CloserTotal(obs[k].contact.id, obs[j].contact.id, target);
    if k < j {
      assert Precedes(target, obs[k], obs[j]);
    } else if j < k {
      assert Precedes(target, obs[j], obs[k]);
    }
  }

  lemma NearerBefore(obs: seq<Observer>, target: Id, j: nat)
    requires Listed(obs, target) && j < |obs|
    ensures LiveNearer(obs, obs[j].contact.id, target) == LiveBetween(obs, 0, j)
  {
    forall k | 0 <= k < |obs| ensures Nearer(obs[k].contact.id, obs[j].contact.id, target) <==> k < j {
      BeforeIsNearer(obs, target, k, j);
    }
  }

  lemma LiveCounted(obs: seq<Observer>, target: Id, j: nat)
    requires Listed(obs, target) && j < |obs|
    ensures AliveBetween(obs, 0, j) == |LiveNearer(obs, obs[j].contact.id, target)|
  {
    AliveCounted(obs, target, 0, j);
    NearerBefore(obs, target, j);
  }

  // ---------------------------------------------------------------------------
  // The loops
  // ---------------------------------------------------------------------------

  lemma {:induction false} QueryConverges(cfg: Config, w: Walk, i: nat, considered: nat)
    requires i <= |w.observers|
    ensures QueryFrom(cfg, w, i, considered).1 <==>
            forall j :: i <= j < |w.observers| && Pending(w.observers[j])
                        ==> considered + AliveBetween(w.observers, i, j) >= cfg.targetNodes
    decreases |w.observers| - i
  {
    var obs := w.observers;
    if i >= |obs| {
    } else {
      forall j | i < j < |obs|
        ensures AliveBetween(obs, i, j) == (if Live(obs[i]) then 1 else 0)
                + AliveBetween(obs, i + 1, j)
      {
      }
      if obs[i].failed {
        QueryConverges(cfg, w, i + 1, considered);
      } else if considered < cfg.targetNodes {
        if obs[i].alive {
          QueryConverges(cfg, w, i + 1, considered + 1);
        } else {
          assert AliveBetween(obs, i, i) == 0;
        }
      }
    }
  }

  /** The same nodes, answered and failed as before. */
  ghost predicate SameLife(a: seq<Observer>, b: seq<Observer>) {
    && |a| == |b|
    && forall k :: 0 <= k < |a| ==>
         b[k].contact == a[k].contact && b[k].alive == a[k].alive && b[k].failed == a[k].failed
  }

  lemma SameSurrounded(cfg: Config, a: seq<Observer>, b: seq<Observer>)
    requires SameLife(a, b)
    ensures Surrounded(cfg, a) <==> Surrounded(cfg, b)
  {
    forall j | 0 <= j < |a|
      ensures LiveNearer(a, a[j].contact.id, cfg.target) == LiveNearer(b, b[j].contact.id, cfg.target)
    {
      SameLiveNearer(a, b, a[j].contact.id, cfg.target);
    }
  }

  lemma SameLiveNearer(a: seq<Observer>, b: seq<Observer>, id: Bytes, target: Id)
    requires SameLife(a, b)
    ensures LiveNearer(a, id, target) == LiveNearer(b, id, target)
  {
    assert forall k :: 0 <= k < |a| ==> Live(a[k]) == Live(b[k]) && a[k].contact.id == b[k].contact.id;
  }

  lemma {:induction false} QuerySameLife(cfg: Config, w: Walk, i: nat, considered: nat)
    ensures SameLife(w.observers, QueryFrom(cfg, w, i, considered).0.observers)
    decreases |w.observers| - i
  {
    if i >= |w.observers| {
      return;
    }
    var o := w.observers[i];
    if o.failed {
      QuerySameLife(cfg, w, i + 1, considered);
    } else if considered >= cfg.targetNodes {
    } else if !o.alive && !o.queried && w.inFlight < cfg.branchFactor + w.extra {
      QuerySameLife(cfg, QueriedAt(w, i), i + 1, considered + 1);
    } else {
      QuerySameLife(cfg, w, i + 1, considered + 1);
    }
  }

  lemma {:induction false} SearchSameLife(cfg: Config, w: Walk, i: nat, considered: nat)
    ensures SameLife(w.observers, SearchFrom(cfg, w, i, considered).0.observers)
    decreases |w.observers| - i
  {
    if i >= |w.observers| {
    } else if w.observers[i].alive && considered < cfg.targetNodes {
      SearchSameLife(cfg, SearchAt(cfg, w, i, true).0, i + 1, considered + 1);
    } else {
      SearchSameLife(cfg, w, i + 1, considered);
    }
  }

  lemma NextSameLife(cfg: Config, w: Walk)
    ensures SameLife(w.observers, NextActions(cfg, w).0.observers)
  {
    QuerySameLife(cfg, w, 0, 0);
    SearchSameLife(cfg, QueryFrom(cfg, w, 0, 0).0.(converged := true), 0, 0);
  }

  lemma QuerySurrounded(cfg: Config, w: Walk)
    requires Listed(w.observers, cfg.target)
    ensures QueryFrom(cfg, w, 0, 0).1 <==> Surrounded(cfg, w.observers)
  {
    QueryConverges(cfg, w, 0, 0);
    forall j | 0 <= j < |w.observers|
      ensures AliveBetween(w.observers, 0, j) == |LiveNearer(w.observers, w.observers[j].contact.id, cfg.target)|
    {
      LiveCounted(w.observers, cfg.target, j);
    }
  }

  /** Issuing requests converges exactly when the observers it leaves are surrounded. */
  lemma ConvergesWhenSurrounded(cfg: Config, w: Walk)
    requires Listed(w.observers, cfg.target) && !w.done && !w.converged
    ensures var r := NextActions(cfg, w).0; r.converged <==> Surrounded(cfg, r.observers)
  {
    QuerySurrounded(cfg, w);
    QueryKeeps(cfg, w, 0, 0);
    SearchKeeps(cfg, QueryFrom(cfg, w, 0, 0).0.(converged := true), 0, 0);
    NextSameLife(cfg, w);
    SameSurrounded(cfg, w.observers, NextActions(cfg, w).0.observers);
  }

  // ---------------------------------------------------------------------------
  // Steps and runs
  // ---------------------------------------------------------------------------

  lemma AddNextConverges(cfg: Config, w: Walk, contacts: seq<Contact>)
    requires Listed(w.observers, cfg.target) && !w.done && !w.converged
    ensures var r := Start(cfg, w, contacts).0; r.converged <==> Surrounded(cfg, r.observers)
  {
    AddAllListed(w.observers, contacts, cfg.target);
    ConvergesWhenSurrounded(cfg, w.(observers := AddContacts(w.observers, contacts, cfg.target)));
  }

  /** Every event but the end of a search converges a lookup exactly when it leaves it surrounded. */
  lemma StepConverges(cfg: Config, t: Trace, e: Event)
    requires TraceSafe(cfg, t) && !t.walk.converged
    ensures var r := Step(cfg, t, e).walk;
            if e.SearchDone? then !r.converged else r.converged <==> Surrounded(cfg, r.observers)
  {
    match e
    case Response(c, closer) =>
      AnsweredSafe(cfg, t.walk, t.log, c);
      AnsweredKeeps(cfg, t.walk, c);
      AddNextConverges(cfg, Answered(cfg, t.walk, c).0, closer);
    case Failure(c) =>
      FailedListed(cfg.target, t.walk, c);
      ConvergesWhenSurrounded(cfg, Failed(t.walk, c));
    case Stall => ConvergesWhenSurrounded(cfg, Widened(cfg, t.walk));
    case Seeded(seeds) => AddNextConverges(cfg, t.walk, seeds);
    case SearchDone(c, failed) =>
  }

  lemma FailedListed(target: Id, w: Walk, c: Contact)
    requires Listed(w.observers, target)
    ensures Listed(Failed(w, c).observers, target)
  {
    var i := Find(w.observers, c);
    if i.Some? {
      UpdateListed(w.observers, target, i.value, w.observers[i.value].(failed := true));
    }
  }

  /**
   Whatever was reported to a lookup so far, it converges with an event exactly when that event leaves everyone who
   neither answered nor failed with enough live observers strictly closer to the target. Ends of searches do not
   converge it.
   */
  lemma RunConverges(cfg: Config, seeds: seq<Contact>, events: seq<Event>, e: Event)
    requires !Run(cfg, Started(cfg, seeds), events).walk.converged
    ensures var r := Step(cfg, Run(cfg, Started(cfg, seeds), events), e).walk;
            if e.SearchDone? then !r.converged else r.converged <==> Surrounded(cfg, r.observers)
  {
    AnyRun(cfg, seeds, events);
    StepConverges(cfg, Run(cfg, Started(cfg, seeds), events), e);
  }

  /** The same holds of its start. */
  lemma StartConverges(cfg: Config, seeds: seq<Contact>)
    ensures var r := Started(cfg, seeds).walk; r.converged <==> Surrounded(cfg, r.observers)
  {
    AddNextConverges(cfg, FRESH, seeds);
  }
}
