/** The routing table: buckets of live nodes and replacements around our own id. */
module KadRouting {

  import opened Base
  import opened ByteStrings
  import opened Endpoints
  import opened KadId
  import opened KadBuckets
  import opened KadLookup
  import opened KadNodes
  import opened KadRestore
  import opened KadNearest

  datatype Snapshot = Snapshot(
    selfId: Bytes, buckets: seq<Bucket>, routerNodes: seq<Endpoint>, routerContacts: seq<Contact>,
    lastBootstrap: int64, lastRefresh: int64, lastSelfRefresh: int64, lastFirewalledCheck: int64,
    lastSourcePublish: int64, lastSourceSearch: int64, sourceSearchCount: uint32, udpVerifyKey: uint32,
    observedAddresses: seq<Bytes>, firewalled: bool)

  function HomeIn(self: Id): Home {
    (id: Bytes) => if ValidId(id) then Some(BucketOf(id, self)) else None
  }

  ghost predicate Lacks(b: Bucket, id: Bytes) {
    AllIds(b, x => x != id)
  }

  /** The live nodes a search may return, in table order. */
  function Eligible(nodes: seq<Node>, excluded: Bytes, all: bool): seq<Node> {
    if nodes == [] then []
    else
      var n := |nodes| - 1;
      Eligible(nodes[..n], excluded, all)
      + if (all || nodes[n].confirmed) && nodes[n].contact.id != excluded then [nodes[n]] else []
  }

  function Candidates(buckets: seq<Bucket>, excluded: Bytes, all: bool): seq<Node> {
    if buckets == [] then []
    else
      var n := |buckets| - 1;
      Candidates(buckets[..n], excluded, all) + Eligible(buckets[n].live, excluded, all)
  }

  const REFRESH_AFTER: int := 900
  const REFRESH_PAUSE: int := 45

  /** The bucket saw a node, but not for a while. */
  predicate Stale(b: Bucket, now: int64) {
    b.lastActive != 0 && now - b.lastActive >= REFRESH_AFTER
  }

  class KadRoutingTable {
    const selfId: Id
    const bucketSize: nat
    ghost const home: Home
    var buckets: seq<Bucket>
    var routerNodes: seq<Endpoint>
    var routerContacts: seq<Contact>
    var lastBootstrap: int64
    var lastRefresh: int64
    var lastSelfRefresh: int64

    /** Every node is in the bucket of its id, and no list is longer than the bucket size. */
    ghost predicate Valid() reads this {
      && bucketSize > 0 && |buckets| == BUCKET_COUNT && home == HomeIn(selfId)
      && forall i :: 0 <= i < BUCKET_COUNT ==> Fits(buckets[i], bucketSize) && Placed(buckets[i], home, i)
    }

    ghost predicate LacksSelf() reads this {
      forall i :: 0 <= i < |buckets| ==> Lacks(buckets[i], selfId)
    }

    constructor (selfId: Id, bucketSize: nat)
      ensures Valid() && LacksSelf() && this.selfId == selfId
      ensures this.bucketSize == (if bucketSize == 0 then 10 else bucketSize)
      ensures buckets == EmptyTable()
    {
      this.selfId := selfId;
      this.bucketSize := if bucketSize == 0 then 10 else bucketSize;
      home := HomeIn(selfId);
      buckets := EmptyTable();
      routerNodes, routerContacts := [], [];
      lastBootstrap, lastRefresh, lastSelfRefresh := 0, 0, 0;
    }

    /** A contact was heard of, or answered: only its own bucket changes, and never to hold our id. */
    method Add(c: Contact, confirmed: bool, now: int64)
      requires Valid()
      modifies `buckets
      ensures Valid() && (old(LacksSelf()) ==> LacksSelf())
      ensures !Routable(c) || c.id == selfId ==> buckets == old(buckets)
      ensures Routable(c) && c.id != selfId ==>
              var i := BucketOf(c.id, selfId);
              buckets == old(buckets)[i := AddTo(old(buckets)[i], bucketSize, c, confirmed, now)]
    {
      if !Routable(c) || c.id == selfId {
        return;
      }
      var i := BucketIndex(c.id, selfId);
      var b := AddInPlace(buckets[i], bucketSize, c, confirmed, now);
      AddKeeps(buckets[i], c, confirmed, now, i);
      if LacksSelf() {
        AddAllIds(buckets[i], bucketSize, c, confirmed, now, x => x != selfId);
      }
      buckets := buckets[i := b];
    }

    lemma AddKeeps(b: Bucket, c: Contact, confirmed: bool, now: int64, i: nat)
      requires bucketSize > 0 && Fits(b, bucketSize) && Placed(b, home, i) && home(c.id) == Some(i)
      ensures var r := AddTo(b, bucketSize, c, confirmed, now); Fits(r, bucketSize) && Placed(r, home, i)
    {
      AddFits(b, bucketSize, c, confirmed, now);
      AddAllIds(b, bucketSize, c, confirmed, now, x => home(x) == Some(i));
    }

    /** A request went unanswered. */
    method Fail(c: Contact)
      requires Valid()
      modifies `buckets
      ensures Valid() && (old(LacksSelf()) ==> LacksSelf())
      ensures !ValidId(c.id) ==> buckets == old(buckets)
      ensures ValidId(c.id) ==> var i := BucketOf(c.id, selfId);
                                buckets == old(buckets)[i := FailIn(old(buckets)[i], c)]
    {
      if !ValidId(c.id) {
        return;
      }
      var i := BucketIndex(c.id, selfId);
      var b := FailInPlace(buckets[i], c);
      FailKeeps(buckets[i], bucketSize, c, x => home(x) == Some(i));
      if LacksSelf() {
        FailKeeps(buckets[i], bucketSize, c, x => x != selfId);
      }
      buckets := buckets[i := b];
    }

    /**
     The contacts nearest to the target among the live nodes that are eligible; None when an id is malformed.
     A limit of zero returns them all.
     */
    method FindClosest(target: Bytes, excluded: Bytes, limit: nat, all: bool) returns (r: Option<seq<Contact>>)
      requires Valid()
      ensures r.Some? <==> ValidId(target) && (excluded == [] || ValidId(excluded))
      ensures r.Some? ==> Nearest(r.value, Contacts(Candidates(buckets, excluded, all)), limit, target)
    {
      if !ValidId(target) || (excluded != [] && !ValidId(excluded)) {
        return None;
      }
      forall i, k | 0 <= i < |buckets| && 0 <= k < |buckets[i].live| ensures ValidId(buckets[i].live[k].contact.id) {
        assert Placed(buckets[i], home, i);
      }
      var nodes := CollectAll(buckets, excluded, all);
      var contacts := ClosestOf(nodes, target, limit);
      r := Some(contacts);
    }

    /** Whether a lookup should refresh the table, and for which id: our own, or one in the stalest bucket. */
    method NeedRefresh(now: int64, random: seq<uint32>) returns (target: Option<Id>)
      requires Valid() && |random| == 4
      modifies `lastRefresh, `lastSelfRefresh
      ensures Valid()
      ensures var own := old(lastSelfRefresh) == 0 || now - old(lastSelfRefresh) >= REFRESH_AFTER;
              var pause := old(lastRefresh) != 0 && now - old(lastRefresh) < REFRESH_PAUSE;
              && (own ==> target == Some(selfId) && lastSelfRefresh == now && lastRefresh == old(lastRefresh))
              && (!own ==> lastSelfRefresh == old(lastSelfRefresh)
                           && lastRefresh == if target == None then old(lastRefresh) else now)
              && (!own ==> (target == None <==> pause || forall i :: 0 <= i < BUCKET_COUNT ==> !Stale(buckets[i], now)))
              && (!own && target.Some? ==> var b := buckets[BucketOf(target.value, selfId)];
                    Stale(b, now) && forall i :: 0 <= i < BUCKET_COUNT && Stale(buckets[i], now)
                                                 ==> b.lastActive <= buckets[i].lastActive)
    {
      if lastSelfRefresh == 0 || now - lastSelfRefresh >= REFRESH_AFTER {
        lastSelfRefresh := now;
        return Some(selfId);
      }
      if lastRefresh != 0 && now - lastRefresh < REFRESH_PAUSE {
        return None;
      }
      var oldest := Stalest(buckets, now);
      if oldest == None {
        return None;
      }
      lastRefresh := now;
      var id := RandomIdIn(oldest.value, selfId, random);
      return Some(id);
    }

    /** Everything the table knows; what only its owner knows has its default. */
    function Snapshotted(): Snapshot
      reads this
    {
      Snapshot(selfId, buckets, routerNodes, routerContacts, lastBootstrap, lastRefresh, lastSelfRefresh,
               0, 0, 0, 0, 0, [], true)
    }

    /** Every saved node is placed again; false when the snapshot's own id is malformed. */
    method Restore(s: Snapshot) returns (ok: bool)
      requires Valid()
      modifies this
      ensures Valid() && ok == ValidId(s.selfId)
      ensures !ok ==> buckets == old(buckets) && routerNodes == old(routerNodes)
                      && routerContacts == old(routerContacts)
                      && lastBootstrap == old(lastBootstrap) && lastRefresh == old(lastRefresh)
                      && lastSelfRefresh == old(lastSelfRefresh)
      ensures ok ==> buckets == PlaceAll(bucketSize, home, Entries(s.buckets))
                     && routerNodes == s.routerNodes && routerContacts == s.routerContacts
                     && lastBootstrap == s.lastBootstrap && lastRefresh == s.lastRefresh
                     && lastSelfRefresh == s.lastSelfRefresh
    {
      if !ValidId(s.selfId) {
        return false;
      }
      routerNodes, routerContacts := s.routerNodes, s.routerContacts;
      lastBootstrap, lastRefresh, lastSelfRefresh := s.lastBootstrap, s.lastRefresh, s.lastSelfRefresh;
      buckets := Replay(s.buckets);
      forall i | 0 <= i < BUCKET_COUNT ensures Fits(buckets[i], bucketSize) && Placed(buckets[i], home, i) {
        RestorePlaces(bucketSize, home, Entries(s.buckets), i);
      }
      return true;
    }

    method Replay(saved: seq<Bucket>) returns (table: seq<Bucket>)
      requires home == HomeIn(selfId)
      ensures table == PlaceAll(bucketSize, home, Entries(saved))
    {
      table := EmptyTable();
      for i := 0 to |saved|
        invariant table == PlaceAll(bucketSize, home, Entries(saved[..i]))
      {
        var b := saved[i];
        ghost var done := Entries(saved[..i]);
        table := PlaceList(table, b.live, true, b.lastActive, done);
        table := PlaceList(table, b.replacements, false, b.lastActive, done + ListEntries(b.live, true, b.lastActive));
        EntriesGrow(saved, i);
      }
      assert saved[..|saved|] == saved;
    }

    method PlaceList(table: seq<Bucket>, nodes: seq<Node>, live: bool, lastActive: int64, ghost done: seq<Entry>)
      returns (r: seq<Bucket>)
      requires home == HomeIn(selfId) && table == PlaceAll(bucketSize, home, done)
      ensures r == PlaceAll(bucketSize, home, done + ListEntries(nodes, live, lastActive))
    {
      r := table;
      assert done + ListEntries(nodes[..0], live, lastActive) == done;
      for k := 0 to |nodes|
        invariant r == PlaceAll(bucketSize, home, done + ListEntries(nodes[..k], live, lastActive))
      {
        ListGrows(done, nodes, k, live, lastActive);
        PlaceAllAppend(bucketSize, home, done + ListEntries(nodes[..k], live, lastActive),
                       Entry(nodes[k], live, lastActive));
        r := PlaceOne(r, Entry(nodes[k], live, lastActive));
      }
      assert nodes[..|nodes|] == nodes;
    }

    method PlaceOne(table: seq<Bucket>, e: Entry) returns (r: seq<Bucket>)
      requires home == HomeIn(selfId) && |table| == BUCKET_COUNT
      ensures r == Place(table, bucketSize, home, e)
    {
      r := table;
      if ValidId(e.node.contact.id) {
        var i := BucketIndex(e.node.contact.id, selfId);
        var b := r[i].(lastActive := Max(r[i].lastActive, e.lastActive));
        if e.live && |b.live| < bucketSize {
          b := b.(live := b.live + [e.node]);
        } else if |b.replacements| < bucketSize {
          b := b.(replacements := b.replacements + [e.node]);
        }
        r := r[i := b];
      }
    }
  }

  /** The last bucket is the one of our own id. */
  const OWN_BUCKET: nat := BUCKET_COUNT - 1

  lemma {:induction false} XorSelf(x: nat, n: nat)
    ensures Xor(x, x, n) == 0
  {
    if n == 0 {
    } else {
      XorSelf(x / 2, n - 1);
    }
  }

  lemma SelfBucket(self: Id)
    ensures BucketOf(self, self) == OWN_BUCKET
  {
    var d := Distance(self, self);
    DistanceBound(self, self);
    forall k | 0 <= k < 4 ensures d[k] == 0 {
      XorSelf(Word(self, k), 32);
    }
    SkipZeros(d, 4);
  }

  lemma LacksIsBag(b: Bucket, id: Bytes)
    ensures Lacks(b, id) <==> id !in IdBag(b)
  {
  }

  lemma ElsewhereLacks(b: Bucket, home: Home, i: nat, id: Bytes)
    requires Placed(b, home, i) && home(id) != Some(i)
    ensures Lacks(b, id)
  {
  }

  ghost predicate LacksSelf(table: seq<Bucket>, self: Id)
    requires |table| == BUCKET_COUNT
  {
    forall i :: 0 <= i < BUCKET_COUNT ==> Lacks(table[i], self)
  }

  /** Restoring does not leave out our own id: the table lacks it exactly when no entry of it found room. */
  lemma SelfRestored(size: nat, self: Id, entries: seq<Entry>)
    ensures LacksSelf(PlaceAll(size, HomeIn(self), entries), self)
            <==> !TakesId(size, Share(entries, HomeIn(self), OWN_BUCKET), self)
  {
    var home, own := HomeIn(self), OWN_BUCKET;
    SelfBucket(self);
    var table := PlaceAll(size, home, entries);
    forall i | 0 <= i < BUCKET_COUNT && i != own ensures Lacks(table[i], self) {
      RestorePlaces(size, home, entries, i);
      ElsewhereLacks(table[i], home, i, self);
    }
    RestoredId(size, home, entries, own, self);
    LacksIsBag(table[own], self);
  }

  /**
   A table restored from a snapshot without our id lacks it. As long as no more nodes come for our own bucket than
   fit, it lacks it only then.
   */
  lemma SelfAfterRestore(size: nat, self: Id, entries: seq<Entry>)
    ensures var lacks := LacksSelf(PlaceAll(size, HomeIn(self), entries), self);
            && (!HasId(entries, self) ==> lacks)
            && (|Share(entries, HomeIn(self), OWN_BUCKET)| <= size ==> (lacks <==> !HasId(entries, self)))
  {
    SelfBucket(self);
    SelfRestored(size, self, entries);
    RestoredId(size, HomeIn(self), entries, OWN_BUCKET, self);
  }

  /** A contact with one node's endpoint and another's id leaves two records of that id. */
  lemma DoubleId(a: Node, b: Node, c: Contact, size: nat, confirmed: bool, now: int64)
    requires size > 0 && ValidId(c.id) && a.contact.id != c.id == b.contact.id && SameEndpoint(a.contact, c)
    ensures var r := AddTo(Bucket([a, b], [], now), size, c, confirmed, now); IdBag(r)[c.id] == 2
  {
    var bucket := Bucket([a, b], [], now);
    var ids := Mapped(bucket.live, IdOf);
    assert bucket.live[0] == a && bucket.live[1] == b;
    assert ids[0] == IdOf(a) && ids[1] == IdOf(b);
    assert ids == [a.contact.id, c.id];
    assert Mapped<Bytes>([], IdOf) == [];
    assert FirstNode(bucket.live, c) == Some(0);
    AddExchanges(bucket, size, c, confirmed, now, IdOf);
  }

  /** It comes about in a new table: both nodes are heard of, then the id of one from the endpoint of the other. */
  method DoubleIdArises(self: Id, size: nat, a: Contact, b: Contact, c: Contact, confirmed: bool, now: int64)
    returns (t: KadRoutingTable)
    requires Routable(a) && Routable(b) && Routable(c) && self !in {a.id, b.id} && size != 1
    requires a.id != b.id == c.id && !SameEndpoint(a, b) && SameEndpoint(a, c)
    requires BucketOf(a.id, self) == BucketOf(b.id, self)
    ensures fresh(t) && t.Valid() && t.LacksSelf() && t.selfId == self
    ensures IdBag(t.buckets[BucketOf(b.id, self)])[b.id] == 2
  {
    t := new KadRoutingTable(self, size);
    ghost var i := BucketOf(b.id, self);
    ghost var first, second := Newcomer(a, confirmed, now), Newcomer(b, confirmed, now);
    t.Add(a, confirmed, now);
    assert t.buckets[i] == Bucket([first], [], now);
    t.Add(b, confirmed, now);
    assert t.buckets[i] == Bucket([first, second], [], now);
    DoubleId(first, second, c, t.bucketSize, confirmed, now);
    t.Add(c, confirmed, now);
  }

  method AddInPlace(b: Bucket, size: nat, c: Contact, confirmed: bool, now: int64) returns (r: Bucket)
    requires size > 0
    ensures r == AddTo(b, size, c, confirmed, now)
  {
    var live, replacements := b.live, b.replacements;
    var i := Position(live, c);
    if i.Some? {
      var node := Refreshed(live[i.value], c, confirmed, now);
      live := Without(live, i.value) + [node];
      return Bucket(live, replacements, now);
    }
    i := Position(replacements, c);
    if i.Some? {
      var node := Refreshed(replacements[i.value], c, confirmed, now);
      if confirmed && |live| < size {
        replacements := Without(replacements, i.value);
        live := live + [node];
      } else {
        replacements := replacements[i.value := node];
      }
      return Bucket(live, replacements, now);
    }
    var node := Newcomer(c, confirmed, now);
    if |live| < size {
      live := live + [node];
    } else {
      if |replacements| == size {
        replacements := replacements[1..];
      }
      replacements := replacements + [node];
    }
    return Bucket(live, replacements, now);
  }

  method FailInPlace(b: Bucket, c: Contact) returns (r: Bucket)
    ensures r == FailIn(b, c)
  {
    r := b;
    var i := Position(r.live, c);
    if i.Some? {
      var k := i.value;
      if !r.live[k].confirmed {
        return r.(live := Without(r.live, k));
      }
      var node := r.live[k].(failCount := (r.live[k].failCount + 1) % 0x1_0000_0000);
      if r.replacements != [] {
        return r.(live := r.live[k := r.replacements[0]], replacements := r.replacements[1..]);
      }
      if node.failCount >= MAX_FAILURES {
        return r.(live := Without(r.live, k));
      }
      return r.(live := r.live[k := node]);
    }
    i := Position(r.replacements, c);
    if i.Some? {
      r := r.(replacements := Without(r.replacements, i.value));
    }
  }

  /** Index of the first node that is this contact. */
  method Position(nodes: seq<Node>, c: Contact) returns (i: Option<nat>)
    ensures i == FirstNode(nodes, c)
  {
    for k := 0 to |nodes|
      invariant forall j :: 0 <= j < k ==> !SameContact(nodes[j].contact, c)
    {
      if SameContact(nodes[k].contact, c) {
        return Some(k);
      }
    }
    return None;
  }

  method Collect(nodes: seq<Node>, excluded: Bytes, all: bool) returns (r: seq<Node>)
    ensures r == Eligible(nodes, excluded, all)
    ensures forall k :: 0 <= k < |r| ==> r[k] in nodes
  {
    r := [];
    for i := 0 to |nodes|
      invariant r == Eligible(nodes[..i], excluded, all)
      invariant forall k :: 0 <= k < |r| ==> r[k] in nodes
    {
      assert nodes[..i + 1][..i] == nodes[..i];
      if (all || nodes[i].confirmed) && nodes[i].contact.id != excluded {
        r := r + [nodes[i]];
      }
    }
    assert nodes[..|nodes|] == nodes;
  }

  method CollectAll(buckets: seq<Bucket>, excluded: Bytes, all: bool) returns (nodes: seq<Node>)
    requires forall i, k :: 0 <= i < |buckets| && 0 <= k < |buckets[i].live| ==> ValidId(buckets[i].live[k].contact.id)
    ensures nodes == Candidates(buckets, excluded, all)
    ensures forall k :: 0 <= k < |nodes| ==> ValidId(nodes[k].contact.id)
  {
    nodes := [];
    for i := 0 to |buckets|
      invariant nodes == Candidates(buckets[..i], excluded, all)
      invariant forall k :: 0 <= k < |nodes| ==> ValidId(nodes[k].contact.id)
    {
      var found := Collect(buckets[i].live, excluded, all);
      assert buckets[..i + 1][..i] == buckets[..i];
      nodes := nodes + found;
    }
    assert buckets[..|buckets|] == buckets;
  }

  /** The first of the buckets that have been stale for longest. */
  method Stalest(buckets: seq<Bucket>, now: int64) returns (oldest: Option<nat>)
    ensures oldest == None <==> forall k :: 0 <= k < |buckets| ==> !Stale(buckets[k], now)
    ensures oldest.Some? ==> oldest.value < |buckets| && Stale(buckets[oldest.value], now)
    ensures oldest.Some? ==> forall k :: 0 <= k < |buckets| && Stale(buckets[k], now)
                                         ==> buckets[oldest.value].lastActive <= buckets[k].lastActive
  {
    oldest := None;
    for i := 0 to |buckets|
      invariant oldest == None ==> forall k :: 0 <= k < i ==> !Stale(buckets[k], now)
      invariant oldest.Some? ==> oldest.value < i && Stale(buckets[oldest.value], now)
      invariant oldest.Some? ==> forall k :: 0 <= k < i && Stale(buckets[k], now)
                                             ==> buckets[oldest.value].lastActive <= buckets[k].lastActive
    {
      if Stale(buckets[i], now) && (oldest == None || buckets[i].lastActive < buckets[oldest.value].lastActive) {
        oldest := Some(i);
      }
    }
  }
}
