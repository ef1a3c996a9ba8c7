/** Saving a routing table and loading it again. */
module KadReload {

  import opened Base
  import opened ByteStrings
  import opened Endpoints
  import opened Reader
  import opened KadId
  import opened KadBuckets
  import opened KadNodes
  import opened KadRestore
  import opened KadRouting
  import opened KadState

  // ---------------------------------------------------------------------------
  // Whatever a payload holds, what is read from it can be saved without loss
  // ---------------------------------------------------------------------------

  predicate GoodNode(n: Node) {
    AddressOk(n.contact) && n.contact.udpKey == 0
  }

  predicate GoodNodes(nodes: seq<Node>) {
    |nodes| < 0x1_0000_0000 && forall n :: n in nodes ==> GoodNode(n)
  }

  predicate GoodBucket(b: Bucket) {
    GoodNodes(b.live) && GoodNodes(b.replacements)
  }

  predicate GoodEndpoint(e: Endpoint) {
    |e.host| < 0x1_0000 && e.cryptOptions == 0 && e.userHash == []
  }

  predicate ShortText(s: Bytes) {
    |s| < 0x1_0000
  }

  /** Savable, and nothing in it that saving would lose. */
  predicate GoodState(s: Snapshot) {
    && ValidId(s.selfId)
    && |s.observedAddresses| < 0x1_0000 && |s.routerNodes| < 0x1_0000
    && |s.routerContacts| < 0x1_0000 && |s.buckets| < 0x1_0000
    && (forall a :: a in s.observedAddresses ==> ShortText(a))
    && (forall e :: e in s.routerNodes ==> GoodEndpoint(e))
    && (forall c :: c in s.routerContacts ==> AddressOk(c))
    && (forall b :: b in s.buckets ==> GoodBucket(b))
  }

  lemma GoodIsKept(s: Snapshot)
    requires GoodState(s)
    ensures StateOk(s) && KeptState(VERSION, s) == s
  {
    forall b | b in s.buckets ensures KeptBucket(b) == b && BucketOk(b) {
      KeptSame(b.live, KeptNode);
      KeptSame(b.replacements, KeptNode);
    }
    KeptSame(s.buckets, KeptBucket);
    KeptSame(s.routerNodes, KeptEndpoint);
  }

  lemma AddressProduces(p: Bytes, o: nat)
    ensures ReadAddress(p, o).Got? ==> AddressOk(ReadAddress(p, o).value) && ReadAddress(p, o).value.udpKey == 0
  {
  }

  lemma NodeProduces()
    ensures Produces(NodePart(), BLANK_NODE, GoodNode)
  {
    var part := NodePart();
    HistoryYields();
    forall p: Bytes, o: nat | part.read(p, o, BLANK_NODE).Got? ensures GoodNode(part.read(p, o, BLANK_NODE).value) {
      AddressProduces(p, o);
      FirstYields(NodeAddress(), NodeHistory(), BLANK_NODE, GoodNode, p, o);
    }
  }

  lemma HistoryYields()
    ensures Yields(NodeHistory(), GoodNode)
  {
  }

  lemma ContactProduces(version: uint32)
    ensures Produces(ContactPart(version), BLANK_CONTACT, AddressOk)
  {
  }

  lemma EndpointProduces()
    ensures Produces(EndpointPart(), BLANK_ENDPOINT, GoodEndpoint)
  {
  }

  lemma TextProduces()
    ensures Produces(TextPart(), [], ShortText)
  {
  }

  lemma BucketProduces()
    ensures Produces(BucketPart(), EMPTY, GoodBucket)
  {
    NodeProduces();
    Widths();
    ListPartYields(4, NodePart(), BLANK_NODE, Live, WithLive, GoodNode, GoodBucket);
    ListPartYields(4, NodePart(), BLANK_NODE, Replacements, WithReplacements, GoodNode, GoodBucket);
    ActivityYields();
    ThenYields(LivePart(), ReplacementsPart(), GoodBucket);
    ThenYields(BucketActivity(), Then(LivePart(), ReplacementsPart()), GoodBucket);
    YieldsProduces(BucketPart(), EMPTY, GoodBucket);
  }

  lemma YieldsProduces<T(!new)>(a: Part<T>, blank: T, good: T -> bool)
    requires Yields(a, good) && good(blank)
    ensures Produces(a, blank, good)
  {
  }

  lemma ActivityYields()
    ensures Yields(BucketActivity(), GoodBucket)
  {
  }

  lemma FieldsYield()
    ensures Yields(ChecksPart(), GoodState) && Yields(SearchPart(), GoodState)
    ensures Yields(KeyPart(), GoodState) && Yields(FirewalledPart(), GoodState)
  {
  }

  lemma SinceYields(version: uint32, first: uint32, part: Part<Snapshot>)
    requires Yields(part, GoodState)
    ensures Yields(Since(version, first, part), GoodState)
  {
  }

  lemma ExtrasYield(version: uint32)
    ensures Yields(ExtrasPart(version), GoodState)
  {
    FieldsYield();
    TextProduces();
    Widths();
    ListPartYields(2, TextPart(), [], Observed, WithObserved, ShortText, GoodState);
    var search, key := Since(version, 3, SearchPart()), Since(version, 6, KeyPart());
    var last := Then(FirewalledPart(), ObservedPart());
    SinceYields(version, 3, SearchPart());
    SinceYields(version, 6, KeyPart());
    ThenYields(FirewalledPart(), ObservedPart(), GoodState);
    ThenYields(key, last, GoodState);
    ThenYields(search, Then(key, last), GoodState);
    ThenYields(ChecksPart(), Then(search, Then(key, last)), GoodState);
  }

  lemma ListsYield(version: uint32)
    ensures Yields(ListsPart(version), GoodState)
  {
    Widths();
    EndpointProduces();
    ContactProduces(version);
    BucketProduces();
    ListPartYields(2, EndpointPart(), BLANK_ENDPOINT, Routers, WithRouters, GoodEndpoint, GoodState);
    ListPartYields(2, ContactPart(version), BLANK_CONTACT, RouterContacts, WithRouterContacts, AddressOk, GoodState);
    ListPartYields(2, BucketPart(), EMPTY, Buckets, WithBuckets, GoodBucket, GoodState);
    var contacts := Since(version, 4, RouterContactsPart(version));
    SinceYields(version, 4, RouterContactsPart(version));
    ThenYields(contacts, BucketsPart(), GoodState);
    ThenYields(RoutersPart(), Then(contacts, BucketsPart()), GoodState);
  }

  lemma TimesProduce(p: Bytes, o: nat)
    ensures ReadTimes(p, o, BLANK).Got? ==> GoodState(ReadTimes(p, o, BLANK).value)
  {
  }

  lemma BodyProduces(version: uint32, p: Bytes, o: nat)
    ensures var r := BodyPart(version).read(p, o, BLANK); r.Got? ==> GoodState(r.value)
  {
    var extras := Since(version, 2, ExtrasPart(version));
    ExtrasYield(version);
    SinceYields(version, 2, ExtrasPart(version));
    ListsYield(version);
    ThenYields(extras, ListsPart(version), GoodState);
    TimesProduce(p, o);
    FirstYields(TimesPart(), Then(extras, ListsPart(version)), BLANK, GoodState, p, o);
  }

  /** Any payload that is accepted, of any version, can be saved, and saving and loading it changes nothing. */
  lemma LoadedIsStable(p: Bytes)
    requires Parse(p).Some?
    ensures var s := Parse(p).value; StateOk(s) && Parse(EncodeAs(VERSION, s)) == Some(s)
  {
    var o := |MAGIC|;
    var version := ReadUInt32(p, o).value;
    BodyProduces(version, p, ReadUInt32(p, o).next);
    GoodIsKept(Parse(p).value);
    RoundTrip(VERSION, Parse(p).value);
  }

  // ---------------------------------------------------------------------------
  // Saving
  // ---------------------------------------------------------------------------

  predicate HostOk(e: Endpoint) {
    |e.host| < 0x1_0000
  }

  predicate NodeOk(n: Node) {
    AddressOk(n.contact)
  }

  method AppendNodes(payload: Bytes, nodes: seq<Node>) returns (r: Option<Bytes>)
    ensures r == if NodesOk(nodes) then Some(payload + WriteList(4, NodePart(), nodes)) else None
  {
    if |nodes| > 0xffff_ffff {
      return None;
    }
    r := AppendAll(payload + PackLE(|nodes|, 4), nodes, NodeOk, NodePart().write);
    assert payload + PackLE(|nodes|, 4) + WriteMany(nodes, NodePart().write)
        == payload + WriteList(4, NodePart(), nodes);
  }

  method AppendBucket(payload: Bytes, b: Bucket) returns (r: Option<Bytes>)
    ensures r == if BucketOk(b) then Some(payload + BucketPart().write(b)) else None
  {
    ThenWrites(payload, BucketActivity(), Then(LivePart(), ReplacementsPart()), b);
    ThenWrites(payload + BucketActivity().write(b), LivePart(), ReplacementsPart(), b);
    ListWrites(4, NodePart(), BLANK_NODE, Live, WithLive, b);
    ListWrites(4, NodePart(), BLANK_NODE, Replacements, WithReplacements, b);
    r := AppendNodes(payload + WriteInt64(b.lastActive), b.live);
    if r.Some? {
      r := AppendNodes(r.value, b.replacements);
    }
  }

  method AppendBuckets(payload: Bytes, buckets: seq<Bucket>) returns (r: Option<Bytes>)
    ensures r == if (forall b :: b in buckets ==> BucketOk(b))
                 then Some(payload + WriteMany(buckets, BucketPart().write))
                 else None
  {
    var out := payload;
    for i := 0 to |buckets|
      invariant forall k :: 0 <= k < i ==> BucketOk(buckets[k])
      invariant out + WriteMany(buckets[i..], BucketPart().write) == payload + WriteMany(buckets, BucketPart().write)
    {
      var next := AppendBucket(out, buckets[i]);
      if next == None {
        return None;
      }
      WriteStep(out, buckets[i..], BucketPart().write);
      out := next.value;
      assert buckets[i..][1..] == buckets[i + 1..];
    }
    assert out + [] == out;
    return Some(out);
  }

  method AppendExtras(payload: Bytes, s: Snapshot) returns (r: Option<Bytes>)
    requires |s.observedAddresses| < 0x1_0000
    ensures r == if (forall a :: a in s.observedAddresses ==> ShortText(a))
                 then Some(payload + ExtrasPart(VERSION).write(s)) else None
  {
    var last := Then(FirewalledPart(), ObservedPart());
    ThenWrites(payload, ChecksPart(), Then(SearchPart(), Then(KeyPart(), last)), s);
    var out := payload + WriteChecks(s);
    ThenWrites(out, SearchPart(), Then(KeyPart(), last), s);
    out := out + WriteSearch(s);
    ThenWrites(out, KeyPart(), last, s);
    out := out + PackLE(s.udpVerifyKey, 4);
    ThenWrites(out, FirewalledPart(), ObservedPart(), s);
    out := out + WriteBool(s.firewalled);
    ListWrites(2, TextPart(), [], Observed, WithObserved, s);
    r := AppendAll(out + PackLE(|s.observedAddresses|, 2), s.observedAddresses, ShortText, WriteString);
    assert out + PackLE(|s.observedAddresses|, 2) + WriteMany(s.observedAddresses, WriteString)
        == out + WriteList(2, TextPart(), s.observedAddresses);
  }

  method AppendLists(payload: Bytes, s: Snapshot) returns (r: Option<Bytes>)
    requires |s.routerNodes| < 0x1_0000 && |s.routerContacts| < 0x1_0000 && |s.buckets| < 0x1_0000
    ensures r == if (forall e :: e in s.routerNodes ==> HostOk(e))
                    && (forall c :: c in s.routerContacts ==> AddressOk(c))
                    && (forall b :: b in s.buckets ==> BucketOk(b))
                 then Some(payload + ListsPart(VERSION).write(s)) else None
  {
    var contacts := RouterContactsPart(VERSION);
    ThenWrites(payload, RoutersPart(), Then(contacts, BucketsPart()), s);
    ListWrites(2, EndpointPart(), BLANK_ENDPOINT, Routers, WithRouters, s);
    r := AppendAll(payload + PackLE(|s.routerNodes|, 2), s.routerNodes, HostOk, WriteEndpoint);
    if r == None {
      return;
    }
    var out := r.value;
    assert out == payload + RoutersPart().write(s);
    ThenWrites(out, contacts, BucketsPart(), s);
    ListWrites(2, ContactPart(VERSION), BLANK_CONTACT, RouterContacts, WithRouterContacts, s);
    r := AppendAll(out + PackLE(|s.routerContacts|, 2), s.routerContacts, AddressOk, ContactPart(VERSION).write);
    if r == None {
      return;
    }
    assert r.value == out + contacts.write(s);
    out := r.value;
    ListWrites(2, BucketPart(), EMPTY, Buckets, WithBuckets, s);
    r := AppendBuckets(out + PackLE(|s.buckets|, 2), s.buckets);
    assert r.Some? ==> r.value == out + BucketsPart().write(s);
  }

  /** The payload of a state; None where the source refuses to write it. */
  method Create(s: Snapshot) returns (r: Option<Bytes>)
    ensures r == if StateOk(s) then Some(EncodeAs(VERSION, s)) else None
  {
    if !ValidId(s.selfId) || |s.buckets| > 0xffff || |s.routerNodes| > 0xffff || |s.routerContacts| > 0xffff
       || |s.observedAddresses| > 0xffff {
      return None;
    }
    Regrouped(MAGIC, PackLE(VERSION, 4), BodyPart(VERSION).write(s));
    r := AppendBody(MAGIC + PackLE(VERSION, 4), s);
  }

  lemma Regrouped(a: Bytes, b: Bytes, c: Bytes)
    ensures a + (b + c) == a + b + c
  {
  }

  method AppendBody(payload: Bytes, s: Snapshot) returns (r: Option<Bytes>)
    requires ValidId(s.selfId) && |s.observedAddresses| < 0x1_0000
    requires |s.routerNodes| < 0x1_0000 && |s.routerContacts| < 0x1_0000 && |s.buckets| < 0x1_0000
    ensures r == if StateOk(s) then Some(payload + BodyPart(VERSION).write(s)) else None
  {
    ThenWrites(payload, TimesPart(), Then(ExtrasPart(VERSION), ListsPart(VERSION)), s);
    var out := payload + WriteTimes(s);
    ThenWrites(out, ExtrasPart(VERSION), ListsPart(VERSION), s);
    r := AppendExtras(out, s);
    if r.Some? {
      r := AppendLists(r.value, s);
    }
  }

  // ---------------------------------------------------------------------------
  // A table saved and loaded
  // ---------------------------------------------------------------------------

  /** What a saved table holds: the table's own snapshot and what the node knows beside it. */
  function Saved(table: Snapshot, key: uint32, firewalled: bool, observed: seq<Bytes>): Snapshot {
    table.(udpVerifyKey := key, firewalled := firewalled, observedAddresses := observed)
  }

  lemma KeptInPlace(b: Bucket, home: Home, i: nat, size: nat)
    requires Placed(b, home, i) && Fits(b, size)
    ensures Placed(KeptBucket(b), home, i) && Fits(KeptBucket(b), size)
  {
  }

  const DEFAULT_SIZE: nat := 10

  lemma KeptReturns(buckets: seq<Bucket>, home: Home)
    requires |buckets| == BUCKET_COUNT
    requires forall i :: 0 <= i < BUCKET_COUNT ==> Placed(buckets[i], home, i) && Fits(buckets[i], DEFAULT_SIZE)
    ensures forall i :: 0 <= i < BUCKET_COUNT ==>
              PlaceAll(DEFAULT_SIZE, home, Entries(Kept(buckets, KeptBucket)))[i] == Remembered(KeptBucket(buckets[i]))
  {
    var kept := Kept(buckets, KeptBucket);
    forall i | 0 <= i < BUCKET_COUNT ensures Placed(kept[i], home, i) && Fits(kept[i], DEFAULT_SIZE) {
      KeptInPlace(buckets[i], home, i, DEFAULT_SIZE);
    }
    RestoreOwn(DEFAULT_SIZE, home, kept);
  }

  method Load(p: Bytes) returns (t: KadRoutingTable?)
    ensures t != null <==> Parse(p).Some?
    ensures t != null ==> fresh(t) && t.Valid() && t.bucketSize == DEFAULT_SIZE
    ensures t != null ==>
            var s := Parse(p).value;
            && t.selfId == s.selfId && t.buckets == PlaceAll(DEFAULT_SIZE, t.home, Entries(s.buckets))
            && t.routerNodes == s.routerNodes && t.routerContacts == s.routerContacts
            && t.lastBootstrap == s.lastBootstrap && t.lastRefresh == s.lastRefresh
            && t.lastSelfRefresh == s.lastSelfRefresh
  {
    var s := Parse(p);
    if s == None {
      return null;
    }
    LoadedIsStable(p);
    t := new KadRoutingTable(s.value.selfId, 0);
    var ok := t.Restore(s.value);
  }

  /** A table comes back from disk as it was, less node keys and the activity of empty buckets. */
  method SaveAndLoad(t: KadRoutingTable, key: uint32, firewalled: bool, observed: seq<Bytes>)
    returns (payload: Option<Bytes>, loaded: KadRoutingTable?)
    requires t.Valid() && t.bucketSize == DEFAULT_SIZE
    ensures payload.Some? <==> StateOk(Saved(t.Snapshotted(), key, firewalled, observed))
    ensures payload.Some? <==> loaded != null
    ensures loaded != null ==>
            && loaded.Valid() && loaded.selfId == t.selfId
            && (forall i :: 0 <= i < BUCKET_COUNT ==> loaded.buckets[i] == Remembered(KeptBucket(t.buckets[i])))
            && loaded.routerNodes == Kept(t.routerNodes, KeptEndpoint) && loaded.routerContacts == t.routerContacts
            && loaded.lastBootstrap == t.lastBootstrap && loaded.lastRefresh == t.lastRefresh
            && loaded.lastSelfRefresh == t.lastSelfRefresh
  {
    var s := Saved(t.Snapshotted(), key, firewalled, observed);
    payload := Create(s);
    if payload == None {
      return None, null;
    }
    RoundTrip(VERSION, s);
    loaded := Load(payload.value);
    KeptReturns(t.buckets, t.home);
  }
}
