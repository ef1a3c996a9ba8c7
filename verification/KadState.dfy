/** The saved form of a routing table: writing it, reading it back in every version, and what is lost. */
module KadState {

  import opened Base
  import opened ByteStrings
  import opened Endpoints
  import opened Reader
  import opened KadId
  import opened KadLookup
  import opened KadNodes
  import opened KadRouting

  /** The bytes of the text A2ED2KKAD. */
  const MAGIC: Bytes := [65, 50, 69, 68, 50, 75, 75, 65, 68]
  const VERSION: uint32 := 6

  predicate Readable(version: uint32) {
    version == 1 || 3 <= version <= VERSION
  }

  // ---------------------------------------------------------------------------
  // Addresses, nodes, contacts and endpoints
  // ---------------------------------------------------------------------------

  /** What a node and a router contact have in common, in the order both are written. */
  function WriteAddress(c: Contact): Bytes {
    c.id + (WriteString(c.host) + (PackLE(c.udpPort, 2) + (PackLE(c.tcpPort, 2) + [c.version])))
  }

  function ReadAddress(p: Bytes, o: nat): Read<Contact> {
    match Take(p, o, HASH_LENGTH) case Cut => Cut case Got(id, o1) =>
    match ReadString(p, o1) case Cut => Cut case Got(host, o2) =>
    match ReadUInt16(p, o2) case Cut => Cut case Got(udpPort, o3) =>
    match ReadUInt16(p, o3) case Cut => Cut case Got(tcpPort, o4) =>
    match ReadByte(p, o4) case Cut => Cut case Got(version, o5) =>
    Got(Contact(id, host, udpPort, tcpPort, version, 0), o5)
  }

  predicate AddressOk(c: Contact) {
    ValidId(c.id) && |c.host| < 0x1_0000
  }

  lemma AddressAt(p: Bytes, o: nat, c: Contact)
    requires AddressOk(c) && At(p, o, WriteAddress(c))
    ensures ReadAddress(p, o) == Got(c.(udpKey := 0), o + |WriteAddress(c)|)
  {
    var w4 := [c.version];
    var w3 := PackLE(c.tcpPort, 2) + w4;
    var w2 := PackLE(c.udpPort, 2) + w3;
    var w1 := WriteString(c.host) + w2;
    AtSplit(p, o, c.id, w1);
    var o1 := o + HASH_LENGTH;
    AtSplit(p, o1, WriteString(c.host), w2);
    var o2 := o1 + 2 + |c.host|;
    AtSplit(p, o2, PackLE(c.udpPort, 2), w3);
    AtSplit(p, o2 + 2, PackLE(c.tcpPort, 2), w4);
    TakeAt(p, o, c.id);
    StringAt(p, o1, c.host);
    UInt16At(p, o2, c.udpPort);
    UInt16At(p, o2 + 2, c.tcpPort);
    ByteAt(p, o2 + 4, c.version);
  }

  function WriteHistory(n: Node): Bytes {
    WriteBool(n.confirmed) + (WriteBool(n.seed) + (PackLE(n.failCount, 4) +
      (WriteInt64(n.firstSeen) + WriteInt64(n.lastSeen))))
  }

  function ReadHistory(p: Bytes, o: nat, r: Node): Read<Node> {
    match ReadBool(p, o) case Cut => Cut case Got(confirmed, o1) =>
    match ReadBool(p, o1) case Cut => Cut case Got(seed, o2) =>
    match ReadUInt32(p, o2) case Cut => Cut case Got(failCount, o3) =>
    match ReadInt64(p, o3) case Cut => Cut case Got(firstSeen, o4) =>
    match ReadInt64(p, o4) case Cut => Cut case Got(lastSeen, o5) =>
    Got(Node(r.contact, confirmed, seed, failCount, firstSeen, lastSeen), o5)
  }

  lemma HistoryAt(p: Bytes, o: nat, n: Node, r: Node)
    requires At(p, o, WriteHistory(n))
    ensures ReadHistory(p, o, r) == Got(n.(contact := r.contact), o + |WriteHistory(n)|)
  {
    var w3 := WriteInt64(n.firstSeen) + WriteInt64(n.lastSeen);
    var w2 := PackLE(n.failCount, 4) + w3;
    var w1 := WriteBool(n.seed) + w2;
    AtSplit(p, o, WriteBool(n.confirmed), w1);
    BoolAt(p, o, n.confirmed);
    AtSplit(p, o + 1, WriteBool(n.seed), w2);
    BoolAt(p, o + 1, n.seed);
    AtSplit(p, o + 2, PackLE(n.failCount, 4), w3);
    UInt32At(p, o + 2, n.failCount);
    AtSplit(p, o + 6, WriteInt64(n.firstSeen), WriteInt64(n.lastSeen));
    Int64At(p, o + 6, n.firstSeen);
    Int64At(p, o + 14, n.lastSeen);
  }

  const BLANK_CONTACT: Contact := Contact([], [], 0, 0, 0, 0)
  const BLANK_NODE: Node := Node(BLANK_CONTACT, false, false, 0, 0, 0)

  function NodeAddress(): Part<Node> {
    Part((n: Node) => WriteAddress(n.contact),
         (p: Bytes, o: nat, r: Node) =>
           match ReadAddress(p, o) case Cut => Cut case Got(c, o1) => Got(r.(contact := c), o1),
         (n: Node, r: Node) => r.(contact := n.contact.(udpKey := 0)))
  }

  function NodeHistory(): Part<Node> {
    Part(WriteHistory, ReadHistory, (n: Node, r: Node) => n.(contact := r.contact))
  }

  /** A node of the table. Its key is not saved. */
  function NodePart(): Part<Node> {
    Then(NodeAddress(), NodeHistory())
  }

  lemma NodeAddressRestores(n: Node)
    requires AddressOk(n.contact)
    ensures Restores(NodeAddress(), n)
  {
    var address := NodeAddress();
    forall p: Bytes, o: nat, r: Node | At(p, o, address.write(n))
      ensures address.read(p, o, r) == Got(address.keep(n, r), o + |address.write(n)|)
    {
      AddressAt(p, o, n.contact);
    }
  }

  lemma NodeHistoryRestores(n: Node)
    ensures Restores(NodeHistory(), n)
  {
    var history := NodeHistory();
    forall p: Bytes, o: nat, r: Node | At(p, o, history.write(n))
      ensures history.read(p, o, r) == Got(history.keep(n, r), o + |history.write(n)|)
    {
      HistoryAt(p, o, n, r);
    }
  }

  lemma NodeRestores(n: Node)
    requires AddressOk(n.contact)
    ensures Restores(NodePart(), n)
  {
    NodeAddressRestores(n);
    NodeHistoryRestores(n);
    ThenRestores(NodeAddress(), NodeHistory(), n);
  }

  function ContactAddress(): Part<Contact> {
    Part(WriteAddress,
         (p: Bytes, o: nat, r: Contact) =>
           match ReadAddress(p, o) case Cut => Cut case Got(c, o1) => Got(c.(udpKey := r.udpKey), o1),
         (c: Contact, r: Contact) => c.(udpKey := r.udpKey))
  }

  function ContactKey(): Part<Contact> {
    Part((c: Contact) => PackLE(c.udpKey, 4),
         (p: Bytes, o: nat, r: Contact) =>
           match ReadUInt32(p, o) case Cut => Cut case Got(key, o1) => Got(r.(udpKey := key), o1),
         (c: Contact, r: Contact) => r.(udpKey := c.udpKey))
  }

  /** A contact that introduces us to the network. Its key came with version 5. */
  function ContactPart(version: uint32): Part<Contact> {
    if version >= 5 then Then(ContactAddress(), ContactKey()) else ContactAddress()
  }

  lemma ContactRestores(version: uint32, c: Contact)
    requires AddressOk(c)
    ensures Restores(ContactPart(version), c)
  {
    var address, key := ContactAddress(), ContactKey();
    forall p: Bytes, o: nat, r: Contact | At(p, o, address.write(c))
      ensures address.read(p, o, r) == Got(address.keep(c, r), o + |address.write(c)|)
    {
      AddressAt(p, o, c);
    }
    forall p: Bytes, o: nat, r: Contact | At(p, o, key.write(c))
      ensures key.read(p, o, r) == Got(key.keep(c, r), o + |key.write(c)|)
    {
      UInt32At(p, o, c.udpKey);
    }
    ThenRestores(address, key, c);
  }

  function WriteEndpoint(e: Endpoint): Bytes {
    WriteString(e.host) + PackLE(e.port, 2)
  }

  function ReadEndpoint(p: Bytes, o: nat, r: Endpoint): Read<Endpoint> {
    match ReadString(p, o) case Cut => Cut case Got(host, o1) =>
    match ReadUInt16(p, o1) case Cut => Cut case Got(port, o2) =>
    Got(r.(host := host, port := port), o2)
  }

  const BLANK_ENDPOINT: Endpoint := Endpoint([], 0, 0, [])

  /** Host and port; what else an endpoint knows is not saved. */
  function EndpointPart(): Part<Endpoint> {
    Part(WriteEndpoint, ReadEndpoint, (e: Endpoint, r: Endpoint) => r.(host := e.host, port := e.port))
  }

  lemma EndpointRestores(e: Endpoint)
    requires |e.host| < 0x1_0000
    ensures Restores(EndpointPart(), e)
  {
    forall p: Bytes, o: nat, r: Endpoint | At(p, o, WriteEndpoint(e))
      ensures ReadEndpoint(p, o, r) == Got(r.(host := e.host, port := e.port), o + |WriteEndpoint(e)|)
    {
      AtSplit(p, o, WriteString(e.host), PackLE(e.port, 2));
      StringAt(p, o, e.host);
      UInt16At(p, o + 2 + |e.host|, e.port);
    }
  }

  function TextPart(): Part<Bytes> {
    Part(WriteString, (p: Bytes, o: nat, r: Bytes) => ReadString(p, o), (s: Bytes, r: Bytes) => s)
  }

  lemma TextRestores(s: Bytes)
    requires |s| < 0x1_0000
    ensures Restores(TextPart(), s)
  {
    var part := TextPart();
    forall p: Bytes, o: nat, r: Bytes | At(p, o, part.write(s))
      ensures part.read(p, o, r) == Got(part.keep(s, r), o + |part.write(s)|)
    {
      StringAt(p, o, s);
    }
  }

  // ---------------------------------------------------------------------------
  // Buckets
  // ---------------------------------------------------------------------------

  function BucketActivity(): Part<Bucket> {
    Part((b: Bucket) => WriteInt64(b.lastActive),
         (p: Bytes, o: nat, r: Bucket) =>
           match ReadInt64(p, o) case Cut => Cut case Got(t, o1) => Got(r.(lastActive := t), o1),
         (b: Bucket, r: Bucket) => r.(lastActive := b.lastActive))
  }

  function Live(b: Bucket): seq<Node> {
    b.live
  }

  function WithLive(b: Bucket, nodes: seq<Node>): Bucket {
    b.(live := nodes)
  }

  function Replacements(b: Bucket): seq<Node> {
    b.replacements
  }

  function WithReplacements(b: Bucket, nodes: seq<Node>): Bucket {
    b.(replacements := nodes)
  }

  function LivePart(): Part<Bucket> {
    ListPart(4, NodePart(), BLANK_NODE, Live, WithLive)
  }

  function ReplacementsPart(): Part<Bucket> {
    ListPart(4, NodePart(), BLANK_NODE, Replacements, WithReplacements)
  }

  function BucketPart(): Part<Bucket> {
    Then(BucketActivity(), Then(LivePart(), ReplacementsPart()))
  }

  ghost predicate NodesOk(nodes: seq<Node>) {
    |nodes| < 0x1_0000_0000 && forall n :: n in nodes ==> AddressOk(n.contact)
  }

  ghost predicate BucketOk(b: Bucket) {
    NodesOk(b.live) && NodesOk(b.replacements)
  }

  lemma NodesRestore(nodes: seq<Node>)
    requires NodesOk(nodes)
    ensures |nodes| < Power256(4) && forall n :: n in nodes ==> Restores(NodePart(), n)
  {
    Widths();
    forall n | n in nodes ensures Restores(NodePart(), n) {
      NodeRestores(n);
    }
  }

  lemma ActivityRestores(b: Bucket)
    ensures Restores(BucketActivity(), b)
  {
    var part := BucketActivity();
    forall p: Bytes, o: nat, r: Bucket | At(p, o, part.write(b))
      ensures part.read(p, o, r) == Got(part.keep(b, r), o + |part.write(b)|)
    {
      Int64At(p, o, b.lastActive);
    }
  }

  lemma BucketRestores(b: Bucket)
    requires BucketOk(b)
    ensures Restores(BucketPart(), b)
  {
    NodesRestore(b.live);
    NodesRestore(b.replacements);
    ListPartRestores(4, NodePart(), BLANK_NODE, Live, WithLive, b);
    ListPartRestores(4, NodePart(), BLANK_NODE, Replacements, WithReplacements, b);
    ActivityRestores(b);
    ThenRestores(LivePart(), ReplacementsPart(), b);
    ThenRestores(BucketActivity(), Then(LivePart(), ReplacementsPart()), b);
  }

  // ---------------------------------------------------------------------------
  // The whole state
  // ---------------------------------------------------------------------------

  const BLANK: Snapshot := Snapshot([], [], [], [], 0, 0, 0, 0, 0, 0, 0, 0, [], true)

  function WriteTimes(s: Snapshot): Bytes {
    s.selfId + (WriteInt64(s.lastBootstrap) + (WriteInt64(s.lastRefresh) + WriteInt64(s.lastSelfRefresh)))
  }

  function ReadTimes(p: Bytes, o: nat, r: Snapshot): Read<Snapshot> {
    match Take(p, o, HASH_LENGTH) case Cut => Cut case Got(selfId, o1) =>
    match ReadInt64(p, o1) case Cut => Cut case Got(lastBootstrap, o2) =>
    match ReadInt64(p, o2) case Cut => Cut case Got(lastRefresh, o3) =>
    match ReadInt64(p, o3) case Cut => Cut case Got(lastSelfRefresh, o4) =>
    Got(r.(selfId := selfId, lastBootstrap := lastBootstrap, lastRefresh := lastRefresh,
           lastSelfRefresh := lastSelfRefresh), o4)
  }

  function TimesPart(): Part<Snapshot> {
    Part(WriteTimes, ReadTimes,
         (s: Snapshot, r: Snapshot) => r.(selfId := s.selfId, lastBootstrap := s.lastBootstrap,
                                          lastRefresh := s.lastRefresh, lastSelfRefresh := s.lastSelfRefresh))
  }

  function WriteChecks(s: Snapshot): Bytes {
    WriteInt64(s.lastFirewalledCheck) + WriteInt64(s.lastSourcePublish)
  }

  function ReadChecks(p: Bytes, o: nat, r: Snapshot): Read<Snapshot> {
    match ReadInt64(p, o) case Cut => Cut case Got(check, o1) =>
    match ReadInt64(p, o1) case Cut => Cut case Got(publish, o2) =>
    Got(r.(lastFirewalledCheck := check, lastSourcePublish := publish), o2)
  }

  function ChecksPart(): Part<Snapshot> {
    Part(WriteChecks, ReadChecks,
         (s: Snapshot, r: Snapshot) => r.(lastFirewalledCheck := s.lastFirewalledCheck,
                                          lastSourcePublish := s.lastSourcePublish))
  }

  function WriteSearch(s: Snapshot): Bytes {
    WriteInt64(s.lastSourceSearch) + PackLE(s.sourceSearchCount, 4)
  }

  function ReadSearch(p: Bytes, o: nat, r: Snapshot): Read<Snapshot> {
    match ReadInt64(p, o) case Cut => Cut case Got(time, o1) =>
    match ReadUInt32(p, o1) case Cut => Cut case Got(count, o2) =>
    Got(r.(lastSourceSearch := time, sourceSearchCount := count), o2)
  }

  function SearchPart(): Part<Snapshot> {
    Part(WriteSearch, ReadSearch,
         (s: Snapshot, r: Snapshot) => r.(lastSourceSearch := s.lastSourceSearch,
                                          sourceSearchCount := s.sourceSearchCount))
  }

  function KeyPart(): Part<Snapshot> {
    Part((s: Snapshot) => PackLE(s.udpVerifyKey, 4),
         (p: Bytes, o: nat, r: Snapshot) =>
           match ReadUInt32(p, o) case Cut => Cut case Got(key, o1) => Got(r.(udpVerifyKey := key), o1),
         (s: Snapshot, r: Snapshot) => r.(udpVerifyKey := s.udpVerifyKey))
  }

  function FirewalledPart(): Part<Snapshot> {
    Part((s: Snapshot) => WriteBool(s.firewalled),
         (p: Bytes, o: nat, r: Snapshot) =>
           match ReadBool(p, o) case Cut => Cut case Got(b, o1) => Got(r.(firewalled := b), o1),
         (s: Snapshot, r: Snapshot) => r.(firewalled := s.firewalled))
  }

  function Observed(s: Snapshot): seq<Bytes> {
    s.observedAddresses
  }

  function WithObserved(s: Snapshot, xs: seq<Bytes>): Snapshot {
    s.(observedAddresses := xs)
  }

  function ObservedPart(): Part<Snapshot> {
    ListPart(2, TextPart(), [], Observed, WithObserved)
  }

  function Routers(s: Snapshot): seq<Endpoint> {
    s.routerNodes
  }

  function WithRouters(s: Snapshot, xs: seq<Endpoint>): Snapshot {
    s.(routerNodes := xs)
  }

  function RoutersPart(): Part<Snapshot> {
    ListPart(2, EndpointPart(), BLANK_ENDPOINT, Routers, WithRouters)
  }

  function RouterContacts(s: Snapshot): seq<Contact> {
    s.routerContacts
  }

  function WithRouterContacts(s: Snapshot, xs: seq<Contact>): Snapshot {
    s.(routerContacts := xs)
  }

  function RouterContactsPart(version: uint32): Part<Snapshot> {
    ListPart(2, ContactPart(version), BLANK_CONTACT, RouterContacts, WithRouterContacts)
  }

  function Buckets(s: Snapshot): seq<Bucket> {
    s.buckets
  }

  function WithBuckets(s: Snapshot, xs: seq<Bucket>): Snapshot {
    s.(buckets := xs)
  }

  function BucketsPart(): Part<Snapshot> {
    ListPart(2, BucketPart(), EMPTY, Buckets, WithBuckets)
  }

  /** The part if this version has it. */
  function Since(version: uint32, first: uint32, part: Part<Snapshot>): Part<Snapshot> {
    if version >= first then part else Skip()
  }

  function ExtrasPart(version: uint32): Part<Snapshot> {
    Then(ChecksPart(), Then(Since(version, 3, SearchPart()), Then(Since(version, 6, KeyPart()),
      Then(FirewalledPart(), ObservedPart()))))
  }

  function ListsPart(version: uint32): Part<Snapshot> {
    Then(RoutersPart(), Then(Since(version, 4, RouterContactsPart(version)), BucketsPart()))
  }

  /** Everything after the version, in the order every version has it. */
  function BodyPart(version: uint32): Part<Snapshot> {
    Then(TimesPart(), Then(Since(version, 2, ExtrasPart(version)), ListsPart(version)))
  }

  /** The format as each version has it; only the current one is written. */
  function EncodeAs(version: uint32, s: Snapshot): Bytes {
    MAGIC + (PackLE(version, 4) + BodyPart(version).write(s))
  }

  /** The state in the payload; None when the payload is of another kind or version, cut short or too long. */
  function Parse(p: Bytes): Option<Snapshot> {
    match Take(p, 0, |MAGIC|) case Cut => None case Got(magic, o1) =>
    if magic != MAGIC then None else
    match ReadUInt32(p, o1) case Cut => None case Got(version, o2) =>
    if !Readable(version) then None else
    match BodyPart(version).read(p, o2, BLANK) case Cut => None case Got(s, end) =>
    if end != |p| then None else Some(s)
  }

  // ---------------------------------------------------------------------------
  // The state is read back
  // ---------------------------------------------------------------------------

  /** What the writer can write: ids of the right length, nothing too long to count. */
  ghost predicate StateOk(s: Snapshot) {
    && ValidId(s.selfId)
    && |s.observedAddresses| < 0x1_0000 && |s.routerNodes| < 0x1_0000
    && |s.routerContacts| < 0x1_0000 && |s.buckets| < 0x1_0000
    && (forall a :: a in s.observedAddresses ==> |a| < 0x1_0000)
    && (forall e :: e in s.routerNodes ==> |e.host| < 0x1_0000)
    && (forall c :: c in s.routerContacts ==> AddressOk(c))
    && (forall b :: b in s.buckets ==> BucketOk(b))
  }

  lemma TimesRestores(s: Snapshot)
    requires ValidId(s.selfId)
    ensures Restores(TimesPart(), s)
  {
    var part := TimesPart();
    forall p: Bytes, o: nat, r: Snapshot | At(p, o, part.write(s))
      ensures part.read(p, o, r) == Got(part.keep(s, r), o + |part.write(s)|)
    {
      var w2 := WriteInt64(s.lastRefresh) + WriteInt64(s.lastSelfRefresh);
      AtSplit(p, o, s.selfId, WriteInt64(s.lastBootstrap) + w2);
      TakeAt(p, o, s.selfId);
      AtSplit(p, o + 16, WriteInt64(s.lastBootstrap), w2);
      Int64At(p, o + 16, s.lastBootstrap);
      AtSplit(p, o + 24, WriteInt64(s.lastRefresh), WriteInt64(s.lastSelfRefresh));
      Int64At(p, o + 24, s.lastRefresh);
      Int64At(p, o + 32, s.lastSelfRefresh);
    }
  }

  lemma ChecksRestores(s: Snapshot)
    ensures Restores(ChecksPart(), s)
  {
    var part := ChecksPart();
    forall p: Bytes, o: nat, r: Snapshot | At(p, o, part.write(s))
      ensures part.read(p, o, r) == Got(part.keep(s, r), o + |part.write(s)|)
    {
      AtSplit(p, o, WriteInt64(s.lastFirewalledCheck), WriteInt64(s.lastSourcePublish));
      Int64At(p, o, s.lastFirewalledCheck);
      Int64At(p, o + 8, s.lastSourcePublish);
    }
  }

  lemma SearchRestores(s: Snapshot)
    ensures Restores(SearchPart(), s)
  {
    var part := SearchPart();
    forall p: Bytes, o: nat, r: Snapshot | At(p, o, part.write(s))
      ensures part.read(p, o, r) == Got(part.keep(s, r), o + |part.write(s)|)
    {
      AtSplit(p, o, WriteInt64(s.lastSourceSearch), PackLE(s.sourceSearchCount, 4));
      Int64At(p, o, s.lastSourceSearch);
      UInt32At(p, o + 8, s.sourceSearchCount);
    }
  }

  lemma KeyRestores(s: Snapshot)
    ensures Restores(KeyPart(), s)
  {
    var part := KeyPart();
    forall p: Bytes, o: nat, r: Snapshot | At(p, o, part.write(s))
      ensures part.read(p, o, r) == Got(part.keep(s, r), o + |part.write(s)|)
    {
      UInt32At(p, o, s.udpVerifyKey);
    }
  }

  lemma FirewalledRestores(s: Snapshot)
    ensures Restores(FirewalledPart(), s)
  {
  }

  lemma SinceRestores(version: uint32, first: uint32, part: Part<Snapshot>, s: Snapshot)
    requires Restores(part, s)
    ensures Restores(Since(version, first, part), s)
  {
  }

  lemma ObservedRestores(s: Snapshot)
    requires |s.observedAddresses| < 0x1_0000 && forall a :: a in s.observedAddresses ==> |a| < 0x1_0000
    ensures Restores(ObservedPart(), s)
  {
    Widths();
    forall a | a in s.observedAddresses ensures Restores(TextPart(), a) {
      TextRestores(a);
    }
    ListPartRestores(2, TextPart(), [], Observed, WithObserved, s);
  }

  lemma RoutersRestores(s: Snapshot)
    requires |s.routerNodes| < 0x1_0000 && forall e :: e in s.routerNodes ==> |e.host| < 0x1_0000
    ensures Restores(RoutersPart(), s)
  {
    Widths();
    forall e | e in s.routerNodes ensures Restores(EndpointPart(), e) {
      EndpointRestores(e);
    }
    ListPartRestores(2, EndpointPart(), BLANK_ENDPOINT, Routers, WithRouters, s);
  }

  lemma RouterContactsRestores(version: uint32, s: Snapshot)
    requires |s.routerContacts| < 0x1_0000 && forall c :: c in s.routerContacts ==> AddressOk(c)
    ensures Restores(RouterContactsPart(version), s)
  {
    Widths();
    forall c | c in s.routerContacts ensures Restores(ContactPart(version), c) {
      ContactRestores(version, c);
    }
    ListPartRestores(2, ContactPart(version), BLANK_CONTACT, RouterContacts, WithRouterContacts, s);
  }

  lemma BucketsRestores(s: Snapshot)
    requires |s.buckets| < 0x1_0000 && forall b :: b in s.buckets ==> BucketOk(b)
    ensures Restores(BucketsPart(), s)
  {
    Widths();
    forall b | b in s.buckets ensures Restores(BucketPart(), b) {
      BucketRestores(b);
    }
    ListPartRestores(2, BucketPart(), EMPTY, Buckets, WithBuckets, s);
  }

  lemma ExtrasRestores(version: uint32, s: Snapshot)
    requires StateOk(s)
    ensures Restores(ExtrasPart(version), s)
  {
    var search, key := Since(version, 3, SearchPart()), Since(version, 6, KeyPart());
    ChecksRestores(s);
    SearchRestores(s);
    SinceRestores(version, 3, SearchPart(), s);
    KeyRestores(s);
    SinceRestores(version, 6, KeyPart(), s);
    FirewalledRestores(s);
    ObservedRestores(s);
    var last := Then(FirewalledPart(), ObservedPart());
    ThenRestores(FirewalledPart(), ObservedPart(), s);
    ThenRestores(key, last, s);
    ThenRestores(search, Then(key, last), s);
    ThenRestores(ChecksPart(), Then(search, Then(key, last)), s);
  }

  lemma ListsRestores(version: uint32, s: Snapshot)
    requires StateOk(s)
    ensures Restores(ListsPart(version), s)
  {
    var contacts := Since(version, 4, RouterContactsPart(version));
    RoutersRestores(s);
    RouterContactsRestores(version, s);
    SinceRestores(version, 4, RouterContactsPart(version), s);
    BucketsRestores(s);
    ThenRestores(contacts, BucketsPart(), s);
    ThenRestores(RoutersPart(), Then(contacts, BucketsPart()), s);
  }

  lemma BodyRestores(version: uint32, s: Snapshot)
    requires StateOk(s)
    ensures Restores(BodyPart(version), s)
  {
    var extras := Since(version, 2, ExtrasPart(version));
    TimesRestores(s);
    ExtrasRestores(version, s);
    SinceRestores(version, 2, ExtrasPart(version), s);
    ListsRestores(version, s);
    ThenRestores(extras, ListsPart(version), s);
    ThenRestores(TimesPart(), Then(extras, ListsPart(version)), s);
  }

  // ---------------------------------------------------------------------------
  // What survives
  // ---------------------------------------------------------------------------

  function KeptNode(n: Node): Node {
    n.(contact := n.contact.(udpKey := 0))
  }

  function KeptBucket(b: Bucket): Bucket {
    Bucket(Kept(b.live, KeptNode), Kept(b.replacements, KeptNode), b.lastActive)
  }

  function KeptEndpoint(e: Endpoint): Endpoint {
    Endpoint(e.host, e.port, 0, [])
  }

  function WithoutKey(c: Contact): Contact {
    c.(udpKey := 0)
  }

  /** What is left of a state written as this version. */
  function KeptState(version: uint32, s: Snapshot): Snapshot {
    Snapshot(s.selfId, Kept(s.buckets, KeptBucket), Kept(s.routerNodes, KeptEndpoint),
             if version >= 5 then s.routerContacts else if version >= 4 then Kept(s.routerContacts, WithoutKey) else [],
             s.lastBootstrap, s.lastRefresh, s.lastSelfRefresh,
             if version >= 2 then s.lastFirewalledCheck else 0, if version >= 2 then s.lastSourcePublish else 0,
             if version >= 3 then s.lastSourceSearch else 0, if version >= 3 then s.sourceSearchCount else 0,
             if version >= 6 then s.udpVerifyKey else 0,
             if version >= 2 then s.observedAddresses else [], if version >= 2 then s.firewalled else true)
  }

  lemma SameKept<T>(xs: seq<T>, f: T -> T, g: T -> T)
    requires forall x :: x in xs ==> f(x) == g(x)
    ensures Kept(xs, f) == Kept(xs, g)
  {
  }

  lemma BucketKept(b: Bucket)
    ensures BucketPart().keep(b, EMPTY) == KeptBucket(b)
  {
    var keep := ItemKeeper(NodePart(), BLANK_NODE);
    forall n: Node ensures keep(n) == KeptNode(n) {
    }
    SameKept(b.live, keep, KeptNode);
    SameKept(b.replacements, keep, KeptNode);
    var r1 := BucketActivity().keep(b, EMPTY);
    ThenKeeps(BucketActivity(), Then(LivePart(), ReplacementsPart()), b, EMPTY);
    ThenKeeps(LivePart(), ReplacementsPart(), b, r1);
    ListKeeps(4, NodePart(), BLANK_NODE, Live, WithLive, b, r1);
    ListKeeps(4, NodePart(), BLANK_NODE, Replacements, WithReplacements, b, LivePart().keep(b, r1));
  }

  lemma ContactsKept(version: uint32, cs: seq<Contact>)
    ensures Kept(cs, ItemKeeper(ContactPart(version), BLANK_CONTACT))
            == if version >= 5 then cs else Kept(cs, WithoutKey)
  {
  }

  lemma ListsKept(version: uint32, s: Snapshot, r: Snapshot)
    requires r.routerContacts == []
    ensures ListsPart(version).keep(s, r) ==
            r.(buckets := Kept(s.buckets, KeptBucket), routerNodes := Kept(s.routerNodes, KeptEndpoint),
               routerContacts := if version >= 5 then s.routerContacts
                                 else if version >= 4 then Kept(s.routerContacts, WithoutKey) else [])
  {
    var buckets, routers := ItemKeeper(BucketPart(), EMPTY), ItemKeeper(EndpointPart(), BLANK_ENDPOINT);
    forall b: Bucket ensures buckets(b) == KeptBucket(b) {
      BucketKept(b);
    }
    forall e: Endpoint ensures routers(e) == KeptEndpoint(e) {
    }
    SameKept(s.buckets, buckets, KeptBucket);
    SameKept(s.routerNodes, routers, KeptEndpoint);
    ContactsKept(version, s.routerContacts);
    var contacts := Since(version, 4, RouterContactsPart(version));
    var r1 := RoutersPart().keep(s, r);
    ThenKeeps(RoutersPart(), Then(contacts, BucketsPart()), s, r);
    ThenKeeps(contacts, BucketsPart(), s, r1);
    ListKeeps(2, EndpointPart(), BLANK_ENDPOINT, Routers, WithRouters, s, r);
    ListKeeps(2, ContactPart(version), BLANK_CONTACT, RouterContacts, WithRouterContacts, s, r1);
    ListKeeps(2, BucketPart(), EMPTY, Buckets, WithBuckets, s, contacts.keep(s, r1));
  }

  lemma ExtrasKept(version: uint32, s: Snapshot, r: Snapshot)
    requires r.lastSourceSearch == 0 && r.sourceSearchCount == 0 && r.udpVerifyKey == 0
    ensures ExtrasPart(version).keep(s, r) ==
            r.(lastFirewalledCheck := s.lastFirewalledCheck, lastSourcePublish := s.lastSourcePublish,
               lastSourceSearch := if version >= 3 then s.lastSourceSearch else 0,
               sourceSearchCount := if version >= 3 then s.sourceSearchCount else 0,
               udpVerifyKey := if version >= 6 then s.udpVerifyKey else 0,
               firewalled := s.firewalled, observedAddresses := s.observedAddresses)
  {
    var texts := s.observedAddresses;
    assert Kept(texts, ItemKeeper(TextPart(), [])) == texts;
    var search, key := Since(version, 3, SearchPart()), Since(version, 6, KeyPart());
    var last := Then(FirewalledPart(), ObservedPart());
    var r1 := ChecksPart().keep(s, r);
    var r2 := search.keep(s, r1);
    var r3 := key.keep(s, r2);
    ThenKeeps(ChecksPart(), Then(search, Then(key, last)), s, r);
    ThenKeeps(search, Then(key, last), s, r1);
    ThenKeeps(key, last, s, r2);
    ThenKeeps(FirewalledPart(), ObservedPart(), s, r3);
    ListKeeps(2, TextPart(), [], Observed, WithObserved, s, FirewalledPart().keep(s, r3));
  }

  lemma StateKept(version: uint32, s: Snapshot)
    ensures BodyPart(version).keep(s, BLANK) == KeptState(version, s)
  {
    var r1 := TimesPart().keep(s, BLANK);
    ExtrasKept(version, s, r1);
    var r2 := if version >= 2 then ExtrasPart(version).keep(s, r1) else r1;
    ListsKept(version, s, r2);
  }

  /** Whatever version a state was written as, reading it gives the state, less what the version lacks. */
  lemma RoundTrip(version: uint32, s: Snapshot)
    requires StateOk(s) && Readable(version)
    ensures Parse(EncodeAs(version, s)) == Some(KeptState(version, s))
  {
    BodyRestores(version, s);
    StateKept(version, s);
    BodyReadBack(version, BodyPart(version), s);
  }

  lemma BodyReadBack(version: uint32, part: Part<Snapshot>, s: Snapshot)
    requires Restores(part, s)
    ensures var p := MAGIC + (PackLE(version, 4) + part.write(s)); var o := |MAGIC|;
            && Take(p, 0, o) == Got(MAGIC, o)
            && ReadUInt32(p, o) == Got(version, o + 4)
            && part.read(p, o + 4, BLANK) == Got(part.keep(s, BLANK), |p|)
  {
    var body := part.write(s);
    var p := MAGIC + (PackLE(version, 4) + body);
    assert At(p, 0, MAGIC + (PackLE(version, 4) + body));
    AtSplit(p, 0, MAGIC, PackLE(version, 4) + body);
    TakeAt(p, 0, MAGIC);
    AtSplit(p, |MAGIC|, PackLE(version, 4), body);
    UInt32At(p, |MAGIC|, version);
    assert part.read(p, |MAGIC| + 4, BLANK).Got?;
  }
}
