/** One bucket of the routing table: what hearing from a node or losing it does to its two lists. */
module KadNodes {

  import opened Base
  import opened ByteStrings
  import opened KadId
  import opened KadLookup

  datatype Node = Node(contact: Contact, confirmed: bool, seed: bool, failCount: uint32,
                       firstSeen: int64, lastSeen: int64)

  datatype Bucket = Bucket(live: seq<Node>, replacements: seq<Node>, lastActive: int64)

  const EMPTY: Bucket := Bucket([], [], 0)

  /** The bytes of the text 0.0.0.0. */
  const NO_HOST: Bytes := [48, 46, 48, 46, 48, 46, 48]

  /** Worth keeping: a full address, and no old node on the name service's port. */
  predicate Routable(c: Contact) {
    && ValidId(c.id) && c.host != [] && c.host != NO_HOST && c.udpPort != 0 && c.version > 1
    && (c.udpPort != 53 || c.version > 5)
  }

  /** The first node that is this contact. */
  function FirstNode(nodes: seq<Node>, c: Contact): (i: Option<nat>)
    ensures i == None ==> forall k :: 0 <= k < |nodes| ==> !SameContact(nodes[k].contact, c)
    ensures i.Some? ==> i.value < |nodes| && SameContact(nodes[i.value].contact, c)
                        && forall k :: 0 <= k < i.value ==> !SameContact(nodes[k].contact, c)
  {
    if nodes == [] then None
    else if SameContact(nodes[0].contact, c) then Some(0)
    else match FirstNode(nodes[1..], c)
      case None => None
      case Some(k) => Some(k + 1)
  }

  /** What is known after hearing from a node again; a key is never forgotten. */
  function Refreshed(n: Node, c: Contact, confirmed: bool, now: int64): Node {
    n.(contact := c.(udpKey := if c.udpKey == 0 then n.contact.udpKey else c.udpKey),
       lastSeen := now, firstSeen := if n.firstSeen == 0 then now else n.firstSeen,
       confirmed := n.confirmed || confirmed, failCount := if confirmed then 0 else n.failCount)
  }

  function Newcomer(c: Contact, confirmed: bool, now: int64): Node {
    Node(c, confirmed, false, 0, now, now)
  }

  function Without(nodes: seq<Node>, i: nat): seq<Node>
    requires i < |nodes|
  {
    nodes[..i] + nodes[i + 1..]
  }

  function AddTo(b: Bucket, size: nat, c: Contact, confirmed: bool, now: int64): Bucket
    requires size > 0
  {
    var live, replacement := FirstNode(b.live, c), FirstNode(b.replacements, c);
    if live.Some? then
      Bucket(Without(b.live, live.value) + [Refreshed(b.live[live.value], c, confirmed, now)], b.replacements, now)
    else if replacement.Some? then
      var i := replacement.value;
      var n := Refreshed(b.replacements[i], c, confirmed, now);
      if confirmed && |b.live| < size then Bucket(b.live + [n], Without(b.replacements, i), now)
      else Bucket(b.live, b.replacements[i := n], now)
    else
      var n := Newcomer(c, confirmed, now);
      if |b.live| < size then Bucket(b.live + [n], b.replacements, now)
      else Bucket(b.live, (if |b.replacements| == size then b.replacements[1..] else b.replacements) + [n], now)
  }

  /** Failures a node without a replacement survives. */
  const MAX_FAILURES: nat := 20

  function FailIn(b: Bucket, c: Contact): Bucket {
    var live, replacement := FirstNode(b.live, c), FirstNode(b.replacements, c);
    if live.Some? then
      var i := live.value;
      var failed := b.live[i].(failCount := (b.live[i].failCount + 1) % 0x1_0000_0000);
      if !b.live[i].confirmed then b.(live := Without(b.live, i))
      else if b.replacements != [] then
        b.(live := b.live[i := b.replacements[0]], replacements := b.replacements[1..])
      else if failed.failCount >= MAX_FAILURES then b.(live := Without(b.live, i))
      else b.(live := b.live[i := failed])
    else if replacement.Some? then b.(replacements := Without(b.replacements, replacement.value))
    else b
  }

  // ---------------------------------------------------------------------------
  // What a bucket keeps
  // ---------------------------------------------------------------------------

  ghost predicate Fits(b: Bucket, size: nat) {
    |b.live| <= size && |b.replacements| <= size
  }

  /** Every node of the bucket has an id with the property. */
  ghost predicate AllIds(b: Bucket, p: Bytes -> bool) {
    && (forall i :: 0 <= i < |b.live| ==> p(b.live[i].contact.id))
    && (forall i :: 0 <= i < |b.replacements| ==> p(b.replacements[i].contact.id))
  }

  lemma AddFits(b: Bucket, size: nat, c: Contact, confirmed: bool, now: int64)
    requires size > 0 && Fits(b, size)
    ensures Fits(AddTo(b, size, c, confirmed, now), size)
  {
  }

  lemma FailKeeps(b: Bucket, size: nat, c: Contact, p: Bytes -> bool)
    requires Fits(b, size) && AllIds(b, p)
    ensures Fits(FailIn(b, c), size) && AllIds(FailIn(b, c), p)
  {
  }

  // ---------------------------------------------------------------------------
  // Conservation
  // ---------------------------------------------------------------------------

  ghost function Mapped<T>(nodes: seq<Node>, f: Node -> T): (r: seq<T>)
    ensures |r| == |nodes| && forall i :: 0 <= i < |r| ==> r[i] == f(nodes[i])
  {
    seq(|nodes|, i requires 0 <= i < |nodes| => f(nodes[i]))
  }

  /** A view of all nodes of the bucket, live or not, with repetitions. */
  ghost function Bag<T>(b: Bucket, f: Node -> T): multiset<T> {
    multiset(Mapped(b.live, f)) + multiset(Mapped(b.replacements, f))
  }

  lemma MappedWithout<T>(nodes: seq<Node>, i: nat, f: Node -> T)
    requires i < |nodes|
    ensures multiset(Mapped(Without(nodes, i), f)) == multiset(Mapped(nodes, f)) - multiset{f(nodes[i])}
  {
    var m := Mapped(nodes, f);
    assert Mapped(Without(nodes, i), f) == m[..i] + m[i + 1..];
    assert m == m[..i] + [m[i]] + m[i + 1..];
  }

  lemma MappedAppend<T>(nodes: seq<Node>, n: Node, f: Node -> T)
    ensures multiset(Mapped(nodes + [n], f)) == multiset(Mapped(nodes, f)) + multiset{f(n)}
  {
    assert Mapped(nodes + [n], f) == Mapped(nodes, f) + [f(n)];
  }

  lemma MappedUpdate<T>(nodes: seq<Node>, i: nat, n: Node, f: Node -> T)
    requires i < |nodes|
    ensures multiset(Mapped(nodes[i := n], f)) == multiset(Mapped(nodes, f)) - multiset{f(nodes[i])} + multiset{f(n)}
  {
    assert Mapped(nodes[i := n], f) == Mapped(nodes, f)[i := f(n)];
  }

  /** The node an added contact is taken for: a live one before a replacement, the first of each. */
  function Match(b: Bucket, c: Contact): Option<Node> {
    var live, replacement := FirstNode(b.live, c), FirstNode(b.replacements, c);
    if live.Some? then Some(b.live[live.value])
    else if replacement.Some? then Some(b.replacements[replacement.value])
    else None
  }

  /** The node that makes room: the contact's own old record, or the oldest replacement of a full bucket. */
  function Leaves(b: Bucket, size: nat, c: Contact): Option<Node>
    requires size > 0
  {
    if Match(b, c).Some? then Match(b, c)
    else if |b.live| >= size && |b.replacements| == size then Some(b.replacements[0])
    else None
  }

  function Enters(b: Bucket, c: Contact, confirmed: bool, now: int64): Node {
    match Match(b, c)
    case Some(n) => Refreshed(n, c, confirmed, now)
    case None => Newcomer(c, confirmed, now)
  }

  ghost predicate Holds(b: Bucket, n: Node) {
    n in b.live || n in b.replacements
  }

  /** Every record afterwards was there before or is the one that entered. */
  lemma AddRecords(b: Bucket, size: nat, c: Contact, confirmed: bool, now: int64, n: Node)
    requires size > 0 && Holds(AddTo(b, size, c, confirmed, now), n)
    ensures Holds(b, n) || n == Enters(b, c, confirmed, now)
  {
  }

  lemma AddAllIds(b: Bucket, size: nat, c: Contact, confirmed: bool, now: int64, p: Bytes -> bool)
    requires size > 0 && AllIds(b, p) && p(c.id)
    ensures AllIds(AddTo(b, size, c, confirmed, now), p)
  {
    var r := AddTo(b, size, c, confirmed, now);
    forall n | Holds(r, n) ensures p(n.contact.id) {
      AddRecords(b, size, c, confirmed, now, n);
    }
  }

  ghost function Lone<T>(n: Option<Node>, f: Node -> T): multiset<T> {
    match n
    case Some(x) => multiset{f(x)}
    case None => multiset{}
  }

  lemma MemberInBag<T>(b: Bucket, i: nat, f: Node -> T)
    ensures i < |b.live| ==> f(b.live[i]) in multiset(Mapped(b.live, f))
    ensures i < |b.replacements| ==> f(b.replacements[i]) in multiset(Mapped(b.replacements, f))
  {
  }

  lemma LiveExchanges<T>(b: Bucket, i: nat, n: Node, now: int64, f: Node -> T)
    requires i < |b.live|
    ensures Bag(Bucket(Without(b.live, i) + [n], b.replacements, now), f)
         == Bag(b, f) - multiset{f(b.live[i])} + multiset{f(n)}
  {
    MappedWithout(b.live, i, f);
    MappedAppend(Without(b.live, i), n, f);
    MemberInBag(b, i, f);
  }

  lemma ReplacementExchanges<T>(b: Bucket, i: nat, n: Node, now: int64, f: Node -> T)
    requires i < |b.replacements|
    ensures Bag(Bucket(b.live + [n], Without(b.replacements, i), now), f)
         == Bag(b, f) - multiset{f(b.replacements[i])} + multiset{f(n)}
    ensures Bag(Bucket(b.live, b.replacements[i := n], now), f)
         == Bag(b, f) - multiset{f(b.replacements[i])} + multiset{f(n)}
    ensures Bag(Bucket(b.live, Without(b.replacements, i) + [n], now), f)
         == Bag(b, f) - multiset{f(b.replacements[i])} + multiset{f(n)}
  {
    MappedWithout(b.replacements, i, f);
    MappedAppend(b.live, n, f);
    MappedAppend(Without(b.replacements, i), n, f);
    MappedUpdate(b.replacements, i, n, f);
    MemberInBag(b, i, f);
  }

  lemma AppendExchanges<T>(b: Bucket, n: Node, now: int64, f: Node -> T)
    ensures Bag(Bucket(b.live + [n], b.replacements, now), f) == Bag(b, f) + multiset{f(n)}
    ensures Bag(Bucket(b.live, b.replacements + [n], now), f) == Bag(b, f) + multiset{f(n)}
  {
    MappedAppend(b.live, n, f);
    MappedAppend(b.replacements, n, f);
  }

  /** Adding exchanges exactly one record: nothing else enters, leaves or changes. */
  lemma AddExchanges<T>(b: Bucket, size: nat, c: Contact, confirmed: bool, now: int64, f: Node -> T)
    requires size > 0
    ensures Bag(AddTo(b, size, c, confirmed, now), f)
         == Bag(b, f) - Lone(Leaves(b, size, c), f) + multiset{f(Enters(b, c, confirmed, now))}
  {
    if Match(b, c).Some? {
      KnownExchanges(b, size, c, confirmed, now, f);
    } else {
      NewExchanges(b, size, c, confirmed, now, f);
    }
  }

  lemma KnownExchanges<T>(b: Bucket, size: nat, c: Contact, confirmed: bool, now: int64, f: Node -> T)
    requires size > 0 && Match(b, c).Some?
    ensures Bag(AddTo(b, size, c, confirmed, now), f)
         == Bag(b, f) - multiset{f(Match(b, c).value)} + multiset{f(Enters(b, c, confirmed, now))}
  {
    var live, replacement := FirstNode(b.live, c), FirstNode(b.replacements, c);
    var n := Enters(b, c, confirmed, now);
    if live.Some? {
      LiveExchanges(b, live.value, n, now, f);
    } else {
      ReplacementExchanges(b, replacement.value, n, now, f);
    }
  }

  lemma NewExchanges<T>(b: Bucket, size: nat, c: Contact, confirmed: bool, now: int64, f: Node -> T)
    requires size > 0 && Match(b, c) == None
    ensures Bag(AddTo(b, size, c, confirmed, now), f)
         == Bag(b, f) - Lone(Leaves(b, size, c), f) + multiset{f(Newcomer(c, confirmed, now))}
  {
    var n := Newcomer(c, confirmed, now);
    if |b.live| >= size && |b.replacements| == size {
      assert Without(b.replacements, 0) == b.replacements[1..];
      ReplacementExchanges(b, 0, n, now, f);
    } else {
      AppendExchanges(b, n, now, f);
    }
  }

  lemma LeavesInBag<T>(b: Bucket, size: nat, c: Contact, f: Node -> T)
    requires size > 0
    ensures Lone(Leaves(b, size, c), f) <= Bag(b, f)
  {
  }

  /** Nobody live is displaced by an arrival; a contact that answered goes live whenever there is room. */
  lemma AddKeepsLive(b: Bucket, size: nat, c: Contact, confirmed: bool, now: int64, n: Node)
    requires size > 0
    ensures var r := AddTo(b, size, c, confirmed, now);
            && (n in b.live && !SameContact(n.contact, c) ==> n in r.live)
            && (|b.live| < size && (confirmed || Match(b, c) == None) ==> Enters(b, c, confirmed, now) in r.live)
  {
    var live := FirstNode(b.live, c);
    if n in b.live && !SameContact(n.contact, c) && live.Some? {
      var i :| 0 <= i < |b.live| && b.live[i] == n;
      var k := live.value;
      var r := AddTo(b, size, c, confirmed, now).live;
      assert r[if i < k then i else i - 1] == n;
    }
  }

  /** What a failing node leaves behind: itself with one more failure, while nobody can replace it. */
  function Stays(b: Bucket, c: Contact): Option<Node> {
    var live := FirstNode(b.live, c);
    if live.Some? && b.live[live.value].confirmed && b.replacements == [] then
      var failures := (b.live[live.value].failCount + 1) % 0x1_0000_0000;
      if failures < MAX_FAILURES then Some(b.live[live.value].(failCount := failures)) else None
    else None
  }

  lemma Removed<T>(b: Bucket, i: nat, f: Node -> T)
    ensures i < |b.live| ==> Bag(b.(live := Without(b.live, i)), f) == Bag(b, f) - multiset{f(b.live[i])}
    ensures i < |b.replacements| ==>
            Bag(b.(replacements := Without(b.replacements, i)), f) == Bag(b, f) - multiset{f(b.replacements[i])}
  {
    MemberInBag(b, i, f);
    if i < |b.live| {
      MappedWithout(b.live, i, f);
    }
    if i < |b.replacements| {
      MappedWithout(b.replacements, i, f);
    }
  }

  lemma Rewritten<T>(b: Bucket, i: nat, n: Node, f: Node -> T)
    requires i < |b.live|
    ensures Bag(b.(live := b.live[i := n]), f) == Bag(b, f) - multiset{f(b.live[i])} + multiset{f(n)}
  {
    MemberInBag(b, i, f);
    MappedUpdate(b.live, i, n, f);
  }

  lemma MovedOver<T>(from: multiset<T>, to: multiset<T>, gone: T, moved: T)
    requires gone in to && moved in from
    ensures to - multiset{gone} + multiset{moved} + (from - multiset{moved}) == to + from - multiset{gone}
  {
  }

  /** The oldest replacement takes the place of a live node. */
  lemma Replaced<T>(b: Bucket, i: nat, f: Node -> T)
    requires i < |b.live| && b.replacements != []
    ensures var r := b.(live := b.live[i := b.replacements[0]], replacements := b.replacements[1..]);
            Bag(r, f) == Bag(b, f) - multiset{f(b.live[i])}
  {
    MemberInBag(b, i, f);
    MemberInBag(b, 0, f);
    MappedUpdate(b.live, i, b.replacements[0], f);
    MappedWithout(b.replacements, 0, f);
    assert Without(b.replacements, 0) == b.replacements[1..];
    MovedOver(multiset(Mapped(b.replacements, f)), multiset(Mapped(b.live, f)), f(b.live[i]), f(b.replacements[0]));
  }

  /** A failure removes at most the failing node, and brings in nobody who was not there. */
  lemma FailExchanges<T>(b: Bucket, c: Contact, f: Node -> T)
    ensures Bag(FailIn(b, c), f) == Bag(b, f) - Lone(Match(b, c), f) + Lone(Stays(b, c), f)
  {
    var live, replacement := FirstNode(b.live, c), FirstNode(b.replacements, c);
    if live.Some? {
      LiveFails(b, c, live.value, f);
    } else if replacement.Some? {
      Removed(b, replacement.value, f);
    }
  }

  lemma LiveFails<T>(b: Bucket, c: Contact, i: nat, f: Node -> T)
    requires FirstNode(b.live, c) == Some(i)
    ensures Bag(FailIn(b, c), f) == Bag(b, f) - multiset{f(b.live[i])} + Lone(Stays(b, c), f)
  {
    if !b.live[i].confirmed {
      Removed(b, i, f);
    } else if b.replacements != [] {
      Replaced(b, i, f);
    } else {
      LoneFails(b, c, i, f);
    }
  }

  lemma LoneFails<T>(b: Bucket, c: Contact, i: nat, f: Node -> T)
    requires FirstNode(b.live, c) == Some(i) && b.live[i].confirmed && b.replacements == []
    ensures Bag(FailIn(b, c), f) == Bag(b, f) - multiset{f(b.live[i])} + Lone(Stays(b, c), f)
  {
    LoneOutcome(b, c, i);
    match Stays(b, c)
    case None => Removed(b, i, f);
    case Some(n) => Rewritten(b, i, n, f);
  }

  lemma LoneOutcome(b: Bucket, c: Contact, i: nat)
    requires FirstNode(b.live, c) == Some(i) && b.live[i].confirmed && b.replacements == []
    ensures FailIn(b, c) == match Stays(b, c)
                            case None => b.(live := Without(b.live, i))
                            case Some(n) => b.(live := b.live[i := n])
  {
  }

  /** Every node of the bucket has failed fewer times in a row than it takes to be dropped. */
  ghost predicate Patient(b: Bucket) {
    && (forall i :: 0 <= i < |b.live| ==> b.live[i].failCount < MAX_FAILURES)
    && (forall i :: 0 <= i < |b.replacements| ==> b.replacements[i].failCount < MAX_FAILURES)
  }

  lemma AddPatient(b: Bucket, size: nat, c: Contact, confirmed: bool, now: int64)
    requires size > 0 && Patient(b)
    ensures Patient(AddTo(b, size, c, confirmed, now))
  {
    var r := AddTo(b, size, c, confirmed, now);
    forall n | Holds(r, n) ensures n.failCount < MAX_FAILURES {
      AddRecords(b, size, c, confirmed, now, n);
    }
  }

  /**
   A node that fails as often as that in a row is gone, so in a table built by answers and failures
   nobody is over.
   */
  lemma FailPatient(b: Bucket, c: Contact)
    requires Patient(b)
    ensures Patient(FailIn(b, c))
  {
  }

  ghost function IdBag(b: Bucket): multiset<Bytes> {
    Bag(b, IdOf)
  }

  function IdOf(n: Node): Bytes {
    n.contact.id
  }

  /** No id is in the bucket twice. */
  ghost predicate Distinct(b: Bucket) {
    Single(IdBag(b))
  }

  ghost predicate Single(m: multiset<Bytes>) {
    forall x :: m[x] <= 1
  }

  lemma SwapSingle(m: multiset<Bytes>, out: multiset<Bytes>, x: Bytes)
    requires Single(m) && out <= m
    ensures Single(m - out + multiset{x}) <==> x !in m || x in out
  {
    var r := m - out + multiset{x};
    assert r[x] == m[x] - out[x] + 1;
  }

  /**
   Distinctness survives adding a contact exactly when the record it replaces has its id, or no record
   has. A contact whose endpoint belongs to one node and whose id belongs to another makes a double.
   */
  lemma AddDistinct(b: Bucket, size: nat, c: Contact, confirmed: bool, now: int64)
    requires size > 0 && Distinct(b) && ValidId(c.id)
    ensures Distinct(AddTo(b, size, c, confirmed, now)) <==>
            Match(b, c) == None || Match(b, c).value.contact.id == c.id || c.id !in IdBag(b)
  {
    var out := Lone(Leaves(b, size, c), IdOf);
    AddExchanges(b, size, c, confirmed, now, IdOf);
    LeavesInBag(b, size, c, IdOf);
    SwapSingle(IdBag(b), out, c.id);
    if Match(b, c) == None {
      Unmatched(b, c);
    }
  }

  lemma Unmatched(b: Bucket, c: Contact)
    requires Match(b, c) == None && ValidId(c.id)
    ensures c.id !in IdBag(b)
  {
  }
}
