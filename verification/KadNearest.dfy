/** The nodes nearest to a target: sorting by distance and keeping the first few. */
module KadNearest {

  import opened Base
  import opened KadId
  import opened KadLookup
  import opened KadNodes

  // ---------------------------------------------------------------------------
  // Sorting by a strict order
  // ---------------------------------------------------------------------------

  /** What std::sort asks of a comparison: irreflexive, and not-less is transitive. */
  ghost predicate StrictOrder<T(!new)>(less: (T, T) -> bool) {
    && (forall a, b :: less(a, b) ==> !less(b, a))
    && (forall a, b, c :: !less(b, a) && !less(c, b) ==> !less(c, a))
  }

  ghost predicate Ascending<T>(s: seq<T>, less: (T, T) -> bool) {
    forall i, j :: 0 <= i < j < |s| ==> !less(s[j], s[i])
  }

  method SortBy<T(!new)>(s: seq<T>, less: (T, T) -> bool) returns (r: seq<T>)
    requires StrictOrder(less)
    ensures multiset(r) == multiset(s) && Ascending(r, less)
  {
    r := [];
    for n := 0 to |s|
      invariant multiset(r) == multiset(s[..n]) && Ascending(r, less)
    {
      r := Insert(r, s[n], less);
      assert s[..n + 1] == s[..n] + [s[n]];
    }
    assert s[..|s|] == s;
  }

  method Insert<T(!new)>(s: seq<T>, x: T, less: (T, T) -> bool) returns (r: seq<T>)
    requires StrictOrder(less) && Ascending(s, less)
    ensures multiset(r) == multiset(s) + multiset{x} && Ascending(r, less)
  {
    var k := 0;
    while k < |s| && !less(x, s[k])
      invariant 0 <= k <= |s| && forall i :: 0 <= i < k ==> !less(x, s[i])
    {
      k := k + 1;
    }
    forall i | k <= i < |s| ensures !less(s[i], x) {
      assert !less(s[k], x) && (i == k || !less(s[i], s[k]));
    }
    InsertPairwise(s, k, x, (a, b) => !less(b, a));
    r := s[..k] + [x] + s[k..];
    assert s == s[..k] + s[k..];
  }

  // ---------------------------------------------------------------------------
  // Distances
  // ---------------------------------------------------------------------------

  type RoutedNode = n: Node | ValidId(n.contact.id)
    witness Node(Contact(seq(HASH_LENGTH, _ => 0), [], 0, 0, 0, 0), false, false, 0, 0, 0)

  function ByDistance(target: Id): (RoutedNode, RoutedNode) -> bool {
    (a: RoutedNode, b: RoutedNode) => Closer(a.contact.id, b.contact.id, target)
  }

  lemma DistanceOrders(target: Id)
    ensures StrictOrder(ByDistance(target))
  {
    var less := ByDistance(target);
    forall a: RoutedNode, b: RoutedNode ensures less(a, b) ==> !less(b, a) {
      CloserTotal(a.contact.id, b.contact.id, target);
    }
    forall a: RoutedNode, b: RoutedNode, c: RoutedNode | !less(b, a) && !less(c, b) ensures !less(c, a) {
      CloserTransitive(a.contact.id, b.contact.id, c.contact.id, target);
    }
  }

  /** How many are kept; no limit keeps all. */
  function Kept(limit: nat, n: nat): nat {
    if limit > 0 && n > limit then limit else n
  }

  ghost predicate Farther(c: Contact, r: seq<Contact>, target: Id) {
    forall i :: 0 <= i < |r| ==> !Nearer(c.id, r[i].id, target)
  }

  /** `r` is the nearest part of `all`, in order: as many as wanted, and nobody left out is closer. */
  ghost predicate Nearest(r: seq<Contact>, all: seq<Contact>, limit: nat, target: Id) {
    && |r| == Kept(limit, |all|)
    && (forall i, j :: 0 <= i < j < |r| ==> !Nearer(r[j].id, r[i].id, target))
    && multiset(r) <= multiset(all)
    && (forall c :: c in multiset(all) - multiset(r) ==> Farther(c, r, target))
  }

  function Contacts(nodes: seq<Node>): (r: seq<Contact>)
    ensures |r| == |nodes| && forall i :: 0 <= i < |r| ==> r[i] == nodes[i].contact
  {
    seq(|nodes|, i requires 0 <= i < |nodes| => nodes[i].contact)
  }

  method ClosestOf(nodes: seq<RoutedNode>, target: Id, limit: nat) returns (r: seq<Contact>)
    ensures Nearest(r, Contacts(nodes), limit, target)
  {
    DistanceOrders(target);
    var sorted := SortBy(nodes, ByDistance(target));
    ContactBag(sorted, nodes);
    SortedContacts(sorted, target);
    var n := Kept(limit, |nodes|);
    LengthOf(sorted, nodes);
    r := Contacts(sorted[..n]);
    assert r == Contacts(sorted)[..n];
    PrefixNearest(Contacts(sorted), Contacts(nodes), n, limit, target);
  }

  lemma LengthOf<T>(a: seq<T>, b: seq<T>)
    requires multiset(a) == multiset(b)
    ensures |a| == |b|
  {
    assert |multiset(a)| == |a| && |multiset(b)| == |b|;
  }

  lemma SortedContacts(sorted: seq<RoutedNode>, target: Id)
    requires Ascending(sorted, ByDistance(target))
    ensures var s := Contacts(sorted); forall i, j :: 0 <= i < j < |s| ==> !Nearer(s[j].id, s[i].id, target)
  {
  }

  lemma PrefixNearest(s: seq<Contact>, all: seq<Contact>, n: nat, limit: nat, target: Id)
    requires multiset(s) == multiset(all) && n == Kept(limit, |all|) <= |s|
    requires forall i, j :: 0 <= i < j < |s| ==> !Nearer(s[j].id, s[i].id, target)
    ensures Nearest(s[..n], all, limit, target)
  {
    assert s == s[..n] + s[n..];
    forall c | c in multiset(all) - multiset(s[..n]) ensures Farther(c, s[..n], target) {
      assert c in multiset(s[n..]);
      var k :| 0 <= k < |s[n..]| && s[n..][k] == c;
      assert s[n + k] == c;
    }
  }

  lemma WithoutBag(nodes: seq<Node>, i: nat)
    requires i < |nodes|
    ensures multiset(nodes) == multiset(Without(nodes, i)) + multiset{nodes[i]}
    ensures multiset(Contacts(nodes)) == multiset(Contacts(Without(nodes, i))) + multiset{nodes[i].contact}
  {
    assert nodes == nodes[..i] + [nodes[i]] + nodes[i + 1..];
    var c := Contacts(nodes);
    assert c == c[..i] + [c[i]] + c[i + 1..];
    assert Contacts(Without(nodes, i)) == c[..i] + c[i + 1..];
  }

  lemma Cancel<T>(a: multiset<T>, b: multiset<T>, x: T)
    requires a + multiset{x} == b + multiset{x}
    ensures a == b
  {
    assert a == a + multiset{x} - multiset{x};
  }

  lemma {:induction false} ContactBag(a: seq<Node>, b: seq<Node>)
    requires multiset(a) == multiset(b)
    ensures multiset(Contacts(a)) == multiset(Contacts(b))
    decreases |a|
  {
    LengthOf(a, b);
    if a == [] {
    } else {
      assert a[0] in multiset(b);
      var k :| 0 <= k < |b| && b[k] == a[0];
      WithoutBag(a, 0);
      WithoutBag(b, k);
      Cancel(multiset(Without(a, 0)), multiset(Without(b, k)), a[0]);
      ContactBag(Without(a, 0), Without(b, k));
    }
  }
}
