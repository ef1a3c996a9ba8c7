/** What the observer list of a lookup keeps: order, distinctness, and the marks on its members. */
module KadObservers {

  import opened Base
  import opened ByteStrings
  import opened KadId
  import opened KadLookup

  // ---------------------------------------------------------------------------
  // Order and distinctness
  // ---------------------------------------------------------------------------

  /** `a` precedes `b`: strictly closer, and another endpoint. */
  predicate Precedes(target: Id, a: Observer, b: Observer) {
    Nearer(a.contact.id, b.contact.id, target) && !SameEndpoint(a.contact, b.contact)
  }

  predicate FlagsOk(o: Observer) {
    (o.alive ==> o.queried) && (o.searched ==> o.alive)
  }

  /** Strictly ascending distances, pairwise different endpoints, consistent marks. */
  ghost predicate Listed(obs: seq<Observer>, target: Id) {
    && (forall i :: 0 <= i < |obs| ==> ValidId(obs[i].contact.id) && FlagsOk(obs[i]))
    && (forall i, j :: 0 <= i < j < |obs| ==> Precedes(target, obs[i], obs[j]))
  }

  lemma DistinctIds(obs: seq<Observer>, target: Id, i: nat, j: nat)
    requires Listed(obs, target) && i < |obs| && j < |obs| && i != j
    ensures obs[i].contact.id != obs[j].contact.id && !SameEndpoint(obs[i].contact, obs[j].contact)
  {
    assert Precedes(target, obs[i], obs[j]) || Precedes(target, obs[j], obs[i]);
    CloserTotal(obs[i].contact.id, obs[j].contact.id, target);
  }

  /** The same node, whatever else is known about it. */
  predicate SameNode(a: Contact, b: Contact) {
    a.id == b.id && SameEndpoint(a, b)
  }

  /** A contact of the list is found at its own place. */
  lemma FindsItself(obs: seq<Observer>, target: Id, c: Contact, i: nat)
    requires Listed(obs, target) && i < |obs| && SameNode(c, obs[i].contact)
    ensures Find(obs, c) == Some(i)
  {
    var found := Find(obs, c);
    if found.Some? && found.value != i {
      DistinctIds(obs, target, found.value, i);
    }
  }

  lemma PrefixListed(obs: seq<Observer>, target: Id, n: nat)
    requires Listed(obs, target) && n <= |obs|
    ensures Listed(obs[..n], target)
  {
  }

  /** Changing the marks of one observer, or what is known about its contact, keeps the order. */
  lemma UpdateListed(obs: seq<Observer>, target: Id, i: nat, o: Observer)
    requires Listed(obs, target) && i < |obs| && SameNode(o.contact, obs[i].contact) && FlagsOk(o)
    ensures Listed(obs[i := o], target)
  {
  }

  lemma InsertListed(obs: seq<Observer>, target: Id, o: Observer)
    requires Listed(obs, target) && ValidId(o.contact.id) && FlagsOk(o) && Find(obs, o.contact) == None
    ensures var k := LowerBound(obs, o.contact.id, target); Listed(obs[..k] + [o] + obs[k..], target)
  {
    var k := LowerBound(obs, o.contact.id, target);
    forall i | 0 <= i < |obs|
      ensures i < k ==> Precedes(target, obs[i], o)
      ensures k <= i ==> Precedes(target, o, obs[i])
    {
      Around(obs, target, o, i);
    }
    InsertPairwise(obs, k, o, (a, b) => Precedes(target, a, b));
    InsertFlags(obs, k, o);
  }

  lemma InsertFlags(obs: seq<Observer>, k: nat, o: Observer)
    requires k <= |obs| && ValidId(o.contact.id) && FlagsOk(o)
    requires forall i :: 0 <= i < |obs| ==> ValidId(obs[i].contact.id) && FlagsOk(obs[i])
    ensures var t := obs[..k] + [o] + obs[k..];
            forall i :: 0 <= i < |t| ==> ValidId(t[i].contact.id) && FlagsOk(t[i])
  {
  }

  /** A new contact comes after every closer observer and before every other. */
  lemma Around(obs: seq<Observer>, target: Id, o: Observer, i: nat)
    requires Listed(obs, target) && ValidId(o.contact.id) && Find(obs, o.contact) == None && i < |obs|
    ensures var k := LowerBound(obs, o.contact.id, target);
            && (i < k ==> Precedes(target, obs[i], o))
            && (k <= i ==> Precedes(target, o, obs[i]))
  {
    var k := LowerBound(obs, o.contact.id, target);
    assert !SameContact(obs[i].contact, o.contact);
    if k <= i {
      CloserTotal(obs[k].contact.id, o.contact.id, target);
      assert !SameContact(obs[k].contact, o.contact);
      if k < i {
        assert Precedes(target, obs[k], obs[i]);
        CloserTotal(obs[k].contact.id, obs[i].contact.id, target);
        CloserTransitive(o.contact.id, obs[k].contact.id, obs[i].contact.id, target);
      }
    }
  }

  lemma AddListed(obs: seq<Observer>, c: Contact, target: Id)
    requires Listed(obs, target)
    ensures Listed(AddContact(obs, c, target), target)
  {
    if Usable(c) {
      match Find(obs, c)
      case Some(i) =>
        UpdateListed(obs, target, i, obs[i].(contact := Merge(obs[i].contact, c)));
      case None =>
        var o := Observer(c, false, false, false, false);
        InsertListed(obs, target, o);
        var k := LowerBound(obs, c.id, target);
        var t := obs[..k] + [o] + obs[k..];
        PrefixListed(t, target, |Trim(t)|);
        assert Trim(t) == t[..|Trim(t)|];
    }
  }

  // ---------------------------------------------------------------------------
  // Marks
  // ---------------------------------------------------------------------------

  /** Asked, and neither answered nor failed. */
  predicate Open(o: Observer) {
    o.queried && !o.alive && !o.failed
  }

  predicate Queried(o: Observer) {
    o.queried
  }

  predicate Searched(o: Observer) {
    o.searched
  }

  /** A property of the marks alone. */
  ghost predicate MarksOnly(p: Observer -> bool) {
    forall o: Observer, c: Contact :: p(o.(contact := c)) == p(o)
  }

  ghost function IdsOf(obs: seq<Observer>, p: Observer -> bool): set<Bytes> {
    set i | 0 <= i < |obs| && p(obs[i]) :: obs[i].contact.id
  }

  /** Some observer with the property is this node. */
  ghost predicate Has(obs: seq<Observer>, p: Observer -> bool, c: Contact) {
    exists i :: 0 <= i < |obs| && p(obs[i]) && SameNode(c, obs[i].contact)
  }

  /** Both lists have the property at the same nodes. */
  ghost predicate SameMarks(before: seq<Observer>, after: seq<Observer>, p: Observer -> bool) {
    && (forall i :: 0 <= i < |before| && p(before[i]) ==> Has(after, p, before[i].contact))
    && (forall i :: 0 <= i < |after| && p(after[i]) ==> Has(before, p, after[i].contact))
  }

  lemma SameMarksIds(before: seq<Observer>, after: seq<Observer>, p: Observer -> bool)
    requires SameMarks(before, after, p)
    ensures IdsOf(before, p) == IdsOf(after, p)
  {
  }

  /** A change at one observer that keeps its node and whether it has the property. */
  lemma UpdateSameMarks(obs: seq<Observer>, i: nat, o: Observer, p: Observer -> bool)
    requires i < |obs| && SameNode(o.contact, obs[i].contact) && p(o) == p(obs[i])
    ensures SameMarks(obs, obs[i := o], p)
  {
    var obs' := obs[i := o];
    forall k | 0 <= k < |obs| && p(obs[k]) ensures Has(obs', p, obs[k].contact) {
      assert p(obs'[k]) && SameNode(obs[k].contact, obs'[k].contact);
    }
    forall k | 0 <= k < |obs'| && p(obs'[k]) ensures Has(obs, p, obs'[k].contact) {
      assert p(obs[k]) && SameNode(obs'[k].contact, obs[k].contact);
    }
  }

  /** Marking one observer adds its id and nothing else. */
  lemma MarkAdds(obs: seq<Observer>, target: Id, i: nat, o: Observer, p: Observer -> bool)
    requires Listed(obs, target) && i < |obs| && SameNode(o.contact, obs[i].contact) && p(o) && !p(obs[i])
    ensures obs[i].contact.id !in IdsOf(obs, p)
    ensures IdsOf(obs[i := o], p) == IdsOf(obs, p) + {obs[i].contact.id}
  {
    var obs', id := obs[i := o], obs[i].contact.id;
    forall k | 0 <= k < |obs| && k != i ensures obs[k].contact.id != id {
      DistinctIds(obs, target, k, i);
    }
    forall x ensures x in IdsOf(obs', p) <==> x in IdsOf(obs, p) + {id} {
      if x in IdsOf(obs', p) {
        var k :| 0 <= k < |obs'| && p(obs'[k]) && obs'[k].contact.id == x;
        assert k != i ==> p(obs[k]);
      }
      if x in IdsOf(obs, p) {
        var k :| 0 <= k < |obs| && p(obs[k]) && obs[k].contact.id == x;
        assert p(obs'[k]);
      }
      if x == id {
        assert p(obs'[i]);
      }
    }
  }

  /** Taking the mark away removes its id and nothing else. */
  lemma UnmarkRemoves(obs: seq<Observer>, target: Id, i: nat, o: Observer, p: Observer -> bool)
    requires Listed(obs, target) && i < |obs| && SameNode(o.contact, obs[i].contact) && !p(o) && p(obs[i])
    ensures obs[i].contact.id in IdsOf(obs, p)
    ensures IdsOf(obs[i := o], p) == IdsOf(obs, p) - {obs[i].contact.id}
  {
    var obs', id := obs[i := o], obs[i].contact.id;
    forall k | 0 <= k < |obs| && k != i ensures obs[k].contact.id != id {
      DistinctIds(obs, target, k, i);
    }
    forall x ensures x in IdsOf(obs', p) <==> x in IdsOf(obs, p) - {id} {
      if x in IdsOf(obs', p) {
        var k :| 0 <= k < |obs'| && p(obs'[k]) && obs'[k].contact.id == x;
        assert k != i && p(obs[k]);
      }
      if x in IdsOf(obs, p) && x != id {
        var k :| 0 <= k < |obs| && p(obs[k]) && obs[k].contact.id == x;
        assert p(obs'[k]);
      }
    }
  }

  /** Only observers that were asked have the property. */
  ghost predicate Asked(obs: seq<Observer>, p: Observer -> bool) {
    forall i :: 0 <= i < |obs| && p(obs[i]) ==> obs[i].queried
  }

  /** Hearing about a contact marks and unmarks nobody. */
  lemma AddSameMarks(obs: seq<Observer>, c: Contact, target: Id, p: Observer -> bool)
    requires MarksOnly(p) && Asked(obs, p) && !p(Observer(c, false, false, false, false))
    ensures SameMarks(obs, AddContact(obs, c, target), p)
  {
    if !Usable(c) {
      Unchanged(obs, p);
    } else {
      match Find(obs, c)
      case Some(i) =>
        UpdateSameMarks(obs, i, obs[i].(contact := Merge(obs[i].contact, c)), p);
      case None =>
        var k := LowerBound(obs, c.id, target);
        var o := Observer(c, false, false, false, false);
        InsertTrimSameMarks(obs, k, o, p);
    }
  }

  lemma Unchanged(obs: seq<Observer>, p: Observer -> bool)
    ensures SameMarks(obs, obs, p)
  {
  }

  lemma InsertTrimSameMarks(obs: seq<Observer>, k: nat, o: Observer, p: Observer -> bool)
    requires k <= |obs| && !p(o) && Asked(obs, p)
    ensures SameMarks(obs, Trim(obs[..k] + [o] + obs[k..]), p)
  {
    var t := obs[..k] + [o] + obs[k..];
    var r := Trim(t);
    forall i | 0 <= i < |obs| && p(obs[i]) ensures Has(r, p, obs[i].contact) {
      var j := if i < k then i else i + 1;
      assert t[j] == obs[i];
      assert j < |r| && r[j] == t[j];
      assert p(r[j]) && SameNode(obs[i].contact, r[j].contact);
    }
    forall i | 0 <= i < |r| && p(r[i]) ensures Has(obs, p, r[i].contact) {
      assert r[i] == t[i] && i != k;
      var j := if i < k then i else i - 1;
      assert obs[j] == t[i];
      assert p(obs[j]) && SameNode(r[i].contact, obs[j].contact);
    }
  }

  lemma SameMarksTransitive(a: seq<Observer>, b: seq<Observer>, c: seq<Observer>, p: Observer -> bool)
    requires SameMarks(a, b, p) && SameMarks(b, c, p)
    ensures SameMarks(a, c, p)
  {
    forall i | 0 <= i < |a| && p(a[i]) ensures Has(c, p, a[i].contact) {
      assert Has(b, p, a[i].contact);
      var j :| 0 <= j < |b| && p(b[j]) && SameNode(a[i].contact, b[j].contact);
      assert Has(c, p, b[j].contact);
    }
    forall i | 0 <= i < |c| && p(c[i]) ensures Has(a, p, c[i].contact) {
      assert Has(b, p, c[i].contact);
      var j :| 0 <= j < |b| && p(b[j]) && SameNode(c[i].contact, b[j].contact);
      assert Has(a, p, b[j].contact);
    }
  }

  lemma {:induction false} AddAllListed(obs: seq<Observer>, contacts: seq<Contact>, target: Id)
    requires Listed(obs, target)
    ensures Listed(AddContacts(obs, contacts, target), target)
  {
    if contacts == [] {
    } else {
      var init := contacts[..|contacts| - 1];
      AddAllListed(obs, init, target);
      AddListed(AddContacts(obs, init, target), contacts[|contacts| - 1], target);
    }
  }

  /** `p` is one of the marks that only asked observers can have. */
  ghost predicate AskedMark(p: Observer -> bool) {
    MarksOnly(p) && (forall o: Observer :: FlagsOk(o) && p(o) ==> o.queried)
  }

  lemma MarksAsked(obs: seq<Observer>, c: Contact, target: Id, p: Observer -> bool)
    requires Listed(obs, target) && AskedMark(p)
    ensures Asked(obs, p) && !p(Observer(c, false, false, false, false))
  {
  }

  lemma {:induction false} AddAllSameMarks(obs: seq<Observer>, contacts: seq<Contact>, target: Id, p: Observer -> bool)
    requires Listed(obs, target) && AskedMark(p)
    ensures SameMarks(obs, AddContacts(obs, contacts, target), p)
  {
    if contacts == [] {
      Unchanged(obs, p);
    } else {
      var init, last := contacts[..|contacts| - 1], contacts[|contacts| - 1];
      var mid := AddContacts(obs, init, target);
      AddAllSameMarks(obs, init, target, p);
      AddAllListed(obs, init, target);
      MarksAsked(mid, last, target, p);
      AddSameMarks(mid, last, target, p);
      SameMarksTransitive(obs, mid, AddContact(mid, last, target), p);
    }
  }

  // ---------------------------------------------------------------------------
  // A log of requests and the observers it marked
  // ---------------------------------------------------------------------------

  /** No two entries share an id or an endpoint. */
  ghost predicate NoTwice(log: seq<Contact>) {
    forall i, j :: 0 <= i < j < |log| ==> log[i].id != log[j].id && !SameEndpoint(log[i], log[j])
  }

  ghost function LogIds(log: seq<Contact>): set<Bytes> {
    set i | 0 <= i < |log| :: log[i].id
  }

  /** The log names each marked observer once, and nobody else. */
  ghost predicate LogOk(obs: seq<Observer>, p: Observer -> bool, log: seq<Contact>) {
    && NoTwice(log)
    && LogIds(log) == IdsOf(obs, p)
    && (forall i :: 0 <= i < |log| ==> Has(obs, p, log[i]))
  }

  lemma LogKept(before: seq<Observer>, after: seq<Observer>, p: Observer -> bool, log: seq<Contact>)
    requires LogOk(before, p, log) && SameMarks(before, after, p)
    ensures LogOk(after, p, log)
  {
  }

  /** A request to an observer not marked before is the first to its id and to its endpoint. */
  lemma LogGrows(obs: seq<Observer>, target: Id, i: nat, o: Observer, p: Observer -> bool, log: seq<Contact>)
    requires Listed(obs, target) && i < |obs| && o.contact == obs[i].contact && p(o) && !p(obs[i])
    requires LogOk(obs, p, log)
    ensures obs[i].contact.id !in LogIds(log)
    ensures LogOk(obs[i := o], p, log + [obs[i].contact])
  {
    var obs', c := obs[i := o], obs[i].contact;
    var log' := log + [c];
    MarkAdds(obs, target, i, o, p);
    forall k | 0 <= k < |log|
      ensures log[k].id != c.id && !SameEndpoint(log[k], c) && Has(obs', p, log[k])
    {
      assert Has(obs, p, log[k]);
      var j :| 0 <= j < |obs| && p(obs[j]) && SameNode(log[k], obs[j].contact);
      DistinctIds(obs, target, j, i);
      assert p(obs'[j]) && SameNode(log[k], obs'[j].contact);
    }
    assert Has(obs', p, c) by {
      assert p(obs'[i]) && SameNode(c, obs'[i].contact);
    }
    LogIdsAppend(log, c);
  }

  lemma LogIdsAppend(log: seq<Contact>, c: Contact)
    ensures LogIds(log + [c]) == LogIds(log) + {c.id}
  {
    var log' := log + [c];
    forall x ensures x in LogIds(log') <==> x in LogIds(log) + {c.id} {
      if x in LogIds(log') {
        var k :| 0 <= k < |log'| && log'[k].id == x;
        assert k < |log| ==> log[k].id == x;
      }
      if x in LogIds(log) {
        var k :| 0 <= k < |log| && log[k].id == x;
        assert log'[k].id == x;
      }
      if x == c.id {
        assert log'[|log|].id == x;
      }
    }
  }

  lemma {:induction false} LogSize(log: seq<Contact>)
    requires NoTwice(log)
    ensures |LogIds(log)| == |log|
  {
    if log == [] {
      assert LogIds(log) == {};
    } else {
      var init, last := log[..|log| - 1], log[|log| - 1];
      assert log == init + [last];
      LogSize(init);
      LogIdsAppend(init, last);
      assert last.id !in LogIds(init) by {
        forall k | 0 <= k < |init| ensures init[k].id != last.id {
          assert init[k] == log[k];
        }
      }
    }
  }
}
