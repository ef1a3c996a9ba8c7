/** Restoring a routing table: every saved node is placed again, one after the other. */
module KadRestore {

  import opened Base
  import opened ByteStrings
  import opened KadBuckets
  import opened KadNodes

  /** A saved node, which list it comes from, and when its bucket was last active. */
  datatype Entry = Entry(node: Node, live: bool, lastActive: int64)

  function ListEntries(nodes: seq<Node>, live: bool, lastActive: int64): (r: seq<Entry>)
    ensures |r| == |nodes| && forall i :: 0 <= i < |r| ==> r[i] == Entry(nodes[i], live, lastActive)
  {
    seq(|nodes|, i requires 0 <= i < |nodes| => Entry(nodes[i], live, lastActive))
  }

  function BucketEntries(b: Bucket): seq<Entry> {
    ListEntries(b.live, true, b.lastActive) + ListEntries(b.replacements, false, b.lastActive)
  }

  /** All saved nodes in the order they are placed. */
  function Entries(saved: seq<Bucket>): seq<Entry> {
    if saved == [] then [] else Entries(saved[..|saved| - 1]) + BucketEntries(saved[|saved| - 1])
  }

  /** One node arrives in its bucket: live while there is room, else a replacement, else dropped. */
  function Arrive(b: Bucket, size: nat, e: Entry): Bucket {
    var active := b.(lastActive := Max(b.lastActive, e.lastActive));
    if e.live && |b.live| < size then active.(live := b.live + [e.node])
    else if |b.replacements| < size then active.(replacements := b.replacements + [e.node])
    else active
  }

  /** Where ids belong: a bucket each, or nowhere. */
  type Home = h: Bytes -> Option<nat> | forall id: Bytes :: h(id).Some? ==> h(id).value < BUCKET_COUNT
    witness (id: Bytes) => None

  function Place(table: seq<Bucket>, size: nat, home: Home, e: Entry): (r: seq<Bucket>)
    requires |table| == BUCKET_COUNT
    ensures |r| == BUCKET_COUNT
  {
    match home(e.node.contact.id)
    case None => table
    case Some(i) => table[i := Arrive(table[i], size, e)]
  }

  function EmptyTable(): (r: seq<Bucket>)
    ensures |r| == BUCKET_COUNT && forall i :: 0 <= i < BUCKET_COUNT ==> r[i] == EMPTY
  {
    seq(BUCKET_COUNT, _ => EMPTY)
  }

  function PlaceAll(size: nat, home: Home, entries: seq<Entry>): (r: seq<Bucket>)
    ensures |r| == BUCKET_COUNT
  {
    if entries == [] then EmptyTable()
    else Place(PlaceAll(size, home, entries[..|entries| - 1]), size, home, entries[|entries| - 1])
  }

  lemma PlaceAllAppend(size: nat, home: Home, entries: seq<Entry>, e: Entry)
    ensures PlaceAll(size, home, entries + [e]) == Place(PlaceAll(size, home, entries), size, home, e)
  {
  }

  lemma ListGrows(before: seq<Entry>, nodes: seq<Node>, k: nat, live: bool, lastActive: int64)
    requires k < |nodes|
    ensures before + ListEntries(nodes[..k + 1], live, lastActive)
         == before + ListEntries(nodes[..k], live, lastActive) + [Entry(nodes[k], live, lastActive)]
  {
  }

  lemma EntriesGrow(saved: seq<Bucket>, i: nat)
    requires i < |saved|
    ensures Entries(saved[..i + 1]) == Entries(saved[..i]) + ListEntries(saved[i].live, true, saved[i].lastActive)
                                       + ListEntries(saved[i].replacements, false, saved[i].lastActive)
  {
    assert saved[..i + 1][..i] == saved[..i];
  }

  // ---------------------------------------------------------------------------
  // Each bucket sees its own entries only
  // ---------------------------------------------------------------------------

  ghost function Share(entries: seq<Entry>, home: Home, i: nat): seq<Entry> {
    if entries == [] then []
    else
      var n := |entries| - 1;
      Share(entries[..n], home, i) + if home(entries[n].node.contact.id) == Some(i) then [entries[n]] else []
  }

  ghost function Fill(size: nat, entries: seq<Entry>): Bucket {
    if entries == [] then EMPTY
    else Arrive(Fill(size, entries[..|entries| - 1]), size, entries[|entries| - 1])
  }

  /** The last entry either is this bucket's last or does not concern it. */
  lemma ShareStep(entries: seq<Entry>, home: Home, i: nat)
    requires entries != []
    ensures var n := |entries| - 1;
            var s, init := Share(entries, home, i), Share(entries[..n], home, i);
            if home(entries[n].node.contact.id) == Some(i)
            then s != [] && s[|s| - 1] == entries[n] && s[..|s| - 1] == init
            else s == init
  {
  }

  lemma {:induction false} PlacedByShare(size: nat, home: Home, entries: seq<Entry>, i: nat)
    requires i < BUCKET_COUNT
    ensures PlaceAll(size, home, entries)[i] == Fill(size, Share(entries, home, i))
  {
    if entries == [] {
    } else {
      PlacedByShare(size, home, entries[..|entries| - 1], i);
      ShareStep(entries, home, i);
    }
  }

  lemma {:induction false} ShareConcat(a: seq<Entry>, b: seq<Entry>, home: Home, i: nat)
    ensures Share(a + b, home, i) == Share(a, home, i) + Share(b, home, i)
  {
    if b == [] {
      assert a + b == a;
    } else {
      var n := |b| - 1;
      assert (a + b)[..|a + b| - 1] == a + b[..n];
      ShareConcat(a, b[..n], home, i);
    }
  }

  lemma {:induction false} ShareAll(entries: seq<Entry>, home: Home, i: nat, j: nat)
    requires forall k :: 0 <= k < |entries| ==> home(entries[k].node.contact.id) == Some(j)
    ensures Share(entries, home, i) == if i == j then entries else []
  {
    if entries == [] {
    } else {
      var n := |entries| - 1;
      ShareAll(entries[..n], home, i, j);
      assert entries == entries[..n] + [entries[n]];
    }
  }

  // ---------------------------------------------------------------------------
  // A table restored from its own snapshot
  // ---------------------------------------------------------------------------

  ghost predicate Placed(b: Bucket, home: Home, i: nat) {
    && (forall k :: 0 <= k < |b.live| ==> home(b.live[k].contact.id) == Some(i))
    && (forall k :: 0 <= k < |b.replacements| ==> home(b.replacements[k].contact.id) == Some(i))
  }

  /** Activity of a bucket without nodes is forgotten. */
  function Remembered(b: Bucket): Bucket {
    if b.live == [] && b.replacements == [] then EMPTY else b.(lastActive := Max(0, b.lastActive))
  }

  lemma BucketShare(b: Bucket, home: Home, i: nat, j: nat)
    requires Placed(b, home, j)
    ensures Share(BucketEntries(b), home, i) == if i == j then BucketEntries(b) else []
  {
    var es := BucketEntries(b);
    forall k | 0 <= k < |es| ensures home(es[k].node.contact.id) == Some(j) {
      assert es[k].node == if k < |b.live| then b.live[k] else b.replacements[k - |b.live|];
    }
    ShareAll(es, home, i, j);
  }

  lemma ShareGrows(before: seq<Entry>, b: Bucket, home: Home, i: nat, j: nat)
    requires Placed(b, home, j)
    ensures Share(before + BucketEntries(b), home, i)
         == Share(before, home, i) + if i == j then BucketEntries(b) else []
  {
    ShareConcat(before, BucketEntries(b), home, i);
    BucketShare(b, home, i, j);
  }

  lemma {:induction false} OwnShare(saved: seq<Bucket>, home: Home, i: nat)
    requires forall k :: 0 <= k < |saved| ==> Placed(saved[k], home, k)
    ensures Share(Entries(saved), home, i) == if i < |saved| then BucketEntries(saved[i]) else []
  {
    if saved == [] {
    } else {
      var n := |saved| - 1;
      var before, last := Entries(saved[..n]), saved[n];
      assert Entries(saved) == before + BucketEntries(last);
      assert Share(before, home, i) == if i < n then BucketEntries(saved[i]) else [] by {
        OwnShare(saved[..n], home, i);
      }
      ShareGrows(before, last, home, i, n);
    }
  }

  lemma {:induction false} FillLive(size: nat, nodes: seq<Node>, lastActive: int64)
    requires |nodes| <= size
    ensures Fill(size, ListEntries(nodes, true, lastActive))
         == Bucket(nodes, [], if nodes == [] then 0 else Max(0, lastActive))
  {
    if nodes == [] {
    } else {
      var n := |nodes| - 1;
      FillLive(size, nodes[..n], lastActive);
      var es := ListEntries(nodes, true, lastActive);
      assert es[..n] == ListEntries(nodes[..n], true, lastActive);
      assert nodes == nodes[..n] + [nodes[n]];
    }
  }

  lemma {:induction false} FillBoth(size: nat, live: seq<Node>, replacements: seq<Node>, lastActive: int64)
    requires |live| <= size && |replacements| <= size
    ensures Fill(size, BucketEntries(Bucket(live, replacements, lastActive)))
         == Remembered(Bucket(live, replacements, lastActive))
  {
    var es := BucketEntries(Bucket(live, replacements, lastActive));
    if replacements == [] {
      assert es == ListEntries(live, true, lastActive);
      FillLive(size, live, lastActive);
    } else {
      var n := |replacements| - 1;
      FillBoth(size, live, replacements[..n], lastActive);
      assert es[..|es| - 1] == BucketEntries(Bucket(live, replacements[..n], lastActive));
      assert replacements == replacements[..n] + [replacements[n]];
    }
  }

  /** A table whose nodes are in place and within capacity comes back as it was. */
  lemma RestoreOwn(size: nat, home: Home, saved: seq<Bucket>)
    requires |saved| == BUCKET_COUNT
    requires forall k :: 0 <= k < |saved| ==> Placed(saved[k], home, k) && Fits(saved[k], size)
    ensures forall i :: 0 <= i < BUCKET_COUNT ==> PlaceAll(size, home, Entries(saved))[i] == Remembered(saved[i])
  {
    forall i | 0 <= i < BUCKET_COUNT ensures PlaceAll(size, home, Entries(saved))[i] == Remembered(saved[i]) {
      PlacedByShare(size, home, Entries(saved), i);
      OwnShare(saved, home, i);
      FillBoth(size, saved[i].live, saved[i].replacements, saved[i].lastActive);
    }
  }

  // ---------------------------------------------------------------------------
  // Any other snapshot
  // ---------------------------------------------------------------------------

  lemma {:induction false} FillFits(size: nat, entries: seq<Entry>)
    ensures Fits(Fill(size, entries), size)
  {
    if entries == [] {
    } else {
      FillFits(size, entries[..|entries| - 1]);
    }
  }

  lemma ArrivePlaced(b: Bucket, size: nat, e: Entry, home: Home, i: nat)
    requires Placed(b, home, i) && home(e.node.contact.id) == Some(i)
    ensures Placed(Arrive(b, size, e), home, i)
  {
  }

  lemma {:induction false} FillPlaced(size: nat, home: Home, entries: seq<Entry>, i: nat)
    ensures Placed(Fill(size, Share(entries, home, i)), home, i)
  {
    if entries == [] {
    } else {
      var n := |entries| - 1;
      FillPlaced(size, home, entries[..n], i);
      ShareStep(entries, home, i);
      var s := Share(entries, home, i);
      if home(entries[n].node.contact.id) == Some(i) {
        ArrivePlaced(Fill(size, s[..|s| - 1]), size, s[|s| - 1], home, i);
      }
    }
  }

  /** Whatever the snapshot, every restored node is in the bucket of its id, within capacity. */
  lemma {:induction false} RestorePlaces(size: nat, home: Home, entries: seq<Entry>, i: nat)
    requires i < BUCKET_COUNT
    ensures var b := PlaceAll(size, home, entries)[i]; Fits(b, size) && Placed(b, home, i)
  {
    PlacedByShare(size, home, entries, i);
    FillFits(size, Share(entries, home, i));
    FillPlaced(size, home, entries, i);
  }

  ghost function EntryIds(entries: seq<Entry>): multiset<Bytes> {
    if entries == [] then multiset{}
    else EntryIds(entries[..|entries| - 1]) + multiset{entries[|entries| - 1].node.contact.id}
  }

  ghost function Lives(entries: seq<Entry>): (r: nat)
    ensures r <= |entries|
  {
    if entries == [] then 0
    else Lives(entries[..|entries| - 1]) + if entries[|entries| - 1].live then 1 else 0
  }

  /** Live entries fill the live list first; the overflow and the others fill the replacements. */
  lemma {:induction false} FillSizes(size: nat, entries: seq<Entry>)
    ensures var b := Fill(size, entries);
            && |b.live| == Min(size, Lives(entries))
            && |b.replacements| == Min(size, |entries| - Min(size, Lives(entries)))
  {
    if entries == [] {
    } else {
      FillSizes(size, entries[..|entries| - 1]);
    }
  }

  /** Whether an entry still finds room: among the live nodes, or among the replacements. */
  ghost predicate Taken(size: nat, entries: seq<Entry>, k: nat)
    requires k < |entries|
  {
    var lives := Lives(entries[..k]);
    (entries[k].live && lives < size) || k - Min(size, lives) < size
  }

  ghost function TakenIds(size: nat, entries: seq<Entry>): multiset<Bytes> {
    if entries == [] then multiset{}
    else
      var n := |entries| - 1;
      TakenIds(size, entries[..n])
      + if Taken(size, entries, n) then multiset{entries[n].node.contact.id} else multiset{}
  }

  lemma TakenByRoom(size: nat, entries: seq<Entry>, k: nat)
    requires k < |entries|
    ensures var b := Fill(size, entries[..k]);
            Taken(size, entries, k) <==> (entries[k].live && |b.live| < size) || |b.replacements| < size
  {
    FillSizes(size, entries[..k]);
  }

  /** What a bucket holds after any entries at all: those that found room, no more and no less. */
  lemma {:induction false} FillTakes(size: nat, entries: seq<Entry>)
    ensures IdBag(Fill(size, entries)) == TakenIds(size, entries)
  {
    if entries == [] {
      assert Mapped<Bytes>([], IdOf) == [];
    } else {
      var n := |entries| - 1;
      FillTakes(size, entries[..n]);
      TakenByRoom(size, entries, n);
      ArriveTakes(Fill(size, entries[..n]), size, entries[n]);
    }
  }

  lemma ArriveTakes(b: Bucket, size: nat, e: Entry)
    ensures var taken := (e.live && |b.live| < size) || |b.replacements| < size;
            IdBag(Arrive(b, size, e)) == IdBag(b) + if taken then multiset{e.node.contact.id} else multiset{}
  {
    AppendExchanges(b, e.node, Max(b.lastActive, e.lastActive), IdOf);
  }

  lemma {:induction false} TakenAmong(size: nat, entries: seq<Entry>)
    ensures TakenIds(size, entries) <= EntryIds(entries)
    ensures |entries| <= size ==> TakenIds(size, entries) == EntryIds(entries)
  {
    if entries == [] {
    } else {
      TakenAmong(size, entries[..|entries| - 1]);
    }
  }

  /** Nothing is invented, and a bucket that gets no more than its capacity loses nothing. */
  lemma FillConserves(size: nat, entries: seq<Entry>)
    ensures IdBag(Fill(size, entries)) <= EntryIds(entries)
    ensures |entries| <= size ==> IdBag(Fill(size, entries)) == EntryIds(entries)
  {
    FillTakes(size, entries);
    TakenAmong(size, entries);
  }

  ghost predicate TakesId(size: nat, entries: seq<Entry>, id: Bytes) {
    exists k :: 0 <= k < |entries| && Taken(size, entries, k) && entries[k].node.contact.id == id
  }

  lemma TakesIdStep(size: nat, entries: seq<Entry>, id: Bytes)
    requires entries != []
    ensures var n := |entries| - 1;
            TakesId(size, entries, id)
            <==> TakesId(size, entries[..n], id) || (Taken(size, entries, n) && entries[n].node.contact.id == id)
  {
    var n := |entries| - 1;
    forall k | 0 <= k < n ensures Taken(size, entries[..n], k) == Taken(size, entries, k) {
      assert entries[..n][..k] == entries[..k];
    }
    forall k | 0 <= k < n && Taken(size, entries[..n], k) && entries[..n][k].node.contact.id == id
      ensures TakesId(size, entries, id)
    {
      assert entries[k].node.contact.id == id;
    }
  }

  lemma {:induction false} TakenIsMember(size: nat, entries: seq<Entry>, id: Bytes)
    ensures id in TakenIds(size, entries) <==> TakesId(size, entries, id)
  {
    if entries == [] {
    } else {
      TakenIsMember(size, entries[..|entries| - 1], id);
      TakesIdStep(size, entries, id);
    }
  }

  ghost predicate HasId(entries: seq<Entry>, id: Bytes) {
    exists k :: 0 <= k < |entries| && entries[k].node.contact.id == id
  }

  lemma HasIdStep(entries: seq<Entry>, id: Bytes)
    requires entries != []
    ensures var n := |entries| - 1;
            HasId(entries, id) <==> HasId(entries[..n], id) || entries[n].node.contact.id == id
  {
  }

  lemma {:induction false} ShareHasId(entries: seq<Entry>, home: Home, i: nat, id: Bytes)
    requires home(id) == Some(i)
    ensures id in EntryIds(Share(entries, home, i)) <==> HasId(entries, id)
  {
    if entries == [] {
    } else {
      ShareHasId(entries[..|entries| - 1], home, i, id);
      ShareStep(entries, home, i);
      HasIdStep(entries, id);
    }
  }

  /**
   Restoring does not look for any particular id, ours included: the table has it afterwards exactly when one of
   its entries found room. An id the snapshot lacks is missing; one it has is missing only after an overflow.
   */
  lemma RestoredId(size: nat, home: Home, entries: seq<Entry>, i: nat, id: Bytes)
    requires i < BUCKET_COUNT && home(id) == Some(i)
    ensures var b := PlaceAll(size, home, entries)[i];
            && (id in IdBag(b) <==> TakesId(size, Share(entries, home, i), id))
            && (id in IdBag(b) ==> HasId(entries, id))
            && (|Share(entries, home, i)| <= size ==> (id in IdBag(b) <==> HasId(entries, id)))
  {
    PlacedByShare(size, home, entries, i);
    FillTakes(size, Share(entries, home, i));
    TakenIsMember(size, Share(entries, home, i), id);
    FillConserves(size, Share(entries, home, i));
    ShareHasId(entries, home, i, id);
  }
}
