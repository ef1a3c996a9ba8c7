/** Reading binary data at an offset, and what it takes for a read to give back what was written there. */
module Reader {

  import opened Base
  import opened ByteStrings

  /** The value and the offset after it, or too little data. */
  datatype Read<+T> = Cut | Got(value: T, next: nat)

  function Take(p: Bytes, o: nat, n: nat): (r: Read<Bytes>)
    ensures r.Got? <==> o + n <= |p|
    ensures r.Got? ==> |r.value| == n && r.next == o + n
  {
    if n > |p| || o > |p| - n then Cut else Got(p[o..o + n], o + n)
  }

  /** An unsigned little-endian number of `n` bytes. */
  function ReadUInt(p: Bytes, o: nat, n: nat): (r: Read<nat>)
    ensures r.Got? ==> r.value < Power256(n)
  {
    match Take(p, o, n) case Cut => Cut case Got(data, next) =>
    ReadBound(data);
    Got(ReadLE(data), next)
  }

  lemma Widths()
    ensures Power256(1) == 256 && Power256(2) == 0x1_0000 && Power256(4) == 0x1_0000_0000
    ensures Power256(8) == 0x1_0000_0000_0000_0000
  {
  }

  function ReadByte(p: Bytes, o: nat): Read<byte> {
    match ReadUInt(p, o, 1) case Cut => Cut case Got(v, next) =>
    Widths();
    Got(v, next)
  }

  function ReadUInt16(p: Bytes, o: nat): Read<uint16> {
    match ReadUInt(p, o, 2) case Cut => Cut case Got(v, next) =>
    Widths();
    Got(v, next)
  }

  function ReadUInt32(p: Bytes, o: nat): Read<uint32> {
    match ReadUInt(p, o, 4) case Cut => Cut case Got(v, next) =>
    Widths();
    Got(v, next)
  }

  /** Two's complement. */
  function ReadInt64(p: Bytes, o: nat): Read<int64> {
    match ReadUInt(p, o, 8) case Cut => Cut case Got(v, next) =>
    Widths();
    Got(if v < 0x8000_0000_0000_0000 then v else v - 0x1_0000_0000_0000_0000, next)
  }

  function ReadBool(p: Bytes, o: nat): Read<bool> {
    match ReadByte(p, o) case Cut => Cut case Got(v, next) =>
    Got(v != 0, next)
  }

  function ReadString(p: Bytes, o: nat): (r: Read<Bytes>)
    ensures r.Got? ==> |r.value| < 0x1_0000
  {
    match ReadUInt16(p, o) case Cut => Cut case Got(size, next) =>
    Take(p, next, size)
  }

  function ReadMany<T>(p: Bytes, o: nat, n: nat, item: (Bytes, nat) -> Read<T>): (r: Read<seq<T>>)
    ensures r.Got? ==> |r.value| == n
    decreases n
  {
    if n == 0 then Got([], o)
    else
      match item(p, o)
      case Cut => Cut
      case Got(x, next) => After([x], ReadMany(p, next, n - 1, item))
  }

  /** The source's counting loop reads what the recursive definition says. */
  method ReadLoop<T>(p: Bytes, o: nat, n: nat, item: (Bytes, nat) -> Read<T>) returns (r: Read<seq<T>>)
    ensures r == ReadMany(p, o, n, item)
  {
    var xs: seq<T>, at := [], o;
    AfterNothing(ReadMany(p, o, n, item));
    for i := 0 to n
      invariant ReadMany(p, o, n, item) == After(xs, ReadMany(p, at, n - i, item))
    {
      match item(p, at) {
        case Cut =>
          return Cut;
        case Got(x, next) =>
          AfterOne(xs, x, ReadMany(p, next, n - i - 1, item));
          xs, at := xs + [x], next;
      }
    }
    AfterAll(xs, at);
    return Got(xs, at);
  }

  /** What was read so far, before the rest. */
  function After<T>(xs: seq<T>, rest: Read<seq<T>>): Read<seq<T>> {
    match rest
    case Cut => Cut
    case Got(more, end) => Got(xs + more, end)
  }

  lemma AfterNothing<T>(rest: Read<seq<T>>)
    ensures After([], rest) == rest
  {
    assert rest.Got? ==> [] + rest.value == rest.value;
  }

  lemma AfterOne<T>(xs: seq<T>, x: T, rest: Read<seq<T>>)
    ensures After(xs, After([x], rest)) == After(xs + [x], rest)
  {
    if rest.Got? {
      assert xs + ([x] + rest.value) == xs + [x] + rest.value;
    }
  }

  lemma AfterAll<T>(xs: seq<T>, end: nat)
    ensures After(xs, Got([], end)) == Got(xs, end)
  {
    assert xs + [] == xs;
  }

  // ---------------------------------------------------------------------------
  // Writing
  // ---------------------------------------------------------------------------

  function WriteInt64(v: int64): Bytes {
    PackLE(if v < 0 then v + 0x1_0000_0000_0000_0000 else v, 8)
  }

  function WriteBool(b: bool): Bytes {
    [if b then 1 else 0]
  }

  function WriteString(s: Bytes): Bytes {
    PackLE(|s|, 2) + s
  }

  function WriteMany<T>(xs: seq<T>, write: T -> Bytes): Bytes {
    if xs == [] then [] else write(xs[0]) + WriteMany(xs[1..], write)
  }

  // ---------------------------------------------------------------------------
  // Reading back
  // ---------------------------------------------------------------------------

  /** These bytes are at this offset. */
  ghost predicate At(p: Bytes, o: nat, w: Bytes) {
    o + |w| <= |p| && p[o..o + |w|] == w
  }

  lemma AtSplit(p: Bytes, o: nat, a: Bytes, b: Bytes)
    requires At(p, o, a + b)
    ensures At(p, o, a) && At(p, o + |a|, b)
  {
    var w := a + b;
    assert w[..|a|] == a && w[|a|..] == b;
    assert p[o..o + |a|] == p[o..o + |w|][..|a|];
    assert p[o + |a|..o + |a| + |b|] == p[o..o + |w|][|a|..];
  }

  lemma TakeAt(p: Bytes, o: nat, w: Bytes)
    requires At(p, o, w)
    ensures Take(p, o, |w|) == Got(w, o + |w|)
  {
  }

  lemma UIntAt(p: Bytes, o: nat, v: nat, n: nat)
    requires v < Power256(n) && At(p, o, PackLE(v, n))
    ensures ReadUInt(p, o, n) == Got(v, o + n)
  {
    PackRoundTrip(v, n);
  }

  lemma UInt16At(p: Bytes, o: nat, v: uint16)
    requires At(p, o, PackLE(v, 2))
    ensures ReadUInt16(p, o) == Got(v, o + 2)
  {
    Widths();
    UIntAt(p, o, v, 2);
  }

  lemma UInt32At(p: Bytes, o: nat, v: uint32)
    requires At(p, o, PackLE(v, 4))
    ensures ReadUInt32(p, o) == Got(v, o + 4)
  {
    Widths();
    UIntAt(p, o, v, 4);
  }

  lemma Int64At(p: Bytes, o: nat, v: int64)
    requires At(p, o, WriteInt64(v))
    ensures ReadInt64(p, o) == Got(v, o + 8)
  {
    Widths();
    UIntAt(p, o, if v < 0 then v + 0x1_0000_0000_0000_0000 else v, 8);
  }

  lemma ByteAt(p: Bytes, o: nat, v: byte)
    requires At(p, o, [v])
    ensures ReadByte(p, o) == Got(v, o + 1)
  {
  }

  lemma BoolAt(p: Bytes, o: nat, b: bool)
    requires At(p, o, WriteBool(b))
    ensures ReadBool(p, o) == Got(b, o + 1)
  {
  }

  lemma StringAt(p: Bytes, o: nat, s: Bytes)
    requires |s| < 0x1_0000 && At(p, o, WriteString(s))
    ensures ReadString(p, o) == Got(s, o + 2 + |s|)
  {
    AtSplit(p, o, PackLE(|s|, 2), s);
    UInt16At(p, o, |s|);
    TakeAt(p, o + 2, s);
  }

  /** Wherever `x` was written in `p`, `item` reads it back, up to what `keep` forgets. */
  ghost predicate ReadsBack<T(!new)>(p: Bytes, x: T, write: T -> Bytes, item: (Bytes, nat) -> Read<T>, keep: T -> T) {
    forall o: nat {:trigger item(p, o)} :: At(p, o, write(x)) ==> item(p, o) == Got(keep(x), o + |write(x)|)
  }

  function Kept<T>(xs: seq<T>, keep: T -> T): (r: seq<T>)
    ensures |r| == |xs| && forall i :: 0 <= i < |xs| ==> r[i] == keep(xs[i])
  {
    seq(|xs|, i requires 0 <= i < |xs| => keep(xs[i]))
  }

  lemma FirstAt<T(!new)>(p: Bytes, o: nat, xs: seq<T>, write: T -> Bytes, item: (Bytes, nat) -> Read<T>, keep: T -> T)
    requires xs != [] && At(p, o, WriteMany(xs, write)) && ReadsBack(p, xs[0], write, item, keep)
    ensures var next := o + |write(xs[0])|;
            item(p, o) == Got(keep(xs[0]), next) && At(p, next, WriteMany(xs[1..], write))
  {
    AtSplit(p, o, write(xs[0]), WriteMany(xs[1..], write));
  }

  lemma KeptStep<T>(xs: seq<T>, keep: T -> T)
    requires xs != []
    ensures Kept(xs, keep) == [keep(xs[0])] + Kept(xs[1..], keep)
  {
  }

  lemma {:induction false} ManyAt<T(!new)>(p: Bytes, o: nat, xs: seq<T>, write: T -> Bytes,
                                          item: (Bytes, nat) -> Read<T>, keep: T -> T)
    requires At(p, o, WriteMany(xs, write))
    requires forall x :: x in xs ==> ReadsBack(p, x, write, item, keep)
    ensures ReadMany(p, o, |xs|, item) == Got(Kept(xs, keep), o + |WriteMany(xs, write)|)
    decreases |xs|
  {
    if xs == [] {
    } else {
      FirstAt(p, o, xs, write, item, keep);
      ManyAt(p, o + |write(xs[0])|, xs[1..], write, item, keep);
      KeptStep(xs, keep);
    }
  }

  // ---------------------------------------------------------------------------
  // Records, part by part
  // ---------------------------------------------------------------------------

  /**
   One part of a record: how it is written, how it is read into the record read so far, and what the
   record then has of the one written.
   */
  datatype Part<!S> = Part(write: S -> Bytes, read: (Bytes, nat, S) -> Read<S>, keep: (S, S) -> S)

  /** One part after the other. */
  function Then<S>(a: Part<S>, b: Part<S>): Part<S> {
    Part((s: S) => a.write(s) + b.write(s),
         (p: Bytes, o: nat, r: S) => match a.read(p, o, r) case Cut => Cut case Got(r1, o1) => b.read(p, o1, r1),
         (s: S, r: S) => b.keep(s, a.keep(s, r)))
  }

  /** Whatever was read before, reading the part gives what is kept of it. */
  ghost predicate Restores<S(!new)>(a: Part<S>, s: S) {
    forall p: Bytes, o: nat, r: S {:trigger a.read(p, o, r)} ::
      At(p, o, a.write(s)) ==> a.read(p, o, r) == Got(a.keep(s, r), o + |a.write(s)|)
  }

  lemma ThenRestores<S(!new)>(a: Part<S>, b: Part<S>, s: S)
    requires Restores(a, s) && Restores(b, s)
    ensures Restores(Then(a, b), s)
  {
    var both := Then(a, b);
    forall p: Bytes, o: nat, r: S | At(p, o, both.write(s))
      ensures both.read(p, o, r) == Got(both.keep(s, r), o + |both.write(s)|)
    {
      AtSplit(p, o, a.write(s), b.write(s));
      assert a.read(p, o, r) == Got(a.keep(s, r), o + |a.write(s)|);
      assert b.read(p, o + |a.write(s)|, a.keep(s, r)).Got?;
    }
  }

  lemma ThenKeeps<S>(a: Part<S>, b: Part<S>, s: S, r: S)
    ensures Then(a, b).keep(s, r) == b.keep(s, a.keep(s, r))
  {
  }

  function ItemReader<T>(a: Part<T>, blank: T): (Bytes, nat) -> Read<T> {
    (p: Bytes, o: nat) => a.read(p, o, blank)
  }

  function ItemKeeper<T>(a: Part<T>, blank: T): T -> T {
    (x: T) => a.keep(x, blank)
  }

  lemma ItemReadsBack<T(!new)>(p: Bytes, a: Part<T>, blank: T, x: T)
    requires Restores(a, x)
    ensures ReadsBack(p, x, a.write, ItemReader(a, blank), ItemKeeper(a, blank))
  {
  }

  /** A counted list of such records. */
  function WriteList<T>(width: nat, a: Part<T>, xs: seq<T>): Bytes {
    PackLE(|xs|, width) + WriteMany(xs, a.write)
  }

  function ReadList<T>(width: nat, a: Part<T>, blank: T, p: Bytes, o: nat): Read<seq<T>> {
    match ReadUInt(p, o, width) case Cut => Cut case Got(count, o1) =>
    ReadMany(p, o1, count, ItemReader(a, blank))
  }

  lemma ListAt<T(!new)>(width: nat, a: Part<T>, blank: T, xs: seq<T>, p: Bytes, o: nat)
    requires |xs| < Power256(width) && (forall x :: x in xs ==> Restores(a, x))
    requires At(p, o, WriteList(width, a, xs))
    ensures ReadList(width, a, blank, p, o) == Got(Kept(xs, ItemKeeper(a, blank)), o + |WriteList(width, a, xs)|)
  {
    AtSplit(p, o, PackLE(|xs|, width), WriteMany(xs, a.write));
    UIntAt(p, o, |xs|, width);
    forall x | x in xs ensures ReadsBack(p, x, a.write, ItemReader(a, blank), ItemKeeper(a, blank)) {
      ItemReadsBack(p, a, blank, x);
    }
    ManyAt(p, o + width, xs, a.write, ItemReader(a, blank), ItemKeeper(a, blank));
  }

  /** A counted list inside a record. */
  function ListPart<S, T>(width: nat, a: Part<T>, blank: T, get: S -> seq<T>, put: (S, seq<T>) -> S): Part<S> {
    Part((s: S) => WriteList(width, a, get(s)),
         (p: Bytes, o: nat, r: S) =>
           match ReadList(width, a, blank, p, o) case Cut => Cut case Got(xs, o1) => Got(put(r, xs), o1),
         (s: S, r: S) => put(r, Kept(get(s), ItemKeeper(a, blank))))
  }

  lemma ListPartRestores<S(!new), T(!new)>(width: nat, a: Part<T>, blank: T, get: S -> seq<T>,
                           put: (S, seq<T>) -> S, s: S)
    requires |get(s)| < Power256(width) && forall x :: x in get(s) ==> Restores(a, x)
    ensures Restores(ListPart(width, a, blank, get, put), s)
  {
    var part := ListPart(width, a, blank, get, put);
    forall p: Bytes, o: nat, r: S | At(p, o, part.write(s))
      ensures part.read(p, o, r) == Got(part.keep(s, r), o + |part.write(s)|)
    {
      ListAt(width, a, blank, get(s), p, o);
    }
  }

  lemma ListKeeps<S, T>(width: nat, a: Part<T>, blank: T, get: S -> seq<T>, put: (S, seq<T>) -> S, s: S, r: S)
    ensures ListPart(width, a, blank, get, put).keep(s, r) == put(r, Kept(get(s), ItemKeeper(a, blank)))
  {
  }

  lemma ListWrites<S, T>(width: nat, a: Part<T>, blank: T, get: S -> seq<T>, put: (S, seq<T>) -> S, s: S)
    ensures ListPart(width, a, blank, get, put).write(s) == WriteList(width, a, get(s))
  {
  }

  /** Nothing. */
  function Skip<S>(): Part<S> {
    Part((s: S) => [], (p: Bytes, o: nat, r: S) => Got(r, o), (s: S, r: S) => r)
  }

  lemma ThenWrites<S>(payload: Bytes, a: Part<S>, b: Part<S>, s: S)
    ensures payload + Then(a, b).write(s) == payload + a.write(s) + b.write(s)
  {
  }

  // ---------------------------------------------------------------------------
  // What any data reads as
  // ---------------------------------------------------------------------------

  /** Reading the part, from whatever data, keeps a property of the record. */
  ghost predicate Yields<S(!new)>(a: Part<S>, inv: S -> bool) {
    forall p: Bytes, o: nat, r: S {:trigger a.read(p, o, r)} ::
      inv(r) && a.read(p, o, r).Got? ==> inv(a.read(p, o, r).value)
  }

  lemma ThenYields<S(!new)>(a: Part<S>, b: Part<S>, inv: S -> bool)
    requires Yields(a, inv) && Yields(b, inv)
    ensures Yields(Then(a, b), inv)
  {
  }

  /** Every record read, from whatever data, has the property. */
  ghost predicate Produces<T(!new)>(a: Part<T>, blank: T, good: T -> bool) {
    forall p: Bytes, o: nat {:trigger a.read(p, o, blank)} ::
      a.read(p, o, blank).Got? ==> good(a.read(p, o, blank).value)
  }

  lemma {:induction false} ManyProduces<T(!new)>(p: Bytes, o: nat, n: nat, a: Part<T>, blank: T, good: T -> bool)
    requires Produces(a, blank, good)
    ensures var r := ReadMany(p, o, n, ItemReader(a, blank)); r.Got? ==> forall x :: x in r.value ==> good(x)
    decreases n
  {
    if n == 0 {
    } else {
      var first := a.read(p, o, blank);
      if first.Got? {
        ManyProduces(p, first.next, n - 1, a, blank, good);
      }
    }
  }

  lemma ListProduces<T(!new)>(width: nat, a: Part<T>, blank: T, good: T -> bool, p: Bytes, o: nat)
    requires Produces(a, blank, good)
    ensures var r := ReadList(width, a, blank, p, o);
            r.Got? ==> |r.value| < Power256(width) && forall x :: x in r.value ==> good(x)
  {
    var count := ReadUInt(p, o, width);
    if count.Got? {
      ManyProduces(p, count.next, count.value, a, blank, good);
    }
  }

  lemma ListPartYields<S(!new), T(!new)>(width: nat, a: Part<T>, blank: T, get: S -> seq<T>, put: (S, seq<T>) -> S,
                                        good: T -> bool, inv: S -> bool)
    requires Produces(a, blank, good)
    requires forall r: S, xs: seq<T> {:trigger put(r, xs)} ::
               inv(r) && |xs| < Power256(width) && (forall x :: x in xs ==> good(x)) ==> inv(put(r, xs))
    ensures Yields(ListPart(width, a, blank, get, put), inv)
  {
    var part := ListPart(width, a, blank, get, put);
    forall p: Bytes, o: nat, r: S | inv(r) && part.read(p, o, r).Got? ensures inv(part.read(p, o, r).value) {
      ListProduces(width, a, blank, good, p, o);
      var xs := ReadList(width, a, blank, p, o).value;
      assert part.read(p, o, r).value == put(r, xs);
    }
  }

  lemma FirstYields<S(!new)>(first: Part<S>, rest: Part<S>, blank: S, inv: S -> bool, p: Bytes, o: nat)
    requires Yields(rest, inv) && (first.read(p, o, blank).Got? ==> inv(first.read(p, o, blank).value))
    ensures var r := Then(first, rest).read(p, o, blank); r.Got? ==> inv(r.value)
  {
  }

  lemma KeptSame<T>(xs: seq<T>, keep: T -> T)
    requires forall x :: x in xs ==> keep(x) == x
    ensures Kept(xs, keep) == xs
  {
  }

  /** Appends the records one by one; None as soon as one cannot be written. */
  method AppendAll<T>(payload: Bytes, xs: seq<T>, ok: T -> bool, write: T -> Bytes) returns (r: Option<Bytes>)
    ensures r == if (forall x :: x in xs ==> ok(x)) then Some(payload + WriteMany(xs, write)) else None
  {
    var out := payload;
    for i := 0 to |xs|
      invariant forall k :: 0 <= k < i ==> ok(xs[k])
      invariant out + WriteMany(xs[i..], write) == payload + WriteMany(xs, write)
    {
      if !ok(xs[i]) {
        return None;
      }
      WriteStep(out, xs[i..], write);
      out := out + write(xs[i]);
      assert xs[i..][1..] == xs[i + 1..];
    }
    assert out + [] == out;
    return Some(out);
  }

  lemma WriteStep<T>(out: Bytes, xs: seq<T>, write: T -> Bytes)
    requires xs != []
    ensures out + WriteMany(xs, write) == out + write(xs[0]) + WriteMany(xs[1..], write)
  {
  }
}
