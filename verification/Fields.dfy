/** Splitting text into its non-empty fields, and joining fields into text. */
module FieldLists {

  ghost predicate Avoids<T>(v: seq<T>, sep: T) {
    forall i :: 0 <= i < |v| ==> v[i] != sep
  }

  function NonEmpty<T>(field: seq<T>): seq<seq<T>> {
    if |field| == 0 then [] else [field]
  }

  /** The fields of `begun + v`, where the field now begun has no separator. */
  function FieldsAfter<T(==)>(begun: seq<T>, v: seq<T>, sep: T): seq<seq<T>>
    decreases |v|
  {
    if |v| == 0 then NonEmpty(begun)
    else if v[0] == sep then NonEmpty(begun) + FieldsAfter([], v[1..], sep)
    else FieldsAfter(begun + [v[0]], v[1..], sep)
  }

  /** The non-empty stretches between separators. */
  function Fields<T(==)>(v: seq<T>, sep: T): seq<seq<T>> {
    FieldsAfter([], v, sep)
  }

  lemma {:induction false} FieldBegins<T>(begun: seq<T>, head: seq<T>, v: seq<T>, sep: T)
    requires Avoids(head, sep)
    ensures FieldsAfter(begun, head + v, sep) == FieldsAfter(begun + head, v, sep)
    decreases |head|
  {
    if |head| == 0 {
      assert head + v == v && begun + head == begun;
    } else {
      var w := head + v;
      assert w[1..] == head[1..] + v && begun + [head[0]] + head[1..] == begun + head;
      FieldBegins(begun + [head[0]], head[1..], v, sep);
    }
  }

  lemma FieldsCut<T>(head: seq<T>, tail: seq<T>, sep: T)
    requires Avoids(head, sep)
    ensures Fields(head, sep) == NonEmpty(head)
    ensures Fields(head + ([sep] + tail), sep) == NonEmpty(head) + Fields(tail, sep)
  {
    FieldBegins([], head, [], sep);
    FieldBegins([], head, [sep] + tail, sep);
    assert head + [] == head && [] + head == head && ([sep] + tail)[1..] == tail;
  }

  method Find<T(==)>(v: seq<T>, sep: T, begin: nat) returns (end: nat)
    requires begin <= |v|
    ensures begin <= end <= |v| && Avoids(v[begin..end], sep) && (end < |v| ==> v[end] == sep)
  {
    end := begin;
    while end < |v| && v[end] != sep
      invariant begin <= end <= |v| && forall i :: begin <= i < end ==> v[i] != sep
    {
      end := end + 1;
    }
  }

  method FieldsOf<T(==)>(v: seq<T>, sep: T) returns (fields: seq<seq<T>>)
    ensures fields == Fields(v, sep)
  {
    fields := [];
    var begin := 0;
    ghost var rest := v;
    while true
      invariant 0 <= begin <= |v| && rest == v[begin..] && fields + Fields(rest, sep) == Fields(v, sep)
      decreases |v| - begin
    {
      var end := Find(v, sep, begin);
      var field := v[begin..end];
      if end == |v| {
        FieldsCut(field, [], sep);
        assert rest == field;
        return fields + NonEmpty(field);
      }
      ghost var tail := v[end + 1..];
      FieldsCut(field, tail, sep);
      assert rest == field + ([sep] + tail);
      assert fields + (NonEmpty(field) + Fields(tail, sep)) == fields + NonEmpty(field) + Fields(tail, sep);
      fields, begin, rest := fields + NonEmpty(field), end + 1, tail;
    }
  }

  // ---------------------------------------------------------------------------
  // Splitting what was joined
  // ---------------------------------------------------------------------------

  function Join<T>(parts: seq<seq<T>>, sep: T): seq<T> {
    if |parts| == 0 then [] else if |parts| == 1 then parts[0] else parts[0] + ([sep] + Join(parts[1..], sep))
  }

  /** A part that splitting gives back: not empty, and without the separator. */
  ghost predicate Whole<T>(part: seq<T>, sep: T) {
    |part| > 0 && Avoids(part, sep)
  }

  /** Such parts survive joining and splitting. */
  lemma {:induction false} SplitsBack<T>(parts: seq<seq<T>>, sep: T)
    requires forall i :: 0 <= i < |parts| ==> Whole(parts[i], sep)
    ensures Fields(Join(parts, sep), sep) == parts
    decreases |parts|
  {
    if |parts| == 0 {
    } else {
      FieldsCut(parts[0], Join(parts[1..], sep), sep);
      SplitsBack(parts[1..], sep);
      assert parts == [parts[0]] + parts[1..];
    }
  }

  lemma {:induction false} JoinAvoids<T>(parts: seq<seq<T>>, sep: T, other: T)
    requires sep != other && forall i :: 0 <= i < |parts| ==> Avoids(parts[i], other)
    ensures Avoids(Join(parts, sep), other)
    decreases |parts|
  {
    if |parts| <= 1 {
    } else {
      JoinAvoids(parts[1..], sep, other);
    }
  }

  /** Every field is non-empty. */
  lemma {:induction false} FieldsNonEmpty<T>(begun: seq<T>, v: seq<T>, sep: T)
    ensures forall f :: f in FieldsAfter(begun, v, sep) ==> |f| > 0
    decreases |v|
  {
    if |v| == 0 {
    } else {
      FieldsNonEmpty(if v[0] == sep then [] else begun + [v[0]], v[1..], sep);
    }
  }
}
