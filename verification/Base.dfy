/** Small shared vocabulary: optional values and integer minimum and maximum. */
module Base {

  datatype Option<+T> = None | Some(value: T)

  function Min(a: int, b: int): int {
    if a <= b then a else b
  }

  function Max(a: int, b: int): int {
    if a >= b then a else b
  }

  function MaxReal(a: real, b: real): real {
    if a >= b then a else b
  }

  lemma PrefixGrows<T>(s: seq<T>, k: nat)
    requires k < |s|
    ensures s[..k + 1] == s[..k] + [s[k]]
  {
  }

  lemma Witness<T>(s: set<T>) returns (x: T)
    requires s != {}
    ensures x in s
  {
    x :| x in s;
  }

  lemma {:induction false} LeastOf(s: set<int>) returns (m: int)
    requires s != {}
    ensures m in s && forall x :: x in s ==> m <= x
  {
    m := Witness(s);
    var rest := s - {m};
    if rest == {} {
      assert forall y :: y in s ==> y == m || y in rest;
    } else {
      var least := LeastOf(rest);
      assert forall y :: y in s ==> y == m || y in rest;
      m := Min(m, least);
    }
  }

  lemma LeastExists(s: set<int>)
    requires s != {}
    ensures exists m :: m in s && forall x :: x in s ==> m <= x
  {
    var m := LeastOf(s);
  }

  /** The elements of a finite set in ascending order: how an ordered map is walked. */
  function InOrder(s: set<int>): (r: seq<int>)
    ensures forall i, j :: 0 <= i < j < |r| ==> r[i] < r[j]
    ensures forall x :: x in r <==> x in s
  {
    if s == {} then []
    else
      LeastExists(s);
      var m :| m in s && forall x :: x in s ==> m <= x;
      var rest := InOrder(s - {m});
      assert forall i :: 0 <= i < |rest| ==> rest[i] in rest;
      [m] + rest
  }

  /** Inserting an element related to all before and all after it keeps a pairwise relation. */
  lemma InsertPairwise<T>(s: seq<T>, k: nat, c: T, rel: (T, T) -> bool)
    requires k <= |s|
    requires forall i, j :: 0 <= i < j < |s| ==> rel(s[i], s[j])
    requires forall i :: 0 <= i < k ==> rel(s[i], c)
    requires forall i :: k <= i < |s| ==> rel(c, s[i])
    ensures var t := s[..k] + [c] + s[k..]; forall i, j :: 0 <= i < j < |t| ==> rel(t[i], t[j])
  {
  }

  /** Erasing an element keeps a pairwise relation and drops exactly one occurrence. */
  lemma RemovePairwise<T>(s: seq<T>, k: nat, rel: (T, T) -> bool)
    requires k < |s|
    requires forall i, j :: 0 <= i < j < |s| ==> rel(s[i], s[j])
    ensures var t := s[..k] + s[k + 1..]; forall i, j :: 0 <= i < j < |t| ==> rel(t[i], t[j])
    ensures multiset(s[..k] + s[k + 1..]) == multiset(s) - multiset{s[k]}
  {
    var t := s[..k] + s[k + 1..];
    forall i, j | 0 <= i < j < |t| ensures rel(t[i], t[j]) {
      var i', j' := if i < k then i else i + 1, if j < k then j else j + 1;
      assert t[i] == s[i'] && t[j] == s[j'];
    }
    assert s == s[..k] + [s[k]] + s[k + 1..];
  }
}
