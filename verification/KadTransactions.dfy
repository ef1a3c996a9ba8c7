/** The table of requests that wait for an answer: each leaves it once, answered or expired. */
module KadTransactions {

  import opened Base
  import opened ByteStrings
  import opened KadLookup

  /** Who was asked, which answer is expected, about which target, and when. */
  datatype Transaction =
    Transaction(host: Bytes, port: uint16, contact: Contact, opcode: byte, target: Bytes, sent: int64)

  /** An answer from this endpoint about this target belongs to the transaction. */
  predicate Fits(t: Transaction, host: Bytes, port: uint16, opcode: byte, target: Bytes) {
    t.opcode == opcode && t.target == target && t.host == host && t.port == port
  }

  /** Too long without an answer. */
  predicate Due(t: Transaction, now: int64, timeout: int64) {
    now - t.sent >= timeout
  }

  function FirstFit(ts: seq<Transaction>, host: Bytes, port: uint16, opcode: byte, target: Bytes): (i: Option<nat>)
    ensures i == None ==> forall k :: 0 <= k < |ts| ==> !Fits(ts[k], host, port, opcode, target)
    ensures i.Some? ==> i.value < |ts| && Fits(ts[i.value], host, port, opcode, target)
                        && forall k :: 0 <= k < i.value ==> !Fits(ts[k], host, port, opcode, target)
  {
    if ts == [] then None
    else if Fits(ts[0], host, port, opcode, target) then Some(0)
    else match FirstFit(ts[1..], host, port, opcode, target)
      case None => None
      case Some(k) => Some(k + 1)
  }

  function Removed(ts: seq<Transaction>, i: nat): seq<Transaction>
    requires i < |ts|
  {
    ts[..i] + ts[i + 1..]
  }

  /** Those that are due, or those that are not, in order. */
  function Sifted(ts: seq<Transaction>, now: int64, timeout: int64, due: bool): seq<Transaction> {
    if ts == [] then []
    else
      var n := |ts| - 1;
      Sifted(ts[..n], now, timeout, due) + if Due(ts[n], now, timeout) == due then [ts[n]] else []
  }

  /** Nothing is lost and nothing ends twice: what expires and what stays make up the table. */
  lemma {:induction false} SiftedAll(ts: seq<Transaction>, now: int64, timeout: int64)
    ensures multiset(Sifted(ts, now, timeout, true)) + multiset(Sifted(ts, now, timeout, false)) == multiset(ts)
  {
    if ts == [] {
    } else {
      var init, last := ts[..|ts| - 1], ts[|ts| - 1];
      SiftedAll(init, now, timeout);
      assert ts == init + [last];
    }
  }

  /** Exactly those that are due expire. */
  lemma {:induction false} SiftedEach(ts: seq<Transaction>, now: int64, timeout: int64, due: bool, t: Transaction)
    ensures t in Sifted(ts, now, timeout, due) <==> t in ts && Due(t, now, timeout) == due
  {
    if ts == [] {
    } else {
      var init, last := ts[..|ts| - 1], ts[|ts| - 1];
      SiftedEach(init, now, timeout, due, t);
      assert ts == init + [last];
    }
  }

  lemma RemovedOne(ts: seq<Transaction>, i: nat)
    requires i < |ts|
    ensures multiset(ts) == multiset(Removed(ts, i)) + multiset{ts[i]}
  {
    assert ts == ts[..i] + [ts[i]] + ts[i + 1..];
  }

  class KadTransactionTable {
    var transactions: seq<Transaction>

    constructor ()
      ensures transactions == []
    {
      transactions := [];
    }

    method Add(t: Transaction)
      modifies this
      ensures transactions == old(transactions) + [t]
    {
      transactions := transactions + [t];
    }

    /** The first request the answer fits is over; an answer that fits none is refused. */
    method Complete(host: Bytes, port: uint16, opcode: byte, target: Bytes) returns (r: Option<Transaction>)
      modifies this
      ensures match FirstFit(old(transactions), host, port, opcode, target)
              case None => r == None && transactions == old(transactions)
              case Some(i) => r == Some(old(transactions)[i]) && transactions == Removed(old(transactions), i)
      ensures r.Some? ==> multiset(transactions) == multiset(old(transactions)) - multiset{r.value}
    {
      var k := 0;
      while k < |transactions| && !Fits(transactions[k], host, port, opcode, target)
        invariant 0 <= k <= |transactions|
        invariant forall j :: 0 <= j < k ==> !Fits(transactions[j], host, port, opcode, target)
      {
        k := k + 1;
      }
      if k == |transactions| {
        return None;
      }
      RemovedOne(transactions, k);
      r := Some(transactions[k]);
      transactions := transactions[..k] + transactions[k + 1..];
    }

    /** The erasing loop: requests without an answer for too long are over. */
    method Expire(now: int64, timeout: int64) returns (expired: seq<Transaction>)
      modifies this
      ensures expired == Sifted(old(transactions), now, timeout, true)
      ensures transactions == Sifted(old(transactions), now, timeout, false)
      ensures multiset(expired) + multiset(transactions) == multiset(old(transactions))
    {
      ghost var all := transactions;
      expired := [];
      var i := 0;
      ghost var seen := 0;
      while i < |transactions|
        invariant 0 <= i <= |transactions| && 0 <= seen <= |all|
        invariant transactions[i..] == all[seen..]
        invariant transactions[..i] == Sifted(all[..seen], now, timeout, false)
        invariant expired == Sifted(all[..seen], now, timeout, true)
        decreases |transactions| - i
      {
        assert all[seen] == transactions[i..][0] == transactions[i];
        assert all[..seen + 1][..seen] == all[..seen];
        if Due(transactions[i], now, timeout) {
          expired := expired + [transactions[i]];
          transactions := transactions[..i] + transactions[i + 1..];
        } else {
          i := i + 1;
        }
        seen := seen + 1;
      }
      assert all[..seen] == all;
      SiftedAll(all, now, timeout);
    }
  }
}
