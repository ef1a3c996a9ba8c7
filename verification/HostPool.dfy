/**
 How many connections each download may hold: what the downloads want, a
 limit for every overloaded server, and a cache of the resulting shares.
 */
module HostPool {

  import opened Base
  import opened Dhondt

  /** Identity of a download (the source code uses its address). */
  type Member = nat

  /** Seconds without overload before a lowered limit grows by one. */
  const CALM_PERIOD: real := 5.0
  const MAX_PAUSE: real := 8.0

  datatype Demand = Demand(host: string, wanted: int, remaining: int, transferring: nat, order: nat)

  /** `limit` is 0 while the server has given no overload feedback. */
  datatype Host = Host(limit: int, strikes: nat, calmSince: real, dropped: real, readyAt: real)

  const NEW_HOST: Host := Host(0, 0, 0.0, 0.0, 0.0)

  // ---------------------------------------------------------------------------
  // Sums over members
  // ---------------------------------------------------------------------------

  ghost function SumOver(s: set<Member>, f: Member -> int): int {
    if s == {} then 0
    else
      var m :| m in s;
      f(m) + SumOver(s - {m}, f)
  }

  lemma {:induction false} SumTake(s: set<Member>, f: Member -> int, m: Member)
    requires m in s
    ensures SumOver(s, f) == f(m) + SumOver(s - {m}, f)
  {
    var first :| first in s && SumOver(s, f) == f(first) + SumOver(s - {first}, f);
    if first != m {
      SumTake(s - {first}, f, m);
      SumTake(s - {m}, f, first);
      assert s - {first} - {m} == s - {m} - {first};
    }
  }

  lemma {:induction false} SumSame(s: set<Member>, f: Member -> int, g: Member -> int)
    requires forall m :: m in s ==> f(m) == g(m)
    ensures SumOver(s, f) == SumOver(s, g)
  {
    if s == {} {
    } else {
      var m :| m in s;
      SumTake(s, f, m);
      SumTake(s, g, m);
      SumSame(s - {m}, f, g);
    }
  }

  ghost function TransferringAt(members: map<Member, Demand>, host: string): Member -> int {
    m => if m in members && members[m].host == host then members[m].transferring else 0
  }

  /** Connections delivering from a server, over all its downloads. */
  ghost function Transferring(members: map<Member, Demand>, host: string): int {
    SumOver(members.Keys, TransferringAt(members, host))
  }

  ghost function WantedAt(members: map<Member, Demand>, host: string): Member -> int {
    m => if m in members && members[m].host == host then members[m].wanted else 0
  }

  ghost function WantedFrom(members: map<Member, Demand>, host: string): int {
    SumOver(members.Keys, WantedAt(members, host))
  }

  ghost predicate Used(members: map<Member, Demand>, host: string) {
    exists m :: m in members && members[m].host == host
  }

  // ---------------------------------------------------------------------------
  // Members of a host in joining order
  // ---------------------------------------------------------------------------

  ghost predicate DistinctOrders(members: map<Member, Demand>) {
    forall m, n :: m in members && n in members && m != n ==> members[m].order != members[n].order
  }

  ghost predicate Earlier(members: map<Member, Demand>, a: Member, b: Member) {
    a in members && b in members && members[a].order < members[b].order
  }

  /** The list holds exactly the members of `s`, in joining order. */
  ghost predicate Joined(members: map<Member, Demand>, s: set<Member>, list: seq<Member>) {
    && (forall m :: m in list <==> m in s)
    && (forall i, j :: 0 <= i < j < |list| ==> Earlier(members, list[i], list[j]))
  }

  function Of(members: map<Member, Demand>, host: string): set<Member> {
    set m | m in members && members[m].host == host
  }

  /** At most one list is in joining order, also across maps that agree on the orders. */
  lemma {:induction false} JoinedUnique(members: map<Member, Demand>, members': map<Member, Demand>, s: set<Member>,
                                        a: seq<Member>, b: seq<Member>)
    requires Joined(members, s, a) && Joined(members', s, b)
    requires forall m :: m in s ==> m in members && m in members' && members[m].order == members'[m].order
    ensures a == b
  {
    JoinedSize(members, s, a);
    JoinedSize(members', s, b);
    if a == [] {
    } else {
      JoinedFirst(members, s, a);
      JoinedFirst(members', s, b);
      JoinedRest(members, s, a);
      JoinedRest(members', s, b);
      JoinedUnique(members, members', s - {a[0]}, a[1..], b[1..]);
    }
  }

  lemma JoinedFirst(members: map<Member, Demand>, s: set<Member>, list: seq<Member>)
    requires Joined(members, s, list) && list != []
    ensures list[0] in s && forall m :: m in s && m != list[0] ==> Earlier(members, list[0], m)
  {
  }

  lemma {:induction false} JoinedSize(members: map<Member, Demand>, s: set<Member>, list: seq<Member>)
    requires Joined(members, s, list)
    ensures |list| == |s|
  {
    if list == [] {
      assert s == {};
    } else {
      assert list[0] in s;
      JoinedRest(members, s, list);
      JoinedSize(members, s - {list[0]}, list[1..]);
    }
  }

  lemma JoinedRest(members: map<Member, Demand>, s: set<Member>, list: seq<Member>)
    requires Joined(members, s, list) && list != []
    ensures Joined(members, s - {list[0]}, list[1..])
  {
  }

  // ---------------------------------------------------------------------------
  // Allowances
  // ---------------------------------------------------------------------------

  ghost function LimitOf(hosts: map<string, Host>, host: string): int {
    if host in hosts then hosts[host].limit else 0
  }

  ghost function SharesOf(members: map<Member, Demand>, list: seq<Member>): (r: seq<Share>)
    requires forall m :: m in list ==> m in members
    ensures |r| == |list|
    ensures forall i :: 0 <= i < |list| ==> r[i] == Share(members[list[i]].wanted, members[list[i]].remaining)
  {
    seq(|list|, i requires 0 <= i < |list| =>
      assert list[i] in list;
      Share(members[list[i]].wanted, members[list[i]].remaining))
  }

  /** `n` is what a fresh division of its host's connections gives the member. */
  ghost predicate IsAllowance(members: map<Member, Demand>, hosts: map<string, Host>, m: Member, n: int) {
    m in members &&
    exists list, i :: Joined(members, Of(members, members[m].host), list) && 0 <= i < |list| && list[i] == m
                   && n == Seats(SharesOf(members, list), LimitOf(hosts, members[m].host))[i]
  }

  /** The cache holds a fresh allocation for every member. */
  ghost predicate Fresh(members: map<Member, Demand>, hosts: map<string, Host>, allowances: map<Member, int>) {
    && allowances.Keys == members.Keys
    && forall m {:trigger IsAllowance(members, hosts, m, allowances[m])} ::
         m in members ==> IsAllowance(members, hosts, m, allowances[m])
  }

  lemma AllowanceUnique(members: map<Member, Demand>, members': map<Member, Demand>,
                        hosts: map<string, Host>, hosts': map<string, Host>, m: Member, n: int, n': int)
    requires IsAllowance(members, hosts, m, n) && IsAllowance(members', hosts', m, n')
    requires members[m].host == members'[m].host
    requires LimitOf(hosts, members[m].host) == LimitOf(hosts', members[m].host)
    requires SameWishes(members, members', members[m].host)
    ensures n == n'
  {
    var host := members[m].host;
    var list, i :| Joined(members, Of(members, host), list) && 0 <= i < |list| && list[i] == m
                && n == Seats(SharesOf(members, list), LimitOf(hosts, host))[i];
    var list', i' :| Joined(members', Of(members', host), list') && 0 <= i' < |list'| && list'[i'] == m
                && n' == Seats(SharesOf(members', list'), LimitOf(hosts', host))[i'];
    JoinedUnique(members, members', Of(members, host), list, list');
    assert i == i' by {
      assert i < i' ==> Earlier(members, list[i], list[i']);
      assert i' < i ==> Earlier(members, list[i'], list[i]);
    }
    assert SharesOf(members, list) == SharesOf(members', list') by {
      forall k | 0 <= k < |list| ensures SharesOf(members, list)[k] == SharesOf(members', list')[k] {
        assert list[k] in list;
      }
    }
  }

  /** Both maps ask the same of the host, in the same joining order. */
  ghost predicate SameWishes(members: map<Member, Demand>, members': map<Member, Demand>, host: string) {
    && Of(members, host) == Of(members', host)
    && forall m :: m in Of(members, host) ==>
         && members[m].wanted == members'[m].wanted
         && members[m].remaining == members'[m].remaining
         && members[m].order == members'[m].order
  }

  /** A member's allowance carries over to a state that asks the same of its host under the same limit. */
  lemma AllowanceKept(members: map<Member, Demand>, members': map<Member, Demand>,
                      hosts: map<string, Host>, hosts': map<string, Host>, m: Member, n: int)
    requires IsAllowance(members, hosts, m, n)
    requires m in members' && members[m].host == members'[m].host
    requires LimitOf(hosts, members[m].host) == LimitOf(hosts', members[m].host)
    requires SameWishes(members, members', members[m].host)
    ensures IsAllowance(members', hosts', m, n)
  {
    var host := members[m].host;
    var list, i :| Joined(members, Of(members, host), list) && 0 <= i < |list| && list[i] == m
                && n == Seats(SharesOf(members, list), LimitOf(hosts, host))[i];
    forall k, l | 0 <= k < l < |list| ensures Earlier(members', list[k], list[l]) {
      assert Earlier(members, list[k], list[l]);
      assert list[k] in list && list[l] in list;
    }
    assert SharesOf(members, list) == SharesOf(members', list) by {
      forall k | 0 <= k < |list| ensures SharesOf(members, list)[k] == SharesOf(members', list)[k] {
        assert list[k] in list;
      }
    }
  }

  /** A new demand for another host leaves no more connections on this one. */
  lemma DemandElsewhere(members: map<Member, Demand>, member: Member, d: Demand, host: string)
    requires d.host != host
    ensures Transferring(members[member := d], host) <= Transferring(members, host)
  {
    var members' := members[member := d];
    var f, f' := TransferringAt(members, host), TransferringAt(members', host);
    var rest := members.Keys - {member};
    assert members'.Keys - {member} == rest;
    SumTake(members'.Keys, f', member);
    SumSame(rest, f, f');
    if member in members {
      SumTake(members.Keys, f, member);
    } else {
      assert members.Keys == rest;
    }
  }

  /** The same question of the server: everything an allowance depends on, except the limit. */
  ghost predicate Alike(a: Demand, b: Demand) {
    a.host == b.host && a.wanted == b.wanted && a.remaining == b.remaining && a.order == b.order
  }

  ghost predicate AllAlike(members: map<Member, Demand>, members': map<Member, Demand>) {
    members.Keys == members'.Keys && forall m :: m in members ==> Alike(members[m], members'[m])
  }

  lemma AlikeWishes(members: map<Member, Demand>, members': map<Member, Demand>, host: string)
    requires AllAlike(members, members')
    ensures SameWishes(members, members', host)
  {
  }

  /** The cache stays fresh while nobody's wish and no limit in use changes. */
  lemma FreshKept(members: map<Member, Demand>, members': map<Member, Demand>,
                  hosts: map<string, Host>, hosts': map<string, Host>, allowances: map<Member, int>)
    requires Fresh(members, hosts, allowances) && AllAlike(members, members')
    requires forall m :: m in members ==> LimitOf(hosts, members[m].host) == LimitOf(hosts', members[m].host)
    ensures Fresh(members', hosts', allowances)
  {
    forall m | m in members' ensures IsAllowance(members', hosts', m, allowances[m]) {
      assert Alike(members[m], members'[m]);
      AlikeWishes(members, members', members[m].host);
      assert IsAllowance(members, hosts, m, allowances[m]);
      AllowanceKept(members, members', hosts, hosts', m, allowances[m]);
    }
  }

  /** A host's state after one tick; None when no download uses it any more. */
  ghost function Ticked(members: map<Member, Demand>, host: string, state: Host, now: real): Option<Host> {
    if !Used(members, host) then None
    else if state.limit > 0 && now - state.calmSince >= CALM_PERIOD then
      Some(Host(if state.limit + 1 >= WantedFrom(members, host) then 0 else state.limit + 1, 0, now,
                state.dropped, state.readyAt))
    else Some(state)
  }

  function Doubled(n: nat): real {
    if n == 0 then 1.0 else 2.0 * Doubled(n - 1)
  }

  /** One second, doubling with every drop in a row. */
  function Pause(strikes: nat): real
    requires strikes > 0
  {
    var doubled := Doubled(Min(strikes - 1, 5));
    if doubled < MAX_PAUSE then doubled else MAX_PAUSE
  }

  /** The cache is fresh unless marked stale, and no limit is below what is being served. */
  ghost predicate Coherent(members: map<Member, Demand>, hosts: map<string, Host>, allowances: map<Member, int>,
                           stale: bool, nextOrder: nat)
  {
    && DemandsOk(members, nextOrder)
    && LimitsOk(members, hosts)
    && (!stale ==> Fresh(members, hosts, allowances))
  }

  ghost predicate DemandsOk(members: map<Member, Demand>, nextOrder: nat) {
    && DistinctOrders(members)
    && forall m :: m in members ==> members[m].order < nextOrder && members[m].wanted >= 1
  }

  ghost predicate LimitsOk(members: map<Member, Demand>, hosts: map<string, Host>) {
    forall h :: h in hosts ==>
      hosts[h].limit >= 0 && (hosts[h].limit > 0 ==> Transferring(members, h) <= hosts[h].limit)
  }

  /** A limit below the connections now being served is raised to them. */
  ghost function Raised(members: map<Member, Demand>, hosts: map<string, Host>, host: string): map<string, Host> {
    if host in hosts && 0 < hosts[host].limit < Transferring(members, host)
    then hosts[host := hosts[host].(limit := Transferring(members, host))]
    else hosts
  }

  lemma UpdateKeepsLimits(members: map<Member, Demand>, hosts: map<string, Host>, member: Member, d: Demand)
    requires LimitsOk(members, hosts)
    ensures LimitsOk(members[member := d], Raised(members[member := d], hosts, d.host))
  {
    var members' := members[member := d];
    var hosts' := Raised(members', hosts, d.host);
    forall h | h in hosts'
      ensures hosts'[h].limit >= 0 && (hosts'[h].limit > 0 ==> Transferring(members', h) <= hosts'[h].limit)
    {
      if h != d.host {
        DemandElsewhere(members, member, d, h);
      }
    }
  }

  lemma UpdateKeeps(members: map<Member, Demand>, hosts: map<string, Host>, allowances: map<Member, int>,
                    stale: bool, nextOrder: nat, member: Member, d: Demand, stale': bool)
    requires Coherent(members, hosts, allowances, stale, nextOrder) && d.wanted >= 1
    requires d.order == if member in members then members[member].order else nextOrder
    requires !stale' ==> !stale && member in members && Alike(members[member], d)
                         && Raised(members[member := d], hosts, d.host) == hosts
    ensures Coherent(members[member := d], Raised(members[member := d], hosts, d.host), allowances, stale',
                     if member in members then nextOrder else nextOrder + 1)
  {
    UpdateKeepsLimits(members, hosts, member, d);
    if !stale' {
      FreshKept(members, members[member := d], hosts, hosts, allowances);
    }
  }

  class HostPool {
    var members: map<Member, Demand>
    var hosts: map<string, Host>
    var allowances: map<Member, int>
    var stale: bool
    var nextOrder: nat

    ghost predicate Valid()
      reads this
    {
      Coherent(members, hosts, allowances, stale, nextOrder)
    }

    constructor ()
      ensures Valid() && members == map[] && hosts == map[] && stale
    {
      members, hosts, allowances, stale, nextOrder := map[], map[], map[], true, 0;
    }

    method TransferringOn(host: string) returns (total: int)
      ensures total == Transferring(members, host)
    {
      total := 0;
      var rest := members.Keys;
      ghost var f := TransferringAt(members, host);
      while rest != {}
        invariant rest <= members.Keys
        invariant total + SumOver(rest, f) == Transferring(members, host)
      {
        var m :| m in rest;
        SumTake(rest, f, m);
        total := total + if members[m].host == host then members[m].transferring else 0;
        rest := rest - {m};
      }
    }

    /** A member's current wish. Connections the server serves raise a limit below them. */
    method Update(member: Member, host: string, wanted: int, remaining: int, transferring: nat)
      requires Valid()
      modifies this`members, this`hosts, this`stale, this`nextOrder
      ensures Valid()
      ensures var added := member !in old(members);
              var d := Demand(host, Max(1, wanted), remaining, transferring,
                              if added then old(nextOrder) else old(members)[member].order);
              && members == old(members)[member := d]
              && nextOrder == old(nextOrder) + if added then 1 else 0
      ensures hosts == Raised(members, old(hosts), host)
      ensures stale <==> || old(stale) || member !in old(members) || old(members)[member].host != host
                         || old(members)[member].wanted != wanted || old(members)[member].remaining != remaining
                         || hosts != old(hosts)
    {
      var added := member !in members;
      var order := if added then nextOrder else members[member].order;
      ghost var before := members;
      nextOrder := if added then nextOrder + 1 else nextOrder;
      stale := stale || added || members[member].host != host || members[member].wanted != wanted
               || members[member].remaining != remaining;
      var demand := Demand(host, Max(1, wanted), remaining, transferring, order);
      members := members[member := demand];
      RaiseLimit(host);
      UpdateKeeps(before, old(hosts), allowances, old(stale), old(nextOrder), member, demand, stale);
    }

    /** A limit below what the host is serving is raised to that. */
    method RaiseLimit(host: string)
      modifies this`hosts, this`stale
      ensures hosts == Raised(members, old(hosts), host)
      ensures stale <==> old(stale) || hosts != old(hosts)
    {
      if host in hosts && hosts[host].limit > 0 {
        var total := TransferringOn(host);
        if total > hosts[host].limit {
          hosts := hosts[host := hosts[host].(limit := total)];
          assert hosts[host].limit != old(hosts)[host].limit;
          stale := true;
        }
      }
    }

    method Leave(member: Member)
      requires Valid()
      modifies this`members, this`hosts, this`stale
      ensures Valid()
      ensures members == old(members) - {member}
      ensures hosts == if member in old(members) && !Used(members, old(members)[member].host)
                       then old(hosts) - {old(members)[member].host} else old(hosts)
      ensures stale <==> old(stale) || member in old(members)
    {
      if member !in members {
        assert members - {member} == members;
        return;
      }
      var host := members[member].host;
      LeaveKeepsLimits(members, hosts, member);
      members := members - {member};
      stale := true;
      if !exists m :: m in members && members[m].host == host {
        hosts := hosts - {host};
      }
    }

    /** A server refuses a request; one made before its limit last fell says nothing new. */
    method Overloaded(member: Member, sent: real, now: real, readyAt: real)
      requires Valid()
      modifies this`hosts, this`stale
      ensures Valid()
      ensures member !in members ==> hosts == old(hosts) && stale == old(stale)
      ensures member in members ==>
                var host := members[member].host;
                var was := KnownOrNew(old(hosts), host);
                && hosts == old(hosts)[host := Refused(was, Transferring(members, host), sent, now, readyAt)]
                && (stale <==> old(stale) || !AnsweredBefore(was, sent))
    {
      if member !in members {
        return;
      }
      var host := members[member].host;
      var state := KnownOrNew(hosts, host);
      var transferring := TransferringOn(host);
      var next := Refused(state, transferring, sent, now, readyAt);
      RefusalKeeps(members, hosts, allowances, stale, nextOrder, host, next, stale || !AnsweredBefore(state, sent));
      hosts := hosts[host := next];
      stale := stale || !AnsweredBefore(state, sent);
    }

    method WantedOn(host: string) returns (wanted: int, used: bool)
      ensures wanted == WantedFrom(members, host) && used == Used(members, host)
    {
      wanted, used := 0, false;
      var rest := members.Keys;
      ghost var f := WantedAt(members, host);
      while rest != {}
        invariant rest <= members.Keys
        invariant wanted + SumOver(rest, f) == WantedFrom(members, host)
        invariant used <==> exists m :: m in members && m !in rest && members[m].host == host
      {
        var m :| m in rest;
        SumTake(rest, f, m);
        if members[m].host == host {
          wanted := wanted + members[m].wanted;
          used := true;
        }
        rest := rest - {m};
      }
    }

    /** The loop body of a tick: one host. */
    method TickHost(host: string, now: real) returns (state: Option<Host>, recovered: bool)
      requires host in hosts
      ensures state == Ticked(members, host, hosts[host], now)
      ensures recovered == Recovers(members, host, hosts[host], now)
    {
      var wanted, used := WantedOn(host);
      var was := hosts[host];
      if !used {
        return None, false;
      }
      if was.limit > 0 && now - was.calmSince >= CALM_PERIOD {
        var limit := if was.limit + 1 >= wanted then 0 else was.limit + 1;
        return Some(Host(limit, 0, now, was.dropped, was.readyAt)), true;
      }
      return Some(was), false;
    }

    /** Lets every calm limit recover by one connection and forgets unused hosts. */
    method Tick(now: real)
      requires Valid()
      modifies this`hosts, this`stale
      ensures Valid()
      ensures hosts == TickedHosts(members, old(hosts), now, old(hosts).Keys)
      ensures stale <==> old(stale) || exists h :: h in old(hosts) && Recovers(members, h, old(hosts)[h], now)
    {
      var next, grew := TickAll(now);
      TickKeeps(members, hosts, allowances, stale, nextOrder, now, stale || grew);
      hosts := next;
      stale := stale || grew;
    }

    method TickAll(now: real) returns (next: map<string, Host>, grew: bool)
      ensures next == TickedHosts(members, hosts, now, hosts.Keys)
      ensures grew <==> exists h :: h in hosts && Recovers(members, h, hosts[h], now)
    {
      var rest := hosts.Keys;
      next, grew := map[], false;
      while rest != {}
        invariant rest <= hosts.Keys
        invariant next == TickedHosts(members, hosts, now, hosts.Keys - rest)
        invariant grew <==> exists h :: h in hosts && h !in rest && Recovers(members, h, hosts[h], now)
      {
        var h :| h in rest;
        var state, recovered := TickHost(h, now);
        TickedStep(members, hosts, now, hosts.Keys - rest, h);
        assert hosts.Keys - (rest - {h}) == hosts.Keys - rest + {h};
        rest := rest - {h};
        if state.Some? {
          next := next[h := state.value];
        }
        grew := grew || recovered;
      }
      assert hosts.Keys - rest == hosts.Keys;
    }

    /** The downloads from a host in joining order. */
    method MembersOf(host: string) returns (list: seq<Member>)
      requires DistinctOrders(members)
      ensures Joined(members, Of(members, host), list)
    {
      list := [];
      var rest := Of(members, host);
      ghost var all := rest;
      while rest != {}
        invariant rest <= all && Joined(members, all - rest, list)
        invariant forall i :: 0 <= i < |list| ==> list[i] in members
      {
        var m :| m in rest;
        var k := 0;
        while k < |list| && members[list[k]].order < members[m].order
          invariant 0 <= k <= |list|
          invariant forall i :: 0 <= i < k ==> Earlier(members, list[i], m)
        {
          k := k + 1;
        }
        JoinedInsert(members, all - rest, list, m, k);
        assert all - (rest - {m}) == all - rest + {m};
        list := list[..k] + [m] + list[k..];
        rest := rest - {m};
      }
      assert all - rest == all;
    }

    /** Writes a fresh division of one host's connections into the cache. */
    method AllocateHost(host: string)
      requires DistinctOrders(members)
      modifies this`allowances
      ensures allowances.Keys == old(allowances).Keys + Of(members, host)
      ensures forall m {:trigger IsAllowance(members, hosts, m, allowances[m])} ::
                m in Of(members, host) ==> IsAllowance(members, hosts, m, allowances[m])
      ensures forall m :: m in old(allowances) && m !in Of(members, host) ==> allowances[m] == old(allowances)[m]
    {
      var list := MembersOf(host);
      var shares := ListShares(list);
      var limit := if host in hosts then hosts[host].limit else 0;
      var given := Allocate(shares, limit);
      JoinedDistinct(members, Of(members, host), list);
      WriteBack(list, given);
      forall m | m in Of(members, host) ensures IsAllowance(members, hosts, m, allowances[m]) {
        var k :| 0 <= k < |list| && list[k] == m;
        SeatIsAllowance(members, hosts, host, list, k);
      }
      assert (set m | m in list) == Of(members, host);
    }

    method ListShares(list: seq<Member>) returns (shares: seq<Share>)
      requires forall m :: m in list ==> m in members
      ensures shares == SharesOf(members, list)
    {
      shares := [];
      for i := 0 to |list|
        invariant |shares| == i
        invariant forall k :: 0 <= k < i ==>
                    list[k] in members && shares[k] == Share(members[list[k]].wanted, members[list[k]].remaining)
      {
        assert list[i] in list;
        shares := shares + [Share(members[list[i]].wanted, members[list[i]].remaining)];
      }
    }

    method WriteBack(list: seq<Member>, given: seq<int>)
      requires |list| == |given| && forall i, j :: 0 <= i < j < |list| ==> list[i] != list[j]
      modifies this`allowances
      ensures allowances.Keys == old(allowances).Keys + set m | m in list
      ensures forall k :: 0 <= k < |list| ==> list[k] in allowances && allowances[list[k]] == given[k]
      ensures forall m :: m in old(allowances) && m !in list ==> allowances[m] == old(allowances)[m]
    {
      for i := 0 to |list|
        invariant allowances.Keys == old(allowances).Keys + set m | m in list[..i]
        invariant forall k :: 0 <= k < i ==> list[k] in allowances && allowances[list[k]] == given[k]
        invariant forall m :: m in old(allowances) && m !in list ==> allowances[m] == old(allowances)[m]
      {
        assert list[..i + 1] == list[..i] + [list[i]];
        allowances := allowances[list[i] := given[i]];
      }
      assert list[..|list|] == list;
    }

    /** The cached share, computed anew when stale: always what a fresh division would give. */
    method Allowance(member: Member) returns (n: int)
      requires Valid()
      modifies this`allowances, this`stale
      ensures Valid()
      ensures member !in members ==> n == 0
      ensures member in members ==> !stale && IsAllowance(members, hosts, member, n)
    {
      if member !in members {
        return 0;
      }
      if stale {
        Recompute();
      }
      assert IsAllowance(members, hosts, member, allowances[member]);
      n := allowances[member];
    }

    method Recompute()
      requires Valid()
      modifies this`allowances, this`stale
      ensures Valid() && !stale
    {
      allowances := map[];
      var done: seq<string> := [];
      var rest := members.Keys;
      while rest != {}
        invariant rest <= members.Keys
        invariant forall m :: m in members && m !in rest ==> members[m].host in done
        invariant FreshFor(members, hosts, allowances, done)
      {
        var m :| m in rest;
        var host := members[m].host;
        if host !in done {
          ghost var before := allowances;
          AllocateHost(host);
          FreshStep(members, hosts, before, allowances, done, host);
          done := done + [host];
        }
        rest := rest - {m};
      }
      FreshForAll(members, hosts, allowances, done);
      stale := false;
    }
  }

  lemma SeatIsAllowance(members: map<Member, Demand>, hosts: map<string, Host>, host: string, list: seq<Member>, k: nat)
    requires Joined(members, Of(members, host), list) && k < |list|
    ensures IsAllowance(members, hosts, list[k], Seats(SharesOf(members, list), LimitOf(hosts, host))[k])
  {
    assert list[k] in list;
    assert members[list[k]].host == host;
  }

  /** The cache holds a fresh allocation for exactly the members of the hosts done so far. */
  ghost predicate FreshFor(members: map<Member, Demand>, hosts: map<string, Host>, allowances: map<Member, int>,
                           done: seq<string>)
  {
    && allowances.Keys == (set m | m in members && members[m].host in done)
    && forall m {:trigger IsAllowance(members, hosts, m, allowances[m])} ::
         m in allowances ==> IsAllowance(members, hosts, m, allowances[m])
  }

  lemma FreshForAll(members: map<Member, Demand>, hosts: map<string, Host>, allowances: map<Member, int>,
                    done: seq<string>)
    requires FreshFor(members, hosts, allowances, done) && forall m :: m in members ==> members[m].host in done
    ensures Fresh(members, hosts, allowances)
  {
  }

  lemma FreshStep(members: map<Member, Demand>, hosts: map<string, Host>, before: map<Member, int>,
                  after: map<Member, int>, done: seq<string>, host: string)
    requires FreshFor(members, hosts, before, done)
    requires after.Keys == before.Keys + Of(members, host)
    requires forall m {:trigger IsAllowance(members, hosts, m, after[m])} ::
               m in Of(members, host) ==> IsAllowance(members, hosts, m, after[m])
    requires forall m :: m in before && m !in Of(members, host) ==> after[m] == before[m]
    ensures FreshFor(members, hosts, after, done + [host])
  {
  }

  lemma JoinedDistinct(members: map<Member, Demand>, s: set<Member>, list: seq<Member>)
    requires Joined(members, s, list)
    ensures forall i, j :: 0 <= i < j < |list| ==> list[i] != list[j]
  {
  }

  lemma JoinedInsert(members: map<Member, Demand>, s: set<Member>, list: seq<Member>, m: Member, k: nat)
    requires DistinctOrders(members) && Joined(members, s, list) && m in members && m !in s
    requires k <= |list| && (forall i :: 0 <= i < k ==> Earlier(members, list[i], m))
    requires forall i :: 0 <= i < |list| ==> list[i] in members
    requires k < |list| ==> members[m].order <= members[list[k]].order
    ensures Joined(members, s + {m}, list[..k] + [m] + list[k..])
  {
  }

  /** The host's limit is due to grow. */
  ghost predicate Recovers(members: map<Member, Demand>, host: string, state: Host, now: real) {
    Used(members, host) && state.limit > 0 && now - state.calmSince >= CALM_PERIOD
  }

  ghost function TickedHosts(members: map<Member, Demand>, hosts: map<string, Host>, now: real,
                             done: set<string>): map<string, Host>
  {
    map h | h in hosts && h in done && Ticked(members, h, hosts[h], now).Some? ::
      Ticked(members, h, hosts[h], now).value
  }

  lemma TickedStep(members: map<Member, Demand>, hosts: map<string, Host>, now: real, done: set<string>, h: string)
    requires h in hosts && h !in done
    ensures TickedHosts(members, hosts, now, done + {h}) ==
            match Ticked(members, h, hosts[h], now)
            case None => TickedHosts(members, hosts, now, done)
            case Some(state) => TickedHosts(members, hosts, now, done)[h := state]
  {
  }

  lemma TickKeeps(members: map<Member, Demand>, hosts: map<string, Host>, allowances: map<Member, int>,
                  stale: bool, nextOrder: nat, now: real, stale': bool)
    requires Coherent(members, hosts, allowances, stale, nextOrder)
    requires !stale' ==> !stale && !exists h :: h in hosts && Recovers(members, h, hosts[h], now)
    ensures Coherent(members, TickedHosts(members, hosts, now, hosts.Keys), allowances, stale', nextOrder)
  {
    var hosts' := TickedHosts(members, hosts, now, hosts.Keys);
    if !stale' {
      forall m | m in members ensures LimitOf(hosts, members[m].host) == LimitOf(hosts', members[m].host) {
        assert Used(members, members[m].host);
      }
      FreshKept(members, members, hosts, hosts', allowances);
    }
  }

  function KnownOrNew(hosts: map<string, Host>, host: string): Host {
    if host in hosts then hosts[host] else NEW_HOST
  }

  /** The refused request was sent before the last drop, which answered it already. */
  predicate AnsweredBefore(state: Host, sent: real) {
    state.limit > 0 && sent < state.dropped
  }

  /**
   A refusal lowers the limit once per window, to what the server serves, and pauses new requests
   longer with every drop in a row; a refusal of an older request only moves the pause.
   */
  function Refused(state: Host, transferring: int, sent: real, now: real, readyAt: real): Host {
    var ready := MaxReal(state.readyAt, readyAt);
    if AnsweredBefore(state, sent) then state.(readyAt := ready)
    else
      var strikes := if now - state.calmSince < CALM_PERIOD then state.strikes + 1 else 1;
      Host(Max(1, transferring), strikes, now, now, MaxReal(ready, now + Pause(strikes)))
  }

  lemma RefusalKeeps(members: map<Member, Demand>, hosts: map<string, Host>, allowances: map<Member, int>,
                     stale: bool, nextOrder: nat, host: string, state: Host, stale': bool)
    requires Coherent(members, hosts, allowances, stale, nextOrder)
    requires state.limit > 0 && Transferring(members, host) <= state.limit
    requires !stale' ==> !stale && LimitOf(hosts, host) == state.limit
    ensures Coherent(members, hosts[host := state], allowances, stale', nextOrder)
  {
    if !stale' {
      FreshKept(members, members, hosts, hosts[host := state], allowances);
    }
  }

  lemma LeaveKeepsLimits(members: map<Member, Demand>, hosts: map<string, Host>, member: Member)
    requires LimitsOk(members, hosts) && member in members
    ensures LimitsOk(members - {member}, hosts)
  {
    var members' := members - {member};
    forall h | h in hosts && hosts[h].limit > 0 ensures Transferring(members', h) <= Transferring(members, h) {
      var f, f' := TransferringAt(members, h), TransferringAt(members', h);
      assert members'.Keys == members.Keys - {member};
      SumTake(members.Keys, f, member);
      SumSame(members'.Keys, f, f');
    }
  }

  // ---------------------------------------------------------------------------
  // What the allowances add up to, and how they move
  // ---------------------------------------------------------------------------

  ghost function Elements(list: seq<Member>): set<Member> {
    set m | m in list
  }

  lemma ElementsStep(list: seq<Member>, n: nat)
    requires n + 1 == |list| && forall i, j :: 0 <= i < j < |list| ==> list[i] != list[j]
    ensures list[n] in Elements(list) && Elements(list) - {list[n]} == Elements(list[..n])
  {
  }

  lemma {:induction false} SumList(list: seq<Member>, values: seq<int>, f: Member -> int)
    requires |list| == |values| && forall i, j :: 0 <= i < j < |list| ==> list[i] != list[j]
    requires forall k :: 0 <= k < |list| ==> f(list[k]) == values[k]
    ensures SumOver(Elements(list), f) == Sum(values)
  {
    if list == [] {
      assert Elements(list) == {};
    } else {
      var n := |list| - 1;
      ElementsStep(list, n);
      SumTake(Elements(list), f, list[n]);
      SumList(list[..n], values[..n], f);
    }
  }

  lemma {:induction false} SumRestrict(s: set<Member>, t: set<Member>, f: Member -> int)
    requires t <= s && forall m :: m in s && m !in t ==> f(m) == 0
    ensures SumOver(s, f) == SumOver(t, f)
    decreases s
  {
    if s == t {
    } else {
      var m :| m in s && m !in t;
      SumTake(s, f, m);
      SumRestrict(s - {m}, t, f);
    }
  }

  /** The list a fresh allowance comes from. */
  lemma AllowanceList(members: map<Member, Demand>, hosts: map<string, Host>, m: Member, n: int)
    returns (list: seq<Member>, i: nat)
    requires IsAllowance(members, hosts, m, n)
    ensures Joined(members, Of(members, members[m].host), list) && i < |list| && list[i] == m
    ensures n == Seats(SharesOf(members, list), LimitOf(hosts, members[m].host))[i]
  {
    list, i :| Joined(members, Of(members, members[m].host), list) && 0 <= i < |list| && list[i] == m
            && n == Seats(SharesOf(members, list), LimitOf(hosts, members[m].host))[i];
  }

  lemma SharesSane(members: map<Member, Demand>, nextOrder: nat, host: string, list: seq<Member>)
    requires DemandsOk(members, nextOrder) && Joined(members, Of(members, host), list)
    ensures Sane(SharesOf(members, list))
  {
    forall i | 0 <= i < |list| ensures SharesOf(members, list)[i].wanted >= 1 {
      assert list[i] in list;
    }
  }

  /** The cached allowances of a host's downloads are its seats, in joining order. */
  lemma FreshSeats(members: map<Member, Demand>, hosts: map<string, Host>, allowances: map<Member, int>,
                   host: string, list: seq<Member>, k: nat)
    requires Fresh(members, hosts, allowances) && Joined(members, Of(members, host), list) && k < |list|
    ensures list[k] in allowances
    ensures allowances[list[k]] == Seats(SharesOf(members, list), LimitOf(hosts, host))[k]
  {
    var m := list[k];
    assert m in list;
    SeatIsAllowance(members, hosts, host, list, k);
    assert IsAllowance(members, hosts, m, allowances[m]);
    AllowanceUnique(members, members, hosts, hosts, m, allowances[m],
                    Seats(SharesOf(members, list), LimitOf(hosts, host))[k]);
  }

  lemma HostLists(members: map<Member, Demand>, hosts: map<string, Host>, allowances: map<Member, int>, host: string)
    returns (list: seq<Member>)
    requires Fresh(members, hosts, allowances)
    ensures Joined(members, Of(members, host), list)
  {
    if m :| m in Of(members, host) {
      assert IsAllowance(members, hosts, m, allowances[m]);
      var i;
      list, i := AllowanceList(members, hosts, m, allowances[m]);
    } else {
      list := [];
    }
  }

  ghost function AllowedTo(allowances: map<Member, int>): Member -> int {
    m => if m in allowances then allowances[m] else 0
  }

  /** What a limited host's downloads may hold adds up to the limit, or to all they want. */
  lemma AllowancesUseLimit(members: map<Member, Demand>, hosts: map<string, Host>, allowances: map<Member, int>,
                           nextOrder: nat, host: string)
    requires Coherent(members, hosts, allowances, false, nextOrder) && LimitOf(hosts, host) > 0
    ensures SumOver(Of(members, host), AllowedTo(allowances)) == Min(LimitOf(hosts, host), WantedFrom(members, host))
  {
    var list := HostLists(members, hosts, allowances, host);
    var shares := SharesOf(members, list);
    JoinedDistinct(members, Of(members, host), list);
    assert Elements(list) == Of(members, host);
    forall k | 0 <= k < |list|
      ensures AllowedTo(allowances)(list[k]) == Seats(shares, LimitOf(hosts, host))[k]
    {
      FreshSeats(members, hosts, allowances, host, list, k);
    }
    SumList(list, Seats(shares, LimitOf(hosts, host)), AllowedTo(allowances));
    WishesTotal(members, host, list);
    SharesSane(members, nextOrder, host, list);
    Allocation(shares, LimitOf(hosts, host));
  }

  lemma WishesTotal(members: map<Member, Demand>, host: string, list: seq<Member>)
    requires Joined(members, Of(members, host), list)
    ensures Sum(Wishes(SharesOf(members, list))) == WantedFrom(members, host)
  {
    var f := WantedAt(members, host);
    SumRestrict(members.Keys, Of(members, host), f);
    JoinedDistinct(members, Of(members, host), list);
    assert Elements(list) == Of(members, host);
    forall k | 0 <= k < |list| ensures f(list[k]) == Wishes(SharesOf(members, list))[k] {
      assert list[k] in list;
    }
    SumList(list, Wishes(SharesOf(members, list)), f);
  }

  /** A tick, growing a limit or lifting it, takes no connection away from anyone. */
  lemma TickTakesNothing(members: map<Member, Demand>, hosts: map<string, Host>, nextOrder: nat, now: real,
                         m: Member, n: int, n': int)
    requires DemandsOk(members, nextOrder) && IsAllowance(members, hosts, m, n)
    requires IsAllowance(members, TickedHosts(members, hosts, now, hosts.Keys), m, n')
    ensures n <= n'
  {
    TickedLimit(members, hosts, now, m);
    GrownLimit(members, hosts, TickedHosts(members, hosts, now, hosts.Keys), nextOrder, m, n, n');
  }

  lemma GrownLimit(members: map<Member, Demand>, hosts: map<string, Host>, hosts': map<string, Host>, nextOrder: nat,
                   m: Member, n: int, n': int)
    requires DemandsOk(members, nextOrder) && IsAllowance(members, hosts, m, n) && IsAllowance(members, hosts', m, n')
    requires var limit, limit' := LimitOf(hosts, members[m].host), LimitOf(hosts', members[m].host);
             limit' == limit || (limit > 0 && (limit' > limit || limit' == 0))
    ensures n <= n'
  {
    var host := members[m].host;
    var list, i := AllowanceList(members, hosts, m, n);
    var list', i' := AllowanceList(members, hosts', m, n');
    JoinedUnique(members, members, Of(members, host), list, list');
    assert i == i' by {
      JoinedDistinct(members, Of(members, host), list);
    }
    SharesSane(members, nextOrder, host, list);
    SeatsGrow(SharesOf(members, list), LimitOf(hosts, host), LimitOf(hosts', host), i);
  }

  lemma TickedLimit(members: map<Member, Demand>, hosts: map<string, Host>, now: real, m: Member)
    requires m in members
    ensures var limit := LimitOf(hosts, members[m].host);
            var limit' := LimitOf(TickedHosts(members, hosts, now, hosts.Keys), members[m].host);
            limit' == limit || (limit > 0 && (limit' == limit + 1 || limit' == 0))
  {
  }

  /** A refusal limits the server, never higher than before, and never ends a pause early. */
  lemma RefusalLowers(members: map<Member, Demand>, hosts: map<string, Host>, host: string,
                      sent: real, now: real, readyAt: real)
    requires LimitsOk(members, hosts)
    ensures var was := KnownOrNew(hosts, host);
            var r := Refused(was, Transferring(members, host), sent, now, readyAt);
            && r.limit > 0 && (was.limit > 0 ==> r.limit <= was.limit) && Transferring(members, host) <= r.limit
            && r.readyAt >= was.readyAt && r.readyAt >= readyAt
  {
  }

  /** A refusal gives no download a connection more. */
  lemma RefusalGivesNothing(members: map<Member, Demand>, hosts: map<string, Host>, nextOrder: nat, host: string,
                            sent: real, now: real, readyAt: real, m: Member, n: int, n': int)
    requires DemandsOk(members, nextOrder) && LimitsOk(members, hosts) && IsAllowance(members, hosts, m, n)
    requires var r := Refused(KnownOrNew(hosts, host), Transferring(members, host), sent, now, readyAt);
             IsAllowance(members, hosts[host := r], m, n')
    ensures n' <= n
  {
    RefusalLowers(members, hosts, host, sent, now, readyAt);
    var r := Refused(KnownOrNew(hosts, host), Transferring(members, host), sent, now, readyAt);
    GrownLimit(members, hosts[host := r], hosts, nextOrder, m, n', n);
  }
}
