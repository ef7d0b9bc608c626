/**
 Host lists: `RemoveIPs`, `IsInIPList`, `Diff`, the role index of the infrastructure driver and
 `getWorkerIPList`.  An address is the text `IP.String()` gives, on which `IP.Equal` and text equality
 agree for the 4-byte and the IPv4-mapped 16-byte form.
 */
module Hosts {

  type IP = string

  /** The text of a nil `net.IP`, the content of a slot that was never filled. */
  const NIL_IP: IP := "<nil>"

  function Elems(s: seq<IP>): set<IP>
  {
    set x | x in s
  }

  ghost predicate NoDup(s: seq<IP>)
  {
    forall i, j :: 0 <= i < j < |s| ==> s[i] != s[j]
  }

  // ---------------------------------------------------------------- RemoveIPs

  /** The elements of `a` that are not in `b`, in order. */
  function Minus(a: seq<IP>, b: seq<IP>): (r: seq<IP>)
  {
    if a == [] then []
    else
      var n := |a| - 1;
      Minus(a[..n], b) + if a[n] in b then [] else [a[n]]
  }

  method IsInIPList(key: IP, slice: seq<IP>) returns (found: bool)
    ensures found <==> key in slice
  {
    for i := 0 to |slice|
      invariant key !in slice[..i]
    {
      if slice[i] == key {
        return true;
      }
    }
    return false;
  }

  method RemoveIPs(clusterIPs: seq<IP>, toBeDeleted: seq<IP>) returns (res: seq<IP>)
    ensures res == Minus(clusterIPs, toBeDeleted)
  {
    res := [];
    for i := 0 to |clusterIPs|
      invariant res == Minus(clusterIPs[..i], toBeDeleted)
    {
      assert clusterIPs[..i + 1][..i] == clusterIPs[..i];
      var found := IsInIPList(clusterIPs[i], toBeDeleted);
      if !found {
        res := res + [clusterIPs[i]];
      }
    }
    assert clusterIPs[..|clusterIPs|] == clusterIPs;
  }

  lemma {:induction false} MinusIn(a: seq<IP>, b: seq<IP>)
    ensures forall x :: x in Minus(a, b) <==> x in a && x !in b
  {
    if a != [] {
      var front, x := a[..|a| - 1], a[|a| - 1];
      assert a == front + [x];
      MinusIn(front, b);
    }
  }

  lemma {:induction false} MinusAppend(a: seq<IP>, c: seq<IP>, b: seq<IP>)
    ensures Minus(a + c, b) == Minus(a, b) + Minus(c, b)
    decreases |c|
  {
    if c == [] {
      assert a + c == a;
    } else {
      var n := |c| - 1;
      assert (a + c)[..|a + c| - 1] == a + c[..n];
      MinusAppend(a, c[..n], b);
    }
  }

  lemma {:induction false} MinusAll(a: seq<IP>, b: seq<IP>)
    requires forall x :: x in a ==> x in b
    ensures Minus(a, b) == []
  {
    if a != [] {
      MinusAll(a[..|a| - 1], b);
    }
  }

  lemma {:induction false} MinusNone(a: seq<IP>, b: seq<IP>)
    requires forall x :: x in a ==> x !in b
    ensures Minus(a, b) == a
  {
    if a != [] {
      var front, x := a[..|a| - 1], a[|a| - 1];
      assert a == front + [x];
      assert x in a;
      MinusNone(front, b);
    }
  }

  lemma {:induction false} MinusNoDup(a: seq<IP>, b: seq<IP>)
    requires NoDup(a)
    ensures NoDup(Minus(a, b))
  {
    if a != [] {
      var n := |a| - 1;
      MinusNoDup(a[..n], b);
      MinusIn(a[..n], b);
      assert a[n] !in Minus(a[..n], b);
    }
  }

  // ---------------------------------------------------------------- Diff

  /** What `Diff` reports as added: elements not in `old`, and every repetition. */
  function Added(was: seq<IP>, now: seq<IP>): (r: seq<IP>)
  {
    if now == [] then []
    else
      var n := |now| - 1;
      Added(was, now[..n]) + if now[n] !in was || now[n] in now[..n] then [now[n]] else []
  }

  /** `Diff`, toggling a map of what is still unmatched. */
  method Diff(was: seq<IP>, now: seq<IP>) returns (add: seq<IP>, sub: seq<IP>)
    ensures add == Added(was, now)
    ensures sub == Minus(was, now)
  {
    var diffMap: map<IP, bool> := map[];
    add, sub := [], [];
    for i := 0 to |was|
      invariant diffMap.Keys == Elems(was[..i])
      invariant forall x :: x in diffMap ==> diffMap[x]
    {
      assert Elems(was[..i + 1]) == Elems(was[..i]) + {was[i]};
      diffMap := diffMap[was[i] := true];
    }
    assert was[..|was|] == was;
    for i := 0 to |now|
      invariant diffMap.Keys == Elems(was)
      invariant forall x :: x in diffMap ==> (diffMap[x] <==> x !in now[..i])
      invariant add == Added(was, now[..i])
    {
      assert now[..i + 1][..i] == now[..i];
      if now[i] !in diffMap || !diffMap[now[i]] {
        add := add + [now[i]];
      } else {
        diffMap := diffMap[now[i] := false];
      }
    }
    assert now[..|now|] == now;
    for i := 0 to |was|
      invariant sub == Minus(was[..i], now)
    {
      assert was[..i + 1][..i] == was[..i];
      if was[i] in diffMap && diffMap[was[i]] {
        sub := sub + [was[i]];
      }
    }
  }

  ghost predicate Repeats(was: seq<IP>, now: seq<IP>)
  {
    exists i, j :: 0 <= i < j < |now| && now[i] == now[j] && now[i] in was
  }

  lemma RepeatsSnoc(was: seq<IP>, front: seq<IP>, x: IP)
    ensures Repeats(was, front + [x]) <==> Repeats(was, front) || (x in was && x in front)
  {
    var now := front + [x];
    if Repeats(was, front) {
      var i, j :| 0 <= i < j < |front| && front[i] == front[j] && front[i] in was;
      assert now[i] == now[j] && now[i] in was;
    }
    if x in was && x in front {
      var i :| 0 <= i < |front| && front[i] == x;
      assert now[i] == now[|front|] && now[i] in was;
    }
  }

  lemma {:induction false} AddedAtLeast(was: seq<IP>, now: seq<IP>)
    ensures |Added(was, now)| >= |Minus(now, was)|
    ensures Repeats(was, now) ==> |Added(was, now)| > |Minus(now, was)|
    ensures !Repeats(was, now) ==> Added(was, now) == Minus(now, was)
  {
    if now != [] {
      var front, x := now[..|now| - 1], now[|now| - 1];
      assert now == front + [x];
      RepeatsSnoc(was, front, x);
      AddedAtLeast(was, front);
    }
  }

  /** `Diff` yields new∖old exactly when no element of the old list is repeated in the new one. */
  lemma DiffAddsExactly(was: seq<IP>, now: seq<IP>)
    ensures Added(was, now) == Minus(now, was) <==> !Repeats(was, now)
  {
    AddedAtLeast(was, now);
  }

  /** How often an address is reported as added: once less than the new list has it when the old one has it too. */
  lemma {:induction false} AddedCounts(was: seq<IP>, now: seq<IP>, x: IP)
    ensures multiset(Added(was, now))[x] ==
            if x in was && x in now then multiset(now)[x] - 1 else multiset(now)[x]
  {
    if now != [] {
      var front, y := now[..|now| - 1], now[|now| - 1];
      assert now == front + [y];
      AddedCounts(was, front, x);
      assert x in front <==> multiset(front)[x] > 0;
    }
  }

  lemma OneStays(x: IP)
    ensures Added([x], [x]) == [] && Minus([x], [x]) == []
  {
    var one := [x];
    assert one[..0] == [];
    assert Added(one, one[..0]) == [] && Minus(one[..0], one) == [];
  }

  /** An old address listed twice is reported as added. */
  lemma DiffAddsOldAddress(x: IP)
    ensures Added([x], [x, x]) == [x] && Minus([x, x], [x]) == [] && Repeats([x], [x, x])
  {
    var two := [x, x];
    OneStays(x);
    assert two[..1] == [x];
    assert two[0] == two[1] && two[0] in [x];
  }

  // ---------------------------------------------------------------- the role index

  /** A host group of the Clusterfile. */
  datatype Group = Group(ips: seq<IP>, roles: seq<string>)

  function Times(role: string, roles: seq<string>, ips: seq<IP>): (r: seq<IP>)
  {
    if roles == [] then []
    else
      var n := |roles| - 1;
      Times(role, roles[..n], ips) + if roles[n] == role then ips else []
  }

  /** `GetIPSByRole`: the linear scan. */
  function ByRole(groups: seq<Group>, role: string): (r: seq<IP>)
  {
    if groups == [] then []
    else
      var n := |groups| - 1;
      ByRole(groups[..n], role) + Times(role, groups[n].roles, groups[n].ips)
  }

  function AllIPs(groups: seq<Group>): (r: seq<IP>)
    ensures forall x :: x in r <==> exists i :: 0 <= i < |groups| && x in groups[i].ips
  {
    if groups == [] then []
    else
      var n := |groups| - 1;
      assert groups == groups[..n] + [groups[n]];
      AllIPs(groups[..n]) + groups[n].ips
  }

  /** A missing key reads as an empty list. */
  function Lookup(m: map<string, seq<string>>, key: string): seq<string>
  {
    if key in m then m[key] else []
  }

  method GetIPSByRole(groups: seq<Group>, role: string) returns (hosts: seq<IP>)
    ensures hosts == ByRole(groups, role)
  {
    hosts := [];
    for i := 0 to |groups|
      invariant hosts == ByRole(groups[..i], role)
    {
      ghost var before := hosts;
      for k := 0 to |groups[i].roles|
        invariant hosts == before + Times(role, groups[i].roles[..k], groups[i].ips)
      {
        assert groups[i].roles[..k + 1][..k] == groups[i].roles[..k];
        if role == groups[i].roles[k] {
          hosts := hosts + groups[i].ips;
        }
      }
      assert groups[i].roles[..|groups[i].roles|] == groups[i].roles;
      assert groups[..i + 1][..i] == groups[..i];
    }
    assert groups[..|groups|] == groups;
  }

  /** The host list of `NewInfraDriver`. */
  method CollectHosts(groups: seq<Group>) returns (hosts: seq<IP>)
    ensures hosts == AllIPs(groups)
  {
    hosts := [];
    for i := 0 to |groups|
      invariant hosts == AllIPs(groups[..i])
    {
      assert groups[..i + 1][..i] == groups[..i];
      hosts := hosts + groups[i].ips;
    }
    assert groups[..|groups|] == groups;
  }

  /** The roles of the last group that lists the address. */
  function RolesOf(groups: seq<Group>, ip: IP): seq<string>
  {
    if groups == [] then []
    else
      var n := |groups| - 1;
      if ip in groups[n].ips then groups[n].roles else RolesOf(groups[..n], ip)
  }

  /** The host list of a driver is the address lists of the groups one after the other, repetitions included. */
  lemma {:induction false} AllIPsAppend(a: seq<Group>, b: seq<Group>)
    ensures AllIPs(a + b) == AllIPs(a) + AllIPs(b)
    decreases |b|
  {
    if b == [] {
      assert a + b == a;
    } else {
      var n := |b| - 1;
      assert (a + b)[..|a + b| - 1] == a + b[..n];
      AllIPsAppend(a, b[..n]);
    }
  }

  lemma AllIPsOfGroup(g: Group)
    ensures AllIPs([g]) == g.ips
  {
    assert [g][..0] == [];
  }

  lemma ByRoleSnoc(front: seq<Group>, g: Group, role: string)
    ensures ByRole(front + [g], role) == ByRole(front, role) + Times(role, g.roles, g.ips)
  {
    assert (front + [g])[..|front|] == front;
  }

  /** The scan for a role is the scans of the parts one after the other. */
  lemma {:induction false} ByRoleAppend(a: seq<Group>, b: seq<Group>, role: string)
    ensures ByRole(a + b, role) == ByRole(a, role) + ByRole(b, role)
    decreases |b|
  {
    if b == [] {
      assert a + b == a;
    } else {
      var front, g := b[..|b| - 1], b[|b| - 1];
      assert a + b == a + front + [g] && b == front + [g];
      ByRoleAppend(a, front, role);
      ByRoleSnoc(a + front, g, role);
      ByRoleSnoc(front, g, role);
    }
  }

  /** A group that lists the role once gives all of its addresses, and one that does not gives none. */
  lemma ByRoleOfGroup(g: Group, role: string)
    ensures role !in g.roles ==> ByRole([g], role) == []
    ensures multiset(g.roles)[role] == 1 ==> ByRole([g], role) == g.ips
  {
    assert [g][..0] == [];
    TimesExactly(role, g.roles, g.ips);
  }

  lemma {:induction false} TimesExactly(role: string, roles: seq<string>, ips: seq<IP>)
    ensures role !in roles ==> Times(role, roles, ips) == []
    ensures multiset(roles)[role] == 1 ==> Times(role, roles, ips) == ips
  {
    if roles != [] {
      var front, r := roles[..|roles| - 1], roles[|roles| - 1];
      assert roles == front + [r];
      TimesExactly(role, front, ips);
      assert role in front <==> multiset(front)[role] > 0;
    }
  }

  /** The roles of an address are those of the last group that lists it ... */
  lemma {:induction false} RolesOfLast(groups: seq<Group>, ip: IP, i: nat)
    requires i < |groups| && ip in groups[i].ips
    requires forall j :: i < j < |groups| ==> ip !in groups[j].ips
    ensures RolesOf(groups, ip) == groups[i].roles
    decreases |groups|
  {
    if i < |groups| - 1 {
      RolesOfLast(groups[..|groups| - 1], ip, i);
    }
  }

  /** ... and none when no group does. */
  lemma {:induction false} RolesOfNobody(groups: seq<Group>, ip: IP)
    requires ip !in AllIPs(groups)
    ensures RolesOf(groups, ip) == []
    decreases |groups|
  {
    if groups != [] {
      RolesOfNobody(groups[..|groups| - 1], ip);
    }
  }

  /** The two indexes agree: the roles recorded for a host list it. */
  lemma {:induction false} RolesListTheHost(groups: seq<Group>, ip: IP, role: string)
    requires role in RolesOf(groups, ip)
    ensures ip in ByRole(groups, role)
  {
    var front, g := groups[..|groups| - 1], groups[|groups| - 1];
    if ip in g.ips {
      TimesHas(role, g.roles, g.ips, ip);
    } else {
      RolesListTheHost(front, ip, role);
    }
  }

  lemma {:induction false} TimesHas(role: string, roles: seq<string>, ips: seq<IP>, x: IP)
    requires role in roles && x in ips
    ensures x in Times(role, roles, ips)
  {
    var n := |roles| - 1;
    if roles[n] != role {
      assert roles == roles[..n] + [roles[n]];
      TimesHas(role, roles[..n], ips, x);
    }
  }

  // ---------------------------------------------------------------- getWorkerIPList

  /** Every master occurs once in the host list. */
  ghost predicate OnceEach(all: seq<IP>, masters: seq<IP>)
  {
    forall i, j :: 0 <= i < j < |all| && all[i] in masters ==> all[i] != all[j]
  }

  lemma OnceEachSnoc(front: seq<IP>, x: IP, masters: seq<IP>)
    ensures OnceEach(front + [x], masters) <==> OnceEach(front, masters) && !(x in masters && x in front)
  {
    var all := front + [x];
    if x in masters && x in front {
      var i :| 0 <= i < |front| && front[i] == x;
      assert all[i] == all[|front|] && all[i] in masters;
    }
    if OnceEach(all, masters) {
      forall i, j | 0 <= i < j < |front| && front[i] in masters ensures front[i] != front[j] {
        assert all[i] != all[j];
      }
    }
  }

  lemma {:induction false} MinusLength(all: seq<IP>, masters: seq<IP>)
    ensures |Minus(all, masters)| + |Elems(all) * Elems(masters)| <= |all|
    ensures |Minus(all, masters)| + |Elems(all) * Elems(masters)| == |all| <==> OnceEach(all, masters)
  {
    if all != [] {
      var front, x := all[..|all| - 1], all[|all| - 1];
      assert all == front + [x];
      MinusLength(front, masters);
      OnceEachSnoc(front, x, masters);
      var before := Elems(front) * Elems(masters);
      if x in masters && x !in front {
        assert Elems(all) * Elems(masters) == before + {x};
      } else {
        assert Elems(all) * Elems(masters) == before;
      }
    } else {
      assert Elems(all) * Elems(masters) == {};
    }
  }

  lemma WorkersBound(all: seq<IP>, masters: seq<IP>)
    requires forall x :: x in masters ==> x in all
    ensures |Minus(all, masters)| + |Elems(masters)| <= |all|
    ensures |Minus(all, masters)| + |Elems(masters)| == |all| <==> OnceEach(all, masters)
  {
    assert Elems(all) * Elems(masters) == Elems(masters);
    MinusLength(all, masters);
  }

  lemma MinusPrefix(all: seq<IP>, i: nat, masters: seq<IP>)
    requires i < |all|
    ensures Minus(all[..i + 1], masters) == Minus(all[..i], masters) + if all[i] in masters then [] else [all[i]]
    ensures |Minus(all[..i + 1], masters)| <= |Minus(all, masters)|
  {
    assert all[..i + 1][..i] == all[..i];
    assert all == all[..i + 1] + all[i + 1..];
    MinusAppend(all[..i + 1], all[i + 1..], masters);
  }

  /** The keys of the `masters` map. */
  method MasterSet(masterList: seq<IP>) returns (masters: set<IP>)
    ensures masters == Elems(masterList)
  {
    masters := {};
    for i := 0 to |masterList|
      invariant masters == Elems(masterList[..i])
    {
      assert Elems(masterList[..i + 1]) == Elems(masterList[..i]) + {masterList[i]};
      masters := masters + {masterList[i]};
    }
    assert masterList[..|masterList|] == masterList;
  }

  /** `getWorkerIPList`: every store is in bounds, and the list is the non-masters in order followed by
      one empty slot for each further occurrence of a master in the host list. */
  method GetWorkerIPList(all: seq<IP>, masterList: seq<IP>) returns (workers: array<IP>)
    requires forall x :: x in masterList ==> x in all
    ensures fresh(workers) && workers.Length == |all| - |Elems(masterList)|
    ensures |Minus(all, masterList)| <= workers.Length
    ensures workers[..|Minus(all, masterList)|] == Minus(all, masterList)
    ensures forall k :: |Minus(all, masterList)| <= k < workers.Length ==> workers[k] == NIL_IP
  {
    var masters := MasterSet(masterList);
    WorkersBound(all, masterList);
    workers := new IP[|all| - |masters|](_ => NIL_IP);
    var index := 0;
    ghost var placed: seq<IP> := [];
    for i := 0 to |all|
      invariant placed == Minus(all[..i], masterList) && index == |placed| <= |Minus(all, masterList)|
      invariant forall k :: 0 <= k < index ==> workers[k] == placed[k]
      invariant forall k :: index <= k < workers.Length ==> workers[k] == NIL_IP
    {
      MinusPrefix(all, i, masterList);
      if all[i] !in masters {
        workers[index] := all[i];
        placed := placed + [all[i]];
        index := index + 1;
      }
    }
    assert all[..|all|] == all;
  }

  /** No slot stays empty exactly when every master occurs once in the host list. */
  lemma WorkersFillTheList(all: seq<IP>, masterList: seq<IP>)
    requires forall x :: x in masterList ==> x in all
    ensures |Minus(all, masterList)| == |all| - |Elems(masterList)| <==> OnceEach(all, masterList)
  {
    WorkersBound(all, masterList);
  }
}
