/**
 What the tables say in terms of addresses, exactly when each membership operation succeeds, and where the registry
 runs when it is not highly available.
 */
module MembershipOutcomes {
  import opened Options
  import opened Text
  import opened Hosts
  import opened Sorting
  import opened Membership
  import opened MembershipRuns

  // ---------------------------------------------------------------- the entries of a table

  ghost predicate NoColon(hosts: seq<IP>)
  {
    forall h :: h in hosts ==> ':' !in h
  }

  lemma SameMembers(a: seq<string>, b: seq<string>)
    requires multiset(a) == multiset(b)
    ensures |a| == |b| && forall x :: x in a <==> x in b
  {
    assert |multiset(a)| == |a| && |multiset(b)| == |b|;
    forall x ensures x in a <==> x in b {
      assert x in a <==> x in multiset(a);
      assert x in b <==> x in multiset(b);
    }
  }

  lemma NoDupByContent(a: seq<string>, b: seq<string>)
    requires multiset(a) == multiset(b) && NoDup(a)
    ensures NoDup(b)
  {
    forall i, j | 0 <= i < j < |b| ensures b[i] != b[j] {
      if b[i] == b[j] {
        CountTwo(b, i, j);
        CountOne(a, b[i]);
        assert false;
      }
    }
  }

  lemma CountTwo(b: seq<string>, i: nat, j: nat)
    requires i < j < |b| && b[i] == b[j]
    ensures multiset(b)[b[i]] >= 2
  {
    assert b == b[..j] + b[j..];
    assert b[..j][i] == b[i] && b[j..][0] == b[i];
    assert b[i] in multiset(b[..j]) && b[i] in multiset(b[j..]);
    assert multiset(b) == multiset(b[..j]) + multiset(b[j..]);
  }

  lemma {:induction false} CountOne(a: seq<string>, x: string)
    requires NoDup(a)
    ensures multiset(a)[x] <= 1
  {
    if a != [] {
      var front, y := a[..|a| - 1], a[|a| - 1];
      assert a == front + [y];
      CountOne(front, x);
      assert y !in front;
    }
  }

  lemma SameText(g: IP, h: IP, port: string)
    ensures g + ":" + port == h + ":" + port ==> g == h
  {
    if g + ":" + port == h + ":" + port {
      assert |g| == |h|;
      assert (g + ":" + port)[..|g|] == g && (h + ":" + port)[..|h|] == h;
    }
  }

  /** The table for a list of hosts holds, in the order of their texts, each host followed by a colon and the port: a
      host's entry is in it if and only if the host is in the list, and hosts listed once have one entry. */
  lemma EndpointsNameHosts(hosts: seq<IP>, port: string)
    requires NoColon(hosts)
    ensures var rs, sorted := Endpoints(hosts, port), Sort(hosts);
            && |rs| == |sorted| == |hosts| && Ordered(sorted) && multiset(sorted) == multiset(hosts)
            && (forall i :: 0 <= i < |rs| ==> rs[i] == sorted[i] + ":" + port)
            && (forall h: IP :: h + ":" + port in rs <==> h in hosts)
            && (NoDup(hosts) ==> NoDup(rs))
  {
    var rs, sorted := Endpoints(hosts, port), Sort(hosts);
    SortIsOrderedPermutation(hosts);
    SameMembers(sorted, hosts);
    forall i | 0 <= i < |rs| ensures rs[i] == sorted[i] + ":" + port {
      assert sorted[i] in hosts;
    }
    forall h: IP ensures h + ":" + port in rs <==> h in hosts {
      if h + ":" + port in rs {
        var i :| 0 <= i < |rs| && rs[i] == h + ":" + port;
        SameText(sorted[i], h, port);
      }
      if h in sorted {
        var i :| 0 <= i < |sorted| && sorted[i] == h;
        assert rs[i] == h + ":" + port;
      }
    }
    if NoDup(hosts) {
      NoDupByContent(hosts, sorted);
      forall i, j | 0 <= i < j < |rs| ensures rs[i] != rs[j] {
        SameText(sorted[i], sorted[j], port);
      }
    }
  }

  /** In terms of addresses: after any sequence of successful operations none of which deletes partly answering
      masters, the API server table of every worker has one entry for each current master, on port 6443, and no
      other. */
  lemma WorkersBalanceOverMasters(mode: Registry, ops: seq<Op>, c: Cluster, n: IP)
    requires Run(mode, ops) == Some(c) && ops != [] && NeverMixed(ops) && n in c.nodes && NoColon(c.masters)
    ensures n in c.world.kube && |c.world.kube[n]| == |c.masters| && NoDup(c.world.kube[n])
    ensures forall m: IP :: m + ":6443" in c.world.kube[n] <==> m in c.masters
  {
    KubeTablesTrackMasters(mode, ops, c);
    NoDupParts(c.masters, c.nodes);
    assert c.world.kube[n] == Endpoints(c.masters, "6443");
    KubeEntries(c.masters, c.world.kube[n]);
  }

  lemma KubeEntries(masters: seq<IP>, rs: seq<string>)
    requires NoColon(masters) && NoDup(masters) && rs == Endpoints(masters, "6443")
    ensures |rs| == |masters| && NoDup(rs) && forall m: IP :: m + ":6443" in rs <==> m in masters
  {
    EndpointsNameHosts(masters, "6443");
    forall m: IP ensures m + ":6443" in rs <==> m in masters {
      assert m + ":" + "6443" == m + ":6443";
    }
  }

  /** The same for the registry tables, when the masters to delete answer and the registry is highly available. */
  lemma WorkersBalanceOverRegistries(mode: Registry, ops: seq<Op>, c: Cluster, n: IP)
    requires Highly(mode) && Run(mode, ops) == Some(c) && ops != [] && AllAnswer(ops) && n in c.nodes
             && NoColon(c.masters)
    ensures n in c.world.reg && |c.world.reg[n]| == |c.masters| && NoDup(c.world.reg[n])
    ensures forall m: IP :: m + ":" + mode.port in c.world.reg[n] <==> m in c.masters
    ensures forall m: IP :: m in c.world.running <==> m in c.masters
  {
    AllTablesTrackMasters(mode, ops, c);
    NoDupParts(c.masters, c.nodes);
    EndpointsNameHosts(c.masters, mode.port);
  }

  // ---------------------------------------------------------------- exactly when an operation succeeds

  ghost predicate Reach(hosts: seq<IP>, down: set<IP>)
  {
    forall h :: h in hosts ==> h !in down
  }

  lemma UpIsReach(hosts: seq<IP>, down: set<IP>)
    ensures AllUp(hosts, down) <==> Reach(hosts, down)
  {
  }

  /** The registry configuration of new hosts. */
  ghost predicate ConfigWorks(mode: Registry, masters: seq<IP>, nodes: seq<IP>, allNodes: seq<IP>, env: Env)
  {
    var clients := if masters == [] then nodes else allNodes;
    && env.works(RegistryConfig)
    && (mode.Local? ==> Reach(masters, env.down(SetHostsFile)))
    && (mode.Local? && !mode.ha ==> Reach(nodes, env.down(SetHostsFile)))
    && (Highly(mode) ==> Reach(clients, env.down(PushRegistry)) && Reach(clients, env.down(SetRegistryAlias)))
  }

  ghost predicate InstallWorks(mode: Registry, ms: seq<IP>, ns: seq<IP>, env: Env)
  {
    && env.works(Prepare) && env.works(JoinMasters) && env.works(Finish)
    && (mode.Local? ==> env.works(RegistryData) && ms != [] && ms[0] !in env.down(StartRegistry))
    && (Highly(mode) ==> Reach(ms, env.down(StartRegistry)))
    && ConfigWorks(mode, ms, ns, ns, env)
    && (ns != [] ==> Reach(ns, env.down(PushJoining)) && env.works(JoinWorkers))
  }

  ghost predicate ScaleUpWorks(mode: Registry, c: Cluster, ms: seq<IP>, ns: seq<IP>, env: Env)
  {
    && env.works(Prepare) && env.works(JoinMasters) && env.works(Finish)
    && (Highly(mode) && ms != [] ==> env.works(RegistryData) && Reach(ms, env.down(StartRegistry)))
    && ConfigWorks(mode, ms, ns, c.nodes + ns, env)
    && (ms != [] ==> Reach(c.nodes, env.down(PushKube(Once))))
    && (ns != [] ==> Reach(ns, env.down(PushJoining)) && env.works(JoinWorkers))
  }

  /** One of the two runtime calls of a scale-down: a master stays, and the workers that stay take the new table. */
  ghost predicate CallWorks(call: Call, c: Cluster, gm: seq<IP>, gn: seq<IP>, env: Env)
  {
    && (exists m :: m in c.masters && m !in gm)
    && (gn != [] ==> env.works(DeleteWorkers(call)))
    && (gm != [] ==> env.works(DeleteMasters(call)) && Reach(Minus(c.nodes, gn), env.down(PushKube(call))))
  }

  ghost predicate UninstallWorks(mode: Registry, c: Cluster, op: Op)
    requires op.ScaleDown?
  {
    var up, upNodes, env := UpMasters(op), UpNodes(op), op.env;
    && (mode.External? ==> env.works(RegistryConfig))
    && (mode.Local? ==> Reach(up, env.down(RemoveRegistryConfig)) && Reach(upNodes, env.down(RemoveRegistryConfig)))
    && (Highly(mode) && up != [] && (exists m :: m in c.masters && m !in op.masters) ==>
          Reach(Minus(c.nodes, upNodes), env.down(PushRegistry))
          && Reach(Minus(c.nodes, upNodes), env.down(SetRegistryAlias)))
  }

  ghost predicate ScaleDownWorks(mode: Registry, c: Cluster, op: Op)
    requires op.ScaleDown?
  {
    && op.env.works(Inspect) && op.env.works(Prepare) && op.env.works(Finish)
    && (Highly(mode) ==> Reach(op.masters, op.env.down(StopRegistry)))
    && (op.masters != [] ==> Reach(Minus(c.nodes, op.nodes), op.env.down(CheckWorkers)))
    && CallWorks(Once, c, UpMasters(op), UpNodes(op), op.env)
    && CallWorks(Again, c, LostMasters(op), LostNodes(op), op.env)
    && UninstallWorks(mode, c, op)
  }

  ghost predicate Works(mode: Registry, c: Cluster, op: Op)
  {
    match op
    case Install(ms, ns, env) => InstallWorks(mode, ms, ns, env)
    case ScaleUp(ms, ns, env) => ScaleUpWorks(mode, c, ms, ns, env)
    case ScaleDown(_, _, _) => ScaleDownWorks(mode, c, op)
  }

  lemma ReachParts(a: seq<IP>, b: seq<IP>, down: set<IP>)
    ensures Reach(a + b, down) <==> Reach(a, down) && Reach(b, down)
  {
  }

  lemma InstallOnExactly(mode: Registry, w: World, deploy: seq<IP>, masters: seq<IP>, nodes: seq<IP>,
                         allNodes: seq<IP>, env: Env)
    requires Highly(mode) ==> deploy != []
    ensures InstallOn(mode, w, deploy, masters, nodes, allNodes, env).ok <==>
              ConfigWorks(mode, masters, nodes, allNodes, env)
  {
    var clients := if masters == [] then nodes else allNodes;
    UpIsReach(masters, env.down(SetHostsFile));
    UpIsReach(masters + nodes, env.down(SetHostsFile));
    ReachParts(masters, nodes, env.down(SetHostsFile));
    UpIsReach(clients, env.down(PushRegistry));
    UpIsReach(clients, env.down(SetRegistryAlias));
  }

  lemma JoinExactly(w: World, joining: seq<IP>, masters: seq<IP>, env: Env)
    requires masters != []
    ensures JoinNodes(w, joining, masters, env).ok <==>
              (joining != [] ==> Reach(joining, env.down(PushJoining)) && env.works(JoinWorkers))
  {
    UpIsReach(joining, env.down(PushJoining));
  }

  lemma InstallExactly(mode: Registry, w: World, ms: seq<IP>, ns: seq<IP>, env: Env)
    requires ms != []
    ensures Membership.Install(mode, w, ms, ns, env).ok <==> InstallWorks(mode, ms, ns, env)
  {
    var (a, deploy) := if mode.External? then (Outcome(w, true), []) else Reconcile(w, [], Deploy(mode, ms), env);
    UpIsReach(ms, env.down(StartRegistry));
    UpIsReach([ms[0]], env.down(StartRegistry));
    InstallOnExactly(mode, a.world, deploy, ms, ns, ns, env);
    var b := InstallOn(mode, a.world, deploy, ms, ns, ns, env);
    JoinExactly(b.world, ns, ms, env);
    assert ms[0] in ms;
  }

  lemma KubeScaleUpExactly(w: World, c: Cluster, masters: seq<IP>, ms: seq<IP>, ns: seq<IP>, env: Env)
    requires masters != [] && Minus(c.nodes + ns, ns) == c.nodes
    ensures KubeScaleUp(w, masters, c.nodes + ns, ms, ns, env).ok <==>
              env.works(JoinMasters) && (ms != [] ==> Reach(c.nodes, env.down(PushKube(Once))))
                && (ns != [] ==> Reach(ns, env.down(PushJoining)) && env.works(JoinWorkers))
  {
    UpIsReach(c.nodes, env.down(PushKube(Once)));
    var o := if ms == [] then Outcome(w, true) else KubeLvs(w, masters, c.nodes, env.down(PushKube(Once)));
    JoinExactly(o.world, ns, masters, env);
  }

  /** The registry is started on the new masters when it is highly available. */
  lemma ExtendExactly(w: World, had: seq<IP>, more: seq<IP>, env: Env)
    requires had != [] && NoDup(had + more)
    ensures var (a, deploy) := Reconcile(w, Minus(had + more, more), had + more, env);
            && deploy != []
            && (a.ok <==> (more != [] ==> env.works(RegistryData) && Reach(more, env.down(StartRegistry))))
  {
    ScaleUpLists(had, more);
    UpIsReach(more, env.down(StartRegistry));
  }

  /** A scale-up is its parts one after the other. */
  lemma ScaleUpChain(mode: Registry, w: World, masters: seq<IP>, nodes: seq<IP>, ms: seq<IP>, ns: seq<IP>, env: Env)
    returns (a: Outcome, deploy: seq<IP>, b: Outcome)
    requires masters != []
    ensures (a, deploy) ==
            if Highly(mode) then Reconcile(w, Minus(masters, ms), masters, env) else (Outcome(w, true), [masters[0]])
    ensures b == InstallOn(mode, a.world, deploy, ms, ns, nodes, env)
    ensures Membership.ScaleUp(mode, w, masters, nodes, ms, ns, env).ok <==>
              env.works(Prepare) && a.ok && b.ok && KubeScaleUp(b.world, masters, nodes, ms, ns, env).ok
                && env.works(Finish)
  {
    var r := if Highly(mode) then Reconcile(w, Minus(masters, ms), masters, env) else (Outcome(w, true), [masters[0]]);
    a, deploy := r.0, r.1;
    b := InstallOn(mode, a.world, deploy, ms, ns, nodes, env);
  }

  lemma ScaleUpExactly(mode: Registry, c: Cluster, ms: seq<IP>, ns: seq<IP>, env: Env)
    requires c.masters != [] && NoDup(c.masters + ms + (c.nodes + ns))
    ensures Membership.ScaleUp(mode, c.world, c.masters + ms, c.nodes + ns, ms, ns, env).ok <==>
              ScaleUpWorks(mode, c, ms, ns, env)
  {
    var masters, nodes := c.masters + ms, c.nodes + ns;
    NoDupParts(masters, nodes);
    ExtendExactly(c.world, c.masters, ms, env);
    ScaleUpLists(c.nodes, ns);
    var a, deploy, b := ScaleUpChain(mode, c.world, masters, nodes, ms, ns, env);
    InstallOnExactly(mode, a.world, deploy, ms, ns, nodes, env);
    KubeScaleUpExactly(b.world, c, masters, ms, ns, env);
    ScaleUpConditions(mode, c, ms, ns, env, a.ok, b.ok, KubeScaleUp(b.world, masters, nodes, ms, ns, env).ok);
  }

  lemma ScaleUpConditions(mode: Registry, c: Cluster, ms: seq<IP>, ns: seq<IP>, env: Env, started: bool,
                          configured: bool, joined: bool)
    requires started <==>
               (Highly(mode) && ms != [] ==> env.works(RegistryData) && Reach(ms, env.down(StartRegistry)))
    requires configured <==> ConfigWorks(mode, ms, ns, c.nodes + ns, env)
    requires joined <==> env.works(JoinMasters) && (ms != [] ==> Reach(c.nodes, env.down(PushKube(Once))))
                           && (ns != [] ==> Reach(ns, env.down(PushJoining)) && env.works(JoinWorkers))
    ensures env.works(Prepare) && started && configured && joined && env.works(Finish) <==>
              ScaleUpWorks(mode, c, ms, ns, env)
  {
  }

  lemma RemainExactly(masters: seq<IP>, gone: seq<IP>)
    ensures Minus(masters, gone) != [] <==> exists m :: m in masters && m !in gone
  {
    MinusIn(masters, gone);
    if Minus(masters, gone) != [] {
      assert Minus(masters, gone)[0] in Minus(masters, gone);
    }
  }

  lemma CallExactly(call: Call, w: World, c: Cluster, gm: seq<IP>, gn: seq<IP>, env: Env)
    ensures KubeScaleDown(call, w, c.masters, c.nodes, gm, gn, env).ok <==> CallWorks(call, c, gm, gn, env)
  {
    RemainExactly(c.masters, gm);
    UpIsReach(Minus(c.nodes, gn), env.down(PushKube(call)));
  }

  lemma UninstallExactly(mode: Registry, w: World, c: Cluster, deploy: seq<IP>, op: Op)
    requires op.ScaleDown? && (Highly(mode) ==> deploy == Minus(c.masters, op.masters))
    ensures UninstallFrom(mode, w, deploy, UpMasters(op), UpNodes(op), c.nodes, op.env).ok <==>
              UninstallWorks(mode, c, op)
  {
    var up, upNodes, env := UpMasters(op), UpNodes(op), op.env;
    RemainExactly(c.masters, op.masters);
    UpIsReach(up + upNodes, env.down(RemoveRegistryConfig));
    ReachParts(up, upNodes, env.down(RemoveRegistryConfig));
    UpIsReach(Minus(c.nodes, upNodes), env.down(PushRegistry));
    UpIsReach(Minus(c.nodes, upNodes), env.down(SetRegistryAlias));
  }

  lemma RedeployExactly(mode: Registry, c: Cluster, op: Op)
    requires op.ScaleDown? && Shape(c) && forall x :: x in op.masters ==> x in c.masters
    ensures var (a, deploy) := Redeploy(mode, c.world, c.masters, op.masters, op.env);
            && (a.ok <==> (Highly(mode) ==> Reach(op.masters, op.env.down(StopRegistry))))
            && (Highly(mode) ==> deploy == Minus(c.masters, op.masters))
  {
    if Highly(mode) {
      var remain := Minus(c.masters, op.masters);
      var deleted := Minus(c.masters, remain);
      NoDupParts(c.masters, c.nodes);
      ScaleDownLists(c.masters, op.masters);
      MinusIn(c.masters, op.masters);
      MinusIn(c.masters, remain);
      UpIsReach(deleted, op.env.down(StopRegistry));
      assert forall x :: x in deleted <==> x in op.masters;
    }
  }

  lemma RemovalExactly(mode: Registry, w: World, c: Cluster, deploy: seq<IP>, op: Op)
    requires op.ScaleDown? && (Highly(mode) ==> deploy == Minus(c.masters, op.masters))
    ensures RemoveTargets(mode, w, deploy, c.masters, c.nodes, op.masters, op.nodes, op.env).ok <==>
              CallWorks(Once, c, UpMasters(op), UpNodes(op), op.env) && UninstallWorks(mode, c, op)
                && op.env.works(Finish) && CallWorks(Again, c, LostMasters(op), LostNodes(op), op.env)
  {
    CallExactly(Once, w, c, UpMasters(op), UpNodes(op), op.env);
    var b := KubeScaleDown(Once, w, c.masters, c.nodes, UpMasters(op), UpNodes(op), op.env).world;
    UninstallExactly(mode, b, c, deploy, op);
    var d := UninstallFrom(mode, b, deploy, UpMasters(op), UpNodes(op), c.nodes, op.env).world;
    CallExactly(Again, d, c, LostMasters(op), LostNodes(op), op.env);
  }

  lemma ScaleDownSucceedsExactly(mode: Registry, c: Cluster, op: Op)
    requires op.ScaleDown? && Shape(c) && forall x :: x in op.masters ==> x in c.masters
    ensures Membership.ScaleDown(mode, c.world, c.masters, c.nodes, op.masters, op.nodes, op.env).ok <==>
              ScaleDownWorks(mode, c, op)
  {
    RedeployExactly(mode, c, op);
    var (a, deploy) := Redeploy(mode, c.world, c.masters, op.masters, op.env);
    UpIsReach(Minus(c.nodes, op.nodes), op.env.down(CheckWorkers));
    RemovalExactly(mode, a.world, c, deploy, op);
  }

  /** For every allowed operation on a cluster: it succeeds if and only if each step works and each host answers the
      commands that are sent to it, and each runtime call of a scale-down leaves a master. */
  lemma SucceedsExactly(mode: Registry, c: Cluster, op: Op)
    requires Allowed(mode, c, op) && (op.Install? || Shape(c))
    ensures Step(mode, c, op).Some? <==> Works(mode, c, op)
  {
    match op {
      case Install(ms, ns, env) => InstallExactly(mode, c.world, ms, ns, env);
      case ScaleUp(ms, ns, env) => ScaleUpExactly(mode, c, ms, ns, env);
      case ScaleDown(_, _, _) => ScaleDownSucceedsExactly(mode, c, op);
    }
  }

  ghost predicate Healthy(env: Env)
  {
    (forall cmd :: env.down(cmd) == {}) && forall step :: env.works(step)
  }

  lemma NobodyMisses(op: Op)
    requires Healthy(op.env)
    ensures LostMasters(op) == [] && LostNodes(op) == [] && UpMasters(op) == op.masters
  {
    UnreachableIn(op.masters, {});
    UnreachableIn(op.nodes, {});
    AnsweredOrLost(op);
    NothingIn(LostMasters(op));
    NothingIn(LostNodes(op));
  }

  lemma NothingIn(s: seq<IP>)
    ensures s == [] || exists x :: x in s
  {
    if s != [] {
      assert s[0] in s;
    }
  }

  lemma AllReached(hosts: seq<IP>)
    ensures Reach(hosts, {})
  {
  }

  lemma HealthyScaleDown(mode: Registry, c: Cluster, op: Op)
    requires op.ScaleDown? && c.masters != [] && Healthy(op.env)
    ensures ScaleDownWorks(mode, c, op) <==> exists m :: m in c.masters && m !in op.masters
  {
    NobodyMisses(op);
    assert c.masters[0] in c.masters && c.masters[0] !in LostMasters(op);
    AllReached(op.masters);
    AllReached(UpNodes(op));
    AllReached(Minus(c.nodes, op.nodes));
    AllReached(Minus(c.nodes, UpNodes(op)));
  }

  /** When every command works, every allowed operation succeeds, except a scale-down that names all masters. */
  lemma HealthyOperationsSucceed(mode: Registry, c: Cluster, op: Op)
    requires Allowed(mode, c, op) && (op.Install? || Shape(c)) && Healthy(op.env)
    ensures Step(mode, c, op).Some? <==> (op.ScaleDown? ==> exists m :: m in c.masters && m !in op.masters)
  {
    SucceedsExactly(mode, c, op);
    if op.ScaleDown? {
      HealthyScaleDown(mode, c, op);
    }
  }

  // ---------------------------------------------------------------- other registries

  /** Without high availability the registry runs on the first master alone, or nowhere when it is external, and no
      host has a registry table. */
  ghost predicate SingleRegistry(mode: Registry, c: Cluster)
  {
    c.masters != [] && c.world.reg == map[] && c.world.running == if mode.Local? then {c.masters[0]} else {}
  }

  lemma FirstStays(masters: seq<IP>, gone: seq<IP>)
    requires masters != [] && masters[0] !in gone
    ensures Minus(masters, gone) != [] && Minus(masters, gone)[0] == masters[0]
  {
    assert masters == [masters[0]] + masters[1..];
    MinusAppend([masters[0]], masters[1..], gone);
    MinusSingle(masters[0], gone);
  }

  lemma InstallSingle(mode: Registry, c: Cluster, op: Op)
    requires !Highly(mode) && op.Install? && Step(mode, c, op).Some?
    ensures SingleRegistry(mode, Step(mode, c, op).value)
  {
    var ms, ns, env := op.masters, op.nodes, op.env;
    LaunchRuns(c.world, [ms[0]], env);
    assert Elems([ms[0]]) == {ms[0]};
    var (a, deploy) := if mode.External? then (Outcome(c.world, true), [])
      else Reconcile(c.world, [], Deploy(mode, ms), env);
    var b := InstallOn(mode, a.world, deploy, ms, ns, ns, env);
    JoinBalances(b.world, ns, ms, env, ns);
  }

  lemma ScaleUpSingle(mode: Registry, c: Cluster, op: Op)
    requires !Highly(mode) && op.ScaleUp? && Step(mode, c, op).Some? && SingleRegistry(mode, c)
    ensures SingleRegistry(mode, Step(mode, c, op).value)
  {
    var a, deploy, b :=
      ScaleUpParts(mode, c.world, c.masters + op.masters, c.nodes + op.nodes, op.masters, op.nodes, op.env);
  }

  lemma ScaleDownSingle(mode: Registry, c: Cluster, op: Op)
    requires !Highly(mode) && op.ScaleDown? && Step(mode, c, op).Some? && SingleRegistry(mode, c)
    requires Step(mode, c, op).value.masters != []
    ensures SingleRegistry(mode, Step(mode, c, op).value)
  {
    var a, deploy, b, d := ScaleDownParts(mode, c.world, c.masters, c.nodes, op);
    if mode.Local? {
      FirstStays(c.masters, op.masters);
    }
  }

  /** Over all runs without high availability, none of which deletes partly answering masters. */
  lemma {:induction false} SingleRegistryStays(mode: Registry, ops: seq<Op>, c: Cluster)
    requires !Highly(mode) && Run(mode, ops) == Some(c) && ops != [] && NeverMixed(ops)
    ensures SingleRegistry(mode, c)
    decreases |ops|
  {
    var before, op := ops[..|ops| - 1], ops[|ops| - 1];
    var m := Run(mode, before).value;
    KubeTablesTrackMasters(mode, ops, c);
    if before == [] {
      InstallSingle(mode, m, op);
    } else {
      SingleRegistryStays(mode, before, m);
      match op {
        case Install(_, _, _) => assert false;
        case ScaleUp(_, _, _) => ScaleUpSingle(mode, m, op);
        case ScaleDown(_, _, _) => ScaleDownSingle(mode, m, op);
      }
    }
  }

  // ---------------------------------------------------------------- who gets a table

  /** Commands sent to one host after the other reach the hosts before the first one that fails. */
  lemma {:induction false} ReachedExactly(hosts: seq<IP>, down: set<IP>)
    ensures var r := Reached(hosts, down);
            && r <= hosts && Reach(r, down)
            && (|r| < |hosts| ==> hosts[|r|] in down)
    decreases |hosts|
  {
    if hosts != [] && hosts[0] !in down {
      ReachedExactly(hosts[1..], down);
      var r := Reached(hosts[1..], down);
      assert hosts == [hosts[0]] + hosts[1..];
      assert hosts[..|r| + 1] == [hosts[0]] + hosts[1..][..|r|];
    }
  }

  /** The host at `k` is the first one that fails. */
  ghost predicate FirstMiss(hosts: seq<IP>, down: set<IP>, k: nat)
    requires k < |hosts|
  {
    Reach(hosts[..k], down) && hosts[k] in down
  }

  /** Starting or stopping the registry on several hosts takes effect up to the first host that fails. */
  lemma RegistryCommandsStop(w: World, hosts: seq<IP>, env: Env, k: nat)
    requires k < |hosts|
    ensures env.works(RegistryData) && FirstMiss(hosts, env.down(StartRegistry), k) ==>
              Launch(w, hosts, env) == Outcome(w.(running := w.running + Elems(hosts[..k])), false)
    ensures FirstMiss(hosts, env.down(StopRegistry), k) ==>
              Clean(w, hosts, env) == Outcome(w.(running := w.running - Elems(hosts[..k])), false)
    ensures !env.works(RegistryData) ==> Launch(w, hosts, env) == Outcome(w, false)
  {
    ReachedUpTo(hosts, env.down(StartRegistry), k);
    ReachedUpTo(hosts, env.down(StopRegistry), k);
    UpIsReach(hosts, env.down(StartRegistry));
    UpIsReach(hosts, env.down(StopRegistry));
  }

  lemma {:induction false} ReachedUpTo(hosts: seq<IP>, down: set<IP>, k: nat)
    requires k < |hosts|
    ensures FirstMiss(hosts, down, k) ==> Reached(hosts, down) == hosts[..k] && !Reach(hosts, down)
    decreases k
  {
    if FirstMiss(hosts, down, k) && k > 0 {
      assert hosts[0] == hosts[..k][0];
      assert hosts[1..][..k - 1] == hosts[..k][1..] && hosts[..k] == [hosts[0]] + hosts[..k][1..];
      ReachedUpTo(hosts[1..], down, k - 1);
    }
  }

  /** Only these hosts, besides those that had one, have a table. */
  ghost predicate Spreads(w: World, w': World, nodes: set<IP>)
  {
    w'.kube.Keys <= w.kube.Keys + nodes && w'.reg.Keys <= w.reg.Keys + nodes
  }

  lemma ElemsMinus(nodes: seq<IP>, gone: seq<IP>)
    ensures Elems(Minus(nodes, gone)) <= Elems(nodes)
  {
    MinusIn(nodes, gone);
  }

  lemma KubeLvsSpreads(w: World, masters: seq<IP>, clients: seq<IP>, down: set<IP>, nodes: set<IP>)
    requires Elems(clients) <= nodes
    ensures Spreads(w, KubeLvs(w, masters, clients, down).world, nodes)
  {
  }

  lemma RegistryLvsSpreads(w: World, port: string, hosts: seq<IP>, clients: seq<IP>, env: Env, nodes: set<IP>)
    requires Elems(clients) <= nodes
    ensures Spreads(w, RegistryLvs(w, port, hosts, clients, env).world, nodes)
  {
  }

  lemma InstallOnSpreads(mode: Registry, w: World, deploy: seq<IP>, masters: seq<IP>, nodes: seq<IP>,
                         allNodes: seq<IP>, env: Env)
    requires Elems(nodes) <= Elems(allNodes)
    ensures Spreads(w, InstallOn(mode, w, deploy, masters, nodes, allNodes, env).world, Elems(allNodes))
  {
    if Highly(mode) {
      RegistryLvsSpreads(w, mode.port, deploy, if masters == [] then nodes else allNodes, env, Elems(allNodes));
    }
  }

  lemma JoinSpreads(w: World, joining: seq<IP>, masters: seq<IP>, env: Env, nodes: set<IP>)
    requires Elems(joining) <= nodes
    ensures Spreads(w, JoinNodes(w, joining, masters, env).world, nodes)
  {
    KubeLvsSpreads(w, masters, joining, env.down(PushJoining), nodes);
  }

  lemma KubeScaleUpSpreads(w: World, masters: seq<IP>, nodes: seq<IP>, nm: seq<IP>, nn: seq<IP>, env: Env)
    requires Elems(nn) <= Elems(nodes)
    ensures Spreads(w, KubeScaleUp(w, masters, nodes, nm, nn, env).world, Elems(nodes))
  {
    ElemsMinus(nodes, nn);
    KubeLvsSpreads(w, masters, Minus(nodes, nn), env.down(PushKube(Once)), Elems(nodes));
    var o := if nm == [] then Outcome(w, true) else KubeLvs(w, masters, Minus(nodes, nn), env.down(PushKube(Once)));
    JoinSpreads(o.world, nn, masters, env, Elems(nodes));
  }

  lemma KubeScaleDownSpreads(call: Call, w: World, masters: seq<IP>, nodes: seq<IP>, gm: seq<IP>, gn: seq<IP>,
                             env: Env)
    ensures Spreads(w, KubeScaleDown(call, w, masters, nodes, gm, gn, env).world, Elems(nodes))
  {
    ElemsMinus(nodes, gn);
    KubeLvsSpreads(w, Minus(masters, gm), Minus(nodes, gn), env.down(PushKube(call)), Elems(nodes));
  }

  lemma UninstallSpreads(mode: Registry, w: World, deploy: seq<IP>, masters: seq<IP>, nodes: seq<IP>,
                         allNodes: seq<IP>, env: Env)
    ensures Spreads(w, UninstallFrom(mode, w, deploy, masters, nodes, allNodes, env).world, Elems(allNodes))
  {
    ElemsMinus(allNodes, nodes);
    if Highly(mode) {
      RegistryLvsSpreads(w, mode.port, deploy, Minus(allNodes, nodes), env, Elems(allNodes));
    }
  }

  lemma ReconcileLeavesTables(w: World, current: seq<IP>, desired: seq<IP>, env: Env)
    ensures var o := Reconcile(w, current, desired, env).0; o.world.kube == w.kube && o.world.reg == w.reg
  {
  }

  lemma InstallSpreads(mode: Registry, c: Cluster, op: Op)
    requires op.Install? && Step(mode, c, op).Some?
    ensures Spreads(c.world, Step(mode, c, op).value.world, Elems(op.nodes))
  {
    var ms, ns, env := op.masters, op.nodes, op.env;
    var (a, deploy) := if mode.External? then (Outcome(c.world, true), [])
      else Reconcile(c.world, [], Deploy(mode, ms), env);
    ReconcileLeavesTables(c.world, [], Deploy(mode, ms), env);
    InstallOnSpreads(mode, a.world, deploy, ms, ns, ns, env);
    JoinSpreads(InstallOn(mode, a.world, deploy, ms, ns, ns, env).world, ns, ms, env, Elems(ns));
  }

  lemma ScaleUpSpreads(mode: Registry, c: Cluster, op: Op)
    requires op.ScaleUp? && Step(mode, c, op).Some?
    ensures Spreads(c.world, Step(mode, c, op).value.world, Elems(c.nodes + op.nodes))
  {
    var masters, nodes := c.masters + op.masters, c.nodes + op.nodes;
    var a, deploy, b := ScaleUpChain(mode, c.world, masters, nodes, op.masters, op.nodes, op.env);
    ReconcileLeavesTables(c.world, Minus(masters, op.masters), masters, op.env);
    InstallOnSpreads(mode, a.world, deploy, op.masters, op.nodes, nodes, op.env);
    KubeScaleUpSpreads(b.world, masters, nodes, op.masters, op.nodes, op.env);
    ScaleUpWorld(mode, c.world, masters, nodes, op.masters, op.nodes, op.env, b.world);
  }

  lemma ScaleUpWorld(mode: Registry, w: World, masters: seq<IP>, nodes: seq<IP>, ms: seq<IP>, ns: seq<IP>, env: Env,
                     b: World)
    requires masters != [] && Membership.ScaleUp(mode, w, masters, nodes, ms, ns, env).ok
    requires var (a, deploy) := if Highly(mode) then Reconcile(w, Minus(masters, ms), masters, env)
               else (Outcome(w, true), [masters[0]]);
             b == InstallOn(mode, a.world, deploy, ms, ns, nodes, env).world
    ensures Membership.ScaleUp(mode, w, masters, nodes, ms, ns, env).world ==
            KubeScaleUp(b, masters, nodes, ms, ns, env).world
  {
  }

  lemma ScaleDownSpreads(mode: Registry, c: Cluster, op: Op)
    requires op.ScaleDown? && Step(mode, c, op).Some?
    ensures Spreads(c.world, Step(mode, c, op).value.world, Elems(c.nodes))
  {
    var a, deploy, b, d := ScaleDownParts(mode, c.world, c.masters, c.nodes, op);
    KubeScaleDownSpreads(Once, a.world, c.masters, c.nodes, UpMasters(op), UpNodes(op), op.env);
    UninstallSpreads(mode, b.world, deploy, UpMasters(op), UpNodes(op), c.nodes, op.env);
    KubeScaleDownSpreads(Again, d.world, c.masters, c.nodes, LostMasters(op), LostNodes(op), op.env);
  }

  /** All hosts that were workers at some time. */
  ghost function Workers(ops: seq<Op>): set<IP>
  {
    if ops == [] then {}
    else
      var op := ops[|ops| - 1];
      Workers(ops[..|ops| - 1]) + if op.ScaleDown? then {} else Elems(op.nodes)
  }

  /** Over all runs, in every registry mode: no host has a table that was never a worker. */
  lemma {:induction false} OnlyWorkersHaveTables(mode: Registry, ops: seq<Op>, c: Cluster)
    requires Run(mode, ops) == Some(c)
    ensures Elems(c.nodes) <= Workers(ops)
    ensures c.world.kube.Keys <= Workers(ops) && c.world.reg.Keys <= Workers(ops)
    decreases |ops|
  {
    if ops != [] {
      var before, op := ops[..|ops| - 1], ops[|ops| - 1];
      var m := Run(mode, before).value;
      OnlyWorkersHaveTables(mode, before, m);
      match op {
        case Install(_, _, _) => InstallSpreads(mode, m, op);
        case ScaleUp(_, _, _) =>
          ScaleUpSpreads(mode, m, op);
          assert Elems(m.nodes + op.nodes) == Elems(m.nodes) + Elems(op.nodes);
        case ScaleDown(_, _, _) =>
          ScaleDownSpreads(mode, m, op);
          ElemsMinus(m.nodes, op.nodes);
      }
    }
  }
}
