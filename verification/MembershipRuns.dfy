/**
 What holds after any sequence of successful install, scale-up and scale-down operations.
 */
module MembershipRuns {
  import opened Options
  import opened Hosts
  import opened Sorting
  import opened Membership

  datatype Op =
    | Install(masters: seq<IP>, nodes: seq<IP>, env: Env)
    | ScaleUp(masters: seq<IP>, nodes: seq<IP>, env: Env)
    | ScaleDown(masters: seq<IP>, nodes: seq<IP>, env: Env)

  /** The saved cluster and the remote hosts; no masters means not installed yet. */
  datatype Cluster = Cluster(masters: seq<IP>, nodes: seq<IP>, world: World)

  const NOTHING := Cluster([], [], World(map[], map[], {}))

  /** What the command line checks: roles disjoint, no address twice, targets of a removal present, and the first
      master kept while it alone runs the registry. */
  ghost predicate Allowed(mode: Registry, c: Cluster, op: Op)
  {
    match op
    case Install(ms, ns, _) => c == NOTHING && ms != [] && NoDup(ms + ns)
    case ScaleUp(ms, ns, _) => c.masters != [] && NoDup(c.masters + ms + (c.nodes + ns))
    case ScaleDown(ms, ns, _) =>
      && c.masters != []
      && (forall x :: x in ms ==> x in c.masters) && (forall x :: x in ns ==> x in c.nodes)
      && (mode.Local? && !mode.ha ==> c.masters[0] !in ms)
  }

  /** One operation; `None` when it is not allowed or reports an error. */
  ghost function Step(mode: Registry, c: Cluster, op: Op): Option<Cluster>
  {
    if !Allowed(mode, c, op) then None
    else
      var (masters, nodes, o) :=
        match op
        case Install(ms, ns, env) => (ms, ns, Membership.Install(mode, c.world, ms, ns, env))
        case ScaleUp(ms, ns, env) =>
          (c.masters + ms, c.nodes + ns, Membership.ScaleUp(mode, c.world, c.masters + ms, c.nodes + ns, ms, ns, env))
        case ScaleDown(ms, ns, env) =>
          (Minus(c.masters, ms), Minus(c.nodes, ns),
            Membership.ScaleDown(mode, c.world, c.masters, c.nodes, ms, ns, env));
      if o.ok then Some(Cluster(masters, nodes, o.world)) else None
  }

  ghost function Run(mode: Registry, ops: seq<Op>): Option<Cluster>
  {
    if ops == [] then Some(NOTHING)
    else
      match Run(mode, ops[..|ops| - 1])
      case None => None
      case Some(c) => Step(mode, c, ops[|ops| - 1])
  }

  ghost predicate Shape(c: Cluster)
  {
    c.masters != [] && NoDup(c.masters + c.nodes)
  }

  ghost predicate Balanced(t: Tables, clients: seq<IP>, rs: seq<string>)
  {
    forall n :: n in clients ==> n in t && t[n] == rs
  }

  /** Every worker balances over exactly the current masters. */
  ghost predicate KubeInv(c: Cluster)
  {
    Shape(c) && Balanced(c.world.kube, c.nodes, Endpoints(c.masters, KUBE_PORT))
  }

  /** The registry runs on exactly the masters, and every worker balances over them. */
  ghost predicate RegistryInv(mode: Registry, c: Cluster)
    requires mode.Local?
  {
    c.world.running == Elems(c.masters) && Balanced(c.world.reg, c.nodes, Endpoints(c.masters, mode.port))
  }

  // ---------------------------------------------------------------- lists

  lemma NoDupParts(a: seq<IP>, b: seq<IP>)
    requires NoDup(a + b)
    ensures NoDup(a) && NoDup(b) && forall x :: x in a ==> x !in b
  {
    forall i, j | 0 <= i < j < |a| ensures a[i] != a[j] {
      assert (a + b)[i] != (a + b)[j];
    }
    forall i, j | 0 <= i < j < |b| ensures b[i] != b[j] {
      assert (a + b)[|a| + i] != (a + b)[|a| + j];
    }
    forall i, j | 0 <= i < |a| && 0 <= j < |b| ensures a[i] != b[j] {
      assert (a + b)[i] != (a + b)[|a| + j];
    }
  }

  lemma NoDupJoin(a: seq<IP>, b: seq<IP>)
    requires NoDup(a) && NoDup(b) && forall x :: x in a ==> x !in b
    ensures NoDup(a + b)
  {
    forall i, j | 0 <= i < j < |a + b| ensures (a + b)[i] != (a + b)[j] {
      if j >= |a| {
        assert (a + b)[j] in b;
        if i < |a| {
          assert (a + b)[i] in a;
        }
      }
    }
  }

  lemma {:induction false} MinusCong(a: seq<IP>, b: seq<IP>, b': seq<IP>)
    requires forall x :: x in a ==> (x in b <==> x in b')
    ensures Minus(a, b) == Minus(a, b')
  {
    if a != [] {
      var front, x := a[..|a| - 1], a[|a| - 1];
      assert a == front + [x];
      MinusCong(front, b, b');
    }
  }

  lemma {:induction false} MinusShorter(a: seq<IP>, b: seq<IP>, b': seq<IP>, m: IP)
    requires (forall x :: x in b ==> x in b') && m in b' && m !in b
    ensures |Minus(a, b')| <= |Minus(a, b)|
    ensures m in a ==> |Minus(a, b')| < |Minus(a, b)|
  {
    if a != [] {
      var front, x := a[..|a| - 1], a[|a| - 1];
      assert a == front + [x];
      MinusShorter(front, b, b', m);
    }
  }

  lemma {:induction false} UnreachableIn(hosts: seq<IP>, down: set<IP>)
    ensures forall x :: x in Unreachable(hosts, down) <==> x in hosts && x in down
  {
    if hosts != [] {
      var front, x := hosts[..|hosts| - 1], hosts[|hosts| - 1];
      assert hosts == front + [x];
      UnreachableIn(front, down);
    }
  }

  lemma {:induction false} ReachedAll(hosts: seq<IP>, down: set<IP>)
    requires AllUp(hosts, down)
    ensures Reached(hosts, down) == hosts
  {
    if hosts != [] {
      ReachedAll(hosts[1..], down);
    }
  }

  /** A successful push reaches every client and nobody else. */
  lemma PushBalances(t: Tables, clients: seq<IP>, down: set<IP>, rs: seq<string>, watched: seq<IP>)
    requires AllUp(clients, down)
    requires forall n :: n in watched ==> n in clients || (n in t && t[n] == rs)
    ensures Balanced(Push(t, clients, down, rs), watched, rs)
  {
  }

  lemma {:induction false} InsertLength(x: string, s: seq<string>)
    ensures |Insert(x, s)| == |s| + 1
  {
    if s != [] && !LessEq(x, s[0]) {
      InsertLength(x, s[1..]);
    }
  }

  lemma {:induction false} SortLength(s: seq<string>)
    ensures |Sort(s)| == |s|
  {
    if s != [] {
      SortLength(s[1..]);
      InsertLength(s[0], Sort(s[1..]));
    }
  }

  /** The real servers are the addresses in order, each once with its port, however they were listed. */
  lemma EndpointsAreSortedHosts(hosts: seq<IP>, port: string, relisted: seq<IP>)
    requires multiset(hosts) == multiset(relisted)
    ensures Ordered(Sort(hosts)) && multiset(Sort(hosts)) == multiset(hosts)
    ensures Endpoints(hosts, port) == Endpoints(relisted, port) && |Endpoints(hosts, port)| == |hosts|
  {
    SortIsOrderedPermutation(hosts);
    SortByContent(hosts, relisted);
    SortLength(hosts);
  }

  // ---------------------------------------------------------------- registry reconcile

  lemma MinusElems(a: seq<IP>, b: seq<IP>)
    ensures Elems(Minus(a, b)) == Elems(a) - Elems(b)
    ensures Minus(a, b) == [] <==> Elems(a) <= Elems(b)
  {
    MinusIn(a, b);
    if Minus(a, b) != [] {
      assert Minus(a, b)[0] in Minus(a, b);
      assert Minus(a, b)[0] in Elems(a) - Elems(b);
    }
    if x :| x in Elems(a) - Elems(b) {
      assert x in Minus(a, b);
    }
  }

  lemma NoDupDiff(was: seq<IP>, now: seq<IP>)
    requires NoDup(now)
    ensures Added(was, now) == Minus(now, was)
  {
    DiffAddsExactly(was, now);
  }

  lemma LaunchRuns(w: World, hosts: seq<IP>, env: Env)
    ensures Launch(w, hosts, env).ok ==> Launch(w, hosts, env).world == w.(running := w.running + Elems(hosts))
    ensures Clean(w, hosts, env).ok ==> Clean(w, hosts, env).world == w.(running := w.running - Elems(hosts))
  {
    if AllUp(hosts, env.down(StartRegistry)) {
      ReachedAll(hosts, env.down(StartRegistry));
    }
    if AllUp(hosts, env.down(StopRegistry)) {
      ReachedAll(hosts, env.down(StopRegistry));
    }
  }

  /** What the three ways of reconciling leave behind. */
  lemma ReconcileEffect(w: World, current: seq<IP>, desired: seq<IP>, env: Env)
    requires NoDup(desired)
    ensures var (o, deploy), joined, deleted := Reconcile(w, current, desired, env), Minus(desired, current),
            Minus(current, desired);
            o.ok ==>
              && deploy == (if current == [] then desired else if joined != [] then current + joined
                else Minus(current, deleted))
              && o.world == w.(running := if current == [] then w.running + Elems(desired)
                                          else if joined != [] then w.running + Elems(joined)
                                          else w.running - Elems(deleted))
  {
    NoDupDiff(current, desired);
    LaunchRuns(w, desired, env);
    LaunchRuns(w, Minus(desired, current), env);
    LaunchRuns(w, Minus(current, desired), env);
    MinusNothing(current);
    assert w.running - Elems([]) == w.running;
  }

  lemma {:induction false} MinusNothing(a: seq<IP>)
    ensures Minus(a, []) == a
  {
    if a != [] {
      MinusNothing(a[..|a| - 1]);
    }
  }

  /** A successful `Reconcile` returns exactly the hosts where the registry then runs; they are the
      desired hosts if and only if it did not both add and remove. */
  lemma ReconcileTracksReality(w: World, current: seq<IP>, desired: seq<IP>, env: Env)
    requires w.running == Elems(current) && NoDup(desired)
    ensures var (o, deploy) := Reconcile(w, current, desired, env);
            o.ok ==>
              && Elems(deploy) == o.world.running && o.world.kube == w.kube && o.world.reg == w.reg
              && (Elems(deploy) == Elems(desired) <==> Minus(desired, current) == [] || Minus(current, desired) == [])
  {
    ReconcileEffect(w, current, desired, env);
    ReconcileElems(current, desired);
  }

  /** The list `Reconcile` returns, as sets. */
  lemma ReconcileElems(current: seq<IP>, desired: seq<IP>)
    ensures var joined, deleted := Minus(desired, current), Minus(current, desired);
            && (current == [] ==> deleted == [] && Elems(current) == {})
            && Elems(current + joined) == Elems(current) + Elems(joined) == Elems(current) + Elems(desired)
            && Elems(Minus(current, deleted)) == Elems(current) - Elems(deleted)
            && (joined == [] ==> Elems(current) - Elems(deleted) == Elems(desired))
            && (joined != [] ==> (Elems(current) + Elems(desired) == Elems(desired) <==> deleted == []))
  {
    var joined, deleted := Minus(desired, current), Minus(current, desired);
    MinusElems(desired, current);
    MinusElems(current, desired);
    MinusElems(current, deleted);
    assert Elems(current + joined) == Elems(current) + Elems(joined);
  }

  lemma MinusSingle(x: IP, b: seq<IP>)
    ensures Minus([x], b) == if x in b then [] else [x]
  {
    assert [x][..0] == [];
  }

  /** It misses the desired hosts when one host is to be added and another removed: the old one keeps running. */
  lemma ReconcileMissesDesired(w: World, was: IP, wanted: IP, env: Env)
    requires was != wanted && w.running == {was} && env.works(RegistryData) && env.down(StartRegistry) == {}
    ensures var (o, deploy) := Reconcile(w, [was], [wanted], env);
            o.ok && deploy == [was, wanted] && o.world.running == {was, wanted}
  {
    MinusSingle(wanted, [was]);
    NoDupDiff([was], [wanted]);
    assert Reached([wanted], {}) == [wanted];
    assert Elems([wanted]) == {wanted};
    assert [was] + [wanted] == [was, wanted];
  }

  // ---------------------------------------------------------------- one operation

  ghost predicate Highly(mode: Registry)
  {
    mode.Local? && mode.ha
  }

  lemma JoinBalances(w: World, joining: seq<IP>, masters: seq<IP>, env: Env, watched: seq<IP>)
    requires JoinNodes(w, joining, masters, env).ok
    requires forall n :: n in watched ==> n in joining || (n in w.kube && w.kube[n] == Endpoints(masters, KUBE_PORT))
    ensures var r := JoinNodes(w, joining, masters, env).world;
            Balanced(r.kube, watched, Endpoints(masters, KUBE_PORT)) && r.reg == w.reg && r.running == w.running
  {
    if joining != [] {
      PushBalances(w.kube, joining, env.down(PushJoining), Endpoints(masters, KUBE_PORT), watched);
    }
  }

  lemma InstallKeeps(mode: Registry, c: Cluster, op: Op)
    requires op.Install? && Step(mode, c, op).Some?
    ensures KubeInv(Step(mode, c, op).value)
    ensures Highly(mode) ==> RegistryInv(mode, Step(mode, c, op).value)
  {
    var ms, ns, env := op.masters, op.nodes, op.env;
    var w := c.world;
    var (a, deploy) := if mode.External? then (Outcome(w, true), []) else Reconcile(w, [], Deploy(mode, ms), env);
    var b := InstallOn(mode, a.world, deploy, ms, ns, ns, env);
    JoinBalances(b.world, ns, ms, env, ns);
    if Highly(mode) {
      LaunchRuns(w, ms, env);
      assert {} + Elems(ms) == Elems(ms);
      PushBalances(a.world.reg, ns, env.down(PushRegistry), Endpoints(ms, mode.port), ns);
    }
  }

  lemma ScaleUpLists(had: seq<IP>, more: seq<IP>)
    requires NoDup(had + more)
    ensures Minus(had + more, more) == had
    ensures Added(had, had + more) == more && Minus(had, had + more) == []
  {
    NoDupParts(had, more);
    MinusAppend(had, more, more);
    MinusNone(had, more);
    MinusAll(more, more);
    NoDupDiff(had, had + more);
    MinusAppend(had, more, had);
    MinusAll(had, had);
    MinusNone(more, had);
    MinusAll(had, had + more);
  }

  /** After a scale-up the registry hosts are the masters, listed in the same order. */
  lemma ScaleUpDeploy(w: World, had: seq<IP>, more: seq<IP>, env: Env)
    requires had != [] && NoDup(had + more) && w.running == Elems(had)
    ensures var (o, deploy) := Reconcile(w, Minus(had + more, more), had + more, env);
            deploy == had + more && (o.ok ==> o.world == w.(running := Elems(had + more)))
  {
    ScaleUpLists(had, more);
    LaunchRuns(w, more, env);
    assert Elems(had + more) == Elems(had) + Elems(more);
    if more == [] {
      assert had + more == had;
    }
  }

  /** The configurator leaves the API server tables alone; with high availability it pushes the registry. */
  lemma InstallOnFrame(mode: Registry, w: World, deploy: seq<IP>, masters: seq<IP>, nodes: seq<IP>,
                       allNodes: seq<IP>, env: Env, watched: seq<IP>)
    requires InstallOn(mode, w, deploy, masters, nodes, allNodes, env).ok
    ensures var r := InstallOn(mode, w, deploy, masters, nodes, allNodes, env).world;
            && r.kube == w.kube && r.running == w.running
            && (Highly(mode) && (forall n :: n in watched ==>
                  n in (if masters == [] then nodes else allNodes)
                    || (n in w.reg && w.reg[n] == Endpoints(deploy, mode.port)))
                ==> Balanced(r.reg, watched, Endpoints(deploy, mode.port)))
  {
    if Highly(mode) {
      var clients := if masters == [] then nodes else allNodes;
      var rs := Endpoints(deploy, mode.port);
      if forall n :: n in watched ==> n in clients || (n in w.reg && w.reg[n] == rs) {
        PushBalances(w.reg, clients, env.down(PushRegistry), rs, watched);
      }
    }
  }

  lemma KubeScaleUpBalances(w: World, masters: seq<IP>, nodes: seq<IP>, nm: seq<IP>, nn: seq<IP>, env: Env)
    requires KubeScaleUp(w, masters, nodes, nm, nn, env).ok
    requires nm == [] ==> Balanced(w.kube, Minus(nodes, nn), Endpoints(masters, KUBE_PORT))
    ensures var r := KubeScaleUp(w, masters, nodes, nm, nn, env).world;
            Balanced(r.kube, nodes, Endpoints(masters, KUBE_PORT)) && r.reg == w.reg && r.running == w.running
  {
    var rs := Endpoints(masters, KUBE_PORT);
    MinusIn(nodes, nn);
    var d := if nm == [] then Outcome(w, true) else KubeLvs(w, masters, Minus(nodes, nn), env.down(PushKube(Once)));
    if nm != [] {
      PushBalances(w.kube, Minus(nodes, nn), env.down(PushKube(Once)), rs, Minus(nodes, nn));
    }
    JoinBalances(d.world, nn, masters, env, nodes);
  }

  lemma ScaleUpParts(mode: Registry, w: World, masters: seq<IP>, nodes: seq<IP>, nm: seq<IP>, nn: seq<IP>, env: Env)
    returns (a: Outcome, deploy: seq<IP>, b: Outcome)
    requires masters != [] && Membership.ScaleUp(mode, w, masters, nodes, nm, nn, env).ok
    ensures Highly(mode) ==> (a, deploy) == Reconcile(w, Minus(masters, nm), masters, env)
    ensures a.ok && a.world.kube == w.kube && b == InstallOn(mode, a.world, deploy, nm, nn, nodes, env) && b.ok
    ensures var k := KubeScaleUp(b.world, masters, nodes, nm, nn, env);
            k.ok && Membership.ScaleUp(mode, w, masters, nodes, nm, nn, env).world == k.world
  {
    if Highly(mode) {
      var r := Reconcile(w, Minus(masters, nm), masters, env);
      a, deploy := r.0, r.1;
    } else {
      a, deploy := Outcome(w, true), [masters[0]];
    }
    b := InstallOn(mode, a.world, deploy, nm, nn, nodes, env);
  }

  lemma ScaleUpKeeps(mode: Registry, c: Cluster, op: Op)
    requires KubeInv(c) && op.ScaleUp? && Step(mode, c, op).Some?
    ensures KubeInv(Step(mode, c, op).value)
    ensures Highly(mode) && RegistryInv(mode, c) ==> RegistryInv(mode, Step(mode, c, op).value)
  {
    var nm, nn, env, w := op.masters, op.nodes, op.env, c.world;
    var masters, nodes := c.masters + nm, c.nodes + nn;
    var a, deploy, b := ScaleUpParts(mode, w, masters, nodes, nm, nn, env);
    InstallOnFrame(mode, a.world, deploy, nm, nn, nodes, env, nodes);
    NoDupParts(masters, nodes);
    MinusIn(nodes, nn);
    if nm == [] {
      assert masters == c.masters;
    }
    KubeScaleUpBalances(b.world, masters, nodes, nm, nn, env);
    if Highly(mode) && RegistryInv(mode, c) {
      ScaleUpDeploy(w, c.masters, nm, env);
    }
  }

  // ---------------------------------------------------------------- scale-down

  /** The masters to delete that do not answer the SSH check of a scale-down. */
  function LostMasters(op: Op): seq<IP>
  {
    Unreachable(op.masters, op.env.down(CheckMasters))
  }

  function UpMasters(op: Op): seq<IP>
  {
    Minus(op.masters, LostMasters(op))
  }

  /** Some of the masters to delete answer the check and some do not. */
  predicate Mixed(op: Op)
  {
    UpMasters(op) != [] && LostMasters(op) != []
  }

  lemma AnsweredOrLost(op: Op)
    ensures forall x :: x in LostMasters(op) ==> x in op.masters
    ensures forall x :: x in op.masters ==> x in UpMasters(op) || x in LostMasters(op)
    ensures LostMasters(op) == [] ==> UpMasters(op) == op.masters
  {
    UnreachableIn(op.masters, op.env.down(CheckMasters));
    MinusIn(op.masters, LostMasters(op));
    if LostMasters(op) == [] {
      MinusNone(op.masters, LostMasters(op));
    }
  }

  lemma KubeScaleDownFrame(call: Call, w: World, masters: seq<IP>, nodes: seq<IP>, gm: seq<IP>, gn: seq<IP>,
                           env: Env, watched: seq<IP>)
    requires KubeScaleDown(call, w, masters, nodes, gm, gn, env).ok
    requires forall n :: n in watched ==> n in nodes && n !in gn
    ensures var r := KubeScaleDown(call, w, masters, nodes, gm, gn, env).world;
            && r.reg == w.reg && r.running == w.running && Minus(masters, gm) != []
            && (gm == [] ==> r == w)
            && (gm != [] ==> Balanced(r.kube, watched, Endpoints(Minus(masters, gm), KUBE_PORT)))
  {
    if gm != [] {
      MinusIn(nodes, gn);
      PushBalances(w.kube, Minus(nodes, gn), env.down(PushKube(call)), Endpoints(Minus(masters, gm), KUBE_PORT),
        watched);
    }
  }

  lemma ShapeAfterRemoval(c: Cluster, gm: seq<IP>, gn: seq<IP>)
    requires Shape(c)
    ensures NoDup(Minus(c.masters, gm) + Minus(c.nodes, gn))
  {
    NoDupParts(c.masters, c.nodes);
    MinusNoDup(c.masters, gm);
    MinusNoDup(c.nodes, gn);
    MinusIn(c.masters, gm);
    MinusIn(c.nodes, gn);
    NoDupJoin(Minus(c.masters, gm), Minus(c.nodes, gn));
  }

  lemma UninstallFrame(mode: Registry, w: World, deploy: seq<IP>, masters: seq<IP>, nodes: seq<IP>,
                       allNodes: seq<IP>, env: Env, watched: seq<IP>)
    requires UninstallFrom(mode, w, deploy, masters, nodes, allNodes, env).ok
    requires forall n :: n in watched ==> n in allNodes && n !in nodes
    ensures var r := UninstallFrom(mode, w, deploy, masters, nodes, allNodes, env).world;
            && r.kube == w.kube && r.running == w.running && (masters == [] || deploy == [] ==> r == w)
            && (Highly(mode) && masters != [] && deploy != [] ==>
              Balanced(r.reg, watched, Endpoints(deploy, mode.port)))
  {
    if Highly(mode) && masters != [] && deploy != [] {
      MinusIn(allNodes, nodes);
      PushBalances(w.reg, Minus(allNodes, nodes), env.down(PushRegistry), Endpoints(deploy, mode.port), watched);
    }
  }

  lemma RemoveTargetsParts(mode: Registry, w: World, deploy: seq<IP>, masters: seq<IP>, nodes: seq<IP>,
                           op: Op) returns (b: Outcome, d: Outcome)
    requires RemoveTargets(mode, w, deploy, masters, nodes, op.masters, op.nodes, op.env).ok
    ensures b == KubeScaleDown(Once, w, masters, nodes, UpMasters(op), UpNodes(op), op.env) && b.ok
    ensures d == UninstallFrom(mode, b.world, deploy, UpMasters(op), UpNodes(op), nodes, op.env) && d.ok
    ensures var last := KubeScaleDown(Again, d.world, masters, nodes, LostMasters(op), LostNodes(op), op.env);
            last.ok && RemoveTargets(mode, w, deploy, masters, nodes, op.masters, op.nodes, op.env).world == last.world
  {
    b := KubeScaleDown(Once, w, masters, nodes, UpMasters(op), UpNodes(op), op.env);
    d := UninstallFrom(mode, b.world, deploy, UpMasters(op), UpNodes(op), nodes, op.env);
  }

  lemma RedeployFrame(mode: Registry, w: World, masters: seq<IP>, gone: seq<IP>, env: Env)
    requires masters != []
    ensures var (a, deploy) := Redeploy(mode, w, masters, gone, env); a.world.kube == w.kube && a.world.reg == w.reg
  {
  }

  /** A successful scale-down, cut into its calls. */
  lemma ScaleDownParts(mode: Registry, w: World, masters: seq<IP>, nodes: seq<IP>, op: Op)
    returns (a: Outcome, deploy: seq<IP>, b: Outcome, d: Outcome)
    requires masters != [] && Membership.ScaleDown(mode, w, masters, nodes, op.masters, op.nodes, op.env).ok
    ensures (a, deploy) == Redeploy(mode, w, masters, op.masters, op.env)
    ensures a.ok && a.world.kube == w.kube && a.world.reg == w.reg
    ensures b == KubeScaleDown(Once, a.world, masters, nodes, UpMasters(op), UpNodes(op), op.env) && b.ok
    ensures d == UninstallFrom(mode, b.world, deploy, UpMasters(op), UpNodes(op), nodes, op.env) && d.ok
    ensures var last := KubeScaleDown(Again, d.world, masters, nodes, LostMasters(op), LostNodes(op), op.env);
            last.ok && Membership.ScaleDown(mode, w, masters, nodes, op.masters, op.nodes, op.env).world == last.world
  {
    var r := Redeploy(mode, w, masters, op.masters, op.env);
    a, deploy := r.0, r.1;
    RedeployFrame(mode, w, masters, op.masters, op.env);
    b, d := RemoveTargetsParts(mode, a.world, deploy, masters, nodes, op);
  }

  function LostNodes(op: Op): seq<IP>
  {
    Unreachable(op.nodes, op.env.down(CheckNodes))
  }

  function UpNodes(op: Op): seq<IP>
  {
    Minus(op.nodes, LostNodes(op))
  }

  lemma RemainingNodes(nodes: seq<IP>, op: Op)
    ensures forall n :: n in Minus(nodes, op.nodes) ==> n in nodes && n !in LostNodes(op) && n !in UpNodes(op)
  {
    MinusIn(nodes, op.nodes);
    UnreachableIn(op.nodes, op.env.down(CheckNodes));
    MinusIn(op.nodes, LostNodes(op));
  }

  /** The tables after a scale-down: those of the last of the two runtime calls that touched them. */
  lemma ScaleDownTables(mode: Registry, c: Cluster, op: Op)
    requires KubeInv(c) && op.ScaleDown? && Step(mode, c, op).Some?
    ensures var c' := Step(mode, c, op).value;
            var last := if LostMasters(op) != [] then LostMasters(op) else op.masters;
            && Balanced(c'.world.kube, c'.nodes, Endpoints(Minus(c.masters, last), KUBE_PORT))
            && Minus(c.masters, last) != []
  {
    var env, left := op.env, Minus(c.nodes, op.nodes);
    var a, deploy, b, d := ScaleDownParts(mode, c.world, c.masters, c.nodes, op);
    RemainingNodes(c.nodes, op);
    KubeScaleDownFrame(Once, a.world, c.masters, c.nodes, UpMasters(op), UpNodes(op), env, left);
    UninstallFrame(mode, b.world, deploy, UpMasters(op), UpNodes(op), c.nodes, env, left);
    KubeScaleDownFrame(Again, d.world, c.masters, c.nodes, LostMasters(op), LostNodes(op), env, left);
    AnsweredOrLost(op);
    if op.masters == [] {
      MinusNone(c.masters, op.masters);
    }
  }

  /** The load-balancer tables of the remaining workers name exactly the remaining masters if and only if
      the masters to delete were not partly reachable: the second call works on the original list. */
  lemma ScaleDownExactly(mode: Registry, c: Cluster, op: Op, n: IP)
    requires KubeInv(c) && op.ScaleDown? && Step(mode, c, op).Some? && n in Step(mode, c, op).value.nodes
    ensures var c' := Step(mode, c, op).value;
            n in c'.world.kube && (c'.world.kube[n] == Endpoints(c'.masters, KUBE_PORT) <==> !Mixed(op))
  {
    var c' := Step(mode, c, op).value;
    ScaleDownTables(mode, c, op);
    var lost, up := LostMasters(op), UpMasters(op);
    AnsweredOrLost(op);
    MinusIn(op.masters, lost);
    if Mixed(op) {
      var m := up[0];
      assert m in up;
      MinusShorter(c.masters, lost, op.masters, m);
      SortLength(Minus(c.masters, lost));
      SortLength(c'.masters);
      assert |c'.world.kube[n]| == |Minus(c.masters, lost)|;
    } else if lost != [] {
      assert forall x :: x in op.masters <==> x in lost;
      MinusCong(c.masters, op.masters, lost);
    }
  }

  lemma ScaleDownKeepsKube(mode: Registry, c: Cluster, op: Op)
    requires KubeInv(c) && op.ScaleDown? && !Mixed(op) && Step(mode, c, op).Some?
    ensures KubeInv(Step(mode, c, op).value)
  {
    var c' := Step(mode, c, op).value;
    ScaleDownTables(mode, c, op);
    ShapeAfterRemoval(c, op.masters, op.nodes);
    var lost := LostMasters(op);
    AnsweredOrLost(op);
    if lost != [] {
      assert forall x :: x in op.masters <==> x in lost;
      MinusCong(c.masters, op.masters, lost);
    }
    forall n | n in c'.nodes ensures n in c'.world.kube && c'.world.kube[n] == Endpoints(c'.masters, KUBE_PORT) {
      ScaleDownExactly(mode, c, op, n);
    }
  }

  lemma ScaleDownLists(masters: seq<IP>, gone: seq<IP>)
    requires NoDup(masters) && forall x :: x in gone ==> x in masters
    ensures var remain := Minus(masters, gone);
            var deleted := Minus(masters, remain);
            && Added(masters, remain) == [] && Minus(masters, deleted) == remain
            && (deleted == [] ==> remain == masters) && forall x :: x in gone ==> x in deleted
  {
    var remain := Minus(masters, gone);
    var deleted := Minus(masters, remain);
    MinusIn(masters, gone);
    MinusIn(masters, remain);
    MinusNoDup(masters, gone);
    NoDupDiff(masters, remain);
    MinusAll(remain, masters);
    MinusCong(masters, deleted, gone);
    if deleted == [] {
      MinusNone(masters, deleted);
    }
  }

  /** With a highly available local registry the first step stops the registry on every master that goes. */
  lemma ScaleDownReconciles(mode: Registry, c: Cluster, op: Op)
    requires Highly(mode) && Shape(c) && c.world.running == Elems(c.masters) && op.ScaleDown? && Step(mode, c, op).Some?
    ensures var (o, deploy) := Reconcile(c.world, c.masters, Minus(c.masters, op.masters), op.env);
            deploy == Minus(c.masters, op.masters) && o.world == c.world.(running := Elems(deploy))
  {
    NoDupParts(c.masters, c.nodes);
    var a, deploy, b, d := ScaleDownParts(mode, c.world, c.masters, c.nodes, op);
    ReconcileShrinks(c.world, c.masters, op.masters, op.env);
  }

  /** A successful reconcile from a list to what remains of it. */
  lemma ReconcileShrinks(w: World, masters: seq<IP>, gone: seq<IP>, env: Env)
    requires masters != [] && NoDup(masters) && (forall x :: x in gone ==> x in masters) && w.running == Elems(masters)
    ensures var (o, deploy) := Reconcile(w, masters, Minus(masters, gone), env);
            o.ok ==> deploy == Minus(masters, gone) && o.world == w.(running := Elems(deploy))
  {
    var remain := Minus(masters, gone);
    var deleted := Minus(masters, remain);
    ScaleDownLists(masters, gone);
    LaunchRuns(w, deleted, env);
    MinusElems(masters, deleted);
  }

  lemma Stale(masters: seq<IP>, gone: seq<IP>, port: string)
    requires gone != [] && forall x :: x in gone ==> x in masters
    ensures Endpoints(masters, port) != Endpoints(Minus(masters, gone), port)
  {
    assert gone[0] in gone;
    MinusNothing(masters);
    MinusShorter(masters, [], gone, gone[0]);
    SortLength(masters);
    SortLength(Minus(masters, gone));
  }

  /** The configurator pushes the registry tables only in the first call, and only when a master answered and
      one remains. */
  predicate RegistryPushed(c: Cluster, op: Op)
  {
    op.masters == [] || (UpMasters(op) != [] && Minus(c.masters, op.masters) != [])
  }

  /** What a successful scale-down leaves in the registry tables of the remaining workers: the remaining masters if
      a push was made, the old masters otherwise. */
  lemma ScaleDownRegistryTables(mode: Registry, c: Cluster, op: Op)
    requires Highly(mode) && Shape(c) && RegistryInv(mode, c) && op.ScaleDown? && Step(mode, c, op).Some?
    ensures var c' := Step(mode, c, op).value;
            && c'.world.running == Elems(c'.masters)
            && Balanced(c'.world.reg, c'.nodes,
              Endpoints(if RegistryPushed(c, op) then c'.masters else c.masters, mode.port))
  {
    var env, left := op.env, Minus(c.nodes, op.nodes);
    ScaleDownReconciles(mode, c, op);
    var a, deploy, b, d := ScaleDownParts(mode, c.world, c.masters, c.nodes, op);
    RemainingNodes(c.nodes, op);
    KubeScaleDownFrame(Once, a.world, c.masters, c.nodes, UpMasters(op), UpNodes(op), env, left);
    UninstallFrame(mode, b.world, deploy, UpMasters(op), UpNodes(op), c.nodes, env, left);
    KubeScaleDownFrame(Again, d.world, c.masters, c.nodes, LostMasters(op), LostNodes(op), env, left);
    if op.masters == [] {
      MinusNone(c.masters, op.masters);
      AnsweredOrLost(op);
      MinusIn(op.masters, LostMasters(op));
    }
  }

  /** The registry tables of the remaining workers name exactly the remaining masters if and only if no master was
      deleted, or one of those answered the check and one remains. */
  lemma ScaleDownRegistryExactly(mode: Registry, c: Cluster, op: Op, n: IP)
    requires Highly(mode) && Shape(c) && RegistryInv(mode, c) && op.ScaleDown? && Step(mode, c, op).Some?
    requires n in Step(mode, c, op).value.nodes
    ensures var c' := Step(mode, c, op).value;
            n in c'.world.reg && (c'.world.reg[n] == Endpoints(c'.masters, mode.port) <==> RegistryPushed(c, op))
  {
    ScaleDownRegistryTables(mode, c, op);
    if !RegistryPushed(c, op) {
      Stale(c.masters, op.masters, mode.port);
    }
  }

  /** With a highly available local registry and a remaining worker, both kinds of tables are right after a
      successful scale-down if and only if every master to delete answered the SSH check. */
  lemma HighlyAvailableExactly(mode: Registry, c: Cluster, op: Op)
    requires Highly(mode) && KubeInv(c) && RegistryInv(mode, c) && op.ScaleDown? && Step(mode, c, op).Some?
    requires Step(mode, c, op).value.nodes != []
    ensures KubeInv(Step(mode, c, op).value) && RegistryInv(mode, Step(mode, c, op).value) <==> LostMasters(op) == []
  {
    var c' := Step(mode, c, op).value;
    var n := c'.nodes[0];
    ScaleDownExactly(mode, c, op, n);
    ScaleDownRegistryExactly(mode, c, op, n);
    AnsweredOrLost(op);
    if LostMasters(op) == [] {
      AnsweringKeeps(mode, c, op);
    } else {
      assert LostMasters(op)[0] in LostMasters(op);
    }
  }

  lemma AnsweringKeeps(mode: Registry, c: Cluster, op: Op)
    requires Highly(mode) && KubeInv(c) && RegistryInv(mode, c) && op.ScaleDown? && Step(mode, c, op).Some?
             && LostMasters(op) == []
    ensures KubeInv(Step(mode, c, op).value) && RegistryInv(mode, Step(mode, c, op).value)
  {
    AnsweredOrLost(op);
    ScaleDownKeepsKube(mode, c, op);
    ScaleDownRegistryTables(mode, c, op);
  }

  // ---------------------------------------------------------------- all runs

  ghost predicate NeverMixed(ops: seq<Op>)
  {
    forall i :: 0 <= i < |ops| && ops[i].ScaleDown? ==> !Mixed(ops[i])
  }

  /** In every registry mode: after any sequence of successful operations none of which deletes partly
      reachable masters, a master remains and every worker balances over exactly the current masters. */
  lemma {:induction false} KubeTablesTrackMasters(mode: Registry, ops: seq<Op>, c: Cluster)
    requires Run(mode, ops) == Some(c) && ops != [] && NeverMixed(ops)
    ensures KubeInv(c)
    decreases |ops|
  {
    var before, op := ops[..|ops| - 1], ops[|ops| - 1];
    var m := Run(mode, before).value;
    if before == [] {
      assert m == NOTHING;
      InstallKeeps(mode, m, op);
    } else {
      KubeTablesTrackMasters(mode, before, m);
      match op {
        case Install(_, _, _) => assert false;
        case ScaleUp(_, _, _) => ScaleUpKeeps(mode, m, op);
        case ScaleDown(_, _, _) => ScaleDownKeepsKube(mode, m, op);
      }
    }
  }

  /** Every master to delete answers the SSH check of its scale-down. */
  ghost predicate AllAnswer(ops: seq<Op>)
  {
    forall i :: 0 <= i < |ops| && ops[i].ScaleDown? ==> LostMasters(ops[i]) == []
  }

  /** With a highly available local registry: after any sequence of successful operations in which the masters to
      delete answer, both tables of every worker and the hosts that run the registry follow the masters. */
  lemma {:induction false} AllTablesTrackMasters(mode: Registry, ops: seq<Op>, c: Cluster)
    requires Highly(mode) && Run(mode, ops) == Some(c) && ops != [] && AllAnswer(ops)
    ensures KubeInv(c) && RegistryInv(mode, c)
    decreases |ops|
  {
    var before, op := ops[..|ops| - 1], ops[|ops| - 1];
    var m := Run(mode, before).value;
    if before == [] {
      assert m == NOTHING;
      InstallKeeps(mode, m, op);
    } else {
      AllTablesTrackMasters(mode, before, m);
      match op {
        case Install(_, _, _) => assert false;
        case ScaleUp(_, _, _) => ScaleUpKeeps(mode, m, op);
        case ScaleDown(_, _, _) => AnsweringKeeps(mode, m, op);
      }
    }
  }

  // ---------------------------------------------------------------- runs in which the tables go wrong

  /** Every step works and every host answers, except that the hosts in `lost` miss the SSH check of the masters
      to delete. */
  function Missing(lost: set<IP>): Env
  {
    Env(cmd => if cmd == CheckMasters then lost else {}, _ => true)
  }

  lemma {:induction false} EverybodyAnswers(hosts: seq<IP>)
    ensures AllUp(hosts, {})
  {
  }

  lemma InstallSucceeds(mode: Registry, masters: seq<IP>, nodes: seq<IP>) returns (c: Cluster)
    requires masters != [] && NoDup(masters + nodes)
    ensures Run(mode, [Install(masters, nodes, Missing({}))]) == Some(c) && c.masters == masters && c.nodes == nodes
    ensures KubeInv(c) && (Highly(mode) ==> RegistryInv(mode, c))
  {
    var op, env := Install(masters, nodes, Missing({})), Missing({});
    EverybodyAnswers(masters);
    EverybodyAnswers(nodes);
    EverybodyAnswers(masters + nodes);
    EverybodyAnswers(Deploy(mode, masters));
    var (a, deploy) := if mode.External? then (Outcome(NOTHING.world, true), [])
      else Reconcile(NOTHING.world, [], Deploy(mode, masters), env);
    var b := InstallOn(mode, a.world, deploy, masters, nodes, nodes, env);
    assert a.ok && b.ok;
    assert [op][..0] == [];
    assert Step(mode, NOTHING, op).Some?;
    c := Step(mode, NOTHING, op).value;
    InstallKeeps(mode, NOTHING, op);
  }

  lemma ReconcileSucceeds(w: World, current: seq<IP>, desired: seq<IP>, lost: set<IP>)
    ensures Reconcile(w, current, desired, Missing(lost)).0.ok
  {
    EverybodyAnswers(desired);
    EverybodyAnswers(Added(current, desired));
    EverybodyAnswers(Minus(current, desired));
  }

  lemma KubeScaleDownSucceeds(call: Call, w: World, masters: seq<IP>, nodes: seq<IP>, gone: seq<IP>, lost: set<IP>)
    requires Minus(masters, gone) != []
    ensures KubeScaleDown(call, w, masters, nodes, gone, [], Missing(lost)).ok
  {
    EverybodyAnswers(Minus(nodes, []));
  }

  lemma UninstallSucceeds(mode: Registry, w: World, deploy: seq<IP>, masters: seq<IP>, allNodes: seq<IP>, lost: set<IP>)
    ensures UninstallFrom(mode, w, deploy, masters, [], allNodes, Missing(lost)).ok
  {
    EverybodyAnswers(masters + []);
    EverybodyAnswers(Minus(allNodes, []));
  }

  lemma RemoveTargetsSucceeds(mode: Registry, w: World, deploy: seq<IP>, masters: seq<IP>, nodes: seq<IP>,
                              gone: seq<IP>, lost: set<IP>)
    requires Minus(masters, UpMasters(Deletion(gone, lost))) != []
             && Minus(masters, LostMasters(Deletion(gone, lost))) != []
    ensures RemoveTargets(mode, w, deploy, masters, nodes, gone, [], Missing(lost)).ok
  {
    var op, env := Deletion(gone, lost), Missing(lost);
    KubeScaleDownSucceeds(Once, w, masters, nodes, UpMasters(op), lost);
    var b := KubeScaleDown(Once, w, masters, nodes, UpMasters(op), [], env);
    UninstallSucceeds(mode, b.world, deploy, UpMasters(op), nodes, lost);
    var d := UninstallFrom(mode, b.world, deploy, UpMasters(op), [], nodes, env);
    KubeScaleDownSucceeds(Again, d.world, masters, nodes, LostMasters(op), lost);
  }

  /** With nothing else failing a scale-down succeeds, however the targets split at the check, when each of the
      two runtime calls leaves a master. */
  lemma ScaleDownSucceeds(mode: Registry, w: World, masters: seq<IP>, nodes: seq<IP>, gone: seq<IP>, lost: set<IP>)
    requires masters != []
    requires Minus(masters, UpMasters(Deletion(gone, lost))) != []
             && Minus(masters, LostMasters(Deletion(gone, lost))) != []
    ensures Membership.ScaleDown(mode, w, masters, nodes, gone, [], Missing(lost)).ok
  {
    var env := Missing(lost);
    EverybodyAnswers(Minus(nodes, []));
    ReconcileSucceeds(w, masters, Minus(masters, gone), lost);
    var (a, deploy) := Redeploy(mode, w, masters, gone, env);
    RemoveTargetsSucceeds(mode, a.world, deploy, masters, nodes, gone, lost);
  }

  /** Masters in `gone` are deleted; those of them in `lost` miss the SSH check. */
  function Deletion(gone: seq<IP>, lost: set<IP>): Op
  {
    ScaleDown(gone, [], Missing(lost))
  }

  /** Each of the two runtime calls leaves a master, and the first master stays where it alone runs the registry. */
  ghost predicate Deletable(mode: Registry, masters: seq<IP>, gone: seq<IP>, lost: set<IP>)
  {
    && masters != [] && (forall x :: x in gone ==> x in masters)
    && (mode.Local? && !mode.ha ==> masters[0] !in gone)
    && Minus(masters, UpMasters(Deletion(gone, lost))) != [] && Minus(masters, LostMasters(Deletion(gone, lost))) != []
  }

  lemma StepTaken(mode: Registry, c: Cluster, op: Op)
    requires op.ScaleDown? && Allowed(mode, c, op)
    requires Membership.ScaleDown(mode, c.world, c.masters, c.nodes, op.masters, op.nodes, op.env).ok
    ensures Step(mode, c, op).Some?
    ensures Step(mode, c, op).value.masters == Minus(c.masters, op.masters)
            && Step(mode, c, op).value.nodes == Minus(c.nodes, op.nodes)
  {
  }

  lemma DeletionSteps(mode: Registry, c: Cluster, gone: seq<IP>, lost: set<IP>)
    requires Deletable(mode, c.masters, gone, lost)
    ensures Step(mode, c, Deletion(gone, lost)).Some?
    ensures Step(mode, c, Deletion(gone, lost)).value.masters == Minus(c.masters, gone)
    ensures Step(mode, c, Deletion(gone, lost)).value.nodes == c.nodes
  {
    ScaleDownSucceeds(mode, c.world, c.masters, c.nodes, gone, lost);
    MinusNothing(c.nodes);
    StepTaken(mode, c, Deletion(gone, lost));
  }

  /** A cluster is installed and then such a deletion is run: it succeeds. */
  lemma DeletionRuns(mode: Registry, masters: seq<IP>, n: IP, gone: seq<IP>, lost: set<IP>) returns (ops: seq<Op>,
                     c: Cluster)
    requires NoDup(masters + [n]) && Deletable(mode, masters, gone, lost)
    ensures KubeInv(c) && (Highly(mode) ==> RegistryInv(mode, c)) && c.masters == masters && c.nodes == [n]
    ensures Run(mode, ops) == Step(mode, c, Deletion(gone, lost))
  {
    var install := Install(masters, [n], Missing({}));
    c := InstallSucceeds(mode, masters, [n]);
    ops := [install, Deletion(gone, lost)];
    assert ops[..1] == [install];
  }

  /** A deletion of partly answering masters leaves the worker balancing over a deleted one. */
  lemma MixedDeletionFails(mode: Registry, masters: seq<IP>, n: IP, gone: seq<IP>, lost: set<IP>)
    returns (ops: seq<Op>, r: Cluster)
    requires NoDup(masters + [n]) && Deletable(mode, masters, gone, lost) && Mixed(Deletion(gone, lost))
    ensures Run(mode, ops) == Some(r) && r.masters == Minus(masters, gone) && r.nodes == [n] && n in r.world.kube
    ensures r.world.kube[n] == Endpoints(Minus(masters, LostMasters(Deletion(gone, lost))), KUBE_PORT)
    ensures r.world.kube[n] != Endpoints(r.masters, KUBE_PORT)
  {
    var c;
    ops, c := DeletionRuns(mode, masters, n, gone, lost);
    DeletionSteps(mode, c, gone, lost);
    r := Step(mode, c, Deletion(gone, lost)).value;
    ScaleDownTables(mode, c, Deletion(gone, lost));
    assert n in [n];
    ScaleDownExactly(mode, c, Deletion(gone, lost), n);
  }

  /** A deletion of masters none of which answers leaves the registry tables stale. */
  lemma SilentDeletionFails(mode: Registry, masters: seq<IP>, n: IP, gone: seq<IP>, lost: set<IP>)
    returns (ops: seq<Op>, r: Cluster)
    requires Highly(mode) && NoDup(masters + [n]) && Deletable(mode, masters, gone, lost)
    requires gone != [] && UpMasters(Deletion(gone, lost)) == []
    ensures Run(mode, ops) == Some(r) && KubeInv(r) && r.masters == Minus(masters, gone)
            && r.world.running == Elems(r.masters)
    ensures n in r.world.reg && r.world.reg[n] == Endpoints(masters, mode.port)
            && r.world.reg[n] != Endpoints(r.masters, mode.port)
  {
    var c;
    ops, c := DeletionRuns(mode, masters, n, gone, lost);
    DeletionSteps(mode, c, gone, lost);
    r := Step(mode, c, Deletion(gone, lost)).value;
    assert n in [n];
    ScaleDownKeepsKube(mode, c, Deletion(gone, lost));
    ScaleDownRegistryTables(mode, c, Deletion(gone, lost));
    ScaleDownRegistryExactly(mode, c, Deletion(gone, lost), n);
  }

  lemma MinusTwo(x: IP, y: IP, b: seq<IP>)
    ensures Minus([x, y], b) == (if x in b then [] else [x]) + (if y in b then [] else [y])
  {
    MinusSingle(x, b);
    assert [x, y][..1] == [x];
  }

  lemma MinusThree(x: IP, y: IP, z: IP, b: seq<IP>)
    ensures Minus([x, y, z], b) ==
            (if x in b then [] else [x]) + (if y in b then [] else [y]) + (if z in b then [] else [z])
  {
    MinusTwo(x, y, b);
    assert [x, y, z][..2] == [x, y];
  }

  /** How two targets split when the second one misses the check. */
  lemma SecondMisses(x: IP, y: IP)
    requires x != y
    ensures LostMasters(Deletion([x, y], {y})) == [y] && UpMasters(Deletion([x, y], {y})) == [x]
  {
    assert [x, y][..1] == [x] && [x][..0] == [];
    assert Unreachable([x], {y}) == [];
    MinusTwo(x, y, [y]);
  }

  lemma OnlyMisses(x: IP)
    ensures LostMasters(Deletion([x], {x})) == [x] && UpMasters(Deletion([x], {x})) == []
  {
    assert [x][..0] == [];
    assert Unreachable([], {x}) == [];
    MinusSingle(x, [x]);
  }

  lemma Distinct(a: IP, b: IP, c: IP)
    requires NoDup([a, b, c])
    ensures a != b && a != c && b != c
  {
    var s := [a, b, c];
    assert s[0] != s[1] && s[0] != s[2] && s[1] != s[2];
  }

  lemma ThreeLists(a: IP, b: IP, c: IP)
    requires a != b && a != c && b != c
    ensures Minus([a, b, c], [b]) == [a, c] && Minus([a, b, c], [c]) == [a, b] && Minus([a, b, c], [b, c]) == [a]
  {
    MinusThree(a, b, c, [b]);
    MinusThree(a, b, c, [c]);
    MinusThree(a, b, c, [b, c]);
  }

  /** Masters a, b and c; b and c are deleted and c misses the check, having answered every other command.  Both
      runtime calls succeed, in every registry mode, and the worker is left balancing over a and b. */
  lemma MixedDeletionLeavesDeletedMaster(mode: Registry, a: IP, b: IP, c: IP, n: IP) returns (ops: seq<Op>, r: Cluster)
    requires NoDup([a, b, c] + [n])
    ensures Run(mode, ops) == Some(r) && r.masters == [a] && r.nodes == [n]
    ensures n in r.world.kube && r.world.kube[n] == Endpoints([a, b], KUBE_PORT)
            && r.world.kube[n] != Endpoints([a], KUBE_PORT)
  {
    NoDupParts([a, b, c], [n]);
    Distinct(a, b, c);
    SecondMisses(b, c);
    ThreeLists(a, b, c);
    ops, r := MixedDeletionFails(mode, [a, b, c], n, [b, c], {c});
  }

  /** Masters a and c; c is deleted and misses the check: the API server tables are right, but the registry tables
      still name c, where no registry runs any more. */
  lemma SilentDeletionLeavesRegistryStale(mode: Registry, a: IP, c: IP, n: IP) returns (ops: seq<Op>, r: Cluster)
    requires Highly(mode) && a != c && NoDup([a, c] + [n])
    ensures Run(mode, ops) == Some(r) && KubeInv(r) && r.masters == [a] && r.world.running == Elems([a])
    ensures n in r.world.reg && r.world.reg[n] == Endpoints([a, c], mode.port)
            && r.world.reg[n] != Endpoints([a], mode.port)
  {
    OnlyMisses(c);
    MinusTwo(a, c, []);
    MinusTwo(a, c, [c]);
    ops, r := SilentDeletionFails(mode, [a, c], n, [c], {c});
  }

  /** Masters a and b, both deleted, of which b misses the check: each runtime call sees the other one remain, both
      succeed, and no master is left. */
  lemma EveryMasterMayGo(mode: Registry, a: IP, b: IP, n: IP) returns (ops: seq<Op>, r: Cluster)
    requires !(mode.Local? && !mode.ha) && a != b && NoDup([a, b] + [n])
    ensures Run(mode, ops) == Some(r) && r.masters == []
  {
    SecondMisses(a, b);
    MinusTwo(a, b, [a]);
    MinusTwo(a, b, [b]);
    MinusTwo(a, b, [a, b]);
    ops, r := MixedDeletionFails(mode, [a, b], n, [a, b], {b});
  }
}
