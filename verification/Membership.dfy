/**
 Install, scale-up and scale-down of a cluster as they change remote hosts: the load-balancer (LVS) tables
 of the workers for the API server and for the registry, and the set of hosts that run the registry.
 Every command of an operation that goes to a list of hosts fails on a set of hosts of its own, so a host may
 answer one command and not the next; every other effect of an operation is an auxiliary step that succeeds or
 fails.
 */
module Membership {
  import opened Text
  import opened Hosts
  import opened Sorting

  datatype Registry = External | Local(ha: bool, port: string)

  type Tables = map<IP, seq<string>>

  /** The remote hosts: the real servers each host balances over, and where the registry runs. */
  datatype World = World(kube: Tables, reg: Tables, running: set<IP>)

  /** A scale-down calls the runtime twice: for the targets that answered and for those that did not. */
  datatype Call = Once | Again

  /** The remote commands of one operation, each issued to a list of hosts. */
  datatype Command =
    | StartRegistry | StopRegistry
    | SetHostsFile | PushRegistry | SetRegistryAlias | RemoveRegistryConfig
    | CheckWorkers | CheckMasters | CheckNodes
    | PushKube(call: Call) | PushJoining

  /** Steps that do not touch the tables: SSH checks of new hosts, rootfs distribution, hooks, kubeadm,
      certificates. */
  datatype Aux =
    | Prepare | Inspect | RegistryData | RegistryConfig
    | JoinMasters | JoinWorkers | DeleteMasters(call: Call) | DeleteWorkers(call: Call)
    | Finish

  /** The hosts on which each command fails, and the steps that work. */
  datatype Env = Env(down: Command -> set<IP>, works: Aux -> bool)

  datatype Outcome = Outcome(world: World, ok: bool)

  // ---------------------------------------------------------------- configureLvs

  function WithPort(hosts: seq<IP>, port: string): seq<string>
  {
    seq(|hosts|, i requires 0 <= i < |hosts| => JoinHostPort(hosts[i], port))
  }

  /** The real servers for these hosts: their addresses sorted, each with the port. */
  function Endpoints(hosts: seq<IP>, port: string): seq<string>
  {
    WithPort(Sort(hosts), port)
  }

  const KUBE_PORT := "6443"

  function Push(t: Tables, clients: seq<IP>, down: set<IP>, rs: seq<string>): Tables
  {
    map n | n in t.Keys + (Elems(clients) - down) :: if n in clients && n !in down then rs else t[n]
  }

  predicate AllUp(hosts: seq<IP>, down: set<IP>)
  {
    forall i :: 0 <= i < |hosts| ==> hosts[i] !in down
  }

  function KubeLvs(w: World, masters: seq<IP>, clients: seq<IP>, down: set<IP>): Outcome
  {
    if masters == [] then Outcome(w, false)
    else Outcome(w.(kube := Push(w.kube, clients, down, Endpoints(masters, KUBE_PORT))), AllUp(clients, down))
  }

  /** Each client gets the table by one command and the registry's alias by a second one. */
  function RegistryLvs(w: World, port: string, hosts: seq<IP>, clients: seq<IP>, env: Env): Outcome
  {
    if hosts == [] then Outcome(w, false)
    else
      var down := env.down(PushRegistry);
      Outcome(w.(reg := Push(w.reg, clients, down, Endpoints(hosts, port))),
        AllUp(clients, down) && AllUp(clients, env.down(SetRegistryAlias)))
  }

  // ---------------------------------------------------------------- the registry installer

  /** Commands run on one host after the other, stopping at the first failure. */
  function Reached(hosts: seq<IP>, down: set<IP>): seq<IP>
  {
    if hosts == [] || hosts[0] in down then [] else [hosts[0]] + Reached(hosts[1..], down)
  }

  /** `install`: launch the registry. */
  function Launch(w: World, hosts: seq<IP>, env: Env): Outcome
  {
    if !env.works(RegistryData) then Outcome(w, false)
    else Outcome(w.(running := w.running + Elems(Reached(hosts, env.down(StartRegistry)))),
      AllUp(hosts, env.down(StartRegistry)))
  }

  /** `clean`: remove the registry. */
  function Clean(w: World, hosts: seq<IP>, env: Env): Outcome
  {
    Outcome(w.(running := w.running - Elems(Reached(hosts, env.down(StopRegistry)))),
      AllUp(hosts, env.down(StopRegistry)))
  }

  /** `Reconcile`, with the deploy hosts it returns. */
  function Reconcile(w: World, current: seq<IP>, desired: seq<IP>, env: Env): (Outcome, seq<IP>)
  {
    var joined, deleted := Added(current, desired), Minus(current, desired);
    if current == [] then (Launch(w, desired, env), desired)
    else if joined == [] && deleted == [] then (Outcome(w, true), current)
    else if joined != [] then (Launch(w, joined, env), current + joined)
    else (Clean(w, deleted, env), Minus(current, deleted))
  }

  // ---------------------------------------------------------------- the registry configurator

  /** `InstallOn` of the configurator; `allNodes` is the node list of the infrastructure driver. */
  function InstallOn(mode: Registry, w: World, deploy: seq<IP>, masters: seq<IP>, nodes: seq<IP>,
                     allNodes: seq<IP>, env: Env): Outcome
  {
    if mode.External? then Outcome(w, env.works(RegistryConfig))
    else if !mode.ha then Outcome(w, AllUp(masters + nodes, env.down(SetHostsFile)) && env.works(RegistryConfig))
    else if !AllUp(masters, env.down(SetHostsFile)) then Outcome(w, false)
    else
      var o := RegistryLvs(w, mode.port, deploy, if masters == [] then nodes else allNodes, env);
      if !o.ok then o else Outcome(o.world, env.works(RegistryConfig))
  }

  /** `UninstallFrom` */
  function UninstallFrom(mode: Registry, w: World, deploy: seq<IP>, masters: seq<IP>, nodes: seq<IP>,
                         allNodes: seq<IP>, env: Env): Outcome
  {
    if mode.External? then Outcome(w, env.works(RegistryConfig))
    else if !AllUp(masters + nodes, env.down(RemoveRegistryConfig)) then Outcome(w, false)
    else if !mode.ha || deploy == [] || masters == [] then Outcome(w, true)
    else RegistryLvs(w, mode.port, deploy, Minus(allNodes, nodes), env)
  }

  // ---------------------------------------------------------------- the kubernetes runtime

  /** `joinNodes` */
  function JoinNodes(w: World, joining: seq<IP>, masters: seq<IP>, env: Env): Outcome
  {
    if joining == [] then Outcome(w, true)
    else
      var o := KubeLvs(w, masters, joining, env.down(PushJoining));
      if !o.ok then o else Outcome(o.world, env.works(JoinWorkers))
  }

  /** `Runtime.Install` */
  function KubeInstall(w: World, masters: seq<IP>, nodes: seq<IP>, env: Env): Outcome
  {
    if !env.works(JoinMasters) then Outcome(w, false) else JoinNodes(w, nodes, masters, env)
  }

  /** `Runtime.ScaleUp`; the driver's lists already hold the new hosts. */
  function KubeScaleUp(w: World, masters: seq<IP>, nodes: seq<IP>, newMasters: seq<IP>, newNodes: seq<IP>,
                       env: Env): Outcome
  {
    if !env.works(JoinMasters) then Outcome(w, false)
    else
      var o := if newMasters == [] then Outcome(w, true)
        else KubeLvs(w, masters, Minus(nodes, newNodes), env.down(PushKube(Once)));
      if !o.ok then o else JoinNodes(o.world, newNodes, masters, env)
  }

  /** `Runtime.ScaleDown`; the driver's lists still hold the hosts to delete. */
  function KubeScaleDown(call: Call, w: World, masters: seq<IP>, nodes: seq<IP>, goneMasters: seq<IP>,
                         goneNodes: seq<IP>, env: Env): Outcome
  {
    var remain := Minus(masters, goneMasters);
    if remain == [] then Outcome(w, false)
    else if goneNodes != [] && !env.works(DeleteWorkers(call)) then Outcome(w, false)
    else if goneMasters == [] then Outcome(w, true)
    else if !env.works(DeleteMasters(call)) then Outcome(w, false)
    else KubeLvs(w, remain, Minus(nodes, goneNodes), env.down(PushKube(call)))
  }

  // ---------------------------------------------------------------- the installer

  function Deploy(mode: Registry, masters: seq<IP>): seq<IP>
    requires masters != []
  {
    if mode.Local? && mode.ha then masters else [masters[0]]
  }

  /** `Installer.Install` */
  function Install(mode: Registry, w: World, masters: seq<IP>, nodes: seq<IP>, env: Env): Outcome
    requires masters != []
  {
    if !env.works(Prepare) then Outcome(w, false)
    else
      var (a, deploy) := if mode.External? then (Outcome(w, true), [])
        else Reconcile(w, [], Deploy(mode, masters), env);
      if !a.ok then a
      else
        var b := InstallOn(mode, a.world, deploy, masters, nodes, nodes, env);
        if !b.ok then b
        else
          var c := KubeInstall(b.world, masters, nodes, env);
          if !c.ok then c else Outcome(c.world, env.works(Finish))
  }

  /** `Installer.ScaleUp` */
  function ScaleUp(mode: Registry, w: World, masters: seq<IP>, nodes: seq<IP>, newMasters: seq<IP>,
                   newNodes: seq<IP>, env: Env): Outcome
    requires masters != []
  {
    if !env.works(Prepare) then Outcome(w, false)
    else
      var (a, deploy) := if mode.Local? && mode.ha then Reconcile(w, Minus(masters, newMasters), masters, env)
                         else (Outcome(w, true), [masters[0]]);
      if !a.ok then a
      else
        var b := InstallOn(mode, a.world, deploy, newMasters, newNodes, nodes, env);
        if !b.ok then b
        else
          var c := KubeScaleUp(b.world, masters, nodes, newMasters, newNodes, env);
          if !c.ok then c else Outcome(c.world, env.works(Finish))
  }

  /** The hosts an SSH check finds unreachable. */
  function Unreachable(hosts: seq<IP>, down: set<IP>): seq<IP>
  {
    if hosts == [] then []
    else
      var n := |hosts| - 1;
      Unreachable(hosts[..n], down) + if hosts[n] in down then [hosts[n]] else []
  }

  /** Where the registry runs during a scale-down; a highly available one is first stopped on the masters that go. */
  function Redeploy(mode: Registry, w: World, masters: seq<IP>, goneMasters: seq<IP>, env: Env): (Outcome, seq<IP>)
    requires masters != []
  {
    if mode.Local? && mode.ha then Reconcile(w, masters, Minus(masters, goneMasters), env)
      else (Outcome(w, true), [masters[0]])
  }

  /** `resetAndScaleDown` */
  function Reset(mode: Registry, w: World, deploy: seq<IP>, masters: seq<IP>, nodes: seq<IP>, goneMasters: seq<IP>,
                 goneNodes: seq<IP>, env: Env): Outcome
  {
    var b := KubeScaleDown(Once, w, masters, nodes, goneMasters, goneNodes, env);
    if !b.ok then b
    else
      var c := UninstallFrom(mode, b.world, deploy, goneMasters, goneNodes, nodes, env);
      if !c.ok then c else Outcome(c.world, env.works(Finish))
  }

  /** The targets that answered are reset, the others only removed, by a second call of the runtime against the
      same lists. */
  function RemoveTargets(mode: Registry, w: World, deploy: seq<IP>, masters: seq<IP>, nodes: seq<IP>,
                         goneMasters: seq<IP>, goneNodes: seq<IP>, env: Env): Outcome
  {
    var lostMasters, lostNodes := Unreachable(goneMasters, env.down(CheckMasters)),
      Unreachable(goneNodes, env.down(CheckNodes));
    var d := Reset(mode, w, deploy, masters, nodes, Minus(goneMasters, lostMasters), Minus(goneNodes, lostNodes), env);
    if !d.ok then d else KubeScaleDown(Again, d.world, masters, nodes, lostMasters, lostNodes, env)
  }

  /** `Installer.ScaleDown` */
  function ScaleDown(mode: Registry, w: World, masters: seq<IP>, nodes: seq<IP>, goneMasters: seq<IP>,
                     goneNodes: seq<IP>, env: Env): Outcome
    requires masters != []
  {
    if !env.works(Inspect) then Outcome(w, false)
    else
      var (a, deploy) := Redeploy(mode, w, masters, goneMasters, env);
      if !a.ok then a
      else if !env.works(Prepare) || (goneMasters != [] && !AllUp(Minus(nodes, goneNodes), env.down(CheckWorkers)))
        then Outcome(a.world, false)
      else RemoveTargets(mode, a.world, deploy, masters, nodes, goneMasters, goneNodes, env)
  }

  // ---------------------------------------------------------------- the operations on the hosts

  /** The sorted real servers, collected in a loop. */
  method RealServers(hosts: seq<IP>, port: string) returns (rs: seq<string>)
    ensures rs == Endpoints(hosts, port)
  {
    var sorted := Sort(hosts);
    rs := [];
    for i := 0 to |sorted|
      invariant |rs| == i && forall k :: 0 <= k < i ==> rs[k] == JoinHostPort(sorted[k], port)
    {
      rs := rs + [JoinHostPort(sorted[i], port)];
    }
    assert rs == WithPort(sorted, port);
  }

  lemma PushNone(t: Tables, down: set<IP>, rs: seq<string>)
    ensures Push(t, [], down, rs) == t
  {
  }

  lemma ElemsSnoc(front: seq<IP>, x: IP)
    ensures Elems(front + [x]) == Elems(front) + {x} && forall y :: y in front + [x] <==> y in front || y == x
  {
  }

  lemma PushOne(t: Tables, front: seq<IP>, x: IP, down: set<IP>, rs: seq<string>)
    ensures Push(t, front + [x], down, rs) == if x in down then Push(t, front, down, rs)
            else Push(t, front, down, rs)[x := rs]
  {
    ElemsSnoc(front, x);
  }

  lemma AllUpOne(front: seq<IP>, x: IP, down: set<IP>)
    ensures AllUp(front + [x], down) <==> AllUp(front, down) && x !in down
  {
    var all := front + [x];
    if AllUp(all, down) {
      assert all[|front|] == x;
      assert forall k :: 0 <= k < |front| ==> all[k] == front[k];
    }
  }

  /** What is pushed to one more client. */
  lemma PushNext(t: Tables, clients: seq<IP>, i: nat, down: set<IP>, rs: seq<string>)
    requires i < |clients|
    ensures Push(t, clients[..i + 1], down, rs) ==
            if clients[i] in down then Push(t, clients[..i], down, rs)
            else Push(t, clients[..i], down, rs)[clients[i] := rs]
  {
    assert clients[..i + 1] == clients[..i] + [clients[i]];
    PushOne(t, clients[..i], clients[i], down, rs);
  }

  lemma AllUpNext(hosts: seq<IP>, i: nat, down: set<IP>)
    requires i < |hosts|
    ensures AllUp(hosts[..i + 1], down) <==> AllUp(hosts[..i], down) && hosts[i] !in down
  {
    assert hosts[..i + 1] == hosts[..i] + [hosts[i]];
    AllUpOne(hosts[..i], hosts[i], down);
  }

  /** One command per client; a client that cannot be reached keeps its table. */
  method PushToClients(t: Tables, clients: seq<IP>, down: set<IP>, rs: seq<string>) returns (r: Tables, ok: bool)
    ensures r == Push(t, clients, down, rs) && (ok <==> AllUp(clients, down))
  {
    r, ok := t, true;
    PushNone(t, down, rs);
    for i := 0 to |clients|
      invariant r == Push(t, clients[..i], down, rs) && (ok <==> AllUp(clients[..i], down))
    {
      PushNext(t, clients, i, down, rs);
      AllUpNext(clients, i, down);
      if clients[i] in down {
        ok := false;
      } else {
        r := r[clients[i] := rs];
      }
    }
    assert clients[..|clients|] == clients;
  }

  lemma ReachedCons(hosts: seq<IP>, i: nat, down: set<IP>)
    requires i < |hosts| && hosts[i] !in down
    ensures Elems(Reached(hosts[i..], down)) == {hosts[i]} + Elems(Reached(hosts[i + 1..], down))
  {
    assert hosts[i..][0] == hosts[i] && hosts[i..][1..] == hosts[i + 1..];
  }

  lemma ReachedStops(hosts: seq<IP>, i: nat, down: set<IP>)
    requires i < |hosts| && hosts[i] in down
    ensures Reached(hosts[i..], down) == [] && !AllUp(hosts, down)
  {
    assert hosts[i..][0] == hosts[i];
  }

  /** The state of the remote hosts, changed by commands. */
  class Remote {
    var kube: Tables
    var reg: Tables
    var running: set<IP>

    constructor ()
      ensures Value() == World(map[], map[], {})
    {
      kube, reg, running := map[], map[], {};
    }

    ghost function Value(): World
      reads this
    {
      World(kube, reg, running)
    }

    /** `configureLvs` of the kubernetes runtime. */
    method ConfigureKubeLvs(masters: seq<IP>, clients: seq<IP>, down: set<IP>) returns (ok: bool)
      modifies this
      ensures Outcome(Value(), ok) == KubeLvs(old(Value()), masters, clients, down)
      ensures ok <==> masters != [] && forall n :: n in clients ==> n !in down
      ensures forall n :: masters != [] && n in clients && n !in down ==>
                n in kube && kube[n] == Endpoints(masters, "6443")
      ensures forall n :: masters == [] || n !in clients || n in down ==>
                (n in kube <==> n in old(kube)) && (n in kube ==> kube[n] == old(kube)[n])
    {
      var rs := RealServers(masters, KUBE_PORT);
      if masters == [] {
        return false;
      }
      kube, ok := PushToClients(kube, clients, down, rs);
    }

    /** `configureLvs` of the registry configurator. */
    method ConfigureRegistryLvs(port: string, hosts: seq<IP>, clients: seq<IP>, env: Env) returns (ok: bool)
      modifies this
      ensures Outcome(Value(), ok) == RegistryLvs(old(Value()), port, hosts, clients, env)
      ensures ok <==> hosts != [] && forall n :: n in clients ==>
                n !in env.down(PushRegistry) && n !in env.down(SetRegistryAlias)
      ensures forall n :: hosts != [] && n in clients && n !in env.down(PushRegistry) ==>
                n in reg && reg[n] == Endpoints(hosts, port)
      ensures forall n :: hosts == [] || n !in clients || n in env.down(PushRegistry) ==>
                (n in reg <==> n in old(reg)) && (n in reg ==> reg[n] == old(reg)[n])
    {
      var rs := RealServers(hosts, port);
      if hosts == [] {
        return false;
      }
      reg, ok := PushToClients(reg, clients, env.down(PushRegistry), rs);
      ok := ok && AllUp(clients, env.down(SetRegistryAlias));
    }

    /** `localInstaller.install` */
    method LaunchRegistry(hosts: seq<IP>, env: Env) returns (ok: bool)
      modifies this
      ensures Outcome(Value(), ok) == Launch(old(Value()), hosts, env)
    {
      if !env.works(RegistryData) {
        return false;
      }
      var down := env.down(StartRegistry);
      for i := 0 to |hosts|
        invariant kube == old(kube) && reg == old(reg)
        invariant AllUp(hosts[..i], down)
        invariant running + Elems(Reached(hosts[i..], down)) == old(running) + Elems(Reached(hosts, down))
      {
        if hosts[i] in down {
          ReachedStops(hosts, i, down);
          return false;
        }
        ReachedCons(hosts, i, down);
        AllUpNext(hosts, i, down);
        running := running + {hosts[i]};
      }
      assert hosts[|hosts|..] == [] && hosts[..|hosts|] == hosts;
      ok := true;
    }

    /** `localInstaller.clean` */
    method CleanRegistry(hosts: seq<IP>, env: Env) returns (ok: bool)
      modifies this
      ensures Outcome(Value(), ok) == Clean(old(Value()), hosts, env)
    {
      var down := env.down(StopRegistry);
      for i := 0 to |hosts|
        invariant kube == old(kube) && reg == old(reg)
        invariant AllUp(hosts[..i], down)
        invariant running - Elems(Reached(hosts[i..], down)) == old(running) - Elems(Reached(hosts, down))
      {
        if hosts[i] in down {
          ReachedStops(hosts, i, down);
          return false;
        }
        ReachedCons(hosts, i, down);
        AllUpNext(hosts, i, down);
        running := running - {hosts[i]};
      }
      assert hosts[|hosts|..] == [] && hosts[..|hosts|] == hosts;
      ok := true;
    }

    /** `localInstaller.Reconcile` */
    method ReconcileRegistry(current: seq<IP>, desired: seq<IP>, env: Env) returns (ok: bool, deploy: seq<IP>)
      modifies this
      ensures (Outcome(Value(), ok), deploy) == Reconcile(old(Value()), current, desired, env)
    {
      if current == [] {
        ok := LaunchRegistry(desired, env);
        return ok, desired;
      }
      var joined, deleted := Diff(current, desired);
      if joined == [] && deleted == [] {
        return true, current;
      }
      if joined != [] {
        ok := LaunchRegistry(joined, env);
        return ok, current + joined;
      }
      ok := CleanRegistry(deleted, env);
      deploy := RemoveIPs(current, deleted);
    }

    /** `configurator.InstallOn` */
    method InstallRegistryOn(mode: Registry, deploy: seq<IP>, masters: seq<IP>, nodes: seq<IP>, allNodes: seq<IP>,
                             env: Env)
      returns (ok: bool)
      modifies this
      ensures Outcome(Value(), ok) == InstallOn(mode, old(Value()), deploy, masters, nodes, allNodes, env)
    {
      if mode.External? {
        return env.works(RegistryConfig);
      }
      if !mode.ha {
        return AllUp(masters + nodes, env.down(SetHostsFile)) && env.works(RegistryConfig);
      }
      if !AllUp(masters, env.down(SetHostsFile)) {
        return false;
      }
      ok := ConfigureRegistryLvs(mode.port, deploy, if masters == [] then nodes else allNodes, env);
      if ok {
        ok := env.works(RegistryConfig);
      }
    }

    /** `Runtime.ScaleDown` */
    method ScaleDownKube(call: Call, masters: seq<IP>, nodes: seq<IP>, goneMasters: seq<IP>, goneNodes: seq<IP>,
                         env: Env) returns (ok: bool)
      modifies this
      ensures Outcome(Value(), ok) == KubeScaleDown(call, old(Value()), masters, nodes, goneMasters, goneNodes, env)
    {
      var remain := RemoveIPs(masters, goneMasters);
      if remain == [] {
        return false;
      }
      if goneNodes != [] && !env.works(DeleteWorkers(call)) {
        return false;
      }
      if goneMasters != [] {
        var remainNodes := RemoveIPs(nodes, goneNodes);
        if !env.works(DeleteMasters(call)) {
          return false;
        }
        ok := ConfigureKubeLvs(remain, remainNodes, env.down(PushKube(call)));
        return;
      }
      ok := true;
    }

    /** `joinNodes` */
    method JoinKubeNodes(joining: seq<IP>, masters: seq<IP>, env: Env) returns (ok: bool)
      modifies this
      ensures Outcome(Value(), ok) == JoinNodes(old(Value()), joining, masters, env)
    {
      if joining == [] {
        return true;
      }
      ok := ConfigureKubeLvs(masters, joining, env.down(PushJoining));
      if ok {
        ok := env.works(JoinWorkers);
      }
    }

    /** `Installer.Install` */
    method InstallCluster(mode: Registry, masters: seq<IP>, nodes: seq<IP>, env: Env) returns (ok: bool)
      requires masters != []
      modifies this
      ensures Outcome(Value(), ok) == Install(mode, old(Value()), masters, nodes, env)
    {
      ok := env.works(Prepare);
      if !ok { return; }
      var deploy := [];
      if mode.Local? {
        ok, deploy := ReconcileRegistry([], if mode.ha then masters else [masters[0]], env);
        if !ok { return; }
      }
      ok := InstallRegistryOn(mode, deploy, masters, nodes, nodes, env);
      if !ok { return; }
      ok := env.works(JoinMasters);
      if !ok { return; }
      ok := JoinKubeNodes(nodes, masters, env);
      if !ok { return; }
      ok := env.works(Finish);
    }

    /** `Installer.ScaleUp` */
    method ScaleUpCluster(mode: Registry, masters: seq<IP>, nodes: seq<IP>, newMasters: seq<IP>, newNodes: seq<IP>,
                          env: Env)
      returns (ok: bool)
      requires masters != []
      modifies this
      ensures Outcome(Value(), ok) == ScaleUp(mode, old(Value()), masters, nodes, newMasters, newNodes, env)
    {
      ok := env.works(Prepare);
      if !ok { return; }
      var deploy := [masters[0]];
      if mode.Local? && mode.ha {
        var current := RemoveIPs(masters, newMasters);
        ok, deploy := ReconcileRegistry(current, masters, env);
        if !ok { return; }
      }
      ok := InstallRegistryOn(mode, deploy, newMasters, newNodes, nodes, env);
      if !ok { return; }
      ok := env.works(JoinMasters);
      if !ok { return; }
      if newMasters != [] {
        var oldNodes := RemoveIPs(nodes, newNodes);
        ok := ConfigureKubeLvs(masters, oldNodes, env.down(PushKube(Once)));
        if !ok { return; }
      }
      ok := JoinKubeNodes(newNodes, masters, env);
      if !ok { return; }
      ok := env.works(Finish);
    }

    /** `CheckNodeSSH` */
    method CheckNodeSSH(hosts: seq<IP>, down: set<IP>) returns (failed: seq<IP>)
      ensures failed == Unreachable(hosts, down)
    {
      failed := [];
      for i := 0 to |hosts|
        invariant failed == Unreachable(hosts[..i], down)
      {
        assert hosts[..i + 1][..i] == hosts[..i];
        if hosts[i] in down {
          failed := failed + [hosts[i]];
        }
      }
      assert hosts[..|hosts|] == hosts;
    }

    /** `resetAndScaleDown` */
    method ResetAndScaleDown(mode: Registry, deploy: seq<IP>, masters: seq<IP>, nodes: seq<IP>, goneMasters: seq<IP>,
                             goneNodes: seq<IP>, env: Env)
      returns (ok: bool)
      modifies this
      ensures Outcome(Value(), ok) == Reset(mode, old(Value()), deploy, masters, nodes, goneMasters, goneNodes, env)
    {
      ok := ScaleDownKube(Once, masters, nodes, goneMasters, goneNodes, env);
      if !ok { return; }
      if mode.External? {
        ok := env.works(RegistryConfig);
      } else {
        ok := AllUp(goneMasters + goneNodes, env.down(RemoveRegistryConfig));
        if ok && mode.ha && deploy != [] && goneMasters != [] {
          var clients := RemoveIPs(nodes, goneNodes);
          ok := ConfigureRegistryLvs(mode.port, deploy, clients, env);
        }
      }
      if !ok { return; }
      ok := env.works(Finish);
    }

    /** `Installer.ScaleDown` */
    method ScaleDownCluster(mode: Registry, masters: seq<IP>, nodes: seq<IP>, goneMasters: seq<IP>,
                            goneNodes: seq<IP>, env: Env)
      returns (ok: bool)
      requires masters != []
      modifies this
      ensures Outcome(Value(), ok) == ScaleDown(mode, old(Value()), masters, nodes, goneMasters, goneNodes, env)
    {
      var remainNodes := RemoveIPs(nodes, goneNodes);
      var deploy := [masters[0]];
      ok := env.works(Inspect);
      if !ok { return; }
      if mode.Local? && mode.ha {
        var desired := RemoveIPs(masters, goneMasters);
        ok, deploy := ReconcileRegistry(masters, desired, env);
        if !ok { return; }
      }
      if !env.works(Prepare) || (goneMasters != [] && !AllUp(remainNodes, env.down(CheckWorkers))) {
        return false;
      }
      var lostMasters := CheckNodeSSH(goneMasters, env.down(CheckMasters));
      var lostNodes := CheckNodeSSH(goneNodes, env.down(CheckNodes));
      var upMasters := RemoveIPs(goneMasters, lostMasters);
      var upNodes := RemoveIPs(goneNodes, lostNodes);
      ok := ResetAndScaleDown(mode, deploy, masters, nodes, upMasters, upNodes, env);
      if !ok { return; }
      ok := ScaleDownKube(Again, masters, nodes, lostMasters, lostNodes, env);
    }
  }
}
