/**
 `pkg/infra/container`: bringing the containers of a cluster to the wanted numbers of masters and nodes.

 The container provider is a world that answers each call in turn, with a fault or not; the object
 remembers the addresses in use and, in its annotations, the container behind each address.
 */
module Containers {
  import opened Options
  import opened Decimal

  type IP = string
  type Id = string

  /** One round of creating a container: it may not start, its address may not be found, or its password may
      not be set; only then is it usable. */
  datatype Reply = NoContainer | NoInfo(id: Id) | NoPassword(id: Id, ip: IP) | Started(id: Id, ip: IP)

  /** The answers to the creations and removals, by the number of provider calls made before. */
  datatype World = World(run: nat -> Reply, removes: nat -> bool, serverOk: bool)

  datatype Infra = Infra(masters: seq<IP>, nodes: seq<IP>, annotations: Option<map<IP, Id>>, removed: seq<Id>,
                         clock: nat)

  datatype Status = Success | Failure | Panicked

  datatype Outcome = Outcome(infra: Infra, status: Status)

  // ---------------------------------------------------------------- counts

  /** `strconv.Atoi` */
  function Atoi(s: string): Option<int>
  {
    var signed := s != "" && (s[0] == '-' || s[0] == '+');
    var digits := if signed then s[1..] else s;
    if !Digits(digits) then None
    else
      var v: int := if signed && s[0] == '-' then 0 - Value(digits) else Value(digits);
      if -0x8000_0000_0000_0000 <= v < 0x8000_0000_0000_0000 then Some(v) else None
  }

  datatype Diff = Diff(join: nat, delete: seq<IP>) | OutOfRange

  /** `getDiff`, whose error both callers ignore; a negative count slices out of range. */
  function GetDiff(count: string, ips: seq<IP>): Diff
  {
    match Atoi(count)
    case None => Diff(0, [])
    case Some(n) =>
      if n > |ips| then Diff(n - |ips|, [])
      else if 0 <= n < |ips| then Diff(0, ips[n..])
      else if n < 0 then OutOfRange
      else Diff(0, [])
  }

  // ---------------------------------------------------------------- the loops as functions

  function Tick(s: Infra): Infra
  {
    s.(clock := s.clock + 1)
  }

  function Annotations(s: Infra): map<IP, Id>
  {
    if s.annotations.None? then map[] else s.annotations.value
  }

  /** The new state, the joined addresses and whether all succeeded. */
  function Join(s: Infra, n: nat, w: World): (Infra, seq<IP>, bool)
  {
    if n == 0 then (s, [], true)
    else
      var (t, ips, ok) := Join(s, n - 1, w);
      if !ok then (t, ips, false)
      else
        match w.run(t.clock)
        case Started(id, ip) => (Tick(t).(annotations := Some(Annotations(t)[ip := id])), ips + [ip], true)
        case _ => (Tick(t), ips, false)
  }

  function Delete(s: Infra, ips: seq<IP>, w: World): (Infra, bool)
  {
    if ips == [] then (s, true)
    else
      var ip := ips[|ips| - 1];
      var (t, ok) := Delete(s, ips[..|ips| - 1], w);
      if !ok then (t, false)
      else if ip !in Annotations(t) then (t, true)
      else if !w.removes(t.clock) then (Tick(t), false)
      else (Tick(t).(annotations := Some(Annotations(t) - {ip}), removed := t.removed + [Annotations(t)[ip]]), true)
  }

  datatype Role = Master | Node

  function List(s: Infra, role: Role): seq<IP>
  {
    if role.Master? then s.masters else s.nodes
  }

  function SetList(s: Infra, role: Role, ips: seq<IP>): Infra
  {
    if role.Master? then s.(masters := ips) else s.(nodes := ips)
  }

  function Shorter(ips: seq<IP>, k: nat): seq<IP>
  {
    if k <= |ips| then ips[..|ips| - k] else []
  }

  function JoinRole(s: Infra, role: Role, n: nat, w: World): (Infra, bool)
  {
    if n == 0 then (s, true)
    else
      var (t, ips, ok) := Join(s, n, w);
      if ok then (SetList(t, role, List(t, role) + ips), true) else (t, false)
  }

  function DeleteRole(s: Infra, role: Role, ips: seq<IP>, w: World): (Infra, bool)
  {
    if ips == [] then (s, true)
    else
      var (t, ok) := Delete(s, ips, w);
      if ok then (SetList(t, role, Shorter(List(t, role), |ips|)), true) else (t, false)
  }

  /** `applyResult` */
  function ApplyRole(s: Infra, role: Role, d: Diff, w: World): (Infra, bool)
    requires d.Diff?
  {
    var (t, ok) := JoinRole(s, role, d.join, w);
    if !ok then (t, false) else DeleteRole(t, role, d.delete, w)
  }

  /** `ReconcileContainer` */
  function Reconciled(s: Infra, masterCount: string, nodeCount: string, w: World): Outcome
  {
    var md, nd := GetDiff(masterCount, s.masters), GetDiff(nodeCount, s.nodes);
    if md.OutOfRange? || nd.OutOfRange? then Outcome(s, Panicked)
    else if |s.masters| + md.join <= |md.delete| then Outcome(s, Failure)
    else
      var (t, ok) := ApplyRole(s, Master, md, w);
      if !ok then Outcome(t, Failure)
      else
        var (u, ok') := ApplyRole(t, Node, nd, w);
        Outcome(u, if ok' then Success else Failure)
  }

  /** `Apply` without a deletion timestamp. */
  function Applied(s: Infra, masterCount: string, nodeCount: string, w: World): Outcome
  {
    if s.annotations.None? && !w.serverOk then Outcome(s, Failure)
    else
      var t := s.(annotations := Some(Annotations(s)));
      if masterCount != Itoa(|s.masters|) || nodeCount != Itoa(|s.nodes|)
      then Reconciled(t, masterCount, nodeCount, w)
      else Outcome(t, Success)
  }

  // ---------------------------------------------------------------- the object

  class ApplyProvider {
    var masters: seq<IP>
    var nodes: seq<IP>
    var masterCount: string
    var nodeCount: string
    var annotations: Option<map<IP, Id>>
    ghost var removed: seq<Id>
    var clock: nat
    const world: World

    ghost function View(): Infra
      reads this
    {
      Infra(masters, nodes, annotations, removed, clock)
    }

    constructor (masterCount: string, nodeCount: string, world: World)
      ensures View() == Infra([], [], None, [], 0)
      ensures this.masterCount == masterCount && this.nodeCount == nodeCount && this.world == world
    {
      this.masters, this.nodes, this.annotations := [], [], None;
      this.masterCount, this.nodeCount, this.world := masterCount, nodeCount, world;
      this.removed, this.clock := [], 0;
    }

    /** `applyToJoin` */
    method ApplyToJoin(n: nat) returns (joined: seq<IP>, ok: bool)
      requires annotations.Some?
      modifies this`annotations, this`clock
      ensures annotations.Some? && (View(), joined, ok) == Join(old(View()), n, world)
    {
      joined, ok := [], true;
      var i := 0;
      while i < n
        invariant 0 <= i <= n && annotations.Some? && (View(), joined, true) == Join(old(View()), i, world)
      {
        i := i + 1;
        var reply := world.run(clock);
        clock := clock + 1;
        match reply
        case Started(id, ip) =>
          annotations := Some(annotations.value[ip := id]);
          joined := joined + [ip];
        case _ =>
          FailedJoin(old(View()), i, n, world);
          return joined, false;
      }
    }

    /** `applyToDelete` */
    method ApplyToDelete(ips: seq<IP>) returns (ok: bool)
      requires annotations.Some?
      modifies this`annotations, this`clock, this`removed
      ensures annotations.Some? && (View(), ok) == Delete(old(View()), ips, world)
    {
      for i := 0 to |ips|
        invariant annotations.Some? && (View(), true) == Delete(old(View()), ips[..i], world)
      {
        assert ips[..i + 1][..i] == ips[..i] && ips[..i + 1][i] == ips[i];
        if ips[i] in annotations.value {
          var id := annotations.value[ips[i]];
          var done := world.removes(clock);
          clock := clock + 1;
          if !done {
            FailedDelete(old(View()), ips, i + 1, world);
            return false;
          }
          removed := removed + [id];
          annotations := Some(annotations.value - {ips[i]});
        }
      }
      assert ips[..|ips|] == ips;
      return true;
    }

    /** `applyResult` */
    method ApplyResult(role: Role, d: Diff) returns (ok: bool)
      requires annotations.Some? && d.Diff?
      modifies this`masters, this`nodes, this`annotations, this`clock, this`removed
      ensures annotations.Some? && (View(), ok) == ApplyRole(old(View()), role, d, world)
    {
      if d.join > 0 {
        var joined;
        joined, ok := ApplyToJoin(d.join);
        if !ok {
          return;
        }
        if role.Master? {
          masters := masters + joined;
        } else {
          nodes := nodes + joined;
        }
      }
      ok := true;
      if d.delete != [] {
        ok := ApplyToDelete(d.delete);
        if !ok {
          return;
        }
        if role.Master? {
          masters := Shorter(masters, |d.delete|);
        } else {
          nodes := Shorter(nodes, |d.delete|);
        }
      }
    }

    /** `ReconcileContainer` */
    method ReconcileContainer() returns (status: Status)
      requires annotations.Some?
      modifies this`masters, this`nodes, this`annotations, this`clock, this`removed
      ensures annotations.Some? && Outcome(View(), status) == Reconciled(old(View()), masterCount, nodeCount, world)
    {
      var md, nd := GetDiff(masterCount, masters), GetDiff(nodeCount, nodes);
      if md.OutOfRange? || nd.OutOfRange? {
        return Panicked;
      }
      if |masters| + md.join <= |md.delete| {
        return Failure;
      }
      var ok := ApplyResult(Master, md);
      if !ok {
        return Failure;
      }
      ok := ApplyResult(Node, nd);
      return if ok then Success else Failure;
    }

    /** `Apply` */
    method Apply() returns (status: Status)
      modifies this`masters, this`nodes, this`annotations, this`clock, this`removed
      ensures Outcome(View(), status) == Applied(old(View()), masterCount, nodeCount, world)
    {
      if annotations == None {
        if !world.serverOk {
          return Failure;
        }
        annotations := Some(map[]);
      }
      if masterCount != Itoa(|masters|) || nodeCount != Itoa(|nodes|) {
        status := ReconcileContainer();
        return;
      }
      return Success;
    }
  }

  lemma {:induction false} FailedJoin(s: Infra, i: nat, n: nat, w: World)
    requires i <= n && !Join(s, i, w).2
    ensures Join(s, n, w) == Join(s, i, w)
  {
    if i < n {
      FailedJoin(s, i, n - 1, w);
    }
  }

  lemma {:induction false} FailedDelete(s: Infra, ips: seq<IP>, i: nat, w: World)
    requires i <= |ips| && !Delete(s, ips[..i], w).1
    ensures Delete(s, ips, w) == Delete(s, ips[..i], w)
  {
    if i < |ips| {
      assert ips[..|ips| - 1][..i] == ips[..i];
      FailedDelete(s, ips[..|ips| - 1], i, w);
    } else {
      assert ips[..i] == ips;
    }
  }

  // ---------------------------------------------------------------- counts reached

  lemma {:induction false} JoinKeeps(s: Infra, n: nat, w: World)
    ensures var (t, ips, ok) := Join(s, n, w);
            t.masters == s.masters && t.nodes == s.nodes && t.removed == s.removed && (ok ==> |ips| == n)
  {
    if n > 0 {
      JoinKeeps(s, n - 1, w);
    }
  }

  lemma {:induction false} DeleteKeeps(s: Infra, ips: seq<IP>, w: World)
    ensures var (t, ok) := Delete(s, ips, w); t.masters == s.masters && t.nodes == s.nodes
  {
    if ips != [] {
      DeleteKeeps(s, ips[..|ips| - 1], w);
    }
  }

  /** The list after a successful change to `n` entries: a prefix of the old one, or the old one extended. */
  ghost predicate Resized(before: seq<IP>, after: seq<IP>, n: nat)
  {
    |after| == n && if n <= |before| then after == before[..n] else before <= after
  }

  lemma RoleResized(s: Infra, role: Role, d: Diff, w: World, n: nat)
    requires d == (if n > |List(s, role)| then Diff(n - |List(s, role)|, []) else Diff(0, List(s, role)[n..]))
    requires ApplyRole(s, role, d, w).1
    ensures var t := ApplyRole(s, role, d, w).0;
            Resized(List(s, role), List(t, role), n)
            && (role.Master? ==> t.nodes == s.nodes) && (role.Node? ==> t.masters == s.masters)
  {
    JoinKeeps(s, d.join, w);
    DeleteKeeps(s, d.delete, w);
  }

  lemma DiffOfCount(count: string, ips: seq<IP>, n: nat)
    requires Atoi(count) == Some(n)
    ensures GetDiff(count, ips) == if n > |ips| then Diff(n - |ips|, []) else Diff(0, ips[n..])
  {
  }

  lemma DecimalCount(n: nat)
    ensures Atoi(Itoa(n)) == if n < 0x8000_0000_0000_0000 then Some(n) else None
  {
    assert IsDigit(Itoa(n)[0]);
    ValueItoa(n);
  }

  lemma ReconcileReaches(s: Infra, mc: string, nc: string, n: nat, m: nat, w: World)
    requires Atoi(mc) == Some(n) && Atoi(nc) == Some(m) && Reconciled(s, mc, nc, w).status == Success
    ensures n >= 1 && Resized(s.masters, Reconciled(s, mc, nc, w).infra.masters, n)
            && Resized(s.nodes, Reconciled(s, mc, nc, w).infra.nodes, m)
  {
    DiffOfCount(mc, s.masters, n);
    DiffOfCount(nc, s.nodes, m);
    RoleResized(s, Master, GetDiff(mc, s.masters), w, n);
    var t := ApplyRole(s, Master, GetDiff(mc, s.masters), w).0;
    RoleResized(t, Node, GetDiff(nc, s.nodes), w, m);
  }

  /** A successful `Apply` for counts `n` and `m` leaves lists of exactly `n` masters and `m` nodes; a scale-down keeps
      a prefix of the old list and a scale-up keeps all of it.  Whether each listed address has a container is another
      matter: see `ApplyLiveExactly`. */
  lemma ApplyReachesCounts(s: Infra, mc: string, nc: string, n: nat, m: nat, w: World)
    requires Atoi(mc) == Some(n) && Atoi(nc) == Some(m)
    requires Applied(s, mc, nc, w).status == Success
    ensures var t := Applied(s, mc, nc, w).infra; Resized(s.masters, t.masters, n) && Resized(s.nodes, t.nodes, m)
    ensures n >= 1 || s.masters == []
  {
    var t := s.(annotations := Some(Annotations(s)));
    if mc != Itoa(|s.masters|) || nc != Itoa(|s.nodes|) {
      ReconcileReaches(t, mc, nc, n, m, w);
    } else {
      DecimalCount(|s.masters|);
      DecimalCount(|s.nodes|);
    }
  }

  // ---------------------------------------------------------------- nothing is removed twice

  /** Every container the provider creates has an id of its own. */
  ghost predicate FreshIds(w: World)
  {
    forall i: nat, j: nat :: i != j && !w.run(i).NoContainer? && !w.run(j).NoContainer? ==> w.run(i).id != w.run(j).id
  }

  /** A container that was created and became usable. */
  ghost predicate Born(id: Id, clock: nat, w: World)
  {
    exists i: nat :: i < clock && w.run(i).Started? && w.run(i).id == id
  }

  ghost predicate Tracked(s: Infra, w: World)
  {
    var a := Annotations(s);
    && (forall ip <- a :: Born(a[ip], s.clock, w) && a[ip] !in s.removed)
    && (forall p, q :: p in a && q in a && p != q ==> a[p] != a[q])
    && (forall i :: 0 <= i < |s.removed| ==> Born(s.removed[i], s.clock, w))
    && (forall i, j :: 0 <= i < j < |s.removed| ==> s.removed[i] != s.removed[j])
  }

  lemma BornLater(id: Id, clock: nat, w: World)
    requires Born(id, clock, w)
    ensures Born(id, clock + 1, w)
  {
  }

  lemma TickTracked(s: Infra, w: World)
    requires Tracked(s, w)
    ensures Tracked(Tick(s), w)
  {
    var a := Annotations(s);
    assert Annotations(Tick(s)) == a;
    forall ip | ip in a ensures Born(a[ip], s.clock + 1, w) && a[ip] !in s.removed {
      BornLater(a[ip], s.clock, w);
    }
    forall i | 0 <= i < |s.removed| ensures Born(s.removed[i], s.clock + 1, w) {
      BornLater(s.removed[i], s.clock, w);
    }
  }

  lemma NewIsUnborn(s: Infra, w: World)
    requires FreshIds(w) && w.run(s.clock).Started?
    ensures !Born(w.run(s.clock).id, s.clock, w) && Born(w.run(s.clock).id, s.clock + 1, w)
  {
  }

  lemma StartTracked(t: Infra, id: Id, ip: IP, w: World)
    requires FreshIds(w) && Tracked(t, w) && w.run(t.clock) == Started(id, ip)
    ensures Tracked(Tick(t).(annotations := Some(Annotations(t)[ip := id])), w)
  {
    TickTracked(t, w);
    NewIsUnborn(t, w);
  }

  lemma {:induction false} JoinTracked(s: Infra, n: nat, w: World)
    requires FreshIds(w) && Tracked(s, w)
    ensures Tracked(Join(s, n, w).0, w)
  {
    if n > 0 {
      JoinTracked(s, n - 1, w);
      var (t, ips, ok) := Join(s, n - 1, w);
      if ok {
        match w.run(t.clock)
        case Started(id, ip) => StartTracked(t, id, ip, w);
        case _ => TickTracked(t, w);
      }
    }
  }

  lemma RemoveTracked(t: Infra, ip: IP, w: World)
    requires Tracked(t, w) && ip in Annotations(t)
    ensures Tracked(Tick(t).(annotations := Some(Annotations(t) - {ip}), removed := t.removed + [Annotations(t)[ip]]),
            w)
  {
    TickTracked(t, w);
  }

  lemma {:induction false} DeleteTracked(s: Infra, ips: seq<IP>, w: World)
    requires Tracked(s, w)
    ensures Tracked(Delete(s, ips, w).0, w)
  {
    if ips != [] {
      var ip := ips[|ips| - 1];
      DeleteTracked(s, ips[..|ips| - 1], w);
      var (t, ok) := Delete(s, ips[..|ips| - 1], w);
      if ok && ip in Annotations(t) {
        TickTracked(t, w);
        RemoveTracked(t, ip, w);
      }
    }
  }

  lemma SetListTracked(s: Infra, role: Role, ips: seq<IP>, w: World)
    requires Tracked(s, w)
    ensures Tracked(SetList(s, role, ips), w)
  {
    assert Annotations(SetList(s, role, ips)) == Annotations(s);
  }

  lemma RoleTracked(s: Infra, role: Role, d: Diff, w: World)
    requires FreshIds(w) && Tracked(s, w) && d.Diff?
    ensures Tracked(ApplyRole(s, role, d, w).0, w)
  {
    JoinTracked(s, d.join, w);
    var (j, ips, _) := Join(s, d.join, w);
    SetListTracked(j, role, List(j, role) + ips, w);
    var (t, ok) := JoinRole(s, role, d.join, w);
    DeleteTracked(t, d.delete, w);
    var (u, _) := Delete(t, d.delete, w);
    SetListTracked(u, role, Shorter(List(u, role), |d.delete|), w);
  }

  lemma ApplyTracked(s: Infra, mc: string, nc: string, w: World)
    requires FreshIds(w) && Tracked(s, w)
    ensures Tracked(Applied(s, mc, nc, w).infra, w)
  {
    var t := s.(annotations := Some(Annotations(s)));
    assert Annotations(t) == Annotations(s);
    var md, nd := GetDiff(mc, s.masters), GetDiff(nc, s.nodes);
    if md.Diff? && nd.Diff? {
      RoleTracked(t, Master, md, w);
      RoleTracked(ApplyRole(t, Master, md, w).0, Node, nd, w);
    }
  }

  /** The wanted counts of one `Apply`. */
  datatype Counts = Counts(masters: string, nodes: string)

  const UNTOUCHED := Infra([], [], None, [], 0)

  /** The state after a history of calls of `Apply`, each successful or not. */
  function After(history: seq<Counts>, w: World): Infra
  {
    if history == [] then UNTOUCHED
    else
      var c := history[|history| - 1];
      Applied(After(history[..|history| - 1], w), c.masters, c.nodes, w).infra
  }

  lemma {:induction false} HistoryTracked(history: seq<Counts>, w: World)
    requires FreshIds(w)
    ensures Tracked(After(history, w), w)
  {
    if history != [] {
      var c := history[|history| - 1];
      HistoryTracked(history[..|history| - 1], w);
      ApplyTracked(After(history[..|history| - 1], w), c.masters, c.nodes, w);
    }
  }

  /** Whatever fails on the way and however the counts change, no container is ever removed twice, and none
      that is still recorded has been removed. */
  lemma NeverRemovedTwice(history: seq<Counts>, w: World)
    requires FreshIds(w)
    ensures var s := After(history, w);
            && (forall i, j :: 0 <= i < j < |s.removed| ==> s.removed[i] != s.removed[j])
            && (forall ip <- Annotations(s) :: Annotations(s)[ip] !in s.removed)
  {
    HistoryTracked(history, w);
  }

  // ---------------------------------------------------------------- re-applying converges

  /** From a moment on, provider calls succeed. */
  ghost predicate HealthyFrom(w: World, clock: nat)
  {
    w.serverOk && (forall i: nat :: i >= clock ==> w.run(i).Started?) && (forall i: nat :: i >= clock ==> w.removes(i))
  }

  lemma {:induction false} HealthyJoin(s: Infra, n: nat, w: World)
    requires HealthyFrom(w, s.clock)
    ensures Join(s, n, w).2 && Join(s, n, w).0.clock >= s.clock
  {
    if n > 0 {
      HealthyJoin(s, n - 1, w);
    }
  }

  lemma {:induction false} HealthyDelete(s: Infra, ips: seq<IP>, w: World)
    requires HealthyFrom(w, s.clock)
    ensures Delete(s, ips, w).1 && Delete(s, ips, w).0.clock >= s.clock
  {
    if ips != [] {
      HealthyDelete(s, ips[..|ips| - 1], w);
    }
  }

  lemma HealthyRole(s: Infra, role: Role, d: Diff, w: World)
    requires HealthyFrom(w, s.clock) && d.Diff?
    ensures ApplyRole(s, role, d, w).1 && ApplyRole(s, role, d, w).0.clock >= s.clock
  {
    HealthyJoin(s, d.join, w);
    HealthyDelete(JoinRole(s, role, d.join, w).0, d.delete, w);
  }

  lemma HealthyApply(s: Infra, mc: string, nc: string, n: nat, m: nat, w: World)
    requires HealthyFrom(w, s.clock) && Atoi(mc) == Some(n) && Atoi(nc) == Some(m) && n >= 1
    ensures Applied(s, mc, nc, w).status == Success
  {
    var t := s.(annotations := Some(Annotations(s)));
    DiffOfCount(mc, s.masters, n);
    DiffOfCount(nc, s.nodes, m);
    HealthyRole(t, Master, GetDiff(mc, s.masters), w);
    HealthyRole(ApplyRole(t, Master, GetDiff(mc, s.masters), w).0, Node, GetDiff(nc, s.nodes), w);
  }

  /** After any history of failed and successful calls, once provider calls succeed, `Apply` succeeds, its lists have
      the wanted lengths, and still nothing has been removed twice.  `RetriesReachLiveCounts` is about containers. */
  lemma ReapplyConverges(history: seq<Counts>, mc: string, nc: string, n: nat, m: nat, w: World)
    requires FreshIds(w) && Atoi(mc) == Some(n) && Atoi(nc) == Some(m) && n >= 1
    requires HealthyFrom(w, After(history, w).clock)
    ensures var r := Applied(After(history, w), mc, nc, w);
            && r.status == Success && |r.infra.masters| == n && |r.infra.nodes| == m
            && forall i, j :: 0 <= i < j < |r.infra.removed| ==> r.infra.removed[i] != r.infra.removed[j]
  {
    var s := After(history, w);
    HealthyApply(s, mc, nc, n, m, w);
    ApplyReachesCounts(s, mc, nc, n, m, w);
    HistoryTracked(history, w);
    ApplyTracked(s, mc, nc, w);
  }

  // ---------------------------------------------------------------- what a scale-down removes

  /** The container recorded for one of the addresses. */
  ghost predicate Recorded(a: map<IP, Id>, ips: seq<IP>, id: Id)
  {
    exists ip :: ip in ips && ip in a && a[ip] == id
  }

  lemma RecordedSnoc(a: map<IP, Id>, front: seq<IP>, ip: IP, id: Id)
    ensures Recorded(a, front + [ip], id) <==> Recorded(a, front, id) || (ip in a && a[ip] == id)
  {
    assert ip in front + [ip];
    if Recorded(a, front, id) {
      var x :| x in front && x in a && a[x] == id;
      assert x in front + [ip];
    }
  }

  /** A completed deletion removed exactly the containers recorded for the listed addresses. */
  lemma {:induction false} DeleteExactly(s: Infra, ips: seq<IP>, w: World)
    requires Delete(s, ips, w).1
    ensures var t, a := Delete(s, ips, w).0, Annotations(s);
            && Annotations(t) == (map ip | ip in a && ip !in ips :: a[ip])
            && s.removed <= t.removed
            && (forall id :: id in t.removed[|s.removed|..] <==> Recorded(a, ips, id))
  {
    if ips != [] {
      var front, ip := ips[..|ips| - 1], ips[|ips| - 1];
      DeleteExactly(s, front, w);
      assert ips == front + [ip];
      var t1, t, a, k := Delete(s, front, w).0, Delete(s, ips, w).0, Annotations(s), |s.removed|;
      assert forall x :: x in ips <==> x in front || x == ip;
      if ip in Annotations(t1) {
        assert t.removed[k..] == t1.removed[k..] + [a[ip]];
      } else {
        assert ip in a ==> Recorded(a, front, a[ip]);
      }
      forall id ensures id in t.removed[k..] <==> Recorded(a, ips, id) {
        RecordedSnoc(a, front, ip, id);
      }
    }
  }

  // ---------------------------------------------------------------- live containers

  ghost predicate NoRepeats(ips: seq<IP>)
  {
    forall i, j :: 0 <= i < j < |ips| ==> ips[i] != ips[j]
  }

  ghost predicate Apart(a: seq<IP>, b: seq<IP>)
  {
    forall ip :: ip in a ==> ip !in b
  }

  /** No address is listed twice. */
  ghost predicate Distinct(s: Infra)
  {
    NoRepeats(s.masters) && NoRepeats(s.nodes) && Apart(s.masters, s.nodes)
  }

  /** Every address of the list has its container. */
  ghost predicate AllRecorded(a: map<IP, Id>, ips: seq<IP>)
  {
    forall ip :: ip in ips ==> ip in a
  }

  /** The containers behind the listed addresses of a role. */
  ghost function Live(s: Infra, role: Role): set<Id>
  {
    LiveOf(Annotations(s), List(s, role))
  }

  ghost function LiveOf(a: map<IP, Id>, ips: seq<IP>): set<Id>
  {
    set ip | ip in ips && ip in a :: a[ip]
  }

  lemma LiveSnoc(a: map<IP, Id>, front: seq<IP>, ip: IP)
    ensures LiveOf(a, front + [ip]) == LiveOf(a, front) + if ip in a then {a[ip]} else {}
    ensures AllRecorded(a, front + [ip]) <==> AllRecorded(a, front) && ip in a
  {
    assert forall x :: x in front + [ip] <==> x in front || x == ip;
  }

  lemma {:induction false} LiveCount(a: map<IP, Id>, ips: seq<IP>)
    requires NoRepeats(ips) && forall p, q :: p in a && q in a && p != q ==> a[p] != a[q]
    ensures |LiveOf(a, ips)| <= |ips| && (|LiveOf(a, ips)| == |ips| <==> AllRecorded(a, ips))
  {
    if ips != [] {
      var front, ip := ips[..|ips| - 1], ips[|ips| - 1];
      assert ips == front + [ip] && ip !in front;
      LiveCount(a, front);
      LiveSnoc(a, front, ip);
    }
  }

  /** An address that nothing uses: neither a recorded container nor a listed host. */
  ghost predicate NewAddress(s: Infra, ip: IP)
  {
    ip !in Annotations(s) && ip !in s.masters && ip !in s.nodes
  }

  /** The provider gives each container it starts a new address. */
  ghost predicate JoinsNew(s: Infra, n: nat, w: World)
  {
    n > 0 ==>
      JoinsNew(s, n - 1, w)
      && var (t, ips, ok) := Join(s, n - 1, w); ok && w.run(t.clock).Started? ==> NewAddress(t, w.run(t.clock).ip)
  }

  /** The recorded addresses of `ips` are the same before and after. */
  ghost predicate SameRecords(a: map<IP, Id>, b: map<IP, Id>, ips: seq<IP>)
  {
    forall ip :: ip in ips ==> (ip in a <==> ip in b)
  }

  /** A creation adds records for the joined addresses, all new and all different. */
  lemma {:induction false} JoinRecords(s: Infra, n: nat, w: World)
    requires JoinsNew(s, n, w)
    ensures var (t, ips, ok) := Join(s, n, w);
            && NoRepeats(ips) && AllRecorded(Annotations(t), ips)
            && Apart(s.masters, ips) && Apart(s.nodes, ips)
            && SameRecords(Annotations(s), Annotations(t), s.masters)
            && SameRecords(Annotations(s), Annotations(t), s.nodes)
  {
    if n > 0 {
      JoinKeeps(s, n - 1, w);
      JoinRecords(s, n - 1, w);
    }
  }

  /** A deletion, completed or not, touches the records of its addresses only. */
  lemma {:induction false} DeleteRecords(s: Infra, ips: seq<IP>, w: World, others: seq<IP>)
    requires Apart(others, ips)
    ensures SameRecords(Annotations(s), Annotations(Delete(s, ips, w).0), others)
  {
    if ips != [] {
      var front := ips[..|ips| - 1];
      assert ips == front + [ips[|ips| - 1]];
      DeleteRecords(s, front, w, others);
    }
  }

  function Other(role: Role): Role
  {
    if role.Master? then Node else Master
  }

  function Min(a: nat, b: nat): nat
  {
    if a <= b then a else b
  }

  /** The part of a list that survives a change to `n` entries. */
  function Staying(ips: seq<IP>, n: nat): seq<IP>
  {
    ips[..Min(n, |ips|)]
  }

  lemma Halves(ips: seq<IP>, n: nat)
    requires NoRepeats(ips) && n <= |ips|
    ensures NoRepeats(ips[..n]) && NoRepeats(ips[n..]) && Apart(ips[..n], ips[n..])
    ensures forall ip :: ip in ips[..n] || ip in ips[n..] ==> ip in ips
  {
  }

  /** What changing one role does to the lists and to the records of the addresses that stay. */
  ghost predicate RoleChanged(s: Infra, t: Infra, ok: bool, role: Role, n: nat)
  {
    && Distinct(t) && List(t, Other(role)) == List(s, Other(role))
    && SameRecords(Annotations(s), Annotations(t), List(s, Other(role)))
    && SameRecords(Annotations(s), Annotations(t), Staying(List(s, role), n))
    && (!ok ==> List(t, role) == List(s, role))
    && (ok ==> |List(t, role)| == n && Staying(List(s, role), n) <= List(t, role))
    && (ok ==> AllRecorded(Annotations(t), List(t, role)[Min(n, |List(s, role)|)..]))
  }

  lemma GrowsApart(ips: seq<IP>, more: seq<IP>, other: seq<IP>)
    requires NoRepeats(ips) && NoRepeats(more) && Apart(ips, more) && Apart(ips, other) && Apart(other, more)
    ensures NoRepeats(ips + more) && Apart(ips + more, other) && Apart(other, ips + more)
  {
    forall i, j | 0 <= i < j < |ips + more| ensures (ips + more)[i] != (ips + more)[j] {
      if i < |ips| <= j {
        assert (ips + more)[i] in ips && (ips + more)[j] in more;
      }
    }
  }

  lemma RoleGrows(s: Infra, role: Role, w: World, n: nat)
    requires Distinct(s) && n > |List(s, role)| && JoinsNew(s, n - |List(s, role)|, w)
    ensures var (t, ok) := ApplyRole(s, role, Diff(n - |List(s, role)|, []), w); RoleChanged(s, t, ok, role, n)
  {
    var had, k := List(s, role), n - |List(s, role)|;
    var (j, ips, ok) := Join(s, k, w);
    JoinKeeps(s, k, w);
    JoinRecords(s, k, w);
    assert Staying(had, n) == had;
    if ok {
      var t := SetList(j, role, had + ips);
      GrowsApart(had, ips, List(s, Other(role)));
      assert Annotations(t) == Annotations(j);
      assert (had + ips)[|had|..] == ips;
    } else {
      assert had[|had|..] == [];
    }
  }

  lemma RoleShrinks(s: Infra, role: Role, w: World, n: nat)
    requires Distinct(s) && n <= |List(s, role)|
    ensures var (t, ok) := ApplyRole(s, role, Diff(0, List(s, role)[n..]), w); RoleChanged(s, t, ok, role, n)
  {
    var had := List(s, role);
    var gone := had[n..];
    Halves(had, n);
    DeleteKeeps(s, gone, w);
    DeleteRecords(s, gone, w, List(s, Other(role)));
    DeleteRecords(s, gone, w, had[..n]);
    var (t, ok) := Delete(s, gone, w);
    if gone != [] && ok {
      assert Annotations(SetList(t, role, had[..n])) == Annotations(t);
      assert Shorter(had, |gone|) == had[..n];
      assert had[..n][n..] == [];
    } else if gone == [] {
      assert had[..n] == had && had[n..] == [];
    }
  }

  lemma RoleChanges(s: Infra, role: Role, count: string, w: World, n: nat)
    requires Distinct(s) && Atoi(count) == Some(n) && JoinsNew(s, GetDiff(count, List(s, role)).join, w)
    ensures GetDiff(count, List(s, role)).Diff?
    ensures var (t, ok) := ApplyRole(s, role, GetDiff(count, List(s, role)), w); RoleChanged(s, t, ok, role, n)
  {
    DiffOfCount(count, List(s, role), n);
    if n > |List(s, role)| {
      RoleGrows(s, role, w, n);
    } else {
      RoleShrinks(s, role, w, n);
    }
  }

  /** The provider gives new addresses during one `Apply`. */
  ghost predicate NewAddresses(s: Infra, mc: string, nc: string, w: World)
  {
    var t := s.(annotations := Some(Annotations(s)));
    var md, nd := GetDiff(mc, s.masters), GetDiff(nc, s.nodes);
    md.Diff? ==> JoinsNew(t, md.join, w) && (nd.Diff? ==> JoinsNew(ApplyRole(t, Master, md, w).0, nd.join, w))
  }

  /** What an `Apply` does to one role: its list is left alone or has the wanted length, what is kept of it has the
      records it had, and what is added to it is recorded. */
  ghost predicate RoleOutcome(s: Infra, t: Infra, done: bool, role: Role, n: nat)
  {
    && SameRecords(Annotations(s), Annotations(t), Staying(List(s, role), n))
    && if done
       then && |List(t, role)| == n && Staying(List(s, role), n) <= List(t, role)
            && AllRecorded(Annotations(t), List(t, role)[Min(n, |List(s, role)|)..])
       else List(t, role) == List(s, role)
  }

  lemma SameRecordsWithin(a: map<IP, Id>, b: map<IP, Id>, c: map<IP, Id>, ips: seq<IP>, part: seq<IP>)
    requires SameRecords(a, b, part) && SameRecords(b, c, ips) && forall ip :: ip in part ==> ip in ips
    ensures SameRecords(a, c, part)
  {
  }

  /** The masters' outcome survives the change of the nodes. */
  lemma MastersStay(s: Infra, t: Infra, u: Infra, n: nat)
    requires RoleOutcome(s, t, true, Master, n) && u.masters == t.masters
    requires SameRecords(Annotations(t), Annotations(u), t.masters)
    ensures RoleOutcome(s, u, true, Master, n)
  {
    SameRecordsWithin(Annotations(s), Annotations(t), Annotations(u), t.masters, Staying(s.masters, n));
    var rest := t.masters[Min(n, |s.masters|)..];
    assert forall ip :: ip in rest ==> ip in t.masters;
  }

  lemma NodesOutcome(s: Infra, t: Infra, u: Infra, ok: bool, m: nat)
    requires t.nodes == s.nodes && SameRecords(Annotations(s), Annotations(t), s.nodes)
             && RoleChanged(t, u, ok, Node, m)
    ensures RoleOutcome(s, u, ok, Node, m)
  {
    assert forall ip :: ip in Staying(s.nodes, m) ==> ip in s.nodes;
  }

  lemma ReconcileOutcome(s: Infra, mc: string, nc: string, n: nat, m: nat, w: World)
    requires Distinct(s) && Atoi(mc) == Some(n) && Atoi(nc) == Some(m) && s.annotations.Some?
             && NewAddresses(s, mc, nc, w)
    ensures var r := Reconciled(s, mc, nc, w);
            && Distinct(r.infra)
            && (exists d1, d2 :: RoleOutcome(s, r.infra, d1, Master, n) && RoleOutcome(s, r.infra, d2, Node, m))
            && (r.status == Success ==>
              RoleOutcome(s, r.infra, true, Master, n) && RoleOutcome(s, r.infra, true, Node, m))
  {
    var md := GetDiff(mc, s.masters);
    assert s.(annotations := Some(Annotations(s))) == s;
    RoleChanges(s, Master, mc, w, n);
    DiffOfCount(nc, s.nodes, m);
    if |s.masters| + md.join <= |md.delete| {
      assert RoleOutcome(s, s, false, Master, n) && RoleOutcome(s, s, false, Node, m);
    } else {
      var (t, ok) := ApplyRole(s, Master, md, w);
      assert RoleOutcome(s, t, ok, Master, n);
      if !ok {
        assert forall ip :: ip in Staying(s.nodes, m) ==> ip in s.nodes;
        assert RoleOutcome(s, t, false, Node, m);
      } else {
        RoleChanges(t, Node, nc, w, m);
        var (u, ok') := ApplyRole(t, Node, GetDiff(nc, t.nodes), w);
        MastersStay(s, t, u, n);
        NodesOutcome(s, t, u, ok', m);
      }
    }
  }

  lemma ApplyOutcome(s: Infra, mc: string, nc: string, n: nat, m: nat, w: World)
    requires Distinct(s) && Atoi(mc) == Some(n) && Atoi(nc) == Some(m) && NewAddresses(s, mc, nc, w)
    ensures var r := Applied(s, mc, nc, w);
            && Distinct(r.infra)
            && (exists d1, d2 :: RoleOutcome(s, r.infra, d1, Master, n) && RoleOutcome(s, r.infra, d2, Node, m))
            && (r.status == Success ==>
              RoleOutcome(s, r.infra, true, Master, n) && RoleOutcome(s, r.infra, true, Node, m))
  {
    var t, r := s.(annotations := Some(Annotations(s))), Applied(s, mc, nc, w);
    assert Annotations(t) == Annotations(s);
    if s.annotations.None? && !w.serverOk {
      assert RoleOutcome(s, s, false, Master, n) && RoleOutcome(s, s, false, Node, m);
    } else if mc != Itoa(|s.masters|) || nc != Itoa(|s.nodes|) {
      ReconcileOutcome(t, mc, nc, n, m, w);
      var d1, d2 :| RoleOutcome(t, r.infra, d1, Master, n) && RoleOutcome(t, r.infra, d2, Node, m);
      assert RoleOutcome(s, r.infra, d1, Master, n) && RoleOutcome(s, r.infra, d2, Node, m);
    } else {
      DecimalCount(|s.masters|);
      DecimalCount(|s.nodes|);
      UnchangedOutcome(s, t, Master, n);
      UnchangedOutcome(s, t, Node, m);
    }
  }

  lemma UnchangedOutcome(s: Infra, t: Infra, role: Role, n: nat)
    requires Annotations(t) == Annotations(s) && List(t, role) == List(s, role) && |List(s, role)| == n
    ensures RoleOutcome(s, t, true, role, n)
  {
    assert Staying(List(s, role), n) == List(s, role) && List(s, role)[n..] == [];
  }

  lemma OutcomeRecorded(s: Infra, t: Infra, role: Role, n: nat)
    requires RoleOutcome(s, t, true, role, n)
    ensures AllRecorded(Annotations(t), List(t, role)) <==> AllRecorded(Annotations(s), Staying(List(s, role), n))
  {
    var kept, now := Staying(List(s, role), n), List(t, role);
    assert now == kept + now[|kept|..];
    assert forall ip :: ip in kept ==> ip in now;
  }

  /** A successful `Apply` leaves a container behind every listed address of a role, and so exactly the wanted number of
      live containers, if and only if the part of the list that stays had all its containers before.  A failed
      scale-down is what takes containers away from listed addresses. */
  lemma ApplyLiveExactly(s: Infra, mc: string, nc: string, n: nat, m: nat, w: World)
    requires Distinct(s) && Atoi(mc) == Some(n) && Atoi(nc) == Some(m) && NewAddresses(s, mc, nc, w)
    requires FreshIds(w) && Tracked(s, w) && Applied(s, mc, nc, w).status == Success
    ensures var t, a := Applied(s, mc, nc, w).infra, Annotations(s);
            && Distinct(t)
            && |Live(t, Master)| <= n && (|Live(t, Master)| == n <==> AllRecorded(a, Staying(s.masters, n)))
            && |Live(t, Node)| <= m && (|Live(t, Node)| == m <==> AllRecorded(a, Staying(s.nodes, m)))
            && forall role, id :: id in Live(t, role) ==> id !in t.removed
  {
    var t := Applied(s, mc, nc, w).infra;
    ApplyOutcome(s, mc, nc, n, m, w);
    ApplyTracked(s, mc, nc, w);
    OutcomeRecorded(s, t, Master, n);
    OutcomeRecorded(s, t, Node, m);
    LiveCount(Annotations(t), t.masters);
    LiveCount(Annotations(t), t.nodes);
  }

  // ---------------------------------------------------------------- calls that are refused or stop on the way

  /** The state with its annotations made. */
  function Annotated(s: Infra): Infra
  {
    s.(annotations := Some(Annotations(s)))
  }

  /** Without annotations an unusable container server is an error, and nothing is done. */
  lemma NoServerNoApply(s: Infra, mc: string, nc: string, w: World)
    requires s.annotations.None? && !w.serverOk
    ensures Applied(s, mc, nc, w) == Outcome(s, Failure)
  {
  }

  /** A cluster is never left without masters: a count of zero is refused before any call of the provider, unless there
      is nothing to do at all. */
  lemma ZeroMastersRefused(s: Infra, mc: string, nc: string, w: World)
    requires Atoi(mc) == Some(0) && (Atoi(nc).Some? ==> Atoi(nc).value >= 0)
    requires (s.annotations.None? ==> w.serverOk) && (s.masters != [] || nc != Itoa(|s.nodes|))
    ensures Applied(s, mc, nc, w) == Outcome(Annotated(s), Failure)
  {
    DecimalCount(|s.masters|);
    assert s.masters[0..] == s.masters;
  }

  /** A negative count ends the process before any call of the provider. */
  lemma NegativeCountPanics(s: Infra, mc: string, nc: string, w: World)
    requires (Atoi(mc).Some? && Atoi(mc).value < 0) || (Atoi(nc).Some? && Atoi(nc).value < 0)
    requires s.annotations.None? ==> w.serverOk
    ensures Applied(s, mc, nc, w) == Outcome(Annotated(s), Panicked)
  {
    DecimalCount(|s.masters|);
    DecimalCount(|s.nodes|);
  }

  lemma RoleKeeps(s: Infra, role: Role, d: Diff, w: World)
    requires d.Diff?
    ensures List(ApplyRole(s, role, d, w).0, Other(role)) == List(s, Other(role))
    ensures d == Diff(0, []) ==> ApplyRole(s, role, d, w) == (s, true)
  {
    JoinKeeps(s, d.join, w);
    DeleteKeeps(JoinRole(s, role, d.join, w).0, d.delete, w);
  }

  /** A count that is no number leaves the hosts of its role alone, whatever happens to the others. */
  lemma OddCountKeepsList(s: Infra, mc: string, nc: string, w: World)
    ensures Atoi(mc) == None ==> Applied(s, mc, nc, w).infra.masters == s.masters
    ensures Atoi(nc) == None ==> Applied(s, mc, nc, w).infra.nodes == s.nodes
  {
    var t, md, nd := Annotated(s), GetDiff(mc, s.masters), GetDiff(nc, s.nodes);
    if md.Diff? && nd.Diff? {
      RoleKeeps(t, Master, md, w);
      RoleKeeps(ApplyRole(t, Master, md, w).0, Node, nd, w);
    }
  }

  /** Masters come first: the list of nodes changes only when that of the masters has its wanted length. */
  lemma MastersComeFirst(s: Infra, mc: string, nc: string, n: nat, w: World)
    requires Atoi(mc) == Some(n) && Applied(s, mc, nc, w).infra.nodes != s.nodes
    ensures |Applied(s, mc, nc, w).infra.masters| == n
  {
    var t, md, nd := Annotated(s), GetDiff(mc, s.masters), GetDiff(nc, s.nodes);
    assert md.Diff? && nd.Diff?;
    DiffOfCount(mc, s.masters, n);
    RoleKeeps(t, Master, md, w);
    var (u, ok) := ApplyRole(t, Master, md, w);
    if ok {
      RoleResized(t, Master, md, w, n);
    }
    RoleKeeps(u, Node, nd, w);
  }

  // ---------------------------------------------------------------- re-applying the same counts

  /** What stays of both lists for these counts has its containers. */
  ghost predicate Intact(s: Infra, n: nat, m: nat)
  {
    Distinct(s) && AllRecorded(Annotations(s), Staying(s.masters, n))
      && AllRecorded(Annotations(s), Staying(s.nodes, m))
  }

  lemma OutcomeStaysIntact(s: Infra, t: Infra, done: bool, role: Role, n: nat)
    requires RoleOutcome(s, t, done, role, n) && AllRecorded(Annotations(s), Staying(List(s, role), n))
    ensures AllRecorded(Annotations(t), Staying(List(t, role), n))
  {
    if done {
      OutcomeRecorded(s, t, role, n);
      assert Staying(List(t, role), n) == List(t, role);
    }
  }

  lemma ApplyStaysIntact(s: Infra, mc: string, nc: string, n: nat, m: nat, w: World)
    requires Intact(s, n, m) && Atoi(mc) == Some(n) && Atoi(nc) == Some(m) && NewAddresses(s, mc, nc, w)
    ensures Intact(Applied(s, mc, nc, w).infra, n, m)
  {
    var t := Applied(s, mc, nc, w).infra;
    ApplyOutcome(s, mc, nc, n, m, w);
    var d1, d2 :| RoleOutcome(s, t, d1, Master, n) && RoleOutcome(s, t, d2, Node, m);
    OutcomeStaysIntact(s, t, d1, Master, n);
    OutcomeStaysIntact(s, t, d2, Node, m);
  }

  /** The state after so many calls of `Apply` with the same counts, each successful or not. */
  function Retried(s: Infra, mc: string, nc: string, k: nat, w: World): Infra
  {
    if k == 0 then s else Applied(Retried(s, mc, nc, k - 1, w), mc, nc, w).infra
  }

  ghost predicate RetriesNew(s: Infra, mc: string, nc: string, k: nat, w: World)
  {
    forall j: nat :: j <= k ==> NewAddresses(Retried(s, mc, nc, j, w), mc, nc, w)
  }

  lemma {:induction false} RetriesStayIntact(s: Infra, mc: string, nc: string, n: nat, m: nat, k: nat, w: World)
    requires Intact(s, n, m) && Tracked(s, w) && FreshIds(w) && Atoi(mc) == Some(n) && Atoi(nc) == Some(m)
    requires RetriesNew(s, mc, nc, k, w)
    ensures Intact(Retried(s, mc, nc, k, w), n, m) && Tracked(Retried(s, mc, nc, k, w), w)
  {
    if k > 0 {
      RetriesStayIntact(s, mc, nc, n, m, k - 1, w);
      ApplyStaysIntact(Retried(s, mc, nc, k - 1, w), mc, nc, n, m, w);
      ApplyTracked(Retried(s, mc, nc, k - 1, w), mc, nc, w);
    }
  }

  /** From any state in which what stays has its containers, after any number of failures with the same counts, once
      provider calls succeed `Apply` succeeds and exactly `n` and `m` containers are live. */
  lemma RetriesReachLiveCounts(s: Infra, mc: string, nc: string, n: nat, m: nat, k: nat, w: World)
    requires Intact(s, n, m) && Tracked(s, w) && FreshIds(w) && Atoi(mc) == Some(n) && Atoi(nc) == Some(m) && n >= 1
    requires RetriesNew(s, mc, nc, k, w) && HealthyFrom(w, Retried(s, mc, nc, k, w).clock)
    ensures var r := Applied(Retried(s, mc, nc, k, w), mc, nc, w);
            && r.status == Success && |Live(r.infra, Master)| == n && |Live(r.infra, Node)| == m
            && forall role, id :: id in Live(r.infra, role) ==> id !in r.infra.removed
  {
    var u := Retried(s, mc, nc, k, w);
    RetriesStayIntact(s, mc, nc, n, m, k, w);
    HealthyApply(u, mc, nc, n, m, w);
    assert NewAddresses(u, mc, nc, w);
    ApplyLiveExactly(u, mc, nc, n, m, w);
  }

  /** Every listed address has its container. */
  ghost predicate Complete(s: Infra)
  {
    Distinct(s) && AllRecorded(Annotations(s), s.masters) && AllRecorded(Annotations(s), s.nodes)
  }

  /** Then so has what stays, whatever the counts. */
  lemma CompleteIsIntact(s: Infra, n: nat, m: nat)
    requires Complete(s)
    ensures Intact(s, n, m)
  {
    assert forall ip :: ip in Staying(s.masters, n) ==> ip in s.masters;
    assert forall ip :: ip in Staying(s.nodes, m) ==> ip in s.nodes;
  }

  // ---------------------------------------------------------------- patient histories

  /** What each call of the history answers. */
  function Call(history: seq<Counts>, i: nat, w: World): Outcome
    requires i < |history|
  {
    Applied(After(history[..i], w), history[i].masters, history[i].nodes, w)
  }

  /** The counts are numbers, and each call of the history finds new addresses. */
  ghost predicate Ordinary(history: seq<Counts>, w: World)
  {
    forall i :: 0 <= i < |history| ==> OrdinaryCall(history, i, w)
  }

  ghost predicate OrdinaryCall(history: seq<Counts>, i: nat, w: World)
    requires i < |history|
  {
    var c := history[i];
    && Atoi(c.masters).Some? && Atoi(c.masters).value >= 0 && Atoi(c.nodes).Some? && Atoi(c.nodes).value >= 0
    && NewAddresses(After(history[..i], w), c.masters, c.nodes, w)
  }

  /** The wanted counts change only after a call that succeeded. */
  ghost predicate Patient(history: seq<Counts>, w: World)
  {
    forall i :: 0 < i < |history| ==> history[i] == history[i - 1] || Call(history, i - 1, w).status == Success
  }

  lemma FrontIsPatient(history: seq<Counts>, w: World)
    requires history != [] && Ordinary(history, w) && Patient(history, w)
    ensures Ordinary(history[..|history| - 1], w) && Patient(history[..|history| - 1], w)
  {
    var front := history[..|history| - 1];
    forall i | 0 <= i < |front| ensures OrdinaryCall(front, i, w) && Call(front, i, w) == Call(history, i, w) {
      assert front[..i] == history[..i] && OrdinaryCall(history, i, w);
    }
  }

  /** A successful `Apply` from a state in which what stays has its containers leaves a complete state. */
  lemma SuccessCompletes(s: Infra, mc: string, nc: string, n: nat, m: nat, w: World)
    requires Intact(s, n, m) && Atoi(mc) == Some(n) && Atoi(nc) == Some(m) && NewAddresses(s, mc, nc, w)
    requires Applied(s, mc, nc, w).status == Success
    ensures Complete(Applied(s, mc, nc, w).infra)
  {
    var t := Applied(s, mc, nc, w).infra;
    ApplyOutcome(s, mc, nc, n, m, w);
    OutcomeRecorded(s, t, Master, n);
    OutcomeRecorded(s, t, Node, m);
  }

  /** Before the last call of a patient history, what stays for its counts has its containers. */
  lemma {:induction false} PatientIsIntact(history: seq<Counts>, n: nat, m: nat, w: World)
    requires history != [] && Ordinary(history, w) && Patient(history, w)
    requires Atoi(history[|history| - 1].masters) == Some(n) && Atoi(history[|history| - 1].nodes) == Some(m)
    ensures Intact(After(history[..|history| - 1], w), n, m)
  {
    var front := history[..|history| - 1];
    FrontIsPatient(history, w);
    if front == [] {
      CompleteIsIntact(UNTOUCHED, n, m);
    } else {
      var i := |front| - 1;
      var c, s := front[i], After(front[..i], w);
      assert OrdinaryCall(front, i, w) && front[..i] == history[..i];
      var n', m' := Atoi(c.masters).value, Atoi(c.nodes).value;
      PatientIsIntact(front, n', m', w);
      if history[i + 1] == history[i] {
        ApplyStaysIntact(s, c.masters, c.nodes, n, m, w);
      } else {
        assert Call(history, i, w).status == Success;
        SuccessCompletes(s, c.masters, c.nodes, n', m', w);
        CompleteIsIntact(After(front, w), n, m);
      }
    }
  }

  /** Over every history in which the wanted counts change only after a success, whatever fails in between: each call
      that succeeds leaves exactly the wanted numbers of live containers, none of them removed. */
  lemma PatientReachesLiveCounts(history: seq<Counts>, n: nat, m: nat, w: World)
    requires history != [] && Ordinary(history, w) && Patient(history, w) && FreshIds(w)
    requires Atoi(history[|history| - 1].masters) == Some(n) && Atoi(history[|history| - 1].nodes) == Some(m)
    requires Call(history, |history| - 1, w).status == Success
    ensures |Live(After(history, w), Master)| == n && |Live(After(history, w), Node)| == m
    ensures forall role, id :: id in Live(After(history, w), role) ==> id !in After(history, w).removed
  {
    var i := |history| - 1;
    var c := history[i];
    assert OrdinaryCall(history, i, w);
    PatientIsIntact(history, n, m, w);
    HistoryTracked(history[..i], w);
    ApplyLiveExactly(After(history[..i], w), c.masters, c.nodes, n, m, w);
  }

  // ---------------------------------------------------------------- a container that is missed

  /** Three masters are started; of two to remove, the first goes and the second cannot be removed. */
  ghost predicate LosesOne(w: World, a: IP, b: IP, c: IP, ia: Id, ib: Id, ic: Id)
  {
    && a != b && a != c && b != c && ia != ib && ib != ic && w.serverOk
    && w.run(0) == Started(ia, a) && w.run(1) == Started(ib, b) && w.run(2) == Started(ic, c)
    && w.removes(3) && !w.removes(4)
  }

  lemma ItoaDiffers(n: nat, m: nat)
    requires n != m
    ensures Itoa(n) != Itoa(m)
  {
    ValueItoa(n);
    ValueItoa(m);
  }

  lemma JoinOne(s: Infra, n: nat, t: Infra, ips: seq<IP>, w: World, ip: IP, id: Id)
    requires Join(s, n, w) == (t, ips, true) && w.run(t.clock) == Started(id, ip)
    ensures Join(s, n + 1, w) == (Tick(t).(annotations := Some(Annotations(t)[ip := id])), ips + [ip], true)
  {
  }

  lemma DeleteOne(s: Infra, front: seq<IP>, ip: IP, t: Infra, w: World)
    requires Delete(s, front, w) == (t, true) && ip in Annotations(t)
    ensures Delete(s, front + [ip], w) ==
            if !w.removes(t.clock) then (Tick(t), false)
            else (Tick(t).(annotations := Some(Annotations(t) - {ip}), removed := t.removed + [Annotations(t)[ip]]),
              true)
  {
    assert (front + [ip])[..|front|] == front;
  }

  lemma ThreeJoin(s: Infra, w: World, a: IP, b: IP, c: IP, ia: Id, ib: Id, ic: Id)
    requires LosesOne(w, a, b, c, ia, ib, ic) && s == Infra([], [], Some(map[]), [], 0)
    ensures Join(s, 3, w) == (Infra([], [], Some(map[a := ia, b := ib, c := ic]), [], 3), [a, b, c], true)
  {
    var m0: map<IP, Id> := map[];
    assert m0[a := ia] == map[a := ia] && m0[a := ia][b := ib] == map[a := ia, b := ib];
    assert m0[a := ia][b := ib][c := ic] == map[a := ia, b := ib, c := ic];
    var t1, t2 := Infra([], [], Some(map[a := ia]), [], 1), Infra([], [], Some(map[a := ia, b := ib]), [], 2);
    JoinOne(s, 0, s, [], w, a, ia);
    assert [] + [a] == [a] && [a] + [b] == [a, b] && [a, b] + [c] == [a, b, c];
    JoinOne(s, 1, t1, [a], w, b, ib);
    JoinOne(s, 2, t2, [a, b], w, c, ic);
  }

  lemma ThreeStart(w: World, a: IP, b: IP, c: IP, ia: Id, ib: Id, ic: Id)
    requires LosesOne(w, a, b, c, ia, ib, ic)
    ensures Applied(UNTOUCHED, Itoa(3), Itoa(0), w)
         == Outcome(Infra([a, b, c], [], Some(map[a := ia, b := ib, c := ic]), [], 3), Success)
  {
    var s := Infra([], [], Some(map[]), [], 0);
    ItoaDiffers(3, 0);
    DecimalCount(3);
    DecimalCount(0);
    DiffOfCount(Itoa(3), [], 3);
    DiffOfCount(Itoa(0), [], 0);
    ThreeJoin(s, w, a, b, c, ia, ib, ic);
    var t := Infra([a, b, c], [], Some(map[a := ia, b := ib, c := ic]), [], 3);
    assert [] + [a, b, c] == [a, b, c];
    assert ApplyRole(s, Master, Diff(3, []), w) == (t, true);
    assert s.nodes[0..] == [];
    assert ApplyRole(t, Node, Diff(0, []), w) == (t, true);
  }

  lemma FirstGoes(s: Infra, w: World, b: IP, c: IP)
    requires s.annotations.Some? && b != c && b in s.annotations.value && c in s.annotations.value
    requires w.removes(s.clock) && !w.removes(s.clock + 1)
    ensures Delete(s, [b, c], w)
         == (Infra(s.masters, s.nodes, Some(s.annotations.value - {b}), s.removed + [s.annotations.value[b]],
           s.clock + 2), false)
  {
    var t := Infra(s.masters, s.nodes, Some(s.annotations.value - {b}), s.removed + [s.annotations.value[b]],
      s.clock + 1);
    assert [] + [b] == [b] && [b] + [c] == [b, c];
    DeleteOne(s, [], b, s, w);
    DeleteOne(s, [b], c, t, w);
  }

  lemma OneGoes(s: Infra, w: World, a: IP, b: IP, c: IP, ia: Id, ib: Id, ic: Id)
    requires LosesOne(w, a, b, c, ia, ib, ic)
    requires s == Infra([a, b, c], [], Some(map[a := ia, b := ib, c := ic]), [], 3)
    ensures Delete(s, [b, c], w) == (Infra([a, b, c], [], Some(map[a := ia, c := ic]), [ib], 5), false)
  {
    FirstGoes(s, w, b, c);
    assert map[a := ia, b := ib, c := ic] - {b} == map[a := ia, c := ic] && [] + [ib] == [ib];
  }

  lemma OneGone(w: World, a: IP, b: IP, c: IP, ia: Id, ib: Id, ic: Id)
    requires LosesOne(w, a, b, c, ia, ib, ic)
    ensures Applied(Infra([a, b, c], [], Some(map[a := ia, b := ib, c := ic]), [], 3), Itoa(1), Itoa(0), w)
         == Outcome(Infra([a, b, c], [], Some(map[a := ia, c := ic]), [ib], 5), Failure)
  {
    var s := Infra([a, b, c], [], Some(map[a := ia, b := ib, c := ic]), [], 3);
    ItoaDiffers(1, 3);
    DecimalCount(1);
    DecimalCount(0);
    DiffOfCount(Itoa(1), [a, b, c], 1);
    DiffOfCount(Itoa(0), [], 0);
    assert [a, b, c][1..] == [b, c] && s.nodes[0..] == [];
    OneGoes(s, w, a, b, c, ia, ib, ic);
    assert ApplyRole(s, Master, Diff(0, [b, c]), w).1 == false;
  }

  /** After a partly failed scale-down of three masters to one, `Apply` for three masters again reports success and
      starts nothing, however well the provider works from then on: b is listed, and only two containers are live. */
  lemma LostContainerStaysListed(w: World, a: IP, b: IP, c: IP, ia: Id, ib: Id, ic: Id)
    requires LosesOne(w, a, b, c, ia, ib, ic)
    ensures var s := After([Counts(Itoa(3), Itoa(0)), Counts(Itoa(1), Itoa(0))], w);
            var r := Applied(s, Itoa(3), Itoa(0), w);
            && r.status == Success && r.infra == s && s.masters == [a, b, c]
            && b !in Annotations(s) && ib in s.removed && Live(s, Master) == {ia, ic}
  {
    var first, second := Counts(Itoa(3), Itoa(0)), Counts(Itoa(1), Itoa(0));
    ThreeStart(w, a, b, c, ia, ib, ic);
    OneGone(w, a, b, c, ia, ib, ic);
    AfterTwo(first, second, w);
    LiveOfTwo(a, b, c, ia, ic);
  }

  lemma AfterTwo(first: Counts, second: Counts, w: World)
    ensures After([first, second], w)
         == Applied(Applied(UNTOUCHED, first.masters, first.nodes, w).infra, second.masters, second.nodes, w).infra
  {
    assert [first, second][..1] == [first] && [first][..0] == [];
    assert After([first], w) == Applied(UNTOUCHED, first.masters, first.nodes, w).infra;
  }

  lemma LiveOfTwo(a: IP, b: IP, c: IP, ia: Id, ic: Id)
    requires a != b && a != c && b != c
    ensures LiveOf(map[a := ia, c := ic], [a, b, c]) == {ia, ic}
  {
    var m := map[a := ia, c := ic];
    assert m[a] == ia && m[c] == ic && a in [a, b, c] && c in [a, b, c];
  }
}
