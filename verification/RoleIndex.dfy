/**
 The two indexes of `NewInfraDriver` (`pkg/infradriver/ssh_infradriver.go`) over the host groups.

 The entry of a role starts as the very address list of its first group, not as a copy of it, and then grows by
 `append`.  While the array behind that list has room the addresses are written into it, in place, so roles with the
 same first group write over each other; only when the room is used up does an entry get an array of its own.
 */
module RoleIndex {
  import opened Hosts

  /** The entry of a role: the first so many slots of the array of a group, or a list of its own. */
  datatype Entry = Window(group: nat, length: nat) | Private(ips: seq<IP>)

  /** The arrays behind the address lists of the groups, each as long as its capacity, and the role index. */
  datatype Memory = Memory(arrays: seq<seq<IP>>, index: map<string, Entry>)

  /** Every window lies inside its array. */
  predicate Sane(m: Memory)
  {
    forall role :: role in m.index && m.index[role].Window? ==>
      m.index[role].group < |m.arrays| && m.index[role].length <= |m.arrays[m.index[role].group]|
  }

  function Overwrite(a: seq<IP>, at: nat, ips: seq<IP>): (r: seq<IP>)
    requires at + |ips| <= |a|
    ensures |r| == |a| && r[..at + |ips|] == a[..at] + ips
    ensures forall p :: 0 <= p < |a| ==> r[p] == if at <= p < at + |ips| then ips[p - at] else a[p]
  {
    a[..at] + ips + a[at + |ips|..]
  }

  /** The addresses of one group are added to the entry of one of its roles. */
  function Enlist(m: Memory, role: string, group: nat, ips: seq<IP>): Memory
    requires Sane(m)
  {
    if role !in m.index then m.(index := m.index[role := Window(group, |ips|)])
    else
      match m.index[role]
      case Private(own) => m.(index := m.index[role := Private(own + ips)])
      case Window(g, n) =>
        if n + |ips| <= |m.arrays[g]|
        then Memory(m.arrays[g := Overwrite(m.arrays[g], n, ips)], m.index[role := Window(g, n + |ips|)])
        else m.(index := m.index[role := Private(m.arrays[g][..n] + ips)])
  }

  /** `GetHostIPListByRole` */
  function Read(m: Memory, role: string): seq<IP>
    requires Sane(m)
  {
    if role !in m.index then []
    else
      match m.index[role]
      case Private(own) => own
      case Window(g, n) => m.arrays[g][..n]
  }

  // ---------------------------------------------------------------- the loops, visit by visit

  /** A group and one of its roles, in the order of the nested loops. */
  datatype Visit = Visit(group: nat, role: string)

  function VisitsOf(i: nat, roles: seq<string>): seq<Visit>
  {
    seq(|roles|, k requires 0 <= k < |roles| => Visit(i, roles[k]))
  }

  function Visits(groups: seq<Group>): seq<Visit>
  {
    if groups == [] then []
    else Visits(groups[..|groups| - 1]) + VisitsOf(|groups| - 1, groups[|groups| - 1].roles)
  }

  /** The groups exist, and each array holds at least its group's addresses. */
  ghost predicate Sized(groups: seq<Group>, caps: seq<nat>)
  {
    |caps| == |groups| && forall i :: 0 <= i < |groups| ==> |groups[i].ips| <= caps[i]
  }

  ghost predicate Inside(vs: seq<Visit>, groups: seq<Group>)
  {
    forall j :: 0 <= j < |vs| ==> vs[j].group < |groups|
  }

  function Start(groups: seq<Group>, caps: seq<nat>): Memory
    requires Sized(groups, caps)
  {
    Memory(seq(|groups|, i requires 0 <= i < |groups| => groups[i].ips + seq(caps[i] - |groups[i].ips|, _ => NIL_IP)),
      map[])
  }

  /** The addresses the visits gather for a role: what its entry should be. */
  function Gathered(vs: seq<Visit>, groups: seq<Group>, role: string): seq<IP>
    requires Inside(vs, groups)
  {
    if vs == [] then []
    else
      var front, v := vs[..|vs| - 1], vs[|vs| - 1];
      Gathered(front, groups, role) + if v.role == role then groups[v.group].ips else []
  }

  predicate Occurs(vs: seq<Visit>, role: string)
  {
    exists j :: 0 <= j < |vs| && vs[j].role == role
  }

  /** The group of the first visit for a role. */
  function FirstGroup(vs: seq<Visit>, role: string): nat
  {
    if vs == [] then 0
    else
      var front, v := vs[..|vs| - 1], vs[|vs| - 1];
      if Occurs(front, role) || v.role != role then FirstGroup(front, role) else v.group
  }

  /** What the state looks like after some visits, apart from the contents of the spare slots. */
  ghost predicate Shaped(m: Memory, vs: seq<Visit>, groups: seq<Group>, caps: seq<nat>)
    requires Sized(groups, caps) && Inside(vs, groups)
  {
    && |m.arrays| == |groups|
    && (forall i :: 0 <= i < |groups| ==> |m.arrays[i]| == caps[i] && groups[i].ips <= m.arrays[i])
    && forall role :: EntryShaped(m, vs, groups, caps, role)
  }

  ghost predicate EntryShaped(m: Memory, vs: seq<Visit>, groups: seq<Group>, caps: seq<nat>, role: string)
    requires Sized(groups, caps) && Inside(vs, groups)
  {
    && (role in m.index <==> Occurs(vs, role))
    && (role in m.index ==>
          var n, g := |Gathered(vs, groups, role)|, FirstGroup(vs, role);
          && g < |groups| && |groups[g].ips| <= n
          && if n <= caps[g] then m.index[role] == Window(g, n) else m.index[role].Private? && |m.index[role].ips| == n)
  }

  lemma ShapedIsSane(m: Memory, vs: seq<Visit>, groups: seq<Group>, caps: seq<nat>)
    requires Sized(groups, caps) && Inside(vs, groups) && Shaped(m, vs, groups, caps)
    ensures Sane(m)
  {
    forall role | role in m.index && m.index[role].Window?
      ensures m.index[role].group < |m.arrays| && m.index[role].length <= |m.arrays[m.index[role].group]|
    {
      assert EntryShaped(m, vs, groups, caps, role);
    }
  }

  lemma GatheredSnoc(vs: seq<Visit>, v: Visit, groups: seq<Group>, role: string)
    requires Inside(vs, groups) && v.group < |groups|
    ensures Inside(vs + [v], groups)
    ensures Gathered(vs + [v], groups, role) == Gathered(vs, groups, role) + if v.role == role
            then groups[v.group].ips else []
    ensures Occurs(vs + [v], role) <==> Occurs(vs, role) || v.role == role
    ensures FirstGroup(vs + [v], role) == if Occurs(vs, role) || v.role != role then FirstGroup(vs, role) else v.group
  {
    var all := vs + [v];
    assert all[..|vs|] == vs && all[|vs|] == v;
    if Occurs(vs, role) {
      var j :| 0 <= j < |vs| && vs[j].role == role;
      assert all[j].role == role;
    }
  }

  lemma {:induction false} NothingGathered(vs: seq<Visit>, groups: seq<Group>, role: string)
    requires Inside(vs, groups) && !Occurs(vs, role)
    ensures Gathered(vs, groups, role) == []
  {
    if vs != [] {
      var front, v := vs[..|vs| - 1], vs[|vs| - 1];
      assert vs == front + [v];
      GatheredSnoc(front, v, groups, role);
      NothingGathered(front, groups, role);
    }
  }

  lemma EnlistShapesEntry(m: Memory, vs: seq<Visit>, v: Visit, groups: seq<Group>, caps: seq<nat>, role: string)
    requires Sized(groups, caps) && Inside(vs, groups) && Shaped(m, vs, groups, caps) && v.group < |groups| && Sane(m)
    ensures Inside(vs + [v], groups)
    ensures EntryShaped(Enlist(m, v.role, v.group, groups[v.group].ips), vs + [v], groups, caps, role)
  {
    GatheredSnoc(vs, v, groups, role);
    assert EntryShaped(m, vs, groups, caps, role) && EntryShaped(m, vs, groups, caps, v.role);
    if !Occurs(vs, role) {
      NothingGathered(vs, groups, role);
    }
  }

  lemma EnlistShapes(m: Memory, vs: seq<Visit>, v: Visit, groups: seq<Group>, caps: seq<nat>)
    requires Sized(groups, caps) && Inside(vs, groups) && Shaped(m, vs, groups, caps) && v.group < |groups| && Sane(m)
    ensures Inside(vs + [v], groups) && Shaped(Enlist(m, v.role, v.group, groups[v.group].ips), vs + [v], groups, caps)
  {
    var m' := Enlist(m, v.role, v.group, groups[v.group].ips);
    assert EntryShaped(m, vs, groups, caps, v.role);
    forall role ensures Inside(vs + [v], groups) && EntryShaped(m', vs + [v], groups, caps, role) {
      EnlistShapesEntry(m, vs, v, groups, caps, role);
    }
    forall i | 0 <= i < |groups| ensures |m'.arrays[i]| == caps[i] && groups[i].ips <= m'.arrays[i] {
      assert groups[i].ips <= m.arrays[i];
    }
  }

  /** The state after these visits. */
  ghost function After(vs: seq<Visit>, groups: seq<Group>, caps: seq<nat>): (m: Memory)
    requires Sized(groups, caps) && Inside(vs, groups)
    ensures Shaped(m, vs, groups, caps) && Sane(m)
  {
    if vs == [] then
      var m := Start(groups, caps);
      ShapedIsSane(m, vs, groups, caps);
      m
    else
      var front, v := vs[..|vs| - 1], vs[|vs| - 1];
      assert vs == front + [v];
      var m := After(front, groups, caps);
      EnlistShapes(m, front, v, groups, caps);
      var m' := Enlist(m, v.role, v.group, groups[v.group].ips);
      ShapedIsSane(m', vs, groups, caps);
      m'
  }

  // ---------------------------------------------------------------- when the index agrees with the scan

  /** Roles with the same first group want the same addresses in the spare slots of its array. */
  ghost predicate Compatible(vs: seq<Visit>, groups: seq<Group>, caps: seq<nat>)
    requires Sized(groups, caps) && Inside(vs, groups)
  {
    forall a, b, p | Occurs(vs, a) && Occurs(vs, b) :: !Clash(vs, groups, caps, a, b, p)
  }

  /** Roles `a` and `b` start in the same array, and want different addresses in its spare slot `p`. */
  ghost predicate Clash(vs: seq<Visit>, groups: seq<Group>, caps: seq<nat>, a: string, b: string, p: int)
    requires Sized(groups, caps) && Inside(vs, groups)
  {
    var g, xs, ys := FirstGroup(vs, a), Gathered(vs, groups, a), Gathered(vs, groups, b);
    && g == FirstGroup(vs, b) && g < |groups| && |groups[g].ips| <= p < caps[g]
    && p < |xs| && p < |ys| && xs[p] != ys[p]
  }

  lemma ClashStays(vs: seq<Visit>, v: Visit, groups: seq<Group>, caps: seq<nat>, a: string, b: string, p: int)
    requires Sized(groups, caps) && Inside(vs, groups) && v.group < |groups| && Inside(vs + [v], groups)
    requires Occurs(vs, a) && Occurs(vs, b) && Clash(vs, groups, caps, a, b, p)
    ensures Occurs(vs + [v], a) && Occurs(vs + [v], b) && Clash(vs + [v], groups, caps, a, b, p)
  {
    GatheredSnoc(vs, v, groups, a);
    GatheredSnoc(vs, v, groups, b);
  }

  lemma CompatibleFront(vs: seq<Visit>, v: Visit, groups: seq<Group>, caps: seq<nat>)
    requires Sized(groups, caps) && Inside(vs, groups) && v.group < |groups| && Inside(vs + [v], groups)
    requires Compatible(vs + [v], groups, caps)
    ensures Compatible(vs, groups, caps)
  {
    forall a, b, p | Occurs(vs, a) && Occurs(vs, b) ensures !Clash(vs, groups, caps, a, b, p) {
      if Clash(vs, groups, caps, a, b, p) {
        ClashStays(vs, v, groups, caps, a, b, p);
      }
    }
  }

  // ---------------------------------------------------------------- who wrote a slot last

  /** The list of the role still fits the array it started in. */
  ghost predicate InPlace(vs: seq<Visit>, groups: seq<Group>, caps: seq<nat>, role: string)
    requires Sized(groups, caps) && Inside(vs, groups)
  {
    Occurs(vs, role) ==> FirstGroup(vs, role) < |groups| && |Gathered(vs, groups, role)| <= caps[FirstGroup(vs, role)]
  }

  /** The visits up to which the entry of the role stays in its first array. */
  ghost function UntilCopied(vs: seq<Visit>, groups: seq<Group>, caps: seq<nat>, role: string): (u: seq<Visit>)
    requires Sized(groups, caps) && Inside(vs, groups)
    ensures u <= vs && InPlace(u, groups, caps, role)
  {
    if vs == [] || InPlace(vs, groups, caps, role) then vs else UntilCopied(vs[..|vs| - 1], groups, caps, role)
  }

  /** The visit `v` after `front` extends the entry of its role, in place, over slot `p` of array `g`. */
  ghost predicate Takes(front: seq<Visit>, v: Visit, groups: seq<Group>, caps: seq<nat>, g: nat, p: nat)
    requires Sized(groups, caps) && Inside(front, groups) && v.group < |groups| && g < |groups|
  {
    var n := |Gathered(front, groups, v.role)|;
    Occurs(front, v.role) && FirstGroup(front, v.role) == g && n <= p < n + |groups[v.group].ips| <= caps[g]
  }

  /** The role that wrote a slot last; "" when none did. */
  ghost function LastTaker(vs: seq<Visit>, groups: seq<Group>, caps: seq<nat>, g: nat, p: nat): string
    requires Sized(groups, caps) && Inside(vs, groups) && g < |groups|
  {
    if vs == [] then ""
    else if Takes(vs[..|vs| - 1], vs[|vs| - 1], groups, caps, g, p) then vs[|vs| - 1].role
    else LastTaker(vs[..|vs| - 1], groups, caps, g, p)
  }

  ghost predicate Written(vs: seq<Visit>, groups: seq<Group>, caps: seq<nat>, g: nat, p: nat)
    requires Sized(groups, caps) && Inside(vs, groups) && g < |groups|
  {
    var q := LastTaker(vs, groups, caps, g, p);
    Occurs(vs, q) && FirstGroup(vs, q) == g && p < |Gathered(vs, groups, q)|
  }

  ghost predicate SomebodyReaches(vs: seq<Visit>, groups: seq<Group>, caps: seq<nat>, g: nat, p: nat, role: string)
    requires Sized(groups, caps) && Inside(vs, groups) && g < |groups|
  {
    Occurs(vs, role) && FirstGroup(vs, role) == g && p < |Gathered(vs, groups, role)| && InPlace(vs, groups, caps, role)
  }

  /** What a visit does to one slot. */
  lemma EnlistSlot(m: Memory, vs: seq<Visit>, v: Visit, groups: seq<Group>, caps: seq<nat>, g: nat, p: nat)
    requires Sized(groups, caps) && Inside(vs, groups) && Shaped(m, vs, groups, caps) && Sane(m)
    requires v.group < |groups| && g < |groups| && p < caps[g]
    ensures var m' := Enlist(m, v.role, v.group, groups[v.group].ips);
            && |m'.arrays| == |groups| && |m'.arrays[g]| == caps[g]
            && m'.arrays[g][p] ==
               if Takes(vs, v, groups, caps, g, p) then groups[v.group].ips[p - |Gathered(vs, groups, v.role)|]
                 else m.arrays[g][p]
  {
    assert EntryShaped(m, vs, groups, caps, v.role);
  }

  /** A spare slot that a role reached in place holds what its last taker gathered there. */
  lemma {:induction false} SlotHolds(vs: seq<Visit>, groups: seq<Group>, caps: seq<nat>, g: nat, p: nat, role: string)
    requires Sized(groups, caps) && Inside(vs, groups) && g < |groups| && |groups[g].ips| <= p < caps[g]
    requires SomebodyReaches(vs, groups, caps, g, p, role)
    ensures Written(vs, groups, caps, g, p)
    ensures After(vs, groups, caps).arrays[g][p] == Gathered(vs, groups, LastTaker(vs, groups, caps, g, p))[p]
  {
    var front, v := vs[..|vs| - 1], vs[|vs| - 1];
    assert vs == front + [v];
    EnlistSlot(After(front, groups, caps), front, v, groups, caps, g, p);
    GatheredSnoc(front, v, groups, v.role);
    GatheredSnoc(front, v, groups, role);
    if !Takes(front, v, groups, caps, g, p) {
      ReachedBefore(front, v, groups, caps, g, p, role);
      SlotHolds(front, groups, caps, g, p, role);
      GatheredSnoc(front, v, groups, LastTaker(front, groups, caps, g, p));
    }
  }

  lemma ReachedBefore(front: seq<Visit>, v: Visit, groups: seq<Group>, caps: seq<nat>, g: nat, p: nat, role: string)
    requires Sized(groups, caps) && Inside(front, groups) && v.group < |groups| && Inside(front + [v], groups)
    requires g < |groups| && |groups[g].ips| <= p < caps[g]
    requires SomebodyReaches(front + [v], groups, caps, g, p, role) && !Takes(front, v, groups, caps, g, p)
    ensures SomebodyReaches(front, groups, caps, g, p, role)
  {
    GatheredSnoc(front, v, groups, role);
    if !Occurs(front, role) {
      NothingGathered(front, groups, role);
      assert false;
    }
  }

  // ---------------------------------------------------------------- exactly

  lemma Associate(a: seq<IP>, b: seq<IP>, c: seq<IP>)
    ensures a + (b + c) == a + b + c
  {
  }

  /** What a role reads is what its window held when it was copied, or holds at the end, and then its own. */
  lemma {:induction false} ReadSplits(vs: seq<Visit>, groups: seq<Group>, caps: seq<nat>, role: string)
    returns (own: seq<IP>)
    requires Sized(groups, caps) && Inside(vs, groups)
    ensures Inside(UntilCopied(vs, groups, caps, role), groups)
    ensures Gathered(vs, groups, role) == Gathered(UntilCopied(vs, groups, caps, role), groups, role) + own
    ensures Read(After(vs, groups, caps), role) ==
            Read(After(UntilCopied(vs, groups, caps, role), groups, caps), role) + own
  {
    if vs == [] || InPlace(vs, groups, caps, role) {
      own := [];
    } else {
      var front, v := vs[..|vs| - 1], vs[|vs| - 1];
      var u, more := UntilCopied(front, groups, caps, role), if v.role == role then groups[v.group].ips else [];
      assert vs == front + [v];
      var before := ReadSplits(front, groups, caps, role);
      GatheredSnoc(front, v, groups, role);
      ReadCopied(front, v, groups, caps, role);
      Associate(Gathered(u, groups, role), before, more);
      Associate(Read(After(u, groups, caps), role), before, more);
      own := before + more;
    }
  }

  lemma EnlistLeavesArray(m: Memory, role: string, group: nat, ips: seq<IP>, other: string)
    requires Sane(m) && Sane(Enlist(m, role, group, ips))
    requires other in m.index && Enlist(m, role, group, ips).index[other].Private?
    ensures Read(Enlist(m, role, group, ips), other) == Read(m, other) + if role == other then ips else []
  {
  }

  /** An entry outside its first array only grows by its own addresses. */
  lemma ReadCopied(front: seq<Visit>, v: Visit, groups: seq<Group>, caps: seq<nat>, role: string)
    requires Sized(groups, caps) && Inside(front, groups) && v.group < |groups| && Inside(front + [v], groups)
    requires !InPlace(front + [v], groups, caps, role)
    ensures Read(After(front + [v], groups, caps), role)
         == Read(After(front, groups, caps), role) + if v.role == role then groups[v.group].ips else []
  {
    var vs, m := front + [v], After(front, groups, caps);
    assert vs[..|front|] == front && vs[|front|] == v;
    NotInPlaceOccurs(front, v, groups, caps, role);
    assert EntryShaped(m, front, groups, caps, role);
    assert EntryShaped(After(vs, groups, caps), vs, groups, caps, role);
    EnlistLeavesArray(m, v.role, v.group, groups[v.group].ips, role);
  }

  lemma NotInPlaceOccurs(front: seq<Visit>, v: Visit, groups: seq<Group>, caps: seq<nat>, role: string)
    requires Sized(groups, caps) && Inside(front, groups) && v.group < |groups| && Inside(front + [v], groups)
    requires !InPlace(front + [v], groups, caps, role)
    ensures Occurs(front, role) && Occurs(front + [v], role)
  {
    GatheredSnoc(front, v, groups, role);
    if !Occurs(front, role) {
      NothingGathered(front, groups, role);
    }
  }

  /** In every spare slot of its window the last taker wanted the same address as the role itself. */
  ghost predicate Undamaged(u: seq<Visit>, groups: seq<Group>, caps: seq<nat>, role: string)
    requires Sized(groups, caps) && Inside(u, groups) && FirstGroup(u, role) < |groups|
  {
    var g, xs := FirstGroup(u, role), Gathered(u, groups, role);
    forall p :: |groups[g].ips| <= p < |xs| ==> SlotKept(u, groups, caps, g, p, xs[p])
  }

  ghost predicate SlotKept(u: seq<Visit>, groups: seq<Group>, caps: seq<nat>, g: nat, p: nat, ip: IP)
    requires Sized(groups, caps) && Inside(u, groups) && g < |groups|
  {
    Written(u, groups, caps, g, p) && Gathered(u, groups, LastTaker(u, groups, caps, g, p))[p] == ip
  }

  lemma WindowExactly(u: seq<Visit>, groups: seq<Group>, caps: seq<nat>, role: string)
    requires Sized(groups, caps) && Inside(u, groups) && Occurs(u, role) && InPlace(u, groups, caps, role)
    ensures FirstGroup(u, role) < |groups|
    ensures Read(After(u, groups, caps), role) == Gathered(u, groups, role) <==> Undamaged(u, groups, caps, role)
  {
    var m, g, xs := After(u, groups, caps), FirstGroup(u, role), Gathered(u, groups, role);
    assert EntryShaped(m, u, groups, caps, role);
    OwnFirst(u, groups, role);
    var ys := Read(m, role);
    assert |ys| == |xs|;
    forall p | 0 <= p < |xs| ensures p < |groups[g].ips| ==> ys[p] == xs[p] {
      assert groups[g].ips <= m.arrays[g];
    }
    forall p | |groups[g].ips| <= p < |xs| ensures ys[p] == xs[p] <==> SlotKept(u, groups, caps, g, p, xs[p]) {
      SlotHolds(u, groups, caps, g, p, role);
    }
  }

  /** The gathered list begins with the addresses of the first group. */
  lemma {:induction false} OwnFirst(vs: seq<Visit>, groups: seq<Group>, role: string)
    requires Inside(vs, groups) && Occurs(vs, role)
    ensures FirstGroup(vs, role) < |groups| && groups[FirstGroup(vs, role)].ips <= Gathered(vs, groups, role)
  {
    var front, v := vs[..|vs| - 1], vs[|vs| - 1];
    assert vs == front + [v];
    GatheredSnoc(front, v, groups, role);
    if Occurs(front, role) {
      OwnFirst(front, groups, role);
    } else {
      NothingGathered(front, groups, role);
    }
  }

  lemma {:induction false} CopiedOccurs(vs: seq<Visit>, groups: seq<Group>, caps: seq<nat>, role: string)
    requires Sized(groups, caps) && Inside(vs, groups) && Occurs(vs, role)
    ensures Inside(UntilCopied(vs, groups, caps, role), groups) && Occurs(UntilCopied(vs, groups, caps, role), role)
    ensures FirstGroup(UntilCopied(vs, groups, caps, role), role) == FirstGroup(vs, role) < |groups|
  {
    OwnFirst(vs, groups, role);
    if !InPlace(vs, groups, caps, role) {
      var front, v := vs[..|vs| - 1], vs[|vs| - 1];
      assert vs == front + [v];
      GatheredSnoc(front, v, groups, role);
      if !Occurs(front, role) {
        NothingGathered(front, groups, role);
      } else {
        CopiedOccurs(front, groups, caps, role);
      }
    }
  }

  /** Exactly when a role is read back as gathered, whatever the capacities: when in each spare slot of its window, up
      to the moment it got an array of its own, the last role to write there wanted the same address. */
  lemma ReadExactly(vs: seq<Visit>, groups: seq<Group>, caps: seq<nat>, role: string)
    requires Sized(groups, caps) && Inside(vs, groups) && Occurs(vs, role)
    ensures var u := UntilCopied(vs, groups, caps, role);
            && Inside(u, groups) && FirstGroup(u, role) < |groups|
            && (Read(After(vs, groups, caps), role) == Gathered(vs, groups, role) <==> Undamaged(u, groups, caps, role))
  {
    var u := UntilCopied(vs, groups, caps, role);
    CopiedOccurs(vs, groups, caps, role);
    WindowExactly(u, groups, caps, role);
    var own := ReadSplits(vs, groups, caps, role);
    var xs, ys := Gathered(u, groups, role), Read(After(u, groups, caps), role);
    assert EntryShaped(After(u, groups, caps), u, groups, caps, role);
    SamePrefix(xs, ys, own);
  }

  lemma SamePrefix(xs: seq<IP>, ys: seq<IP>, zs: seq<IP>)
    requires |xs| == |ys|
    ensures ys + zs == xs + zs <==> ys == xs
  {
    if ys + zs == xs + zs {
      assert ys == (ys + zs)[..|ys|] == (xs + zs)[..|xs|] == xs;
    }
  }

  /** Compatible roles are read back exactly as gathered. */
  lemma CompatibleAgrees(vs: seq<Visit>, groups: seq<Group>, caps: seq<nat>, role: string)
    requires Sized(groups, caps) && Inside(vs, groups) && Compatible(vs, groups, caps)
    ensures Read(After(vs, groups, caps), role) == Gathered(vs, groups, role)
  {
    var m := After(vs, groups, caps);
    assert EntryShaped(m, vs, groups, caps, role);
    if Occurs(vs, role) {
      var u := UntilCopied(vs, groups, caps, role);
      ReadExactly(vs, groups, caps, role);
      CopiedOccurs(vs, groups, caps, role);
      CompatiblePrefix(vs, u, groups, caps);
      var g, xs := FirstGroup(u, role), Gathered(u, groups, role);
      forall p | |groups[g].ips| <= p < |xs| ensures SlotKept(u, groups, caps, g, p, xs[p]) {
        SlotHolds(u, groups, caps, g, p, role);
        assert !Clash(u, groups, caps, role, LastTaker(u, groups, caps, g, p), p);
      }
    } else {
      NothingGathered(vs, groups, role);
    }
  }

  lemma {:induction false} CompatiblePrefix(vs: seq<Visit>, u: seq<Visit>, groups: seq<Group>, caps: seq<nat>)
    requires Sized(groups, caps) && Inside(vs, groups) && Compatible(vs, groups, caps) && u <= vs
    ensures Inside(u, groups) && Compatible(u, groups, caps)
  {
    if u == vs {
    } else {
      var front, v := vs[..|vs| - 1], vs[|vs| - 1];
      assert vs == front + [v] && u <= front;
      CompatibleFront(front, v, groups, caps);
      CompatiblePrefix(front, u, groups, caps);
    }
  }

  /** Every array has room for the whole list of each role that starts in it. */
  ghost predicate Roomy(vs: seq<Visit>, groups: seq<Group>, caps: seq<nat>)
    requires Sized(groups, caps) && Inside(vs, groups)
  {
    forall role | Occurs(vs, role) :: FirstGroup(vs, role) < |groups|
      && |Gathered(vs, groups, role)| <= caps[FirstGroup(vs, role)]
  }

  /** Two roles that clash in an array with room for both cannot both be read back. */
  lemma ClashShows(vs: seq<Visit>, groups: seq<Group>, caps: seq<nat>, a: string, b: string, p: int)
    requires Sized(groups, caps) && Inside(vs, groups) && Occurs(vs, a) && Occurs(vs, b)
             && Clash(vs, groups, caps, a, b, p)
    requires |Gathered(vs, groups, a)| <= caps[FirstGroup(vs, a)]
             && |Gathered(vs, groups, b)| <= caps[FirstGroup(vs, b)]
    ensures Read(After(vs, groups, caps), a) != Gathered(vs, groups, a)
            || Read(After(vs, groups, caps), b) != Gathered(vs, groups, b)
  {
    var m := After(vs, groups, caps);
    assert EntryShaped(m, vs, groups, caps, a) && EntryShaped(m, vs, groups, caps, b);
    assert Read(m, a)[p] == Read(m, b)[p];
  }

  // ---------------------------------------------------------------- the whole index

  lemma {:induction false} VisitsInside(groups: seq<Group>)
    ensures Inside(Visits(groups), groups)
  {
    if groups != [] {
      VisitsInside(groups[..|groups| - 1]);
    }
  }

  /** The memory after both loops. */
  ghost function Built(groups: seq<Group>, caps: seq<nat>): (m: Memory)
    requires Sized(groups, caps)
    ensures Sane(m)
  {
    VisitsInside(groups);
    After(Visits(groups), groups, caps)
  }

  lemma {:induction false} GatheredPrefix(vs: seq<Visit>, front: seq<Group>, groups: seq<Group>, role: string)
    requires front <= groups && Inside(vs, front)
    ensures Inside(vs, groups) && Gathered(vs, groups, role) == Gathered(vs, front, role)
  {
    if vs != [] {
      GatheredPrefix(vs[..|vs| - 1], front, groups, role);
    }
  }

  lemma {:induction false} GatheredOfGroup(vs: seq<Visit>, groups: seq<Group>, i: nat, roles: seq<string>, role: string)
    requires Inside(vs, groups) && i < |groups|
    ensures Inside(vs + VisitsOf(i, roles), groups)
    ensures Gathered(vs + VisitsOf(i, roles), groups, role) ==
            Gathered(vs, groups, role) + Times(role, roles, groups[i].ips)
  {
    if roles == [] {
      assert vs + VisitsOf(i, roles) == vs;
    } else {
      var n := |roles| - 1;
      GatheredOfGroup(vs, groups, i, roles[..n], role);
      VisitsOfSnoc(vs, i, roles, n);
      GatheredSnoc(vs + VisitsOf(i, roles[..n]), Visit(i, roles[n]), groups, role);
      Associate(Gathered(vs, groups, role), Times(role, roles[..n], groups[i].ips), if roles[n] == role
        then groups[i].ips else []);
    }
  }

  lemma VisitsOfSnoc(vs: seq<Visit>, i: nat, roles: seq<string>, n: nat)
    requires n < |roles|
    ensures vs + VisitsOf(i, roles[..n + 1]) == vs + VisitsOf(i, roles[..n]) + [Visit(i, roles[n])]
    ensures n + 1 == |roles| ==> roles[..n + 1] == roles
  {
  }

  /** What the loops gather is the linear scan. */
  lemma {:induction false} GatheredIsByRole(groups: seq<Group>, role: string)
    ensures Inside(Visits(groups), groups) && Gathered(Visits(groups), groups, role) == ByRole(groups, role)
  {
    VisitsInside(groups);
    if groups != [] {
      var n := |groups| - 1;
      VisitsInside(groups[..n]);
      GatheredIsByRole(groups[..n], role);
      GatheredPrefix(Visits(groups[..n]), groups[..n], groups, role);
      GatheredOfGroup(Visits(groups[..n]), groups, n, groups[n].roles, role);
    }
  }

  /** Whatever the capacities: the index entry of a role is the linear scan if and only if, in each spare slot of its
      window up to the moment it got an array of its own, the last role to write there wanted the same address. */
  lemma IndexExactly(groups: seq<Group>, caps: seq<nat>, role: string)
    requires Sized(groups, caps) && Occurs(Visits(groups), role)
    ensures Inside(Visits(groups), groups)
    ensures var u := UntilCopied(Visits(groups), groups, caps, role);
            && Inside(u, groups) && FirstGroup(u, role) < |groups|
            && (Read(Built(groups, caps), role) == ByRole(groups, role) <==> Undamaged(u, groups, caps, role))
  {
    GatheredIsByRole(groups, role);
    ReadExactly(Visits(groups), groups, caps, role);
  }

  /** The index is the linear scan for every role when no two roles clash. */
  lemma IndexAgrees(groups: seq<Group>, caps: seq<nat>, role: string)
    requires Sized(groups, caps) && Inside(Visits(groups), groups) && Compatible(Visits(groups), groups, caps)
    ensures Read(Built(groups, caps), role) == ByRole(groups, role)
  {
    GatheredIsByRole(groups, role);
    CompatibleAgrees(Visits(groups), groups, caps, role);
  }

  ghost predicate IndexIsScan(groups: seq<Group>, caps: seq<nat>)
    requires Sized(groups, caps)
  {
    forall role :: Read(Built(groups, caps), role) == ByRole(groups, role)
  }

  /** With room for every list, it is the linear scan for every role if and only if no two roles clash. */
  lemma RoomyIndexExactly(groups: seq<Group>, caps: seq<nat>)
    requires Sized(groups, caps) && Inside(Visits(groups), groups) && Roomy(Visits(groups), groups, caps)
    ensures IndexIsScan(groups, caps) <==> Compatible(Visits(groups), groups, caps)
  {
    var vs := Visits(groups);
    if Compatible(vs, groups, caps) {
      forall role ensures Read(Built(groups, caps), role) == ByRole(groups, role) {
        IndexAgrees(groups, caps, role);
      }
    } else {
      var a, b, p :| Occurs(vs, a) && Occurs(vs, b) && Clash(vs, groups, caps, a, b, p);
      ClashShows(vs, groups, caps, a, b, p);
      GatheredIsByRole(groups, a);
      GatheredIsByRole(groups, b);
      assert Read(Built(groups, caps), a) != ByRole(groups, a) || Read(Built(groups, caps), b) != ByRole(groups, b);
    }
  }

  /** No two roles begin with the same group. */
  ghost predicate SeparateStarts(vs: seq<Visit>)
  {
    forall a, b | Occurs(vs, a) && Occurs(vs, b) && a != b :: FirstGroup(vs, a) != FirstGroup(vs, b)
  }

  lemma SeparateStartsAgree(groups: seq<Group>, caps: seq<nat>, role: string)
    requires Sized(groups, caps) && SeparateStarts(Visits(groups))
    ensures Read(Built(groups, caps), role) == ByRole(groups, role)
  {
    VisitsInside(groups);
    IndexAgrees(groups, caps, role);
  }

  lemma {:induction false} VisitedRole(groups: seq<Group>, j: nat)
    requires j < |Visits(groups)|
    ensures Visits(groups)[j].group < |groups| && Visits(groups)[j].role in groups[Visits(groups)[j].group].roles
  {
    var n := |groups| - 1;
    if j < |Visits(groups[..n])| {
      VisitedRole(groups[..n], j);
    }
  }

  lemma {:induction false} FirstVisit(vs: seq<Visit>, role: string) returns (j: nat)
    requires Occurs(vs, role)
    ensures j < |vs| && vs[j] == Visit(FirstGroup(vs, role), role)
  {
    var n := |vs| - 1;
    if Occurs(vs[..n], role) {
      j := FirstVisit(vs[..n], role);
    } else {
      j := n;
    }
  }

  /** In particular when each group has one role, as for the groups that scale-up makes. */
  lemma OneRoleEachAgrees(groups: seq<Group>, caps: seq<nat>, role: string)
    requires Sized(groups, caps)
    requires forall i, a, b :: 0 <= i < |groups| && a in groups[i].roles && b in groups[i].roles ==> a == b
    ensures Read(Built(groups, caps), role) == ByRole(groups, role)
  {
    var vs := Visits(groups);
    forall a, b | Occurs(vs, a) && Occurs(vs, b) && a != b ensures FirstGroup(vs, a) != FirstGroup(vs, b) {
      var j := FirstVisit(vs, a);
      var k := FirstVisit(vs, b);
      VisitedRole(groups, j);
      VisitedRole(groups, k);
    }
    SeparateStartsAgree(groups, caps, role);
  }

  /** Nor can anything be written over when the address lists leave no room behind them. */
  lemma FullArraysAgree(groups: seq<Group>, caps: seq<nat>, role: string)
    requires Sized(groups, caps) && forall i :: 0 <= i < |groups| ==> caps[i] == |groups[i].ips|
    ensures Read(Built(groups, caps), role) == ByRole(groups, role)
  {
    VisitsInside(groups);
    IndexAgrees(groups, caps, role);
  }

  // ---------------------------------------------------------------- a list that is written over

  lemma AfterSnoc(vs: seq<Visit>, v: Visit, groups: seq<Group>, caps: seq<nat>)
    requires Sized(groups, caps) && Inside(vs, groups) && v.group < |groups|
    ensures Inside(vs + [v], groups)
    ensures After(vs + [v], groups, caps) == Enlist(After(vs, groups, caps), v.role, v.group, groups[v.group].ips)
  {
    assert (vs + [v])[..|vs|] == vs && (vs + [v])[|vs|] == v;
  }

  /** Three addresses with the roles x and y in an array with room for a fourth, then one more address for each. */
  function SharedGroups(first: seq<IP>, x: string, y: string, b: IP, c: IP): seq<Group>
  {
    [Group(first, [x, y]), Group([b], [x]), Group([c], [y])]
  }

  lemma SharedVisits(first: seq<IP>, x: string, y: string, b: IP, c: IP)
    ensures Visits(SharedGroups(first, x, y, b, c)) ==
            [] + [Visit(0, x)] + [Visit(0, y)] + [Visit(1, x)] + [Visit(2, y)]
  {
    var gs := SharedGroups(first, x, y, b, c);
    assert gs[..2] == [gs[0], gs[1]] && gs[..2][..1] == [gs[0]] && gs[..1][..0] == [];
    assert Visits([gs[0]]) == VisitsOf(0, [x, y]);
    assert Visits([gs[0], gs[1]]) == VisitsOf(0, [x, y]) + VisitsOf(1, [x]);
    assert Visits(gs) == Visits([gs[0], gs[1]]) + VisitsOf(2, [y]);
  }

  /** The second `append` writes over what the first one wrote: role x is read back with the address of role y. */
  lemma SharedArrayOverwritten(first: seq<IP>, x: string, y: string, b: IP, c: IP, caps: seq<nat>)
    requires x != y && b != c && Sized(SharedGroups(first, x, y, b, c), caps) && caps[0] > |first|
    ensures var groups := SharedGroups(first, x, y, b, c);
            && Read(Built(groups, caps), x) == first + [c] && ByRole(groups, x) == first + [b]
            && Read(Built(groups, caps), x) != ByRole(groups, x)
  {
    var groups := SharedGroups(first, x, y, b, c);
    SharedVisits(first, x, y, b, c);
    VisitsInside(groups);
    var m0 := Start(groups, caps);
    var m1 := Enlist(m0, x, 0, first);
    var m2 := Enlist(m1, y, 0, first);
    var m3 := Enlist(m2, x, 1, [b]);
    var m4 := Enlist(m3, y, 2, [c]);
    AfterSnoc([], Visit(0, x), groups, caps);
    AfterSnoc([] + [Visit(0, x)], Visit(0, y), groups, caps);
    AfterSnoc([] + [Visit(0, x)] + [Visit(0, y)], Visit(1, x), groups, caps);
    AfterSnoc([] + [Visit(0, x)] + [Visit(0, y)] + [Visit(1, x)], Visit(2, y), groups, caps);
    assert m4.index[x] == Window(0, |first| + 1) && m4.arrays[0][..|first| + 1] == first + [c];
    ScanOfShared(first, x, y, b, c);
    assert (first + [c])[|first|] != (first + [b])[|first|];
  }

  lemma ScanOfShared(first: seq<IP>, x: string, y: string, b: IP, c: IP)
    requires x != y
    ensures ByRole(SharedGroups(first, x, y, b, c), x) == first + [b]
  {
    var gs := SharedGroups(first, x, y, b, c);
    assert gs[..2][..1] == [gs[0]] && gs[..2] == [gs[0], gs[1]] && gs[..1][..0] == [];
    assert [x, y][..1] == [x] && [x][..0] == [] && [y][..0] == [];
    assert Times(x, [x], first) == first && Times(x, [x, y], first) == first;
    assert Times(x, [x], [b]) == [b] && Times(x, [y], [c]) == [];
    assert ByRole([gs[0]], x) == first && ByRole([gs[0], gs[1]], x) == first + [b];
  }

  // ---------------------------------------------------------------- only hosts are read

  lemma {:induction false} GatheredAreHosts(vs: seq<Visit>, groups: seq<Group>, role: string, x: IP)
    requires Inside(vs, groups) && x in Gathered(vs, groups, role)
    ensures x in AllIPs(groups)
  {
    var front, v := vs[..|vs| - 1], vs[|vs| - 1];
    if x in groups[v.group].ips {
      assert x in AllIPs(groups);
    } else {
      GatheredAreHosts(front, groups, role, x);
    }
  }

  /** Even a list that was written over holds hosts of the cluster only, and is as long as it should be. */
  lemma ReadAreHosts(vs: seq<Visit>, groups: seq<Group>, caps: seq<nat>, role: string)
    requires Sized(groups, caps) && Inside(vs, groups)
    ensures |Read(After(vs, groups, caps), role)| == |Gathered(vs, groups, role)|
    ensures forall x :: x in Read(After(vs, groups, caps), role) ==> x in AllIPs(groups)
  {
    var u := UntilCopied(vs, groups, caps, role);
    var own := ReadSplits(vs, groups, caps, role);
    var m, all := After(u, groups, caps), Gathered(vs, groups, role);
    assert EntryShaped(m, u, groups, caps, role);
    if !Occurs(u, role) {
      NothingGathered(u, groups, role);
    }
    forall x | x in own ensures x in AllIPs(groups) {
      assert x in all;
      GatheredAreHosts(vs, groups, role, x);
    }
    forall p | 0 <= p < |Read(m, role)| ensures Read(m, role)[p] in AllIPs(groups) {
      WindowHolds(u, groups, caps, role, p);
    }
  }

  lemma WindowHolds(u: seq<Visit>, groups: seq<Group>, caps: seq<nat>, role: string, p: nat)
    requires Sized(groups, caps) && Inside(u, groups) && InPlace(u, groups, caps, role)
    requires p < |Read(After(u, groups, caps), role)|
    ensures Read(After(u, groups, caps), role)[p] in AllIPs(groups)
  {
    var m, g := After(u, groups, caps), FirstGroup(u, role);
    assert EntryShaped(m, u, groups, caps, role);
    if p < |groups[g].ips| {
      assert groups[g].ips <= m.arrays[g];
      assert groups[g].ips[p] in groups[g].ips;
    } else {
      var q := LastTaker(u, groups, caps, g, p);
      SlotHolds(u, groups, caps, g, p, role);
      assert Gathered(u, groups, q)[p] in Gathered(u, groups, q);
      GatheredAreHosts(u, groups, q, Gathered(u, groups, q)[p]);
    }
  }

  // ---------------------------------------------------------------- the host index

  ghost predicate HostsIndexed(index: map<IP, seq<string>>, groups: seq<Group>)
  {
    forall ip :: Lookup(index, ip) == RolesOf(groups, ip)
  }

  /** `r` is the host index with one more group. */
  ghost predicate AddsHosts(index: map<IP, seq<string>>, g: Group, r: map<IP, seq<string>>)
  {
    forall ip :: Lookup(r, ip) == if ip in g.ips then g.roles else Lookup(index, ip)
  }

  /** The roles of one group become those of each of its addresses. */
  method IndexHosts(index: map<IP, seq<string>>, g: Group) returns (r: map<IP, seq<string>>)
    ensures AddsHosts(index, g, r)
  {
    r := index;
    for k := 0 to |g.ips|
      invariant forall ip :: Lookup(r, ip) == if ip in g.ips[..k] then g.roles else Lookup(index, ip)
    {
      r := r[g.ips[k] := g.roles];
    }
    assert g.ips[..|g.ips|] == g.ips;
  }

  lemma HostsSnoc(front: seq<Group>, g: Group, index: map<IP, seq<string>>, r: map<IP, seq<string>>)
    requires HostsIndexed(index, front) && AddsHosts(index, g, r)
    ensures HostsIndexed(r, front + [g])
  {
    assert (front + [g])[..|front|] == front;
    forall ip ensures Lookup(r, ip) == RolesOf(front + [g], ip) {
      assert Lookup(index, ip) == RolesOf(front, ip);
    }
  }

  // ---------------------------------------------------------------- the driver

  /** The inner loop of `NewInfraDriver` over the roles of one group. */
  method IndexGroup(m: Memory, ghost vs: seq<Visit>, groups: seq<Group>, ghost caps: seq<nat>, i: nat)
    returns (r: Memory)
    requires Sized(groups, caps) && Inside(vs, groups) && m == After(vs, groups, caps) && i < |groups|
    ensures Inside(vs + VisitsOf(i, groups[i].roles), groups)
            && r == After(vs + VisitsOf(i, groups[i].roles), groups, caps)
  {
    var g := groups[i];
    r := m;
    assert vs + VisitsOf(i, g.roles[..0]) == vs;
    for k := 0 to |g.roles|
      invariant Inside(vs + VisitsOf(i, g.roles[..k]), groups)
                && r == After(vs + VisitsOf(i, g.roles[..k]), groups, caps)
    {
      AfterSnoc(vs + VisitsOf(i, g.roles[..k]), Visit(i, g.roles[k]), groups, caps);
      VisitsOfSnoc(vs, i, g.roles, k);
      r := Enlist(r, g.roles[k], i, g.ips);
    }
    assert g.roles[..|g.roles|] == g.roles;
  }

  /** The loop of `NewInfraDriver` over the groups. */
  method IndexGroups(groups: seq<Group>, caps: seq<nat>) returns (m: Memory, owners: map<IP, seq<string>>)
    requires Sized(groups, caps)
    ensures m == Built(groups, caps) && HostsIndexed(owners, groups)
  {
    m, owners := Start(groups, caps), map[];
    for i := 0 to |groups|
      invariant Inside(Visits(groups[..i]), groups) && m == After(Visits(groups[..i]), groups, caps)
      invariant HostsIndexed(owners, groups[..i])
    {
      m := IndexGroup(m, Visits(groups[..i]), groups, caps, i);
      var owners' := IndexHosts(owners, groups[i]);
      HostsSnoc(groups[..i], groups[i], owners, owners');
      assert groups[..i] + [groups[i]] == groups[..i + 1] && groups[..i + 1][..i] == groups[..i];
      owners := owners';
    }
    assert groups[..|groups|] == groups;
  }

  /** The driver, with its two indexes over the host groups. */
  class InfraDriver {
    ghost const groups: seq<Group>
    ghost const caps: seq<nat>
    var hosts: seq<IP>
    var memory: Memory
    var hostRoles: map<IP, seq<string>>

    ghost predicate Valid()
      reads this
    {
      Sized(groups, caps) && hosts == AllIPs(groups) && memory == Built(groups, caps) && HostsIndexed(hostRoles, groups)
    }

    constructor (groups: seq<Group>, caps: seq<nat>)
      requires Sized(groups, caps)
      ensures Valid() && this.groups == groups && this.caps == caps
    {
      var all := CollectHosts(groups);
      var m, owners := IndexGroups(groups, caps);
      this.groups, this.caps, hosts, memory, hostRoles := groups, caps, all, m, owners;
    }

    /** `GetHostIPListByRole` */
    method GetHostIPListByRole(role: string) returns (r: seq<IP>)
      requires Valid()
      ensures r == Read(Built(groups, caps), role) && |r| == |ByRole(groups, role)|
      ensures forall x :: x in r ==> x in AllIPs(groups)
      ensures Inside(Visits(groups), groups) && (Compatible(Visits(groups), groups, caps) ==> r == ByRole(groups, role))
    {
      GatheredIsByRole(groups, role);
      ReadAreHosts(Visits(groups), groups, caps, role);
      if Compatible(Visits(groups), groups, caps) {
        IndexAgrees(groups, caps, role);
      }
      r := Read(memory, role);
    }

    /** `GetRoleListByHostIP` */
    method GetRoleListByHostIP(ip: IP) returns (r: seq<string>)
      requires Valid()
      ensures r == RolesOf(groups, ip)
    {
      assert Lookup(hostRoles, ip) == RolesOf(groups, ip);
      r := if ip in hostRoles then hostRoles[ip] else [];
    }

    /** `getWorkerIPList` over this driver: every store is in bounds, for every cluster. */
    method WorkerIPList() returns (workers: array<IP>)
      requires Valid()
      ensures var masters := Read(Built(groups, caps), "master");
              && fresh(workers) && workers.Length == |AllIPs(groups)| - |Elems(masters)|
              && |Minus(AllIPs(groups), masters)| <= workers.Length
              && workers[..|Minus(AllIPs(groups), masters)|] == Minus(AllIPs(groups), masters)
              && forall k :: |Minus(AllIPs(groups), masters)| <= k < workers.Length ==> workers[k] == NIL_IP
    {
      var masters := GetHostIPListByRole("master");
      workers := GetWorkerIPList(hosts, masters);
    }
  }

  /** `NewInfraDriver`: there is no driver without hosts. */
  method NewInfraDriver(groups: seq<Group>, caps: seq<nat>) returns (d: InfraDriver?)
    requires Sized(groups, caps)
    ensures d == null <==> AllIPs(groups) == []
    ensures d != null ==> fresh(d) && d.Valid() && d.groups == groups && d.caps == caps
  {
    var driver := new InfraDriver(groups, caps);
    return if driver.hosts == [] then null else driver;
  }
}
