/**
 The distribution protocol gets somewhere: as long as nothing has failed for good, a run can be continued until every
 image is on every host.
 */
module DistributionProgress {
  import opened Options
  import opened Distribution

  /** A failure from which a run does not recover.  Failed `/stage` and `/connect` requests are not among them. */
  predicate Fault(a: Action)
  {
    a.Refuse? || a.Abort? || a.Crash? || a.SessionBreaks? || a.PostFails?
  }

  ghost predicate Faultless(actions: seq<Action>)
  {
    forall i :: 0 <= i < |actions| ==> !Fault(actions[i])
  }

  predicate Intact(h: Host)
  {
    h.phase != Crashed && h.session != Broken && h.first != Lost && h.second != Lost
  }

  /** The goroutines that issue `/next` have been started when the barrier before them is passed; only the first one
      asks for `/connect` before. */
  predicate Sent(s: State, h: Host)
  {
    && (s.control == Joining || (s.control == Polling && s.level == 1) ==> h.first != Idle)
    && (s.control == Joining ==> h.second != Idle) && h.second != Connecting
  }

  ghost predicate Able(s: State)
  {
    && Inv(s) && s.control != Refused && s.control != Aborted
    && forall i :: 0 <= i < |s.hosts| ==> Intact(s.hosts[i]) && Sent(s, s.hosts[i])
  }

  // ---------------------------------------------------------------- a faultless step keeps it that way

  lemma HostStaysIntact(s: State, h: Host, a: Action, h': Host)
    requires OfHost(a) && !Fault(a) && HostInv(s, h) && !Between(s) && HostStep(s, h, a) == Some(h')
    requires Intact(h) && Sent(s, h)
    ensures Intact(h') && Sent(s, h')
  {
  }

  lemma HostStaysAble(s: State, a: Action, s': State)
    requires Able(s) && OfHost(a) && !Fault(a) && Step(s, a) == Some(s')
    ensures Able(s')
  {
    HostStepsInRound(s, a);
    StepInv(s, a, s');
    assert HostInv(s, s.hosts[a.i]);
    HostStaysIntact(s, s.hosts[a.i], a, s'.hosts[a.i]);
    forall j | 0 <= j < |s'.hosts| ensures Intact(s'.hosts[j]) && Sent(s', s'.hosts[j]) {
      assert Sent(s, s.hosts[j]);
    }
  }

  lemma CoordinatorStaysAble(s: State, a: Action, s': State)
    requires Able(s) && !OfHost(a) && !Fault(a) && Step(s, a) == Some(s')
    ensures Able(s')
  {
    StepInv(s, a, s');
    forall j | 0 <= j < |s'.hosts| ensures Intact(s'.hosts[j]) && Sent(s', s'.hosts[j]) {
      assert Intact(s.hosts[j]) && Sent(s, s.hosts[j]);
      if a == EndPoll {
        EndPollEffect(s, s', j);
      }
    }
    if a == Join {
      JoinAdvances(s, s');
    }
  }

  lemma StepStaysAble(s: State, a: Action, s': State)
    requires Able(s) && !Fault(a) && Step(s, a) == Some(s')
    ensures Able(s')
  {
    if OfHost(a) {
      HostStaysAble(s, a, s');
    } else {
      CoordinatorStaysAble(s, a, s');
    }
  }

  lemma {:induction false} FaultlessStaysAble(images: nat, n: nat, actions: seq<Action>, s: State)
    requires Reaches(images, n, actions, s) && Faultless(actions)
    ensures Able(s) && s.images == images && |s.hosts| == n
    decreases |actions|
  {
    RunInv(images, n, actions);
    if actions != [] {
      var before, a := actions[..|actions| - 1], actions[|actions| - 1];
      var m := Run(Init(images, n), before).value;
      FaultlessStaysAble(images, n, before, m);
      assert !Fault(a);
      StepStaysAble(m, a, s);
    }
  }

  // ---------------------------------------------------------------- the end of a round

  /** When no session broke, joining ends the round and never aborts. */
  lemma JoinAdvances(s: State, s': State)
    requires Step(s, Join) == Some(s') && forall i :: 0 <= i < |s.hosts| ==> s.hosts[i].session != Broken
    ensures s' == s.(control := Ready, round := s.round + 1)
  {
  }

  /** From every reachable state in which the coordinator joins and every session has succeeded, exactly one step of
      the coordinator is possible, and it makes the round one larger. */
  lemma SuccessfulRoundAdvances(images: nat, n: nat, actions: seq<Action>, s: State, a: Action)
    requires Reaches(images, n, actions, s) && s.control == Joining
    requires forall i :: 0 <= i < |s.hosts| ==> s.hosts[i].session == Succeeded
    ensures Step(s, Join) == Some(s.(control := Ready, round := s.round + 1))
    ensures !OfHost(a) && Step(s, a).Some? ==> a == Join
    ensures s.round < images && forall i :: 0 <= i < |s.hosts| ==> s.hosts[i].rounds == s.round + 1
  {
    RunInv(images, n, actions);
    forall i | 0 <= i < |s.hosts| ensures s.hosts[i].rounds == s.round + 1 {
      assert HostInv(s, s.hosts[i]);
    }
  }

  /** When every session has ended, one of them badly, the only step of the coordinator is to give up. */
  lemma BrokenSessionAborts(images: nat, n: nat, actions: seq<Action>, s: State, i: nat, a: Action)
    requires Reaches(images, n, actions, s) && s.control == Joining && i < |s.hosts| && s.hosts[i].session == Broken
    requires forall j :: 0 <= j < |s.hosts| ==> s.hosts[j].session != Running
    ensures Step(s, Join) == Some(s.(control := Aborted))
    ensures !OfHost(a) && Step(s, a).Some? ==> a == Join
  {
  }

  /** The coordinator may fail before it launches a round, and after the first barrier. */
  lemma CoordinatorMayFail(s: State)
    ensures s.control == Ready ==> Step(s, Refuse) == Some(s.(control := Refused))
    ensures s.control == Signalling ==> Step(s, Abort) == Some(s.(control := Aborted))
  {
  }

  /** The action is possible and turns host `i` into `h`, up to handlers that die with their process. */
  ghost predicate After(s: State, a: Action, i: nat, h: Host)
    requires i < |s.hosts|
  {
    Step(s, a).Some? && |Step(s, a).value.hosts| == |s.hosts|
    && Step(s, a).value.hosts[i].(first := Drop(h.first), second := Drop(h.second)) ==
       h.(first := Drop(h.first), second := Drop(h.second))
  }

  /** During a round everything that can go wrong may happen to a host: its process may die, its session may break,
      and each request on its way may fail. */
  lemma AnythingMayFail(s: State, i: nat)
    requires !Between(s) && i < |s.hosts|
    ensures s.hosts[i].phase != Exited ==> After(s, Crash(i), i, s.hosts[i].(phase := Crashed))
    ensures s.hosts[i].session == Running ==> After(s, SessionBreaks(i), i, s.hosts[i].(session := Broken))
    ensures s.control == Polling && s.hosts[i].probe == Pending ==>
              After(s, ProbeFails(i), i, s.hosts[i].(probe := Failed))
    ensures s.hosts[i].first == Connecting ==>
              After(s, ConnectMissed(i), i, s.hosts[i].(first := Posting, missed := true))
    ensures s.hosts[i].first == Posting ==> After(s, PostFails(i, FirstToken), i, s.hosts[i].(first := Lost))
    ensures s.hosts[i].second == Posting ==> After(s, PostFails(i, SecondToken), i, s.hosts[i].(second := Lost))
  {
  }

  /** Between rounds with an image left nothing but a failure keeps the next round from being launched. */
  lemma NextRoundStarts(images: nat, n: nat, actions: seq<Action>, s: State)
    requires Reaches(images, n, actions, s) && s.control == Ready
    ensures s.round <= images
    ensures s.round < images ==>
              Step(s, Launch).Some? && Step(s, Launch).value.round == s.round && Step(s, Finish) == None
    ensures s.round == images ==> Step(s, Launch) == None && Step(s, Finish) == Some(s.(control := Finished))
  {
    RunInv(images, n, actions);
  }

  /** Two goroutines that have both read the counter before either has written it count as one. */
  lemma IncrementsMayOverwrite(s: State, i: nat, j: nat)
    requires s.control == Polling && i < |s.hosts| && j < |s.hosts| && i != j
    requires s.hosts[i].probe == Matched && s.hosts[j].probe == Matched
    ensures var t := Run(s, [LoadGood(i), LoadGood(j), StoreGood(i), StoreGood(j)]);
            && t.Some? && t.value.good == s.good + 1 && |t.value.hosts| == |s.hosts|
            && t.value.hosts[i].probe == Stored && t.value.hosts[j].probe == Stored
  {
    LoadEffect(s, i);
    var s1 := Step(s, LoadGood(i)).value;
    LoadEffect(s1, j);
    var s2 := Step(s1, LoadGood(j)).value;
    StoreEffect(s2, i);
    var s3 := Step(s2, StoreGood(i)).value;
    StoreEffect(s3, j);
    RunFour(s, LoadGood(i), LoadGood(j), StoreGood(i), StoreGood(j), s1, s2, s3);
  }

  lemma LoadEffect(s: State, i: nat)
    requires s.control == Polling && i < |s.hosts| && s.hosts[i].probe == Matched
    ensures Step(s, LoadGood(i)) == Some(s.(hosts := s.hosts[i := s.hosts[i].(probe := Loaded(s.good))]))
  {
  }

  lemma StoreEffect(s: State, i: nat)
    requires s.control == Polling && i < |s.hosts| && s.hosts[i].probe.Loaded?
    ensures Step(s, StoreGood(i)) ==
            Some(s.(hosts := s.hosts[i := s.hosts[i].(probe := Stored)], good := s.hosts[i].probe.seen + 1))
  {
  }

  lemma RunFour(s: State, a: Action, b: Action, c: Action, d: Action, s1: State, s2: State, s3: State)
    requires Step(s, a) == Some(s1) && Step(s1, b) == Some(s2) && Step(s2, c) == Some(s3)
    ensures Run(s, [a, b, c, d]) == Step(s3, d)
  {
    assert [a, b, c, d][..3] == [a, b, c] && [a, b, c][..2] == [a, b] && [a, b][..1] == [a] && [a][..0] == [];
    assert Run(s, [a]) == Some(s1);
    assert Run(s, [a, b]) == Some(s2);
    assert Run(s, [a, b, c]) == Some(s3);
  }

  // ---------------------------------------------------------------- what is left to do

  function PhaseWork(p: Phase): nat
  {
    match p
    case Absent => 6
    case Booting => 5
    case AtFirstWait => 4
    case Extracting => 3
    case AtSecondWait => 2
    case Exited => 1
    case Crashed => 0
  }

  function RequestWork(r: Request): nat
  {
    match r
    case Idle => 4
    case Connecting => 3
    case Posting => 2
    case Blocked => 1
    case Taken => 0
    case Lost => 0
  }

  function HostWork(h: Host): nat
  {
    PhaseWork(h.phase) + RequestWork(h.first) + RequestWork(h.second) + if h.session == Running then 1 else 0
  }

  function ProbeWork(h: Host): nat
  {
    match h.probe
    case Pending => 3
    case Matched => 2
    case Loaded(_) => 1
    case _ => 0
  }

  function Total(f: Host -> nat, hs: seq<Host>): nat
  {
    if hs == [] then 0 else f(hs[0]) + Total(f, hs[1..])
  }

  lemma {:induction false} TotalUpdate(f: Host -> nat, hs: seq<Host>, i: nat, h: Host)
    requires i < |hs|
    ensures Total(f, hs[i := h]) + f(hs[i]) == Total(f, hs) + f(h)
  {
    if i == 0 {
      assert hs[0 := h][1..] == hs[1..];
    } else {
      TotalUpdate(f, hs[1..], i - 1, h);
      assert hs[i := h][1..] == hs[1..][i - 1 := h];
    }
  }

  /** How far the coordinator is in its round. */
  function Rank(s: State): nat
  {
    match s.control
    case Ready => 6
    case Polling => if s.level == 0 then 5 else 3
    case Signalling => 4
    case Joining => 2
    case _ => 0
  }

  /** A polling round whose counter is right: one goroutine at a time increments it, and none was turned away. */
  ghost predicate Clean(s: State)
  {
    && s.good == StoredCount(s.hosts)
    && (forall i :: 0 <= i < |s.hosts| ==>
          s.hosts[i].probe in {Pending, Matched, Stored} || s.hosts[i].probe == Loaded(s.good))
    && forall i, j :: 0 <= i < j < |s.hosts| ==> !Busy(s.hosts[i].probe) || !Busy(s.hosts[j].probe)
  }

  predicate Busy(p: Probe)
  {
    p == Matched || p.Loaded?
  }

  /** What is left to do, the weightiest part first. */
  datatype Measure = Measure(rounds: int, rank: nat, hosts: nat, unclean: nat, probes: nat)

  ghost function Left(s: State): Measure
  {
    Measure(s.images - s.round, Rank(s), Total(HostWork, s.hosts), B(!Clean(s)), Total(ProbeWork, s.hosts))
  }

  predicate Smaller(m: Measure, n: Measure)
  {
    m.rounds < n.rounds || (m.rounds == n.rounds && (m.rank < n.rank || (m.rank == n.rank
      && (m.hosts < n.hosts || (m.hosts == n.hosts && (m.unclean < n.unclean || (m.unclean == n.unclean
        && m.probes < n.probes)))))))
  }

  ghost predicate Less(s': State, s: State)
  {
    Smaller(Left(s'), Left(s))
  }

  // ---------------------------------------------------------------- some step that leaves less to do

  /** A step of one host that moves its process or one of its requests on. */
  lemma HostMoves(s: State, a: Action, s': State)
    requires OfHost(a) && Step(s, a) == Some(s') && HostWork(s'.hosts[a.i]) < HostWork(s.hosts[a.i])
    ensures Less(s', s)
  {
    HostStepFrame(s, a, s');
    TotalUpdate(HostWork, s.hosts, a.i, s'.hosts[a.i]);
  }

  /** What a host does next before the barrier for `stage`, and after the last one. */
  function NextOf(i: nat, h: Host): Action
  {
    match h.phase
    case Absent => Boot(i)
    case Booting => ReachOne(i)
    case AtFirstWait =>
      if h.first == Connecting then ConnectServed(i)
      else if h.first == Posting then Post(i, FirstToken) else Take(i, FirstToken)
    case Extracting => ReachTwo(i)
    case AtSecondWait => if h.second == Posting then Post(i, SecondToken) else Take(i, SecondToken)
    case _ => SessionEnds(i)
  }

  predicate Behind(s: State, h: Host)
  {
    if s.control == Joining then h.session == Running else h.stage < s.level + 1
  }

  /** A host that has not come as far as the coordinator waits for it has a next step. */
  lemma BehindMoves(s: State, i: nat) returns (a: Action)
    requires Able(s) && i < |s.hosts| && (s.control == Polling || s.control == Joining) && Behind(s, s.hosts[i])
    ensures !Fault(a) && Step(s, a).Some? && Less(Step(s, a).value, s)
  {
    var h := s.hosts[i];
    assert HostInv(s, h) && Intact(h) && Sent(s, h);
    a := NextOf(i, h);
    NextMoves(s, i, h);
    HostMoves(s, a, Step(s, a).value);
  }

  lemma NextMoves(s: State, i: nat, h: Host)
    requires Inv(s) && HostInv(s, h) && Intact(h) && Sent(s, h)
    requires (s.control == Polling || s.control == Joining) && Behind(s, h)
    ensures var a := NextOf(i, h);
            OfHost(a) && a.i == i && !Fault(a) && !a.StoreGood?
              && HostStep(s, h, a).Some? && HostWork(HostStep(s, h, a).value) < HostWork(h)
  {
  }

  /** A step of one host leaves the coordinator where it is. */
  lemma HostStepFrame(s: State, a: Action, s': State)
    requires OfHost(a) && Step(s, a) == Some(s')
    ensures a.i < |s.hosts| && s'.hosts == s.hosts[a.i := s'.hosts[a.i]]
    ensures s'.images == s.images && s'.round == s.round && s'.control == s.control && s'.level == s.level
  {
  }

  /** A step of one probe in a polling round. */
  lemma ProbeMoves(s: State, i: nat, s': State)
    requires i < |s.hosts| == |s'.hosts| && s'.hosts == s.hosts[i := s'.hosts[i]]
    requires s'.images == s.images && s'.round == s.round && Rank(s') == Rank(s)
    requires HostWork(s'.hosts[i]) == HostWork(s.hosts[i]) && ProbeWork(s'.hosts[i]) < ProbeWork(s.hosts[i])
    requires Left(s').unclean <= Left(s).unclean
    ensures Less(s', s)
  {
    TotalUpdate(HostWork, s.hosts, i, s'.hosts[i]);
    TotalUpdate(ProbeWork, s.hosts, i, s'.hosts[i]);
  }

  /** Every host is where the coordinator waits for it, so that its server answers with the expected stage. */
  ghost predicate Arrived(s: State)
  {
    s.control == Polling && forall i :: 0 <= i < |s.hosts| ==> Serving(s.hosts[i]) && s.hosts[i].stage == s.level + 1
  }

  function ProbeOf(i: nat, h: Host): Action
  {
    match h.probe
    case Pending => ProbeReads(i)
    case Matched => LoadGood(i)
    case _ => StoreGood(i)
  }

  ghost predicate Lonely(s: State, i: nat)
    requires i < |s.hosts|
  {
    Busy(s.hosts[i].probe) || forall j :: 0 <= j < |s.hosts| ==> !Busy(s.hosts[j].probe)
  }

  /** What the next step of one probe does. */
  lemma ProbeEffect(s: State, i: nat)
    requires Arrived(s) && i < |s.hosts| && !Answered(s.hosts[i].probe)
    ensures var h, a := s.hosts[i], ProbeOf(i, s.hosts[i]);
            var p := if h.probe == Pending then Matched else if h.probe == Matched then Loaded(s.good) else Stored;
            !Fault(a) && OfHost(a) && a.i == i
            && Step(s, a) == Some(s.(hosts := s.hosts[i := h.(probe := p)],
              good := if p == Stored then h.probe.seen + 1 else s.good))
  {
  }

  /** If no other probe is busy, a clean round stays clean. */
  lemma StaysClean(s: State, i: nat, s': State)
    requires Arrived(s) && i < |s.hosts| && !Answered(s.hosts[i].probe) && Lonely(s, i) && Clean(s)
    requires Step(s, ProbeOf(i, s.hosts[i])) == Some(s')
    ensures Clean(s')
  {
    ProbeEffect(s, i);
    StoredCountUpdate(s.hosts, i, s'.hosts[i]);
  }

  lemma OneProbe(s: State, i: nat)
    requires Arrived(s) && i < |s.hosts| && !Answered(s.hosts[i].probe) && Lonely(s, i)
    ensures var a := ProbeOf(i, s.hosts[i]);
            !Fault(a) && Step(s, a).Some? && Less(Step(s, a).value, s)
  {
    var a := ProbeOf(i, s.hosts[i]);
    ProbeEffect(s, i);
    var s' := Step(s, a).value;
    if Clean(s) {
      StaysClean(s, i, s');
    }
    HostStepFrame(s, a, s');
    ProbeMoves(s, i, s');
  }

  lemma LonelyProbe(s: State) returns (i: nat)
    requires exists j :: 0 <= j < |s.hosts| && !Answered(s.hosts[j].probe)
    ensures i < |s.hosts| && !Answered(s.hosts[i].probe) && Lonely(s, i)
  {
    if exists j :: 0 <= j < |s.hosts| && Busy(s.hosts[j].probe) {
      i :| 0 <= i < |s.hosts| && Busy(s.hosts[i].probe);
    } else {
      i :| 0 <= i < |s.hosts| && !Answered(s.hosts[i].probe);
    }
  }

  lemma {:induction false} EveryoneStored(hs: seq<Host>)
    requires forall i :: 0 <= i < |hs| ==> hs[i].probe == Stored
    ensures StoredCount(hs) == |hs|
  {
    if hs != [] {
      EveryoneStored(hs[1..]);
    }
  }

  lemma {:induction false} SameTotal(f: Host -> nat, hs: seq<Host>, hs': seq<Host>)
    requires |hs| == |hs'| && forall i :: 0 <= i < |hs| ==> f(hs'[i]) == f(hs[i])
    ensures Total(f, hs') == Total(f, hs)
  {
    if hs != [] {
      SameTotal(f, hs[1..], hs'[1..]);
    }
  }

  /** A polling round that starts again leaves its hosts as they are. */
  lemma PollAgain(s: State, s': State)
    requires Able(s) && Step(s, EndPoll) == Some(s') && s'.control == Polling
    ensures s'.level == s.level && s'.round == s.round && s'.images == s.images && |s'.hosts| == |s.hosts|
    ensures s'.good == 0 && Total(HostWork, s'.hosts) == Total(HostWork, s.hosts)
    ensures forall i :: 0 <= i < |s'.hosts| ==> s'.hosts[i].probe == Pending
  {
    forall i | 0 <= i < |s.hosts|
      ensures HostWork(s'.hosts[i]) == HostWork(s.hosts[i]) && s'.hosts[i].probe == Pending
    {
      EndPollEffect(s, s', i);
    }
    SameTotal(HostWork, s.hosts, s'.hosts);
  }

  /** Only a round whose counter is not right starts again. */
  lemma CleanPollPasses(s: State, s': State)
    requires Able(s) && Step(s, EndPoll) == Some(s') && Clean(s)
    ensures s'.control != Polling
  {
    forall i | 0 <= i < |s.hosts| ensures s.hosts[i].probe == Stored {
      assert Answered(s.hosts[i].probe);
    }
    EveryoneStored(s.hosts);
  }

  /** When all probes have been answered the coordinator goes on, or starts a polling round with a right counter. */
  lemma PollEnds(s: State)
    requires Able(s) && s.control == Polling && forall i :: 0 <= i < |s.hosts| ==> Answered(s.hosts[i].probe)
    ensures Step(s, EndPoll).Some? && Less(Step(s, EndPoll).value, s)
  {
    var s' := Step(s, EndPoll).value;
    PollControl(s, s');
    if s'.control == Polling {
      PollAgain(s, s');
      if Clean(s) {
        CleanPollPasses(s, s');
      }
      AllPendingIsClean(s');
      assert Left(s').unclean == 0 && Left(s).unclean == 1;
    }
  }

  lemma PollControl(s: State, s': State)
    requires Able(s) && Step(s, EndPoll) == Some(s')
    ensures s'.images == s.images && s'.round == s.round
    ensures s'.control == Polling || Rank(s') < Rank(s)
  {
  }

  lemma AllPendingIsClean(s: State)
    requires s.good == 0 && forall i :: 0 <= i < |s.hosts| ==> s.hosts[i].probe == Pending
    ensures Clean(s)
  {
    NoneStored(s.hosts);
  }

  lemma PollingMoves(s: State) returns (a: Action)
    requires Able(s) && s.control == Polling
    ensures !Fault(a) && Step(s, a).Some? && Less(Step(s, a).value, s)
  {
    if i :| 0 <= i < |s.hosts| && Behind(s, s.hosts[i]) {
      a := BehindMoves(s, i);
    } else if exists i :: 0 <= i < |s.hosts| && !Answered(s.hosts[i].probe) {
      AllArrived(s);
      var i := LonelyProbe(s);
      OneProbe(s, i);
      a := ProbeOf(i, s.hosts[i]);
    } else {
      PollEnds(s);
      a := EndPoll;
    }
  }

  lemma AllArrived(s: State)
    requires Able(s) && s.control == Polling && forall i :: 0 <= i < |s.hosts| ==> !Behind(s, s.hosts[i])
    ensures Arrived(s)
  {
    forall i | 0 <= i < |s.hosts| ensures Serving(s.hosts[i]) && s.hosts[i].stage == s.level + 1 {
      assert HostInv(s, s.hosts[i]) && Intact(s.hosts[i]) && !Behind(s, s.hosts[i]);
    }
  }

  lemma JoiningMoves(s: State) returns (a: Action)
    requires Able(s) && s.control == Joining
    ensures !Fault(a) && Step(s, a).Some? && Less(Step(s, a).value, s)
  {
    if i :| 0 <= i < |s.hosts| && Behind(s, s.hosts[i]) {
      a := BehindMoves(s, i);
    } else {
      a := Join;
      assert forall i :: 0 <= i < |s.hosts| ==> Intact(s.hosts[i]) && !Behind(s, s.hosts[i]);
      JoinAdvances(s, Step(s, Join).value);
    }
  }

  lemma SomethingMoves(s: State) returns (a: Action)
    requires Able(s) && s.control != Finished
    ensures !Fault(a) && Step(s, a).Some? && Less(Step(s, a).value, s)
  {
    match s.control {
      case Polling => a := PollingMoves(s);
      case Joining => a := JoiningMoves(s);
      case Signalling => a := Signal;
      case _ => a := if s.round < s.images then Launch else Finish;
    }
  }

  // ---------------------------------------------------------------- every faultless run can finish

  lemma RunOn(s0: State, actions: seq<Action>, a: Action)
    requires Run(s0, actions).Some?
    ensures Run(s0, actions + [a]) == Step(Run(s0, actions).value, a)
  {
    assert (actions + [a])[..|actions|] == actions;
  }

  lemma {:induction false} GoesOn(s0: State, actions: seq<Action>, s: State) returns (all: seq<Action>, t: State)
    requires Run(s0, actions) == Some(s) && Able(s) && Faultless(actions)
    ensures actions <= all && Faultless(all) && Run(s0, all) == Some(t) && Able(t) && t.control == Finished
    decreases s.images - s.round, Rank(s), Total(HostWork, s.hosts), B(!Clean(s)), Total(ProbeWork, s.hosts)
  {
    if s.control == Finished {
      all, t := actions, s;
    } else {
      var a := SomethingMoves(s);
      var s' := Step(s, a).value;
      RunOn(s0, actions, a);
      StepStaysAble(s, a, s');
      all, t := GoesOn(s0, actions + [a], s');
    }
  }

  /** For any number of images and hosts: every run without a lasting failure, wherever it stands and however many
      requests for stages and connections failed on the way, can be continued to the end, and there every host has
      gone through one round per image and taken two tokens in each. */
  lemma FaultlessRunsFinish(images: nat, n: nat, actions: seq<Action>, s: State)
    returns (all: seq<Action>, t: State)
    requires Reaches(images, n, actions, s) && Faultless(actions)
    ensures actions <= all && Faultless(all) && Reaches(images, n, all, t)
    ensures t.control == Finished && t.round == images && |t.hosts| == n
    ensures forall i :: 0 <= i < n ==> t.hosts[i].rounds == images && t.hosts[i].tokens == 2 * images
  {
    FaultlessStaysAble(images, n, actions, s);
    all, t := GoesOn(Init(images, n), actions, s);
    RunInv(images, n, all);
    forall i | 0 <= i < n ensures t.hosts[i].rounds == images && t.hosts[i].tokens == 2 * images {
      assert Quiet(t, t.hosts[i]);
    }
  }

  /** In particular there is such a run from the start. */
  lemma SomeRunFinishes(images: nat, n: nat) returns (all: seq<Action>, t: State)
    ensures Faultless(all) && Reaches(images, n, all, t) && t.control == Finished && t.round == images && |t.hosts| == n
    ensures forall i :: 0 <= i < n ==> t.hosts[i].rounds == images && t.hosts[i].tokens == 2 * images
  {
    all, t := FaultlessRunsFinish(images, n, [], Init(images, n));
  }
}
