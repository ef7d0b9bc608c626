/**
 The peer-to-peer image distribution protocol: one coordinator (`distributeImpl`, `waitForState`,
 `goNext`) drives one receiver process per host (`dist-receiver`) through the stages 0, 1, 2 and exit,
 once per mounted image.

 The protocol is a transition system.  Every goroutine of the coordinator, every receiver process and
 every HTTP request in flight moves by its own actions, so a sequence of actions is an arbitrary
 interleaving.  HTTP requests may fail, receivers may panic, SSH sessions may break and the coordinator
 may abort; all of these are actions too.
 */
module Distribution {
  import opened Options

  /** Where `main` of a receiver stands.  `Absent` is before the SSH command started the process. */
  datatype Phase = Absent | Booting | AtFirstWait | Extracting | AtSecondWait | Exited | Crashed

  /** A goroutine of the coordinator that finally issues `GET /next`.  `Blocked` is the handler
      standing at `sig <- struct{}{}`; `Taken` is after the rendezvous with `<-sig`. */
  datatype Request = Idle | Connecting | Posting | Blocked | Taken | Lost

  /** One `GET /stage` goroutine of the current polling round.  `good++` is a read followed by a write,
      so two goroutines may overwrite each other's increment. */
  datatype Probe = Pending | Failed | Mismatch | Matched | Loaded(seen: nat) | Stored

  datatype Session = Running | Succeeded | Broken

  /** Everything that belongs to one host.  `served`/`missed` record whether `/connect` reached the
      handler; `tokens`, `starts` and `rounds` count, over the whole run, the rendezvous made, the
      processes started and the rounds in which the process returned from `main`. */
  datatype Host = Host(
    phase: Phase,
    stage: nat,
    served: bool,
    missed: bool,
    first: Request,
    second: Request,
    probe: Probe,
    session: Session,
    tokens: nat,
    starts: nat,
    rounds: nat)

  /** `Refused` is a failure before the receivers of a round are launched, `Aborted` one after it. */
  datatype Control = Ready | Polling | Signalling | Joining | Finished | Refused | Aborted

  /** `level` is the number of barriers passed in the current round: `waitForState` is waiting for
      stage `level + 1` while `control` is `Polling`. */
  datatype State = State(images: nat, round: nat, control: Control, level: nat, good: nat, hosts: seq<Host>)

  datatype Which = FirstToken | SecondToken

  datatype Action =
    | Launch | Refuse | EndPoll | Signal | Join | Abort | Finish
    | Boot(i: nat) | ReachOne(i: nat) | ReachTwo(i: nat) | Crash(i: nat)
    | Take(i: nat, which: Which)
    | SessionEnds(i: nat) | SessionBreaks(i: nat)
    | ProbeFails(i: nat) | ProbeReads(i: nat) | LoadGood(i: nat) | StoreGood(i: nat)
    | ConnectServed(i: nat) | ConnectMissed(i: nat)
    | Post(i: nat, which: Which) | PostFails(i: nat, which: Which)

  const FRESH := Host(Absent, 0, false, false, Idle, Idle, Pending, Running, 0, 0, 0)

  function Init(images: nat, n: nat): State
  {
    State(images, 0, Ready, 0, 0, seq(n, _ => FRESH))
  }

  // ---------------------------------------------------------------- the steps of one host

  /** The HTTP server of the receiver answers. */
  predicate Serving(h: Host)
  {
    h.phase in {Booting, AtFirstWait, Extracting, AtSecondWait}
  }

  /** No round is in progress. */
  predicate Between(s: State)
  {
    s.control in {Ready, Finished, Refused}
  }

  function RequestOf(h: Host, which: Which): Request
  {
    if which == FirstToken then h.first else h.second
  }

  function SetRequest(h: Host, which: Which, r: Request): Host
  {
    if which == FirstToken then h.(first := r) else h.(second := r)
  }

  /** A handler that is still blocked dies with its process. */
  function Drop(r: Request): Request
  {
    if r == Blocked then Lost else r
  }

  function Take1(h: Host, which: Which): Option<Host>
  {
    if RequestOf(h, which) != Blocked then None
    else
      var taken := SetRequest(h, which, Taken).(tokens := h.tokens + 1);
      match h.phase
      case AtFirstWait => Some(taken.(phase := Extracting))
      case AtSecondWait =>
        Some(taken.(phase := Exited, rounds := h.rounds + 1, first := Drop(taken.first), second := Drop(taken.second)))
      case _ => None
  }

  function HostStep(s: State, h: Host, a: Action): Option<Host>
  {
    match a
    case Boot(_) =>
      if h.phase == Absent && !Between(s) then Some(h.(phase := Booting, starts := h.starts + 1)) else None
    case ReachOne(_) => if h.phase == Booting then Some(h.(phase := AtFirstWait, stage := 1)) else None
    case ReachTwo(_) => if h.phase == Extracting then Some(h.(phase := AtSecondWait, stage := 2)) else None
    case Crash(_) =>
      if h.phase != Exited && !Between(s)
      then Some(h.(phase := Crashed, first := Drop(h.first), second := Drop(h.second))) else None
    case Take(_, which) => Take1(h, which)
    case SessionEnds(_) => if h.phase == Exited && h.session == Running then Some(h.(session := Succeeded)) else None
    case SessionBreaks(_) => if h.session == Running && !Between(s) then Some(h.(session := Broken)) else None
    case ProbeFails(_) => if s.control == Polling && h.probe == Pending then Some(h.(probe := Failed)) else None
    case ProbeReads(_) =>
      if s.control == Polling && h.probe == Pending && Serving(h)
      then Some(h.(probe := if h.stage == s.level + 1 then Matched else Mismatch)) else None
    case LoadGood(_) => if s.control == Polling && h.probe == Matched then Some(h.(probe := Loaded(s.good))) else None
    case StoreGood(_) => if s.control == Polling && h.probe.Loaded? then Some(h.(probe := Stored)) else None
    case ConnectServed(_) =>
      if h.first == Connecting && Serving(h) then Some(h.(first := Posting, served := true)) else None
    case ConnectMissed(_) =>
      if h.first == Connecting then Some(h.(first := Posting, missed := true)) else None
    case Post(_, which) =>
      if RequestOf(h, which) == Posting && Serving(h) then Some(SetRequest(h, which, Blocked)) else None
    case PostFails(_, which) =>
      if RequestOf(h, which) == Posting then Some(SetRequest(h, which, Lost)) else None
    case _ => None
  }

  // ---------------------------------------------------------------- the steps of the coordinator

  /** A new process is about to be started over SSH on every host. */
  function Relaunched(h: Host): Host
  {
    FRESH.(tokens := h.tokens, starts := h.starts, rounds := h.rounds)
  }

  function MapHosts(f: Host -> Host, hs: seq<Host>): (r: seq<Host>)
    ensures |r| == |hs| && forall i :: 0 <= i < |hs| ==> r[i] == f(hs[i])
  {
    seq(|hs|, i requires 0 <= i < |hs| => f(hs[i]))
  }

  predicate Answered(p: Probe)
  {
    p == Failed || p == Mismatch || p == Stored
  }

  function CoordinatorStep(s: State, a: Action): Option<State>
  {
    match a
    case Launch =>
      if s.control == Ready && s.round < s.images
      then Some(s.(control := Polling, level := 0, good := 0, hosts := MapHosts(Relaunched, s.hosts)))
      else None
    case Finish => if s.control == Ready && s.round == s.images then Some(s.(control := Finished)) else None
    case Refuse => if s.control == Ready then Some(s.(control := Refused)) else None
    case Abort => if s.control == Signalling then Some(s.(control := Aborted)) else None
    case EndPoll =>
      if s.control != Polling || exists i :: 0 <= i < |s.hosts| && !Answered(s.hosts[i].probe) then None
      else if (exists i :: 0 <= i < |s.hosts| && s.hosts[i].probe == Failed) || s.good != |s.hosts| then
        Some(s.(good := 0, hosts := MapHosts((h: Host) => h.(probe := Pending), s.hosts)))
      else if s.level == 0 then Some(s.(control := Signalling, level := 1))
      else Some(s.(control := Joining, level := 2, hosts := MapHosts((h: Host) => h.(second := Posting), s.hosts)))
    case Signal =>
      if s.control == Signalling
      then Some(s.(control := Polling, good := 0,
                   hosts := MapHosts((h: Host) => h.(first := Connecting, probe := Pending), s.hosts)))
      else None
    case Join =>
      if s.control != Joining || exists i :: 0 <= i < |s.hosts| && s.hosts[i].session == Running then None
      else if exists i :: 0 <= i < |s.hosts| && s.hosts[i].session == Broken then Some(s.(control := Aborted))
      else Some(s.(control := Ready, round := s.round + 1))
    case _ => None
  }

  predicate OfHost(a: Action)
  {
    !(a.Launch? || a.Refuse? || a.EndPoll? || a.Signal? || a.Join? || a.Abort? || a.Finish?)
  }

  function Step(s: State, a: Action): Option<State>
  {
    if !OfHost(a) then CoordinatorStep(s, a)
    else if a.i >= |s.hosts| then None
    else
      match HostStep(s, s.hosts[a.i], a)
      case None => None
      case Some(h) =>
        Some(s.(hosts := s.hosts[a.i := h],
                good := if a.StoreGood? then s.hosts[a.i].probe.seen + 1 else s.good))
  }

  /** The state after a sequence of actions, if every one of them was enabled. */
  function Run(s: State, actions: seq<Action>): Option<State>
    decreases |actions|
  {
    if actions == [] then Some(s)
    else
      match Run(s, actions[..|actions| - 1])
      case None => None
      case Some(m) => Step(m, actions[|actions| - 1])
  }

  // ---------------------------------------------------------------- the invariant

  /** How many goroutines of this polling round have stored their increment. */
  function StoredCount(hs: seq<Host>): (n: nat)
    ensures n <= |hs|
  {
    if hs == [] then 0
    else (if hs[0].probe == Stored then 1 else 0) + StoredCount(hs[1..])
  }

  function B(b: bool): nat { if b then 1 else 0 }

  /** The stage, the tokens taken and the position of `main` belong together. */
  ghost predicate Consistent(h: Host)
  {
    && h.stage <= 2
    && h.tokens == 2 * h.rounds + (if h.phase == Exited then 0 else B(h.first == Taken))
    && (h.phase in {Absent, Booting} ==> h.stage == 0)
    && (h.phase == AtFirstWait ==> h.stage == 1 && h.first != Taken)
    && (h.phase == Extracting ==> h.stage == 1 && h.first == Taken)
    && (h.phase == AtSecondWait ==> h.stage == 2)
    && (h.phase == Exited <==> h.second == Taken)
    && (h.phase == Exited ==> h.stage == 2)
    && (h.stage == 0 ==> h.first == Idle)
    && (h.stage < 2 ==> h.second == Idle)
    && (h.stage == 2 ==> h.first == Taken)
    && (h.first in {Posting, Blocked, Taken, Lost} ==> h.served || h.missed)
    && (h.session == Succeeded ==> h.phase == Exited)
  }

  ghost predicate HostInv(s: State, h: Host)
  {
    && h.stage >= s.level
    && (s.level < 1 || s.control == Signalling ==> h.first == Idle)
    && (s.level < 2 ==> h.second == Idle)
    && Consistent(h)
    && h.rounds == s.round + B(h.phase == Exited)
    && s.round <= h.starts <= s.round + 1
    && (h.phase == Absent ==> h.starts == s.round)
    && (Serving(h) || h.phase == Exited ==> h.starts == s.round + 1)
  }

  /** Between two rounds: every process has returned and nothing is in flight. */
  ghost predicate Quiet(s: State, h: Host)
  {
    && h.rounds == s.round && h.starts == s.round && h.tokens == 2 * s.round
    && (s.round == 0 ==> h == FRESH)
    && (s.round > 0 ==> h.phase == Exited && h.first == Taken && h.second == Taken && h.session == Succeeded
                        && h.stage == 2 && (h.served || h.missed))
  }

  /** What a goroutine of `waitForState` knows: it saw the expected stage, and the counter it read was
      not above the number of increments stored by then. */
  ghost predicate ProbeInv(s: State, h: Host)
  {
    && (h.probe == Matched || h.probe == Stored || h.probe.Loaded? ==> h.stage >= s.level + 1)
    && (h.probe.Loaded? ==> h.probe.seen <= StoredCount(s.hosts))
  }

  ghost predicate Inv(s: State)
  {
    && s.level <= 2 && s.round <= s.images && (s.control == Finished ==> s.round == s.images)
    && (Between(s) ==> forall i :: 0 <= i < |s.hosts| ==> Quiet(s, s.hosts[i]))
    && (!Between(s) ==> s.round < s.images && forall i :: 0 <= i < |s.hosts| ==> HostInv(s, s.hosts[i]))
    && (s.control == Polling ==>
          && s.level <= 1 && s.good <= StoredCount(s.hosts)
          && forall i :: 0 <= i < |s.hosts| ==> ProbeInv(s, s.hosts[i]))
    && (s.control == Signalling ==> s.level == 1)
    && (s.control == Joining ==> s.level == 2)
  }

  // ---------------------------------------------------------------- preservation

  lemma {:induction false} StoredCountUpdate(hs: seq<Host>, i: nat, h: Host)
    requires i < |hs|
    ensures StoredCount(hs[i := h]) == StoredCount(hs) - B(hs[i].probe == Stored) + B(h.probe == Stored)
  {
    if i == 0 {
      assert hs[0 := h][1..] == hs[1..];
    } else {
      StoredCountUpdate(hs[1..], i - 1, h);
      assert hs[i := h][1..] == hs[1..][i - 1 := h];
    }
  }

  lemma {:induction false} AllStored(hs: seq<Host>, i: nat)
    requires StoredCount(hs) == |hs| && i < |hs|
    ensures hs[i].probe == Stored
  {
    if i > 0 {
      AllStored(hs[1..], i - 1);
    }
  }

  ghost predicate Grown(h: Host, h': Host)
  {
    h'.stage >= h.stage && h'.tokens >= h.tokens && h'.rounds >= h.rounds
  }

  lemma TakeKeeps(s: State, h: Host, i: nat, which: Which, h': Host)
    requires !Between(s) && HostInv(s, h) && HostStep(s, h, Take(i, which)) == Some(h')
    ensures HostInv(s, h') && Grown(h, h')
  {
  }

  lemma PostKeeps(s: State, h: Host, a: Action, h': Host)
    requires (a.Post? || a.PostFails?) && !Between(s) && HostInv(s, h) && HostStep(s, h, a) == Some(h')
    ensures HostInv(s, h') && Grown(h, h')
  {
  }

  lemma ConnectKeeps(s: State, h: Host, a: Action, h': Host)
    requires (a.ConnectServed? || a.ConnectMissed?) && !Between(s) && HostInv(s, h) && HostStep(s, h, a) == Some(h')
    ensures HostInv(s, h') && Grown(h, h')
  {
  }

  lemma ProcessKeeps(s: State, h: Host, a: Action, h': Host)
    requires (a.Boot? || a.ReachOne? || a.ReachTwo? || a.Crash? || a.SessionEnds? || a.SessionBreaks?)
    requires !Between(s) && HostInv(s, h) && HostStep(s, h, a) == Some(h')
    ensures HostInv(s, h') && Grown(h, h')
  {
  }

  lemma HostStepKeeps(s: State, h: Host, a: Action, h': Host)
    requires OfHost(a) && !Between(s) && HostInv(s, h) && HostStep(s, h, a) == Some(h')
    ensures HostInv(s, h') && Grown(h, h')
  {
    match a {
      case Take(i, which) => TakeKeeps(s, h, i, which, h');
      case Post(_, _) => PostKeeps(s, h, a, h');
      case PostFails(_, _) => PostKeeps(s, h, a, h');
      case ConnectServed(_) => ConnectKeeps(s, h, a, h');
      case ConnectMissed(_) => ConnectKeeps(s, h, a, h');
      case ProbeFails(_) =>
      case ProbeReads(_) =>
      case LoadGood(_) =>
      case StoreGood(_) =>
      case _ => ProcessKeeps(s, h, a, h');
    }
  }

  lemma NothingMovesBetweenRounds(s: State, h: Host, a: Action)
    requires Between(s) && Quiet(s, h)
    ensures HostStep(s, h, a) == None
  {
  }

  /** How a step of one host moves its probe: only `StoreGood` adds to the stored increments. */
  lemma ProbeStepKeeps(s: State, h: Host, a: Action, h': Host)
    requires OfHost(a) && HostStep(s, h, a) == Some(h') && s.control == Polling
    requires HostInv(s, h) && ProbeInv(s, h) && s.good <= StoredCount(s.hosts)
    ensures a.StoreGood? ==> h.probe.Loaded? && h'.probe == Stored && h'.stage >= s.level + 1
    ensures !a.StoreGood? ==> ProbeInv(s, h') && (h'.probe == Stored <==> h.probe == Stored)
  {
    HostStepKeeps(s, h, a, h');
  }

  /** A step of one host during a round keeps what is known of every host. */
  lemma HostStepHosts(s: State, a: Action, s': State)
    requires Inv(s) && OfHost(a) && Step(s, a) == Some(s') && !Between(s)
    ensures forall j :: 0 <= j < |s'.hosts| ==> HostInv(s', s'.hosts[j])
  {
    HostStepKeeps(s, s.hosts[a.i], a, HostStep(s, s.hosts[a.i], a).value);
    forall j | 0 <= j < |s'.hosts| ensures HostInv(s', s'.hosts[j]) {
      assert HostInv(s, s.hosts[j]);
    }
  }

  lemma HostStepProbes(s: State, a: Action, s': State)
    requires Inv(s) && OfHost(a) && Step(s, a) == Some(s') && s.control == Polling
    ensures s'.good <= StoredCount(s'.hosts)
    ensures forall j :: 0 <= j < |s'.hosts| ==> ProbeInv(s', s'.hosts[j])
  {
    var h := s.hosts[a.i];
    var h' := HostStep(s, h, a).value;
    assert HostInv(s, h) && ProbeInv(s, h);
    ProbeStepKeeps(s, h, a, h');
    StoredCountUpdate(s.hosts, a.i, h');
    forall j | 0 <= j < |s'.hosts| ensures ProbeInv(s', s'.hosts[j]) {
      assert ProbeInv(s, s.hosts[j]);
    }
  }

  /** The hosts take steps only during a round. */
  lemma HostStepsInRound(s: State, a: Action)
    requires Inv(s) && OfHost(a) && Step(s, a).Some?
    ensures !Between(s)
  {
    if Between(s) {
      NothingMovesBetweenRounds(s, s.hosts[a.i], a);
      assert false;
    }
  }

  lemma HostStepInv(s: State, a: Action, s': State)
    requires Inv(s) && OfHost(a) && Step(s, a) == Some(s')
    ensures Inv(s')
  {
    HostStepsInRound(s, a);
    HostStepHosts(s, a, s');
    if s.control == Polling {
      HostStepProbes(s, a, s');
    }
  }

  lemma BarrierHolds(s: State)
    requires Inv(s) && s.control == Polling && s.good == |s.hosts|
    ensures forall i :: 0 <= i < |s.hosts| ==> s.hosts[i].stage >= s.level + 1
  {
    forall i | 0 <= i < |s.hosts| ensures s.hosts[i].stage >= s.level + 1 {
      AllStored(s.hosts, i);
      assert ProbeInv(s, s.hosts[i]);
    }
  }

  lemma {:induction false} NoneStored(hs: seq<Host>)
    requires forall i :: 0 <= i < |hs| ==> hs[i].probe == Pending
    ensures StoredCount(hs) == 0
  {
    if hs != [] {
      NoneStored(hs[1..]);
    }
  }

  lemma LaunchKeepsHost(s: State, s': State, j: nat)
    requires Inv(s) && CoordinatorStep(s, Launch) == Some(s') && j < |s.hosts|
    ensures HostInv(s', s'.hosts[j]) && s'.hosts[j].probe == Pending
  {
    assert Quiet(s, s.hosts[j]);
    assert s'.hosts[j] == Relaunched(s.hosts[j]);
  }

  /** The end of a polling round: another one, the release of the first wait, or the second `Posting` of each host. */
  lemma EndPollEffect(s: State, s': State, j: nat)
    requires Inv(s) && CoordinatorStep(s, EndPoll) == Some(s') && j < |s.hosts|
    ensures s.control == Polling && s'.round == s.round && |s'.hosts| == |s.hosts|
    ensures s'.control == Polling ==> s'.level == s.level && s'.hosts[j] == s.hosts[j].(probe := Pending)
    ensures s'.control == Signalling ==> s.level == 0 && s'.level == 1 && s'.hosts[j] == s.hosts[j]
    ensures s'.control == Joining ==>
              s.level == 1 && s'.level == 2 && s'.hosts[j] == s.hosts[j].(second := Posting)
    ensures s'.control == Polling || s'.control == Signalling || s'.control == Joining
  {
  }

  lemma EndPollKeepsHost(s: State, s': State, j: nat)
    requires Inv(s) && CoordinatorStep(s, EndPoll) == Some(s') && j < |s.hosts|
    requires s'.level > s.level ==> s.hosts[j].stage >= s'.level
    ensures HostInv(s', s'.hosts[j]) && (s'.control == Polling ==> s'.hosts[j].probe == Pending)
  {
    EndPollEffect(s, s', j);
    assert HostInv(s, s.hosts[j]);
  }

  lemma SignalKeepsHost(s: State, s': State, j: nat)
    requires Inv(s) && CoordinatorStep(s, Signal) == Some(s') && j < |s.hosts|
    ensures HostInv(s', s'.hosts[j]) && s'.hosts[j].probe == Pending
  {
    assert HostInv(s, s.hosts[j]);
  }

  lemma JoinKeepsHost(s: State, s': State, j: nat)
    requires Inv(s) && CoordinatorStep(s, Join) == Some(s') && j < |s.hosts|
    ensures if Between(s') then Quiet(s', s'.hosts[j]) else HostInv(s', s'.hosts[j])
  {
    var h := s.hosts[j];
    assert HostInv(s, h);
    assert h.session != Running && s'.hosts == s.hosts;
    assert s'.control == Ready ==> h.session == Succeeded;
  }

  lemma RestKeepsHost(s: State, a: Action, s': State, j: nat)
    requires Inv(s) && (a == Finish || a == Refuse || a == Abort) && CoordinatorStep(s, a) == Some(s') && j < |s.hosts|
    ensures if Between(s') then Quiet(s', s'.hosts[j]) else HostInv(s', s'.hosts[j])
    ensures s'.control != Polling
  {
    if Between(s) {
      assert Quiet(s, s.hosts[j]);
    } else {
      assert HostInv(s, s.hosts[j]);
    }
  }

  /** What each coordinator step does to one host, with the facts the barrier has established. */
  lemma CoordinatorKeepsHost(s: State, a: Action, s': State, j: nat)
    requires Inv(s) && !OfHost(a) && CoordinatorStep(s, a) == Some(s') && j < |s.hosts|
    requires |s'.hosts| == |s.hosts| && (s'.level > s.level ==> s.hosts[j].stage >= s'.level)
    ensures if Between(s') then Quiet(s', s'.hosts[j]) else HostInv(s', s'.hosts[j])
    ensures s'.control == Polling ==> s'.hosts[j].probe == Pending
  {
    match a {
      case Launch => LaunchKeepsHost(s, s', j);
      case EndPoll => EndPollKeepsHost(s, s', j);
      case Signal => SignalKeepsHost(s, s', j);
      case Join => JoinKeepsHost(s, s', j);
      case _ => RestKeepsHost(s, a, s', j);
    }
  }

  /** The levels, rounds and controls of the coordinator go together. */
  ghost predicate ControlInv(s: State)
  {
    && s.level <= 2 && s.round <= s.images && (s.control == Finished ==> s.round == s.images)
    && (!Between(s) ==> s.round < s.images)
    && (s.control == Polling ==> s.level <= 1)
    && (s.control == Signalling ==> s.level == 1)
    && (s.control == Joining ==> s.level == 2)
  }

  lemma CoordinatorControl(s: State, a: Action, s': State)
    requires ControlInv(s) && !OfHost(a) && CoordinatorStep(s, a) == Some(s')
    ensures ControlInv(s') && s'.images == s.images && |s'.hosts| == |s.hosts|
    ensures s'.level > s.level ==>
            a == EndPoll && s.control == Polling && s.good == |s.hosts| && s'.level == s.level + 1
    ensures s'.control == Polling ==> s'.good == 0
  {
  }

  lemma CoordinatorStepInv(s: State, a: Action, s': State)
    requires Inv(s) && !OfHost(a) && CoordinatorStep(s, a) == Some(s')
    ensures Inv(s') && s'.images == s.images && |s'.hosts| == |s.hosts|
  {
    CoordinatorControl(s, a, s');
    if s'.level > s.level {
      BarrierHolds(s);
    }
    forall j | 0 <= j < |s'.hosts|
      ensures if Between(s') then Quiet(s', s'.hosts[j]) else HostInv(s', s'.hosts[j])
      ensures s'.control == Polling ==> s'.hosts[j].probe == Pending
    {
      CoordinatorKeepsHost(s, a, s', j);
    }
    if s'.control == Polling {
      NoneStored(s'.hosts);
    }
  }

  lemma StepInv(s: State, a: Action, s': State)
    requires Inv(s) && Step(s, a) == Some(s')
    ensures Inv(s') && s'.images == s.images && |s'.hosts| == |s.hosts|
  {
    if OfHost(a) {
      HostStepInv(s, a, s');
    } else {
      CoordinatorStepInv(s, a, s');
    }
  }

  ghost predicate Sound(s: Option<State>, images: nat, n: nat)
  {
    s.Some? ==> Inv(s.value) && s.value.images == images && |s.value.hosts| == n
  }

  lemma StepSound(s: State, a: Action, images: nat, n: nat)
    requires Sound(Some(s), images, n)
    ensures Sound(Step(s, a), images, n)
  {
    if Step(s, a).Some? {
      StepInv(s, a, Step(s, a).value);
    }
  }

  lemma {:induction false} RunInv(images: nat, n: nat, actions: seq<Action>)
    ensures Sound(Run(Init(images, n), actions), images, n)
    decreases |actions|
  {
    if actions != [] {
      var before := actions[..|actions| - 1];
      RunInv(images, n, before);
      if Run(Init(images, n), before).Some? {
        StepSound(Run(Init(images, n), before).value, actions[|actions| - 1], images, n);
      }
    }
  }

  // ---------------------------------------------------------------- what holds in every run

  ghost predicate Reaches(images: nat, n: nat, actions: seq<Action>, s: State)
  {
    Run(Init(images, n), actions) == Some(s)
  }

  /** `main` has returned from its first `<-sig`. */
  predicate PastFirstWait(h: Host)
  {
    h.phase in {Extracting, AtSecondWait, Exited}
  }

  /** Two-barrier safety: nobody starts extracting before everybody has announced stage 1, and nobody
      exits before everybody has finished extracting (stage 2). */
  lemma TwoBarriers(images: nat, n: nat, actions: seq<Action>, s: State, i: nat, j: nat)
    requires Reaches(images, n, actions, s) && i < n && j < n
    ensures |s.hosts| == n
    ensures PastFirstWait(s.hosts[i]) ==> s.hosts[j].stage >= 1
    ensures s.hosts[i].phase == Exited ==> s.hosts[j].stage == 2
    ensures s.hosts[j].stage == 2 ==> s.hosts[j].phase in {AtSecondWait, Exited, Crashed}
  {
    RunInv(images, n, actions);
    if Between(s) {
      assert Quiet(s, s.hosts[i]) && Quiet(s, s.hosts[j]);
    } else {
      assert HostInv(s, s.hosts[i]) && HostInv(s, s.hosts[j]);
    }
  }

  /** Token conservation: two rendezvous per completed round, one more while extracting or waiting for
      the second, and no `/next` left in flight once the process has returned. */
  lemma TokenConservation(images: nat, n: nat, actions: seq<Action>, s: State, i: nat)
    requires Reaches(images, n, actions, s) && i < n
    ensures |s.hosts| == n
    ensures var h := s.hosts[i];
            && h.tokens == 2 * h.rounds + (if h.phase != Exited && h.first == Taken then 1 else 0)
            && (h.phase == Exited ==> h.first == Taken && h.second == Taken && h.tokens == 2 * h.rounds)
    ensures s.control == Finished ==> s.hosts[i].rounds == images && s.hosts[i].tokens == 2 * images
  {
    RunInv(images, n, actions);
    if Between(s) {
      assert Quiet(s, s.hosts[i]);
    } else {
      assert HostInv(s, s.hosts[i]);
    }
  }

  /** Round isolation: when the k-th process has been started on some host, every host has returned
      from the k-1 processes before it. */
  lemma RoundIsolation(images: nat, n: nat, actions: seq<Action>, s: State, i: nat, j: nat)
    requires Reaches(images, n, actions, s) && i < n && j < n
    ensures |s.hosts| == n
    ensures s.hosts[i].starts <= s.hosts[j].rounds + 1
    ensures Serving(s.hosts[i]) ==> s.hosts[j].rounds >= s.hosts[i].starts - 1 == s.hosts[i].rounds
  {
    RunInv(images, n, actions);
    if Between(s) {
      assert Quiet(s, s.hosts[i]) && Quiet(s, s.hosts[j]);
    } else {
      assert HostInv(s, s.hosts[i]) && HostInv(s, s.hosts[j]);
    }
  }

  function ReachedCount(hs: seq<Host>, stage: nat): (n: nat)
  {
    if hs == [] then 0 else B(hs[0].stage >= stage) + ReachedCount(hs[1..], stage)
  }

  lemma {:induction false} StoredReached(hs: seq<Host>, stage: nat)
    requires forall i :: 0 <= i < |hs| && hs[i].probe == Stored ==> hs[i].stage >= stage
    ensures StoredCount(hs) <= ReachedCount(hs, stage)
  {
    if hs != [] {
      StoredReached(hs[1..], stage);
    }
  }

  /** The unsynchronised counter `good` never exceeds the number of receivers that have reached the
      expected stage, whatever increments are lost. */
  lemma CounterNeverOvercounts(images: nat, n: nat, actions: seq<Action>, s: State)
    requires Reaches(images, n, actions, s) && s.control == Polling
    ensures s.good <= ReachedCount(s.hosts, s.level + 1)
  {
    RunInv(images, n, actions);
    forall i | 0 <= i < |s.hosts| && s.hosts[i].probe == Stored ensures s.hosts[i].stage >= s.level + 1 {
      assert ProbeInv(s, s.hosts[i]);
    }
    StoredReached(s.hosts, s.level + 1);
  }

  lemma CoordinatorGrows(s: State, a: Action, s': State, i: nat)
    requires !OfHost(a) && CoordinatorStep(s, a) == Some(s') && a != Launch && i < |s.hosts|
    ensures |s'.hosts| == |s.hosts| && Grown(s.hosts[i], s'.hosts[i])
  {
  }

  lemma StepGrows(s: State, a: Action, s': State, i: nat)
    requires Inv(s) && Step(s, a) == Some(s') && a != Launch && i < |s.hosts|
    ensures |s'.hosts| == |s.hosts| && Grown(s.hosts[i], s'.hosts[i])
  {
    if OfHost(a) {
      HostStepsInRound(s, a);
      assert HostInv(s, s.hosts[a.i]);
      HostStepKeeps(s, s.hosts[a.i], a, HostStep(s, s.hosts[a.i], a).value);
    } else {
      CoordinatorGrows(s, a, s', i);
    }
  }

  /** Stages, tokens and completed rounds only grow until the next launch. */
  lemma {:induction false} StagesOnlyGrow(s: State, actions: seq<Action>, s': State, i: nat)
    requires Inv(s) && Run(s, actions) == Some(s') && Launch !in actions && i < |s.hosts|
    ensures Inv(s') && |s'.hosts| == |s.hosts|
    ensures s'.hosts[i].stage >= s.hosts[i].stage && s'.hosts[i].tokens >= s.hosts[i].tokens
    ensures s'.hosts[i].rounds >= s.hosts[i].rounds
    decreases |actions|
  {
    if actions != [] {
      var before, a := actions[..|actions| - 1], actions[|actions| - 1];
      var m := Run(s, before).value;
      StagesOnlyGrow(s, before, m, i);
      StepGrows(m, a, s', i);
      StepInv(m, a, s');
    }
  }

  /** What happened after the last launch. */
  function SinceLaunch(actions: seq<Action>): seq<Action>
  {
    if actions == [] || actions[|actions| - 1] == Launch then []
    else SinceLaunch(actions[..|actions| - 1]) + [actions[|actions| - 1]]
  }

  /** The `/connect` of a round is answered at most once, and not before it is sent. */
  ghost predicate ConnectInv(h: Host)
  {
    !(h.served && h.missed) && (h.first in {Idle, Connecting} ==> !h.served && !h.missed)
  }

  /** How an action changes what is recorded of the `/connect` of host `i`. */
  ghost predicate Records(h: Host, a: Action, i: nat, h': Host)
  {
    && ConnectInv(h')
    && (h'.missed <==> a != Launch && (h.missed || a == ConnectMissed(i)))
    && (h'.served <==> a != Launch && (h.served || a == ConnectServed(i)))
  }

  lemma HostRecords(s: State, h: Host, a: Action, h': Host)
    requires OfHost(a) && HostStep(s, h, a) == Some(h') && ConnectInv(h)
    ensures Records(h, a, a.i, h')
  {
  }

  lemma CoordinatorRecords(s: State, a: Action, s': State, i: nat)
    requires Inv(s) && !OfHost(a) && CoordinatorStep(s, a) == Some(s') && i < |s.hosts| && ConnectInv(s.hosts[i])
    ensures |s'.hosts| == |s.hosts| && Records(s.hosts[i], a, i, s'.hosts[i])
  {
    match a {
      case Launch => assert s'.hosts[i] == Relaunched(s.hosts[i]);
      case Signal => assert HostInv(s, s.hosts[i]);
      case _ =>
    }
  }

  /** A step of one host leaves the others alone. */
  lemma StepOfHost(s: State, a: Action, s': State)
    requires OfHost(a) && Step(s, a) == Some(s')
    ensures a.i < |s.hosts| == |s'.hosts| && HostStep(s, s.hosts[a.i], a) == Some(s'.hosts[a.i])
    ensures forall j :: 0 <= j < |s.hosts| && j != a.i ==> s'.hosts[j] == s.hosts[j]
  {
  }

  lemma OtherHostRecords(h: Host, a: Action, i: nat)
    requires OfHost(a) && a.i != i && ConnectInv(h)
    ensures Records(h, a, i, h)
  {
  }

  lemma ConnectStep(m: State, a: Action, s: State, i: nat)
    requires Inv(m) && Step(m, a) == Some(s) && i < |m.hosts| && ConnectInv(m.hosts[i])
    ensures |s.hosts| == |m.hosts| && Records(m.hosts[i], a, i, s.hosts[i])
  {
    if !OfHost(a) {
      CoordinatorRecords(m, a, s, i);
    } else {
      StepOfHost(m, a, s);
      if a.i == i {
        HostRecords(m, m.hosts[i], a, s.hosts[i]);
      } else {
        OtherHostRecords(m.hosts[i], a, i);
      }
    }
  }

  /** `served` and `missed` record exactly the answers since the last launch. */
  lemma {:induction false} ConnectRecorded(images: nat, n: nat, actions: seq<Action>, s: State, i: nat)
    requires Reaches(images, n, actions, s) && i < n
    ensures |s.hosts| == n && ConnectInv(s.hosts[i])
    ensures s.hosts[i].missed <==> ConnectMissed(i) in SinceLaunch(actions)
    ensures s.hosts[i].served <==> ConnectServed(i) in SinceLaunch(actions)
    decreases |actions|
  {
    if actions != [] {
      var before, a := actions[..|actions| - 1], actions[|actions| - 1];
      var m := Run(Init(images, n), before).value;
      ConnectRecorded(images, n, before, m, i);
      RunInv(images, n, before);
      ConnectStep(m, a, s, i);
    }
  }

  /** Once its first token is on the way, and so past its first wait, a receiver got its peer list in this round if and
      only if the request of this round did not fail; the answer was one or the other. */
  lemma ConnectPrecedesToken(images: nat, n: nat, actions: seq<Action>, s: State, i: nat)
    requires Reaches(images, n, actions, s) && i < n
    ensures |s.hosts| == n
    ensures PastFirstWait(s.hosts[i]) || s.hosts[i].first in {Posting, Blocked, Taken, Lost} ==>
              && (s.hosts[i].served <==> ConnectServed(i) in SinceLaunch(actions))
              && (ConnectServed(i) in SinceLaunch(actions) <==> ConnectMissed(i) !in SinceLaunch(actions))
  {
    ConnectRecorded(images, n, actions, s, i);
    RunInv(images, n, actions);
    if Between(s) {
      assert Quiet(s, s.hosts[i]);
    } else {
      assert HostInv(s, s.hosts[i]);
    }
  }

  /** The run `actions` leads from `s0` to `s`, and one more action to `s'`. */
  lemma Do(s0: State, actions: seq<Action>, s: State, a: Action, s': State)
    returns (actions': seq<Action>)
    requires Run(s0, actions) == Some(s) && Step(s, a).Some? && |s'.hosts| == 1
    requires var t := Step(s, a).value;
             t.(hosts := []) == s'.(hosts := []) && |t.hosts| == 1 && t.hosts[0] == s'.hosts[0]
    ensures Run(s0, actions') == Some(s')
  {
    actions' := actions + [a];
    assert Step(s, a).value.hosts == s'.hosts;
    assert actions'[..|actions'| - 1] == actions;
  }

  /** The only host of a run with one image and one receiver. */
  function Alone(control: Control, level: nat, good: nat, h: Host): State
  {
    State(1, 0, control, level, good, [h])
  }

  /** One polling round that finds the only receiver at the expected stage. */
  lemma PollOnce(s0: State, actions: seq<Action>, level: nat, h: Host) returns (actions': seq<Action>)
    requires Run(s0, actions) == Some(Alone(Polling, level, 0, h))
    requires Serving(h) && h.probe == Pending && h.stage == level + 1
    ensures Run(s0, actions') == Some(Alone(Polling, level, 1, h.(probe := Stored)))
  {
    var s1, s2 := Alone(Polling, level, 0, h), Alone(Polling, level, 0, h.(probe := Matched));
    var s3, s4 := Alone(Polling, level, 0, h.(probe := Loaded(0))), Alone(Polling, level, 1, h.(probe := Stored));
    ReadStep(level, h);
    LoadStep(level, h);
    StoreStep(level, h);
    actions' := Do(s0, actions, s1, ProbeReads(0), s2);
    actions' := Do(s0, actions', s2, LoadGood(0), s3);
    actions' := Do(s0, actions', s3, StoreGood(0), s4);
  }

  lemma ReadStep(level: nat, h: Host)
    requires Serving(h) && h.probe == Pending && h.stage == level + 1
    ensures Step(Alone(Polling, level, 0, h), ProbeReads(0)) == Some(Alone(Polling, level, 0, h.(probe := Matched)))
  {
    assert [h][0 := h.(probe := Matched)] == [h.(probe := Matched)];
  }

  lemma LoadStep(level: nat, h: Host)
    ensures Step(Alone(Polling, level, 0, h.(probe := Matched)), LoadGood(0)) ==
            Some(Alone(Polling, level, 0, h.(probe := Loaded(0))))
  {
    assert [h.(probe := Matched)][0 := h.(probe := Loaded(0))] == [h.(probe := Loaded(0))];
  }

  lemma StoreStep(level: nat, h: Host)
    ensures Step(Alone(Polling, level, 0, h.(probe := Loaded(0))), StoreGood(0)) ==
            Some(Alone(Polling, level, 1, h.(probe := Stored)))
  {
    assert [h.(probe := Loaded(0))][0 := h.(probe := Stored)] == [h.(probe := Stored)];
  }

  /** A run of one receiver and one image up to the first barrier. */
  lemma UpToFirstBarrier() returns (actions: seq<Action>)
    ensures Reaches(1, 1, actions,
            Alone(Polling, 0, 1, FRESH.(phase := AtFirstWait, stage := 1, starts := 1, probe := Stored)))
  {
    var s0 := Init(1, 1);
    var booting := FRESH.(phase := Booting, starts := 1);
    var waiting := booting.(phase := AtFirstWait, stage := 1);
    actions := Do(s0, [], s0, Launch, Alone(Polling, 0, 0, FRESH));
    actions := Do(s0, actions, Alone(Polling, 0, 0, FRESH), Boot(0), Alone(Polling, 0, 0, booting));
    actions := Do(s0, actions, Alone(Polling, 0, 0, booting), ReachOne(0), Alone(Polling, 0, 0, waiting));
    actions := PollOnce(s0, actions, 0, waiting);
  }

  /** ... through the first barrier, so that its `/connect` is on the way. */
  lemma UpToConnect() returns (actions: seq<Action>)
    ensures Reaches(1, 1, actions,
            Alone(Polling, 1, 0, Host(AtFirstWait, 1, false, false, Connecting, Idle, Pending, Running, 0, 1, 0)))
  {
    var s0 := Init(1, 1);
    var h := FRESH.(phase := AtFirstWait, stage := 1, starts := 1, probe := Stored);
    actions := UpToFirstBarrier();
    actions := Do(s0, actions, Alone(Polling, 0, 1, h), EndPoll, Alone(Signalling, 1, 1, h));
    actions := Do(s0, actions, Alone(Signalling, 1, 1, h), Signal,
      Alone(Polling, 1, 0, h.(first := Connecting, probe := Pending)));
  }

  /** ... and on, when that request fails, to the handler blocked at the channel. */
  lemma UpToRendezvous() returns (actions: seq<Action>)
    ensures Reaches(1, 1, actions,
            Alone(Polling, 1, 0, Host(AtFirstWait, 1, false, true, Blocked, Idle, Pending, Running, 0, 1, 0)))
  {
    var s0 := Init(1, 1);
    var h1 := Host(AtFirstWait, 1, false, false, Connecting, Idle, Pending, Running, 0, 1, 0);
    var h2 := h1.(first := Posting, missed := true);
    assert HostStep(Alone(Polling, 1, 0, h1), h1, ConnectMissed(0)) == Some(h2);
    assert HostStep(Alone(Polling, 1, 0, h2), h2, Post(0, FirstToken)) == Some(h2.(first := Blocked));
    actions := UpToConnect();
    actions := Do(s0, actions, Alone(Polling, 1, 0, h1), ConnectMissed(0), Alone(Polling, 1, 0, h2));
    actions := Do(s0, actions, Alone(Polling, 1, 0, h2), Post(0, FirstToken),
      Alone(Polling, 1, 0, h2.(first := Blocked)));
  }

  /** "A served `/connect` always precedes the first token" is false: here the request fails and the
      receiver takes its first token and extracts without a peer list. */
  lemma ConnectMayBeMissed() returns (actions: seq<Action>, s: State)
    ensures Reaches(1, 1, actions, s)
    ensures |s.hosts| == 1 && PastFirstWait(s.hosts[0]) && !s.hosts[0].served
  {
    var h := Host(AtFirstWait, 1, false, true, Blocked, Idle, Pending, Running, 0, 1, 0);
    actions := UpToRendezvous();
    s := Alone(Polling, 1, 0, h.(first := Taken, phase := Extracting, tokens := 1));
    actions := Do(Init(1, 1), actions, Alone(Polling, 1, 0, h), Take(0, FirstToken), s);
  }
}
