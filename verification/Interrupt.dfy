/**
 `pkg/debug/interrupt.go`: handlers that run their notify functions once, chained to parent handlers.

 Any number of threads call `Close`, `Signal` and `Run` on any handlers of the chains.  The model is a
 transition system over the `sync.Once` of every handler; a sequence of actions is an arbitrary
 interleaving.
 */
module Interrupt {
  import opened Options

  /** A handler made by `New` (no parent) or by `Chain`: `own` notify functions, followed by the parent's
      `Close` when there is one.  Without a parent, `exits` says that no final function was given. */
  datatype Handler = Handler(own: nat, parent: Option<nat>, exits: bool)

  type Table = seq<Handler>

  /** A handler can only be chained to one that exists already. */
  ghost predicate ValidTable(t: Table)
  {
    forall i :: 0 <= i < |t| && t[i].parent.Some? ==> t[i].parent.value < i
  }

  /** The state of a handler's `once`: not entered, running the function of `Close` or `Signal` with the next
      notify function to run, or complete. */
  datatype Phase = Idle | Running(signal: bool, next: nat) | Done(signal: bool)

  /** `Critical`: inside the function given to `Run`.  `Pending`: at `once.Do`. */
  datatype Status = Critical | Pending | Returned

  datatype Call = Call(handler: nat, signal: bool, status: Status)

  datatype State = State(phases: seq<Phase>, calls: seq<Call>, log: seq<(nat, nat)>, finals: seq<nat>, exited: bool)

  datatype Action =
    | Close(handler: nat)
    | Signal(handler: nat)
    | Run(handler: nat)
    | Leave(call: nat)      // the critical section of `Run` ends and its deferred `Close` is called
    | Enter(call: nat)      // `once.Do` starts the function
    | Return(call: nat)     // `once.Do` returns: the function is complete
    | Notify(handler: nat)  // one own notify function runs
    | Ascend(handler: nat)  // the notify function after the own ones: the parent's `Close`
    | Finish(handler: nat)  // all notify functions have run; a signal goes on to the final function

  /** `len(h.notify)` */
  function Length(h: Handler): nat
  {
    h.own + if h.parent.Some? then 1 else 0
  }

  function Start(t: Table): State
  {
    State(seq(|t|, _ => Idle), [], [], [], false)
  }

  function Invoke(s: State, c: Call): Option<State>
  {
    if c.handler < |s.phases| then Some(s.(calls := s.calls + [c])) else None
  }

  function SetPhase(s: State, h: nat, p: Phase): State
    requires h < |s.phases|
  {
    s.(phases := s.phases[h := p])
  }

  function SetStatus(s: State, c: nat, status: Status): State
    requires c < |s.calls|
  {
    s.(calls := s.calls[c := s.calls[c].(status := status)])
  }

  /** The call of the parent's `once.Do` from handler `h`: starts it, waits for it, or goes on. */
  function CallParent(s: State, parent: nat, signal: bool, h: nat, after: Phase): Option<State>
    requires h < |s.phases|
  {
    if parent >= |s.phases| then None
    else
      match s.phases[parent]
      case Idle => Some(SetPhase(s, parent, Running(signal, 0)))
      case Running(_, _) => None
      case Done(_) => Some(SetPhase(s, h, after))
  }

  function FinishSignal(t: Table, s: State, h: nat): Option<State>
    requires h < |t| == |s.phases|
  {
    match t[h].parent
    case Some(p) => CallParent(s, p, true, h, Done(true))
    case None =>
      if t[h].exits then Some(s.(exited := true))
      else Some(SetPhase(s, h, Done(true)).(finals := s.finals + [h]))
  }

  function HandlerStep(t: Table, s: State, a: Action): Option<State>
    requires |t| == |s.phases|
  {
    match a
    case Notify(h) =>
      if h < |t| && s.phases[h].Running? && s.phases[h].next < t[h].own
      then Some(SetPhase(s, h, s.phases[h].(next := s.phases[h].next + 1)).(log := s.log + [(h, s.phases[h].next)]))
      else None
    case Ascend(h) =>
      if h < |t| && s.phases[h].Running? && s.phases[h].next == t[h].own && t[h].parent.Some?
      then CallParent(s, t[h].parent.value, false, h, s.phases[h].(next := t[h].own + 1))
      else None
    case Finish(h) =>
      if h < |t| && s.phases[h].Running? && s.phases[h].next == Length(t[h])
      then if s.phases[h].signal then FinishSignal(t, s, h) else Some(SetPhase(s, h, Done(false)))
      else None
    case _ => None
  }

  function CallStep(s: State, a: Action): Option<State>
  {
    match a
    case Close(h) => Invoke(s, Call(h, false, Pending))
    case Signal(h) => Invoke(s, Call(h, true, Pending))
    case Run(h) => Invoke(s, Call(h, false, Critical))
    case Leave(c) => if c < |s.calls| && s.calls[c].status.Critical? then Some(SetStatus(s, c, Pending)) else None
    case Enter(c) =>
      if c < |s.calls| && s.calls[c].status.Pending? && s.calls[c].handler < |s.phases|
        && s.phases[s.calls[c].handler].Idle?
      then Some(SetPhase(s, s.calls[c].handler, Running(s.calls[c].signal, 0)))
      else None
    case Return(c) =>
      if c < |s.calls| && s.calls[c].status.Pending? && s.calls[c].handler < |s.phases|
        && s.phases[s.calls[c].handler].Done?
      then Some(SetStatus(s, c, Returned))
      else None
    case _ => None
  }

  function Step(t: Table, s: State, a: Action): Option<State>
    requires |t| == |s.phases|
  {
    if s.exited then None
    else if a.Notify? || a.Ascend? || a.Finish? then HandlerStep(t, s, a)
    else CallStep(s, a)
  }

  /** A run of the system; `None` when an action is not enabled. */
  function Play(t: Table, actions: seq<Action>): (r: Option<State>)
    ensures r.Some? ==> |r.value.phases| == |t|
  {
    if actions == [] then Some(Start(t))
    else
      var s := Play(t, actions[..|actions| - 1]);
      if s.None? then None else Step(t, s.value, actions[|actions| - 1])
  }

  // ---------------------------------------------------------------- invariant

  /** How many own notify functions of a handler have run. */
  function Progress(h: Handler, p: Phase): nat
  {
    match p
    case Idle => 0
    case Running(_, next) => if next <= h.own then next else h.own
    case Done(_) => h.own
  }

  ghost predicate ParentDone(t: Table, s: State, h: nat)
    requires h < |t| == |s.phases|
  {
    match t[h].parent
    case None => true
    case Some(p) => p < |t| && s.phases[p].Done?
  }

  ghost predicate HandlerInv(t: Table, s: State, h: nat)
    requires h < |t| == |s.phases|
  {
    && (s.phases[h].Running? ==> s.phases[h].next <= Length(t[h]))
    && (s.phases[h].Running? && s.phases[h].next > t[h].own ==> ParentDone(t, s, h))
    && (s.phases[h].Done? ==> ParentDone(t, s, h))
    && (h in s.finals <==> t[h].parent.None? && s.phases[h] == Done(true))
  }

  ghost predicate LogExact(t: Table, s: State)
    requires |t| == |s.phases|
  {
    && (forall h, k | 0 <= h < |t| && 0 <= k :: (h, k) in s.log <==> k < Progress(t[h], s.phases[h]))
    && forall i, j :: 0 <= i < j < |s.log| ==> s.log[i] != s.log[j]
  }

  ghost predicate CallInv(t: Table, s: State, c: Call)
    requires |t| == |s.phases|
  {
    && c.handler < |t|
    && (c.status.Returned? ==> s.phases[c.handler].Done?)
  }

  ghost predicate Inv(t: Table, s: State)
  {
    && |t| == |s.phases|
    && (forall h :: 0 <= h < |t| ==> HandlerInv(t, s, h))
    && (forall c :: 0 <= c < |s.calls| ==> CallInv(t, s, s.calls[c]))
    && LogExact(t, s)
    && (forall i :: 0 <= i < |s.log| ==> s.log[i].0 < |t|)
  }

  lemma NotifyInv(t: Table, s: State, h: nat)
    requires ValidTable(t) && Inv(t, s) && HandlerStep(t, s, Notify(h)).Some?
    ensures Inv(t, HandlerStep(t, s, Notify(h)).value)
  {
    var s' := HandlerStep(t, s, Notify(h)).value;
    forall g | 0 <= g < |t| ensures HandlerInv(t, s', g) {
      assert HandlerInv(t, s, g);
    }
    var k := s.phases[h].next;
    assert (h, k) !in s.log;
    forall g, j | 0 <= g < |t| && 0 <= j ensures (g, j) in s'.log <==> j < Progress(t[g], s'.phases[g]) {
      assert (g, j) in s.log <==> j < Progress(t[g], s.phases[g]);
    }
  }

  /** A change of one phase that keeps its progress and does not touch a handler that is done. */
  lemma PhaseInv(t: Table, s: State, h: nat, p: Phase)
    requires ValidTable(t) && Inv(t, s) && h < |t| && !s.phases[h].Done?
    requires Progress(t[h], p) == Progress(t[h], s.phases[h])
    requires p != Done(true) || t[h].parent.Some?
    requires p.Running? ==> p.next <= Length(t[h])
    requires p.Done? || (p.Running? && p.next > t[h].own) ==> ParentDone(t, s, h)
    ensures Inv(t, SetPhase(s, h, p))
  {
    var s' := SetPhase(s, h, p);
    forall g | 0 <= g < |t| ensures HandlerInv(t, s', g) {
      assert HandlerInv(t, s, g);
    }
    assert LogExact(t, s');
  }

  lemma FinalInv(t: Table, s: State, h: nat)
    requires ValidTable(t) && Inv(t, s) && h < |t| && s.phases[h].Running? && s.phases[h].next == Length(t[h])
    requires t[h].parent.None?
    ensures Inv(t, SetPhase(s, h, Done(true)).(finals := s.finals + [h]))
  {
    var s' := SetPhase(s, h, Done(true)).(finals := s.finals + [h]);
    forall g | 0 <= g < |t| ensures HandlerInv(t, s', g) {
      assert HandlerInv(t, s, g);
    }
    assert LogExact(t, s');
  }

  lemma AscendInv(t: Table, s: State, h: nat)
    requires ValidTable(t) && Inv(t, s) && HandlerStep(t, s, Ascend(h)).Some?
    ensures Inv(t, HandlerStep(t, s, Ascend(h)).value)
  {
    var p := t[h].parent.value;
    if s.phases[p].Idle? {
      PhaseInv(t, s, p, Running(false, 0));
    } else {
      PhaseInv(t, s, h, s.phases[h].(next := t[h].own + 1));
    }
  }

  /** What `Finish` does in a state that keeps the invariant: the parent of a chained handler is done already. */
  lemma FinishEffect(t: Table, s: State, h: nat)
    requires ValidTable(t) && Inv(t, s) && HandlerStep(t, s, Finish(h)).Some?
    ensures h < |t| && s.phases[h].Running? && s.phases[h].next == Length(t[h]) && ParentDone(t, s, h)
    ensures HandlerStep(t, s, Finish(h)).value ==
            if s.phases[h].signal && Exits(t[h]) then s.(exited := true)
            else if s.phases[h].signal && t[h].parent.None? then SetPhase(s, h, Done(true)).(finals := s.finals + [h])
            else SetPhase(s, h, Done(s.phases[h].signal))
  {
    assert HandlerInv(t, s, h);
  }

  lemma ExitInv(t: Table, s: State)
    requires ValidTable(t) && Inv(t, s)
    ensures Inv(t, s.(exited := true))
  {
    assert LogExact(t, s.(exited := true));
    forall g | 0 <= g < |t| ensures HandlerInv(t, s.(exited := true), g) {
      assert HandlerInv(t, s, g);
    }
  }

  lemma FinishInv(t: Table, s: State, h: nat)
    requires ValidTable(t) && Inv(t, s) && HandlerStep(t, s, Finish(h)).Some?
    ensures Inv(t, HandlerStep(t, s, Finish(h)).value)
  {
    FinishEffect(t, s, h);
    if s.phases[h].signal && Exits(t[h]) {
      ExitInv(t, s);
    } else if s.phases[h].signal && t[h].parent.None? {
      FinalInv(t, s, h);
    } else {
      PhaseInv(t, s, h, Done(s.phases[h].signal));
    }
  }

  lemma HandlerStepInv(t: Table, s: State, a: Action)
    requires ValidTable(t) && Inv(t, s) && HandlerStep(t, s, a).Some?
    ensures Inv(t, HandlerStep(t, s, a).value)
  {
    if a.Notify? {
      NotifyInv(t, s, a.handler);
    } else if a.Ascend? {
      AscendInv(t, s, a.handler);
    } else {
      FinishInv(t, s, a.handler);
    }
  }

  lemma CallStepInv(t: Table, s: State, a: Action)
    requires ValidTable(t) && Inv(t, s) && CallStep(s, a).Some?
    ensures Inv(t, CallStep(s, a).value)
  {
    var s' := CallStep(s, a).value;
    assert LogExact(t, s');
    forall h | 0 <= h < |t| ensures HandlerInv(t, s', h) {
      assert HandlerInv(t, s, h);
    }
  }

  lemma {:induction false} PlayInv(t: Table, actions: seq<Action>)
    requires ValidTable(t) && Play(t, actions).Some?
    ensures Inv(t, Play(t, actions).value)
  {
    if actions != [] {
      var front, a := actions[..|actions| - 1], actions[|actions| - 1];
      PlayInv(t, front);
      var s := Play(t, front).value;
      if a.Notify? || a.Ascend? || a.Finish? {
        HandlerStepInv(t, s, a);
      } else {
        CallStepInv(t, s, a);
      }
    }
  }

  // ---------------------------------------------------------------- exactly once

  /** `g` is `h` or one of the handlers it is chained to. */
  ghost predicate Ancestor(t: Table, h: nat, g: nat)
    requires ValidTable(t) && h < |t|
    decreases h
  {
    g == h || (t[h].parent.Some? && Ancestor(t, t[h].parent.value, g))
  }

  lemma {:induction false} AncestorsDone(t: Table, s: State, h: nat, g: nat)
    requires ValidTable(t) && Inv(t, s) && h < |t| && s.phases[h].Done? && Ancestor(t, h, g)
    ensures g < |t| && s.phases[g].Done?
    decreases h
  {
    if g != h {
      assert HandlerInv(t, s, h);
      AncestorsDone(t, s, t[h].parent.value, g);
    }
  }

  ghost predicate AllRan(t: Table, s: State, g: nat)
    requires g < |t|
  {
    forall k: nat :: k < t[g].own ==> (g, k) in s.log
  }

  /** In every interleaving each notify function runs at most once, and once a call on a handler has returned,
      its own notify functions and those of all its ancestors have each run exactly once. */
  lemma ExactlyOnce(t: Table, actions: seq<Action>)
    requires ValidTable(t) && Play(t, actions).Some?
    ensures var s := Play(t, actions).value;
            && (forall i, j :: 0 <= i < j < |s.log| ==> s.log[i] != s.log[j])
            && (forall e <- s.log :: e.0 < |t| && e.1 < t[e.0].own)
            && (forall c: nat, g: nat | c < |s.calls| && s.calls[c].handler < |t| && g < |t| ::
                  s.calls[c].status.Returned? && Ancestor(t, s.calls[c].handler, g) ==> AllRan(t, s, g))
  {
    var s := Play(t, actions).value;
    PlayInv(t, actions);
    forall e | e in s.log ensures e.0 < |t| && e.1 < t[e.0].own {
      var i :| 0 <= i < |s.log| && s.log[i] == e;
      assert (e.0, e.1) in s.log;
    }
    forall c: nat, g: nat | c < |s.calls| && s.calls[c].handler < |t| && g < |t|
                            && s.calls[c].status.Returned? && Ancestor(t, s.calls[c].handler, g)
      ensures AllRan(t, s, g)
    {
      assert CallInv(t, s, s.calls[c]);
      AncestorsDone(t, s, s.calls[c].handler, g);
    }
  }

  // ---------------------------------------------------------------- final functions

  ghost predicate Signalled(p: Phase)
  {
    (p.Running? || p.Done?) && p.signal
  }

  /** The calls issued by these actions: the handler of each, and whether it is a `Signal`. */
  function Issued(actions: seq<Action>): seq<(nat, bool)>
  {
    if actions == [] then []
    else
      var front, a := Issued(actions[..|actions| - 1]), actions[|actions| - 1];
      if a.Close? || a.Run? then front + [(a.handler, false)]
      else if a.Signal? then front + [(a.handler, true)]
      else front
  }

  /** The action lets a `Signal` call on the handler into its `once`. */
  predicate EntersBySignal(before: seq<Action>, a: Action, h: nat)
  {
    a.Enter? && a.call < |Issued(before)| && Issued(before)[a.call] == (h, true)
  }

  /** One of the actions let a `Signal` call on the handler into its `once`. */
  predicate EnteredBySignal(actions: seq<Action>, h: nat)
  {
    actions != []
    && (EnteredBySignal(actions[..|actions| - 1], h)
      || EntersBySignal(actions[..|actions| - 1], actions[|actions| - 1], h))
  }

  /** A handler whose final function is `os.Exit`. */
  predicate Exits(h: Handler)
  {
    h.parent.None? && h.exits
  }

  /** The phase of a handler as the actions tell it: who entered, and whether it finished. */
  ghost predicate PhaseHistory(t: Table, s: State, actions: seq<Action>, h: nat)
    requires h < |t| == |s.phases|
  {
    && (Signalled(s.phases[h]) <==> EnteredBySignal(actions, h))
    && (t[h].parent.None? ==>
          if Exits(t[h]) && Signalled(s.phases[h]) then !s.phases[h].Done? && (Finish(h) in actions ==> s.exited)
          else (s.phases[h].Done? <==> Finish(h) in actions))
  }

  ghost predicate ExitHistory(t: Table, s: State, actions: seq<Action>)
  {
    s.exited ==> exists h :: 0 <= h < |t| && Exits(t[h]) && EnteredBySignal(actions, h) && Finish(h) in actions
  }

  ghost predicate CallHistory(s: State, actions: seq<Action>)
  {
    && |s.calls| == |Issued(actions)|
    && forall c :: 0 <= c < |s.calls| ==> (s.calls[c].handler, s.calls[c].signal) == Issued(actions)[c]
  }

  ghost predicate History(t: Table, s: State, actions: seq<Action>)
  {
    && |t| == |s.phases| && CallHistory(s, actions) && ExitHistory(t, s, actions)
    && (forall h :: 0 <= h < |t| ==> PhaseHistory(t, s, actions, h))
    && forall i, j :: 0 <= i < j < |s.finals| ==> s.finals[i] != s.finals[j]
  }

  lemma EnteredSnoc(actions: seq<Action>, a: Action, h: nat)
    ensures EnteredBySignal(actions + [a], h) <==> EnteredBySignal(actions, h) || EntersBySignal(actions, a, h)
    ensures Finish(h) in actions + [a] <==> Finish(h) in actions || a == Finish(h)
  {
    assert (actions + [a])[..|actions|] == actions;
  }

  lemma CallsSnoc(s: State, actions: seq<Action>, a: Action, s': State)
    requires CallHistory(s, actions)
    requires if a.Close? then s'.calls == s.calls + [Call(a.handler, false, Pending)]
             else if a.Signal? then s'.calls == s.calls + [Call(a.handler, true, Pending)]
             else if a.Run? then s'.calls == s.calls + [Call(a.handler, false, Critical)]
             else |s'.calls| == |s.calls|
                  && forall c :: 0 <= c < |s.calls| ==>
                    s'.calls[c].handler == s.calls[c].handler && s'.calls[c].signal == s.calls[c].signal
    ensures CallHistory(s', actions + [a])
  {
    assert (actions + [a])[..|actions|] == actions;
  }

  lemma CallStepHistory(t: Table, s: State, a: Action, actions: seq<Action>)
    requires ValidTable(t) && Inv(t, s) && History(t, s, actions) && !s.exited
    requires CallStep(s, a).Some? && !a.Notify? && !a.Ascend? && !a.Finish?
    ensures History(t, CallStep(s, a).value, actions + [a])
  {
    var s' := CallStep(s, a).value;
    CallsSnoc(s, actions, a, s');
    forall h | 0 <= h < |t| ensures PhaseHistory(t, s', actions + [a], h) {
      assert PhaseHistory(t, s, actions, h);
      EnteredSnoc(actions, a, h);
    }
  }

  lemma NotifyOrAscendHistory(t: Table, s: State, a: Action, actions: seq<Action>)
    requires ValidTable(t) && Inv(t, s) && History(t, s, actions) && !s.exited && (a.Notify? || a.Ascend?)
             && HandlerStep(t, s, a).Some?
    ensures History(t, HandlerStep(t, s, a).value, actions + [a])
  {
    var s' := HandlerStep(t, s, a).value;
    CallsSnoc(s, actions, a, s');
    forall h | 0 <= h < |t| ensures PhaseHistory(t, s', actions + [a], h) {
      assert PhaseHistory(t, s, actions, h);
      EnteredSnoc(actions, a, h);
    }
  }

  lemma FinishHistory(t: Table, s: State, h: nat, actions: seq<Action>)
    requires ValidTable(t) && Inv(t, s) && History(t, s, actions) && !s.exited && HandlerStep(t, s, Finish(h)).Some?
    ensures History(t, HandlerStep(t, s, Finish(h)).value, actions + [Finish(h)])
  {
    var s', a := HandlerStep(t, s, Finish(h)).value, Finish(h);
    FinishEffect(t, s, h);
    CallsSnoc(s, actions, a, s');
    assert HandlerInv(t, s, h);
    forall g | 0 <= g < |t| ensures PhaseHistory(t, s', actions + [a], g) {
      assert PhaseHistory(t, s, actions, g);
      EnteredSnoc(actions, a, g);
    }
    EnteredSnoc(actions, a, h);
    assert PhaseHistory(t, s, actions, h);
    if s'.exited {
      assert Exits(t[h]) && EnteredBySignal(actions + [a], h) && Finish(h) in actions + [a];
    }
  }

  lemma {:induction false} PlayHistory(t: Table, actions: seq<Action>)
    requires ValidTable(t) && Play(t, actions).Some?
    ensures History(t, Play(t, actions).value, actions)
  {
    if actions != [] {
      var front, a := actions[..|actions| - 1], actions[|actions| - 1];
      var s := Play(t, front).value;
      PlayInv(t, front);
      PlayHistory(t, front);
      assert front + [a] == actions;
      if a.Finish? {
        FinishHistory(t, s, a.handler, front);
      } else if a.Notify? || a.Ascend? {
        NotifyOrAscendHistory(t, s, a, front);
      } else {
        CallStepHistory(t, s, a, front);
      }
    }
  }

  /** A final function has run exactly when a `Signal` call on its own handler was let into the `once` and that
      completed; it runs once.  The process has exited exactly when that happened on a handler without a final.  So
      no `Signal` on a chained handler ever reaches the final function at the end of its chain. */
  lemma FinalExactly(t: Table, actions: seq<Action>)
    requires ValidTable(t) && Play(t, actions).Some?
    ensures var s := Play(t, actions).value;
            && (forall h :: 0 <= h < |t| ==>
                  (h in s.finals <==>
                     t[h].parent.None? && !t[h].exits && EnteredBySignal(actions, h) && Finish(h) in actions))
            && (forall i, j :: 0 <= i < j < |s.finals| ==> s.finals[i] != s.finals[j])
            && (s.exited <==>
                  exists h ::
                    0 <= h < |t| && Exits(t[h]) && EnteredBySignal(actions, h) && Finish(h) in actions)
  {
    PlayInv(t, actions);
    PlayHistory(t, actions);
    var s := Play(t, actions).value;
    forall h | 0 <= h < |t|
      ensures h in s.finals <==> t[h].parent.None? && !t[h].exits && EnteredBySignal(actions, h) && Finish(h) in actions
      ensures Exits(t[h]) && EnteredBySignal(actions, h) && Finish(h) in actions ==> s.exited
    {
      assert HandlerInv(t, s, h) && PhaseHistory(t, s, actions, h);
    }
  }

  lemma {:induction false} IssuedSignals(actions: seq<Action>, h: nat)
    requires (h, true) in Issued(actions)
    ensures Signal(h) in actions
  {
    var front, a := actions[..|actions| - 1], actions[|actions| - 1];
    assert actions == front + [a];
    if (h, true) in Issued(front) {
      IssuedSignals(front, h);
    }
  }

  /** Without a `Signal` call on the handler itself none enters. */
  lemma {:induction false} EntersOnlyAfterSignal(actions: seq<Action>, h: nat)
    requires EnteredBySignal(actions, h)
    ensures Signal(h) in actions
  {
    var front, a := actions[..|actions| - 1], actions[|actions| - 1];
    assert actions == front + [a];
    if EnteredBySignal(front, h) {
      EntersOnlyAfterSignal(front, h);
    } else {
      assert Issued(front)[a.call] in Issued(front);
      IssuedSignals(front, h);
    }
  }

  // ---------------------------------------------------------------- no deadlock

  /** Actions of calls under way, as opposed to new calls and to the ends of critical sections. */
  predicate Internal(a: Action)
  {
    !a.Close? && !a.Signal? && !a.Run? && !a.Leave?
  }

  lemma {:induction false} RunningMoves(t: Table, s: State, h: nat) returns (a: Action)
    requires ValidTable(t) && Inv(t, s) && !s.exited && h < |t| && s.phases[h].Running?
    ensures Internal(a) && Step(t, s, a).Some?
    decreases h
  {
    assert HandlerInv(t, s, h);
    if s.phases[h].next < t[h].own {
      a := Notify(h);
    } else if s.phases[h].next == t[h].own && t[h].parent.Some? {
      if s.phases[t[h].parent.value].Running? {
        a := RunningMoves(t, s, t[h].parent.value);
      } else {
        a := Ascend(h);
      }
    } else {
      a := Finish(h);
    }
  }

  /** As long as a call has not returned and the process has not exited, some call under way can move. */
  lemma NeverStuck(t: Table, actions: seq<Action>, c: nat)
    requires ValidTable(t) && Play(t, actions).Some?
    requires var s := Play(t, actions).value; !s.exited && c < |s.calls| && s.calls[c].status.Pending?
    ensures exists a :: Internal(a) && Step(t, Play(t, actions).value, a).Some?
  {
    PlayInv(t, actions);
    var s := Play(t, actions).value;
    assert CallInv(t, s, s.calls[c]);
    match s.phases[s.calls[c].handler]
    case Idle =>
      assert Internal(Enter(c)) && Step(t, s, Enter(c)).Some?;
    case Running(_, _) =>
      var a := RunningMoves(t, s, s.calls[c].handler);
    case Done(_) =>
      assert Internal(Return(c)) && Step(t, s, Return(c)).Some?;
  }

  // ---------------------------------------------------------------- bounded work

  function PhaseWork(h: Handler, p: Phase): nat
  {
    match p
    case Idle => Length(h) + 2
    case Running(_, next) => if next <= Length(h) then Length(h) + 1 - next else 0
    case Done(_) => 0
  }

  function HandlersWork(t: Table, phases: seq<Phase>): nat
    requires |t| == |phases|
  {
    if t == [] then 0
    else HandlersWork(t[..|t| - 1], phases[..|t| - 1]) + PhaseWork(t[|t| - 1], phases[|t| - 1])
  }

  function CallsWork(calls: seq<Call>): nat
  {
    if calls == [] then 0
    else CallsWork(calls[..|calls| - 1]) + if calls[|calls| - 1].status.Returned? then 0 else 1
  }

  /** An upper bound on the internal actions still to come. */
  function Work(t: Table, s: State): nat
    requires |t| == |s.phases|
  {
    HandlersWork(t, s.phases) + CallsWork(s.calls) + if s.exited then 0 else 1
  }

  lemma {:induction false} HandlersWorkUpdate(t: Table, phases: seq<Phase>, h: nat, p: Phase)
    requires |t| == |phases| && h < |t|
    ensures HandlersWork(t, phases[h := p]) == HandlersWork(t, phases) - PhaseWork(t[h], phases[h]) + PhaseWork(t[h], p)
  {
    var n := |t| - 1;
    if h < n {
      HandlersWorkUpdate(t[..n], phases[..n], h, p);
      assert phases[h := p][..n] == phases[..n][h := p];
    } else {
      assert phases[h := p][..n] == phases[..n];
    }
  }

  lemma {:induction false} CallsWorkUpdate(calls: seq<Call>, c: nat, r: Call)
    requires c < |calls| && !calls[c].status.Returned? && r.status.Returned?
    ensures CallsWork(calls[c := r]) == CallsWork(calls) - 1
  {
    var n := |calls| - 1;
    if c < n {
      CallsWorkUpdate(calls[..n], c, r);
      assert calls[c := r][..n] == calls[..n][c := r];
    } else {
      assert calls[c := r][..n] == calls[..n];
    }
  }

  lemma EachActionWorks(t: Table, s: State, a: Action)
    requires ValidTable(t) && Inv(t, s) && Internal(a) && Step(t, s, a).Some?
    ensures Work(t, Step(t, s, a).value) < Work(t, s)
  {
    var s' := Step(t, s, a).value;
    if a.Return? {
      CallsWorkUpdate(s.calls, a.call, s.calls[a.call].(status := Returned));
    } else if a.Enter? {
      HandlersWorkUpdate(t, s.phases, s.calls[a.call].handler, s'.phases[s.calls[a.call].handler]);
    } else {
      var h := a.handler;
      assert HandlerInv(t, s, h);
      HandlersWorkUpdate(t, s.phases, h, s'.phases[h]);
      if t[h].parent.Some? {
        HandlersWorkUpdate(t, s.phases, t[h].parent.value, s'.phases[t[h].parent.value]);
      }
    }
  }

  lemma LastActionWorks(t: Table, actions: seq<Action>, a: Action)
    requires ValidTable(t) && Play(t, actions + [a]).Some? && Internal(a)
    ensures Play(t, actions).Some? && Work(t, Play(t, actions + [a]).value) < Work(t, Play(t, actions).value)
  {
    assert (actions + [a])[..|actions|] == actions;
    PlayInv(t, actions);
    EachActionWorks(t, Play(t, actions).value, a);
  }

  /** Between new calls and ends of critical sections only boundedly many actions happen, whatever the
      interleaving; with `NeverStuck`, every call returns unless the process exits. */
  lemma {:induction false} BoundedWork(t: Table, actions: seq<Action>, more: seq<Action>)
    requires ValidTable(t) && Play(t, actions + more).Some?
    requires forall i :: 0 <= i < |more| ==> Internal(more[i])
    ensures Play(t, actions).Some? && |more| + Work(t, Play(t, actions + more).value) <= Work(t, Play(t, actions).value)
  {
    if more == [] {
      assert actions + more == actions;
    } else {
      var front, a := more[..|more| - 1], more[|more| - 1];
      assert actions + more == actions + front + [a];
      LastActionWorks(t, actions + front, a);
      BoundedWork(t, actions, front);
    }
  }

  /** Nothing is left to do: no call waits, or there is no process any more. */
  ghost predicate Settled(s: State)
  {
    s.exited || forall c :: 0 <= c < |s.calls| ==> !s.calls[c].status.Pending?
  }

  ghost predicate AllInternal(actions: seq<Action>)
  {
    forall i :: 0 <= i < |actions| ==> Internal(actions[i])
  }

  lemma Concat(actions: seq<Action>, a: Action, more: seq<Action>)
    ensures actions + [a] + more == actions + ([a] + more)
  {
  }

  /** From every reachable state the calls under way can all return, or the process exits, by internal actions alone,
      at most as many as the work left; and by `BoundedWork` no other order of internal actions goes on for longer. */
  lemma {:induction false} CallsReturn(t: Table, actions: seq<Action>) returns (more: seq<Action>)
    requires ValidTable(t) && Play(t, actions).Some?
    ensures AllInternal(more) && |more| <= Work(t, Play(t, actions).value)
    ensures Play(t, actions + more).Some? && Settled(Play(t, actions + more).value)
    decreases Work(t, Play(t, actions).value)
  {
    var s := Play(t, actions).value;
    if Settled(s) {
      more := [];
      assert actions + [] == actions;
    } else {
      var c :| 0 <= c < |s.calls| && s.calls[c].status.Pending?;
      NeverStuck(t, actions, c);
      var a :| Internal(a) && Step(t, s, a).Some?;
      PlaySnoc(t, actions, a);
      LastActionWorks(t, actions, a);
      var rest := CallsReturn(t, actions + [a]);
      Concat(actions, a, rest);
      more := [a] + rest;
    }
  }

  lemma PlaySnoc(t: Table, actions: seq<Action>, a: Action)
    requires Play(t, actions).Some?
    ensures Play(t, actions + [a]) == Step(t, Play(t, actions).value, a)
  {
    assert (actions + [a])[..|actions|] == actions;
  }

  // ---------------------------------------------------------------- a signal that is not passed on

  lemma Extend(t: Table, actions: seq<Action>, s: State, a: Action, s': State)
    requires |s.phases| == |t| && Play(t, actions) == Some(s) && Step(t, s, a).Some?
    requires var r := Step(t, s, a).value; r.phases == s'.phases && r.calls == s'.calls
    requires var r := Step(t, s, a).value; r.log == s'.log && r.finals == s'.finals && r.exited == s'.exited
    ensures Play(t, actions + [a]) == Some(s')
  {
    assert (actions + [a])[..|actions|] == actions;
  }

  /** A parent with a final function and a child. */
  function Pair(): Table
  {
    [Handler(0, None, false), Handler(0, Some(0), false)]
  }

  function Snapshot(parent: Phase, child: Phase, status: Status): State
  {
    State([parent, child], [Call(1, true, status)], [], [], false)
  }

  lemma SignalReachesParent() returns (a: seq<Action>)
    ensures Signal(1) in a && Play(Pair(), a) == Some(Snapshot(Running(false, 0), Running(true, 0), Pending))
  {
    var s := State([Idle, Idle], [], [], [], false);
    assert Start(Pair()).phases == s.phases;
    Extend(Pair(), [], s, Signal(1), Snapshot(Idle, Idle, Pending));
    a := [] + [Signal(1)];
    Extend(Pair(), a, Snapshot(Idle, Idle, Pending), Enter(0), Snapshot(Idle, Running(true, 0), Pending));
    a := a + [Enter(0)];
    Extend(Pair(), a, Snapshot(Idle, Running(true, 0), Pending), Ascend(1),
      Snapshot(Running(false, 0), Running(true, 0), Pending));
    a := a + [Ascend(1)];
    assert a[0] == Signal(1);
  }

  lemma SignalLeavesParent(b: seq<Action>) returns (a: seq<Action>)
    requires Play(Pair(), b) == Some(Snapshot(Running(false, 0), Running(true, 0), Pending))
    ensures b <= a && Play(Pair(), a) == Some(Snapshot(Done(false), Running(true, 1), Pending))
  {
    Extend(Pair(), b, Snapshot(Running(false, 0), Running(true, 0), Pending), Finish(0),
      Snapshot(Done(false), Running(true, 0), Pending));
    a := b + [Finish(0)];
    Extend(Pair(), a, Snapshot(Done(false), Running(true, 0), Pending), Ascend(1),
      Snapshot(Done(false), Running(true, 1), Pending));
    a := a + [Ascend(1)];
  }

  lemma SignalEnds(b: seq<Action>) returns (a: seq<Action>)
    requires Play(Pair(), b) == Some(Snapshot(Done(false), Running(true, 1), Pending))
    ensures b <= a && Play(Pair(), a) == Some(Snapshot(Done(false), Done(true), Returned))
  {
    Extend(Pair(), b, Snapshot(Done(false), Running(true, 1), Pending), Finish(1),
      Snapshot(Done(false), Done(true), Pending));
    a := b + [Finish(1)];
    Extend(Pair(), a, Snapshot(Done(false), Done(true), Pending), Return(0),
      Snapshot(Done(false), Done(true), Returned));
    a := a + [Return(0)];
  }

  /** `Signal` on a child of a handler with a final function: the call returns and the final never ran. */
  lemma SignalIsNotPassedOn() returns (a: seq<Action>)
    ensures Signal(1) in a && Play(Pair(), a) == Some(Snapshot(Done(false), Done(true), Returned))
  {
    a := SignalReachesParent();
    assert Signal(1) in a;
    var b := SignalLeavesParent(a);
    assert Signal(1) in b;
    a := SignalEnds(b);
  }
}
