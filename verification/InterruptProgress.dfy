/**
 What the interrupt handlers do in the end: calls can be made at any time, every `Run` reaches its `Close` and returns,
 and the notify functions run in their order, before the final function or the exit.
 */
module InterruptProgress {
  import opened Options
  import opened Interrupt

  // ---------------------------------------------------------------- calls

  /** While the process lives, each of the three calls can be made on every handler: `Close` and `Signal` are at the
      `once` at once, `Run` is in its function first and then, whatever that did, at the `once` for a `Close`. */
  lemma CallsCanBeMade(t: Table, actions: seq<Action>, h: nat)
    requires Play(t, actions).Some? && !Play(t, actions).value.exited && h < |t|
    ensures var s := Play(t, actions).value;
            && Step(t, s, Close(h)) == Some(s.(calls := s.calls + [Call(h, false, Pending)]))
            && Step(t, s, Signal(h)) == Some(s.(calls := s.calls + [Call(h, true, Pending)]))
            && Step(t, s, Run(h)) == Some(s.(calls := s.calls + [Call(h, false, Critical)]))
            && forall c: nat :: c < |s.calls| && s.calls[c].status.Critical? ==>
                 Step(t, s, Leave(c)) == Some(s.(calls := s.calls[c := s.calls[c].(status := Pending)]))
  {
  }

  function Criticals(calls: seq<Call>): nat
  {
    if calls == [] then 0
    else Criticals(calls[..|calls| - 1]) + if calls[|calls| - 1].status.Critical? then 1 else 0
  }

  lemma {:induction false} CriticalsUpdate(calls: seq<Call>, c: nat, r: Call)
    requires c < |calls| && !r.status.Critical?
    ensures Criticals(calls[c := r]) + (if calls[c].status.Critical? then 1 else 0) == Criticals(calls)
  {
    var n := |calls| - 1;
    if c < n {
      CriticalsUpdate(calls[..n], c, r);
      assert calls[c := r][..n] == calls[..n][c := r];
    } else {
      assert calls[c := r][..n] == calls[..n];
    }
  }

  lemma {:induction false} SameWork(calls: seq<Call>, c: nat, r: Call)
    requires c < |calls| && (calls[c].status.Returned? <==> r.status.Returned?)
    ensures CallsWork(calls[c := r]) == CallsWork(calls)
  {
    var n := |calls| - 1;
    if c < n {
      SameWork(calls[..n], c, r);
      assert calls[c := r][..n] == calls[..n][c := r];
    } else {
      assert calls[c := r][..n] == calls[..n];
    }
  }

  lemma InternalKeepsCriticals(t: Table, s: State, a: Action)
    requires |t| == |s.phases| && Internal(a) && Step(t, s, a).Some?
    ensures Criticals(Step(t, s, a).value.calls) == Criticals(s.calls)
  {
    if a.Return? {
      CriticalsUpdate(s.calls, a.call, s.calls[a.call].(status := Returned));
    }
  }

  lemma LeaveWorks(t: Table, s: State, c: nat)
    requires |t| == |s.phases| && Step(t, s, Leave(c)).Some?
    ensures var s' := Step(t, s, Leave(c)).value;
            |t| == |s'.phases| && Work(t, s') == Work(t, s) && Criticals(s'.calls) == Criticals(s.calls) - 1
  {
    CriticalsUpdate(s.calls, c, s.calls[c].(status := Pending));
    SameWork(s.calls, c, s.calls[c].(status := Pending));
  }

  /** Every call has returned, or there is no process any more. */
  ghost predicate AllReturned(s: State)
  {
    s.exited || forall c :: 0 <= c < |s.calls| ==> s.calls[c].status.Returned?
  }

  /** No new call is made. */
  ghost predicate NoNewCalls(actions: seq<Action>)
  {
    forall i :: 0 <= i < |actions| ==> Internal(actions[i]) || actions[i].Leave?
  }

  /** Some action leads on as long as a call has not returned. */
  lemma SomethingLeft(t: Table, actions: seq<Action>) returns (a: Action)
    requires ValidTable(t) && Play(t, actions).Some? && !AllReturned(Play(t, actions).value)
    ensures Internal(a) || a.Leave?
    ensures Play(t, actions + [a]).Some?
    ensures var s, s' := Play(t, actions).value, Play(t, actions + [a]).value;
            Work(t, s') + Criticals(s'.calls) < Work(t, s) + Criticals(s.calls)
  {
    var s := Play(t, actions).value;
    if c :| 0 <= c < |s.calls| && s.calls[c].status.Pending? {
      NeverStuck(t, actions, c);
      a :| Internal(a) && Step(t, s, a).Some?;
      PlaySnoc(t, actions, a);
      LastActionWorks(t, actions, a);
      InternalKeepsCriticals(t, s, a);
    } else {
      var c :| 0 <= c < |s.calls| && !s.calls[c].status.Returned?;
      a := Leave(c);
      PlaySnoc(t, actions, a);
      LeaveWorks(t, s, c);
    }
  }

  /** From every reachable state, critical sections still running included, all calls can return, or the process exits,
      without any new call and in boundedly many actions: every `Run` gets to its `Close` and out of it. */
  lemma {:induction false} RunsReturn(t: Table, actions: seq<Action>) returns (more: seq<Action>)
    requires ValidTable(t) && Play(t, actions).Some?
    ensures NoNewCalls(more)
    ensures var s := Play(t, actions).value; |more| <= Work(t, s) + Criticals(s.calls)
    ensures Play(t, actions + more).Some? && AllReturned(Play(t, actions + more).value)
    decreases Work(t, Play(t, actions).value) + Criticals(Play(t, actions).value.calls)
  {
    if AllReturned(Play(t, actions).value) {
      more := [];
      assert actions + [] == actions;
    } else {
      var a := SomethingLeft(t, actions);
      var rest := RunsReturn(t, actions + [a]);
      Concat(actions, a, rest);
      more := [a] + rest;
    }
  }

  // ---------------------------------------------------------------- order

  /** Later entries of a handler have larger numbers. */
  ghost predicate InOrder(log: seq<(nat, nat)>)
  {
    forall i, j :: 0 <= i < j < |log| && log[i].0 == log[j].0 ==> log[i].1 < log[j].1
  }

  lemma LogGrows(t: Table, s: State, a: Action)
    requires Inv(t, s) && Step(t, s, a).Some?
    ensures var s' := Step(t, s, a).value;
            if a.Notify?
            then a.handler < |t| && s'.log == s.log + [(a.handler, Progress(t[a.handler], s.phases[a.handler]))]
            else s'.log == s.log
  {
  }

  /** In every interleaving the notify functions of a handler run in the order in which they were given. */
  lemma {:induction false} NotifiesInOrder(t: Table, actions: seq<Action>)
    requires ValidTable(t) && Play(t, actions).Some?
    ensures InOrder(Play(t, actions).value.log)
  {
    if actions != [] {
      var front, a := actions[..|actions| - 1], actions[|actions| - 1];
      NotifiesInOrder(t, front);
      PlayInv(t, front);
      var s, s' := Play(t, front).value, Play(t, actions).value;
      LogGrows(t, s, a);
      if a.Notify? {
        forall i | 0 <= i < |s.log| && s.log[i].0 == a.handler
          ensures s.log[i].1 < Progress(t[a.handler], s.phases[a.handler])
        {
          assert (s.log[i].0, s.log[i].1) in s.log;
        }
      }
    }
  }

  /** A final function, and the exit that stands for a missing one, come after all notify functions of their handler. */
  lemma {:induction false} FinalIsLast(t: Table, actions: seq<Action>)
    requires ValidTable(t) && Play(t, actions).Some?
    ensures var s := Play(t, actions).value;
            && (forall h <- s.finals :: h < |t| ==> AllRan(t, s, h))
            && (s.exited ==> exists h :: 0 <= h < |t| && Exits(t[h]) && AllRan(t, s, h))
  {
    var s := Play(t, actions).value;
    PlayInv(t, actions);
    forall h | h in s.finals && h < |t| ensures AllRan(t, s, h) {
      assert HandlerInv(t, s, h);
    }
    if s.exited {
      var front, a := actions[..|actions| - 1], actions[|actions| - 1];
      PlayInv(t, front);
      var h := a.handler;
      assert HandlerInv(t, s, h) && Exits(t[h]);
      assert AllRan(t, s, h);
    }
  }
}
