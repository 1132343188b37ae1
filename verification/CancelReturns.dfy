/**
 What a `request_cancel` does to hooks and their cancellation handles, and that hooks and requests
 always come back.
 */
module CancelReturns {
  import opened CancelChain

  function Reach(m: nat, actions: seq<Action>): State { Run(Init(m), actions) }

  // ---- what is called

  /** The rounds of the reports that say that a handle was called, in order. */
  function CalledRounds(log: seq<Report>): seq<int> {
    if log == [] then []
    else
      var last, init := log[|log| - 1], CalledRounds(log[..|log| - 1]);
      if last.FoundHooked? && last.called then init + [last.round] else init
  }

  /** The call of a canceller that has called and not reported yet. */
  function Unreported(s: State): seq<int> {
    if s.lock.ByCanceller? && s.lock.c < |s.cancellers| && s.cancellers[s.lock.c].Leaving?
       && s.cancellers[s.lock.c].called
    then [s.cancellers[s.lock.c].round]
    else []
  }

  ghost predicate CallsOk(s: State) { s.calls == CalledRounds(s.log) + Unreported(s) }

  lemma {:induction false} StepCalls(s: State)
    requires s.nodes != []
    ensures var t := DoTaskStep(s); t.calls == s.calls && t.log == s.log && t.cancellers == s.cancellers
  {
  }

  lemma {:induction false} TaskCalls(s: State, a: Action)
    requires s.nodes != [] && !a.Cancel? && !a.Spurious?
    ensures var t := Step(s, a); t.calls == s.calls && t.log == s.log && |t.cancellers| == |s.cancellers|
  {
    if a.TaskStep? {
      StepCalls(s);
    }
  }

  /** The task takes and gives back the lock when no canceller has it. */
  lemma {:induction false} TaskReports(s: State, a: Action)
    requires Inv(s) && !a.Cancel? && !a.Spurious?
    ensures Unreported(Step(s, a)) == Unreported(s)
  {
    assert a.TaskStep? ==> Step(s, a).lock == s.lock || !s.lock.ByCanceller?;
  }

  lemma {:induction false} HookedAdds(log: seq<Report>, e: Report)
    requires e.FoundHooked?
    ensures CalledRounds(log + [e]) == CalledRounds(log) + if e.called then [e.round] else []
  {
    assert (log + [e])[..|log|] == log;
  }

  lemma {:induction false} CallingCalls(s: State, c: nat, at: Ref)
    requires c < |s.cancellers| && s.lock == ByCanceller(c) && s.cancellers[c].Calling?
    requires CallsOk(s) && s.cancellers[c].round == s.handle
    ensures CallsOk(CancelStep(s, c, at, false))
  {
  }

  lemma {:induction false} LeavingCalls(s: State, c: nat, at: Ref)
    requires c < |s.cancellers| && s.lock == ByCanceller(c) && s.cancellers[c].Leaving? && CallsOk(s)
    ensures CallsOk(CancelStep(s, c, at, false))
  {
    var t, e := CancelStep(s, c, at, false), FoundHooked(s.cancellers[c].round, s.cancellers[c].called);
    HookedAdds(s.log, e);
    assert t.log == s.log + [e] && t.calls == s.calls && Unreported(t) == [];
  }

  /** Calling and reporting go with the lock. */
  lemma {:induction false} HolderCalls(s: State, c: nat, at: Ref)
    requires c < |s.cancellers| && s.lock == ByCanceller(c) && HoldsLock(s.cancellers[c])
    requires s.cancellers[c].Calling? ==> s.cancellers[c].round == s.handle
    requires CallsOk(s)
    ensures CallsOk(CancelStep(s, c, at, false))
  {
    match s.cancellers[c]
    case Calling(_, _) => CallingCalls(s, c, at);
    case Leaving(_, _, _) => LeavingCalls(s, c, at);
    case _ => HoldingCalls(s, c, at);
  }

  lemma {:induction false} HoldingCalls(s: State, c: nat, at: Ref)
    requires c < |s.cancellers| && s.lock == ByCanceller(c) && s.cancellers[c].Holding? && CallsOk(s)
    ensures CallsOk(CancelStep(s, c, at, false))
  {
  }

  lemma {:induction false} FreeAdds(log: seq<Report>, e: Report)
    requires e.FoundFree?
    ensures CalledRounds(log + [e]) == CalledRounds(log)
  {
    assert (log + [e])[..|log|] == log;
  }

  predicate LogsFree(log: seq<Report>, log': seq<Report>) {
    log' == log || (log' != [] && log' == log + [log'[|log'| - 1]] && log'[|log'| - 1].FoundFree?)
  }

  /** Without the lock a canceller calls nobody. */
  ghost predicate CallsNobody(s: State, t: State) {
    t.calls == s.calls && Unreported(t) == Unreported(s) && LogsFree(s.log, t.log)
  }

  lemma {:induction false} SwapCallsNobody(s: State, c: nat, at: Ref)
    requires c < |s.cancellers| && RefOk(s, at) && s.lock != ByCanceller(c)
    ensures CallsNobody(s, SwapStep(s, c, at))
  {
  }

  lemma {:induction false} LoadedEffect(s: State, c: nat, at: Ref, spurious: bool)
    requires c < |s.cancellers| && s.cancellers[c].Loaded? && s.lock != ByCanceller(c)
    ensures CallsNobody(s, CancelStep(s, c, at, spurious))
  {
    var p := s.cancellers[c];
    if RefOk(s, p.at) {
      SwapCallsNobody(s, c, p.at);
    }
  }

  lemma {:induction false} OtherEffect(s: State, c: nat, at: Ref, spurious: bool)
    requires c < |s.cancellers| && !HoldsLock(s.cancellers[c]) && s.lock != ByCanceller(c)
    ensures CallsNobody(s, CancelStep(s, c, at, spurious))
  {
    if s.cancellers[c].Loaded? {
      LoadedEffect(s, c, at, spurious);
    }
  }

  lemma {:induction false} OtherCalls(s: State, t: State)
    requires CallsOk(s) && CallsNobody(s, t)
    ensures CallsOk(t)
  {
    if t.log != s.log {
      FreeAdds(s.log, t.log[|t.log| - 1]);
    }
  }

  lemma {:induction false} CancelCalls(s: State, c: nat, at: Ref, spurious: bool)
    requires Inv(s) && c < |s.cancellers| && CallsOk(s) && (spurious ==> s.cancellers[c].Loaded?)
    ensures CallsOk(CancelStep(s, c, at, spurious))
  {
    assert CancellerOk(s, c);
    if HoldsLock(s.cancellers[c]) {
      HolderCalls(s, c, at);
    } else {
      OtherEffect(s, c, at, spurious);
      OtherCalls(s, CancelStep(s, c, at, spurious));
    }
  }

  lemma {:induction false} CallsStep(s: State, a: Action)
    requires Inv(s) && CallsOk(s)
    ensures CallsOk(Step(s, a))
  {
    match a
    case Cancel(c, at) => if c < |s.cancellers| { CancelCalls(s, c, at, false); }
    case Spurious(c) => if c < |s.cancellers| && s.cancellers[c].Loaded? { CancelCalls(s, c, In(0), true); }
    case _ =>
      TaskCalls(s, a);
      TaskReports(s, a);
  }

  /** Every call of a cancellation handle is that of the very hook round in which a `request_cancel`
      set the bit of a hooked task, one call for each such request: a later operation is never
      cancelled by mistake. */
  lemma {:induction false} CallsAreRequested(m: nat, actions: seq<Action>)
    ensures var s := Reach(m, actions); s.calls == CalledRounds(s.log) + Unreported(s)
  {
    if actions != [] {
      var init := actions[..|actions| - 1];
      CallsAreRequested(m, init);
      RunInv(Init(m), init);
      CallsStep(Reach(m, init), actions[|actions| - 1]);
    }
  }

  // ---- what becomes of a request that has set its bit

  /** Round r is over, its handle has been called, or canceller c is on its way to that. */
  ghost predicate Chases(s: State, c: nat, r: int) {
    && c < |s.cancellers| && 0 <= r < |s.rounds|
    && (Over(s.rounds[r]) || r in s.calls
        || ((s.cancellers[c].Waiting? || HoldsLock(s.cancellers[c])) && s.cancellers[c].round == r))
  }

  /** A round that is over stays so, and calls are not taken back. */
  lemma {:induction false} TaskKeepsRound(s: State, r: int)
    requires Inv(s) && 0 <= r < |s.rounds|
    ensures var t := DoTaskStep(s);
            && |t.rounds| == |s.rounds| && (Over(s.rounds[r]) ==> Over(t.rounds[r]))
  {
  }

  lemma {:induction false} RoundStays(s: State, a: Action, r: int)
    requires Inv(s) && 0 <= r < |s.rounds| && !a.Cancel? && !a.Spurious?
    ensures var t := Step(s, a); r < |t.rounds| && (Over(s.rounds[r]) ==> Over(t.rounds[r]))
  {
    if a.TaskStep? {
      TaskKeepsRound(s, r);
    }
  }

  /** Another task of the chain may return; cancellers keep their rounds. */
  lemma {:induction false} ChaserStays(s: State, a: Action, c: nat)
    requires s.nodes != [] && c < |s.cancellers| && !a.Cancel? && !a.Spurious?
    ensures var p := s.cancellers[c];
            && c < |Step(s, a).cancellers|
            && var q := Step(s, a).cancellers[c];
               && (p.Waiting? ==> q.Waiting? && q.round == p.round)
               && (HoldsLock(p) ==> HoldsLock(q) && q.round == p.round)
  {
    if a.TaskStep? {
      StepCalls(s);
    }
  }

  lemma {:induction false} ChasesStep(s: State, a: Action, c: nat, r: int)
    requires Inv(s) && Chases(s, c, r)
    ensures Chases(Step(s, a), c, r)
  {
    match a
    case Cancel(d, at) => if d < |s.cancellers| { ChaserMoves(s, d, at, false, c, r); }
    case Spurious(d) => if d < |s.cancellers| && s.cancellers[d].Loaded? { ChaserMoves(s, d, In(0), true, c, r); }
    case _ =>
      TaskCalls(s, a);
      RoundStays(s, a, r);
      ChaserStays(s, a, c);
  }

  lemma {:induction false} CancelKeeps(s: State, d: nat, at: Ref, spurious: bool)
    requires d < |s.cancellers|
    ensures var t := CancelStep(s, d, at, spurious);
            && t.rounds == s.rounds && |t.cancellers| == |s.cancellers|
            && (t.calls == s.calls || t.calls == s.calls + [s.handle])
            && t.cancellers == s.cancellers[d := t.cancellers[d]]
  {
  }

  lemma {:induction false} OwnMove(s: State, c: nat, at: Ref)
    requires Inv(s) && c < |s.cancellers| && (s.cancellers[c].Waiting? || HoldsLock(s.cancellers[c]))
    ensures Chases(CancelStep(s, c, at, false), c, s.cancellers[c].round)
  {
    assert CancellerOk(s, c);
  }

  lemma {:induction false} ChaserMoves(s: State, d: nat, at: Ref, spurious: bool, c: nat, r: int)
    requires Inv(s) && Chases(s, c, r) && d < |s.cancellers| && (spurious ==> s.cancellers[d].Loaded?)
    ensures Chases(CancelStep(s, d, at, spurious), c, r)
  {
    CancelKeeps(s, d, at, spurious);
    if c == d && !Over(s.rounds[r]) && r !in s.calls {
      OwnMove(s, c, at);
    }
  }

  lemma {:induction false} ChasesRun(s: State, actions: seq<Action>, c: nat, r: int)
    requires Inv(s) && Chases(s, c, r)
    ensures Chases(Run(s, actions), c, r)
  {
    forall t: State, a: Action | Inv(t) && Chases(t, c, r) ensures Inv(Next(t, a)) && Chases(Next(t, a), c, r) {
      StepInv(t, a);
      ChasesStep(t, a, c, r);
    }
    FoldKeeps(Next, (t: State) => Inv(t) && Chases(t, c, r), s, actions);
    RunIsFold(s, actions);
  }

  /** Canceller c is about to set the bit of a task with these bits. */
  ghost predicate SetsBit(s: State, c: nat, node: Node) {
    && c < |s.cancellers| && s.cancellers[c].Loaded? && s.cancellers[c].expected == node
    && RefOk(s, s.cancellers[c].at) && NodeAt(s, s.cancellers[c].at) == node && !node.cancelled
  }

  lemma {:induction false} HookedIsChased(s: State, c: nat)
    requires Inv(s) && SetsBit(s, c, Node(false, true))
    ensures s.rounds != [] && Chases(Step(s, Cancel(c, In(0))), c, Cur(s))
  {
    assert CancellerOk(s, c);
  }

  /** A `request_cancel` that sets the bit of a hooked task calls the cancellation handle of that very
      hook round before it comes back, unless the round has failed or been unhooked: whether the task
      was still hooking its chain or was suspended already. */
  lemma {:induction false} HookedIsCancelled(m: nat, before: seq<Action>, c: nat, after: seq<Action>)
    requires SetsBit(Reach(m, before), c, Node(false, true))
    ensures var s := Reach(m, before);
            var t := Reach(m, before + ([Cancel(c, In(0))] + after));
            && c < |t.cancellers| && 0 <= Cur(s) < |t.rounds|
            && (t.cancellers[c].Out? || t.cancellers[c].Loaded? ==>
                  Cur(s) in t.calls || t.rounds[Cur(s)] == Failed || t.rounds[Cur(s)] == Released)
  {
    var s := Reach(m, before);
    var a := Cancel(c, In(0));
    RunInv(Init(m), before);
    StepInv(s, a);
    HookedIsChased(s, c);
    ChasesRun(Step(s, a), after, c, Cur(s));
    RunFirst(s, a, after);
    RunConcat(Init(m), before, [a] + after);
  }

  /** Round r has failed, or is going to at node j. */
  ghost predicate Fails(s: State, j: nat, r: int) {
    0 <= r < |s.rounds| && (s.rounds[r] == Failed || (s.rounds[r] == Trying && r == Cur(s) && Doomed(s, j)))
  }

  lemma {:induction false} FailsTask(s: State, j: nat, r: int)
    requires Inv(s) && Fails(s, j, r)
    ensures Fails(DoTaskStep(s), j, r)
  {
  }

  lemma {:induction false} FailsCancel(s: State, d: nat, at: Ref, spurious: bool, j: nat, r: int)
    requires Inv(s) && Fails(s, j, r) && d < |s.cancellers| && (spurious ==> s.cancellers[d].Loaded?)
    ensures Fails(CancelStep(s, d, at, spurious), j, r)
  {
    assert CancellerOk(s, d);
  }

  lemma {:induction false} FailsStep(s: State, a: Action, j: nat, r: int)
    requires Inv(s) && Fails(s, j, r)
    ensures Fails(Step(s, a), j, r)
  {
    match a
    case Cancel(d, at) => if d < |s.cancellers| { FailsCancel(s, d, at, false, j, r); }
    case Spurious(d) => if d < |s.cancellers| && s.cancellers[d].Loaded? { FailsCancel(s, d, In(0), true, j, r); }
    case TaskStep => FailsTask(s, j, r);
    case _ =>
  }

  lemma {:induction false} FailsRun(s: State, actions: seq<Action>, j: nat, r: int)
    requires Inv(s) && Fails(s, j, r)
    ensures Fails(Run(s, actions), j, r)
  {
    forall t: State, a: Action | Inv(t) && Fails(t, j, r) ensures Inv(Next(t, a)) && Fails(Next(t, a), j, r) {
      StepInv(t, a);
      FailsStep(t, a, j, r);
    }
    FoldKeeps(Next, (t: State) => Inv(t) && Fails(t, j, r), s, actions);
    RunIsFold(s, actions);
  }

  lemma {:induction false} SwapDooms(s: State, c: nat, j: nat)
    requires Inv(s) && SetsBit(s, c, FREE_NODE) && s.cancellers[c].at == In(j) && InProgress(s)
    ensures Fails(Step(s, Cancel(c, In(0))), j, Cur(s))
  {
  }

  /** A `request_cancel` that sets the bit of a task that a hook under way has not reached yet makes that
      hook fail. */
  lemma {:induction false} UnhookedFails(m: nat, before: seq<Action>, c: nat, j: nat, after: seq<Action>)
    requires SetsBit(Reach(m, before), c, FREE_NODE) && Reach(m, before).cancellers[c].at == In(j)
    requires InProgress(Reach(m, before))
    ensures var s := Reach(m, before);
            var t := Reach(m, before + ([Cancel(c, In(0))] + after));
            && |s.rounds| <= |t.rounds|
            && (t.rounds[Cur(s)] == Failed || (t.rounds[Cur(s)] == Trying && Cur(t) == Cur(s) && t.task != Suspended))
  {
    var s := Reach(m, before);
    var a := Cancel(c, In(0));
    RunInv(Init(m), before);
    StepInv(s, a);
    SwapDooms(s, c, j);
    FailsRun(Step(s, a), after, j, Cur(s));
    RunFirst(s, a, after);
    RunConcat(Init(m), before, [a] + after);
  }

  // ---- nobody is stuck

  lemma {:induction false} RunLast(s: State, actions: seq<Action>, a: Action)
    requires s.nodes != []
    ensures Run(s, actions + [a]) == Step(Run(s, actions), a)
  {
    assert (actions + [a])[..|actions|] == actions;
  }

  function Fold<S, A>(f: (S, A) -> S, s: S, actions: seq<A>): S {
    if actions == [] then s else f(Fold(f, s, actions[..|actions| - 1]), actions[|actions| - 1])
  }

  lemma {:induction false} FoldConcat<S, A>(f: (S, A) -> S, s: S, a: seq<A>, b: seq<A>)
    ensures Fold(f, s, a + b) == Fold(f, Fold(f, s, a), b)
  {
    if b == [] {
      assert a + b == a;
    } else {
      FoldConcat(f, s, a, b[..|b| - 1]);
      assert (a + b)[..|a + b| - 1] == a + b[..|b| - 1];
    }
  }

  /** What every step keeps holds in the end. */
  lemma {:induction false} FoldKeeps<S(!new), A(!new)>(f: (S, A) -> S, p: S -> bool, s: S, actions: seq<A>)
    requires p(s) && forall t: S, a: A :: p(t) ==> p(f(t, a))
    ensures p(Fold(f, s, actions))
  {
    if actions != [] {
      FoldKeeps(f, p, s, actions[..|actions| - 1]);
    }
  }

  function Next(s: State, a: Action): State { if s.nodes == [] then s else Step(s, a) }

  /** A run is a fold; what holds of any fold need not look into the steps. */
  lemma {:induction false} RunIsFold(s: State, actions: seq<Action>)
    requires s.nodes != []
    ensures Run(s, actions) == Fold(Next, s, actions)
  {
    if actions != [] {
      var init, last := actions[..|actions| - 1], actions[|actions| - 1];
      RunIsFold(s, init);
      RunLast(s, init, last);
      assert actions == init + [last];
    }
  }

  lemma {:induction false} RunConcat(s: State, a: seq<Action>, b: seq<Action>)
    requires s.nodes != []
    ensures Run(s, a + b) == Run(Run(s, a), b)
  {
    var t := Run(s, a);
    RunIsFold(s, a);
    RunIsFold(t, b);
    RunIsFold(s, a + b);
    FoldConcat(Next, s, a, b);
  }

  lemma {:induction false} RunFirst(s: State, a: Action, rest: seq<Action>)
    requires s.nodes != []
    ensures Step(s, a).nodes != [] && Run(s, [a] + rest) == Run(Step(s, a), rest)
  {
    RunLast(s, [], a);
    assert [] + [a] == [a];
    RunConcat(s, [a], rest);
  }

  /** No new hook, await or request. */
  predicate Continues(a: Action) { a == TaskStep || a.Cancel? }

  ghost predicate AllContinue(acts: seq<Action>) { forall k :: 0 <= k < |acts| ==> Continues(acts[k]) }

  lemma {:induction false} First(s: State, a: Action, rest: seq<Action>, t: State)
    requires Inv(s) && Continues(a) && AllContinue(rest) && Step(s, a).nodes != [] && t == Run(Step(s, a), rest)
    ensures Run(s, [a] + rest) == t && AllContinue([a] + rest)
  {
    RunFirst(s, a, rest);
  }

  // ---- the lock is given back

  /** How many steps the task is away from giving back the lock, at most. */
  function HookLeft(task: TaskPc, n: nat): nat {
    match task
    case Climb(i) => n + i + 3
    case RollBack(i) => if i <= n then n - i + 1 else 0
    case HookOk => 1
    case HookFailed => 1
    case _ => 0
  }

  lemma {:induction false} LockedStep(s: State)
    requires Inv(s) && s.lock == ByHook
    ensures var t := Step(s, TaskStep);
            && t.cancellers == s.cancellers && |t.nodes| == |s.nodes|
            && if t.lock == ByHook then HookLeft(t.task, |t.nodes|) < HookLeft(s.task, |s.nodes|)
               else t.lock == Free && (t.task == Suspended || t.task == ReturnedFalse)
  {
  }

  lemma {:induction false} TaskGivesBack(s: State) returns (acts: seq<Action>)
    requires Inv(s) && s.lock == ByHook
    ensures AllContinue(acts) && var t := Run(s, acts);
            && Inv(t) && t.lock == Free && t.cancellers == s.cancellers && |t.nodes| == |s.nodes|
            && (t.task == Suspended || t.task == ReturnedFalse)
    decreases HookLeft(s.task, |s.nodes|)
  {
    var t := Step(s, TaskStep);
    LockedStep(s);
    StepInv(s, TaskStep);
    var rest := [];
    if t.lock == ByHook {
      rest := TaskGivesBack(t);
    }
    First(s, TaskStep, rest, Run(t, rest));
    acts := [TaskStep] + rest;
  }

  /** The canceller that has the lock, on its way out. */
  lemma {:induction false} HolderStep(s: State, c: nat)
    requires Inv(s) && s.lock == ByCanceller(c)
    ensures c < |s.cancellers|
    ensures var t := Step(s, Cancel(c, In(0)));
            && t.cancellers == s.cancellers[c := t.cancellers[c]]
            && t.task == s.task && |t.nodes| == |s.nodes|
            && match s.cancellers[c]
               case Holding(_, _) => t.lock == s.lock && (t.cancellers[c].Calling? || t.cancellers[c].Leaving?)
               case Calling(_, _) => t.lock == s.lock && t.cancellers[c].Leaving?
               case _ => t.lock == Free && t.cancellers[c].Out?
  {
    assert CancellerOk(s, c);
  }

  function HolderLeft(p: CancelPc): nat {
    match p case Holding(_, _) => 3 case Calling(_, _) => 2 case Leaving(_, _, _) => 1 case _ => 0
  }

  lemma {:induction false} HolderGivesBack(s: State, c: nat) returns (acts: seq<Action>)
    requires Inv(s) && s.lock == ByCanceller(c) && c < |s.cancellers|
    ensures AllContinue(acts) && var t := Run(s, acts);
            && Inv(t) && t.lock == Free && t.cancellers == s.cancellers[c := Out]
            && t.task == s.task && |t.nodes| == |s.nodes|
    decreases HolderLeft(s.cancellers[c])
  {
    var t := Step(s, Cancel(c, In(0)));
    HolderStep(s, c);
    StepInv(s, Cancel(c, In(0)));
    var rest := [];
    if t.lock == s.lock {
      assert CancellerOk(s, c);
      rest := HolderGivesBack(t, c);
    }
    First(s, Cancel(c, In(0)), rest, Run(t, rest));
    acts := [Cancel(c, In(0))] + rest;
  }

  /** Whoever has the lock gives it back, and canceller c, who waits for it, still waits. */
  lemma {:induction false} LockIsGivenBack(s: State) returns (acts: seq<Action>)
    requires Inv(s)
    ensures AllContinue(acts) && var t := Run(s, acts);
            && Inv(t) && t.lock == Free && |t.nodes| == |s.nodes| && |t.cancellers| == |s.cancellers|
            && (s.task == WantLock ==> t.task == WantLock)
            && (forall d :: 0 <= d < |s.cancellers| ==> t.cancellers[d] == s.cancellers[d] || t.cancellers[d].Out?)
  {
    acts := [];
    match s.lock
    case Free =>
    case ByHook => acts := TaskGivesBack(s);
    case ByCanceller(c) => acts := HolderGivesBack(s, c);
  }

  // ---- a request comes back

  /** A loaded request is over, waits for the lock, or loads again, the bits as they are now. */
  lemma {:induction false} LoadedStep(s: State, c: nat)
    requires Inv(s) && c < |s.cancellers| && s.cancellers[c].Loaded?
    ensures var p, t := s.cancellers[c], Step(s, Cancel(c, In(0)));
            && t.lock == s.lock && t.cancellers == s.cancellers[c := t.cancellers[c]]
            && RefOk(s, p.at)
            && if NodeAt(s, p.at) == p.expected || p.expected.cancelled
               then t.cancellers[c].Out? || t.cancellers[c].Waiting?
               else t.cancellers[c] == Loaded(p.at, NodeAt(s, p.at)) && t.nodes == s.nodes && t.gone == s.gone
  {
    assert CancellerOk(s, c);
  }

  lemma {:induction false} LoadedReturns(s: State, c: nat) returns (acts: seq<Action>)
    requires Inv(s) && c < |s.cancellers| && s.cancellers[c].Loaded?
    ensures AllContinue(acts) && var t := Run(s, acts);
            Inv(t) && |t.cancellers| == |s.cancellers| && (t.cancellers[c].Out? || t.cancellers[c].Waiting?)
  {
    var a := Cancel(c, In(0));
    var t := Step(s, a);
    LoadedStep(s, c);
    StepInv(s, a);
    var rest := [];
    if t.cancellers[c].Loaded? {
      LoadedStep(t, c);
      StepInv(t, a);
      First(t, a, [], Step(t, a));
      rest := [a] + [];
    }
    First(s, a, rest, Run(t, rest));
    acts := [a] + rest;
  }

  lemma {:induction false} WaitingReturns(s: State, c: nat) returns (acts: seq<Action>)
    requires Inv(s) && c < |s.cancellers| && s.cancellers[c].Waiting?
    ensures AllContinue(acts) && var t := Run(s, acts);
            Inv(t) && |t.cancellers| == |s.cancellers| && t.cancellers[c].Out?
  {
    var free := LockIsGivenBack(s);
    var t := Run(s, free);
    acts := free;
    if t.cancellers[c].Waiting? {
      var a := Cancel(c, In(0));
      var u := Step(t, a);
      StepInv(t, a);
      var rest := HolderGivesBack(u, c);
      First(t, a, rest, Run(u, rest));
      RunConcat(s, free, [a] + rest);
      acts := free + ([a] + rest);
    }
  }

  /** Whatever the others are doing, a `request_cancel` can come back, with no new operation, task or
      request beginning: it waits only for a lock that its holder gives back. */
  lemma {:induction false} RequestCanReturn(m: nat, actions: seq<Action>, c: nat) returns (more: seq<Action>)
    requires c < m
    ensures |Reach(m, actions + more).cancellers| == m && Reach(m, actions + more).cancellers[c].Out?
    ensures AllContinue(more)
  {
    var s := Reach(m, actions);
    RunInv(Init(m), actions);
    SameCancellers(m, actions);
    more := Returns(s, c);
    RunConcat(Init(m), actions, more);
  }

  lemma {:induction false} SameCancellers(m: nat, actions: seq<Action>)
    ensures |Reach(m, actions).cancellers| == m
  {
    if actions != [] {
      SameCancellers(m, actions[..|actions| - 1]);
      SameAfter(Reach(m, actions[..|actions| - 1]), actions[|actions| - 1]);
    }
  }

  lemma {:induction false} SameAfter(s: State, a: Action)
    requires s.nodes != []
    ensures |Step(s, a).cancellers| == |s.cancellers|
  {
    if !a.Cancel? && !a.Spurious? {
      TaskCalls(s, a);
    }
  }

  lemma {:induction false} Returns(s: State, c: nat) returns (acts: seq<Action>)
    requires Inv(s) && c < |s.cancellers|
    ensures AllContinue(acts) && var t := Run(s, acts);
            Inv(t) && |t.cancellers| == |s.cancellers| && t.cancellers[c].Out?
  {
    acts := [];
    if s.cancellers[c].Loaded? {
      acts := LoadedReturns(s, c);
    }
    var t := Run(s, acts);
    var rest := [];
    assert CancellerOk(t, c);
    if t.cancellers[c].Waiting? {
      rest := WaitingReturns(t, c);
    } else if HoldsLock(t.cancellers[c]) {
      rest := HolderGivesBack(t, c);
    }
    RunConcat(s, acts, rest);
    acts := acts + rest;
  }

  // ---- a hook comes back

  function UnhookLeft(task: TaskPc): nat {
    match task case Unhook(i) => i + 1 case _ => 0
  }

  lemma {:induction false} UnhookStep(s: State)
    requires Inv(s) && s.task.Unhook?
    ensures var t := Step(s, TaskStep);
            t.task == Idle || (t.task.Unhook? && UnhookLeft(t.task) < UnhookLeft(s.task))
  {
  }

  lemma {:induction false} Unhooks(s: State) returns (acts: seq<Action>)
    requires Inv(s) && s.task.Unhook?
    ensures AllContinue(acts) && Run(s, acts).task == Idle
    decreases UnhookLeft(s.task)
  {
    var t := Step(s, TaskStep);
    UnhookStep(s);
    StepInv(s, TaskStep);
    var rest := [];
    if t.task.Unhook? {
      rest := Unhooks(t);
    }
    First(s, TaskStep, rest, Run(t, rest));
    acts := [TaskStep] + rest;
  }

  lemma {:induction false} AfterHook(s: State) returns (acts: seq<Action>)
    requires Inv(s) && (s.task == ReturnedFalse || s.task == Suspended)
    ensures AllContinue(acts) && Run(s, acts).task == Idle
  {
    var t := Step(s, TaskStep);
    StepInv(s, TaskStep);
    var rest := Unhooks(t);
    First(s, TaskStep, rest, Run(t, rest));
    acts := [TaskStep] + rest;
  }

  /** From the wish for the lock to the end of the hook. */
  lemma {:induction false} Hooks(s: State) returns (acts: seq<Action>)
    requires Inv(s) && (s.task == FirstCas || s.task == WantLock || s.lock == ByHook)
    ensures AllContinue(acts) && var t := Run(s, acts);
            Inv(t) && (t.task == Suspended || t.task == ReturnedFalse)
  {
    if s.lock == ByHook {
      acts := TaskGivesBack(s);
    } else if s.task == FirstCas {
      StepInv(s, TaskStep);
      First(s, TaskStep, [], Step(s, TaskStep));
      acts := [TaskStep] + [];
    } else {
      var free := LockIsGivenBack(s);
      var t := Run(s, free);
      var u := Step(t, TaskStep);
      StepInv(t, TaskStep);
      var rest := TaskGivesBack(u);
      First(t, TaskStep, rest, Run(u, rest));
      RunConcat(s, free, [TaskStep] + rest);
      acts := free + ([TaskStep] + rest);
    }
  }

  /** Whatever the cancellers are doing, a hook can come back: the task suspends or is told that it
      must not, and from there on it can become idle again. */
  lemma {:induction false} HookCanReturn(m: nat, actions: seq<Action>) returns (more: seq<Action>, rest: seq<Action>)
    requires Reach(m, actions).task != Idle && !Reach(m, actions).task.Unhook?
    ensures AllContinue(more) && AllContinue(rest)
    ensures Reach(m, actions + more).task == Suspended || Reach(m, actions + more).task == ReturnedFalse
    ensures Reach(m, actions + more + rest).task == Idle
  {
    var s := Reach(m, actions);
    RunInv(Init(m), actions);
    more := [];
    if s.task != Suspended && s.task != ReturnedFalse {
      more := Hooks(s);
    }
    RunConcat(Init(m), actions, more);
    rest := AfterHook(Run(s, more));
    RunConcat(Init(m), actions + more, rest);
  }

  // ---- a hook that nobody disturbs

  /** n steps of the task. */
  function TaskSteps(n: nat): seq<Action> { if n == 0 then [] else [TaskStep] + TaskSteps(n - 1) }

  ghost predicate NoneCancelled(nodes: seq<Node>, from: nat) {
    forall j :: from <= j < |nodes| ==> !nodes[j].cancelled
  }

  lemma {:induction false} FailingStep(s: State)
    requires Inv(s) && (s.task.RollBack? || s.task == HookFailed)
    ensures var t := Step(s, TaskStep);
            if s.task.RollBack? then
              (t.task.RollBack? || t.task == HookFailed) && HookLeft(t.task, |t.nodes|) < HookLeft(s.task, |s.nodes|)
            else t.task == ReturnedFalse
  {
  }

  lemma {:induction false} FailedEnds(s: State) returns (n: nat)
    requires Inv(s) && (s.task.RollBack? || s.task == HookFailed)
    ensures Run(s, TaskSteps(n)).task == ReturnedFalse
    decreases HookLeft(s.task, |s.nodes|)
  {
    var t := Step(s, TaskStep);
    StepInv(s, TaskStep);
    FailingStep(s);
    n := 0;
    if s.task.RollBack? {
      n := FailedEnds(t);
    }
    RunFirst(s, TaskStep, TaskSteps(n));
    n := n + 1;
  }

  lemma {:induction false} ClimbingStep(s: State)
    requires Inv(s) && s.task.Climb?
    ensures var i, t := s.task.i, Step(s, TaskStep);
            && i < |s.nodes| == |t.nodes|
            && (NoneCancelled(t.nodes, 0) <==> NoneCancelled(s.nodes, 0))
            && (NoneCancelled(s.nodes, i + 1) && !s.nodes[i].cancelled ==> NoneCancelled(t.nodes, i))
            && if s.nodes[i].cancelled then t.task.RollBack? || t.task == HookFailed
               else if i == 0 then t.task == HookOk else t.task == Climb(i - 1)
  {
    var i, t := s.task.i, Step(s, TaskStep);
    assert forall j :: 0 <= j < |s.nodes| ==> t.nodes[j].cancelled == s.nodes[j].cancelled;
  }

  lemma {:induction false} SuccessEnds(s: State)
    requires Inv(s) && s.task == HookOk
    ensures Run(s, TaskSteps(1)).task == Suspended
  {
    RunFirst(s, TaskStep, []);
    assert TaskSteps(0) == [];
  }

  lemma {:induction false} TaskThen(s: State, n: nat)
    requires s.nodes != [] && Step(s, TaskStep).nodes != []
    ensures Run(s, TaskSteps(n + 1)) == Run(Step(s, TaskStep), TaskSteps(n))
  {
    RunFirst(s, TaskStep, TaskSteps(n));
  }

  lemma {:induction false} ClimbEnds(s: State) returns (n: nat)
    requires Inv(s) && s.task.Climb? && NoneCancelled(s.nodes, s.task.i + 1)
    ensures Run(s, TaskSteps(n)).task == if NoneCancelled(s.nodes, 0) then Suspended else ReturnedFalse
    decreases if s.task.Climb? then s.task.i else 0, 1
  {
    var t := Step(s, TaskStep);
    StepInv(s, TaskStep);
    ClimbingStep(s);
    n := RestEnds(t, s.task.i, s.nodes[s.task.i].cancelled);
    TaskThen(s, n);
    n := n + 1;
  }

  /** Node i has been tried. */
  lemma {:induction false} RestEnds(t: State, i: nat, cancelled: bool) returns (n: nat)
    requires Inv(t)
    requires cancelled ==> (t.task.RollBack? || t.task == HookFailed) && !NoneCancelled(t.nodes, 0)
    requires !cancelled ==> NoneCancelled(t.nodes, i) && t.task == if i == 0 then HookOk else Climb(i - 1)
    ensures Run(t, TaskSteps(n)).task == if NoneCancelled(t.nodes, 0) then Suspended else ReturnedFalse
    decreases i, 0
  {
    if cancelled {
      n := FailedEnds(t);
    } else if i == 0 {
      SuccessEnds(t);
      n := 1;
    } else {
      n := ClimbEnds(t);
    }
  }

  lemma {:induction false} FirstStep(s: State)
    requires Inv(s) && s.task == FirstCas
    ensures Run(s, TaskSteps(1)).task == if NoneCancelled(s.nodes, 0) then Suspended else ReturnedFalse
  {
    RunFirst(s, TaskStep, []);
    assert TaskSteps(0) == [];
  }

  lemma {:induction false} LockStep(s: State)
    requires Inv(s) && s.task == WantLock && s.lock == Free
    ensures var t := Step(s, TaskStep);
            Inv(t) && t.nodes == s.nodes && t.task == Climb(|s.nodes| - 1) && NoneCancelled(t.nodes, |s.nodes|)
  {
    StepInv(s, TaskStep);
  }

  lemma {:induction false} HookEnds(s: State) returns (n: nat)
    requires Inv(s) && (s.task == FirstCas || (s.task == WantLock && s.lock == Free))
    ensures Run(s, TaskSteps(n)).task == if NoneCancelled(s.nodes, 0) then Suspended else ReturnedFalse
  {
    if s.task == FirstCas {
      FirstStep(s);
      n := 1;
    } else {
      LockStep(s);
      n := ClimbEnds(Step(s, TaskStep));
      RunFirst(s, TaskStep, TaskSteps(n));
      n := n + 1;
    }
  }

  lemma {:induction false} HookBegins(s: State)
    requires Inv(s) && s.task == Idle
    ensures var t := Step(s, StartHook);
            t.nodes == s.nodes && t.lock == s.lock && (t.task == FirstCas || t.task == WantLock)
  {
  }

  /** A hook that nobody disturbs succeeds exactly when no task of the chain has been cancelled. */
  lemma {:induction false} UndisturbedHookIff(m: nat, actions: seq<Action>) returns (n: nat)
    requires Reach(m, actions).task == Idle && Reach(m, actions).lock == Free
    ensures Reach(m, actions + ([StartHook] + TaskSteps(n))).task
         == if NoneCancelled(Reach(m, actions).nodes, 0) then Suspended else ReturnedFalse
  {
    var s := Reach(m, actions);
    RunInv(Init(m), actions);
    HookBegins(s);
    StepInv(s, StartHook);
    n := HookEnds(Step(s, StartHook));
    RunFirst(s, StartHook, TaskSteps(n));
    RunConcat(Init(m), actions, [StartHook] + TaskSteps(n));
  }
}
