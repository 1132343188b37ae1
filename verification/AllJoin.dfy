/**
 `all`: waits for N operations, and cancels the others when one fails. The absolute value of
 `done` is the number of finished workers; it is negative once a failure was counted.
 `needCancel` survives a failed compare-and-swap, as in the code.
 */
module AllJoin {
  import opened Counting

  datatype Pc =
    | Running
    | Stored                               // the result tuple entry is written
    | Loop(seen: int, needCancel: bool)    // before an iteration of the swap loop
    | Cancelling(needResume: bool)
    | Resuming
    | Finished

  datatype State = State(
    oks: seq<bool>, done: int, pcs: seq<Pc>, stored: seq<bool>, cancels: seq<nat>, resumes: nat)

  datatype Action = Action(w: nat, spurious: bool)

  function Init(oks: seq<bool>): State {
    State(oks, 0, seq(|oks|, _ => Running), seq(|oks|, _ => false), [], 0)
  }

  function NewValue(ok: bool, seen: int): int {
    if ok then
      if seen >= 0 then seen + 1 else seen - 1
    else
      if seen >= 0 then -(seen + 1) else seen - 1
  }

  predicate WellFormed(s: State) { |s.oks| == |s.pcs| == |s.stored| }

  function Step(s: State, a: Action): (s': State)
    requires WellFormed(s) && a.w < |s.pcs|
    ensures WellFormed(s') && s'.oks == s.oks
  {
    var n := |s.pcs|;
    var w := a.w;
    match s.pcs[w]
    case Running => s.(stored := s.stored[w := true], pcs := s.pcs[w := Stored])
    case Stored => s.(pcs := s.pcs[w := Loop(s.done, false)])
    case Loop(seen, needCancel) =>
      var newVal := NewValue(s.oks[w], seen);
      var needCancel' := needCancel || (!s.oks[w] && seen >= 0);
      if s.done != seen || a.spurious then
        s.(pcs := s.pcs[w := Loop(s.done, needCancel')])
      else
        var completed := if newVal >= 0 then newVal else -newVal;
        var needResume := completed == n;
        s.(done := newVal,
           pcs := s.pcs[w := if needCancel' then Cancelling(needResume)
                             else if needResume then Resuming else Finished])
    case Cancelling(needResume) =>
      s.(cancels := s.cancels + [w], pcs := s.pcs[w := if needResume then Resuming else Finished])
    case Resuming => s.(resumes := s.resumes + 1, pcs := s.pcs[w := Finished])
    case Finished => s
  }

  function RunFrom(s: State, schedule: seq<Action>): (s': State)
    requires WellFormed(s) && forall k :: 0 <= k < |schedule| ==> schedule[k].w < |s.oks|
    ensures WellFormed(s') && s'.oks == s.oks
  {
    if schedule == [] then s
    else Step(RunFrom(s, schedule[..|schedule| - 1]), schedule[|schedule| - 1])
  }

  function Run(oks: seq<bool>, schedule: seq<Action>): (s: State)
    requires forall k :: 0 <= k < |schedule| ==> schedule[k].w < |oks|
    ensures WellFormed(s) && s.oks == oks
  {
    RunFrom(Init(oks), schedule)
  }

  predicate IsCounted(p: Pc) { !p.Running? && !p.Stored? && !p.Loop? }
  predicate WillResume(p: Pc) { p == Resuming || p == Cancelling(true) }

  function Counted(s: State): nat { Count(s.pcs, IsCounted) }

  ghost predicate SomeFailureCounted(s: State)
    requires WellFormed(s)
  {
    exists w :: 0 <= w < |s.pcs| && IsCounted(s.pcs[w]) && !s.oks[w]
  }

  /** The counter, and the single right to resume. */
  ghost predicate CountOk(s: State)
    requires WellFormed(s)
  {
    && s.done == (if SomeFailureCounted(s) then -1 else 1) * Counted(s)
    && s.resumes + Count(s.pcs, WillResume) == Bit(Counted(s) == |s.pcs|)
  }

  ghost predicate StoredOk(s: State)
    requires WellFormed(s)
  {
    forall w :: 0 <= w < |s.pcs| && !s.pcs[w].Running? ==> s.stored[w]
  }

  /** Only failed operations cancel, each at most once, after having been counted. */
  ghost predicate CancelsOk(s: State)
    requires WellFormed(s)
  {
    && (forall w :: 0 <= w < |s.pcs| && s.pcs[w].Loop? && s.pcs[w].needCancel ==> !s.oks[w])
    && (forall w :: 0 <= w < |s.pcs| && s.pcs[w].Cancelling? ==> !s.oks[w])
    && (forall k :: 0 <= k < |s.cancels| ==>
          && s.cancels[k] < |s.pcs| && !s.oks[s.cancels[k]]
          && (s.pcs[s.cancels[k]] == Resuming || s.pcs[s.cancels[k]] == Finished))
    && (forall j, k :: 0 <= j < k < |s.cancels| ==> s.cancels[j] != s.cancels[k])
  }

  ghost predicate Inv(s: State) {
    WellFormed(s) && |s.pcs| >= 1 && CountOk(s) && StoredOk(s) && CancelsOk(s)
  }

  lemma {:induction false} InitInv(oks: seq<bool>)
    requires |oks| >= 1
    ensures Inv(Init(oks))
  {
    CountBounds(Init(oks).pcs, IsCounted);
    CountBounds(Init(oks).pcs, WillResume);
  }

  lemma {:induction false} StepCounts(s: State, a: Action)
    requires WellFormed(s) && a.w < |s.pcs|
    ensures var s' := Step(s, a);
            && s'.pcs == s.pcs[a.w := s'.pcs[a.w]]
            && Counted(s') == Counted(s) - Bit(IsCounted(s.pcs[a.w])) + Bit(IsCounted(s'.pcs[a.w])) <= |s.pcs|
            && Count(s'.pcs, WillResume)
                 == Count(s.pcs, WillResume) - Bit(WillResume(s.pcs[a.w])) + Bit(WillResume(s'.pcs[a.w]))
            && (Counted(s) == |s.pcs| ==> IsCounted(s.pcs[a.w]))
            && (Counted(s) == 0 ==> forall w :: 0 <= w < |s.pcs| ==> !IsCounted(s.pcs[w]))
  {
    var s' := Step(s, a);
    CountUpdate(s.pcs, a.w, s'.pcs[a.w], IsCounted);
    CountUpdate(s.pcs, a.w, s'.pcs[a.w], WillResume);
    CountBounds(s.pcs, IsCounted);
    CountBounds(s'.pcs, IsCounted);
  }

  /** Whether a failure was counted changes only when a failed worker's swap succeeds. */
  lemma {:induction false} StepFailures(s: State, a: Action)
    requires WellFormed(s) && a.w < |s.pcs|
    ensures var s' := Step(s, a);
            SomeFailureCounted(s') == (SomeFailureCounted(s) || (IsCounted(s'.pcs[a.w]) && !s.oks[a.w]))
  {
  }

  lemma {:induction false} StepCountOk(s: State, a: Action)
    requires WellFormed(s) && |s.pcs| >= 1 && CountOk(s) && a.w < |s.pcs|
    ensures CountOk(Step(s, a))
  {
    StepCounts(s, a);
    StepFailures(s, a);
  }

  lemma {:induction false} StepStoredOk(s: State, a: Action)
    requires WellFormed(s) && StoredOk(s) && a.w < |s.pcs|
    ensures StoredOk(Step(s, a))
  {
  }

  lemma {:induction false} StepCancelsOk(s: State, a: Action)
    requires WellFormed(s) && CancelsOk(s) && a.w < |s.pcs|
    ensures CancelsOk(Step(s, a))
  {
  }

  lemma {:induction false} StepInv(s: State, a: Action)
    requires Inv(s) && a.w < |s.pcs|
    ensures Inv(Step(s, a))
  {
    StepCountOk(s, a);
    StepStoredOk(s, a);
    StepCancelsOk(s, a);
  }

  lemma {:induction false} RunInv(s: State, schedule: seq<Action>)
    requires Inv(s) && forall k :: 0 <= k < |schedule| ==> schedule[k].w < |s.oks|
    ensures Inv(RunFrom(s, schedule))
  {
    if schedule != [] {
      RunInv(s, schedule[..|schedule| - 1]);
      StepInv(RunFrom(s, schedule[..|schedule| - 1]), schedule[|schedule| - 1]);
    }
  }

  /** In every interleaving: |done| counts the finished workers and its sign tells whether one
      of them failed; at most one resume, and none before all results are stored. */
  lemma {:induction false} AllCountsAndResumes(oks: seq<bool>, schedule: seq<Action>)
    requires |oks| >= 1 && forall k :: 0 <= k < |schedule| ==> schedule[k].w < |oks|
    ensures var s := Run(oks, schedule);
            && (if s.done >= 0 then s.done else -s.done) == Counted(s)
            && (s.done < 0 <==> SomeFailureCounted(s))
            && s.resumes <= 1
            && (s.resumes == 1 || Resuming in s.pcs ==>
                  && Counted(s) == |oks|
                  && forall w :: 0 <= w < |oks| ==> s.stored[w])
            && ((forall w :: 0 <= w < |oks| ==> s.pcs[w] == Finished) ==> s.resumes == 1)
  {
    var s := Run(oks, schedule);
    InitInv(oks);
    RunInv(Init(oks), schedule);
    CountBounds(s.pcs, IsCounted);
    CountBounds(s.pcs, WillResume);
  }

  // ---- who cancels

  /** In step i of the schedule worker w, whose operation failed, reads the counter, at first or after
      a failed swap, when no failure has been counted. */
  ghost predicate SeesNoFailure(oks: seq<bool>, schedule: seq<Action>, w: nat, i: nat)
    requires Scheduled(oks, schedule)
  {
    i < |schedule| && schedule[i].w == w < |oks| && !oks[w] &&
    var s := Run(oks, schedule[..i]);
    Step(s, schedule[i]).pcs[w].Loop? && !SomeFailureCounted(s)
  }

  /** Worker w is going to cancel or has cancelled. */
  predicate MarkedToCancel(s: State, w: nat)
    requires WellFormed(s) && w < |s.pcs|
  {
    !s.oks[w] &&
    ((s.pcs[w].Loop? && (s.pcs[w].needCancel || s.pcs[w].seen >= 0)) || s.pcs[w].Cancelling? || w in s.cancels)
  }

  lemma {:induction false} MarkStep(s: State, a: Action, w: nat)
    requires Inv(s) && a.w < |s.pcs| && w < |s.pcs|
    ensures MarkedToCancel(Step(s, a), w)
       <==> MarkedToCancel(s, w)
            || (a.w == w && !s.oks[w] && Step(s, a).pcs[w].Loop? && !SomeFailureCounted(s))
  {
    CountBounds(s.pcs, IsCounted);
    if w in s.cancels {
      var k :| 0 <= k < |s.cancels| && s.cancels[k] == w;
      assert Step(s, a).cancels[k] == w;
    }
  }

  lemma {:induction false} EarlierLook(oks: seq<bool>, schedule: seq<Action>, w: nat)
    requires schedule != [] && Scheduled(oks, schedule)
    ensures var init := schedule[..|schedule| - 1];
            (exists i: nat :: SeesNoFailure(oks, schedule, w, i))
            <==> (exists i: nat :: SeesNoFailure(oks, init, w, i)) || SeesNoFailure(oks, schedule, w, |schedule| - 1)
  {
    var init := schedule[..|schedule| - 1];
    forall i: nat | i < |init| ensures SeesNoFailure(oks, schedule, w, i) <==> SeesNoFailure(oks, init, w, i) {
      assert schedule[..i] == init[..i];
    }
  }

  lemma {:induction false} MarkedIs(oks: seq<bool>, schedule: seq<Action>, w: nat)
    requires w < |oks| && Scheduled(oks, schedule)
    ensures MarkedToCancel(Run(oks, schedule), w) <==> exists i: nat :: SeesNoFailure(oks, schedule, w, i)
  {
    if schedule != [] {
      var last := |schedule| - 1;
      var init := schedule[..last];
      MarkedIs(oks, init, w);
      EarlierLook(oks, schedule, w);
      InitInv(oks);
      RunInv(Init(oks), init);
      MarkStep(Run(oks, init), schedule[last], w);
    }
  }

  /** A worker that has ended has cancelled the others exactly when its operation failed and at one of
      its reads of the counter no failure had been counted. */
  lemma {:induction false} AllCancelsIff(oks: seq<bool>, schedule: seq<Action>, w: nat)
    requires w < |oks| && Scheduled(oks, schedule) && Run(oks, schedule).pcs[w] == Finished
    ensures w in Run(oks, schedule).cancels <==> exists i: nat :: SeesNoFailure(oks, schedule, w, i)
  {
    MarkedIs(oks, schedule, w);
    InitInv(oks);
    RunInv(Init(oks), schedule);
  }

  /** The first failure that is counted cancels, or is about to. */
  ghost predicate FailureCancels(s: State)
    requires WellFormed(s)
  {
    SomeFailureCounted(s) ==> s.cancels != [] || exists w :: 0 <= w < |s.pcs| && s.pcs[w].Cancelling?
  }

  lemma {:induction false} FailureCancelsStep(s: State, a: Action)
    requires Inv(s) && FailureCancels(s) && a.w < |s.pcs|
    ensures FailureCancels(Step(s, a))
  {
    var s', w := Step(s, a), a.w;
    StepFailures(s, a);
    CountBounds(s.pcs, IsCounted);
    if SomeFailureCounted(s) && s.cancels == [] {
      var v :| 0 <= v < |s.pcs| && s.pcs[v].Cancelling?;
      assert v != w ==> s'.pcs[v].Cancelling?;
    } else if SomeFailureCounted(s') && !SomeFailureCounted(s) {
      assert s'.pcs[w].Cancelling?;
    }
  }

  lemma {:induction false} FailureCancelsRun(oks: seq<bool>, schedule: seq<Action>)
    requires |oks| >= 1 && Scheduled(oks, schedule)
    ensures FailureCancels(Run(oks, schedule))
  {
    if schedule != [] {
      var init := schedule[..|schedule| - 1];
      FailureCancelsRun(oks, init);
      InitInv(oks);
      RunInv(Init(oks), init);
      FailureCancelsStep(Run(oks, init), schedule[|schedule| - 1]);
    }
  }

  /** When all workers have ended, the others were cancelled exactly when some operation failed. */
  lemma {:induction false} SomeFailureIsCancelledFor(oks: seq<bool>, schedule: seq<Action>)
    requires |oks| >= 1 && Scheduled(oks, schedule)
    requires forall w :: 0 <= w < |oks| ==> Run(oks, schedule).pcs[w] == Finished
    ensures Run(oks, schedule).cancels != [] <==> false in oks
  {
    var s := Run(oks, schedule);
    InitInv(oks);
    RunInv(Init(oks), schedule);
    FailureCancelsRun(oks, schedule);
    if false in oks {
      var w :| 0 <= w < |oks| && oks[w] == false;
      assert IsCounted(s.pcs[w]) && !s.oks[w];
    }
    if s.cancels != [] {
      assert !oks[s.cancels[0]];
    }
  }

  // ---- how often the other operations are cancelled

  predicate IsFailure(ok: bool) { !ok }

  predicate Scheduled(oks: seq<bool>, schedule: seq<Action>) {
    forall k :: 0 <= k < |schedule| ==> schedule[k].w < |oks|
  }

  /** "Only cancel once", the comment beside the cancellation, for all interleavings. */
  ghost predicate CancelsAtMostOnce(oks: seq<bool>) {
    forall schedule :: Scheduled(oks, schedule) ==> |Run(oks, schedule).cancels| <= 1
  }

  // Two failing workers i and j, in two halves: both load 0, then i's swap succeeds while j's
  // fails after j has decided to cancel.
  function BothLoad(i: nat, j: nat): seq<Action> {
    [] + [Action(i, false)] + [Action(i, false)] + [Action(j, false)] + [Action(j, false)]
  }

  function BothCancel(i: nat, j: nat): seq<Action> {
    [] + [Action(i, false)] + [Action(j, false)] + [Action(j, false)] + [Action(i, false)] + [Action(j, false)]
  }

  lemma {:induction false} Unroll(s: State, t: seq<Action>, a: Action)
    requires WellFormed(s) && a.w < |s.oks| && forall i :: 0 <= i < |t| ==> t[i].w < |s.oks|
    ensures RunFrom(s, t + [a]) == Step(RunFrom(s, t), a)
  {
  }

  lemma {:induction false} RunConcat(s: State, t: seq<Action>, u: seq<Action>)
    requires WellFormed(s) && forall i :: 0 <= i < |t| ==> t[i].w < |s.oks|
    requires forall i :: 0 <= i < |u| ==> u[i].w < |s.oks|
    ensures RunFrom(s, t + u) == RunFrom(RunFrom(s, t), u)
  {
    if u == [] {
      assert t + u == t;
    } else {
      var k := |u| - 1;
      RunConcat(s, t, u[..k]);
      assert (t + u)[..|t + u| - 1] == t + u[..k];
    }
  }

  lemma {:induction false} BothLoadZero(oks: seq<bool>, i: nat, j: nat)
    requires i < |oks| && j < |oks| && i != j
    ensures var s := Run(oks, BothLoad(i, j));
            s.done == 0 && s.cancels == [] && s.pcs[i] == Loop(0, false) && s.pcs[j] == Loop(0, false)
  {
    var a, b, s := Action(i, false), Action(j, false), Init(oks);
    Unroll(s, [], a);
    Unroll(s, [] + [a], a);
    Unroll(s, [] + [a] + [a], b);
    Unroll(s, [] + [a] + [a] + [b], b);
  }

  lemma {:induction false} SwapStep(s: State, i: nat, j: nat)
    requires WellFormed(s) && i < |s.oks| && j < |s.oks| && i != j && !s.oks[i] && !s.oks[j]
    requires s.done == 0 && s.cancels == [] && s.pcs[i] == Loop(0, false) && s.pcs[j] == Loop(0, false)
    ensures var s' := Step(Step(Step(s, Action(i, false)), Action(j, false)), Action(j, false));
            s'.pcs[i].Cancelling? && s'.pcs[j].Cancelling? && s'.cancels == []
  {
  }

  lemma {:induction false} CancelSteps(s: State, i: nat, j: nat)
    requires WellFormed(s) && i < |s.oks| && j < |s.oks| && i != j
    requires s.pcs[i].Cancelling? && s.pcs[j].Cancelling? && s.cancels == []
    ensures Step(Step(s, Action(i, false)), Action(j, false)).cancels == [i, j]
  {
  }

  lemma {:induction false} BothCancelIs(s: State, i: nat, j: nat)
    requires WellFormed(s) && i < |s.oks| && j < |s.oks|
    ensures var a, b := Action(i, false), Action(j, false);
            RunFrom(s, BothCancel(i, j)) == Step(Step(Step(Step(Step(s, a), b), b), a), b)
  {
    var a, b := Action(i, false), Action(j, false);
    Unroll(s, [], a);
    Unroll(s, [] + [a], b);
    Unroll(s, [] + [a] + [b], b);
    Unroll(s, [] + [a] + [b] + [b], a);
    Unroll(s, [] + [a] + [b] + [b] + [a], b);
  }

  lemma {:induction false} BothThenCancel(s: State, i: nat, j: nat)
    requires WellFormed(s) && i < |s.oks| && j < |s.oks| && i != j && !s.oks[i] && !s.oks[j]
    requires s.done == 0 && s.cancels == [] && s.pcs[i] == Loop(0, false) && s.pcs[j] == Loop(0, false)
    ensures RunFrom(s, BothCancel(i, j)).cancels == [i, j]
  {
    SwapStep(s, i, j);
    CancelSteps(Step(Step(Step(s, Action(i, false)), Action(j, false)), Action(j, false)), i, j);
    BothCancelIs(s, i, j);
  }

  lemma {:induction false} TwoCancelsHappen(oks: seq<bool>, i: nat, j: nat)
    requires i < |oks| && j < |oks| && i != j && !oks[i] && !oks[j]
    ensures Run(oks, BothLoad(i, j) + BothCancel(i, j)).cancels == [i, j]
  {
    BothLoadZero(oks, i, j);
    BothThenCancel(Run(oks, BothLoad(i, j)), i, j);
    RunConcat(Init(oks), BothLoad(i, j), BothCancel(i, j));
  }

  lemma {:induction false} OneFailureCancelsOnce(oks: seq<bool>, schedule: seq<Action>)
    requires |oks| >= 1 && Count(oks, IsFailure) <= 1 && Scheduled(oks, schedule)
    ensures |Run(oks, schedule).cancels| <= 1
  {
    InitInv(oks);
    RunInv(Init(oks), schedule);
    var c := Run(oks, schedule).cancels;
    if |c| >= 2 {
      CountUnique(oks, c[0], c[1], IsFailure);
    }
  }

  lemma {:induction false} TwoFailuresCanCancelTwice(oks: seq<bool>)
    requires Count(oks, IsFailure) >= 2
    ensures !CancelsAtMostOnce(oks)
  {
    var i, j := TwoFailures(oks);
    TwoCancelsHappen(oks, i, j);
    var t := BothLoad(i, j) + BothCancel(i, j);
    assert Scheduled(oks, t) && |Run(oks, t).cancels| == 2;
  }

  /** The code keeps its promise in every interleaving exactly when at most one operation fails. */
  lemma {:induction false} CancelsAtMostOnceIff(oks: seq<bool>)
    requires |oks| >= 1
    ensures CancelsAtMostOnce(oks) <==> Count(oks, IsFailure) <= 1
  {
    if Count(oks, IsFailure) <= 1 {
      forall schedule | Scheduled(oks, schedule)
        ensures |Run(oks, schedule).cancels| <= 1
      {
        OneFailureCancelsOnce(oks, schedule);
      }
    } else {
      TwoFailuresCanCancelTwice(oks);
    }
  }

  lemma {:induction false} TwoFailures(oks: seq<bool>) returns (i: nat, j: nat)
    requires Count(oks, IsFailure) >= 2
    ensures i < |oks| && j < |oks| && i != j && !oks[i] && !oks[j]
  {
    if oks[0] {
      i, j := TwoFailures(oks[1..]);
      i, j := i + 1, j + 1;
    } else {
      CountBounds(oks[1..], IsFailure);
      var k :| 0 <= k < |oks| - 1 && IsFailure(oks[1..][k]);
      i, j := 0, k + 1;
    }
  }

  // ---- every worker can end

  /** How many steps a worker is away from its end, at most, when nobody else moves. */
  function Left(done: int, p: Pc): nat {
    match p
    case Running => 5 case Stored => 4
    case Loop(seen, _) => if seen == done then 3 else 4
    case Cancelling(_) => 2 case Resuming => 1 case Finished => 0
  }

  lemma {:induction false} OwnStep(s: State, w: nat)
    requires WellFormed(s) && w < |s.pcs| && s.pcs[w] != Finished
    ensures var s' := Step(s, Action(w, false));
            && Left(s'.done, s'.pcs[w]) < Left(s.done, s.pcs[w])
            && s'.pcs == s.pcs[w := s'.pcs[w]]
  {
  }

  /** A worker that moves alone ends within five steps, and the others stay where they are. */
  lemma {:induction false} RunsToEnd(oks: seq<bool>, schedule: seq<Action>, w: nat) returns (all: seq<Action>)
    requires Scheduled(oks, schedule) && w < |oks|
    ensures Scheduled(oks, all) && schedule <= all
    ensures |all| - |schedule| <= Left(Run(oks, schedule).done, Run(oks, schedule).pcs[w]) <= 5
    ensures Run(oks, all).pcs == Run(oks, schedule).pcs[w := Finished]
    decreases Left(Run(oks, schedule).done, Run(oks, schedule).pcs[w])
  {
    var s := Run(oks, schedule);
    all := schedule;
    if s.pcs[w] != Finished {
      OwnStep(s, w);
      Unroll(Init(oks), schedule, Action(w, false));
      all := RunsToEnd(oks, schedule + [Action(w, false)], w);
    }
  }

  lemma {:induction false} FirstEnd(oks: seq<bool>, schedule: seq<Action>, m: nat) returns (all: seq<Action>)
    requires Scheduled(oks, schedule) && m <= |oks|
    ensures Scheduled(oks, all) && schedule <= all
    ensures forall w :: 0 <= w < m ==> Run(oks, all).pcs[w] == Finished
  {
    all := schedule;
    if m > 0 {
      var init := FirstEnd(oks, schedule, m - 1);
      all := RunsToEnd(oks, init, m - 1);
    }
  }

  /** Every run can be carried on until all workers have ended; then the waiter has been resumed. */
  lemma {:induction false} AllCanFinish(oks: seq<bool>, schedule: seq<Action>) returns (all: seq<Action>)
    requires |oks| >= 1 && Scheduled(oks, schedule)
    ensures Scheduled(oks, all) && schedule <= all && Run(oks, all).resumes == 1
    ensures forall w :: 0 <= w < |oks| ==> Run(oks, all).pcs[w] == Finished
  {
    all := FirstEnd(oks, schedule, |oks|);
    AllCountsAndResumes(oks, all);
  }
}
