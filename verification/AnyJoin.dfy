/**
 `any`: the first operation that succeeds wins; the join fails only if all N operations fail.
 `done` is -2 times the finished workers while all of them failed; a success turns it positive,
 and publishing the winner's result subtracts one. Workers update it in a compare-and-swap
 loop; a weak compare-and-swap may also fail for no reason.
 */
module AnyJoin {
  import opened Counting

  datatype Pc =
    | Running
    | Loaded(seen: int)  // about to compare-and-swap `done` from `seen`
    | Claimed            // this worker's swap made `done` positive
    | Stored
    | Indexed
    | Cancelling
    | Resuming
    | Finished

  /** `oks[w]` says whether worker w's operation succeeds. */
  datatype State = State(
    oks: seq<bool>, done: int, pcs: seq<Pc>, slot: int, idx: int,
    cancels: seq<nat>, resumes: nat,
    winner: int, published: bool)

  /** A scheduled step: worker `w` moves; `spurious` lets its compare-and-swap fail. */
  datatype Action = Action(w: nat, spurious: bool)

  function Init(oks: seq<bool>): State {
    State(oks, 0, seq(|oks|, _ => Running), -1, -1, [], 0, -1, false)
  }

  function NewValue(ok: bool, seen: int): int {
    if ok then
      if seen > 0 then seen + 2 else 2 - seen
    else
      if seen > 0 then seen + 2 else seen - 2
  }

  predicate WellFormed(s: State) { |s.oks| == |s.pcs| }

  function Step(s: State, a: Action): (s': State)
    requires WellFormed(s) && a.w < |s.pcs|
    ensures WellFormed(s') && s'.oks == s.oks
  {
    var n := |s.pcs|;
    var w := a.w;
    match s.pcs[w]
    case Running => s.(pcs := s.pcs[w := Loaded(s.done)])
    case Loaded(seen) =>
      if s.done != seen || a.spurious then
        s.(pcs := s.pcs[w := Loaded(s.done)])
      else
        var newVal := NewValue(s.oks[w], seen);
        var needResume := newVal == n * 2 - 1 || -newVal == n * 2;
        var s' := s.(done := newVal);
        if s.oks[w] && seen <= 0 then s'.(pcs := s.pcs[w := Claimed], winner := w)
        else s'.(pcs := s.pcs[w := if needResume then Resuming else Finished])
    case Claimed => s.(slot := w, pcs := s.pcs[w := Stored])
    case Stored => s.(idx := w, pcs := s.pcs[w := Indexed])
    case Indexed =>
      var postSeen := s.done;
      s.(done := postSeen - 1, published := true,
         pcs := s.pcs[w := if postSeen == n * 2 then Resuming else Cancelling])
    case Cancelling => s.(cancels := s.cancels + [w], pcs := s.pcs[w := Finished])
    case Resuming => s.(resumes := s.resumes + 1, pcs := s.pcs[w := Finished])
    case Finished => s
  }

  function Run(oks: seq<bool>, schedule: seq<Action>): (s: State)
    requires forall k :: 0 <= k < |schedule| ==> schedule[k].w < |oks|
    ensures WellFormed(s) && s.oks == oks
  {
    if schedule == [] then Init(oks)
    else Step(Run(oks, schedule[..|schedule| - 1]), schedule[|schedule| - 1])
  }

  predicate IsCounted(p: Pc) { !p.Running? && !p.Loaded? }
  predicate IsResuming(p: Pc) { p == Resuming }
  predicate IsPublishing(p: Pc) { p == Claimed || p == Stored || p == Indexed }

  function Counted(s: State): nat { Count(s.pcs, IsCounted) }

  predicate Complete(s: State) { Counted(s) == |s.pcs| && (s.winner == -1 || s.published) }

  ghost predicate Inv(s: State) {
    && WellFormed(s)
    && |s.pcs| >= 1
    && s.done == (if s.winner == -1 then -2 * Counted(s) else 2 * Counted(s) - Bit(s.published))
    && -1 <= s.winner < |s.pcs|
    && (s.winner == -1 <==> forall w :: 0 <= w < |s.pcs| && s.oks[w] ==> !IsCounted(s.pcs[w]))
    && (s.winner == -1 ==> !s.published && s.cancels == [] && s.slot == -1 && s.idx == -1)
    && (s.winner >= 0 ==> (s.published <==> !IsPublishing(s.pcs[s.winner])))
    && (s.winner >= 0 ==> IsCounted(s.pcs[s.winner]) && s.oks[s.winner])
    && (forall w :: 0 <= w < |s.pcs| && (IsPublishing(s.pcs[w]) || s.pcs[w] == Cancelling) ==> w == s.winner)
    && (s.winner >= 0 && s.pcs[s.winner] in {Stored, Indexed} ==> s.slot == s.winner)
    && (s.winner >= 0 && s.pcs[s.winner] == Indexed ==> s.idx == s.winner)
    && (s.published ==> s.slot == s.winner && s.idx == s.winner)
    && (s.cancels != [] ==> s.cancels == [s.winner] && s.published && s.pcs[s.winner] == Finished)
    && s.resumes + Count(s.pcs, IsResuming) == Bit(Complete(s))
  }

  lemma {:induction false} InitInv(oks: seq<bool>)
    requires |oks| >= 1
    ensures Inv(Init(oks))
  {
    CountBounds(Init(oks).pcs, IsCounted);
    CountBounds(Init(oks).pcs, IsResuming);
  }

  lemma {:induction false} StepCounts(s: State, a: Action)
    requires WellFormed(s) && a.w < |s.pcs|
    ensures var s' := Step(s, a);
            && s'.pcs == s.pcs[a.w := s'.pcs[a.w]]
            && Counted(s') == Counted(s) - Bit(IsCounted(s.pcs[a.w])) + Bit(IsCounted(s'.pcs[a.w])) <= |s.pcs|
            && Count(s'.pcs, IsResuming)
                 == Count(s.pcs, IsResuming) - Bit(IsResuming(s.pcs[a.w])) + Bit(IsResuming(s'.pcs[a.w]))
            && (Counted(s) == |s.pcs| ==> IsCounted(s.pcs[a.w]))
            && (Counted(s) == 0 ==> !IsCounted(s.pcs[a.w]))
  {
    var s' := Step(s, a);
    CountUpdate(s.pcs, a.w, s'.pcs[a.w], IsCounted);
    CountUpdate(s.pcs, a.w, s'.pcs[a.w], IsResuming);
    CountBounds(s.pcs, IsCounted);
    CountBounds(s'.pcs, IsCounted);
  }

  lemma {:induction false} ReloadStepInv(s: State, a: Action)
    requires Inv(s) && a.w < |s.pcs| && s.pcs[a.w].Loaded? && (s.done != s.pcs[a.w].seen || a.spurious)
    ensures Inv(Step(s, a))
  {
    StepCounts(s, a);
  }

  /** The first success: this worker is the winner. */
  lemma {:induction false} ClaimStepInv(s: State, a: Action)
    requires Inv(s) && a.w < |s.pcs| && s.pcs[a.w].Loaded? && s.done == s.pcs[a.w].seen && !a.spurious
    requires s.oks[a.w] && s.done <= 0
    ensures Inv(Step(s, a))
  {
    StepCounts(s, a);
    CountBounds(s.pcs, IsCounted);
    var s' := Step(s, a);
    assert forall w :: 0 <= w < |s.pcs| && w != a.w ==> s'.pcs[w] == s.pcs[w];
  }

  /** A failure, or a success that comes too late. */
  lemma {:induction false} CountStepInv(s: State, a: Action)
    requires Inv(s) && a.w < |s.pcs| && s.pcs[a.w].Loaded? && s.done == s.pcs[a.w].seen && !a.spurious
    requires !s.oks[a.w] || s.done > 0
    ensures Inv(Step(s, a))
  {
    StepCounts(s, a);
    var s' := Step(s, a);
    if s.winner >= 0 {
      CountBounds(s.pcs, IsCounted);
    }
    assert forall w :: 0 <= w < |s.pcs| && w != a.w ==> s'.pcs[w] == s.pcs[w];
  }

  lemma {:induction false} SwapStepInv(s: State, a: Action)
    requires Inv(s) && a.w < |s.pcs| && s.pcs[a.w].Loaded?
    ensures Inv(Step(s, a))
  {
    if s.done != s.pcs[a.w].seen || a.spurious {
      ReloadStepInv(s, a);
    } else if s.oks[a.w] && s.done <= 0 {
      ClaimStepInv(s, a);
    } else {
      CountStepInv(s, a);
    }
  }

  lemma {:induction false} PublishStepInv(s: State, a: Action)
    requires Inv(s) && a.w < |s.pcs| && IsPublishing(s.pcs[a.w])
    ensures Inv(Step(s, a))
  {
    StepCounts(s, a);
  }

  lemma {:induction false} OtherStepInv(s: State, a: Action)
    requires Inv(s) && a.w < |s.pcs| && !s.pcs[a.w].Loaded? && !IsPublishing(s.pcs[a.w])
    ensures Inv(Step(s, a))
  {
    StepCounts(s, a);
  }

  lemma {:induction false} StepInv(s: State, a: Action)
    requires Inv(s) && a.w < |s.pcs|
    ensures Inv(Step(s, a))
  {
    if s.pcs[a.w].Loaded? {
      SwapStepInv(s, a);
    } else if IsPublishing(s.pcs[a.w]) {
      PublishStepInv(s, a);
    } else {
      OtherStepInv(s, a);
    }
  }

  lemma {:induction false} RunInv(oks: seq<bool>, schedule: seq<Action>)
    requires |oks| >= 1 && forall k :: 0 <= k < |schedule| ==> schedule[k].w < |oks|
    ensures Inv(Run(oks, schedule))
  {
    if schedule == [] {
      InitInv(oks);
    } else {
      RunInv(oks, schedule[..|schedule| - 1]);
      StepInv(Run(oks, schedule[..|schedule| - 1]), schedule[|schedule| - 1]);
    }
  }

  /** In every interleaving: at most one resume, only when all workers are counted, and then
      either the winner's result and index are in place and its operation succeeded, or every
      operation failed and no result was written; at most one round of cancellation. */
  lemma {:induction false} AnyResumesAfterCompletion(oks: seq<bool>, schedule: seq<Action>)
    requires |oks| >= 1 && forall k :: 0 <= k < |schedule| ==> schedule[k].w < |oks|
    ensures var s := Run(oks, schedule);
            && s.resumes <= 1
            && (s.resumes == 1 || Resuming in s.pcs ==>
                  && (forall w :: 0 <= w < |oks| ==> IsCounted(s.pcs[w]))
                  && if true in oks
                     then 0 <= s.winner < |oks| && oks[s.winner] && s.slot == s.winner && s.idx == s.winner
                     else s.winner == -1 && s.slot == -1 && s.idx == -1)
            && (s.cancels == [] || s.cancels == [s.winner])
  {
    var s := Run(oks, schedule);
    RunInv(oks, schedule);
    CountBounds(s.pcs, IsCounted);
    CountBounds(s.pcs, IsResuming);
  }

  // ---- when the others are cancelled

  predicate Scheduled(oks: seq<bool>, schedule: seq<Action>) {
    forall k :: 0 <= k < |schedule| ==> schedule[k].w < |oks|
  }

  ghost predicate SomeoneRuns(s: State) { exists v :: 0 <= v < |s.pcs| && !IsCounted(s.pcs[v]) }

  /** Step i of the schedule is the winner publishing its result while another worker has not counted
      itself yet. */
  ghost predicate PublishesEarly(oks: seq<bool>, schedule: seq<Action>, i: nat)
    requires Scheduled(oks, schedule)
  {
    i < |schedule| &&
    var s := Run(oks, schedule[..i]);
    s.pcs[schedule[i].w] == Indexed && SomeoneRuns(s)
  }

  ghost predicate Cancels(s: State) { s.cancels != [] || Cancelling in s.pcs }

  lemma {:induction false} CancelsStep(s: State, a: Action)
    requires Inv(s) && a.w < |s.pcs|
    ensures Cancels(Step(s, a)) <==> Cancels(s) || (s.pcs[a.w] == Indexed && SomeoneRuns(s))
  {
    var s', w := Step(s, a), a.w;
    CountBounds(s.pcs, IsCounted);
    forall v | 0 <= v < |s.pcs| && v != w ensures s'.pcs[v] == s.pcs[v] {
    }
    if s.pcs[w] == Indexed {
      assert Cancelling !in s.pcs;
      assert s'.pcs[w] == Cancelling || Cancelling !in s'.pcs;
    }
  }

  lemma {:induction false} EarlierPublish(oks: seq<bool>, schedule: seq<Action>)
    requires schedule != [] && Scheduled(oks, schedule)
    ensures var init := schedule[..|schedule| - 1];
            (exists i: nat :: PublishesEarly(oks, schedule, i))
            <==> (exists i: nat :: PublishesEarly(oks, init, i)) || PublishesEarly(oks, schedule, |schedule| - 1)
  {
    var init := schedule[..|schedule| - 1];
    forall i: nat | i < |init| ensures PublishesEarly(oks, schedule, i) <==> PublishesEarly(oks, init, i) {
      assert schedule[..i] == init[..i];
    }
  }

  lemma {:induction false} CancelsIs(oks: seq<bool>, schedule: seq<Action>)
    requires |oks| >= 1 && Scheduled(oks, schedule)
    ensures Cancels(Run(oks, schedule)) <==> exists i: nat :: PublishesEarly(oks, schedule, i)
  {
    if schedule != [] {
      var last := |schedule| - 1;
      CancelsIs(oks, schedule[..last]);
      EarlierPublish(oks, schedule);
      RunInv(oks, schedule[..last]);
      CancelsStep(Run(oks, schedule[..last]), schedule[last]);
    }
  }

  /** A winner that has ended has cancelled the others exactly when one of them had not finished its
      operation at the step that published the result; otherwise nobody cancels. */
  lemma {:induction false} AnyCancelsIff(oks: seq<bool>, schedule: seq<Action>)
    requires |oks| >= 1 && Scheduled(oks, schedule)
    requires var s := Run(oks, schedule); 0 <= s.winner < |oks| && s.pcs[s.winner] == Finished
    ensures var s := Run(oks, schedule);
            s.cancels == if exists i: nat :: PublishesEarly(oks, schedule, i) then [s.winner] else []
  {
    RunInv(oks, schedule);
    CancelsIs(oks, schedule);
  }

  lemma {:induction false} AnyResumesExactlyOnce(oks: seq<bool>, schedule: seq<Action>)
    requires |oks| >= 1 && forall k :: 0 <= k < |schedule| ==> schedule[k].w < |oks|
    requires var s := Run(oks, schedule); forall w :: 0 <= w < |oks| ==> s.pcs[w] == Finished
    ensures Run(oks, schedule).resumes == 1
  {
    var s := Run(oks, schedule);
    RunInv(oks, schedule);
    CountBounds(s.pcs, IsCounted);
    CountBounds(s.pcs, IsResuming);
  }

  // ---- every worker can end

  /** How many steps a worker is away from its end, at most, when nobody else moves. */
  function Left(done: int, p: Pc): nat {
    match p
    case Running => 6
    case Loaded(seen) => if seen == done then 5 else 6
    case Claimed => 4 case Stored => 3 case Indexed => 2
    case Cancelling => 1 case Resuming => 1 case Finished => 0
  }

  lemma {:induction false} OwnStep(s: State, w: nat)
    requires WellFormed(s) && w < |s.pcs| && s.pcs[w] != Finished
    ensures var s' := Step(s, Action(w, false));
            && Left(s'.done, s'.pcs[w]) < Left(s.done, s.pcs[w])
            && s'.pcs == s.pcs[w := s'.pcs[w]]
  {
  }

  lemma {:induction false} RunSnoc(oks: seq<bool>, schedule: seq<Action>, a: Action)
    requires Scheduled(oks, schedule + [a])
    ensures Scheduled(oks, schedule) && a.w < |oks|
    ensures Run(oks, schedule + [a]) == Step(Run(oks, schedule), a)
  {
    assert (schedule + [a])[..|schedule|] == schedule && (schedule + [a])[|schedule|] == a;
    forall k | 0 <= k < |schedule| ensures schedule[k].w < |oks| {
      assert (schedule + [a])[k] == schedule[k];
    }
  }

  /** A worker that moves alone ends within six steps, and the others stay where they are. */
  lemma {:induction false} RunsToEnd(oks: seq<bool>, schedule: seq<Action>, w: nat) returns (all: seq<Action>)
    requires Scheduled(oks, schedule) && w < |oks|
    ensures Scheduled(oks, all) && schedule <= all
    ensures |all| - |schedule| <= Left(Run(oks, schedule).done, Run(oks, schedule).pcs[w]) <= 6
    ensures Run(oks, all).pcs == Run(oks, schedule).pcs[w := Finished]
    decreases Left(Run(oks, schedule).done, Run(oks, schedule).pcs[w])
  {
    var s := Run(oks, schedule);
    all := schedule;
    if s.pcs[w] != Finished {
      OwnStep(s, w);
      RunSnoc(oks, schedule, Action(w, false));
      all := RunsToEnd(oks, schedule + [Action(w, false)], w);
    }
  }

  lemma {:induction false} FirstEnd(oks: seq<bool>, schedule: seq<Action>, m: nat) returns (all: seq<Action>)
    requires Scheduled(oks, schedule) && m <= |oks|
    ensures Scheduled(oks, all) && schedule <= all
    ensures forall w :: 0 <= w < m ==> Run(oks, all).pcs[w] == Finished
  {
    all := schedule;
    if m > 0 {
      var init := FirstEnd(oks, schedule, m - 1);
      all := RunsToEnd(oks, init, m - 1);
    }
  }

  /** Every run can be carried on until all workers have ended; then the waiter has been resumed. */
  lemma {:induction false} AnyCanFinish(oks: seq<bool>, schedule: seq<Action>) returns (all: seq<Action>)
    requires |oks| >= 1 && Scheduled(oks, schedule)
    ensures Scheduled(oks, all) && schedule <= all && Run(oks, all).resumes == 1
    ensures forall w :: 0 <= w < |oks| ==> Run(oks, all).pcs[w] == Finished
  {
    all := FirstEnd(oks, schedule, |oks|);
    AnyResumesExactlyOnce(oks, all);
  }
}
