/**
 `race`: the first finished operation wins. N workers share one integer `done`, which packs
 the number of finished workers (times two) and whether the winner's result is published
 (minus one). One atomic operation, or one plain store, is one step of one worker.
 */
module RaceJoin {
  import opened Counting

  datatype Pc =
    | Running     // the operation has not finished
    | Claimed     // fetch_add returned 0: this worker is the winner
    | Stored      // its result is written
    | Indexed     // its index is written
    | Cancelling  // about to cancel the other operations
    | Resuming    // about to resume the waiter
    | Finished

  /** `slot` and `idx` name the worker whose result, and whose index, was written (-1: nobody).
      `winner` and `published` are history: who claimed, and whether fetch_sub happened. */
  datatype State = State(
    done: int, pcs: seq<Pc>, slot: int, idx: int,
    cancels: seq<nat>, resumes: nat,
    winner: int, published: bool)

  function Init(n: nat): State {
    State(0, seq(n, _ => Running), -1, -1, [], 0, -1, false)
  }

  /** One step of worker `w`; a finished worker has none left. */
  function Step(s: State, w: nat): State
    requires w < |s.pcs|
  {
    var n := |s.pcs|;
    match s.pcs[w]
    case Running =>
      var seen := s.done;
      var s' := s.(done := seen + 2);
      if seen == 0 then s'.(pcs := s.pcs[w := Claimed], winner := w)
      else if seen + 2 == n * 2 - 1 then s'.(pcs := s.pcs[w := Resuming])
      else s'.(pcs := s.pcs[w := Finished])
    case Claimed => s.(slot := w, pcs := s.pcs[w := Stored])
    case Stored => s.(idx := w, pcs := s.pcs[w := Indexed])
    case Indexed =>
      var postSeen := s.done;
      s.(done := postSeen - 1, published := true,
         pcs := s.pcs[w := if postSeen == n * 2 then Resuming else Cancelling])
    case Cancelling => s.(cancels := s.cancels + [w], pcs := s.pcs[w := Finished])
    case Resuming => s.(resumes := s.resumes + 1, pcs := s.pcs[w := Finished])
    case Finished => s
  }

  /** The state after the workers named by `schedule` took one step each, in that order. */
  function Run(n: nat, schedule: seq<nat>): (s: State)
    requires forall k :: 0 <= k < |schedule| ==> schedule[k] < n
    ensures |s.pcs| == n
  {
    if schedule == [] then Init(n)
    else Step(Run(n, schedule[..|schedule| - 1]), schedule[|schedule| - 1])
  }

  predicate IsCounted(p: Pc) { p != Running }
  predicate IsResuming(p: Pc) { p == Resuming }
  predicate IsPublishing(p: Pc) { p == Claimed || p == Stored || p == Indexed }

  function Counted(s: State): nat { Count(s.pcs, IsCounted) }

  /** The join is complete: everybody counted, and the winner's result is visible. */
  predicate Complete(s: State) { Counted(s) == |s.pcs| && s.published }

  ghost predicate Inv(s: State) {
    && |s.pcs| >= 1
    && s.done == 2 * Counted(s) - Bit(s.published)
    && -1 <= s.winner < |s.pcs|
    && (s.winner == -1 <==> Counted(s) == 0)
    && (s.winner == -1 ==> !s.published && s.cancels == [])
    && (s.winner >= 0 ==> (s.published <==> !IsPublishing(s.pcs[s.winner])) && s.pcs[s.winner] != Running)
    && (forall w :: 0 <= w < |s.pcs| && (IsPublishing(s.pcs[w]) || s.pcs[w] == Cancelling) ==> w == s.winner)
    && (s.winner >= 0 && s.pcs[s.winner] in {Stored, Indexed} ==> s.slot == s.winner)
    && (s.winner >= 0 && s.pcs[s.winner] == Indexed ==> s.idx == s.winner)
    && (s.published ==> s.slot == s.winner && s.idx == s.winner)
    && (s.cancels != [] ==> s.cancels == [s.winner] && s.published && s.pcs[s.winner] == Finished)
    // the right to resume the waiter exists once, from completion on
    && s.resumes + Count(s.pcs, IsResuming) == Bit(Complete(s))
  }

  lemma {:induction false} InitInv(n: nat)
    requires n >= 1
    ensures Inv(Init(n))
  {
    CountBounds(Init(n).pcs, IsCounted);
    CountBounds(Init(n).pcs, IsResuming);
  }

  /** How one step of `w` moves the two counts. */
  lemma {:induction false} StepCounts(s: State, w: nat)
    requires w < |s.pcs|
    ensures var s' := Step(s, w);
            && s'.pcs == s.pcs[w := s'.pcs[w]]
            && Counted(s') == Counted(s) - Bit(IsCounted(s.pcs[w])) + Bit(IsCounted(s'.pcs[w])) <= |s.pcs|
            && Count(s'.pcs, IsResuming)
                 == Count(s.pcs, IsResuming) - Bit(IsResuming(s.pcs[w])) + Bit(IsResuming(s'.pcs[w]))
            && (Counted(s) == |s.pcs| ==> IsCounted(s.pcs[w]))
            && (Counted(s) == 0 ==> !IsCounted(s.pcs[w]))
  {
    var s' := Step(s, w);
    CountUpdate(s.pcs, w, s'.pcs[w], IsCounted);
    CountUpdate(s.pcs, w, s'.pcs[w], IsResuming);
    CountBounds(s.pcs, IsCounted);
    CountBounds(s'.pcs, IsCounted);
  }

  lemma {:induction false} CountStepInv(s: State, w: nat)
    requires Inv(s) && w < |s.pcs| && s.pcs[w] == Running
    ensures Inv(Step(s, w))
  {
    StepCounts(s, w);
  }

  lemma {:induction false} PublishStepInv(s: State, w: nat)
    requires Inv(s) && w < |s.pcs| && IsPublishing(s.pcs[w])
    ensures Inv(Step(s, w))
  {
    StepCounts(s, w);
  }

  lemma {:induction false} StepInv(s: State, w: nat)
    requires Inv(s) && w < |s.pcs|
    ensures Inv(Step(s, w))
  {
    match s.pcs[w]
    case Running => CountStepInv(s, w);
    case Claimed => PublishStepInv(s, w);
    case Stored => PublishStepInv(s, w);
    case Indexed => PublishStepInv(s, w);
    case Cancelling => StepCounts(s, w);
    case Resuming => StepCounts(s, w);
    case Finished =>
  }

  lemma {:induction false} RunInv(n: nat, schedule: seq<nat>)
    requires n >= 1 && forall k :: 0 <= k < |schedule| ==> schedule[k] < n
    ensures Inv(Run(n, schedule))
  {
    if schedule == [] {
      InitInv(n);
    } else {
      RunInv(n, schedule[..|schedule| - 1]);
      StepInv(Run(n, schedule[..|schedule| - 1]), schedule[|schedule| - 1]);
    }
  }

  /** In every interleaving of any number of workers: the waiter is resumed at most once; when it
      is (or is about to be), all workers have counted themselves and the winner's result and
      index are in place; there is one winner and at most one round of cancellation, by it. */
  lemma {:induction false} RaceResumesAfterCompletion(n: nat, schedule: seq<nat>)
    requires n >= 1 && forall k :: 0 <= k < |schedule| ==> schedule[k] < n
    ensures var s := Run(n, schedule);
            && s.resumes <= 1
            && (s.resumes == 1 || Resuming in s.pcs ==>
                  && Running !in s.pcs
                  && 0 <= s.winner < n && s.slot == s.winner && s.idx == s.winner)
            && (s.cancels == [] || s.cancels == [s.winner])
  {
    var s := Run(n, schedule);
    RunInv(n, schedule);
    CountBounds(s.pcs, IsCounted);
    CountBounds(s.pcs, IsResuming);
  }

  // ---- when the others are cancelled

  /** Step i of the schedule is the winner publishing its result while another worker has not counted
      itself yet. */
  ghost predicate PublishesEarly(n: nat, schedule: seq<nat>, i: nat)
    requires forall k :: 0 <= k < |schedule| ==> schedule[k] < n
  {
    i < |schedule| &&
    var s := Run(n, schedule[..i]);
    s.pcs[schedule[i]] == Indexed && Running in s.pcs
  }

  ghost predicate Cancels(s: State) { s.cancels != [] || Cancelling in s.pcs }

  lemma {:induction false} CancelsStep(s: State, w: nat)
    requires Inv(s) && w < |s.pcs|
    ensures Cancels(Step(s, w)) <==> Cancels(s) || (s.pcs[w] == Indexed && Running in s.pcs)
  {
    var s' := Step(s, w);
    CountBounds(s.pcs, IsCounted);
    assert s'.pcs[w] != s.pcs[w] ==> s.pcs[w] != Finished;
    forall v | 0 <= v < |s.pcs| && v != w ensures s'.pcs[v] == s.pcs[v] {
    }
    if s.pcs[w] == Indexed {
      assert Cancelling !in s.pcs;
      assert s'.pcs[w] == Cancelling || Cancelling !in s'.pcs;
    }
  }

  lemma {:induction false} EarlierPublish(n: nat, schedule: seq<nat>)
    requires schedule != [] && forall k :: 0 <= k < |schedule| ==> schedule[k] < n
    ensures var init := schedule[..|schedule| - 1];
            (exists i: nat :: PublishesEarly(n, schedule, i))
            <==> (exists i: nat :: PublishesEarly(n, init, i)) || PublishesEarly(n, schedule, |schedule| - 1)
  {
    var init := schedule[..|schedule| - 1];
    forall i: nat | i < |init| ensures PublishesEarly(n, schedule, i) <==> PublishesEarly(n, init, i) {
      assert schedule[..i] == init[..i];
    }
  }

  lemma {:induction false} CancelsIs(n: nat, schedule: seq<nat>)
    requires n >= 1 && forall k :: 0 <= k < |schedule| ==> schedule[k] < n
    ensures Cancels(Run(n, schedule)) <==> exists i: nat :: PublishesEarly(n, schedule, i)
  {
    if schedule != [] {
      var last := |schedule| - 1;
      CancelsIs(n, schedule[..last]);
      EarlierPublish(n, schedule);
      RunInv(n, schedule[..last]);
      CancelsStep(Run(n, schedule[..last]), schedule[last]);
    }
  }

  /** A winner that has ended has cancelled the others exactly when one of them had not finished its
      operation at the step that published the result; otherwise nobody cancels. */
  lemma {:induction false} RaceCancelsIff(n: nat, schedule: seq<nat>)
    requires n >= 1 && forall k :: 0 <= k < |schedule| ==> schedule[k] < n
    requires var s := Run(n, schedule); 0 <= s.winner < n && s.pcs[s.winner] == Finished
    ensures var s := Run(n, schedule);
            s.cancels == if exists i: nat :: PublishesEarly(n, schedule, i) then [s.winner] else []
  {
    RunInv(n, schedule);
    CancelsIs(n, schedule);
  }

  /** Once every worker has run to its end the waiter has been resumed, exactly once. */
  lemma {:induction false} RaceResumesExactlyOnce(n: nat, schedule: seq<nat>)
    requires n >= 1 && forall k :: 0 <= k < |schedule| ==> schedule[k] < n
    requires var s := Run(n, schedule); forall w :: 0 <= w < n ==> s.pcs[w] == Finished
    ensures Run(n, schedule).resumes == 1
  {
    var s := Run(n, schedule);
    RunInv(n, schedule);
    CountBounds(s.pcs, IsCounted);
    CountBounds(s.pcs, IsResuming);
  }

  // ---- every worker ends

  /** How often worker w moves. */
  function Times(schedule: seq<nat>, w: nat): nat {
    if schedule == [] then 0
    else Times(schedule[..|schedule| - 1], w) + Bit(schedule[|schedule| - 1] == w)
  }

  /** How many steps a worker is away from its end, at most. */
  function Left(p: Pc): nat {
    match p
    case Running => 5 case Claimed => 4 case Stored => 3 case Indexed => 2
    case Cancelling => 1 case Resuming => 1 case Finished => 0
  }

  lemma {:induction false} LeftStep(s: State, w: nat, v: nat)
    requires w < |s.pcs| && v < |s.pcs|
    ensures Left(Step(s, w).pcs[v]) <= if v == w && Left(s.pcs[v]) > 0 then Left(s.pcs[v]) - 1 else Left(s.pcs[v])
  {
  }

  lemma {:induction false} LeftRun(n: nat, schedule: seq<nat>, w: nat)
    requires w < n && forall k :: 0 <= k < |schedule| ==> schedule[k] < n
    ensures Left(Run(n, schedule).pcs[w]) <= if Times(schedule, w) < 5 then 5 - Times(schedule, w) else 0
  {
    if schedule != [] {
      LeftRun(n, schedule[..|schedule| - 1], w);
      LeftStep(Run(n, schedule[..|schedule| - 1]), schedule[|schedule| - 1], w);
    }
  }

  /** Nobody waits for anybody: a worker has ended after at most five steps of its own, whatever the
      others do, and when all have made them the waiter has been resumed, exactly once. */
  lemma {:induction false} RaceIsWaitFree(n: nat, schedule: seq<nat>)
    requires n >= 1 && forall k :: 0 <= k < |schedule| ==> schedule[k] < n
    ensures forall w :: 0 <= w < n && Times(schedule, w) >= 5 ==> Run(n, schedule).pcs[w] == Finished
    ensures (forall w :: 0 <= w < n ==> Times(schedule, w) >= 5) ==> Run(n, schedule).resumes == 1
  {
    var s := Run(n, schedule);
    forall w | 0 <= w < n && Times(schedule, w) >= 5 ensures s.pcs[w] == Finished {
      LeftRun(n, schedule, w);
    }
    if forall w :: 0 <= w < n ==> Times(schedule, w) >= 5 {
      RaceResumesExactlyOnce(n, schedule);
    }
  }
}
