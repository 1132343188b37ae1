/** Draining can always be carried through: nobody who was accepted has to be left waiting. */
module PipelineDrains {
  import opened WriteBatch
  import opened Pipeline
  import opened PipelineInv
  import opened PipelineSteps
  import opened PipelineTheorems
  import opened PipelineRuns

  ghost predicate SameAccepted(s: State, t: State) {
    AcceptedEntries(t.worker, t.hist) == AcceptedEntries(s.worker, s.hist)
  }

  /** t is a later state in which nobody else has been accepted. */
  ghost predicate After(s: State, t: State) {
    Inv(t) && SameAccepted(s, t)
  }

  lemma {:induction false} FollowOne(s: State, a: Action, rest: seq<Action>)
    requires |s.ring.slots| > 0
    ensures Follow(s, [a] + rest) == Follow(Step(s, a), rest)
  {
    assert ([a] + rest)[1..] == rest;
  }

  // ---- the producers that others wait for

  /** Writer, reader and connection are as they were. */
  predicate SameIo(s: State, t: State) { t.writer == s.writer && t.reader == s.reader && t.net == s.net }

  /** How many steps a producer is away from its commit. */
  function StepsLeft(p: Producer): nat {
    match p
    case Writing(_, i, batch) => if i < |batch| then |batch| - i + 2 else 2
    case Spinning(_, _) => 2
    case _ => 1
  }

  /** What the step of an allocated producer does when it is its turn. */
  lemma {:induction false} ProducerEffect(s: State, a: nat)
    requires |s.ring.slots| > 0 && !s.worker.Dead? && a < |s.prods| && Allocated(s.prods[a])
    requires s.prods[a].t == s.ring.tail && (s.prods[a].Writing? ==> s.prods[a].i < |s.prods[a].batch|)
    ensures var t, p := Step(s, Produce(a, false)), s.prods[a];
            && t.worker == s.worker && t.hist == s.hist && t.ring.alloc == s.ring.alloc && SameIo(s, t)
            && if p.Committing? then t.ring.tail == End(p)
               else
                 && t.ring.tail == s.ring.tail && Allocated(t.prods[a]) && t.prods[a].t == p.t
                 && t.prods[a].batch == p.batch && StepsLeft(t.prods[a]) < StepsLeft(p)
  {
  }

  lemma {:induction false} WritesInBatch(s: State, a: nat)
    requires Inv(s) && a < |s.prods| && s.prods[a].Writing?
    ensures s.prods[a].i < |s.prods[a].batch|
  {
    assert ProdOk(s.ring, s.hist.log, s.hist.epoch, s.prods[a]);
  }

  /** It goes on until it has committed. */
  lemma {:induction false} ProducerCommits(s: State, a: nat) returns (acts: seq<Action>)
    requires Inv(s) && !Quiet(s.worker) && !s.worker.Dead? && a < |s.prods|
    requires Allocated(s.prods[a]) && s.prods[a].t == s.ring.tail
    ensures var t := Follow(s, acts);
            && Inv(t) && t.worker == s.worker && t.hist == s.hist && SameIo(s, t)
            && t.ring.alloc == s.ring.alloc && t.ring.tail == End(s.prods[a])
    decreases StepsLeft(s.prods[a])
  {
    var go := Produce(a, false);
    if s.prods[a].Writing? {
      WritesInBatch(s, a);
    }
    ProducerEffect(s, a);
    StepInv(s, go);
    acts := [];
    if !s.prods[a].Committing? {
      acts := ProducerCommits(Step(s, go), a);
    }
    FollowOne(s, go, acts);
    acts := [go] + acts;
  }

  /** One after the other, until there is nothing left to wait for. */
  lemma {:induction false} AllCommit(s: State) returns (acts: seq<Action>)
    requires Inv(s) && !Quiet(s.worker) && !s.worker.Dead?
    ensures var t := Follow(s, acts);
            && Inv(t) && t.worker == s.worker && t.hist == s.hist && SameIo(s, t)
            && t.ring.tail == t.ring.alloc == s.ring.alloc
    decreases s.ring.alloc - s.ring.tail
  {
    acts := [];
    if s.ring.tail != s.ring.alloc {
      var a := TailProducer(s);
      var first := ProducerCommits(s, a);
      acts := AllCommit(Follow(s, first));
      FollowParts(s, first, acts);
      acts := first + acts;
    }
  }

  // ---- the worker

  lemma {:induction false} ClosedLog(past: seq<Epoch>, e: Epoch)
    ensures PastLog(past + [e], |past| + 1) == PastLog(past, |past|) + e.log
  {
    PastLogPrefix(past, e, |past|);
  }

  lemma {:induction false} PastLogPrefix(past: seq<Epoch>, e: Epoch, n: nat)
    requires n <= |past|
    ensures PastLog(past + [e], n) == PastLog(past, n)
  {
    if n > 0 {
      PastLogPrefix(past, e, n - 1);
    }
  }

  /** Where a drain leads: a closed client stops, an open one resets the ring. */
  function Ending(alive: bool): Worker { if alive then Drained else Dead(true) }

  /** What one step of the worker does on its way through a drain. */
  lemma {:induction false} DrainStep(s: State)
    requires |s.ring.slots| > 0 && s.worker.Drain?
    ensures var t := Step(s, WORK);
            && SameAccepted(s, t)
            && if s.worker.i != s.worker.last then t.worker == Drain(s.worker.i + 1, s.worker.last, s.worker.alive)
               else t.worker == Ending(s.worker.alive)
  {
    if s.worker.i == s.worker.last {
      ClosedLog(s.hist.past, Epoch(s.hist.log, s.net.replies, s.ring.head));
    }
  }

  lemma {:induction false} EarlyStep(s: State)
    requires |s.ring.slots| > 0
    requires || (s.worker == Racing && s.writer.WriterDown? && s.reader == ReaderDown) || s.worker.Draining?
             || (s.worker.SpinDrain? && s.ring.tail == s.worker.last)
    ensures var t := Step(s, WORK);
            && SameAccepted(s, t)
            && (s.worker == Racing ==> t.worker == Draining(s.alive))
            && (s.worker.Draining? ==> t.worker.SpinDrain? && t.worker.alive == s.worker.alive)
            && (s.worker.SpinDrain? ==> t.worker.Drain? && t.worker.alive == s.worker.alive)
  {
  }

  lemma {:induction false} FromDrain(s: State) returns (acts: seq<Action>)
    requires Inv(s) && s.worker.Drain?
    ensures var t := Follow(s, acts); After(s, t) && t.worker == Ending(s.worker.alive)
    decreases s.worker.last - s.worker.i
  {
    DrainStep(s);
    StepInv(s, WORK);
    acts := [];
    if s.worker.i != s.worker.last {
      acts := FromDrain(Step(s, WORK));
    }
    FollowOne(s, WORK, acts);
    acts := [WORK] + acts;
  }

  lemma {:induction false} FromSpin(s: State) returns (acts: seq<Action>)
    requires Inv(s) && s.worker.SpinDrain?
    ensures var t := Follow(s, acts); After(s, t) && t.worker == Ending(s.worker.alive)
  {
    var first := AllCommit(s);
    var s1 := Follow(s, first);
    EarlyStep(s1);
    StepInv(s1, WORK);
    acts := FromDrain(Step(s1, WORK));
    FollowOne(s1, WORK, acts);
    FollowParts(s, first, [WORK] + acts);
    acts := first + ([WORK] + acts);
  }

  lemma {:induction false} FromDraining(s: State) returns (acts: seq<Action>)
    requires Inv(s) && s.worker.Draining?
    ensures var t := Follow(s, acts); After(s, t) && t.worker == Ending(s.worker.alive)
  {
    EarlyStep(s);
    StepInv(s, WORK);
    acts := FromSpin(Step(s, WORK));
    FollowOne(s, WORK, acts);
    acts := [WORK] + acts;
  }

  lemma {:induction false} FromRacing(s: State) returns (acts: seq<Action>)
    requires Inv(s) && s.worker == Racing && s.writer.WriterDown? && s.reader == ReaderDown
    ensures var t := Follow(s, acts); After(s, t) && Quiet(t.worker)
  {
    EarlyStep(s);
    StepInv(s, WORK);
    acts := FromDraining(Step(s, WORK));
    FollowOne(s, WORK, acts);
    acts := [WORK] + acts;
  }

  /** The connection is set up once more, and lost. */
  function Lost(s: State): (t: State)
    requires |s.ring.slots| > 0
    ensures |t.ring.slots| == |s.ring.slots|
  {
    Step(Step(Step(s, Work(true)), WriterFails), ReaderFails)
  }

  lemma {:induction false} LostEffect(s: State)
    requires |s.ring.slots| > 0 && s.worker == Connecting && s.alive
    ensures var t := Lost(s);
            SameAccepted(s, t) && t.worker == Racing && t.writer.WriterDown? && t.reader == ReaderDown
  {
  }

  lemma {:induction false} LostInv(s: State)
    requires Inv(s)
    ensures Inv(Lost(s))
  {
    StepInv(s, Work(true));
    StepInv(Step(s, Work(true)), WriterFails);
    StepInv(Step(Step(s, Work(true)), WriterFails), ReaderFails);
  }

  lemma {:induction false} LostFollows(s: State, rest: seq<Action>)
    requires |s.ring.slots| > 0
    ensures Follow(s, [Work(true)] + ([WriterFails] + ([ReaderFails] + rest))) == Follow(Lost(s), rest)
  {
    FollowOne(s, Work(true), [WriterFails] + ([ReaderFails] + rest));
    FollowOne(Step(s, Work(true)), WriterFails, [ReaderFails] + rest);
    FollowOne(Step(Step(s, Work(true)), WriterFails), ReaderFails, rest);
  }

  lemma {:induction false} FromConnecting(s: State) returns (acts: seq<Action>)
    requires Inv(s) && s.worker == Connecting && s.alive
    ensures var t := Follow(s, acts); After(s, t) && Quiet(t.worker)
  {
    LostEffect(s);
    LostInv(s);
    acts := FromRacing(Lost(s));
    LostFollows(s, acts);
    acts := [Work(true)] + ([WriterFails] + ([ReaderFails] + acts));
  }

  lemma {:induction false} CanFinish(s: State) returns (acts: seq<Action>)
    requires Inv(s) && s.writer.WriterDown? && s.reader == ReaderDown
    requires s.worker != Dead(false) && (s.worker == Connecting ==> s.alive)
    ensures var t := Follow(s, acts); After(s, t) && Quiet(t.worker)
  {
    match s.worker
    case Racing => acts := FromRacing(s);
    case Draining(_) => acts := FromDraining(s);
    case SpinDrain(_, _) => acts := FromSpin(s);
    case Drain(_, _, _) => acts := FromDrain(s);
    case Connecting => acts := FromConnecting(s);
    case _ => acts := [];
  }

  /** From every reachable state in which reader and writer are down the run can go on, without a new
      push, so that everybody accepted has been answered in order; unless the pipe has been deleted
      undrained, or is about to be because it was closed while it reconnects. */
  lemma {:induction false} EveryoneCanBeAnswered(cap: nat, m: nat, actions: seq<Action>) returns (more: seq<Action>)
    requires cap > 0
    requires var s := Reach(cap, m, actions);
             && s.writer.WriterDown? && s.reader == ReaderDown
             && s.worker != Dead(false) && (s.worker == Connecting ==> s.alive)
    ensures var s, t := Reach(cap, m, actions), Reach(cap, m, actions + more);
            && AcceptedEntries(t.worker, t.hist) == AcceptedEntries(s.worker, s.hist)
            && EventHandles(t.hist.events) == Handles(AcceptedEntries(s.worker, s.hist))
  {
    var s0 := Init(cap, m);
    ReachInv(cap, m, actions);
    more := CanFinish(Reach(cap, m, actions));
    RunFollows(s0, actions);
    RunFollows(s0, actions + more);
    FollowParts(s0, actions, more);
    AnsweredInOrder(cap, m, actions + more);
  }

  /** The exception is real: closed while it reconnects, the pipe is deleted whatever happens next. */
  lemma {:induction false} ClosedIsDeleted(s: State, connected: bool)
    requires |s.ring.slots| > 0 && s.worker == Connecting && !s.alive
    ensures Step(s, Work(connected)) == s.(worker := Dead(false))
    ensures forall a: Action :: !a.Work? ==> Step(s, a).worker == Connecting && !Step(s, a).alive
  {
  }
}
