/** What closing the client does: the pipe is drained and deleted, and an open one reconnects. */
module PipelineClose {
  import opened WriteBatch
  import opened Pipeline
  import opened PipelineInv
  import opened PipelineSteps
  import opened PipelineTheorems
  import opened PipelineDrains
  import opened PipelineRuns

  // ---- the schedule says whether the client is open

  lemma {:induction false} AliveStep(s: State, a: Action)
    requires |s.ring.slots| > 0
    ensures s.worker.Dead? ==> Step(s, a) == s
    ensures !s.worker.Dead? ==> (Step(s, a).alive <==> s.alive && !a.Close?)
  {
  }

  lemma {:induction false} AliveIff(cap: nat, m: nat, actions: seq<Action>)
    requires cap > 0 && !Reach(cap, m, actions).worker.Dead?
    ensures Reach(cap, m, actions).alive <==> Close !in actions
  {
    if actions != [] {
      var init, a := actions[..|actions| - 1], actions[|actions| - 1];
      assert actions == init + [a];
      AliveStep(Reach(cap, m, init), a);
      AliveIff(cap, m, init);
    }
  }

  lemma {:induction false} RunParts(s: State, a: seq<Action>, b: seq<Action>)
    requires |s.ring.slots| > 0
    ensures Run(s, a + b) == Run(Run(s, a), b)
  {
    RunFollows(s, a + b);
    RunFollows(s, a);
    FollowParts(s, a, b);
    RunFollows(Follow(s, a), b);
  }

  // ---- a closed client

  /** The race has ended and the client was closed before: the worker drains and stops. */
  predicate Closing(w: Worker) {
    match w
    case Draining(alive) => !alive
    case SpinDrain(_, alive) => !alive
    case Drain(_, _, alive) => !alive
    case Dead(drained) => drained
    case _ => false
  }

  lemma {:induction false} ClosingStep(s: State, a: Action)
    requires |s.ring.slots| > 0 && Closing(s.worker)
    ensures Closing(Step(s, a).worker)
  {
  }

  lemma {:induction false} ClosingRun(s: State, actions: seq<Action>)
    requires |s.ring.slots| > 0 && Closing(s.worker)
    ensures Closing(Run(s, actions).worker)
  {
    if actions != [] {
      ClosingRun(s, actions[..|actions| - 1]);
      ClosingStep(Run(s, actions[..|actions| - 1]), actions[|actions| - 1]);
    }
  }

  lemma {:induction false} DeadStays(s: State, actions: seq<Action>)
    requires |s.ring.slots| > 0 && s.worker.Dead?
    ensures Run(s, actions) == s
  {
    if actions != [] {
      DeadStays(s, actions[..|actions| - 1]);
    }
  }

  lemma {:induction false} RaceEnds(s: State, connected: bool)
    requires |s.ring.slots| > 0 && s.worker == Racing && s.writer.WriterDown? && s.reader == ReaderDown
    ensures Step(s, Work(connected)) == s.(worker := Draining(s.alive))
  {
  }

  /** The drain is over: the worker has resumed every live entry and goes on, or has stopped. */
  predicate DrainOver(w: Worker) { !w.Draining? && !w.SpinDrain? && !w.Drain? }

  /** The client was closed before the race ended. Whatever happens then, the worker drains the ring
      and never resets it or reconnects; when its drain is over it has stopped, with STOP set and
      everybody answered, and nothing happens to the pipe afterwards. */
  lemma {:induction false} ClosedClientStops(
      cap: nat, m: nat, before: seq<Action>, connected: bool, after: seq<Action>, more: seq<Action>)
    requires cap > 0 && Close in before
    requires var s := Reach(cap, m, before);
             s.worker == Racing && s.writer.WriterDown? && s.reader == ReaderDown
    ensures var t := Reach(cap, m, before + [Work(connected)] + after);
            && (t.worker.Draining? || t.worker.SpinDrain? || t.worker.Drain? || t.worker == Dead(true))
            && (DrainOver(t.worker) ==>
                  && t.worker == Dead(true) && t.ring.stop
                  && EventHandles(t.hist.events) == Handles(AcceptedEntries(t.worker, t.hist))
                  && Reach(cap, m, before + [Work(connected)] + after + more) == t)
  {
    var s0, start := Init(cap, m), before + [Work(connected)];
    RaceIsOver(cap, m, before, connected, after);
    var t := Reach(cap, m, start + after);
    ReachInv(cap, m, start + after);
    AnsweredInOrder(cap, m, start + after);
    if DrainOver(t.worker) {
      RunParts(s0, start + after, more);
      DeadStays(t, more);
    }
  }

  lemma {:induction false} CanStop(s: State) returns (acts: seq<Action>)
    requires Inv(s) && Closing(s.worker)
    ensures Run(s, acts).worker == Dead(true)
  {
    acts := CanFinish(s);
    RunFollows(s, acts);
    ClosingRun(s, acts);
  }

  /** And it does get there. */
  lemma {:induction false} ClosedClientCanStop(
      cap: nat, m: nat, before: seq<Action>, connected: bool, after: seq<Action>)
    returns (more: seq<Action>)
    requires cap > 0 && Close in before
    requires var s := Reach(cap, m, before);
             s.worker == Racing && s.writer.WriterDown? && s.reader == ReaderDown
    ensures Reach(cap, m, before + [Work(connected)] + after + more).worker == Dead(true)
  {
    var all := before + [Work(connected)] + after;
    ClosedClientStops(cap, m, before, connected, after, []);
    RaceIsOver(cap, m, before, connected, after);
    ReachInv(cap, m, all);
    more := CanStop(Reach(cap, m, all));
    RunParts(Init(cap, m), all, more);
  }

  lemma {:induction false} RaceIsOver(cap: nat, m: nat, before: seq<Action>, connected: bool, after: seq<Action>)
    requires cap > 0 && Close in before
    requires var s := Reach(cap, m, before);
             s.worker == Racing && s.writer.WriterDown? && s.reader == ReaderDown
    ensures Closing(Reach(cap, m, before + [Work(connected)] + after).worker)
  {
    var s0, start := Init(cap, m), before + [Work(connected)];
    AliveIff(cap, m, before);
    RaceEnds(Reach(cap, m, before), connected);
    RunParts(s0, before, [Work(connected)]);
    RunParts(s0, start, after);
    assert [Work(connected)][..0] == [];
    ClosingRun(Run(s0, start), after);
  }

  // ---- an open client

  /** The race has ended and the client was open: the worker drains, resets and reconnects. */
  predicate Reopening(w: Worker) {
    match w
    case Draining(alive) => alive
    case SpinDrain(_, alive) => alive
    case Drain(_, _, alive) => alive
    case Drained => true
    case Reset1 => true
    case Reset2 => true
    case Reset3 => true
    case Reset4 => true
    case _ => false
  }

  lemma {:induction false} ReopeningStep(s: State, a: Action)
    requires |s.ring.slots| > 0 && Reopening(s.worker)
    ensures var t := Step(s, a);
            if t.hist.epoch == s.hist.epoch then Reopening(t.worker)
            else t.hist.epoch == s.hist.epoch + 1 && t.worker == Connecting && !t.ring.stop && t.ring.alloc == 0
  {
    if a.Produce? && a.a < |s.prods| {
      EpochStays(s, a.a, a.spurious);
    }
  }

  lemma {:induction false} EpochStays(s: State, a: nat, spurious: bool)
    requires |s.ring.slots| > 0 && a < |s.prods|
    ensures ProduceStep(s, a, spurious).hist.epoch == s.hist.epoch
    ensures ProduceStep(s, a, spurious).worker == s.worker
  {
  }

  lemma {:induction false} EpochGrows(s: State, a: Action)
    requires |s.ring.slots| > 0
    ensures s.hist.epoch <= Step(s, a).hist.epoch <= s.hist.epoch + 1
  {
    if a.Produce? && a.a < |s.prods| {
      EpochStays(s, a.a, a.spurious);
    }
  }

  lemma {:induction false} ReopeningRun(s: State, actions: seq<Action>)
    requires |s.ring.slots| > 0 && Reopening(s.worker)
    ensures s.hist.epoch <= Run(s, actions).hist.epoch
    ensures Run(s, actions).hist.epoch == s.hist.epoch ==> Reopening(Run(s, actions).worker)
  {
    if actions != [] {
      var t := Run(s, actions[..|actions| - 1]);
      ReopeningRun(s, actions[..|actions| - 1]);
      EpochGrows(t, actions[|actions| - 1]);
      if t.hist.epoch == s.hist.epoch {
        ReopeningStep(t, actions[|actions| - 1]);
      }
    }
  }

  /** The client was open when the race ended. Whatever happens then, a close included, the worker is
      not dead in this epoch; the step that ends the epoch gives an empty open ring and connects. */
  lemma {:induction false} OpenClientReconnects(
      cap: nat, m: nat, before: seq<Action>, connected: bool, after: seq<Action>, a: Action)
    requires cap > 0 && Close !in before
    requires var s := Reach(cap, m, before);
             s.worker == Racing && s.writer.WriterDown? && s.reader == ReaderDown
    requires Reach(cap, m, before + [Work(connected)] + after).hist.epoch == Reach(cap, m, before).hist.epoch
    ensures var t := Reach(cap, m, before + [Work(connected)] + after);
            && Reopening(t.worker)
            && var t' := Step(t, a);
               t'.hist.epoch == t.hist.epoch
               || (t'.hist.epoch == t.hist.epoch + 1 && t'.worker == Connecting && !t'.ring.stop && t'.ring.alloc == 0)
  {
    var s0, start := Init(cap, m), before + [Work(connected)];
    AliveIff(cap, m, before);
    RaceEnds(Reach(cap, m, before), connected);
    RunParts(s0, before, [Work(connected)]);
    RunParts(s0, start, after);
    assert [Work(connected)][..0] == [];
    ReopeningRun(Run(s0, start), after);
    ReopeningStep(Reach(cap, m, start + after), a);
  }

  lemma {:induction false} ResetStep(s: State)
    requires |s.ring.slots| > 0 && s.worker in {Drained, Reset1, Reset2, Reset3, Reset4}
    ensures var w := Step(s, WORK).worker;
            match s.worker
            case Drained => w == Reset1
            case Reset1 => w == Reset2
            case Reset2 => w == Reset3
            case Reset3 => w == Reset4
            case _ => w == Connecting
  {
  }

  function StepsToConnect(w: Worker): nat {
    match w case Drained => 5 case Reset1 => 4 case Reset2 => 3 case Reset3 => 2 case _ => 1
  }

  lemma {:induction false} ResetsAndConnects(s: State) returns (acts: seq<Action>)
    requires |s.ring.slots| > 0 && s.worker in {Drained, Reset1, Reset2, Reset3, Reset4}
    ensures Follow(s, acts).worker == Connecting
    decreases StepsToConnect(s.worker)
  {
    ResetStep(s);
    acts := [];
    if s.worker != Reset4 {
      acts := ResetsAndConnects(Step(s, WORK));
    }
    FollowOne(s, WORK, acts);
    acts := [WORK] + acts;
  }

  /** And it does get there. */
  lemma {:induction false} OpenClientCanConnect(
      cap: nat, m: nat, before: seq<Action>, connected: bool, after: seq<Action>) returns (more: seq<Action>)
    requires cap > 0 && Close !in before
    requires var s := Reach(cap, m, before);
             s.worker == Racing && s.writer.WriterDown? && s.reader == ReaderDown
    requires Reach(cap, m, before + [Work(connected)] + after).hist.epoch == Reach(cap, m, before).hist.epoch
    ensures Reach(cap, m, before + [Work(connected)] + after + more).worker == Connecting
  {
    var s0, all := Init(cap, m), before + [Work(connected)] + after;
    OpenClientReconnects(cap, m, before, connected, after, WORK);
    ReachInv(cap, m, all);
    var t := Reach(cap, m, all);
    var first := CanFinishOpen(t);
    var t1 := Follow(t, first);
    var rest := ResetsAndConnects(t1);
    more := first + rest;
    FollowParts(t, first, rest);
    RunFollows(t, more);
    RunParts(s0, all, more);
  }

  /** To the end of the drain, or already there. */
  lemma {:induction false} CanFinishOpen(s: State) returns (acts: seq<Action>)
    requires Inv(s) && Reopening(s.worker)
    ensures var t := Follow(s, acts);
            |t.ring.slots| > 0 && t.worker in {Drained, Reset1, Reset2, Reset3, Reset4}
  {
    match s.worker
    case Draining(_) => acts := FromDraining(s);
    case SpinDrain(_, _) => acts := FromSpin(s);
    case Drain(_, _, _) => acts := FromDrain(s);
    case _ => acts := [];
  }
}
