/** Runs of the pipeline in which a push, or an accepted command, comes off badly. */
module PipelineRuns {
  import opened WriteBatch
  import opened Pipeline
  import opened PipelineInv
  import opened PipelineTheorems

  /** One action after the other, from the first on. */
  function Follow(s: State, actions: seq<Action>): (s': State)
    requires |s.ring.slots| > 0
    ensures |s'.ring.slots| == |s.ring.slots|
    decreases |actions|
  {
    if actions == [] then s else Follow(Step(s, actions[0]), actions[1..])
  }

  lemma {:induction false} FollowSnoc(s: State, actions: seq<Action>, a: Action)
    requires |s.ring.slots| > 0
    ensures Follow(s, actions + [a]) == Step(Follow(s, actions), a)
    decreases |actions|
  {
    if actions != [] {
      assert (actions + [a])[1..] == actions[1..] + [a];
      FollowSnoc(Step(s, actions[0]), actions[1..], a);
    }
  }

  lemma {:induction false} RunFollows(s: State, actions: seq<Action>)
    requires |s.ring.slots| > 0
    ensures Run(s, actions) == Follow(s, actions)
  {
    if actions != [] {
      var init := actions[..|actions| - 1];
      assert init + [actions[|actions| - 1]] == actions;
      RunFollows(s, init);
      FollowSnoc(s, init, actions[|actions| - 1]);
    }
  }

  lemma {:induction false} FollowParts(s: State, a: seq<Action>, b: seq<Action>)
    requires |s.ring.slots| > 0
    ensures Follow(s, a + b) == Follow(Follow(s, a), b)
    decreases |a|
  {
    if a == [] {
      assert a + b == b;
    } else {
      assert (a + b)[1..] == a[1..] + b;
      FollowParts(Step(s, a[0]), a[1..], b);
    }
  }

  function Follow5(
      s: State, a: seq<Action>, b: seq<Action>, c: seq<Action>, d: seq<Action>, e: seq<Action>): State
    requires |s.ring.slots| > 0
  {
    Follow(Follow(Follow(Follow(Follow(s, a), b), c), d), e)
  }

  lemma {:induction false} Parts5(
      s: State, a: seq<Action>, b: seq<Action>, c: seq<Action>, d: seq<Action>, e: seq<Action>)
    requires |s.ring.slots| > 0
    ensures Run(s, a + (b + (c + (d + e)))) == Follow5(s, a, b, c, d, e)
  {
    RunFollows(s, a + (b + (c + (d + e))));
    FollowParts(s, a, b + (c + (d + e)));
    FollowParts(Follow(s, a), b, c + (d + e));
    FollowParts(Follow(Follow(s, a), b), c, d + e);
    FollowParts(Follow(Follow(Follow(s, a), b), c), d, e);
  }

  /** Four steps. */
  function Quick(s: State, a: Action, b: Action, c: Action, d: Action): (s': State)
    requires |s.ring.slots| > 0
    ensures |s'.ring.slots| == |s.ring.slots|
  {
    Step(Step(Step(Step(s, a), b), c), d)
  }

  lemma {:induction false} Four(s: State, a: Action, b: Action, c: Action, d: Action)
    requires |s.ring.slots| > 0
    ensures Follow(s, [a, b, c, d]) == Quick(s, a, b, c, d)
  {
    var s1, s2, s3 := Step(s, a), Step(Step(s, a), b), Step(Step(Step(s, a), b), c);
    assert Follow(s, [a, b, c, d]) == Follow(s1, [b, c, d]);
    assert Follow(s1, [b, c, d]) == Follow(s2, [c, d]);
    assert Follow(s2, [c, d]) == Follow(s3, [d]);
  }

  const ONE: Entry := Entry(7, "x")
  const GO: Action := Produce(1, false)
  const WORK: Action := Work(false)
  const READ: Action := Read(0, false)

  // ---- a push refused by an empty ring

  // Producer 0 loads the tail; producer 1 pushes one entry, which is sent, answered and popped.
  function Loads(): seq<Action> { [StartPush(0, [ONE]), Produce(0, false), StartPush(1, [ONE]), GO] }
  function Stores(): seq<Action> { [GO, GO, GO, GO] }
  function Wakes(): seq<Action> { [GO, GO, EventWrite, Write] }
  function Serves(): seq<Action> { [Write, Send(1), Serve(5), READ] }
  function Pops(): seq<Action> { [READ, READ, READ, READ] }

  /** The first producer between its two loads, and the second one here. */
  predicate Beside(s: State, p: Producer) {
    && s.prods == [WantHead(0, false, 0, [ONE]), p] && |s.ring.slots| == 4 && !s.ring.stop
    && s.worker == Racing && s.hist.epoch == 0
  }

  lemma {:induction false} AfterLoad(s: State)
    requires s == Init(4, 2)
    ensures var t := Follow(s, Loads()); Beside(t, WantHead(0, false, 0, [ONE])) && t == s.(prods := t.prods)
  {
    Four(s, StartPush(0, [ONE]), Produce(0, false), StartPush(1, [ONE]), GO);
    var s1 := Step(s, StartPush(0, [ONE]));
    var s2 := Step(s1, Produce(0, false));
    var s3 := Step(s2, StartPush(1, [ONE]));
    assert s2.prods == [WantHead(0, false, 0, [ONE]), Out];
    assert Step(s3, GO).prods == [WantHead(0, false, 0, [ONE]), WantHead(0, false, 0, [ONE])];
  }

  lemma {:induction false} AfterStore(s: State)
    requires Beside(s, WantHead(0, false, 0, [ONE])) && s.hist.log == []
    requires s.ring.head == s.ring.committed == s.ring.tail == s.ring.alloc == 0
    ensures var t := Follow(s, Stores());
            && Beside(t, Committing(0, [ONE])) && t.ring.slots[0] == ONE && t.hist.log == [ONE]
            && t == s.(prods := t.prods, ring := s.ring.(alloc := 1, slots := t.ring.slots),
                       hist := s.hist.(log := t.hist.log, batches := t.hist.batches))
  {
    Four(s, GO, GO, GO, GO);
    var s1 := Step(s, GO);
    assert s1.prods[1] == WantSwap(0, 0, 0, [ONE]);
    var s2 := Step(s1, GO);
    assert s2.prods[1] == Writing(0, 0, [ONE]);
    var s3 := Step(s2, GO);
    assert s3.prods[1] == Spinning(0, [ONE]);
    assert Step(s3, GO).prods == [s.prods[0], Committing(0, [ONE])];
  }

  lemma {:induction false} AfterSignal(s: State)
    requires Beside(s, Committing(0, [ONE])) && s.sig == Signals(0, 0) && s.writer == Waiting
    ensures var t := Follow(s, Wakes());
            && Beside(t, Out)
            && t == s.(prods := t.prods, ring := s.ring.(tail := 1), writer := Preparing, sig := t.sig)
  {
    Four(s, GO, GO, EventWrite, Write);
    var s1 := Step(s, GO);
    assert s1.prods[1] == Signalling;
    var s2 := Step(s1, GO);
    assert s2.prods == [s.prods[0], Out];
  }

  lemma {:induction false} AfterAnswer(s: State)
    requires Beside(s, Out) && s.writer == Preparing && s.reader == Parsing && s.net == Net("", [], 0)
    requires s.ring.head == s.ring.committed == 0 && s.ring.tail == s.ring.alloc == 1
    requires s.ring.slots[0] == ONE && s.hist.log == [ONE]
    ensures var t := Follow(s, Serves());
            && Beside(t, Out) && t.reader == Delivering([5], true, false)
            && t.ring == s.ring.(committed := 1)
  {
    Four(s, Write, Send(1), Serve(5), READ);
    var s1 := Step(s, Write);
    assert SlotPayloads(s.ring, 0, 1) == ["x"];
    assert Join(["x"]) == "x";
    assert s1.writer == Sending(["x"]);
    var s2 := Step(s1, Send(1));
    assert s2.net.wire == "x";
    assert Bytes([ONE], 1) == "x";
    var s3 := Step(s2, Serve(5));
    assert s3.net.replies == [5];
  }

  lemma {:induction false} AfterPop(s: State)
    requires Beside(s, Out) && s.reader == Delivering([5], true, false) && s.ring.head == 0
    ensures var t := Follow(s, Pops()); Beside(t, Out) && t.ring == s.ring.(head := 1)
  {
    Four(s, READ, READ, READ, READ);
  }

  lemma {:induction false} Refuses(s: State)
    requires Beside(s, Out) && s.ring.head == 1
    ensures Step(s, Produce(0, false)).prods[0] == Out
  {
  }

  /** A push is refused as full by an empty ring: others have pushed and been answered since it
      loaded the tail. */
  lemma {:induction false} EmptyRingRefuses()
    ensures var s := Reach(4, 2, Loads() + (Stores() + (Wakes() + (Serves() + Pops()))));
            && s.prods[0] == WantHead(0, false, s.hist.epoch, [ONE]) && !s.ring.stop
            && s.ring.head == s.ring.tail == s.ring.alloc == 1
            && Step(s, Produce(0, false)).prods[0] == Out
  {
    var s0 := Init(4, 2);
    Parts5(s0, Loads(), Stores(), Wakes(), Serves(), Pops());
    AfterLoad(s0);
    var s1 := Follow(s0, Loads());
    AfterStore(s1);
    var s2 := Follow(s1, Stores());
    AfterSignal(s2);
    var s3 := Follow(s2, Wakes());
    AfterAnswer(s3);
    var s4 := Follow(s3, Serves());
    AfterPop(s4);
    Refuses(Follow(s4, Pops()));
  }

  // ---- a command accepted and never answered

  // Reader and writer fail, the worker drains and resets; while it reconnects producer 0 pushes an
  // entry, and then the client is closed.
  function Fails(): seq<Action> { [WriterFails, ReaderFails, WORK, WORK] }
  function Drains(): seq<Action> { [WORK, WORK, WORK, WORK] }
  function Reconnects(): seq<Action> { [WORK, WORK, WORK, StartPush(0, [ONE])] }
  function Accepts(): seq<Action> { [Produce(0, false), Produce(0, false), Produce(0, false), Close] }

  function Deletes(): seq<Action> { [WORK, WORK, WORK, WORK] }

  lemma {:induction false} AfterFail(s: State)
    requires s == Init(4, 1)
    ensures var t := Follow(s, Fails());
            && t.worker == SpinDrain(0, true) && t.ring == s.ring.(stop := true) && t.prods == [Out] && t.alive
            && t.hist == s.hist && t.reader == ReaderDown
  {
    Four(s, WriterFails, ReaderFails, WORK, WORK);
  }

  lemma {:induction false} AfterDrain(s: State)
    requires s.worker == SpinDrain(0, true) && |s.ring.slots| == 4 && s.hist.log == [] && s.hist.past == []
    requires s.ring.head == s.ring.tail == 0
    ensures var t := Follow(s, Drains());
            && t.worker == Reset2 && t.prods == s.prods && t.alive == s.alive && t.ring == s.ring
            && |t.hist.past| == 1 && t.hist.past[0].log == [] && t.hist.events == s.hist.events
  {
    Four(s, WORK, WORK, WORK, WORK);
  }

  lemma {:induction false} AfterReconnect(s: State)
    requires s.worker == Reset2 && s.prods == [Out] && |s.ring.slots| == 4 && s.ring.head == 0
    ensures var t := Follow(s, Reconnects());
            && t.worker == Connecting && t.prods == [WantTail([ONE])] && t.hist.log == []
            && t.hist.past == s.hist.past && t.hist.events == s.hist.events && |t.ring.slots| == 4
            && t.ring.head == t.ring.alloc == 0 && !t.ring.stop
  {
    Four(s, WORK, WORK, WORK, StartPush(0, [ONE]));
    var s1 := Step(s, WORK);
    assert s1.worker == Reset3 && s1.ring == s.ring.(committed := 0);
    var s2 := Step(s1, WORK);
    assert s2.worker == Reset4 && s2.ring == s1.ring.(tail := 0);
    var s3 := Step(s2, WORK);
    assert s3.worker == Connecting && s3.prods == [Out];
  }

  lemma {:induction false} AfterAccept(s: State)
    requires s.worker == Connecting && s.prods == [WantTail([ONE])] && |s.ring.slots| == 4 && s.hist.log == []
    requires s.ring.head == s.ring.alloc == 0 && !s.ring.stop
    ensures var t := Follow(s, Accepts());
            && t.worker == Connecting && !t.alive && t.hist.log == [ONE] && |t.ring.slots| == 4
            && t.hist.past == s.hist.past && t.hist.events == s.hist.events
  {
    var go := Produce(0, false);
    Four(s, go, go, go, Close);
    var s1 := Step(s, go);
    assert s1.prods == [WantHead(0, false, s.hist.epoch, [ONE])];
    var s2 := Step(s1, go);
    assert s2.prods == [WantSwap(0, 0, s.hist.epoch, [ONE])];
  }

  lemma {:induction false} AfterDelete(s: State)
    requires s.worker == Connecting && !s.alive && |s.ring.slots| == 4
    ensures Follow(s, Deletes()) == s.(worker := Dead(false))
  {
    Four(s, WORK, WORK, WORK, WORK);
  }

  lemma {:induction false} AfterReset(s: State)
    requires s.worker == Reset2 && s.prods == [Out] && |s.ring.slots| == 4 && s.ring.head == 0
    ensures var t := Follow(Follow(Follow(s, Reconnects()), Accepts()), Deletes());
            && t.worker == Dead(false) && t.hist.log == [ONE]
            && t.hist.past == s.hist.past && t.hist.events == s.hist.events
  {
    AfterReconnect(s);
    AfterAccept(Follow(s, Reconnects()));
    AfterDelete(Follow(Follow(s, Reconnects()), Accepts()));
  }

  lemma {:induction false} OneAccepted(hist: History)
    requires |hist.past| == 1 && hist.past[0].log == [] && hist.log == [ONE]
    ensures AcceptedEntries(Dead(false), hist) == [ONE]
  {
    assert PastLog(hist.past, 1) == PastLog(hist.past, 0) + hist.past[0].log == [];
  }

  /** An accepted command is never answered: it was pushed while the client reconnected, and then
      the client was closed. */
  lemma {:induction false} AcceptedNeverAnswered()
    ensures var s := Reach(4, 1, Fails() + (Drains() + (Reconnects() + (Accepts() + Deletes()))));
            && s.worker == Dead(false) && s.hist.events == []
            && AcceptedEntries(s.worker, s.hist) == [ONE]
  {
    var s0 := Init(4, 1);
    Parts5(s0, Fails(), Drains(), Reconnects(), Accepts(), Deletes());
    AfterFail(s0);
    AfterDrain(Follow(s0, Fails()));
    AfterReset(Follow(Follow(s0, Fails()), Drains()));
    OneAccepted(Follow5(s0, Fails(), Drains(), Reconnects(), Accepts(), Deletes()).hist);
  }
}
