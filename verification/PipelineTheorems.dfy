/** What the request pipeline guarantees in every interleaving. */
module PipelineTheorems {
  import opened WriteBatch
  import opened Pipeline
  import opened PipelineInv
  import opened PipelineSteps

  function Reach(cap: nat, m: nat, actions: seq<Action>): State
    requires cap > 0
  {
    Run(Init(cap, m), actions)
  }

  lemma {:induction false} ReachInv(cap: nat, m: nat, actions: seq<Action>)
    requires cap > 0
    ensures Inv(Reach(cap, m, actions)) && |Reach(cap, m, actions).ring.slots| == cap
  {
    InitInv(cap, m);
    RunInv(Init(cap, m), actions);
  }

  lemma {:induction false} ReachEvents(cap: nat, m: nat, actions: seq<Action>)
    requires cap > 0
    ensures var s := Reach(cap, m, actions); EventsOk(s.worker, s.reader, s.ring.head, s.net.replies, s.hist)
  {
    ReachInv(cap, m, actions);
  }

  // ---- the ring

  /** While an epoch lives, its counters are ordered, the ring never holds more than its capacity,
      and the slots from `head` to `tail` hold the accepted entries in allocation order. */
  lemma {:induction false} RingHoldsAccepted(cap: nat, m: nat, actions: seq<Action>)
    requires cap > 0 && !Quiet(Reach(cap, m, actions).worker)
    ensures var s := Reach(cap, m, actions);
            var r := s.ring;
            && r.head <= r.committed <= r.tail <= r.alloc <= r.head + cap
            && |s.hist.log| == r.alloc && s.hist.log == Entries(s.hist.batches, |s.hist.batches|)
            && forall q :: r.head <= q < r.tail ==> r.slots[Slot(q, |r.slots|)] == s.hist.log[q]
  {
    ReachInv(cap, m, actions);
    var s := Reach(cap, m, actions);
    forall q | s.ring.head <= q < s.ring.tail ensures s.ring.slots[Slot(q, |s.ring.slots|)] == s.hist.log[q] {
      assert Cell(s.ring, s.hist.log, q);
    }
  }

  /** The premise that a batch fits is needed for `push_n` only: a single push that passed the
      unsigned test fits whenever its compare-and-swap can succeed. */
  lemma {:induction false} SinglePushFits(cap: nat, m: nat, actions: seq<Action>, a: nat)
    requires 0 < cap <= STOP_BIT && a < m
    requires var s := Reach(cap, m, actions);
             && s.prods[a].WantSwap? && |s.prods[a].batch| == 1 && s.prods[a].t + 1 < STOP_BIT
             && !s.ring.stop && s.ring.alloc == s.prods[a].t && s.hist.epoch == s.prods[a].epoch
    ensures var s := Reach(cap, m, actions);
            SwapSucceeds(s, s.prods[a].t, s.prods[a].epoch, s.prods[a].batch)
  {
    ReachInv(cap, m, actions);
    var s := Reach(cap, m, actions);
    assert ProdOk(s.ring, s.hist.log, s.hist.epoch, s.prods[a]);
    SeemsFullIff(s.prods[a].t, s.prods[a].h, cap);
  }

  /** When a push whose tail was loaded in this epoch is refused: it saw STOP, or the head has passed
      that tail, however empty the ring is, or the ring is full, and while the ring is being reset
      the tail may be a ring or more ahead of the new head. */
  lemma {:induction false} RefusedIff(cap: nat, m: nat, actions: seq<Action>, a: nat, spurious: bool)
    requires 0 < cap <= STOP_BIT && a < m
    requires var s := Reach(cap, m, actions);
             !s.worker.Dead? && s.prods[a].WantHead? && s.prods[a].epoch == s.hist.epoch
    ensures var s := Reach(cap, m, actions);
            var t, r := s.prods[a].t, s.ring;
            Step(s, Produce(a, spurious)).prods[a] == Out
            <==> s.prods[a].stop || t < r.head
                 || (if Quiet(s.worker) then r.head + cap <= t else t == r.alloc == r.head + cap)
  {
    ReachInv(cap, m, actions);
    var s := Reach(cap, m, actions);
    assert ProdOk(s.ring, s.hist.log, s.hist.epoch, s.prods[a]);
    SeemsFullIff(s.prods[a].t, s.ring.head, cap);
  }

  lemma {:induction false} LoadSeesStop(s: State, a: nat, x: bool)
    requires |s.ring.slots| > 0 && a < |s.prods| && !s.worker.Dead? && s.prods[a].WantTail? && s.ring.stop
    ensures var p := WantHead(s.ring.alloc, true, s.hist.epoch, s.prods[a].batch);
            Step(s, Produce(a, x)) == s.(prods := s.prods[a := p])
  {
  }

  lemma {:induction false} StopIsRefused(s: State, a: nat, x: bool)
    requires |s.ring.slots| > 0 && a < |s.prods| && !s.worker.Dead? && s.prods[a].WantHead? && s.prods[a].stop
    ensures Step(s, Produce(a, x)) == s.(prods := s.prods[a := Out])
  {
  }

  lemma {:induction false} RunLast(s: State, actions: seq<Action>, a: Action)
    requires |s.ring.slots| > 0
    ensures Run(s, actions + [a]) == Step(Run(s, actions), a)
  {
  }

  lemma {:induction false} RunThree(s: State, actions: seq<Action>, p: Action, q: Action, r: Action)
    requires |s.ring.slots| > 0
    ensures Run(s, actions + [p, q, r]) == Step(Step(Step(Run(s, actions), p), q), r)
  {
    RunLast(s, actions, p);
    RunLast(s, actions + [p], q);
    RunLast(s, actions + [p] + [q], r);
    assert actions + [p] + [q] + [r] == actions + [p, q, r];
  }

  lemma {:induction false} PushStarts(s: State, a: nat, batch: seq<Entry>)
    requires |s.ring.slots| > 0 && a < |s.prods| && !s.worker.Dead? && s.prods[a] == Out && BatchOk(batch)
    ensures Step(s, StartPush(a, batch)) == s.(prods := s.prods[a := WantTail(batch)])
  {
  }

  /** A push that begins while STOP stands is refused after two steps of its own, which change
      nothing. */
  lemma {:induction false} PushDuringStopIsRefused(
      cap: nat, m: nat, actions: seq<Action>, a: nat, batch: seq<Entry>, x: bool, y: bool)
    requires cap > 0 && a < m && BatchOk(batch)
    requires var s := Reach(cap, m, actions); !s.worker.Dead? && s.prods[a] == Out && s.ring.stop
    ensures Reach(cap, m, actions + [StartPush(a, batch), Produce(a, x), Produce(a, y)]) == Reach(cap, m, actions)
  {
    var s := Reach(cap, m, actions);
    var t := Step(s, StartPush(a, batch));
    RunThree(Init(cap, m), actions, StartPush(a, batch), Produce(a, x), Produce(a, y));
    PushStarts(s, a, batch);
    LoadSeesStop(t, a, x);
    StopIsRefused(Step(t, Produce(a, x)), a, y);
    assert Step(t, Produce(a, x)).prods[a := Out] == s.prods;
  }

  lemma {:induction false} AnotherProducer(s: State, a: nat, b: nat, spurious: bool)
    requires |s.ring.slots| > 0 && a < |s.prods| && b < |s.prods| && a != b
    ensures ProduceStep(s, b, spurious).prods[a] == s.prods[a]
  {
  }

  lemma {:induction false} NoProducer(s: State, a: Action)
    requires |s.ring.slots| > 0 && !a.Produce? && !a.StartPush?
    ensures Step(s, a).prods == s.prods
  {
  }

  lemma {:induction false} OthersKeepPush(s: State, a: nat, next: Action)
    requires |s.ring.slots| > 0 && a < |s.prods| && s.prods[a] != Out && !(next.Produce? && next.a == a)
    ensures Step(s, next).prods[a] == s.prods[a]
  {
    if next.Produce? {
      if next.a < |s.prods| {
        AnotherProducer(s, a, next.a, next.spurious);
      }
    } else if !next.StartPush? {
      NoProducer(s, next);
    }
  }

  predicate ComesBack(p: Producer, head: nat, cap: nat)
    requires cap > 0
  {
    p.Signalling? || (p.WantHead? && (p.stop || SeemsFull(p.t, head, cap)))
  }

  lemma {:induction false} OwnPushEnds(s: State, a: nat, spurious: bool)
    requires |s.ring.slots| > 0 && a < |s.prods| && s.prods[a] != Out
    ensures ProduceStep(s, a, spurious).prods[a] == Out <==> ComesBack(s.prods[a], s.ring.head, |s.ring.slots|)
  {
  }

  /** A push comes back only refused by the test of the head, or accepted and signalled: a lost swap
      starts it again. */
  lemma {:induction false} PushEndsIff(cap: nat, m: nat, actions: seq<Action>, a: nat, next: Action)
    requires cap > 0 && a < m && Reach(cap, m, actions).prods[a] != Out
    ensures var s := Reach(cap, m, actions);
            Step(s, next).prods[a] == Out
            <==> !s.worker.Dead? && next.Produce? && next.a == a && ComesBack(s.prods[a], s.ring.head, cap)
  {
    var s := Reach(cap, m, actions);
    if next.Produce? && next.a == a {
      OwnPushEnds(s, a, next.spurious);
    } else {
      OthersKeepPush(s, a, next);
    }
  }

  // ---- every accepted command is answered exactly once

  function Handles(log: seq<Entry>): (hs: seq<int>)
    ensures |hs| == |log|
  {
    seq(|log|, k requires 0 <= k < |log| => log[k].handle)
  }

  function EventHandles(events: seq<Event>): (hs: seq<int>)
    ensures |hs| == |events|
  {
    seq(|events|, k requires 0 <= k < |events| => events[k].handle)
  }

  /** All entries accepted in the first n epochs that ended. */
  function PastLog(past: seq<Epoch>, n: nat): seq<Entry>
    requires n <= |past|
  {
    if n == 0 then [] else PastLog(past, n - 1) + past[n - 1].log
  }

  /** All entries accepted so far, in the order of acceptance. */
  function AcceptedEntries(worker: Worker, hist: History): seq<Entry> {
    PastLog(hist.past, |hist.past|) + (if Quiet(worker) then [] else hist.log)
  }

  lemma {:induction false} EpochHandles(e: Epoch)
    requires EpochWf(e)
    ensures EventHandles(EpochEvents(e)) == Handles(e.log)
  {
  }

  lemma {:induction false} PastHandles(past: seq<Epoch>, n: nat)
    requires n <= |past| && PastOk(past)
    ensures EventHandles(PastEvents(past, n)) == Handles(PastLog(past, n))
    ensures |PastEvents(past, n)| == |PastLog(past, n)|
  {
    if n > 0 {
      PastHandles(past, n - 1);
      var e := past[n - 1];
      EpochHandles(e);
      JoinHandles(PastEvents(past, n - 1), EpochEvents(e), PastLog(past, n - 1), e.log);
    }
  }

  lemma {:induction false} JoinHandles(es: seq<Event>, fs: seq<Event>, a: seq<Entry>, b: seq<Entry>)
    requires EventHandles(es) == Handles(a) && |fs| <= |b| && EventHandles(fs) == Handles(b)[..|fs|]
    ensures EventHandles(es + fs) == Handles(a + b)[..|es| + |fs|]
  {
    assert |es| == |EventHandles(es)| == |a|;
    forall k | 0 <= k < |es| + |fs| ensures EventHandles(es + fs)[k] == Handles(a + b)[k] {
      if k < |es| {
        assert EventHandles(es)[k] == Handles(a)[k];
      } else {
        assert EventHandles(fs)[k - |es|] == Handles(b)[k - |es|];
      }
    }
  }

  lemma {:induction false} CurrentHandles(log: seq<Entry>, replies: seq<int>, delivered: nat, head: nat, drained: nat)
    requires delivered <= |log| && delivered <= |replies| && head <= drained <= |log|
    requires delivered == head || drained == head
    ensures var es := CurrentEvents(log, replies, delivered, head, drained);
            |es| <= |log| && EventHandles(es) == Handles(log)[..|es|]
  {
  }

  lemma {:induction false} HandlesInOrder(worker: Worker, reader: Reader, head: nat, replies: seq<int>, hist: History)
    requires EventsOk(worker, reader, head, replies, hist)
    requires worker == Racing || !reader.Popped?
    ensures EventHandles(hist.events) <= Handles(AcceptedEntries(worker, hist))
    ensures Quiet(worker) ==> EventHandles(hist.events) == Handles(AcceptedEntries(worker, hist))
    ensures !Quiet(worker) ==>
      |hist.events| == |PastLog(hist.past, |hist.past|)| + Delivered(head, reader) + (DrainedUpTo(head, worker) - head)
  {
    var past := PastEvents(hist.past, |hist.past|);
    var log := PastLog(hist.past, |hist.past|);
    PastHandles(hist.past, |hist.past|);
    if Quiet(worker) {
      assert AcceptedEntries(worker, hist) == log;
    } else {
      var d, e := Delivered(head, reader), DrainedUpTo(head, worker);
      var cur := CurrentEvents(hist.log, replies, d, head, e);
      CurrentHandles(hist.log, replies, d, head, e);
      JoinHandles(past, cur, log, hist.log);
    }
  }

  /** The handles resumed so far are, in order, the first handles accepted: nobody is resumed
      twice, out of turn or uninvited. Once an epoch has been drained nobody is left waiting. */
  lemma {:induction false} AnsweredInOrder(cap: nat, m: nat, actions: seq<Action>)
    requires cap > 0
    ensures var s := Reach(cap, m, actions);
            && EventHandles(s.hist.events) <= Handles(AcceptedEntries(s.worker, s.hist))
            && (Quiet(s.worker) ==> EventHandles(s.hist.events) == Handles(AcceptedEntries(s.worker, s.hist)))
  {
    ReachInv(cap, m, actions);
    var s := Reach(cap, m, actions);
    HandlesInOrder(s.worker, s.reader, s.ring.head, s.net.replies, s.hist);
  }

  /** Counted with multiplicity: at any time each accepted command has been answered at most
      once, and exactly once when an epoch has been drained. */
  lemma {:induction false} AnsweredExactlyOnce(cap: nat, m: nat, actions: seq<Action>)
    requires cap > 0
    ensures var s := Reach(cap, m, actions);
            var answered, accepted := EventHandles(s.hist.events), Handles(AcceptedEntries(s.worker, s.hist));
            && multiset(answered) <= multiset(accepted)
            && (Quiet(s.worker) ==> multiset(answered) == multiset(accepted))
  {
    AnsweredInOrder(cap, m, actions);
    var s := Reach(cap, m, actions);
    PrefixMultiset(EventHandles(s.hist.events), Handles(AcceptedEntries(s.worker, s.hist)));
  }

  lemma {:induction false} PrefixMultiset(a: seq<int>, b: seq<int>)
    requires a <= b
    ensures multiset(a) <= multiset(b)
  {
    assert b == a + b[|a|..];
  }

  /** A pipe deleted while it was reconnecting was not drained: then everybody has been answered
      exactly when nobody had been accepted since the reset. */
  lemma {:induction false} DeletedWhileConnectingIff(cap: nat, m: nat, actions: seq<Action>)
    requires cap > 0 && Reach(cap, m, actions).worker == Dead(false)
    ensures var s := Reach(cap, m, actions);
            EventHandles(s.hist.events) == Handles(AcceptedEntries(s.worker, s.hist)) <==> s.ring.alloc == 0
  {
    ReachInv(cap, m, actions);
    var s := Reach(cap, m, actions);
    InitInv(cap, m);
    DeadIsFresh(Init(cap, m), actions);
    HandlesInOrder(s.worker, s.reader, s.ring.head, s.net.replies, s.hist);
    assert |Handles(AcceptedEntries(s.worker, s.hist))| == |PastLog(s.hist.past, |s.hist.past|)| + s.ring.alloc;
    var accepted := AcceptedEntries(s.worker, s.hist);
    if s.ring.alloc == 0 {
      assert |EventHandles(s.hist.events)| == |Handles(accepted)|;
    }
  }

  /** From the reset on until the connection stands again, nothing is popped. */
  ghost predicate Fresh(worker: Worker, head: nat) {
    worker == Connecting || worker == Dead(false) ==> head == 0
  }

  lemma {:induction false} DeadIsFresh(s: State, actions: seq<Action>)
    requires Inv(s) && Fresh(s.worker, s.ring.head)
    ensures Fresh(Run(s, actions).worker, Run(s, actions).ring.head)
  {
    if actions != [] {
      var t := Run(s, actions[..|actions| - 1]);
      DeadIsFresh(s, actions[..|actions| - 1]);
      RunInv(s, actions[..|actions| - 1]);
      FreshStep(t, actions[|actions| - 1]);
    }
  }

  /** Only a pop and the reset move `head`; only the worker changes its own phase. */
  lemma {:induction false} HeadMoves(s: State, a: Action)
    requires |s.ring.slots| > 0 && !a.Work?
    ensures Step(s, a).worker == s.worker
    ensures Step(s, a).ring.head != s.ring.head ==> s.reader.Delivering?
  {
  }

  /** A producer's step leaves the consumer's side of the ring and the connection alone. */
  lemma {:induction false} ProduceFrame(s: State, a: nat, spurious: bool)
    requires |s.ring.slots| > 0 && a < |s.prods|
    ensures var s' := ProduceStep(s, a, spurious);
            && s'.ring.head == s.ring.head && s'.ring.committed == s.ring.committed
            && s'.ring.stop == s.ring.stop && s'.worker == s.worker
            && (s.ring.stop ==> s'.ring.alloc == s.ring.alloc && s'.hist == s.hist)
  {
  }

  lemma {:induction false} FreshWork(s: State, connected: bool)
    requires |s.ring.slots| > 0 && Fresh(s.worker, s.ring.head) && (s.worker == Reset4 ==> s.ring.head == 0)
    ensures Fresh(WorkStep(s, connected).worker, WorkStep(s, connected).ring.head)
  {
  }

  lemma {:induction false} ResetsHead(s: State)
    requires Inv(s) && s.worker == Reset4
    ensures s.ring.head == 0
  {
  }

  lemma {:induction false} ReadsWhileRacing(s: State)
    requires Inv(s) && s.reader.Delivering?
    ensures s.worker == Racing
  {
  }

  lemma {:induction false} FreshOther(s: State, a: Action)
    requires |s.ring.slots| > 0 && !a.Work? && Fresh(s.worker, s.ring.head)
    requires s.reader.Delivering? ==> s.worker == Racing
    ensures Fresh(Step(s, a).worker, Step(s, a).ring.head)
  {
    HeadMoves(s, a);
  }

  lemma {:induction false} FreshStep(s: State, a: Action)
    requires Inv(s) && Fresh(s.worker, s.ring.head)
    ensures Fresh(Step(s, a).worker, Step(s, a).ring.head)
  {
    if s.worker == Reset4 {
      ResetsHead(s);
    }
    if s.reader.Delivering? {
      ReadsWhileRacing(s);
    }
    if a.Work? {
      FreshWork(s, a.connected);
    } else {
      FreshOther(s, a);
    }
  }

  /** Where epoch e's answers start in the list of all events. */
  function Offset(past: seq<Epoch>, e: nat): nat
    requires e <= |past|
  {
    |PastLog(past, e)|
  }

  lemma {:induction false} PastEventsAt(past: seq<Epoch>, n: nat, e: nat, p: nat)
    requires PastOk(past) && e < n <= |past| && p < |past[e].log|
    ensures Offset(past, e) + p < |PastEvents(past, n)|
    ensures PastEvents(past, n)[Offset(past, e) + p] == EpochEvents(past[e])[p]
  {
    PastHandles(past, n - 1);
    if e < n - 1 {
      PastEventsAt(past, n - 1, e, p);
    }
  }

  /** Position p of an ended epoch was answered with the p-th reply of that epoch's connection if
      it had been popped, and with a connection error otherwise. */
  lemma {:induction false} AnswersMatchRequests(cap: nat, m: nat, actions: seq<Action>, e: nat, p: nat)
    requires cap > 0
    requires var past := Reach(cap, m, actions).hist.past; e < |past| && p < |past[e].log|
    ensures var s := Reach(cap, m, actions);
            var ep := s.hist.past[e];
            && Offset(s.hist.past, e) + p < |s.hist.events|
            && (p < ep.popped ==> p < |ep.replies|)
            && s.hist.events[Offset(s.hist.past, e) + p]
                 == Event(ep.log[p].handle, if p < ep.popped then Reply(ep.replies[p]) else ConnErr)
  {
    ReachEvents(cap, m, actions);
    var s := Reach(cap, m, actions);
    EndedEpochAnswers(s.worker, s.reader, s.ring.head, s.net.replies, s.hist, e, p);
  }

  lemma {:induction false} EndedEpochAnswers(
      worker: Worker, reader: Reader, head: nat, replies: seq<int>, hist: History, e: nat, p: nat)
    requires EventsOk(worker, reader, head, replies, hist) && e < |hist.past| && p < |hist.past[e].log|
    ensures var ep := hist.past[e];
            && Offset(hist.past, e) + p < |hist.events|
            && (p < ep.popped ==> p < |ep.replies|)
            && hist.events[Offset(hist.past, e) + p]
                 == Event(ep.log[p].handle, if p < ep.popped then Reply(ep.replies[p]) else ConnErr)
  {
    PastEventsAt(hist.past, |hist.past|, e, p);
    assert EpochWf(hist.past[e]);
  }

  /** The same for the epoch under way. */
  lemma {:induction false} CurrentAnswersMatch(cap: nat, m: nat, actions: seq<Action>, p: nat)
    requires cap > 0
    requires var s := Reach(cap, m, actions); !Quiet(s.worker) && p < Delivered(s.ring.head, s.reader)
    ensures var s := Reach(cap, m, actions);
            var k := Offset(s.hist.past, |s.hist.past|) + p;
            && k < |s.hist.events| && p < |s.hist.log| && p < |s.net.replies|
            && s.hist.events[k] == Event(s.hist.log[p].handle, Reply(s.net.replies[p]))
  {
    ReachEvents(cap, m, actions);
    var s := Reach(cap, m, actions);
    CurrentEpochAnswers(s.worker, s.reader, s.ring.head, s.net.replies, s.hist, p);
  }

  lemma {:induction false} CurrentEpochAnswers(
      worker: Worker, reader: Reader, head: nat, replies: seq<int>, hist: History, p: nat)
    requires EventsOk(worker, reader, head, replies, hist) && !Quiet(worker) && p < Delivered(head, reader)
    ensures var k := Offset(hist.past, |hist.past|) + p;
            && k < |hist.events| && p < |hist.log| && p < |replies|
            && hist.events[k] == Event(hist.log[p].handle, Reply(replies[p]))
  {
    PastHandles(hist.past, |hist.past|);
    var d, e := Delivered(head, reader), DrainedUpTo(head, worker);
    assert CurrentEvents(hist.log, replies, d, head, e)[p] == Event(hist.log[p].handle, Reply(replies[p]));
  }

  // ---- bytes

  lemma {:induction false} BytesPrefix(log: seq<Entry>, lo: nat, hi: nat)
    requires lo <= hi <= |log|
    ensures Bytes(log, lo) <= Bytes(log, hi)
  {
    if lo < hi {
      BytesPrefix(log, lo, hi - 1);
    }
  }

  /** The socket accepted the payloads in ring order, and the server answered only requests it
      had received in full. */
  lemma {:induction false} WireIsRingOrder(cap: nat, m: nat, actions: seq<Action>)
    requires cap > 0 && !Quiet(Reach(cap, m, actions).worker)
    ensures var s := Reach(cap, m, actions);
            && s.net.wire <= Bytes(s.hist.log, |s.hist.log|)
            && |s.net.replies| <= s.ring.committed <= |s.hist.log|
            && Bytes(s.hist.log, |s.net.replies|) <= s.net.wire
  {
    ReachInv(cap, m, actions);
    var s := Reach(cap, m, actions);
    WirePrefixes(s.ring.head, s.ring.committed, s.writer, s.reader, s.net, s.hist.log);
  }

  lemma {:induction false} WirePrefixes(
      head: nat, committed: nat, writer: Writer, reader: Reader, net: Net, log: seq<Entry>)
    requires WireOk(head, committed, writer, reader, net, log)
    ensures net.wire <= Bytes(log, |log|)
    ensures |net.replies| <= committed <= |log| && Bytes(log, |net.replies|) <= net.wire
  {
    BytesPrefix(log, committed, |log|);
    BytesPrefix(log, |net.replies|, committed);
    assert net.wire <= Bytes(log, committed);
  }

  /** An accepted batch (a transaction, ASKING and its command) occupies consecutive positions in
      argument order, and its bytes follow each other in what is sent. */
  lemma {:induction false} BatchIsContiguous(cap: nat, m: nat, actions: seq<Action>, k: nat)
    requires cap > 0 && !Quiet(Reach(cap, m, actions).worker)
    requires k < |Reach(cap, m, actions).hist.batches|
    ensures var s := Reach(cap, m, actions);
            var log, b := s.hist.log, s.hist.batches[k];
            && b.t + |b.entries| <= |log| && log[b.t..b.t + |b.entries|] == b.entries
            && Bytes(log, b.t) + Bytes(b.entries, |b.entries|) <= Bytes(log, |log|)
  {
    ReachInv(cap, m, actions);
    var s := Reach(cap, m, actions);
    BatchBytes(s.hist.batches, s.hist.log, k);
  }

  lemma {:induction false} BatchBytes(batches: seq<Batch>, log: seq<Entry>, k: nat)
    requires BatchesOk(batches, log) && k < |batches|
    ensures var b := batches[k];
            && b.t + |b.entries| <= |log| && log[b.t..b.t + |b.entries|] == b.entries
            && Bytes(log, b.t) + Bytes(b.entries, |b.entries|) <= Bytes(log, |log|)
  {
    var b := batches[k];
    RangeBytes(log, b.t, b.entries, |b.entries|);
    BytesPrefix(log, b.t + |b.entries|, |log|);
  }

  lemma {:induction false} RangeBytes(log: seq<Entry>, t: nat, part: seq<Entry>, n: nat)
    requires n <= |part| && t + |part| <= |log| && log[t..t + |part|] == part
    ensures Bytes(log, t + n) == Bytes(log, t) + Bytes(part, n)
  {
    if n > 0 {
      RangeBytes(log, t, part, n - 1);
      assert part[n - 1] == log[t..t + |part|][n - 1];
    }
  }

  // ---- draining and waking

  /** Once STOP is set no step accepts a push, until the last store of the reset clears it. */
  lemma {:induction false} StopRefusesPushes(s: State, a: Action)
    requires Core(s) && s.ring.stop && !(a.Work? && s.worker == Reset4)
    ensures var s' := Step(s, a);
            s'.ring.stop && s'.ring.alloc == s.ring.alloc && s'.hist.log == s.hist.log
  {
    if a.Produce? && a.a < |s.prods| {
      ProduceFrame(s, a.a, a.spurious);
    }
  }

  /** When the drain loop runs, every push whose swap succeeded has been committed. */
  lemma {:induction false} DrainSeesAllPushes(cap: nat, m: nat, actions: seq<Action>)
    requires cap > 0 && Reach(cap, m, actions).worker.Drain?
    ensures var s := Reach(cap, m, actions);
            && s.ring.tail == s.ring.alloc == s.worker.last == |s.hist.log|
            && forall a :: 0 <= a < |s.prods| ==> !Allocated(s.prods[a])
  {
    ReachInv(cap, m, actions);
    var s := Reach(cap, m, actions);
    forall a | 0 <= a < |s.prods| ensures !Allocated(s.prods[a]) {
      assert ProdOk(s.ring, s.hist.log, s.hist.epoch, s.prods[a]);
    }
  }

  /** While a push is missing, its producer is there, at the position all others wait for. */
  lemma {:induction false} TailProducer(s: State) returns (a: nat)
    requires Inv(s) && !Quiet(s.worker) && s.ring.tail != s.ring.alloc
    ensures a < |s.prods| && Allocated(s.prods[a]) && s.prods[a].t == s.ring.tail
    ensures s.ring.tail < End(s.prods[a]) <= s.ring.alloc && (s.prods[a].Writing? ==> s.prods[a].i < |s.prods[a].batch|)
  {
    assert Covered(s.prods, s.ring.tail);
    a :| 0 <= a < |s.prods| && Covers(s.prods[a], s.ring.tail);
    assert ProdOk(s.ring, s.hist.log, s.hist.epoch, s.prods[a]);
  }

  lemma {:induction false} ProducerMoves(s: State, a: nat)
    requires |s.ring.slots| > 0 && !s.worker.Dead? && a < |s.prods| && Allocated(s.prods[a])
    requires s.prods[a].t == s.ring.tail && (s.prods[a].Writing? ==> s.prods[a].i < |s.prods[a].batch|)
    ensures Step(s, Produce(a, false)) != s
  {
    assert ProduceStep(s, a, false).prods[a] != s.prods[a];
  }

  /** The drain never spins in vain: that producer can go on by itself. */
  lemma {:induction false} DrainSpinHasAProducer(cap: nat, m: nat, actions: seq<Action>) returns (a: nat)
    requires cap > 0
    requires var s := Reach(cap, m, actions); s.worker.SpinDrain? && s.ring.tail != s.worker.last
    ensures var s := Reach(cap, m, actions);
            a < |s.prods| && Allocated(s.prods[a]) && s.prods[a].t == s.ring.tail
            && Step(s, Produce(a, false)) != s
  {
    ReachInv(cap, m, actions);
    a := TailProducer(Reach(cap, m, actions));
    ProducerMoves(Reach(cap, m, actions), a);
  }

  /** No lost wakeup: while the writer waits (or the connection is being set up) with committed
      entries unsent, the event counter is positive or a write to it is on its way. */
  lemma {:induction false} NoLostWakeup(cap: nat, m: nat, actions: seq<Action>)
    requires cap > 0
    requires var s := Reach(cap, m, actions);
             (s.writer == Waiting || s.worker == Connecting) && s.ring.committed < s.ring.tail
    ensures var s := Reach(cap, m, actions);
            s.sig.count > 0 || s.sig.pending > 0 || Signalling in s.prods
  {
    ReachInv(cap, m, actions);
  }
}
