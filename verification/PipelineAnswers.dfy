/** A pipeline that is not disturbed answers: every accepted request can get its reply. */
module PipelineAnswers {
  import opened WriteBatch
  import opened Pipeline
  import opened PipelineInv
  import opened PipelineSteps
  import opened PipelineTheorems
  import opened PipelineRuns
  import opened PipelineDrains
  import opened PipelineIo

  // ---- a push is accepted

  lemma {:induction false} LoadLoadSwap(s: State, a: nat)
    requires 0 < |s.ring.slots| <= STOP_BIT && a < |s.prods| && !s.worker.Dead? && s.prods[a].WantTail?
    requires !s.ring.stop && s.ring.head <= s.ring.alloc
    requires s.ring.alloc + |s.prods[a].batch| <= s.ring.head + |s.ring.slots|
    requires 0 < |s.prods[a].batch| && s.ring.alloc + |s.prods[a].batch| < STOP_BIT
    ensures var p, b := Produce(a, false), s.prods[a].batch;
            var t := Step(Step(Step(s, p), p), p);
            && t.prods == s.prods[a := Writing(s.ring.alloc, 0, b)]
            && t.ring == s.ring.(alloc := s.ring.alloc + |b|) && t.hist.log == s.hist.log + b
  {
    var p, b := Produce(a, false), s.prods[a].batch;
    var s1 := s.(prods := s.prods[a := WantHead(s.ring.alloc, false, s.hist.epoch, b)]);
    assert Step(s, p) == s1;
    SeemsFullIff(s.ring.alloc, s.ring.head, |s.ring.slots|);
    var s2 := s.(prods := s.prods[a := WantSwap(s.ring.alloc, s.ring.head, s.hist.epoch, b)]);
    assert s1.prods[a := s2.prods[a]] == s2.prods;
    assert Step(s1, p) == s2;
    assert Step(s2, p) == SwapStep(s2, a, s2.prods[a]);
  }

  /** From s to t producer a's batch was allocated, and nothing else happened. */
  ghost predicate JustAccepted(s: State, t: State, a: nat, batch: seq<Entry>)
    requires a < |s.prods|
  {
    && t.prods == s.prods[a := Writing(s.ring.alloc, 0, batch)]
    && t.hist.log == s.hist.log + batch
    && t.ring == s.ring.(alloc := s.ring.alloc + |batch|)
  }

  lemma {:induction false} PushAccepted(s: State, a: nat, batch: seq<Entry>)
    requires 0 < |s.ring.slots| <= STOP_BIT && a < |s.prods| && !s.worker.Dead? && s.prods[a] == Out
    requires BatchOk(batch) && !s.ring.stop && s.ring.head <= s.ring.alloc
    requires s.ring.alloc + |batch| <= s.ring.head + |s.ring.slots| && s.ring.alloc + |batch| < STOP_BIT
    ensures var p := Produce(a, false);
            JustAccepted(s, Step(Step(Step(Step(s, StartPush(a, batch)), p), p), p), a, batch)
  {
    var t := s.(prods := s.prods[a := WantTail(batch)]);
    PushStarts(s, a, batch);
    LoadLoadSwap(t, a);
    assert t.prods[a := Writing(s.ring.alloc, 0, batch)] == s.prods[a := Writing(s.ring.alloc, 0, batch)];
  }

  /** A push that nobody disturbs, of a batch that fits into the free slots, is accepted with its third
      step: its entries are the next in the ring's order. */
  lemma {:induction false} UndisturbedPushIsAccepted(
      cap: nat, m: nat, actions: seq<Action>, a: nat, batch: seq<Entry>)
    requires 0 < cap <= STOP_BIT && a < m && BatchOk(batch)
    requires var s := Reach(cap, m, actions);
             && !s.worker.Dead? && s.prods[a] == Out && !s.ring.stop
             && s.ring.alloc + |batch| <= s.ring.head + cap && s.ring.alloc + |batch| < STOP_BIT
    ensures var p := Produce(a, false);
            JustAccepted(Reach(cap, m, actions),
                         Reach(cap, m, actions + [StartPush(a, batch)] + [p, p, p]), a, batch)
  {
    var p, begun := Produce(a, false), actions + [StartPush(a, batch)];
    ReachInv(cap, m, actions);
    RunLast(Init(cap, m), actions, StartPush(a, batch));
    RunThree(Init(cap, m), begun, p, p, p);
    PushAccepted(Reach(cap, m, actions), a, batch);
  }

  // ---- the connection is up

  /** The reader has not met an error that ends it. */
  predicate GoesOnReading(r: Reader) {
    match r
    case Delivering(_, first, fail) => first || !fail
    case Popped(_, _, _, first, fail) => first || !fail
    case ReaderDown => false
    case _ => true
  }

  predicate Up(s: State) { s.worker == Racing && !s.writer.WriterDown? && GoesOnReading(s.reader) }

  /** t is a later state of the same epoch, in which nobody else has been accepted. */
  ghost predicate Onward(s: State, t: State) {
    && Inv(t) && Up(t) && t.ring.alloc == s.ring.alloc
    && t.hist.log == s.hist.log && t.hist.past == s.hist.past
  }

  // ---- the writer sends everything

  function WriterLeft(writer: Writer, sig: Signals): nat {
    match writer
    case Preparing => 1
    case Sending(_) => 2
    case Waiting => 2 + (if sig.count > 0 then 0 else if sig.pending > 0 then 1 else 2)
    case WriterDown(_) => 0
  }

  predicate AllSent(s: State) { s.ring.committed == s.ring.tail && !s.writer.Sending? }

  /** What moves the writer on. */
  lemma {:induction false} WriterNext(s: State) returns (a: Action)
    requires Inv(s) && Up(s) && !AllSent(s) && s.ring.tail == s.ring.alloc
    ensures s.writer.Sending? ==> a == Send(|Join(s.writer.iov)|) && Join(s.writer.iov) != ""
    ensures s.writer == Preparing ==> a == Write && s.ring.committed < s.ring.tail
    ensures s.writer == Waiting ==>
      if s.sig.count > 0 then a == Write
      else if s.sig.pending > 0 then a == EventWrite
      else a.Produce? && a.a < |s.prods| && s.prods[a.a] == Signalling
  {
    match s.writer
    case Sending(iov) => a := Send(|Join(iov)|);
    case Preparing => a := Write;
    case Waiting =>
      if s.sig.count > 0 {
        a := Write;
      } else if s.sig.pending > 0 {
        a := EventWrite;
      } else {
        var b :| 0 <= b < |s.prods| && s.prods[b] == Signalling;
        a := Produce(b, false);
      }
  }

  lemma {:induction false} WriterMoves(s: State, a: Action)
    requires |s.ring.slots| > 0 && Up(s) && s.ring.committed <= s.ring.tail
    requires s.writer.Sending? ==> a == Send(|Join(s.writer.iov)|) && Join(s.writer.iov) != ""
    requires s.writer == Preparing ==> a == Write && s.ring.committed < s.ring.tail
    requires s.writer == Waiting ==>
      if s.sig.count > 0 then a == Write
      else if s.sig.pending > 0 then a == EventWrite
      else a.Produce? && a.a < |s.prods| && s.prods[a.a] == Signalling
    ensures var t := Step(s, a);
            && Up(t) && t.ring.alloc == s.ring.alloc && t.hist == s.hist && t.ring.tail == s.ring.tail
            && (t.ring.committed > s.ring.committed
                || (t.ring.committed == s.ring.committed && WriterLeft(t.writer, t.sig) < WriterLeft(s.writer, s.sig)))
  {
  }

  lemma {:induction false} SendAll(s: State) returns (acts: seq<Action>)
    requires Inv(s) && Up(s) && s.ring.tail == s.ring.alloc
    ensures var t := Follow(s, acts); Onward(s, t) && AllSent(t) && t.ring.tail == t.ring.alloc
    decreases s.ring.tail - s.ring.committed, WriterLeft(s.writer, s.sig)
  {
    acts := [];
    if !AllSent(s) {
      var a := WriterNext(s);
      WriterMoves(s, a);
      StepInv(s, a);
      acts := SendAll(Step(s, a));
      FollowOne(s, a, acts);
      acts := [a] + acts;
    }
  }

  // ---- the server answers everything

  lemma {:induction false} ServeMoves(s: State, value: int)
    requires |s.ring.slots| > 0 && Up(s) && |s.net.replies| < |s.hist.log|
    requires s.net.wire == Bytes(s.hist.log, |s.hist.log|)
    ensures Step(s, Serve(value)) == s.(net := s.net.(replies := s.net.replies + [value]))
  {
    FewerBytes(s.hist.log, |s.net.replies| + 1, |s.hist.log|);
  }

  lemma {:induction false} EverythingIsOut(s: State)
    requires Inv(s) && Up(s) && AllSent(s) && s.ring.tail == s.ring.alloc
    ensures s.net.wire == Bytes(s.hist.log, |s.hist.log|) && |s.net.replies| <= |s.hist.log|
  {
    assert s.net.wire + Join(Unsent(s.writer)) == Bytes(s.hist.log, s.ring.committed);
  }

  lemma {:induction false} ServeAll(s: State, value: int) returns (acts: seq<Action>)
    requires Inv(s) && Up(s) && AllSent(s) && s.ring.tail == s.ring.alloc
    ensures var t := Follow(s, acts); Onward(s, t) && |t.net.replies| == |t.hist.log|
    decreases |s.hist.log| - |s.net.replies|
  {
    acts := [];
    EverythingIsOut(s);
    if |s.net.replies| < |s.hist.log| {
      ServeMoves(s, value);
      StepInv(s, Serve(value));
      acts := ServeAll(Step(s, Serve(value)), value);
      FollowOne(s, Serve(value), acts);
      acts := [Serve(value)] + acts;
    }
  }

  // ---- the reader delivers everything

  function ReaderLeft(r: Reader): nat {
    match r
    case Popped(_, _, _, _, _) => 4
    case Delivering(_, first, _) => if first then 3 else 1
    case Trying => 2
    case _ => 0
  }

  predicate AllRead(s: State) { s.reader == Parsing && s.net.taken == |s.net.replies| }

  lemma {:induction false} ReaderMoves(s: State)
    requires |s.ring.slots| > 0 && Up(s) && s.net.taken <= |s.net.replies| && !AllRead(s)
    ensures var t := Step(s, Read(MAX_IOV, false));
            && Up(t) && t.ring.alloc == s.ring.alloc && t.hist.log == s.hist.log && t.hist.past == s.hist.past
            && t.net.replies == s.net.replies && t.net.taken >= s.net.taken
            && (t.net.taken > s.net.taken
                || |Undelivered(t.reader)| < |Undelivered(s.reader)|
                || (|Undelivered(t.reader)| == |Undelivered(s.reader)| && ReaderLeft(t.reader) < ReaderLeft(s.reader)))
  {
  }

  lemma {:induction false} ReadAll(s: State) returns (acts: seq<Action>)
    requires Inv(s) && Up(s) && |s.net.replies| == |s.hist.log|
    ensures var t := Follow(s, acts); Onward(s, t) && AllRead(t) && |t.net.replies| == |t.hist.log|
    decreases |s.net.replies| - s.net.taken, |Undelivered(s.reader)|, ReaderLeft(s.reader)
  {
    acts := [];
    if !AllRead(s) {
      var a := Read(MAX_IOV, false);
      ReaderMoves(s);
      StepInv(s, a);
      assert WireOk(Step(s, a).ring.head, Step(s, a).ring.committed, Step(s, a).writer, Step(s, a).reader,
                    Step(s, a).net, Step(s, a).hist.log);
      acts := ReadAll(Step(s, a));
      FollowOne(s, a, acts);
      acts := [a] + acts;
    }
  }

  // ---- all together

  lemma {:induction false} AnswersAll(s: State, value: int) returns (acts: seq<Action>)
    requires Inv(s) && Up(s)
    ensures var t := Follow(s, acts); Onward(s, t) && AllRead(t) && |t.net.replies| == |t.hist.log|
  {
    var a := AllCommit(s);
    var s1 := Follow(s, a);
    var b := SendAll(s1);
    var s2 := Follow(s1, b);
    var c := ServeAll(s2, value);
    var s3 := Follow(s2, c);
    var d := ReadAll(s3);
    FollowParts(s2, c, d);
    FollowParts(s1, b, c + d);
    FollowParts(s, a, b + (c + d));
    acts := a + (b + (c + d));
  }

  /** While the connection is up, every run can go on, without a new push, so that everybody accepted
      in this epoch has got the reply to his request: the writer is woken and sends all of it, and the
      reader pops one handle for each reply. */
  lemma {:induction false} EveryoneCanGetAReply(cap: nat, m: nat, actions: seq<Action>, value: int)
    returns (more: seq<Action>)
    requires cap > 0 && Up(Reach(cap, m, actions))
    ensures var s, t := Reach(cap, m, actions), Reach(cap, m, actions + more);
            && t.hist.log == s.hist.log && t.hist.past == s.hist.past && t.worker == Racing
            && |t.net.replies| == |t.hist.log| == t.ring.head
            && EventHandles(t.hist.events) == Handles(AcceptedEntries(s.worker, s.hist))
            && forall p :: 0 <= p < |t.hist.log| ==> AnsweredWithReply(t, p)
  {
    var s0 := Init(cap, m);
    ReachInv(cap, m, actions);
    more := AnswersAll(Reach(cap, m, actions), value);
    RunFollows(s0, actions);
    RunFollows(s0, actions + more);
    FollowParts(s0, actions, more);
    ReachInv(cap, m, actions + more);
    AllAnswered(cap, m, actions + more);
  }

  /** Entry p of the epoch got the reply to it. */
  ghost predicate AnsweredWithReply(s: State, p: nat)
    requires p < |s.hist.log|
  {
    var k := Offset(s.hist.past, |s.hist.past|) + p;
    && k < |s.hist.events| && p < |s.net.replies|
    && s.hist.events[k] == Event(s.hist.log[p].handle, Reply(s.net.replies[p]))
  }

  lemma {:induction false} AllAnswered(cap: nat, m: nat, actions: seq<Action>)
    requires cap > 0 && Up(Reach(cap, m, actions)) && AllRead(Reach(cap, m, actions))
    requires |Reach(cap, m, actions).net.replies| == |Reach(cap, m, actions).hist.log|
    ensures var s := Reach(cap, m, actions);
            && s.ring.head == |s.hist.log|
            && EventHandles(s.hist.events) == Handles(AcceptedEntries(s.worker, s.hist))
            && forall p :: 0 <= p < |s.hist.log| ==> AnsweredWithReply(s, p)
  {
    ReachInv(cap, m, actions);
    var s := Reach(cap, m, actions);
    assert ReadOk(s.ring.head, s.ring.committed, s.reader, s.net, s.hist.log);
    forall p | 0 <= p < |s.hist.log| ensures AnsweredWithReply(s, p) {
      CurrentAnswersMatch(cap, m, actions, p);
    }
    HandlesInOrder(s.worker, s.reader, s.ring.head, s.net.replies, s.hist);
    var events, accepted := EventHandles(s.hist.events), Handles(AcceptedEntries(s.worker, s.hist));
    assert |events| == |accepted| && events <= accepted;
  }
}
