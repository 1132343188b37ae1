/** What the writer and the reader of a pipeline do with their connection, step by step. */
module PipelineIo {
  import opened Common
  import opened WriteBatch
  import opened Pipeline
  import opened PipelineInv
  import opened PipelineSteps
  import opened PipelineTheorems
  import opened PipelineRuns
  import opened PipelineDrains
  import opened PipelineClose

  // ---- the writer

  lemma {:induction false} ClaimEffect(s: State)
    requires |s.ring.slots| > 0 && !s.worker.Dead? && s.writer == Preparing && s.ring.committed <= s.ring.tail
    ensures var t := Step(s, Write);
            && t.ring == s.ring.(committed := t.ring.committed) && t.net == s.net && t.worker == s.worker
            && t.hist == s.hist
            && t.ring.committed == (if s.ring.tail - s.ring.committed < 64 then s.ring.tail else s.ring.committed + 64)
            && (t.writer == Waiting || t.writer.Sending?)
  {
  }

  lemma {:induction false} WireOf(s: State)
    requires Inv(s) && !Quiet(s.worker)
    ensures s.ring.committed <= |s.hist.log|
    ensures s.net.wire + Join(Unsent(s.writer)) == Bytes(s.hist.log, s.ring.committed)
    ensures s.writer.Sending? ==> Join(s.writer.iov) != ""
  {
  }

  lemma {:induction false} BytesBehind(log: seq<Entry>, k: nat, n: nat)
    requires k < n <= |log| && log[n - 1].payload != ""
    ensures |Bytes(log, k)| < |Bytes(log, n)|
    decreases n
  {
    FewerBytes(log, k, n - 1);
  }

  lemma {:induction false} FewerBytes(log: seq<Entry>, k: nat, n: nat)
    requires k <= n <= |log|
    ensures |Bytes(log, k)| <= |Bytes(log, n)|
  {
    if k < n {
      FewerBytes(log, k, n - 1);
    }
  }

  /** A writer that prepares claims the next committed entries, at most 64, and waits exactly when
      there are none. What it then has to send is their payloads. */
  lemma {:induction false} WriterClaims(cap: nat, m: nat, actions: seq<Action>)
    requires cap > 0 && Reach(cap, m, actions).writer == Preparing
    ensures var s := Reach(cap, m, actions);
            var t := Step(s, Write);
            && t.ring.committed <= |t.hist.log|
            && t.ring == s.ring.(committed := t.ring.committed) && t.net.wire == s.net.wire
            && t.ring.committed == (if s.ring.tail - s.ring.committed < 64 then s.ring.tail else s.ring.committed + 64)
            && (t.writer == Waiting <==> s.ring.committed == s.ring.tail)
            && s.net.wire + Join(Unsent(t.writer)) == Bytes(t.hist.log, t.ring.committed)
  {
    var s := Reach(cap, m, actions);
    var t := Step(s, Write);
    ReachInv(cap, m, actions);
    ClaimEffect(s);
    StepInv(s, Write);
    WireOf(s);
    WireOf(t);
    if s.ring.committed < s.ring.tail {
      BytesBehind(s.hist.log, s.ring.committed, t.ring.committed);
    }
  }

  lemma {:induction false} SendEffect(s: State, k: nat)
    requires |s.ring.slots| > 0 && !s.worker.Dead? && s.writer.Sending? && 0 < k <= |Join(s.writer.iov)|
    ensures var t, bytes := Step(s, Send(k)), Join(s.writer.iov);
            && t.ring == s.ring && t.hist == s.hist && t.net.wire == s.net.wire + bytes[..k]
            && t.writer == if k == |bytes| then Preparing else Sending(Advance(s.writer.iov, k))
  {
  }

  lemma {:induction false} PartOf(wire: string, bytes: string, all: string, k: nat)
    requires wire + bytes == all && k <= |bytes|
    ensures wire + bytes[..k] <= all && (k == |bytes| <==> wire + bytes[..k] == all)
  {
    assert wire + bytes[..k] == all[..|wire| + k];
  }

  /** The socket may accept any part of what is offered: then the next bytes of the ring's order have
      been sent, and the writer goes on with the rest until there is none. */
  lemma {:induction false} AnyPartIsSent(cap: nat, m: nat, actions: seq<Action>, k: nat)
    requires cap > 0 && Reach(cap, m, actions).writer.Sending?
    requires 0 < k <= |Join(Reach(cap, m, actions).writer.iov)|
    ensures var s := Reach(cap, m, actions);
            var t := Step(s, Send(k));
            && t.ring == s.ring && t.hist == s.hist && |t.net.wire| == |s.net.wire| + k
            && s.ring.committed <= |s.hist.log| && t.net.wire <= Bytes(s.hist.log, s.ring.committed)
            && if t.net.wire == Bytes(s.hist.log, s.ring.committed) then t.writer == Preparing else t.writer.Sending?
  {
    ReachInv(cap, m, actions);
    var s := Reach(cap, m, actions);
    WireOf(s);
    SendEffect(s, k);
    PartOf(s.net.wire, Join(s.writer.iov), Bytes(s.hist.log, s.ring.committed), k);
  }

  /** An error ends the writer wherever it waits for the kernel. */
  lemma {:induction false} ErrorEndsWriter(cap: nat, m: nat, actions: seq<Action>)
    requires cap > 0
    ensures var s := Reach(cap, m, actions);
            var t := Step(s, WriterFails);
            if !s.worker.Dead? && (s.writer == Waiting || s.writer.Sending?)
            then t == s.(writer := WriterDown(Unsent(s.writer)))
            else t == s
  {
    ReachInv(cap, m, actions);
  }

  lemma {:induction false} DownOther(s: State, a: Action)
    requires |s.ring.slots| > 0 && s.writer.WriterDown? && !a.Work?
    ensures var t := Step(s, a); t.net.wire == s.net.wire && t.writer == s.writer && t.worker == s.worker
  {
    if a.Produce? && a.a < |s.prods| {
      EpochStays(s, a.a, a.spurious);
    }
  }

  predicate Down(w: Worker) { w == Racing || Closing(w) || Reopening(w) }

  lemma {:induction false} DownWork(s: State, connected: bool)
    requires |s.ring.slots| > 0 && s.writer.WriterDown? && Down(s.worker)
    requires WorkStep(s, connected).hist.epoch == s.hist.epoch
    ensures var t := WorkStep(s, connected); t.net.wire == s.net.wire && t.writer == s.writer && Down(t.worker)
  {
  }

  lemma {:induction false} DownStep(s: State, a: Action)
    requires |s.ring.slots| > 0 && s.writer.WriterDown? && Step(s, a).hist.epoch == s.hist.epoch && Down(s.worker)
    ensures var t := Step(s, a); t.net.wire == s.net.wire && t.writer == s.writer && Down(t.worker)
  {
    if a.Work? {
      DownWork(s, a.connected);
    } else {
      DownOther(s, a);
    }
  }

  /** A writer that is down sends nothing more on its connection. */
  lemma {:induction false} DownSendsNothing(s: State, actions: seq<Action>)
    requires |s.ring.slots| > 0 && s.worker == Racing && s.writer.WriterDown?
    requires Run(s, actions).hist.epoch == s.hist.epoch
    ensures var t := Run(s, actions); t.net.wire == s.net.wire && t.writer == s.writer && Down(t.worker)
  {
    if actions != [] {
      var init := actions[..|actions| - 1];
      var t := Run(s, init);
      EpochsGrow(s, init);
      EpochGrows(t, actions[|actions| - 1]);
      DownSendsNothing(s, init);
      DownStep(t, actions[|actions| - 1]);
    }
  }

  lemma {:induction false} EpochsGrow(s: State, actions: seq<Action>)
    requires |s.ring.slots| > 0
    ensures s.hist.epoch <= Run(s, actions).hist.epoch
  {
    if actions != [] {
      EpochsGrow(s, actions[..|actions| - 1]);
      EpochGrows(Run(s, actions[..|actions| - 1]), actions[|actions| - 1]);
    }
  }

  // ---- the reader

  function Reads(k: nat, fail: bool, n: nat): seq<Action> {
    if n == 0 then [] else [Read(k, fail)] + Reads(k, fail, n - 1)
  }

  /** From s to t the reader popped n handles and resumed them, and has come to `end`. */
  ghost predicate Popping(s: State, t: State, n: nat, end: Reader) {
    && t.ring == s.ring.(head := s.ring.head + n) && t.reader == end && t.net == s.net
    && t.prods == s.prods && t.writer == s.writer && t.worker == s.worker && t.sig == s.sig && t.alive == s.alive
    && |t.hist.events| == |s.hist.events| + n && t.hist == s.hist.(events := t.hist.events)
  }

  function AfterValues(first: bool, fail: bool): Reader {
    if first then Trying else if fail then ReaderDown else Parsing
  }

  lemma {:induction false} PopAndResume(s: State, k: nat, f: bool)
    requires |s.ring.slots| > 0 && !s.worker.Dead? && s.reader.Delivering? && s.reader.values != []
    ensures Popping(s, Step(Step(s, Read(k, f)), Read(k, f)), 1,
                    Delivering(s.reader.values[1..], s.reader.first, s.reader.fail))
  {
  }

  lemma {:induction false} PopMore(s: State, t: State, u: State, r: Reader, n: nat, end: Reader)
    requires Popping(s, t, 1, r) && Popping(t, u, n, end)
    ensures Popping(s, u, n + 1, end)
  {
  }

  lemma {:induction false} TakeAndPop(s: State, u: State, n: nat, first: bool, fail: bool, end: Reader)
    requires s.net.taken + n <= |s.net.replies| && Popping(TakeStep(s, n, first, fail), u, n, end)
    ensures Popping(s.(net := s.net.(taken := s.net.taken + n)), u, n, end)
  {
  }

  lemma {:induction false} EndsValues(s: State, k: nat, f: bool)
    requires |s.ring.slots| > 0 && !s.worker.Dead? && s.reader.Delivering? && s.reader.values == []
    ensures Popping(s, Step(s, Read(k, f)), 0, AfterValues(s.reader.first, s.reader.fail))
  {
  }

  lemma {:induction false} Delivers(s: State, values: seq<int>, first: bool, fail: bool, k: nat, f: bool)
    requires |s.ring.slots| > 0 && !s.worker.Dead? && s.reader == Delivering(values, first, fail)
    ensures Popping(s, Follow(s, Reads(k, f, 2 * |values| + 1)), |values|, AfterValues(first, fail))
    decreases |values|
  {
    var n, go := |values|, Read(k, f);
    FollowOne(s, go, Reads(k, f, 2 * n));
    if n > 0 {
      var t := Step(Step(s, go), go);
      PopAndResume(s, k, f);
      Delivers(t, values[1..], first, fail, k, f);
      FollowOne(Step(s, go), go, Reads(k, f, 2 * n - 1));
      PopMore(s, t, Follow(t, Reads(k, f, 2 * n - 1)), t.reader, n - 1, AfterValues(first, fail));
    } else {
      EndsValues(s, k, f);
    }
  }

  lemma {:induction false} ReadsTwice(k: nat, f: bool, n: nat)
    ensures Reads(k, f, n + 1) == [Read(k, f)] + Reads(k, f, n)
  {
  }

  lemma {:induction false} FirstFrom(s: State, k: nat, f: bool)
    requires |s.ring.slots| > 0 && !s.worker.Dead? && s.reader == Parsing && s.net.taken < |s.net.replies|
    ensures Popping(s.(net := s.net.(taken := s.net.taken + 1)), Follow(s, Reads(k, f, 4)), 1, Trying)
  {
    var t := Step(s, Read(k, f));
    TakesOne(s, k, f);
    Delivers(t, t.reader.values, true, false, k, f);
    TakeAndPop(s, Follow(t, Reads(k, f, 3)), 1, true, false, Trying);
    FollowOne(s, Read(k, f), Reads(k, f, 3));
  }

  /** The first reply of a batch is read alone; then, its handle popped and resumed, the reader tries
      for more. */
  lemma {:induction false} FirstReplyIsDelivered(cap: nat, m: nat, actions: seq<Action>, k: nat, f: bool)
    requires cap > 0
    requires var s := Reach(cap, m, actions); s.reader == Parsing && s.net.taken < |s.net.replies|
    ensures var s, t := Reach(cap, m, actions), Reach(cap, m, actions + Reads(k, f, 4));
            Popping(s.(net := s.net.(taken := s.net.taken + 1)), t, 1, Trying)
  {
    ReaderIsUp(cap, m, actions);
    FirstFrom(Reach(cap, m, actions), k, f);
    Continue(cap, m, actions, Reads(k, f, 4));
  }

  lemma {:induction false} TakesOne(s: State, k: nat, f: bool)
    requires |s.ring.slots| > 0 && !s.worker.Dead? && s.reader == Parsing && s.net.taken < |s.net.replies|
    ensures Step(s, Read(k, f)) == TakeStep(s, 1, true, false)
  {
  }

  lemma {:induction false} TakesMore(s: State, k: nat, f: bool, n: nat)
    requires |s.ring.slots| > 0 && !s.worker.Dead? && s.reader == Trying && s.net.taken <= |s.net.replies|
    requires n == Min(Min(k, 64), |s.net.replies| - s.net.taken)
    ensures Step(s, Read(k, f)) == TakeStep(s, n, false, f)
  {
  }

  lemma {:induction false} Continue(cap: nat, m: nat, actions: seq<Action>, more: seq<Action>)
    requires cap > 0
    ensures Reach(cap, m, actions + more) == Follow(Reach(cap, m, actions), more)
  {
    RunFollows(Init(cap, m), actions);
    RunFollows(Init(cap, m), actions + more);
    FollowParts(Init(cap, m), actions, more);
  }

  lemma {:induction false} TryFrom(s: State, k: nat, fail: bool, n: nat)
    requires |s.ring.slots| > 0 && !s.worker.Dead? && s.reader == Trying && s.net.taken <= |s.net.replies|
    requires n == Min(Min(k, 64), |s.net.replies| - s.net.taken)
    ensures Popping(s.(net := s.net.(taken := s.net.taken + n)), Follow(s, Reads(k, fail, 2 * n + 2)), n,
                    if fail then ReaderDown else Parsing)
  {
    var t := Step(s, Read(k, fail));
    TakesMore(s, k, fail, n);
    Delivers(t, t.reader.values, false, fail, k, fail);
    TakeAndPop(s, Follow(t, Reads(k, fail, 2 * n + 1)), n, false, fail, AfterValues(false, fail));
    FollowOne(s, Read(k, fail), Reads(k, fail, 2 * n + 1));
    ReadsTwice(k, fail, 2 * n + 1);
  }

  lemma {:induction false} ReaderIsUp(cap: nat, m: nat, actions: seq<Action>)
    requires cap > 0 && Reach(cap, m, actions).reader != ReaderDown
    ensures var s := Reach(cap, m, actions); !s.worker.Dead? && s.net.taken <= |s.net.replies|
  {
    ReachInv(cap, m, actions);
  }

  /** A try takes the replies that are there, at most as many as it asks for and at most 64. When they
      are delivered, one handle for each, the reader parses again, or has ended if the try failed. */
  lemma {:induction false} TryIsDelivered(cap: nat, m: nat, actions: seq<Action>, k: nat, fail: bool)
    requires cap > 0 && Reach(cap, m, actions).reader == Trying
    ensures var s := Reach(cap, m, actions);
            && s.net.taken <= |s.net.replies|
            && var n := Min(Min(k, 64), |s.net.replies| - s.net.taken);
               Popping(s.(net := s.net.(taken := s.net.taken + n)),
                       Reach(cap, m, actions + Reads(k, fail, 2 * n + 2)), n, if fail then ReaderDown else Parsing)
  {
    ReaderIsUp(cap, m, actions);
    var s := Reach(cap, m, actions);
    var n := Min(Min(k, 64), |s.net.replies| - s.net.taken);
    TryFrom(s, k, fail, n);
    Continue(cap, m, actions, Reads(k, fail, 2 * n + 2));
  }

  // ---- the event counter

  /** The writes to the counter that were performed since the writer, or the end of a drain, last
      cleared it. */
  function Unread(cap: nat, m: nat, actions: seq<Action>): nat
    requires cap > 0
  {
    if actions == [] then 0
    else
      var init, a := actions[..|actions| - 1], actions[|actions| - 1];
      var s, before := Reach(cap, m, init), Unread(cap, m, init);
      if a.EventWrite? && !s.worker.Dead? && s.sig.pending > 0 then before + 1
      else if (a.Write? && s.writer == Waiting && !s.worker.Dead?) || (a.Work? && s.worker == Drained) then 0
      else before
  }

  lemma {:induction false} CounterStep(s: State, a: Action)
    requires |s.ring.slots| > 0
    ensures Step(s, a).sig.count
         == if a.EventWrite? && !s.worker.Dead? && s.sig.pending > 0 then s.sig.count + 1
            else if (a.Write? && s.writer == Waiting && !s.worker.Dead?) || (a.Work? && s.worker == Drained) then 0
            else s.sig.count
  {
  }

  /** The counter counts: it is the number of signals performed since it was last read. */
  lemma {:induction false} CounterIsUnread(cap: nat, m: nat, actions: seq<Action>)
    requires cap > 0
    ensures Reach(cap, m, actions).sig.count == Unread(cap, m, actions)
  {
    if actions != [] {
      CounterIsUnread(cap, m, actions[..|actions| - 1]);
      CounterStep(Reach(cap, m, actions[..|actions| - 1]), actions[|actions| - 1]);
    }
  }
}
