/** Every step of the pipeline keeps the invariant. */
module PipelineSteps {
  import opened Common
  import opened WriteBatch
  import opened Pipeline
  import opened PipelineInv

  // ---- small facts about the list of producers

  lemma {:induction false} KeepCovered(prods: seq<Producer>, a: nat, p: Producer, q: nat)
    requires a < |prods| && Covered(prods, q) && !Covers(prods[a], q)
    ensures Covered(prods[a := p], q)
  {
    var b :| 0 <= b < |prods| && Covers(prods[b], q);
    assert Covers(prods[a := p][b], q);
  }

  lemma {:induction false} KeepSignalling(prods: seq<Producer>, a: nat, p: Producer)
    requires a < |prods| && prods[a] != Signalling
    ensures Signalling in prods ==> Signalling in prods[a := p]
  {
    if Signalling in prods {
      var b :| 0 <= b < |prods| && prods[b] == Signalling;
      assert prods[a := p][b] == Signalling;
    }
  }

  /** A producer outside the allocated range changes its mind: the ranges stay as they are. */
  lemma {:induction false} PlainRanges(tail: nat, alloc: nat, prods: seq<Producer>, a: nat, p: Producer)
    requires RangesOk(tail, alloc, prods) && a < |prods| && !Allocated(prods[a]) && !Allocated(p)
    ensures RangesOk(tail, alloc, prods[a := p])
  {
    var prods' := prods[a := p];
    forall b, c | 0 <= b < c < |prods| ensures Disjoint(prods'[b], prods'[c]) {
      assert Disjoint(prods[b], prods[c]);
    }
    forall q | tail <= q < alloc ensures Covered(prods', q) {
      KeepCovered(prods, a, p, q);
    }
  }

  /** An allocated producer moves on inside its range. */
  lemma {:induction false} SameRanges(tail: nat, alloc: nat, prods: seq<Producer>, a: nat, p: Producer)
    requires RangesOk(tail, alloc, prods) && a < |prods| && Allocated(prods[a]) && Allocated(p)
    requires p.t == prods[a].t && p.batch == prods[a].batch
    ensures RangesOk(tail, alloc, prods[a := p])
  {
    var prods' := prods[a := p];
    forall b, c | 0 <= b < c < |prods| ensures Disjoint(prods'[b], prods'[c]) {
      assert Disjoint(prods[b], prods[c]);
    }
    forall q | tail <= q < alloc ensures Covered(prods', q) {
      assert Covered(prods, q);
      var b :| 0 <= b < |prods| && Covers(prods[b], q);
      assert Covers(prods'[b], q);
    }
  }

  lemma {:induction false} PlainCore(s: State, a: nat, p: Producer)
    requires Core(s) && a < |s.prods| && !Allocated(s.prods[a]) && s.prods[a] != Signalling && !Allocated(p)
    requires ProdOk(s.ring, s.hist.log, s.hist.epoch, p)
    ensures Core(SetProd(s, a, p))
  {
    if !Quiet(s.worker) {
      PlainRanges(s.ring.tail, s.ring.alloc, s.prods, a, p);
      KeepSignalling(s.prods, a, p);
    }
  }

  /** Outside a reset this is all there is to the core. */
  lemma {:induction false} CoreMoves(s: State, ring: Ring, writer: Writer, prods: seq<Producer>)
    requires Core(s) && !Quiet(s.worker)
    requires PhaseOk(s.worker, writer, s.reader)
    requires StopOk(s.worker, ring.stop, ring.head, ring.committed, ring.tail, ring.alloc)
    requires RingOk(ring, s.hist.log) && RangesOk(ring.tail, ring.alloc, prods)
    requires AllProdsOk(ring, s.hist.log, s.hist.epoch, prods)
    requires SignalOk(writer, s.worker, ring.committed, ring.tail, s.sig, prods)
    ensures Core(s.(ring := ring, writer := writer, prods := prods))
  {
  }

  // ---- the allocating swap

  lemma {:induction false} SwapRanges(
      ring: Ring, log: seq<Entry>, epoch: nat, prods: seq<Producer>, a: nat, p: Producer)
    requires RangesOk(ring.tail, ring.alloc, prods) && ring.alloc == |log| && AllProdsOk(ring, log, epoch, prods)
    requires a < |prods| && !Allocated(prods[a]) && Allocated(p) && p.t == ring.alloc
    ensures RangesOk(ring.tail, End(p), prods[a := p])
  {
    var prods' := prods[a := p];
    forall b, c | 0 <= b < c < |prods| ensures Disjoint(prods'[b], prods'[c]) {
      assert Disjoint(prods[b], prods[c]);
      assert ProdOk(ring, log, epoch, prods[b]);
      assert ProdOk(ring, log, epoch, prods[c]);
    }
    forall q | ring.tail <= q < End(p) ensures Covered(prods', q) {
      if q < ring.alloc {
        KeepCovered(prods, a, p, q);
      } else {
        assert Covers(prods'[a], q);
      }
    }
  }

  lemma {:induction false} ProdAfterSwap(ring: Ring, log: seq<Entry>, epoch: nat, more: seq<Entry>, p: Producer)
    requires ring.alloc == |log| && ProdOk(ring, log, epoch, p)
    ensures ProdOk(ring.(alloc := |log| + |more|), log + more, epoch, p)
  {
    if Allocated(p) {
      var ring', log' := ring.(alloc := |log| + |more|), log + more;
      assert log'[p.t..End(p)] == log[p.t..End(p)];
      forall q | p.t <= q < p.t + Written(p) ensures Cell(ring', log', q) {
        assert Cell(ring, log, q);
      }
    }
  }

  lemma {:induction false} ProdsAfterSwap(
      ring: Ring, log: seq<Entry>, epoch: nat, prods: seq<Producer>, a: nat, batch: seq<Entry>)
    requires ring.tail <= ring.alloc == |log| && AllProdsOk(ring, log, epoch, prods)
    requires a < |prods| && BatchOk(batch)
    ensures AllProdsOk(ring.(alloc := |log| + |batch|), log + batch, epoch, prods[a := Writing(|log|, 0, batch)])
  {
    var prods' := prods[a := Writing(|log|, 0, batch)];
    var ring' := ring.(alloc := |log| + |batch|);
    forall b | 0 <= b < |prods| ensures ProdOk(ring', log + batch, epoch, prods'[b]) {
      if b == a {
        assert (log + batch)[|log|..|log| + |batch|] == batch;
      } else {
        assert ProdOk(ring, log, epoch, prods[b]);
        ProdAfterSwap(ring, log, epoch, batch, prods[b]);
      }
    }
  }

  lemma {:induction false} RingAfterSwap(ring: Ring, log: seq<Entry>, batch: seq<Entry>)
    requires RingOk(ring, log) && BatchOk(batch)
    requires |log| + |batch| <= ring.head + |ring.slots| && |log| + |batch| < STOP_BIT
    ensures RingOk(ring.(alloc := |log| + |batch|), log + batch)
  {
    var ring', log' := ring.(alloc := |log| + |batch|), log + batch;
    forall q | ring.head <= q < ring.tail ensures Cell(ring', log', q) {
      assert Cell(ring, log, q);
    }
    forall q | 0 <= q < |log'| ensures log'[q].payload != "" {
      assert q >= |log| ==> batch[q - |log|] in batch;
    }
  }

  lemma {:induction false} EntriesGrow(batches: seq<Batch>, b: Batch, n: nat)
    requires n <= |batches|
    ensures Entries(batches + [b], n) == Entries(batches, n)
  {
    if n > 0 {
      EntriesGrow(batches, b, n - 1);
    }
  }

  lemma {:induction false} BatchesGrow(batches: seq<Batch>, log: seq<Entry>, more: seq<Entry>)
    requires BatchesOk(batches, log)
    ensures BatchesOk(batches + [Batch(|log|, more)], log + more)
  {
    var batches', log' := batches + [Batch(|log|, more)], log + more;
    EntriesGrow(batches, Batch(|log|, more), |batches|);
    forall k | 0 <= k < |batches'|
      ensures var b := batches'[k];
              b.t + |b.entries| <= |log'| && log'[b.t..b.t + |b.entries|] == b.entries
    {
      if k < |batches| {
        var b := batches[k];
        assert log'[b.t..b.t + |b.entries|] == log[b.t..b.t + |b.entries|];
      }
    }
  }

  lemma {:induction false} SwapCore(s: State, a: nat)
    requires Core(s) && a < |s.prods| && s.prods[a].WantSwap?
    requires SwapSucceeds(s, s.prods[a].t, s.prods[a].epoch, s.prods[a].batch)
    ensures !Quiet(s.worker) && Core(SwapStep(s, a, s.prods[a]))
  {
    var p := s.prods[a];
    var p' := Writing(p.t, 0, p.batch);
    assert ProdOk(s.ring, s.hist.log, s.hist.epoch, p);
    RingAfterSwap(s.ring, s.hist.log, p.batch);
    SwapRanges(s.ring, s.hist.log, s.hist.epoch, s.prods, a, p');
    ProdsAfterSwap(s.ring, s.hist.log, s.hist.epoch, s.prods, a, p.batch);
    BatchesGrow(s.hist.batches, s.hist.log, p.batch);
    KeepSignalling(s.prods, a, p');
  }

  lemma {:induction false} BytesGrow(log: seq<Entry>, more: seq<Entry>, n: nat)
    requires n <= |log|
    ensures Bytes(log + more, n) == Bytes(log, n)
  {
    if n > 0 {
      BytesGrow(log, more, n - 1);
    }
  }

  lemma {:induction false} WireAfterSwap(
      head: nat, committed: nat, writer: Writer, reader: Reader, net: Net, log: seq<Entry>, more: seq<Entry>)
    requires WireOk(head, committed, writer, reader, net, log)
    ensures WireOk(head, committed, writer, reader, net, log + more)
  {
    BytesGrow(log, more, committed);
    BytesGrow(log, more, |net.replies|);
  }

  lemma {:induction false} EventsAfterSwap(
      worker: Worker, reader: Reader, head: nat, replies: seq<int>, hist: History, hist': History)
    requires !Quiet(worker) && EventsOk(worker, reader, head, replies, hist)
    requires hist'.past == hist.past && hist'.events == hist.events && hist.log <= hist'.log
    ensures EventsOk(worker, reader, head, replies, hist')
  {
  }

  lemma {:induction false} SwapInv(s: State, a: nat)
    requires Inv(s) && a < |s.prods| && s.prods[a].WantSwap?
    requires SwapSucceeds(s, s.prods[a].t, s.prods[a].epoch, s.prods[a].batch)
    ensures Inv(SwapStep(s, a, s.prods[a]))
  {
    SwapCore(s, a);
    WireAfterSwap(s.ring.head, s.ring.committed, s.writer, s.reader, s.net, s.hist.log, s.prods[a].batch);
    EventsAfterSwap(s.worker, s.reader, s.ring.head, s.net.replies, s.hist, SwapStep(s, a, s.prods[a]).hist);
  }

  // ---- filling a slot

  function Fill(ring: Ring, log: seq<Entry>, w: nat): Ring
    requires |ring.slots| > 0 && w < |log|
  {
    ring.(slots := ring.slots[Slot(w, |ring.slots|) := log[w]])
  }

  /** Filling the slot of position w leaves the cells of the other positions in use alone. */
  lemma {:induction false} SlotWrite(ring: Ring, log: seq<Entry>, w: nat)
    requires RingOk(ring, log) && ring.head <= w < ring.alloc
    ensures var ring' := Fill(ring, log, w);
            && Cell(ring', log, w)
            && forall q :: ring.head <= q < ring.alloc && Cell(ring, log, q) ==> Cell(ring', log, q)
  {
    var ring' := Fill(ring, log, w);
    forall q | ring.head <= q < ring.alloc && Cell(ring, log, q) ensures Cell(ring', log, q) {
      if q < w {
        SlotsDistinct(q, w, |ring.slots|);
      } else if w < q {
        SlotsDistinct(w, q, |ring.slots|);
      }
    }
  }

  lemma {:induction false} ProdAfterWrite(ring: Ring, log: seq<Entry>, epoch: nat, w: nat, p: Producer)
    requires RingOk(ring, log) && ring.tail <= w < ring.alloc && ProdOk(ring, log, epoch, p)
    ensures ProdOk(Fill(ring, log, w), log, epoch, p)
  {
    SlotWrite(ring, log, w);
  }

  function NextWrite(p: Producer): Producer
    requires p.Writing?
  {
    if p.i + 1 == |p.batch| then Spinning(p.t, p.batch) else Writing(p.t, p.i + 1, p.batch)
  }

  /** The writing producer itself has one more slot filled. */
  lemma {:induction false} WriterAfterWrite(ring: Ring, log: seq<Entry>, epoch: nat, p: Producer)
    requires RingOk(ring, log) && p.Writing? && ProdOk(ring, log, epoch, p)
    ensures p.i < |p.batch| && ring.tail <= p.t + p.i < ring.alloc && log[p.t + p.i] == p.batch[p.i]
    ensures ProdOk(Fill(ring, log, p.t + p.i), log, epoch, NextWrite(p))
  {
    var w := p.t + p.i;
    assert log[w] == log[p.t..End(p)][p.i] == p.batch[p.i];
    SlotWrite(ring, log, w);
    var ring' := Fill(ring, log, w);
    forall q | p.t <= q < w + 1 ensures Cell(ring', log, q) {
      assert q < w ==> Cell(ring, log, q);
    }
  }

  lemma {:induction false} RingAfterWrite(ring: Ring, log: seq<Entry>, w: nat)
    requires RingOk(ring, log) && ring.tail <= w < ring.alloc
    ensures RingOk(Fill(ring, log, w), log)
  {
    SlotWrite(ring, log, w);
  }

  lemma {:induction false} ProdsAfterWrite(ring: Ring, log: seq<Entry>, epoch: nat, prods: seq<Producer>, a: nat)
    requires RingOk(ring, log) && a < |prods| && prods[a].Writing? && AllProdsOk(ring, log, epoch, prods)
    ensures var p := prods[a];
            && p.i < |p.batch| && p.t + p.i < |log| && log[p.t + p.i] == p.batch[p.i]
            && RingOk(Fill(ring, log, p.t + p.i), log)
            && AllProdsOk(Fill(ring, log, p.t + p.i), log, epoch, prods[a := NextWrite(p)])
  {
    var p := prods[a];
    assert ProdOk(ring, log, epoch, p);
    WriterAfterWrite(ring, log, epoch, p);
    var w := p.t + p.i;
    RingAfterWrite(ring, log, w);
    var ring', prods' := Fill(ring, log, w), prods[a := NextWrite(p)];
    forall b | 0 <= b < |prods| ensures ProdOk(ring', log, epoch, prods'[b]) {
      if b != a {
        assert ProdOk(ring, log, epoch, prods[b]);
        ProdAfterWrite(ring, log, epoch, w, prods[b]);
      }
    }
  }

  lemma {:induction false} WriteSlotCore(s: State, a: nat)
    requires Core(s) && a < |s.prods| && s.prods[a].Writing?
    ensures s.prods[a].i < |s.prods[a].batch| && Core(WriteSlotStep(s, a, s.prods[a]))
  {
    AllocatedIsOpen(s, a);
    WriteSlotRing(s.ring, s.hist.log, s.hist.epoch, s.prods, a);
    var ring' := Fill(s.ring, s.hist.log, s.prods[a].t + s.prods[a].i);
    var prods' := s.prods[a := NextWrite(s.prods[a])];
    CoreMoves(s, ring', s.writer, prods');
    var t := s.(ring := ring', writer := s.writer, prods := prods');
    WriteSlotIs(s, a, t);
    assert Core(t);
  }

  lemma {:induction false} WriteSlotRing(ring: Ring, log: seq<Entry>, epoch: nat, prods: seq<Producer>, a: nat)
    requires RingOk(ring, log) && RangesOk(ring.tail, ring.alloc, prods) && AllProdsOk(ring, log, epoch, prods)
    requires a < |prods| && prods[a].Writing?
    ensures var p := prods[a];
            && p.i < |p.batch| && p.t + p.i < |log| && log[p.t + p.i] == p.batch[p.i]
            && var ring', prods' := Fill(ring, log, p.t + p.i), prods[a := NextWrite(p)];
            && RingOk(ring', log) && RangesOk(ring.tail, ring.alloc, prods') && AllProdsOk(ring', log, epoch, prods')
            && (Signalling in prods ==> Signalling in prods')
  {
    ProdsAfterWrite(ring, log, epoch, prods, a);
    SameRanges(ring.tail, ring.alloc, prods, a, NextWrite(prods[a]));
    KeepSignalling(prods, a, NextWrite(prods[a]));
  }

  lemma {:induction false} WriteSlotIs(s: State, a: nat, t: State)
    requires a < |s.prods| && s.prods[a].Writing? && |s.ring.slots| > 0
    requires var p := s.prods[a];
             && p.i < |p.batch| && p.t + p.i < |s.hist.log| && s.hist.log[p.t + p.i] == p.batch[p.i]
             && t == s.(ring := Fill(s.ring, s.hist.log, p.t + p.i), writer := s.writer,
                        prods := s.prods[a := NextWrite(p)])
    ensures WriteSlotStep(s, a, s.prods[a]) == t
  {
  }

  // ---- committing and signalling

  lemma {:induction false} SpinCore(s: State, a: nat)
    requires Core(s) && a < |s.prods| && s.prods[a].Spinning? && s.ring.tail == s.prods[a].t
    ensures Core(SetProd(s, a, Committing(s.prods[a].t, s.prods[a].batch)))
  {
    var p := Committing(s.prods[a].t, s.prods[a].batch);
    assert ProdOk(s.ring, s.hist.log, s.hist.epoch, s.prods[a]);
    SameRanges(s.ring.tail, s.ring.alloc, s.prods, a, p);
    KeepSignalling(s.prods, a, p);
  }

  lemma {:induction false} CommitRanges(tail: nat, alloc: nat, prods: seq<Producer>, a: nat)
    requires RangesOk(tail, alloc, prods) && a < |prods| && prods[a].Committing? && tail == prods[a].t
    ensures RangesOk(End(prods[a]), alloc, prods[a := Signalling])
  {
    var prods' := prods[a := Signalling];
    forall b, c | 0 <= b < c < |prods| ensures Disjoint(prods'[b], prods'[c]) {
      assert Disjoint(prods[b], prods[c]);
    }
    forall q | End(prods[a]) <= q < alloc ensures Covered(prods', q) {
      KeepCovered(prods, a, Signalling, q);
    }
  }

  lemma {:induction false} ProdAfterCommit(ring: Ring, log: seq<Entry>, epoch: nat, c: Producer, p: Producer)
    requires ProdOk(ring, log, epoch, p) && ProdOk(ring, log, epoch, c) && c.Committing?
    requires Disjoint(c, p) || Disjoint(p, c)
    ensures ProdOk(ring.(tail := End(c)), log, epoch, p)
  {
    if Allocated(p) {
      var ring' := ring.(tail := End(c));
      forall q | p.t <= q < p.t + Written(p) ensures Cell(ring', log, q) {
        assert Cell(ring, log, q);
      }
    }
  }

  lemma {:induction false} ProdsAfterCommit(ring: Ring, log: seq<Entry>, epoch: nat, prods: seq<Producer>, a: nat)
    requires RangesOk(ring.tail, ring.alloc, prods) && AllProdsOk(ring, log, epoch, prods)
    requires a < |prods| && prods[a].Committing?
    ensures AllProdsOk(ring.(tail := End(prods[a])), log, epoch, prods[a := Signalling])
  {
    assert ProdOk(ring, log, epoch, prods[a]);
    var ring', prods' := ring.(tail := End(prods[a])), prods[a := Signalling];
    forall b | 0 <= b < |prods| ensures ProdOk(ring', log, epoch, prods'[b]) {
      if b != a {
        assert ProdOk(ring, log, epoch, prods[b]);
        assert if b < a then Disjoint(prods[b], prods[a]) else Disjoint(prods[a], prods[b]);
        ProdAfterCommit(ring, log, epoch, prods[a], prods[b]);
      }
    }
  }

  lemma {:induction false} RingAfterCommit(ring: Ring, log: seq<Entry>, epoch: nat, p: Producer)
    requires RingOk(ring, log) && p.Committing? && ProdOk(ring, log, epoch, p)
    ensures RingOk(ring.(tail := End(p)), log)
  {
    var ring' := ring.(tail := End(p));
    forall q | ring.head <= q < ring'.tail ensures Cell(ring', log, q) {
      assert Cell(ring, log, q);
    }
  }

  lemma {:induction false} CommitRing(ring: Ring, log: seq<Entry>, epoch: nat, prods: seq<Producer>, a: nat)
    requires RingOk(ring, log) && RangesOk(ring.tail, ring.alloc, prods) && AllProdsOk(ring, log, epoch, prods)
    requires a < |prods| && prods[a].Committing?
    ensures var ring', prods' := ring.(tail := End(prods[a])), prods[a := Signalling];
            && RingOk(ring', log) && RangesOk(ring'.tail, ring'.alloc, prods') && AllProdsOk(ring', log, epoch, prods')
            && Signalling in prods'
  {
    assert ProdOk(ring, log, epoch, prods[a]);
    CommitRanges(ring.tail, ring.alloc, prods, a);
    RingAfterCommit(ring, log, epoch, prods[a]);
    ProdsAfterCommit(ring, log, epoch, prods, a);
    assert prods[a := Signalling][a] == Signalling;
  }

  lemma {:induction false} AllocatedIsOpen(s: State, a: nat)
    requires Core(s) && a < |s.prods| && Allocated(s.prods[a])
    ensures !Quiet(s.worker) && RingOk(s.ring, s.hist.log) && RangesOk(s.ring.tail, s.ring.alloc, s.prods)
    ensures AllProdsOk(s.ring, s.hist.log, s.hist.epoch, s.prods) && PhaseOk(s.worker, s.writer, s.reader)
  {
  }

  /** A commit happens at the tail, before the drain starts. */
  lemma {:induction false} CommitStops(s: State, a: nat)
    requires Core(s) && a < |s.prods| && s.prods[a].Committing?
    ensures StopOk(s.worker, s.ring.stop, s.ring.head, s.ring.committed, End(s.prods[a]), s.ring.alloc)
  {
    assert ProdOk(s.ring, s.hist.log, s.hist.epoch, s.prods[a]);
  }

  lemma {:induction false} CommitIs(s: State, a: nat, t: State)
    requires a < |s.prods| && s.prods[a].Committing?
    requires t == s.(ring := s.ring.(tail := End(s.prods[a])), writer := s.writer, prods := s.prods[a := Signalling])
    ensures CommitStep(s, a, s.prods[a]) == t
  {
  }

  lemma {:induction false} CommitCore(s: State, a: nat)
    requires Core(s) && a < |s.prods| && s.prods[a].Committing?
    ensures Core(CommitStep(s, a, s.prods[a]))
  {
    var ring', prods' := s.ring.(tail := End(s.prods[a])), s.prods[a := Signalling];
    var t := s.(ring := ring', writer := s.writer, prods := prods');
    AllocatedIsOpen(s, a);
    CommitStops(s, a);
    CommitRing(s.ring, s.hist.log, s.hist.epoch, s.prods, a);
    CoreMoves(s, ring', s.writer, prods');
    CommitIs(s, a, t);
    assert Core(t);
  }

  lemma {:induction false} SignalCore(s: State, a: nat)
    requires Core(s) && a < |s.prods| && s.prods[a] == Signalling
    ensures Core(SignalStep(s, a))
  {
    if !Quiet(s.worker) {
      PlainRanges(s.ring.tail, s.ring.alloc, s.prods, a, Out);
    }
  }

  // ---- a producer's step

  /** A producer outside the allocated range changes its mind. */
  lemma {:induction false} PlainInv(s: State, a: nat, p: Producer)
    requires Inv(s) && a < |s.prods| && !Allocated(s.prods[a]) && s.prods[a] != Signalling && !Allocated(p)
    requires ProdOk(s.ring, s.hist.log, s.hist.epoch, p)
    ensures Inv(SetProd(s, a, p))
  {
    PlainCore(s, a, p);
  }

  lemma {:induction false} WaitsOk(s: State, a: nat)
    requires Inv(s) && a < |s.prods|
    ensures ProdOk(s.ring, s.hist.log, s.hist.epoch, s.prods[a])
  {
  }

  lemma {:induction false} LoadTailInv(s: State, a: nat, spurious: bool)
    requires Inv(s) && a < |s.prods| && s.prods[a].WantTail?
    ensures Inv(AllocateStep(s, a, spurious))
  {
    WaitsOk(s, a);
    PlainInv(s, a, WantHead(s.ring.alloc, s.ring.stop, s.hist.epoch, s.prods[a].batch));
  }

  lemma {:induction false} LoadHeadInv(s: State, a: nat, spurious: bool)
    requires Inv(s) && a < |s.prods| && s.prods[a].WantHead?
    ensures Inv(AllocateStep(s, a, spurious))
  {
    var p := s.prods[a];
    WaitsOk(s, a);
    if p.stop || SeemsFull(p.t, s.ring.head, |s.ring.slots|) {
      PlainInv(s, a, Out);
    } else {
      PlainInv(s, a, WantSwap(p.t, s.ring.head, p.epoch, p.batch));
    }
  }

  lemma {:induction false} TrySwapInv(s: State, a: nat, spurious: bool)
    requires Inv(s) && a < |s.prods| && s.prods[a].WantSwap?
    ensures Inv(AllocateStep(s, a, spurious))
  {
    var p := s.prods[a];
    WaitsOk(s, a);
    if !spurious && SwapSucceeds(s, p.t, p.epoch, p.batch) {
      SwapInv(s, a);
    } else {
      PlainInv(s, a, WantTail(p.batch));
    }
  }

  lemma {:induction false} AllocateInv(s: State, a: nat, spurious: bool)
    requires Inv(s) && a < |s.prods|
    ensures Inv(AllocateStep(s, a, spurious))
  {
    match s.prods[a]
    case WantTail(_) => LoadTailInv(s, a, spurious);
    case WantHead(_, _, _, _) => LoadHeadInv(s, a, spurious);
    case WantSwap(_, _, _, _) => TrySwapInv(s, a, spurious);
    case _ =>
  }

  lemma {:induction false} PublishCore(s: State, a: nat)
    requires Core(s) && a < |s.prods| && (Allocated(s.prods[a]) || s.prods[a] == Signalling)
    ensures Core(ProduceStep(s, a, false))
  {
    match s.prods[a]
    case Writing(_, _, _) => WriteSlotCore(s, a);
    case Spinning(t, _) => if s.ring.tail == t { SpinCore(s, a); }
    case Committing(_, _) => CommitCore(s, a);
    case Signalling => SignalCore(s, a);
  }

  lemma {:induction false} PublishFrame(s: State, a: nat)
    requires |s.ring.slots| > 0 && a < |s.prods| && (Allocated(s.prods[a]) || s.prods[a] == Signalling)
    ensures var s' := ProduceStep(s, a, false);
            && s' == s.(ring := s'.ring, prods := s'.prods, sig := s'.sig)
            && s'.ring.head == s.ring.head && s'.ring.committed == s.ring.committed
  {
  }

  lemma {:induction false} ProduceInv(s: State, a: nat, spurious: bool)
    requires Inv(s) && a < |s.prods|
    ensures Inv(ProduceStep(s, a, spurious))
  {
    if Allocated(s.prods[a]) || s.prods[a] == Signalling {
      PublishCore(s, a);
      PublishFrame(s, a);
    } else {
      AllocateInv(s, a, spurious);
    }
  }

  // ---- the writer

  /** The payloads of the entries lo .. hi. */
  function Payloads(log: seq<Entry>, lo: nat, hi: nat): seq<string>
    requires lo <= hi <= |log|
  {
    if lo == hi then [] else Payloads(log, lo, hi - 1) + [log[hi - 1].payload]
  }

  lemma {:induction false} SlotPayloadsAreLogged(ring: Ring, log: seq<Entry>, lo: nat, hi: nat)
    requires RingOk(ring, log) && ring.head <= lo <= hi <= ring.tail
    ensures SlotPayloads(ring, lo, hi) == Payloads(log, lo, hi)
  {
    if lo < hi {
      SlotPayloadsAreLogged(ring, log, lo, hi - 1);
      assert Cell(ring, log, hi - 1);
    }
  }

  lemma {:induction false} BytesOfPayloads(log: seq<Entry>, lo: nat, hi: nat)
    requires lo <= hi <= |log|
    ensures Bytes(log, hi) == Bytes(log, lo) + Join(Payloads(log, lo, hi))
  {
    if lo < hi {
      BytesOfPayloads(log, lo, hi - 1);
      JoinConcat(Payloads(log, lo, hi - 1), [log[hi - 1].payload]);
      assert Join([log[hi - 1].payload]) == log[hi - 1].payload;
    }
  }

  lemma {:induction false} PayloadsNonEmpty(log: seq<Entry>, lo: nat, hi: nat)
    requires lo < hi <= |log| && forall q :: 0 <= q < |log| ==> log[q].payload != ""
    ensures Join(Payloads(log, lo, hi)) != ""
  {
    JoinConcat(Payloads(log, lo, hi - 1), [log[hi - 1].payload]);
    assert Join([log[hi - 1].payload]) == log[hi - 1].payload;
  }

  lemma {:induction false} PrepareSend(ring: Ring, log: seq<Entry>, wire: string, n: nat)
    requires RingOk(ring, log) && ring.committed + n <= ring.tail && wire == Bytes(log, ring.committed)
    ensures var iov := SlotPayloads(ring, ring.committed, ring.committed + n);
            && wire + Join(iov) == Bytes(log, ring.committed + n)
            && (Join(iov) == "" <==> n == 0)
  {
    SlotPayloadsAreLogged(ring, log, ring.committed, ring.committed + n);
    BytesOfPayloads(log, ring.committed, ring.committed + n);
    if n > 0 {
      PayloadsNonEmpty(log, ring.committed, ring.committed + n);
    }
  }

  /** `head` and `committed` move forward, or STOP is set: the cells stay as they are. */
  lemma {:induction false} RingMoves(ring: Ring, ring': Ring, log: seq<Entry>)
    requires RingOk(ring, log)
    requires ring'.slots == ring.slots && ring'.tail == ring.tail && ring'.alloc == ring.alloc
    requires ring.head <= ring'.head <= ring'.committed <= ring'.tail
    ensures RingOk(ring', log)
  {
    forall q | ring'.head <= q < ring'.tail ensures Cell(ring', log, q) {
      assert Cell(ring, log, q);
    }
  }

  /** To a producer only `slots`, `tail`, `alloc`, and while it allocates `head` and `stop`, matter. */
  lemma {:induction false} ProdsIgnore(ring: Ring, ring': Ring, log: seq<Entry>, epoch: nat, prods: seq<Producer>)
    requires AllProdsOk(ring, log, epoch, prods)
    requires ring'.slots == ring.slots && ring'.tail == ring.tail && ring'.alloc == ring.alloc
    requires ring'.stop || (ring'.stop == ring.stop && ring'.head >= ring.head)
    ensures AllProdsOk(ring', log, epoch, prods)
  {
    forall a | 0 <= a < |prods| ensures ProdOk(ring', log, epoch, prods[a]) {
      assert ProdOk(ring, log, epoch, prods[a]);
      if Allocated(prods[a]) {
        forall q | prods[a].t <= q < prods[a].t + Written(prods[a]) ensures Cell(ring', log, q) {
          assert Cell(ring, log, q);
        }
      }
    }
  }

  function PreparedCount(s: State): nat
    requires s.ring.committed <= s.ring.tail
  {
    Min(s.ring.tail - s.ring.committed, MAX_IOV)
  }

  /** The writer after it has claimed n entries. */
  function Prepared(ring: Ring, n: nat): Writer
    requires |ring.slots| > 0
  {
    var iov := SlotPayloads(ring, ring.committed, ring.committed + n);
    if Join(iov) == "" then Waiting else Sending(iov)
  }

  /** What `prep_writev` does. */
  lemma {:induction false} PrepareIs(s: State, n: nat, t: State)
    requires |s.ring.slots| > 0 && s.ring.committed <= s.ring.tail && n == PreparedCount(s)
    requires t == s.(ring := s.ring.(committed := s.ring.committed + n), writer := Prepared(s.ring, n),
                     prods := s.prods)
    ensures PrepareStep(s) == t
  {
  }

  /** The same seen from the log. */
  lemma {:induction false} PreparedSends(ring: Ring, log: seq<Entry>, wire: string, n: nat)
    requires RingOk(ring, log) && ring.committed + n <= ring.tail && wire == Bytes(log, ring.committed)
    ensures var writer := Prepared(ring, n);
            SendOk(ring.committed + n, writer, wire, log) && if n == 0 then writer == Waiting else writer.Sending?
  {
    PrepareSend(ring, log, wire, n);
  }

  lemma {:induction false} PreparingWire(committed: nat, wire: string, log: seq<Entry>)
    requires SendOk(committed, Preparing, wire, log)
    ensures wire == Bytes(log, committed)
  {
    assert wire + Join([]) == wire;
  }

  /** The signals are no longer needed, or the writer does not wait for them. */
  lemma {:induction false} PreparedSignal(
      writer: Writer, committed: nat, tail: nat, sig: Signals, prods: seq<Producer>, n: nat)
    requires committed <= tail && n == Min(tail - committed, MAX_IOV)
    requires if n == 0 then writer == Waiting else writer.Sending?
    ensures SignalOk(writer, Racing, committed + n, tail, sig, prods)
  {
  }

  lemma {:induction false} PrepareCore(s: State)
    requires Core(s) && s.worker == Racing && s.writer == Preparing
    requires SendOk(s.ring.committed, s.writer, s.net.wire, s.hist.log)
    ensures Core(PrepareStep(s))
  {
    var n := PreparedCount(s);
    var ring', writer := s.ring.(committed := s.ring.committed + n), Prepared(s.ring, n);
    var t := s.(ring := ring', writer := writer, prods := s.prods);
    PreparingWire(s.ring.committed, s.net.wire, s.hist.log);
    PreparedSends(s.ring, s.hist.log, s.net.wire, n);
    PreparedSignal(writer, s.ring.committed, s.ring.tail, s.sig, s.prods, n);
    RingMoves(s.ring, ring', s.hist.log);
    ProdsIgnore(s.ring, ring', s.hist.log, s.hist.epoch, s.prods);
    CoreMoves(s, ring', writer, s.prods);
    PrepareIs(s, n, t);
    assert Core(t);
  }

  lemma {:induction false} WireCommits(
      head: nat, committed: nat, more: nat, writer: Writer, writer': Writer, reader: Reader, net: Net, log: seq<Entry>)
    requires WireOk(head, committed, writer, reader, net, log) && committed <= more
    requires SendOk(more, writer', net.wire, log)
    ensures WireOk(head, more, writer', reader, net, log)
  {
  }

  lemma {:induction false} PrepareWire(s: State)
    requires Wire(s) && s.worker == Racing && s.writer == Preparing && RingOk(s.ring, s.hist.log)
    ensures Wire(PrepareStep(s))
  {
    var n := PreparedCount(s);
    var t := s.(ring := s.ring.(committed := s.ring.committed + n), writer := Prepared(s.ring, n), prods := s.prods);
    PreparingWire(s.ring.committed, s.net.wire, s.hist.log);
    PreparedSends(s.ring, s.hist.log, s.net.wire, n);
    WireCommits(s.ring.head, s.ring.committed, s.ring.committed + n, s.writer, Prepared(s.ring, n),
                s.reader, s.net, s.hist.log);
    PrepareIs(s, n, t);
    assert Wire(t);
  }

  lemma {:induction false} PrepareResumed(s: State)
    requires Resumed(s) && s.worker == Racing && |s.ring.slots| > 0 && s.ring.committed <= s.ring.tail
    ensures Resumed(PrepareStep(s))
  {
    var n := PreparedCount(s);
    var t := s.(ring := s.ring.(committed := s.ring.committed + n), writer := Prepared(s.ring, n), prods := s.prods);
    PrepareIs(s, n, t);
    assert Resumed(t);
  }

  lemma {:induction false} PrepareInv(s: State)
    requires Inv(s) && s.writer == Preparing
    ensures Inv(PrepareStep(s))
  {
    assert s.worker == Racing;
    PrepareCore(s);
    PrepareWire(s);
    PrepareResumed(s);
  }

  lemma {:induction false} WakeInv(s: State)
    requires Inv(s) && s.writer == Waiting && s.sig.count > 0
    ensures Inv(s.(sig := s.sig.(count := 0), writer := Preparing))
  {
  }

  lemma {:induction false} WriteInv(s: State)
    requires Inv(s)
    ensures Inv(WriteStep(s))
  {
    match s.writer
    case Waiting => if s.sig.count > 0 { WakeInv(s); }
    case Preparing => PrepareInv(s);
    case _ =>
  }

  lemma {:induction false} SendWire(s: State, k: nat)
    requires Wire(s) && s.writer.Sending? && 0 < k <= |Join(s.writer.iov)|
    ensures Wire(SendStep(s, k))
  {
    var bytes := Join(s.writer.iov);
    if k < |bytes| {
      JoinAdvance(s.writer.iov, k);
      assert s.net.wire + bytes[..k] + bytes[k..] == s.net.wire + bytes;
    } else {
      assert bytes[..k] == bytes;
    }
  }

  lemma {:induction false} SendInv(s: State, k: nat)
    requires Inv(s) && s.writer.Sending? && 0 < k <= |Join(s.writer.iov)|
    ensures Inv(SendStep(s, k))
  {
    SendWire(s, k);
  }

  lemma {:induction false} WriterFailInv(s: State)
    requires Inv(s)
    ensures Inv(WriterFailStep(s))
  {
  }

  // ---- the server

  lemma {:induction false} BytesMonotone(log: seq<Entry>, lo: nat, hi: nat)
    requires lo <= hi <= |log| && forall q :: 0 <= q < |log| ==> log[q].payload != ""
    ensures |Bytes(log, lo)| + (hi - lo) <= |Bytes(log, hi)|
  {
    if lo < hi {
      BytesMonotone(log, lo, hi - 1);
    }
  }

  /** A request that was fully received had been committed. */
  lemma {:induction false} ServedIsCommitted(log: seq<Entry>, committed: nat, rest: string, wire: string, k: nat)
    requires committed <= |log| && k < |log| && forall q :: 0 <= q < |log| ==> log[q].payload != ""
    requires wire + rest == Bytes(log, committed) && |Bytes(log, k + 1)| <= |wire|
    ensures k + 1 <= committed
  {
    if committed < k + 1 {
      BytesMonotone(log, committed, k + 1);
    }
  }

  lemma {:induction false} EventsIgnoreNewReply(
      worker: Worker, reader: Reader, head: nat, replies: seq<int>, value: int, hist: History)
    requires EventsOk(worker, reader, head, replies, hist)
    ensures EventsOk(worker, reader, head, replies + [value], hist)
  {
  }

  lemma {:induction false} ReadIgnoresNewReply(
      head: nat, committed: nat, reader: Reader, net: Net, value: int, log: seq<Entry>)
    requires ReadOk(head, committed, reader, net, log) && |net.replies| < committed
    ensures ReadOk(head, committed, reader, net.(replies := net.replies + [value]), log)
  {
  }

  lemma {:induction false} ServeWire(
      head: nat, committed: nat, writer: Writer, reader: Reader, net: Net, value: int, log: seq<Entry>)
    requires WireOk(head, committed, writer, reader, net, log) && |net.replies| < |log|
    requires |Bytes(log, |net.replies| + 1)| <= |net.wire| && forall q :: 0 <= q < |log| ==> log[q].payload != ""
    ensures WireOk(head, committed, writer, reader, net.(replies := net.replies + [value]), log)
  {
    ServedIsCommitted(log, committed, Join(Unsent(writer)), net.wire, |net.replies|);
    ReadIgnoresNewReply(head, committed, reader, net, value, log);
  }

  lemma {:induction false} ServeInv(s: State, value: int)
    requires Inv(s) && s.worker == Racing && |s.net.replies| < |s.hist.log|
    requires |Bytes(s.hist.log, |s.net.replies| + 1)| <= |s.net.wire|
    ensures Inv(s.(net := s.net.(replies := s.net.replies + [value])))
  {
    ServeWire(s.ring.head, s.ring.committed, s.writer, s.reader, s.net, value, s.hist.log);
    EventsIgnoreNewReply(s.worker, s.reader, s.ring.head, s.net.replies, value, s.hist);
  }

  // ---- the reader

  lemma {:induction false} ReadAfterTake(
      head: nat, committed: nat, r: Reader, net: Net, log: seq<Entry>, n: nat, first: bool, fail: bool)
    requires (r == Parsing || r == Trying) && ReadOk(head, committed, r, net, log) && net.taken + n <= |net.replies|
    ensures ReadOk(head, committed, Delivering(net.replies[net.taken..net.taken + n], first, fail),
                   net.(taken := net.taken + n), log)
  {
  }

  /** The core does not depend on what the reader holds while the race is on. */
  lemma {:induction false} ReaderMoves(s: State, reader: Reader, net: Net, hist: History)
    requires Core(s) && s.worker == Racing && hist == s.hist.(events := hist.events)
    ensures Core(s.(reader := reader, net := net, hist := hist))
  {
  }

  lemma {:induction false} EventsAfterTake(r: Reader, r': Reader, head: nat, replies: seq<int>, hist: History)
    requires !r.Popped? && !r'.Popped? && EventsOk(Racing, r, head, replies, hist)
    ensures EventsOk(Racing, r', head, replies, hist)
  {
  }

  lemma {:induction false} WireAfterTake(s: State, reader: Reader, net: Net)
    requires Wire(s) && s.worker == Racing && net == s.net.(taken := net.taken)
    requires ReadOk(s.ring.head, s.ring.committed, reader, net, s.hist.log)
    ensures Wire(s.(reader := reader, net := net, hist := s.hist))
  {
  }

  /** The reader holds other replies, those after the ones it popped a handle for. */
  lemma {:induction false} HoldsInv(s: State, reader: Reader, net: Net, t: State)
    requires Inv(s) && s.worker == Racing && !s.reader.Popped? && !reader.Popped?
    requires net == s.net.(taken := net.taken) && ReadOk(s.ring.head, s.ring.committed, reader, net, s.hist.log)
    requires t == s.(reader := reader, net := net, hist := s.hist)
    ensures Inv(t)
  {
    ReaderMoves(s, reader, net, s.hist);
    WireAfterTake(s, reader, net);
    EventsAfterTake(s.reader, reader, s.ring.head, s.net.replies, s.hist);
    assert Core(t) && Wire(t) && Resumed(t);
  }

  lemma {:induction false} ReadsNow(s: State)
    requires Inv(s) && (s.reader == Parsing || s.reader == Trying)
    ensures s.worker == Racing && ReadOk(s.ring.head, s.ring.committed, s.reader, s.net, s.hist.log)
  {
  }

  lemma {:induction false} TakeIs(s: State, n: nat, first: bool, fail: bool, values: seq<int>, t: State)
    requires s.net.taken + n <= |s.net.replies| && values == s.net.replies[s.net.taken..s.net.taken + n]
    requires t == s.(reader := Delivering(values, first, fail), net := s.net.(taken := s.net.taken + n), hist := s.hist)
    ensures TakeStep(s, n, first, fail) == t
  {
  }

  lemma {:induction false} TakeInv(s: State, n: nat, first: bool, fail: bool)
    requires Inv(s) && (s.reader == Parsing || s.reader == Trying) && s.net.taken + n <= |s.net.replies|
    ensures Inv(TakeStep(s, n, first, fail))
  {
    var values := s.net.replies[s.net.taken..s.net.taken + n];
    var reader, net := Delivering(values, first, fail), s.net.(taken := s.net.taken + n);
    var t := s.(reader := reader, net := net, hist := s.hist);
    ReadsNow(s);
    ReadAfterTake(s.ring.head, s.ring.committed, s.reader, s.net, s.hist.log, n, first, fail);
    HoldsInv(s, reader, net, t);
    TakeIs(s, n, first, fail, values, t);
    assert Inv(t);
  }

  lemma {:induction false} ReadAfterPop(head: nat, committed: nat, r: Reader, net: Net, log: seq<Entry>, handle: int)
    requires r.Delivering? && r.values != [] && ReadOk(head, committed, r, net, log)
    ensures head < committed
    ensures handle == log[head].handle ==>
              ReadOk(head + 1, committed, Popped(handle, r.values[0], r.values[1..], r.first, r.fail), net, log)
  {
  }

  lemma {:induction false} EventsAfterPop(r: Reader, r': Reader, head: nat, replies: seq<int>, hist: History)
    requires r.Delivering? && r'.Popped? && head < |hist.log|
    requires EventsOk(Racing, r, head, replies, hist)
    ensures EventsOk(Racing, r', head + 1, replies, hist)
  {
  }

  lemma {:induction false} PopCore(s: State)
    requires Core(s) && s.reader.Delivering? && s.reader.values != [] && s.ring.head < s.ring.committed
    ensures s.worker == Racing && Core(PopStep(s, s.reader))
    ensures s.ring.head < |s.hist.log|
    ensures PopStep(s, s.reader).reader.handle == s.hist.log[s.ring.head].handle
  {
    assert Cell(s.ring, s.hist.log, s.ring.head);
    RingMoves(s.ring, PopStep(s, s.reader).ring, s.hist.log);
    ProdsIgnore(s.ring, PopStep(s, s.reader).ring, s.hist.log, s.hist.epoch, s.prods);
  }

  lemma {:induction false} PopInv(s: State)
    requires Inv(s) && s.reader.Delivering? && s.reader.values != []
    ensures Inv(PopStep(s, s.reader))
  {
    assert s.worker == Racing;
    ReadAfterPop(s.ring.head, s.ring.committed, s.reader, s.net, s.hist.log, PopStep(s, s.reader).reader.handle);
    PopCore(s);
    EventsAfterPop(s.reader, PopStep(s, s.reader).reader, s.ring.head, s.net.replies, s.hist);
  }

  lemma {:induction false} EventsAfterResume(r: Reader, r': Reader, head: nat, net: Net, log: seq<Entry>,
                                             committed: nat, hist: History)
    requires r.Popped? && r'.Delivering? && hist.log == log && ReadOk(head, committed, r, net, log)
    requires EventsOk(Racing, r, head, net.replies, hist)
    ensures EventsOk(Racing, r', head, net.replies, hist.(events := hist.events + [Event(r.handle, Reply(r.value))]))
  {
  }

  lemma {:induction false} ResumeInv(s: State)
    requires Inv(s) && s.reader.Popped?
    ensures Inv(ResumeStep(s, s.reader))
  {
    assert s.worker == Racing;
    EventsAfterResume(s.reader, ResumeStep(s, s.reader).reader, s.ring.head, s.net, s.hist.log,
                      s.ring.committed, s.hist);
  }

  lemma {:induction false} EndOfBatchInv(s: State, r: Reader)
    requires Inv(s) && s.reader.Delivering? && s.reader.values == [] && (r == Trying || r == ReaderDown || r == Parsing)
    ensures Inv(s.(reader := r))
  {
  }

  lemma {:induction false} TryingInv(s: State, m: nat, fail: bool)
    requires Inv(s) && s.reader == Trying
    ensures Inv(ReadStep(s, m, fail))
  {
    if s.net.taken <= |s.net.replies| {
      TakeInv(s, Min(Min(m, MAX_IOV), |s.net.replies| - s.net.taken), false, fail);
    }
  }

  lemma {:induction false} DeliveringInv(s: State, m: nat, fail: bool)
    requires Inv(s) && s.reader.Delivering?
    ensures Inv(ReadStep(s, m, fail))
  {
    var r := s.reader;
    if r.values != [] {
      PopInv(s);
    } else {
      EndOfBatchInv(s, if r.first then Trying else if r.fail then ReaderDown else Parsing);
    }
  }

  lemma {:induction false} ReadInv(s: State, m: nat, fail: bool)
    requires Inv(s)
    ensures Inv(ReadStep(s, m, fail))
  {
    match s.reader
    case Parsing => if s.net.taken < |s.net.replies| { TakeInv(s, 1, true, false); }
    case Trying => TryingInv(s, m, fail);
    case Popped(_, _, _, _, _) => ResumeInv(s);
    case Delivering(_, _, _) => DeliveringInv(s, m, fail);
    case ReaderDown =>
  }

  lemma {:induction false} ReaderFailInv(s: State)
    requires Inv(s)
    ensures Inv(ReaderFailStep(s))
  {
  }

  // ---- the worker

  lemma {:induction false} RaceEndInv(s: State, connected: bool)
    requires Inv(s) && s.worker == Racing
    ensures Inv(WorkStep(s, connected))
  {
  }

  lemma {:induction false} SetStopInv(s: State, connected: bool)
    requires Inv(s) && s.worker.Draining?
    ensures Inv(WorkStep(s, connected))
  {
    var ring' := WorkStep(s, connected).ring;
    RingMoves(s.ring, ring', s.hist.log);
    ProdsIgnore(s.ring, ring', s.hist.log, s.hist.epoch, s.prods);
  }

  lemma {:induction false} StartDrainInv(s: State, connected: bool)
    requires Inv(s) && s.worker.SpinDrain?
    ensures Inv(WorkStep(s, connected))
  {
  }

  lemma {:induction false} EventsAfterDrain(w: Worker, w': Worker, head: nat, replies: seq<int>, hist: History)
    requires w.Drain? && w'.Drain? && w'.i == w.i + 1 <= |hist.log|
    requires EventsOk(w, ReaderDown, head, replies, hist)
    ensures EventsOk(w', ReaderDown, head, replies,
                     hist.(events := hist.events + [Event(hist.log[w.i].handle, ConnErr)]))
  {
  }

  lemma {:induction false} DrainOneInv(s: State, connected: bool)
    requires Inv(s) && s.worker.Drain? && s.worker.i != s.worker.last
    ensures Inv(WorkStep(s, connected))
  {
    var i := s.worker.i;
    assert Cell(s.ring, s.hist.log, i);
    var w' := Drain(i + 1, s.worker.last, s.worker.alive);
    EventsAfterDrain(s.worker, w', s.ring.head, s.net.replies, s.hist);
  }

  lemma {:induction false} PastGrows(past: seq<Epoch>, e: Epoch, n: nat)
    requires n <= |past| && PastOk(past) && EpochWf(e)
    ensures PastOk(past + [e]) && PastEvents(past + [e], n) == PastEvents(past, n)
  {
    if n > 0 {
      PastGrows(past, e, n - 1);
    }
  }

  lemma {:induction false} EventsAfterClose(w: Worker, w': Worker, head: nat, replies: seq<int>, hist: History)
    requires w.Drain? && w.i == |hist.log| && head <= |hist.log| && head <= |replies| && Quiet(w')
    requires EventsOk(w, ReaderDown, head, replies, hist)
    ensures EventsOk(w', ReaderDown, head, replies, hist.(past := hist.past + [Epoch(hist.log, replies, head)]))
  {
    PastGrows(hist.past, Epoch(hist.log, replies, head), |hist.past|);
  }

  /** When every allocated position is committed, nobody is between allocation and commit. */
  lemma {:induction false} AllCommitted(ring: Ring, log: seq<Entry>, epoch: nat, prods: seq<Producer>)
    requires AllProdsOk(ring, log, epoch, prods) && ring.tail == ring.alloc
    ensures NoneAllocated(prods)
  {
  }

  lemma {:induction false} DrainEndInv(s: State, connected: bool)
    requires Inv(s) && s.worker.Drain? && s.worker.i == s.worker.last
    ensures Inv(WorkStep(s, connected))
  {
    AllCommitted(s.ring, s.hist.log, s.hist.epoch, s.prods);
    EventsAfterClose(s.worker, WorkStep(s, connected).worker, s.ring.head, s.net.replies, s.hist);
  }

  lemma {:induction false} ResetInv(s: State, connected: bool)
    requires Inv(s) && s.worker in {Drained, Reset1, Reset2, Reset3}
    ensures Inv(WorkStep(s, connected))
  {
  }

  lemma {:induction false} ReopenInv(s: State, connected: bool)
    requires Inv(s) && s.worker == Reset4
    ensures Inv(WorkStep(s, connected))
  {
  }

  lemma {:induction false} ConnectInv(s: State, connected: bool)
    requires Inv(s) && s.worker == Connecting
    ensures Inv(WorkStep(s, connected))
  {
  }

  lemma {:induction false} WorkInv(s: State, connected: bool)
    requires Inv(s)
    ensures Inv(WorkStep(s, connected))
  {
    match s.worker
    case Racing => RaceEndInv(s, connected);
    case Draining(_) => SetStopInv(s, connected);
    case SpinDrain(_, _) => StartDrainInv(s, connected);
    case Drain(i, last, _) => if i != last { DrainOneInv(s, connected); } else { DrainEndInv(s, connected); }
    case Reset4 => ReopenInv(s, connected);
    case Connecting => ConnectInv(s, connected);
    case Dead(_) =>
    case _ => ResetInv(s, connected);
  }

  // ---- all steps

  lemma {:induction false} StartPushInv(s: State, a: nat, batch: seq<Entry>)
    requires Inv(s) && a < |s.prods| && s.prods[a] == Out && BatchOk(batch)
    ensures Inv(SetProd(s, a, WantTail(batch)))
  {
    PlainCore(s, a, WantTail(batch));
  }

  lemma {:induction false} EventWriteInv(s: State)
    requires Inv(s) && s.sig.pending > 0
    ensures Inv(s.(sig := Signals(s.sig.count + 1, s.sig.pending - 1)))
  {
  }

  lemma {:induction false} CloseInv(s: State)
    requires Inv(s)
    ensures Inv(s.(alive := false))
  {
  }

  lemma {:induction false} ProducerSideInv(s: State, a: Action)
    requires Inv(s) && !s.worker.Dead? && (a.StartPush? || a.Produce? || a.EventWrite?)
    ensures Inv(Step(s, a))
  {
    match a
    case StartPush(i, batch) =>
      if i < |s.prods| && s.prods[i] == Out && BatchOk(batch) { StartPushInv(s, i, batch); }
    case Produce(i, spurious) => if i < |s.prods| { ProduceInv(s, i, spurious); }
    case EventWrite => if s.sig.pending > 0 { EventWriteInv(s); }
  }

  lemma {:induction false} WriterSideInv(s: State, a: Action)
    requires Inv(s) && !s.worker.Dead? && (a.Write? || a.Send? || a.WriterFails?)
    ensures Inv(Step(s, a))
  {
    match a
    case Write => WriteInv(s);
    case Send(k) => if s.writer.Sending? && 0 < k <= |Join(s.writer.iov)| { SendInv(s, k); }
    case WriterFails => WriterFailInv(s);
  }

  lemma {:induction false} ServeSideInv(s: State, value: int)
    requires Inv(s)
    ensures Inv(ServeStep(s, value))
  {
    if ServeStep(s, value) != s {
      ServeInv(s, value);
    }
  }

  lemma {:induction false} ReaderSideInv(s: State, a: Action)
    requires Inv(s) && !s.worker.Dead? && (a.Serve? || a.Read? || a.ReaderFails?)
    ensures Inv(Step(s, a))
  {
    match a
    case Serve(value) =>
      ServeSideInv(s, value);
      assert Step(s, a) == ServeStep(s, value);
    case Read(m, fail) =>
      ReadInv(s, m, fail);
      assert Step(s, a) == ReadStep(s, m, fail);
    case ReaderFails =>
      ReaderFailInv(s);
      assert Step(s, a) == ReaderFailStep(s);
  }

  lemma {:induction false} WorkerSideInv(s: State, a: Action)
    requires Inv(s) && !s.worker.Dead? && (a.Work? || a.Close?)
    ensures Inv(Step(s, a))
  {
    match a
    case Work(connected) => WorkInv(s, connected);
    case Close => CloseInv(s);
  }

  lemma {:induction false} StepInv(s: State, a: Action)
    requires Inv(s)
    ensures Inv(Step(s, a))
  {
    if !s.worker.Dead? {
      if a.StartPush? || a.Produce? || a.EventWrite? {
        ProducerSideInv(s, a);
      } else if a.Write? || a.Send? || a.WriterFails? {
        WriterSideInv(s, a);
      } else if a.Serve? || a.Read? || a.ReaderFails? {
        ReaderSideInv(s, a);
      } else {
        WorkerSideInv(s, a);
      }
    }
  }

  lemma {:induction false} RunInv(s: State, actions: seq<Action>)
    requires Inv(s)
    ensures Inv(Run(s, actions))
  {
    if actions != [] {
      RunInv(s, actions[..|actions| - 1]);
      StepInv(Run(s, actions[..|actions| - 1]), actions[|actions| - 1]);
    }
  }
}
