/** The invariant of the request pipeline, kept by every step. */
module PipelineInv {
  import opened WriteBatch
  import opened Pipeline

  // ---- definitions

  predicate Allocated(p: Producer) { p.Writing? || p.Spinning? || p.Committing? }

  /** How many slots of its range an allocated producer has filled. */
  function Written(p: Producer): nat
    requires Allocated(p)
  {
    if p.Writing? then p.i else |p.batch|
  }

  function End(p: Producer): nat
    requires Allocated(p)
  {
    p.t + |p.batch|
  }

  predicate BatchOk(batch: seq<Entry>) {
    batch != [] && forall e :: e in batch ==> e.payload != ""
  }

  /** Position q's slot holds the entry accepted for q. */
  predicate Cell(ring: Ring, log: seq<Entry>, q: nat) {
    |ring.slots| > 0 && q < |log| && ring.slots[Slot(q, |ring.slots|)] == log[q]
  }

  /** No live slot is overwritten: the positions from `head` to `tail` hold the accepted entries. */
  ghost predicate RingOk(ring: Ring, log: seq<Entry>) {
    && |ring.slots| > 0
    && ring.head <= ring.committed <= ring.tail <= ring.alloc <= ring.head + |ring.slots|
    && ring.alloc == |log| < STOP_BIT
    && (forall q :: ring.head <= q < ring.tail ==> Cell(ring, log, q))
    && (forall q :: 0 <= q < |log| ==> log[q].payload != "")
  }

  ghost predicate AllocOk(ring: Ring, log: seq<Entry>, p: Producer)
    requires Allocated(p)
  {
    && ring.tail <= p.t && End(p) <= ring.alloc == |log|
    && log[p.t..End(p)] == p.batch
    && (p.Writing? ==> p.i < |p.batch|)
    && (p.Committing? ==> p.t == ring.tail)
    && (forall q :: p.t <= q < p.t + Written(p) ==> Cell(ring, log, q))
  }

  ghost predicate ProdOk(ring: Ring, log: seq<Entry>, epoch: nat, p: Producer) {
    match p
    case Out => true
    case Signalling => true
    case WantTail(batch) => BatchOk(batch)
    case WantHead(t, _, e, batch) => BatchOk(batch) && e <= epoch && (e == epoch ==> t <= ring.alloc)
    case WantSwap(t, h, e, batch) =>
      BatchOk(batch) && e <= epoch
      && (e == epoch && !ring.stop ==> h <= ring.head && !SeemsFull(t, h, |ring.slots|))
    case _ => BatchOk(p.batch) && AllocOk(ring, log, p)
  }

  predicate Disjoint(p: Producer, p': Producer) {
    Allocated(p) && Allocated(p') ==> End(p) <= p'.t || End(p') <= p.t
  }

  predicate Covers(p: Producer, q: nat) { Allocated(p) && p.t <= q < End(p) }

  ghost predicate Covered(prods: seq<Producer>, q: nat) {
    exists a :: 0 <= a < |prods| && Covers(prods[a], q)
  }

  /** The producers between allocation and commit own the positions from `tail` to `alloc`. */
  ghost predicate RangesOk(tail: nat, alloc: nat, prods: seq<Producer>) {
    && (forall a, b :: 0 <= a < b < |prods| ==> Disjoint(prods[a], prods[b]))
    && (forall q :: tail <= q < alloc ==> Covered(prods, q))
  }

  function Unsent(w: Writer): seq<string> {
    match w
    case Sending(iov) => iov
    case WriterDown(rest) => rest
    case _ => []
  }

  /** The socket accepted the committed payloads in ring order, up to what is still unsent. */
  ghost predicate SendOk(committed: nat, writer: Writer, wire: string, log: seq<Entry>) {
    && committed <= |log|
    && wire + Join(Unsent(writer)) == Bytes(log, committed)
    && (writer.Sending? ==> Join(writer.iov) != "")
  }

  function Undelivered(r: Reader): seq<int> {
    match r
    case Delivering(values, _, _) => values
    case Popped(_, _, values, _, _) => values
    case _ => []
  }

  /** The reader holds the replies after those it popped a handle for, in order. */
  ghost predicate ReadOk(head: nat, committed: nat, reader: Reader, net: Net, log: seq<Entry>) {
    && net.taken <= |net.replies| <= committed <= |log|
    && net.taken == head + |Undelivered(reader)|
    && Undelivered(reader) == net.replies[head..net.taken]
    && (reader.Popped? ==>
          head >= 1 && reader.handle == log[head - 1].handle && reader.value == net.replies[head - 1])
  }

  predicate Pending(sig: Signals, prods: seq<Producer>) {
    sig.count > 0 || sig.pending > 0 || Signalling in prods
  }

  /** No lost wakeup. */
  ghost predicate SignalOk(
      writer: Writer, worker: Worker, committed: nat, tail: nat, sig: Signals, prods: seq<Producer>) {
    (writer == Waiting || worker == Connecting) && committed < tail ==> Pending(sig, prods)
  }

  /** The entries of the first n batches of a list, in order. */
  function Entries(batches: seq<Batch>, n: nat): seq<Entry>
    requires n <= |batches|
  {
    if n == 0 then [] else Entries(batches, n - 1) + batches[n - 1].entries
  }

  /** The log is the accepted batches in the order of allocation, each at its own position. */
  ghost predicate BatchesOk(batches: seq<Batch>, log: seq<Entry>) {
    && log == Entries(batches, |batches|)
    && forall k :: 0 <= k < |batches| ==>
         var b := batches[k];
         b.t + |b.entries| <= |log| && log[b.t..b.t + |b.entries|] == b.entries
  }

  /** Only fully received requests were answered. */
  ghost predicate ServedOk(net: Net, log: seq<Entry>) {
    |net.replies| <= |log| && |Bytes(log, |net.replies|)| <= |net.wire|
  }

  // events

  /** Entries 0 .. n of the epoch, each answered with the reply of the same index. */
  function ReplyEvents(log: seq<Entry>, replies: seq<int>, n: nat): (es: seq<Event>)
    requires n <= |log| && n <= |replies|
    ensures |es| == n
  {
    seq(n, k requires 0 <= k < n => Event(log[k].handle, Reply(replies[k])))
  }

  /** Entries lo .. hi of the epoch, each answered with a connection error. */
  function ErrEvents(log: seq<Entry>, lo: nat, hi: nat): (es: seq<Event>)
    requires lo <= hi <= |log|
    ensures |es| == hi - lo
  {
    seq(hi - lo, k requires 0 <= k < hi - lo => Event(log[lo + k].handle, ConnErr))
  }

  predicate EpochWf(e: Epoch) { e.popped <= |e.log| && e.popped <= |e.replies| }

  /** What must happen to the entries of an epoch that has ended. */
  function EpochEvents(e: Epoch): (es: seq<Event>)
    requires EpochWf(e)
    ensures |es| == |e.log|
  {
    ReplyEvents(e.log, e.replies, e.popped) + ErrEvents(e.log, e.popped, |e.log|)
  }

  ghost predicate PastOk(past: seq<Epoch>) {
    forall k :: 0 <= k < |past| ==> EpochWf(past[k])
  }

  /** The events of the first n ended epochs. */
  ghost function PastEvents(past: seq<Epoch>, n: nat): seq<Event>
    requires n <= |past| && PastOk(past)
  {
    if n == 0 then [] else PastEvents(past, n - 1) + EpochEvents(past[n - 1])
  }

  /** A pop that has not been followed by its resume yet does not count as delivered. */
  function Delivered(head: nat, reader: Reader): int {
    head - (if reader.Popped? then 1 else 0)
  }

  function DrainedUpTo(head: nat, worker: Worker): int {
    if worker.Drain? then worker.i else head
  }

  predicate Quiet(w: Worker) {
    w == Drained || w == Reset1 || w == Reset2 || w == Reset3 || w == Reset4 || w == Dead(true)
  }

  /** What must have happened to the entries of the current epoch so far. */
  function CurrentEvents(log: seq<Entry>, replies: seq<int>, delivered: nat, head: nat, drained: nat): seq<Event>
    requires delivered <= |log| && delivered <= |replies| && head <= drained <= |log|
  {
    ReplyEvents(log, replies, delivered) + ErrEvents(log, head, drained)
  }

  ghost predicate EventsOk(worker: Worker, reader: Reader, head: nat, replies: seq<int>, hist: History) {
    var delivered, drained := Delivered(head, reader), DrainedUpTo(head, worker);
    && PastOk(hist.past)
    && if Quiet(worker) then hist.events == PastEvents(hist.past, |hist.past|)
       else
         && 0 <= delivered <= |hist.log| && delivered <= |replies|
         && head <= drained <= |hist.log|
         && hist.events
              == PastEvents(hist.past, |hist.past|) + CurrentEvents(hist.log, replies, delivered, head, drained)
  }

  ghost predicate NoneAllocated(prods: seq<Producer>) {
    forall a :: 0 <= a < |prods| ==> !Allocated(prods[a])
  }

  // phases of the worker

  /** Reader and writer run only while the worker waits for their race to end. */
  ghost predicate PhaseOk(worker: Worker, writer: Writer, reader: Reader) {
    && (worker != Racing ==> writer.WriterDown? && reader == ReaderDown)
    && (worker == Connecting ==> writer == WriterDown([]))
  }

  ghost predicate StopOk(worker: Worker, stop: bool, head: nat, committed: nat, tail: nat, alloc: nat) {
    match worker
    case Racing => !stop
    case Draining(_) => !stop
    case Connecting => !stop
    case Dead(drained) => stop == drained
    case SpinDrain(last, _) => stop && last == alloc
    case Drain(i, last, _) => stop && last == alloc == tail && head <= i <= last
    case Reset2 => stop && head == 0
    case Reset3 => stop && head == committed == 0
    case Reset4 => stop && head == committed == tail == 0
    case _ => stop
  }

  ghost predicate AllProdsOk(ring: Ring, log: seq<Entry>, epoch: nat, prods: seq<Producer>) {
    forall a :: 0 <= a < |prods| ==> ProdOk(ring, log, epoch, prods[a])
  }

  /** The ring and its producers. */
  ghost predicate Core(s: State) {
    && |s.ring.slots| > 0
    && PhaseOk(s.worker, s.writer, s.reader)
    && StopOk(s.worker, s.ring.stop, s.ring.head, s.ring.committed, s.ring.tail, s.ring.alloc)
    && AllProdsOk(s.ring, s.hist.log, s.hist.epoch, s.prods)
    && if Quiet(s.worker) then NoneAllocated(s.prods) && s.ring.head <= s.ring.alloc < STOP_BIT
       else
         && RingOk(s.ring, s.hist.log)
         && RangesOk(s.ring.tail, s.ring.alloc, s.prods)
         && SignalOk(s.writer, s.worker, s.ring.committed, s.ring.tail, s.sig, s.prods)
         && BatchesOk(s.hist.batches, s.hist.log)
  }

  /** The connection: bytes out, replies in. */
  ghost predicate WireOk(head: nat, committed: nat, writer: Writer, reader: Reader, net: Net, log: seq<Entry>) {
    && SendOk(committed, writer, net.wire, log)
    && ReadOk(head, committed, reader, net, log)
    && ServedOk(net, log)
  }

  ghost predicate Wire(s: State) {
    Quiet(s.worker) || WireOk(s.ring.head, s.ring.committed, s.writer, s.reader, s.net, s.hist.log)
  }

  /** The resumptions. */
  ghost predicate Resumed(s: State) {
    EventsOk(s.worker, s.reader, s.ring.head, s.net.replies, s.hist)
  }

  ghost predicate Inv(s: State) { Core(s) && Wire(s) && Resumed(s) }

  lemma {:induction false} InitInv(cap: nat, m: nat)
    requires cap > 0
    ensures Inv(Init(cap, m))
  {
  }

  // ---- arithmetic of slots

  lemma {:induction false} MulStep(x: nat, y: nat, c: nat)
    requires x < y
    ensures x * c + c <= y * c
  {
    if x + 1 < y {
      MulStep(x, y - 1, c);
    }
    assert y * c == (y - 1) * c + c;
  }

  lemma {:induction false} ModUnique(x: nat, q: nat, r: nat, c: nat)
    requires r < c && x == q * c + r
    ensures x % c == r
  {
    var q' := x / c;
    assert x == q' * c + x % c;
    if q < q' {
      MulStep(q, q', c);
    } else if q' < q {
      MulStep(q', q, c);
    }
  }

  lemma {:induction false} SlotIsModulo(p: nat, cap: nat)
    requires cap > 0
    ensures Slot(p, cap) == p % cap
  {
    if p < cap {
      ModUnique(p, 0, p, cap);
    } else {
      SlotIsModulo(p - cap, cap);
      var q := (p - cap) / cap;
      assert p == (q + 1) * cap + (p - cap) % cap;
      ModUnique(p, q + 1, (p - cap) % cap, cap);
    }
  }

  lemma {:induction false} SlotsDistinct(q: nat, r: nat, cap: nat)
    requires cap > 0 && q < r < q + cap
    ensures Slot(q, cap) != Slot(r, cap)
  {
    if q >= cap {
      SlotsDistinct(q - cap, r - cap, cap);
    }
  }

  /** A push that passed the unsigned test had a free slot. */
  lemma {:induction false} SeemsFullIff(t: nat, h: nat, cap: nat)
    requires t < STOP_BIT && h < STOP_BIT && cap <= STOP_BIT
    ensures !SeemsFull(t, h, cap) <==> h <= t < h + cap
  {
  }
}
