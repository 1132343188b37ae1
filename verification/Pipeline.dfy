/**
 The request pipeline of one connection: any number of producers push into the shared ring, a
 writer sends the ring's payloads, a reader pops one handle per reply, and a worker drains,
 resets and reconnects when both have stopped. Every atomic operation of the ring, every plain
 slot access and every I/O result is one step of a state machine; an `Action` names the next
 step, so a list of actions is an interleaving.

 A ring position is a natural number below 2^63, and bit 63 of `tail_allocated` is `stop`.
 */
module Pipeline {
  import opened Common
  import opened WriteBatch

  datatype Entry = Entry(handle: int, payload: string)

  datatype Ring = Ring(
    head: nat, committed: nat, alloc: nat, stop: bool, tail: nat, slots: seq<Entry>)

  datatype Producer =
    | Out
    | WantTail(batch: seq<Entry>)
    | WantHead(t: nat, stop: bool, epoch: nat, batch: seq<Entry>)
    | WantSwap(t: nat, h: nat, epoch: nat, batch: seq<Entry>)
    | Writing(t: nat, i: nat, batch: seq<Entry>)
    | Spinning(t: nat, batch: seq<Entry>)
    | Committing(t: nat, batch: seq<Entry>)
    | Signalling

  datatype Writer =
    | Waiting                        // in the read of the event counter
    | Preparing
    | Sending(iov: seq<string>)
    | WriterDown(rest: seq<string>)  // history: what was left of the last batch

  datatype Reader =
    | Parsing
    | Delivering(values: seq<int>, first: bool, fail: bool)
    | Popped(handle: int, value: int, values: seq<int>, first: bool, fail: bool)
    | Trying
    | ReaderDown

  datatype Worker =
    | Racing                      // waits for the race of reader and writer
    | Draining(alive: bool)       // has read `alive`
    | SpinDrain(last: nat, alive: bool)
    | Drain(i: nat, last: nat, alive: bool)
    | Drained
    | Reset1
    | Reset2
    | Reset3
    | Reset4
    | Connecting
    | Dead(drained: bool)

  /** The connection: bytes the socket accepted, replies the server sent, replies read. */
  datatype Net = Net(wire: string, replies: seq<int>, taken: nat)

  /** The event counter, and the writes to it that were submitted but not yet performed. */
  datatype Signals = Signals(count: nat, pending: nat)

  datatype Answer = Reply(value: int) | ConnErr

  /** A handle is resumed with an answer. */
  datatype Event = Event(handle: int, answer: Answer)

  datatype Batch = Batch(t: nat, entries: seq<Entry>)

  /** One connection epoch that ended: the accepted entries, the replies, how many were popped. */
  datatype Epoch = Epoch(log: seq<Entry>, replies: seq<int>, popped: nat)

  /** History: the entries accepted in this epoch, in the order of allocation, the batches they
      came in, the earlier epochs, and every resumption so far. */
  datatype History = History(
    epoch: nat, log: seq<Entry>, batches: seq<Batch>, past: seq<Epoch>, events: seq<Event>)

  datatype State = State(
    ring: Ring, prods: seq<Producer>, writer: Writer, reader: Reader, worker: Worker,
    net: Net, sig: Signals, alive: bool, hist: History)

  datatype Action =
    | StartPush(a: nat, batch: seq<Entry>)
    | Produce(a: nat, spurious: bool)    // producer a's next step
    | EventWrite                         // the kernel performs a submitted counter write
    | Write                              // the writer's next step that cannot fail
    | Send(k: nat)                       // `writev` accepts k bytes
    | WriterFails
    | Serve(value: int)                  // the server answers its next request
    | Read(m: nat, fail: bool)           // the reader's next step; up to m values in a try
    | ReaderFails
    | Work(connected: bool)              // the worker's next step
    | Close

  const MAX_IOV: nat := 64
  const STOP_BIT: int := 0x8000_0000_0000_0000

  /** The slot of a ring position: `p & (capacity - 1)`, which is `p % capacity`. */
  function Slot(p: nat, cap: nat): (i: nat)
    requires cap > 0
    ensures i < cap
  {
    if p < cap then p else Slot(p - cap, cap)
  }

  function Init(cap: nat, m: nat): State
    requires cap > 0
  {
    State(Ring(0, 0, 0, false, 0, seq(cap, _ => Entry(0, ""))), seq(m, _ => Out), Waiting, Parsing,
          Racing, Net("", [], 0), Signals(0, 0), true, History(0, [], [], [], []))
  }

  // ---- producers

  /** The unsigned test `t_alloc - head >= xcapacity`. */
  predicate SeemsFull(t: nat, h: nat, cap: nat) {
    (t - h) % 0x1_0000_0000_0000_0000 >= cap
  }

  function SetProd(s: State, a: nat, p: Producer): State
    requires a < |s.prods|
  {
    s.(prods := s.prods[a := p])
  }

  /** The allocating compare-and-swap succeeds. Premises: no push that loaded the tail before a
      reset swaps after it (`epoch`), a batch fits into the free slots, and positions stay
      below 2^63. */
  predicate SwapSucceeds(s: State, t: nat, epoch: nat, batch: seq<Entry>) {
    && !s.ring.stop && s.ring.alloc == t && epoch == s.hist.epoch
    && t + |batch| <= s.ring.head + |s.ring.slots|
    && t + |batch| < STOP_BIT
  }

  function SwapStep(s: State, a: nat, p: Producer): State
    requires a < |s.prods| && p.WantSwap?
  {
    var n := |p.batch|;
    SetProd(s, a, Writing(p.t, 0, p.batch)).(
      ring := s.ring.(alloc := p.t + n),
      hist := s.hist.(log := s.hist.log + p.batch, batches := s.hist.batches + [Batch(p.t, p.batch)]))
  }

  function WriteSlotStep(s: State, a: nat, p: Producer): State
    requires a < |s.prods| && p.Writing? && p.i < |p.batch| && |s.ring.slots| > 0
  {
    var idx := Slot(p.t + p.i, |s.ring.slots|);
    SetProd(s, a, if p.i + 1 == |p.batch| then Spinning(p.t, p.batch) else Writing(p.t, p.i + 1, p.batch)).(
      ring := s.ring.(slots := s.ring.slots[idx := p.batch[p.i]]))
  }

  /** `tail` reaches this push's position: its entries become visible to the writer. */
  function CommitStep(s: State, a: nat, p: Producer): State
    requires a < |s.prods| && p.Committing?
  {
    SetProd(s, a, Signalling).(ring := s.ring.(tail := p.t + |p.batch|))
  }

  function SignalStep(s: State, a: nat): State
    requires a < |s.prods|
  {
    SetProd(s, a, Out).(sig := s.sig.(pending := s.sig.pending + 1))
  }

  /** Before the allocation: load the tail, load the head, decide, swap or start again. A refused
      push returns -2 or -1; its caller answers it without the ring. */
  function AllocateStep(s: State, a: nat, spurious: bool): State
    requires a < |s.prods|
  {
    match s.prods[a]
    case WantTail(batch) => SetProd(s, a, WantHead(s.ring.alloc, s.ring.stop, s.hist.epoch, batch))
    case WantHead(t, stop, epoch, batch) =>
      if stop || SeemsFull(t, s.ring.head, |s.ring.slots|) then SetProd(s, a, Out)
      else SetProd(s, a, WantSwap(t, s.ring.head, epoch, batch))
    case WantSwap(t, h, epoch, batch) =>
      if !spurious && SwapSucceeds(s, t, epoch, batch) then SwapStep(s, a, s.prods[a])
      else SetProd(s, a, WantTail(batch))
    case _ => s
  }

  function ProduceStep(s: State, a: nat, spurious: bool): State
    requires a < |s.prods| && |s.ring.slots| > 0
  {
    match s.prods[a]
    case Writing(_, i, batch) => if i < |batch| then WriteSlotStep(s, a, s.prods[a]) else s
    case Spinning(t, batch) => if s.ring.tail == t then SetProd(s, a, Committing(t, batch)) else s
    case Committing(_, _) => CommitStep(s, a, s.prods[a])
    case Signalling => SignalStep(s, a)
    case _ => AllocateStep(s, a, spurious)
  }

  // ---- writer

  /** The payloads of the ring positions `lo .. hi`, read from the slots. */
  function SlotPayloads(ring: Ring, lo: nat, hi: nat): seq<string>
    requires lo <= hi && |ring.slots| > 0
  {
    if lo == hi then [] else SlotPayloads(ring, lo, hi - 1) + [ring.slots[Slot(hi - 1, |ring.slots|)].payload]
  }

  /** `prep_writev`: claim up to 64 committed entries and point the iovecs at their payloads. */
  function PrepareStep(s: State): State
    requires |s.ring.slots| > 0
  {
    var start := s.ring.committed;
    var n := if s.ring.tail < start then 0 else Min(s.ring.tail - start, MAX_IOV);
    var iov := SlotPayloads(s.ring, start, start + n);
    s.(ring := s.ring.(committed := start + n),
       writer := if Join(iov) == "" then Waiting else Sending(iov))
  }

  function WriteStep(s: State): State
    requires |s.ring.slots| > 0
  {
    match s.writer
    case Waiting => if s.sig.count > 0 then s.(sig := s.sig.(count := 0), writer := Preparing) else s
    case Preparing => PrepareStep(s)
    case _ => s
  }

  function SendStep(s: State, k: nat): State {
    if s.writer.Sending? && 0 < k <= |Join(s.writer.iov)| then
      var bytes := Join(s.writer.iov);
      s.(net := s.net.(wire := s.net.wire + bytes[..k]),
         writer := if k == |bytes| then Preparing else Sending(Advance(s.writer.iov, k)))
    else s
  }

  function WriterFailStep(s: State): State {
    match s.writer
    case Waiting => s.(writer := WriterDown([]))
    case Sending(iov) => s.(writer := WriterDown(iov))
    case _ => s
  }

  // ---- server and reader

  /** The bytes of the first n entries of a list. */
  function Bytes(log: seq<Entry>, n: nat): string
    requires n <= |log|
  {
    if n == 0 then "" else Bytes(log, n - 1) + log[n - 1].payload
  }

  /** The server answers a request once it was fully received, in order. */
  function ServeStep(s: State, value: int): State {
    var k := |s.net.replies|;
    if s.worker == Racing && k < |s.hist.log| && |Bytes(s.hist.log, k + 1)| <= |s.net.wire|
    then s.(net := s.net.(replies := s.net.replies + [value]))
    else s
  }

  /** The reader takes n replies off the connection. */
  function TakeStep(s: State, n: nat, first: bool, fail: bool): State
    requires s.net.taken + n <= |s.net.replies|
  {
    s.(reader := Delivering(s.net.replies[s.net.taken..s.net.taken + n], first, fail),
       net := s.net.(taken := s.net.taken + n))
  }

  /** It pops the ring for the next of them. */
  function PopStep(s: State, r: Reader): State
    requires |s.ring.slots| > 0 && r.Delivering? && r.values != []
  {
    s.(reader := Popped(s.ring.slots[Slot(s.ring.head, |s.ring.slots|)].handle,
                        r.values[0], r.values[1..], r.first, r.fail),
       ring := s.ring.(head := s.ring.head + 1))
  }

  /** It resumes the popped handle with the reply. */
  function ResumeStep(s: State, r: Reader): State
    requires r.Popped?
  {
    s.(reader := Delivering(r.values, r.first, r.fail),
       hist := s.hist.(events := s.hist.events + [Event(r.handle, Reply(r.value))]))
  }

  function ReadStep(s: State, m: nat, fail: bool): State
    requires |s.ring.slots| > 0
  {
    match s.reader
    case Parsing => if s.net.taken < |s.net.replies| then TakeStep(s, 1, true, false) else s
    case Delivering(values, first, fail') =>
      if values != [] then PopStep(s, s.reader)
      else s.(reader := if first then Trying else if fail' then ReaderDown else Parsing)
    case Popped(_, _, _, _, _) => ResumeStep(s, s.reader)
    case Trying =>
      if s.net.taken <= |s.net.replies|
      then TakeStep(s, Min(Min(m, MAX_IOV), |s.net.replies| - s.net.taken), false, fail)
      else s
    case ReaderDown => s
  }

  function ReaderFailStep(s: State): State {
    if s.reader == Parsing then s.(reader := ReaderDown) else s
  }

  // ---- worker

  function CloseEpoch(s: State): History {
    s.hist.(past := s.hist.past + [Epoch(s.hist.log, s.net.replies, s.ring.head)])
  }

  /** One step of the worker. The race of reader and writer ends when both have finished. */
  function WorkStep(s: State, connected: bool): State
    requires |s.ring.slots| > 0
  {
    match s.worker
    case Racing =>
      if s.writer.WriterDown? && s.reader == ReaderDown then s.(worker := Draining(s.alive)) else s
    case Draining(alive) =>
      s.(ring := s.ring.(stop := true), worker := SpinDrain(s.ring.alloc, alive))
    case SpinDrain(last, alive) =>
      if s.ring.tail == last then s.(worker := Drain(s.ring.head, last, alive)) else s
    case Drain(i, last, alive) =>
      if i != last then
        s.(worker := Drain(i + 1, last, alive),
           hist := s.hist.(events := s.hist.events +
             [Event(s.ring.slots[Slot(i, |s.ring.slots|)].handle, ConnErr)]))
      else s.(worker := if alive then Drained else Dead(true), hist := CloseEpoch(s))
    case Drained => s.(sig := s.sig.(count := 0), worker := Reset1)
    case Reset1 => s.(ring := s.ring.(head := 0), worker := Reset2)
    case Reset2 => s.(ring := s.ring.(committed := 0), worker := Reset3)
    case Reset3 => s.(ring := s.ring.(tail := 0), worker := Reset4)
    case Reset4 =>
      s.(ring := s.ring.(alloc := 0, stop := false), worker := Connecting,
         writer := WriterDown([]), net := Net("", [], 0),
         hist := s.hist.(epoch := s.hist.epoch + 1, log := [], batches := []))
    case Connecting =>
      if connected then
        if s.alive then s.(worker := Racing, writer := Waiting, reader := Parsing)
        else s.(worker := Dead(false))
      else if !s.alive then s.(worker := Dead(false))
      else s
    case Dead(_) => s
  }

  /** The pipe is deleted when the worker is dead; nothing happens to it afterwards. */
  function Step(s: State, a: Action): (s': State)
    requires |s.ring.slots| > 0
    ensures |s'.ring.slots| == |s.ring.slots| && |s'.prods| == |s.prods|
  {
    if s.worker.Dead? then s else
    match a
    case StartPush(i, batch) =>
      if i < |s.prods| && s.prods[i] == Out && batch != [] && (forall e :: e in batch ==> e.payload != "")
      then SetProd(s, i, WantTail(batch)) else s
    case Produce(i, spurious) => if i < |s.prods| then ProduceStep(s, i, spurious) else s
    case EventWrite =>
      if s.sig.pending > 0 then s.(sig := Signals(s.sig.count + 1, s.sig.pending - 1)) else s
    case Write => WriteStep(s)
    case Send(k) => SendStep(s, k)
    case WriterFails => WriterFailStep(s)
    case Serve(value) => ServeStep(s, value)
    case Read(m, fail) => ReadStep(s, m, fail)
    case ReaderFails => ReaderFailStep(s)
    case Work(connected) => WorkStep(s, connected)
    case Close => s.(alive := false)
  }

  function Run(s: State, actions: seq<Action>): (s': State)
    requires |s.ring.slots| > 0
    ensures |s'.ring.slots| == |s.ring.slots| && |s'.prods| == |s.prods|
  {
    if actions == [] then s
    else Step(Run(s, actions[..|actions| - 1]), actions[|actions| - 1])
  }
}
