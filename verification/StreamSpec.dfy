/**
 What the callers of the stream parser get, told without buffer, cursor or a recursion that stops
 and goes on: after every read the one-shot parser is asked again, from the start of the frame.
 */
module StreamSpec {
  import opened Common
  import opened Resp

  /** What one read from the socket gives: some bytes, the end of the stream, or an error. */
  datatype Recv = Data(bytes: string) | Closed | Fail(err: int)

  const EAGAIN: int := 11

  predicate Delivers(r: Recv) {
    (r.Data? ==> r.bytes != "") && (r.Fail? ==> r.err != 0)
  }

  /** What a socket gives to one read after the other. */
  datatype Reads = Nothing | Reads(first: Recv, rest: Reads)

  predicate Sound(source: Reads) { source.Reads? ==> Delivers(source.first) && Sound(source.rest) }

  function Size(r: Recv): nat { if r.Data? then |r.bytes| else 0 }

  /** The most bytes that come in one read. */
  function Longest(source: Reads): nat {
    match source
    case Nothing => 0
    case Reads(first, rest) => if Size(first) > Longest(rest) then Size(first) else Longest(rest)
  }

  /** Why a call ended. */
  datatype Stop =
    | Ready                 // it has what it was made for
    | Malformed(err: int)
    | Empty                 // the socket has nothing to read
    | Hangup(err: int)      // the socket is closed or has failed
    | TooLong               // a read that came while a line was incomplete did not fit

  function Code(stop: Stop): int {
    match stop
    case Ready => 0
    case Malformed(e) => e
    case Empty => EAGAIN
    case Hangup(e) => e
    case TooLong => EOVERFLOW
  }

  /** The bytes received so far, and what the socket is going to give. */
  datatype Wire = Wire(received: string, source: Reads)

  /** How a call reads: waiting or not, with a buffer that holds the bytes from `base` on. */
  datatype Mode = Mode(await: bool, base: nat, limit: nat)

  datatype Pulled = Pulled(stop: Stop, wire: Wire)

  /** A call that waits is not resumed by a socket that has nothing to read. */
  function Skip(await: bool, source: Reads): (rest: Reads)
    ensures rest == source || rest < source
  {
    if await && source.Reads? && source.first == Fail(EAGAIN) then Skip(await, source.rest) else source
  }

  /** One read. When `source` ends nothing more comes: a call that waits stays suspended. */
  function Take(mode: Mode, line: bool, w: Wire): (out: Pulled)
    ensures out.stop.Ready? ==> out.wire.source < w.source
  {
    match Skip(mode.await, w.source)
    case Nothing => Pulled(Empty, Wire(w.received, Nothing))
    case Reads(first, rest) =>
      match first
      case Fail(e) => Pulled(if e == EAGAIN then Empty else Hangup(e), Wire(w.received, rest))
      case Closed => Pulled(Hangup(ECONNRESET), Wire(w.received, rest))
      case Data(bytes) =>
        if line && |w.received| - mode.base + |bytes| >= mode.limit then Pulled(TooLong, Wire(w.received, rest))
        else Pulled(Ready, Wire(w.received + bytes, rest))
  }

  /** Reads until what is needed can be decided. */
  function Pull<T>(need: string -> Result<T>, mode: Mode, w: Wire): Pulled
    decreases w.source
  {
    match need(w.received)
    case Ok(_, _) => Pulled(Ready, w)
    case Bad(e) => Pulled(Malformed(e), w)
    case More(line) =>
      var out := Take(mode, line, w);
      if out.stop.Ready? then Pull(need, mode, out.wire) else out
  }

  // ---- what the methods of the parser need

  function LineAt(p: nat): string -> Result<string> {
    (s: string) => if p <= |s| then ReadLine(s, p) else More(true)
  }

  function BulkAt(cfg: Config, p: nat, n: nat): string -> Result<string> {
    (s: string) => if p <= |s| then ReadBulk(cfg, s, p, n) else More(true)
  }

  /** The frame that starts at p. */
  function FrameAt(cfg: Config, p: nat): string -> Result<Value> {
    (s: string) => if p <= |s| then Parse(cfg, s, p) else More(true)
  }

  /** A frame whose first line ends at q. */
  function BodyAt(cfg: Config, ch: char, text: string, q: nat): string -> Result<Value> {
    (s: string) => if q <= |s| then Frame(cfg, Parser(cfg, s, q), s, ch, text, q) else More(true)
  }

  /** The frame at `here`, in a run of frames that starts at q. */
  function ElementAt(cfg: Config, q: nat, here: nat): string -> Result<Value> {
    (s: string) => if q <= |s| then Parser(cfg, s, q)(here) else More(true)
  }

  /** n frames from q on. */
  function RunAt(cfg: Config, q: nat, n: nat): string -> Result<seq<Value>> {
    (s: string) => if q <= |s| then Repeat(Parser(cfg, s, q), q, n) else More(true)
  }

  /** The entry at `here` of a map whose entries start at q. */
  function EntryAt(cfg: Config, q: nat, here: nat): string -> Result<Pair> {
    (s: string) => if q <= |s| then ReadPair(Parser(cfg, s, q), here) else More(true)
  }

  function EntriesFrom(cfg: Config, q: nat, n: nat): string -> Result<seq<Pair>> {
    (s: string) => if q <= |s| then Repeat(Pairs(Parser(cfg, s, q)), q, n) else More(true)
  }

  function PairedAt(cfg: Config, ch: char, q: nat, n: nat): string -> Result<Value> {
    (s: string) =>
      if q <= |s| then Paired(ch, Repeat(Pairs(Parser(cfg, s, q)), q, n), Parser(cfg, s, q)) else More(true)
  }

  /** A way to read frames: what stands at each position of a stream; and the limit of the buffer. */
  datatype Grammar = Grammar(frames: string -> nat -> Result<Value>, limit: nat)

  /** The frames of the protocol, in a stream that is read from its start. */
  function RespGrammar(cfg: Config): Grammar {
    Grammar((s: string) => Parser(cfg, s, 0), cfg.maxBulk)
  }

  /** The frame at `here`. */
  function NextAt(g: Grammar, here: nat): string -> Result<Value> {
    (s: string) => g.frames(s)(here)
  }

  // ---- calls and sessions

  datatype Call = Await | Try(n: nat)

  /** What a call gives: its values, why it ended, the socket, where the buffer starts then, and
      where the next frame starts. */
  datatype Given = Given(values: seq<Value>, stop: Stop, wire: Wire, base: nat, next: nat)

  function One(g: Grammar, w: Wire, base: nat): Given {
    var out := Pull(NextAt(g, base), Mode(true, base, g.limit), w);
    match NextAt(g, base)(out.wire.received)
    case Ok(v, next) => Given([v], Ready, out.wire, next, next)
    case _ => Given([], out.stop, out.wire, base, base)
  }

  /** Up to n frames from `here` on, after these; the buffer is not emptied before the last. */
  function Several(g: Grammar, w: Wire, base: nat, here: nat, n: nat, values: seq<Value>): Given
    decreases n
  {
    if n == 0 then Given(values, Ready, w, here, here)
    else
      var out := Pull(NextAt(g, here), Mode(false, base, g.limit), w);
      match NextAt(g, here)(out.wire.received)
      case Ok(v, next) => Several(g, out.wire, base, next, n - 1, values + [v])
      case _ =>
        if Code(out.stop) == EAGAIN then Given(values, Ready, out.wire, here, here)
        else Given(values, out.stop, out.wire, base, here)
  }

  function Do(g: Grammar, w: Wire, base: nat, call: Call): Given {
    match call
    case Await => One(g, w, base)
    case Try(n) => Several(g, w, base, base, n, [])
  }

  /** What each of a list of calls gave, up to the first that failed. */
  datatype Outcome = Outcome(got: seq<seq<Value>>, stop: Stop, wire: Wire, base: nat, next: nat)

  /** The calls of a list after those that have given `got`. */
  function Session(g: Grammar, w: Wire, base: nat, calls: seq<Call>, got: seq<seq<Value>>): Outcome
    requires |got| <= |calls|
    decreases |calls| - |got|
  {
    if |got| == |calls| then Outcome(got, Ready, w, base, base)
    else
      var out := Do(g, w, base, calls[|got|]);
      if out.stop.Ready? then Session(g, out.wire, out.base, calls, got + [out.values])
      else Outcome(got + [out.values], out.stop, out.wire, out.base, out.next)
  }

  /** All calls of a list, on a new connection. */
  function Transcript(g: Grammar, source: Reads, calls: seq<Call>): Outcome {
    Session(g, Wire("", source), 0, calls, [])
  }

  /** All values, in the order in which the calls gave them. */
  function Flat(got: seq<seq<Value>>): seq<Value> {
    if got == [] then [] else Flat(got[..|got| - 1]) + got[|got| - 1]
  }

  /** The bytes a socket delivers before it is closed or fails. */
  function Stream(source: Reads): string {
    match source
    case Nothing => ""
    case Reads(first, rest) =>
      match first
      case Data(bytes) => bytes + Stream(rest)
      case Closed => ""
      case Fail(e) => if e == EAGAIN then Stream(rest) else ""
  }

  // ---- needs that meet the same fate

  /** What g cannot decide or finds malformed is so for f. */
  predicate Follows<T, U>(g: Result<T>, f: Result<U>) {
    (g.More? ==> f == More(g.line)) && (g.Bad? ==> f == Bad(g.err))
  }

  ghost predicate Leads<T, U>(g: string -> Result<T>, f: string -> Result<U>, s: string) {
    forall t: string :: s <= t ==> Follows(g(t), f(t))
  }

  /** A step on the way: reading for g first and then for f is reading for f. */
  lemma {:induction false} PullThen<T, U>(g: string -> Result<T>, f: string -> Result<U>, mode: Mode, w: Wire)
    requires Leads(g, f, w.received)
    ensures var out := Pull(g, mode, w);
            Pull(f, mode, w) == if out.stop.Ready? then Pull(f, mode, out.wire) else out
    decreases w.source
  {
    assert Follows(g(w.received), f(w.received));
    if g(w.received).More? {
      var out := Take(mode, g(w.received).line, w);
      if out.stop.Ready? {
        PullThen(g, f, mode, out.wire);
      }
    }
  }

  ghost predicate Same<T(!new)>(f: string -> Result<T>, g: string -> Result<T>, s: string) {
    forall t: string :: s <= t ==> f(t) == g(t)
  }

  lemma {:induction false} PullSame<T(!new)>(f: string -> Result<T>, g: string -> Result<T>, mode: Mode, w: Wire)
    requires Same(f, g, w.received)
    ensures Pull(f, mode, w) == Pull(g, mode, w)
    decreases w.source
  {
    assert f(w.received) == g(w.received);
    if f(w.received).More? {
      var out := Take(mode, f(w.received).line, w);
      if out.stop.Ready? {
        PullSame(f, g, mode, out.wire);
      }
    }
  }

  /** The verdict on what was needed is the reason why the reading ended. */
  lemma {:induction false} PullVerdict<T>(need: string -> Result<T>, mode: Mode, w: Wire)
    ensures var out := Pull(need, mode, w);
            && w.received <= out.wire.received
            && match need(out.wire.received)
               case Ok(_, _) => out.stop == Ready
               case Bad(e) => out.stop == Malformed(e)
               case More(_) => !out.stop.Ready? && !out.stop.Malformed?
    decreases w.source
  {
    if need(w.received).More? {
      var out := Take(mode, need(w.received).line, w);
      if out.stop.Ready? {
        PullVerdict(need, mode, out.wire);
      }
    }
  }
}
