/** What sessions on a stream guarantee, however the stream is cut into reads and calls. */
module StreamTheorems {
  import opened Common
  import opened Decimal
  import opened Resp
  import opened StreamSpec
  import opened StreamSteps

  // ---- what is asked of a grammar

  /** More bytes do not change what has been decided, and a frame is decided by its own bytes. */
  ghost predicate Agree(g: Grammar, s: string, t: string) {
    Refines(g.frames(s), g.frames(t)) && Local(g.frames(t), g.frames(s), |s|)
  }

  /** A frame lies within the bytes it was read from, and EAGAIN is no verdict on bytes. */
  ghost predicate Proper(g: Grammar, s: string) {
    Inside(g.frames(s), |s|) && forall p: nat :: g.frames(s)(p) != Bad(EAGAIN)
  }

  ghost predicate Lawful(g: Grammar) {
    && (forall s: string, t: string :: s <= t ==> Agree(g, s, t))
    && (forall s: string :: Proper(g, s))
  }

  /** `stod_view` gives no other errors than these. */
  ghost predicate KnownErrors(cfg: Config) {
    forall t: string :: cfg.stod(t) == 0 || cfg.stod(t) == EINVAL || cfg.stod(t) == ERANGE
  }

  // ---- EAGAIN is no verdict

  /** The errors of malformed frames. */
  predicate FrameError(e: int) { e == -1 || e == -2 || e == -3 || e == 22 || e == 34 || e == 75 }

  predicate Known<T>(r: Result<T>) { r.Bad? ==> FrameError(r.err) }

  lemma {:induction false} RunErrors<T>(f: nat -> Result<T>, p: nat, n: nat)
    requires forall q: nat :: Known(f(q))
    ensures Known(Repeat(f, p, n))
  {
    if n > 0 {
      RunErrors(f, p, n - 1);
    }
  }

  lemma {:induction false} PairErrors(f: nat -> Result<Value>, q: nat)
    requires forall p: nat :: Known(f(p))
    ensures Known(Pairs(f)(q))
  {
  }

  lemma {:induction false} FrameErrors(
      cfg: Config, f: nat -> Result<Value>, s: string, prefix: char, text: string, q: nat)
    requires KnownErrors(cfg) && q <= |s| && forall p: nat :: Known(f(p))
    ensures Known(Frame(cfg, f, s, prefix, text, q))
  {
    if Count(text).Num? {
      forall p: nat ensures Known(Pairs(f)(p)) {
        PairErrors(f, p);
      }
      RunErrors(f, q, Count(text).n);
      RunErrors(Pairs(f), q, Count(text).n);
    }
  }

  lemma {:induction false} ParseErrors(cfg: Config, s: string, p: nat)
    requires KnownErrors(cfg) && p <= |s|
    ensures Known(Parse(cfg, s, p))
    decreases |s| - p
  {
    var line := ReadLine(s, p);
    if line.Ok? {
      var f := Parser(cfg, s, line.next);
      forall q: nat ensures Known(f(q)) {
        if line.next <= q <= |s| {
          ParseErrors(cfg, s, q);
        }
      }
      FrameErrors(cfg, f, s, s[p], line.value, line.next);
    }
  }

  /** EAGAIN is never the verdict on a frame: it means the socket has nothing to read. */
  lemma {:induction false} NeverAgain(cfg: Config, s: string, p: nat)
    requires KnownErrors(cfg) && p <= |s|
    ensures Parse(cfg, s, p) != Bad(EAGAIN)
  {
    ParseErrors(cfg, s, p);
  }

  /** The protocol is such a grammar. */
  lemma {:induction false} RespIsLawful(cfg: Config)
    requires KnownErrors(cfg)
    ensures Lawful(RespGrammar(cfg))
  {
    var g := RespGrammar(cfg);
    forall s: string, t: string | s <= t ensures Agree(g, s, t) {
      assert s + t[|s|..] == t;
      ParserStable(cfg, s, t[|s|..], 0);
      ParserLocal(cfg, s, t[|s|..], 0);
    }
    forall s: string ensures Proper(g, s) {
      ParserInside(cfg, s, 0);
      forall p: nat ensures g.frames(s)(p) != Bad(EAGAIN) {
        NextIs(cfg, s, p);
        if p <= |s| {
          NeverAgain(cfg, s, p);
        }
      }
    }
  }

  // ---- reading and the stream

  /** What was received and what is going to come, at most r bytes at once, make up this stream. */
  predicate Joined(w: Wire, whole: string, r: nat) {
    w.received + Stream(w.source) == whole && Longest(w.source) <= r
  }

  /** The buffer holds the bytes of t from `base` on: a read of at most r bytes of the rest of the
      stream s can bring it to the limit. */
  predicate Crowded(g: Grammar, r: nat, s: string, t: string, base: nat) {
    |t| <= |s| && |t| - base + Min(r, |s| - |t|) >= g.limit
  }

  lemma {:induction false} SkipStream(await: bool, source: Reads)
    ensures Stream(Skip(await, source)) == Stream(source) && Longest(Skip(await, source)) <= Longest(source)
    ensures await ==> var rest := Skip(await, source); rest.Reads? ==> rest.first != Fail(EAGAIN)
    decreases source
  {
    if await && source.Reads? && source.first == Fail(EAGAIN) {
      SkipStream(await, source.rest);
    }
  }

  /** No byte is lost or made up by a read, except by one that does not fit. */
  lemma {:induction false} TakeStream(mode: Mode, line: bool, w: Wire, whole: string, r: nat)
    requires Joined(w, whole, r)
    ensures var out := Take(mode, line, w);
            && (!out.stop.Ready? ==> out.wire.received == w.received)
            && match out.stop
               case Ready => Joined(out.wire, whole, r) && out.wire.source < w.source
               case Malformed(_) => false
               case Empty => Joined(out.wire, whole, r) && (mode.await ==> out.wire.source == Nothing)
               case Hangup(e) => e != EAGAIN && w.received == whole
               case TooLong => line && |w.received| - mode.base + Min(r, |whole| - |w.received|) >= mode.limit
  {
    SkipStream(mode.await, w.source);
    var rest := Skip(mode.await, w.source);
    if rest.Reads? && rest.first.Data? {
      var bytes := rest.first.bytes;
      assert w.received + (bytes + Stream(rest.rest)) == w.received + bytes + Stream(rest.rest);
    }
  }

  lemma {:induction false} PullStream<T>(need: string -> Result<T>, mode: Mode, w: Wire, whole: string, r: nat)
    requires Joined(w, whole, r)
    ensures var out := Pull(need, mode, w);
            var t := out.wire.received;
            && t <= whole
            && match out.stop
               case Ready => need(t).Ok? && Joined(out.wire, whole, r)
               case Malformed(e) => need(t) == Bad(e)
               case Empty => need(t).More? && Joined(out.wire, whole, r)
                             && (mode.await ==> out.wire.source == Nothing)
               case Hangup(e) => e != EAGAIN && need(t).More? && t == whole
               case TooLong => need(t) == More(true) && |t| - mode.base + Min(r, |whole| - |t|) >= mode.limit
    decreases w.source
  {
    if need(w.received).More? {
      var line := need(w.received).line;
      TakeStream(mode, line, w, whole, r);
      var out := Take(mode, line, w);
      if out.stop.Ready? {
        PullStream(need, mode, out.wire, whole, r);
      }
    }
  }

  lemma {:induction false} NextGrows(g: Grammar, s: string, t: string, here: nat)
    requires Lawful(g) && s <= t
    ensures NextAt(g, here)(s).More? || NextAt(g, here)(t) == NextAt(g, here)(s)
  {
    assert Agree(g, s, t);
  }

  lemma {:induction false} NextInside(g: Grammar, s: string, here: nat)
    requires Lawful(g) && NextAt(g, here)(s).Ok?
    ensures here < NextAt(g, here)(s).next <= |s|
  {
    assert Proper(g, s);
  }

  /** How the reading of a frame ended, with t received and the buffer starting at `base`, says what
      the frame is in the whole stream; or a line was incomplete and a read did not fit. */
  ghost predicate Verdict(g: Grammar, whole: string, r: nat, t: string, base: nat, next: nat, stop: Stop) {
    match stop
    case Ready => true
    case Malformed(e) => NextAt(g, next)(whole) == Bad(e)
    case Empty => NextAt(g, next)(whole).More?
    case Hangup(_) => NextAt(g, next)(whole).More?
    case TooLong =>
      t <= whole && base <= next <= |t| && NextAt(g, next)(t) == More(true) && Crowded(g, r, whole, t, base)
  }

  lemma {:induction false} FrameReads(g: Grammar, whole: string, r: nat, mode: Mode, w: Wire, here: nat)
    requires Lawful(g) && Joined(w, whole, r) && mode.limit == g.limit && mode.base <= here <= |w.received|
    ensures var out := Pull(NextAt(g, here), mode, w);
            && w.received <= out.wire.received
            && (out.stop.Ready? ==>
                  && Joined(out.wire, whole, r) && NextAt(g, here)(whole).Ok?
                  && NextAt(g, here)(whole) == NextAt(g, here)(out.wire.received)
                  && here < NextAt(g, here)(whole).next <= |out.wire.received|)
            && (out.stop.Empty? ==> Joined(out.wire, whole, r) && NextAt(g, here)(out.wire.received).More?)
            && (out.stop.Hangup? ==> out.stop.err != EAGAIN)
            && ((out.stop.Empty? && !mode.await)
                || Verdict(g, whole, r, out.wire.received, mode.base, here, out.stop))
  {
    var out := Pull(NextAt(g, here), mode, w);
    PullVerdict(NextAt(g, here), mode, w);
    PullStream(NextAt(g, here), mode, w, whole, r);
    NextGrows(g, out.wire.received, whole, here);
    if out.stop.Ready? {
      NextInside(g, out.wire.received, here);
    }
    if out.stop.Empty? && mode.await {
      assert out.wire.received + "" == out.wire.received;
    }
  }

  // ---- calls and sessions read the stream from its start

  /** The one-shot parser reads these values from the start of the stream s, up to `next`. */
  ghost predicate StartsWith(g: Grammar, s: string, values: seq<Value>, next: nat) {
    Repeat(g.frames(s), 0, |values|) == Ok(values, next)
  }

  lemma {:induction false} StartStep(g: Grammar, s: string, values: seq<Value>, here: nat)
    requires StartsWith(g, s, values, here) && NextAt(g, here)(s).Ok?
    ensures var r := NextAt(g, here)(s); StartsWith(g, s, values + [r.value], r.next)
  {
  }

  /** How many values a call is made for. */
  function Wanted(call: Call): nat { match call case Await => 1 case Try(n) => n }

  /** What is known of a call made after these values: it read on, and its end says why. A call that
      failed has left the start of the buffer where it was, and has given less than was wanted. */
  ghost predicate ReadsOn(g: Grammar, whole: string, r: nat, base: nat, before: seq<Value>, n: nat, out: Given) {
    && StartsWith(g, whole, before + out.values, out.next)
    && Verdict(g, whole, r, out.wire.received, out.base, out.next, out.stop)
    && |out.values| <= n
    && if out.stop.Ready? then Joined(out.wire, whole, r) && out.base == out.next <= |out.wire.received|
       else out.base == base && |out.values| < n
  }

  lemma {:induction false} OneReads(g: Grammar, whole: string, r: nat, w: Wire, base: nat, before: seq<Value>)
    requires Lawful(g) && Joined(w, whole, r) && StartsWith(g, whole, before, base) && base <= |w.received|
    ensures var out := One(g, w, base);
            && ReadsOn(g, whole, r, base, before, 1, out)
            && |out.values| == if out.stop.Ready? then 1 else 0
  {
    var mode := Mode(true, base, g.limit);
    FrameReads(g, whole, r, mode, w, base);
    PullVerdict(NextAt(g, base), mode, w);
    assert before + [] == before;
    if NextAt(g, base)(whole).Ok? {
      StartStep(g, whole, before, base);
    }
  }

  /** The end of a batch: the next frame is not there. */
  lemma {:induction false} SeveralEnd(
      g: Grammar, whole: string, r: nat, w: Wire, base: nat, here: nat, n: nat,
      values: seq<Value>, before: seq<Value>)
    requires Lawful(g) && Joined(w, whole, r) && StartsWith(g, whole, before + values, here) && n > 0
    requires base <= here <= |w.received|
    requires !Pull(NextAt(g, here), Mode(false, base, g.limit), w).stop.Ready?
    ensures var out := Several(g, w, base, here, n, values);
            && ReadsOn(g, whole, r, base, before, |values| + n, out) && out.values == values
            && (out.stop.Ready? ==> NextAt(g, out.next)(out.wire.received).More?)
  {
    var mode := Mode(false, base, g.limit);
    var out := Pull(NextAt(g, here), mode, w);
    FrameReads(g, whole, r, mode, w, here);
    PullVerdict(NextAt(g, here), mode, w);
    assert Proper(g, out.wire.received);
  }

  /** A batch that comes back short and without error had to wait for the rest of a frame. */
  lemma {:induction false} SeveralRead(
      g: Grammar, whole: string, r: nat, w: Wire, base: nat, here: nat, n: nat,
      values: seq<Value>, before: seq<Value>)
    requires Lawful(g) && Joined(w, whole, r) && StartsWith(g, whole, before + values, here)
    requires base <= here <= |w.received|
    ensures var out := Several(g, w, base, here, n, values);
            && ReadsOn(g, whole, r, base, before, |values| + n, out)
            && (out.stop.Ready? && |out.values| < |values| + n ==> NextAt(g, out.next)(out.wire.received).More?)
    decreases n
  {
    if n > 0 {
      var mode := Mode(false, base, g.limit);
      var out := Pull(NextAt(g, here), mode, w);
      PullVerdict(NextAt(g, here), mode, w);
      if out.stop.Ready? {
        FrameReads(g, whole, r, mode, w, here);
        StartStep(g, whole, before + values, here);
        var v := NextAt(g, here)(out.wire.received);
        assert before + values + [v.value] == before + (values + [v.value]);
        SeveralRead(g, whole, r, out.wire, base, v.next, n - 1, values + [v.value], before);
      } else {
        SeveralEnd(g, whole, r, w, base, here, n, values, before);
      }
    }
  }

  /** A batch that came back short stands before an incomplete frame. */
  ghost predicate Waits(g: Grammar, call: Call, values: seq<Value>, w: Wire, next: nat) {
    call.Try? && |values| < call.n ==> NextAt(g, next)(w.received).More?
  }

  lemma {:induction false} DoReads(
      g: Grammar, whole: string, r: nat, w: Wire, base: nat, call: Call, before: seq<Value>)
    requires Lawful(g) && Joined(w, whole, r) && StartsWith(g, whole, before, base)
    requires base <= |w.received|
    ensures var out := Do(g, w, base, call);
            && ReadsOn(g, whole, r, base, before, Wanted(call), out)
            && (out.stop.Ready? ==> Waits(g, call, out.values, out.wire, out.next))
  {
    match call
    case Await => OneReads(g, whole, r, w, base, before);
    case Try(n) =>
      assert before + [] == before;
      SeveralRead(g, whole, r, w, base, base, n, [], before);
  }

  /** The values of all calls but the last. */
  function Earlier(got: seq<seq<Value>>): seq<Value>
    requires got != []
  {
    Flat(got[..|got| - 1])
  }

  /** What is known of a session: its values are the first of the stream, and its end says why. When
      it failed, in its last call, that one began at `base`, behind the values of the others. */
  ghost predicate Ended(g: Grammar, whole: string, r: nat, calls: seq<Call>, out: Outcome) {
    && StartsWith(g, whole, Flat(out.got), out.next)
    && Verdict(g, whole, r, out.wire.received, out.base, out.next, out.stop)
    && |out.got| <= |calls|
    && if out.stop.Ready? then |out.got| == |calls|
       else
         && out.got != [] && StartsWith(g, whole, Earlier(out.got), out.base)
         && |out.got[|out.got| - 1]| < Wanted(calls[|out.got| - 1])
  }

  lemma {:induction false} FlatSnoc(got: seq<seq<Value>>, values: seq<Value>)
    ensures Flat(got + [values]) == Flat(got) + values && Earlier(got + [values]) == Flat(got)
  {
    assert (got + [values])[..|got|] == got;
  }

  /** One call of a session. */
  lemma {:induction false} SessionTurn(g: Grammar, w: Wire, base: nat, calls: seq<Call>, got: seq<seq<Value>>)
    requires |got| < |calls|
    ensures var first := Do(g, w, base, calls[|got|]);
            var got' := got + [first.values];
            Session(g, w, base, calls, got)
              == if first.stop.Ready? then Session(g, first.wire, first.base, calls, got')
                 else Outcome(got', first.stop, first.wire, first.base, first.next)
  {
  }

  lemma {:induction false} LastCall(g: Grammar, w: Wire, base: nat, calls: seq<Call>, got: seq<seq<Value>>)
    requires |got| == |calls|
    ensures Session(g, w, base, calls, got) == Outcome(got, Ready, w, base, base)
  {
  }

  /** A call that fails ends the session. */
  lemma {:induction false} EndsHere(
      g: Grammar, whole: string, r: nat, base: nat, calls: seq<Call>, got: seq<seq<Value>>, last: Given)
    requires |got| < |calls| && StartsWith(g, whole, Flat(got), base) && !last.stop.Ready?
    requires ReadsOn(g, whole, r, base, Flat(got), Wanted(calls[|got|]), last)
    ensures Ended(g, whole, r, calls, Outcome(got + [last.values], last.stop, last.wire, last.base, last.next))
  {
    FlatSnoc(got, last.values);
  }

  lemma {:induction false} SessionReads(
      g: Grammar, whole: string, r: nat, w: Wire, base: nat, calls: seq<Call>, got: seq<seq<Value>>)
    requires Lawful(g) && Joined(w, whole, r) && StartsWith(g, whole, Flat(got), base) && |got| <= |calls|
    requires base <= |w.received|
    ensures var out := Session(g, w, base, calls, got);
            && Ended(g, whole, r, calls, out)
            && (out.stop.Ready? && |got| < |calls| ==>
                  Waits(g, calls[|calls| - 1], out.got[|calls| - 1], out.wire, out.next))
    decreases |calls| - |got|
  {
    if |got| < |calls| {
      var first := Do(g, w, base, calls[|got|]);
      DoReads(g, whole, r, w, base, calls[|got|], Flat(got));
      SessionTurn(g, w, base, calls, got);
      if first.stop.Ready? {
        var got' := got + [first.values];
        FlatSnoc(got, first.values);
        SessionReads(g, whole, r, first.wire, first.base, calls, got');
        if |got'| == |calls| {
          LastCall(g, first.wire, first.base, calls, got');
        }
      } else {
        EndsHere(g, whole, r, base, calls, got, first);
      }
    }
  }

  /** Whatever the cut of a stream into reads and whatever the calls: together they give the values
      that the one-shot parser reads from the start of the whole stream. A session that ends early
      ends with the one-shot verdict on the frame behind them, or with a line incomplete and a read
      that could bring the buffer to the limit; one that ends with a short batch stands before an
      incomplete frame. */
  lemma {:induction false} TranscriptReadsStream(g: Grammar, source: Reads, calls: seq<Call>)
    requires Lawful(g)
    ensures var out := Transcript(g, source, calls);
            && Ended(g, Stream(source), Longest(source), calls, out)
            && (out.stop.Ready? && calls != [] ==>
                  Waits(g, calls[|calls| - 1], out.got[|calls| - 1], out.wire, out.next))
  {
    assert "" + Stream(source) == Stream(source);
    SessionReads(g, Stream(source), Longest(source), Wire("", source), 0, calls, []);
  }

  // ---- the cut does not matter

  lemma {:induction false} RunPrefix<T>(f: nat -> Result<T>, p: nat, m: nat, n: nat)
    requires m <= n && Repeat(f, p, m).Ok? && Repeat(f, p, n).Ok?
    ensures Repeat(f, p, m).value <= Repeat(f, p, n).value && |Repeat(f, p, m).value| == m
    decreases n
  {
    if n > 0 {
      RunPrefix(f, p, if m < n then m else n - 1, n - 1);
    }
  }

  /** The session has given every value the stream starts with. */
  ghost predicate GaveAll(g: Grammar, s: string, out: Outcome) { !NextAt(g, out.next)(s).Ok? }

  /** A session that failed, but for the size of a read, has given all there is. */
  lemma {:induction false} FailedGaveAll(g: Grammar, source: Reads, calls: seq<Call>)
    requires Lawful(g)
    ensures var out := Transcript(g, source, calls);
            !out.stop.Ready? && !out.stop.TooLong? ==> GaveAll(g, Stream(source), out)
  {
    TranscriptReadsStream(g, source, calls);
  }

  /** Two sockets that deliver the same bytes in different pieces, and any two lists of calls: one
      session gives the first values of the other, and when both have given all they can they have
      given the same, and agree on what is wrong with the next frame. */
  lemma {:induction false} CutsDoNotMatter(
      g: Grammar, one: Reads, other: Reads, calls: seq<Call>, calls': seq<Call>)
    requires Lawful(g) && Stream(one) == Stream(other)
    ensures var out, out' := Transcript(g, one, calls), Transcript(g, other, calls');
            var a, b := Flat(out.got), Flat(out'.got);
            && (a <= b || b <= a)
            && (GaveAll(g, Stream(one), out) && GaveAll(g, Stream(one), out') ==> a == b)
            && (out.stop.Malformed? && out'.stop.Malformed? ==> out.stop == out'.stop && a == b)
  {
    var out, out' := Transcript(g, one, calls), Transcript(g, other, calls');
    var f := g.frames(Stream(one));
    TranscriptReadsStream(g, one, calls);
    TranscriptReadsStream(g, other, calls');
    var m, n := |Flat(out.got)|, |Flat(out'.got)|;
    if m <= n {
      RunPrefix(f, 0, m, n);
    } else {
      RunPrefix(f, 0, n, m);
    }
    if !f(out.next).Ok? && !f(out'.next).Ok? {
      LongestIsUnique(f, 0, m, n);
    }
  }

  // ---- progress

  /** What a call that did not fail has given. */
  predicate Kept(call: Call, values: seq<Value>) {
    match call case Await => |values| == 1 case Try(n) => |values| <= n
  }

  lemma {:induction false} DoKeeps(g: Grammar, w: Wire, base: nat, call: Call)
    ensures var out := Do(g, w, base, call);
            out.stop.Ready? ==> Kept(call, out.values)
  {
    match call
    case Await => PullVerdict(NextAt(g, base), Mode(true, base, g.limit), w);
    case Try(n) => SeveralKeeps(g, w, base, base, n, []);
  }

  lemma {:induction false} SeveralKeeps(g: Grammar, w: Wire, base: nat, here: nat, n: nat, values: seq<Value>)
    ensures |Several(g, w, base, here, n, values).values| <= |values| + n
    decreases n
  {
    if n > 0 {
      var out := Pull(NextAt(g, here), Mode(false, base, g.limit), w);
      match NextAt(g, here)(out.wire.received)
      case Ok(v, next) => SeveralKeeps(g, out.wire, base, next, n - 1, values + [v]);
      case _ =>
    }
  }

  /** All calls are made unless one fails, which is the last; an awaiting call that does not fail
      gives one value. */
  lemma {:induction false} SessionProgress(
      g: Grammar, w: Wire, base: nat, calls: seq<Call>, got: seq<seq<Value>>)
    requires |got| <= |calls| && forall i :: 0 <= i < |got| ==> Kept(calls[i], got[i])
    ensures var out := Session(g, w, base, calls, got);
            && got <= out.got && |out.got| <= |calls|
            && (if out.stop.Ready? then |out.got| == |calls| else |got| < |out.got|)
            && forall i :: 0 <= i < |out.got| && (out.stop.Ready? || i < |out.got| - 1) ==> Kept(calls[i], out.got[i])
    decreases |calls| - |got|
  {
    if |got| < |calls| {
      var first := Do(g, w, base, calls[|got|]);
      DoKeeps(g, w, base, calls[|got|]);
      if first.stop.Ready? {
        SessionProgress(g, first.wire, first.base, calls, got + [first.values]);
      }
    }
  }
}
