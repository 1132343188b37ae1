/** The error codes that callers of the stream parser see. */
module StreamEnds {
  import opened Common
  import opened Decimal
  import opened Resp
  import opened StreamSpec
  import opened StreamSteps
  import opened StreamTheorems

  /** How a socket ends: it is closed, which is reported as ECONNRESET (104), or it fails with an error
      of its own. That there is nothing to read (EAGAIN, 11) is not an end. */
  predicate EndsWith(source: Reads, e: int) {
    match source
    case Nothing => false
    case Reads(first, rest) =>
      match first
      case Data(_) => EndsWith(rest, e)
      case Closed => e == 104
      case Fail(f) => if f == 11 then EndsWith(rest, e) else e == f
  }

  lemma {:induction false} EndIsAnError(source: Reads, e: int)
    requires Sound(source) && EndsWith(source, e)
    ensures e != 0 && e != 11
  {
    var first := source.first;
    if first.Data? || first == Fail(11) {
      EndIsAnError(source.rest, e);
    }
  }

  lemma {:induction false} SkipEnds(await: bool, source: Reads, e: int)
    ensures EndsWith(Skip(await, source), e) <==> EndsWith(source, e)
    decreases source
  {
    if await && source.Reads? && source.first == Fail(EAGAIN) {
      SkipEnds(await, source.rest, e);
    }
  }

  /** What a read leaves of the socket ends as the socket does. */
  lemma {:induction false} TakeEnds(mode: Mode, line: bool, w: Wire, e: int)
    ensures var out := Take(mode, line, w);
            && (out.stop == Hangup(e) ==> EndsWith(w.source, e))
            && (if out.stop.Hangup? then out.stop.err != 11 else EndsWith(out.wire.source, e) ==> EndsWith(w.source, e))
  {
    SkipEnds(mode.await, w.source, e);
  }

  lemma {:induction false} PullEnds<T>(need: string -> Result<T>, mode: Mode, w: Wire, e: int)
    ensures var out := Pull(need, mode, w);
            && (out.stop == Hangup(e) ==> EndsWith(w.source, e))
            && (if out.stop.Hangup? then out.stop.err != 11 else EndsWith(out.wire.source, e) ==> EndsWith(w.source, e))
    decreases w.source
  {
    if need(w.received).More? {
      var line := need(w.received).line;
      TakeEnds(mode, line, w, e);
      var out := Take(mode, line, w);
      if out.stop.Ready? {
        PullEnds(need, mode, out.wire, e);
      }
    }
  }

  lemma {:induction false} SeveralEnds(
      g: Grammar, w: Wire, base: nat, here: nat, n: nat, values: seq<Value>, e: int)
    ensures var out := Several(g, w, base, here, n, values);
            && (out.stop == Hangup(e) ==> EndsWith(w.source, e))
            && (!out.stop.Hangup? ==> EndsWith(out.wire.source, e) ==> EndsWith(w.source, e))
    decreases n
  {
    if n > 0 {
      var mode := Mode(false, base, g.limit);
      var out := Pull(NextAt(g, here), mode, w);
      PullEnds(NextAt(g, here), mode, w, e);
      PullVerdict(NextAt(g, here), mode, w);
      var r := NextAt(g, here)(out.wire.received);
      if r.Ok? {
        SeveralEnds(g, out.wire, base, r.next, n - 1, values + [r.value], e);
      }
    }
  }

  lemma {:induction false} SessionEnds(
      g: Grammar, w: Wire, base: nat, calls: seq<Call>, got: seq<seq<Value>>, e: int)
    requires |got| <= |calls|
    ensures Session(g, w, base, calls, got).stop == Hangup(e) ==> EndsWith(w.source, e)
    decreases |calls| - |got|
  {
    if |got| < |calls| {
      var out := Do(g, w, base, calls[|got|]);
      match calls[|got|] {
        case Await =>
          PullEnds(NextAt(g, base), Mode(true, base, g.limit), w, e);
          PullVerdict(NextAt(g, base), Mode(true, base, g.limit), w);
        case Try(n) => SeveralEnds(g, w, base, base, n, [], e);
      }
      if out.stop.Ready? {
        SessionEnds(g, out.wire, out.base, calls, got + [out.values], e);
      }
    }
  }

  /** The code of a session that ended says why: 0 that all calls were made; the error of the malformed
      frame that stands behind the values; the error with which the socket ended; or EOVERFLOW (75),
      for a line that did not fit. The codes of failures are never 0 or EAGAIN. */
  lemma {:induction false} CodesSayWhy(cfg: Config, source: Reads, calls: seq<Call>)
    requires KnownErrors(cfg) && Sound(source)
    ensures var out := Transcript(RespGrammar(cfg), source, calls);
            var code := Code(out.stop);
            match out.stop
            case Ready => code == 0
            case Malformed(_) =>
              out.next <= |Stream(source)| && Parse(cfg, Stream(source), out.next) == Bad(code) && FrameError(code)
            case Hangup(_) => EndsWith(source, code) && code != 0 && code != 11
            case TooLong => code == 75
            case Empty => code == 11
  {
    var g := RespGrammar(cfg);
    var out := Transcript(g, source, calls);
    RespIsLawful(cfg);
    TranscriptReadsStream(g, source, calls);
    match out.stop
    case Malformed(e) =>
      NextIs(cfg, Stream(source), out.next);
      if out.next <= |Stream(source)| {
        ParseErrors(cfg, Stream(source), out.next);
      }
    case Hangup(e) =>
      SessionEnds(g, Wire("", source), 0, calls, [], e);
      EndIsAnError(source, e);
    case _ =>
  }
}
