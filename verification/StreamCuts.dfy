/**
 Exactly which streams can be refused, and which can overfill the buffer, when they are cut into
 reads of at most r bytes and read by calls for at most m frames.
 */
module StreamCuts {
  import opened Common
  import opened Decimal
  import opened Resp
  import opened StreamSpec
  import opened StreamSteps
  import opened StreamTheorems
  import opened StreamLimits

  // ---- a stream that comes byte by byte

  function OneByOne(bytes: string, tail: Reads): Reads {
    if bytes == "" then tail else Reads(Data([bytes[0]]), OneByOne(bytes[1..], tail))
  }

  lemma {:induction false} OneByOneIs(bytes: string, tail: Reads, r: nat)
    requires r > 0 && Longest(tail) <= r
    ensures Stream(OneByOne(bytes, tail)) == bytes + Stream(tail) && Longest(OneByOne(bytes, tail)) <= r
  {
    if bytes != "" {
      OneByOneIs(bytes[1..], tail, r);
      assert bytes == [bytes[0]] + bytes[1..];
    }
  }

  /** j bytes of t have come, the others come one by one, then the tail. */
  function Fed(t: string, j: nat, tail: Reads): Wire
    requires j <= |t|
  {
    Wire(t[..j], OneByOne(t[j..], tail))
  }

  lemma {:induction false} TakeByte(mode: Mode, line: bool, t: string, j: nat, tail: Reads)
    requires j < |t|
    ensures var out := Take(mode, line, Fed(t, j, tail));
            if line && j - mode.base + 1 >= mode.limit then out.stop.TooLong? && out.wire.received == t[..j]
            else out == Pulled(Ready, Fed(t, j + 1, tail))
  {
    assert t[j..][0] == t[j] && t[j..][1..] == t[j + 1..] && t[..j] + [t[j]] == t[..j + 1];
  }

  /** How far the reading of a frame gets on t: a line does not fit, the frame is read, or t is used
      up. */
  ghost predicate FedTo(g: Grammar, here: nat, mode: Mode, t: string, tail: Reads, j: nat, out: Pulled)
    requires j <= |t|
  {
    var need := NextAt(g, here);
    || (out.stop.TooLong? && out.wire.received == t[..j] && j < |t|
        && need(t[..j]) == More(true) && j + 1 - mode.base >= mode.limit)
    || (need(t).Ok? && out == Pulled(Ready, Fed(t, j, tail)) && need(t[..j]) == need(t))
    || (need(t).More? && out == Pull(need, mode, Wire(t, tail)))
  }

  lemma {:induction false} FedPull(g: Grammar, here: nat, mode: Mode, t: string, j: nat, tail: Reads) returns (k: nat)
    requires Lawful(g) && j <= |t| && !NextAt(g, here)(t).Bad?
    ensures j <= k <= |t| && FedTo(g, here, mode, t, tail, k, Pull(NextAt(g, here), mode, Fed(t, j, tail)))
    decreases |t| - j
  {
    var need := NextAt(g, here);
    k := j;
    NextGrows(g, t[..j], t, here);
    if need(t[..j]).More? {
      if j == |t| {
        assert t[..j] == t;
      } else {
        TakeByte(mode, need(t[..j]).line, t, j, tail);
        if !(need(t[..j]).line && j - mode.base + 1 >= mode.limit) {
          k := FedPull(g, here, mode, t, j + 1, tail);
        }
      }
    }
  }

  // ---- calls on such a stream

  /** The most bytes the buffer holds during the calls that are left; it is emptied, of what was
      used, at the end of a call only. */
  function Peak(g: Grammar, w: Wire, base: nat, calls: seq<Call>, got: seq<seq<Value>>): int
    requires |got| <= |calls|
    decreases |calls| - |got|
  {
    if |got| == |calls| then 0
    else
      var out := Do(g, w, base, calls[|got|]);
      var held := |out.wire.received| - base;
      if !out.stop.Ready? then held
      else
        var later := Peak(g, out.wire, out.base, calls, got + [out.values]);
        if held > later then held else later
  }

  /** Each of the first n frames is below the limit. */
  ghost predicate ShortFrames(g: Grammar, s: string, n: nat) {
    forall q: nat :: q < n ==> EndOf(g, s, q + 1) - EndOf(g, s, q) < g.limit
  }

  /** A read did not fit, and the frame to come is in s. */
  ghost predicate Refused(g: Grammar, s: string, stop: Stop, next: nat) {
    stop.TooLong? && NextAt(g, next)(s).Ok?
  }

  /** One awaiting call on the next frame of t. */
  lemma {:induction false} OneFed(g: Grammar, s: string, t: string, tail: Reads, n: nat, j: nat) returns (k: nat)
    requires Lawful(g) && t <= s && j <= |t| && Has(g, s, n + 1) && EndOf(g, s, n + 1) <= |t|
    ensures k <= |t|
    ensures var out := One(g, Fed(t, j, tail), EndOf(g, s, n));
            || (Refused(g, s, out.stop, out.next)
                && EndOf(g, s, n + 1) - EndOf(g, s, n) >= g.limit)
            || (out.stop.Ready? && out.wire == Fed(t, k, tail) && out.base == EndOf(g, s, n + 1))
  {
    var here := EndOf(g, s, n);
    var mode := Mode(true, here, g.limit);
    HasNext(g, s, n);
    EndsWithin(g, s, t, here);
    k := FedPull(g, here, mode, t, j, tail);
    PullVerdict(NextAt(g, here), mode, Fed(t, j, tail));
    if Pull(NextAt(g, here), mode, Fed(t, j, tail)).stop.TooLong? {
      EndsBehind(g, s, t[..k], here);
    }
  }

  /** Awaiting calls up to frame i get there, unless one of the frames is as long as the limit. */
  lemma {:induction false} AwaitsFed(
      g: Grammar, s: string, t: string, tail: Reads, i: nat, j: nat, calls: seq<Call>, got: seq<seq<Value>>)
      returns (early: bool, k: nat, got': seq<seq<Value>>)
    requires Lawful(g) && t <= s && j <= |t| && |got| <= i <= |calls| && Has(g, s, i) && EndOf(g, s, i) <= |t|
    requires forall q :: 0 <= q < i ==> calls[q] == Await
    ensures k <= |t|
    ensures var w, base := Fed(t, j, tail), EndOf(g, s, |got|);
            var out := Session(g, w, base, calls, got);
            if early then Refused(g, s, out.stop, out.next) && !ShortFrames(g, s, i)
            else
              && |got'| == i && out == Session(g, Fed(t, k, tail), EndOf(g, s, i), calls, got')
              && Peak(g, w, base, calls, got) >= Peak(g, Fed(t, k, tail), EndOf(g, s, i), calls, got')
    decreases i - |got|
  {
    if |got| == i {
      early, k, got' := false, j, got;
    } else {
      var n := |got|;
      EndsGrow(g, s, n + 1, i);
      k := OneFed(g, s, t, tail, n, j);
      var first := One(g, Fed(t, j, tail), EndOf(g, s, n));
      assert Do(g, Fed(t, j, tail), EndOf(g, s, n), calls[n]) == first;
      if first.stop.TooLong? {
        early, got' := true, got;
      } else {
        early, k, got' := AwaitsFed(g, s, t, tail, i, k, calls, got + [first.values]);
      }
    }
  }

  /** One frame of a batch. */
  lemma {:induction false} SeveralTurn(g: Grammar, w: Wire, base: nat, here: nat, n: nat, values: seq<Value>)
    requires n > 0
    ensures var out := Pull(NextAt(g, here), Mode(false, base, g.limit), w);
            var r := NextAt(g, here)(out.wire.received);
            var all := Several(g, w, base, here, n, values);
            && (out.stop.Ready? ==> r.Ok?)
            && (out.stop.Ready? ==> all == Several(g, out.wire, base, r.next, n - 1, values + [r.value]))
            && (out.stop.TooLong? ==> all == Given(values, TooLong, out.wire, base, here))
  {
    PullVerdict(NextAt(g, here), Mode(false, base, g.limit), w);
  }

  /** The frame q of a batch behind frame i is read from t, unless t is too long for the buffer. */
  lemma {:induction false} BatchTurn(
      g: Grammar, s: string, t: string, tail: Reads, i: nat, q: nat, j: nat) returns (k: nat)
    requires Lawful(g) && t <= s && j <= |t| && Has(g, s, i + q + 1) && EndOf(g, s, i + q + 1) <= |t|
    ensures k <= |t|
    ensures var base, here := EndOf(g, s, i), EndOf(g, s, i + q);
            var out := Pull(NextAt(g, here), Mode(false, base, g.limit), Fed(t, j, tail));
            || (out.stop.TooLong? && NextAt(g, here)(s).Ok? && |t| - base >= g.limit)
            || (out.stop.Ready? && out.wire == Fed(t, k, tail) && NextAt(g, here)(out.wire.received).Ok?
                && NextAt(g, here)(out.wire.received).next == EndOf(g, s, i + q + 1))
  {
    var here := EndOf(g, s, i + q);
    var mode := Mode(false, EndOf(g, s, i), g.limit);
    HasNext(g, s, i + q);
    EndsWithin(g, s, t, here);
    k := FedPull(g, here, mode, t, j, tail);
  }

  /** A batch that starts behind frame i and has read q of its frames gets to its last one, behind
      frame i + k, unless t is too long for the buffer. */
  lemma {:induction false} BatchFed(
      g: Grammar, s: string, t: string, tail: Reads, i: nat, k: nat, q: nat, j: nat, values: seq<Value>)
      returns (early: bool, j': nat, values': seq<Value>)
    requires Lawful(g) && t <= s && j <= |t| && q <= k && Has(g, s, i + k) && EndOf(g, s, i + k) <= |t|
    ensures j' <= |t|
    ensures var base := EndOf(g, s, i);
            var out := Several(g, Fed(t, j, tail), base, EndOf(g, s, i + q), k + 1 - q, values);
            if early then Refused(g, s, out.stop, out.next) && |t| - base >= g.limit
            else out == Several(g, Fed(t, j', tail), base, EndOf(g, s, i + k), 1, values')
    decreases k - q
  {
    if q == k {
      early, j', values' := false, j, values;
    } else {
      var base, here, w := EndOf(g, s, i), EndOf(g, s, i + q), Fed(t, j, tail);
      EndsGrow(g, s, i + q + 1, i + k);
      j' := BatchTurn(g, s, t, tail, i, q, j);
      SeveralTurn(g, w, base, here, k + 1 - q, values);
      var out := Pull(NextAt(g, here), Mode(false, base, g.limit), w);
      if out.stop.TooLong? {
        early, values' := true, values;
      } else {
        var v := NextAt(g, here)(out.wire.received).value;
        early, j', values' := BatchFed(g, s, t, tail, i, k, q + 1, j', values + [v]);
      }
    }
  }

  /** What comes after t: one read as large as may be, and the rest byte by byte. */
  function After(s: string, t: string, r: nat): Reads
    requires |t| <= |s|
  {
    var n := |t| + Min(r, |s| - |t|);
    Reads(Data(s[|t|..n]), OneByOne(s[n..], Nothing))
  }

  function Cut(s: string, t: string, r: nat): Reads
    requires |t| <= |s|
  {
    OneByOne(t, After(s, t, r))
  }

  lemma {:induction false} AfterIs(s: string, t: string, r: nat)
    requires t <= s && r > 0
    ensures Stream(After(s, t, r)) == s[|t|..] && Longest(After(s, t, r)) <= r
  {
    var n := |t| + Min(r, |s| - |t|);
    OneByOneIs(s[n..], Nothing, r);
    assert s[n..] + "" == s[n..];
    assert s[|t|..n] + s[n..] == s[|t|..];
  }

  lemma {:induction false} CutIs(s: string, t: string, r: nat)
    requires t <= s && r > 0
    ensures Stream(Cut(s, t, r)) == s && Longest(Cut(s, t, r)) <= r
    ensures Wire("", Cut(s, t, r)) == Fed(t, 0, After(s, t, r))
  {
    AfterIs(s, t, r);
    OneByOneIs(t, After(s, t, r), r);
    assert t + s[|t|..] == s;
    assert t[..0] == "" && t[0..] == t;
  }

  /** Awaiting calls for i frames, and a batch of k + 1. */
  function Plan(i: nat, k: nat): (calls: seq<Call>)
    ensures |calls| == i + 1 && calls[i] == Try(k + 1) && forall q :: 0 <= q < i ==> calls[q] == Await
    ensures Within(calls, k + 1)
  {
    seq(i, _ => Await) + [Try(k + 1)]
  }

  // ---- streams that can be refused

  /** Somewhere in a line of a frame a read may not fit. */
  ghost predicate LineMayNotFit(g: Grammar, r: nat, m: nat, s: string) {
    exists i: nat, k: nat, t: string :: k < m && AtRisk(g, r, s, i, k, t)
  }

  /** Every session that ends early, on every cut of this stream, has given all its values. */
  ghost predicate EveryCutGivesAll(g: Grammar, r: nat, m: nat, s: string) {
    forall source: Reads, calls: seq<Call> ::
      Stream(source) == s && Longest(source) <= r && Within(calls, m) && !Transcript(g, source, calls).stop.Ready?
      ==> GaveAll(g, s, Transcript(g, source, calls))
  }

  /** The last frame of the batch: the line is incomplete, and the next read does not fit. */
  lemma {:induction false} LastFails(
      g: Grammar, r: nat, s: string, t: string, i: nat, k: nat, j: nat, values: seq<Value>)
    requires Lawful(g) && AtRisk(g, r, s, i, k, t) && j <= |t|
    ensures var out := Several(g, Fed(t, j, After(s, t, r)), EndOf(g, s, i), EndOf(g, s, i + k), 1, values);
            Refused(g, s, out.stop, out.next)
  {
    HasNext(g, s, i + k);
    var here, tail := EndOf(g, s, i + k), After(s, t, r);
    var mode := Mode(false, EndOf(g, s, i), g.limit);
    var _ := FedPull(g, here, mode, t, j, tail);
    assert Pull(NextAt(g, here), mode, Wire(t, tail)) == Take(mode, true, Wire(t, tail));
    assert Pull(NextAt(g, here), mode, Fed(t, j, tail)).stop.TooLong?;
    PullVerdict(NextAt(g, here), mode, Fed(t, j, tail));
  }

  lemma {:induction false} TryFails(g: Grammar, r: nat, s: string, i: nat, k: nat, t: string, j: nat)
    requires Lawful(g) && AtRisk(g, r, s, i, k, t) && j <= |t|
    ensures var out := Several(g, Fed(t, j, After(s, t, r)), EndOf(g, s, i), EndOf(g, s, i), k + 1, []);
            Refused(g, s, out.stop, out.next)
  {
    EndsGrow(g, s, i + k, i + k + 1);
    var early, j', values := BatchFed(g, s, t, After(s, t, r), i, k, 0, j, []);
    if !early {
      LastFails(g, r, s, t, i, k, j', values);
    }
  }

  lemma {:induction false} LineFails(g: Grammar, r: nat, s: string, i: nat, k: nat, t: string)
    requires Lawful(g) && r > 0 && AtRisk(g, r, s, i, k, t)
    ensures var out := Transcript(g, Cut(s, t, r), Plan(i, k));
            Refused(g, s, out.stop, out.next)
  {
    var calls, tail := Plan(i, k), After(s, t, r);
    CutIs(s, t, r);
    EndsGrow(g, s, i + k, i + k + 1);
    EndsGrow(g, s, i, i + k);
    var early, j, got := AwaitsFed(g, s, t, tail, i, 0, calls, []);
    if !early {
      TryFails(g, r, s, i, k, t, j);
      var last := Do(g, Fed(t, j, tail), EndOf(g, s, i), calls[i]);
      assert Session(g, Fed(t, j, tail), EndOf(g, s, i), calls, got)
          == Outcome(got + [last.values], last.stop, last.wire, last.base, last.next);
    }
  }

  lemma {:induction false} CutGivesAll(g: Grammar, r: nat, m: nat, source: Reads, calls: seq<Call>)
    requires Lawful(g) && Longest(source) <= r && Within(calls, m)
    requires !Transcript(g, source, calls).stop.Ready? && !LineMayNotFit(g, r, m, Stream(source))
    ensures GaveAll(g, Stream(source), Transcript(g, source, calls))
  {
    FailedGaveAll(g, source, calls);
    if !GaveAll(g, Stream(source), Transcript(g, source, calls)) {
      TooLongAtRisk(g, source, calls, r);
    }
  }

  /** The limit is tested when a read comes while a line is incomplete, so whether a stream is
      refused depends on the cut. It cannot be refused exactly when nowhere in a line a read may not
      fit behind what the buffer holds then. */
  lemma {:induction false} EveryCutGivesAllIff(g: Grammar, r: nat, m: nat, s: string)
    requires Lawful(g) && r > 0
    ensures EveryCutGivesAll(g, r, m, s) <==> !LineMayNotFit(g, r, m, s)
  {
    if LineMayNotFit(g, r, m, s) {
      var i: nat, k: nat, t: string :| k < m && AtRisk(g, r, s, i, k, t);
      CutIs(s, t, r);
      LineFails(g, r, s, i, k, t);
      assert Within(Plan(i, k), m);
    } else {
      forall source: Reads, calls: seq<Call>
        | Stream(source) == s && Longest(source) <= r && Within(calls, m)
          && !Transcript(g, source, calls).stop.Ready?
        ensures GaveAll(g, s, Transcript(g, source, calls))
      {
        CutGivesAll(g, r, m, source, calls);
      }
    }
  }

  // ---- what follows for some streams

  /** Calls for any number of frames: a batch for all of them, from the start of the stream on, is the
      most that can be asked of the buffer. */
  lemma {:induction false} AnyCallsGiveAllIff(g: Grammar, r: nat, s: string)
    requires Lawful(g) && r > 0
    ensures (forall m: nat :: EveryCutGivesAll(g, r, m, s)) <==> !exists n: nat, t: string :: AtRisk(g, r, s, 0, n, t)
  {
    forall m: nat ensures EveryCutGivesAll(g, r, m, s) <==> !LineMayNotFit(g, r, m, s) {
      EveryCutGivesAllIff(g, r, m, s);
    }
    if n: nat, t: string :| AtRisk(g, r, s, 0, n, t) {
      assert LineMayNotFit(g, r, n + 1, s);
    } else if m: nat :| LineMayNotFit(g, r, m, s) {
      var i: nat, k: nat, t: string :| k < m && AtRisk(g, r, s, i, k, t);
      assert AtRisk(g, r, s, 0, i + k, t);
    }
  }

  /** Reads of any size: a stream can be refused exactly when it is as long as the limit and has a
      first frame. */
  lemma {:induction false} AnySizeGivesAllIff(g: Grammar, r: nat, m: nat, s: string)
    requires Lawful(g) && r > 0 && r >= |s| && m > 0 && NextAt(g, 0)("") == More(true)
    ensures EveryCutGivesAll(g, r, m, s) <==> |s| < g.limit || !NextAt(g, 0)(s).Ok?
  {
    EveryCutGivesAllIff(g, r, m, s);
    HasNext(g, s, 0);
    if LineMayNotFit(g, r, m, s) {
      var i: nat, k: nat, t: string :| k < m && AtRisk(g, r, s, i, k, t);
      EndsGrow(g, s, 1, i + k + 1);
    } else if |s| >= g.limit && NextAt(g, 0)(s).Ok? {
      assert AtRisk(g, r, s, 0, 0, "");
    }
  }

  lemma {:induction false} BulkNeedsNoLine(cfg: Config, text: string, t: string)
    requires |text| <= MAX64 && t <= BulkText('$', text) && |t| >= |Header('$', Text(|text|))|
    ensures NextAt(RespGrammar(cfg), 0)(t) != More(true)
  {
    var n := Text(|text|);
    var rest := t[|Header('$', n)|..];
    assert Header('$', n) + rest + "" == t + "" == t;
    PrefixAt(Header('$', n) + rest, "");
    CountOfText(|text|);
    HeaderTrip(cfg, t, 0, '$', n, rest);
    NextIs(cfg, t, 0);
  }

  /** A bulk as long as you like below the limit is delivered on every cut, when its first line and
      one read are within the limit. */
  lemma {:induction false} BulkIsNeverRefused(cfg: Config, r: nat, m: nat, text: string)
    requires KnownErrors(cfg) && r > 0 && |text| < cfg.maxBulk && |text| <= MAX64
    requires |Header('$', Text(|text|))| + r <= cfg.maxBulk
    ensures EveryCutGivesAll(RespGrammar(cfg), r, m, BulkText('$', text))
  {
    var g, s := RespGrammar(cfg), BulkText('$', text);
    RespIsLawful(cfg);
    EveryCutGivesAllIff(g, r, m, s);
    if LineMayNotFit(g, r, m, s) {
      var i: nat, k: nat, t: string :| k < m && AtRisk(g, r, s, i, k, t);
      OnlyFrame(cfg, text);
      if i + k > 0 {
        EndsGrow(g, s, 2, i + k + 1);
      } else if |t| >= |Header('$', Text(|text|))| {
        BulkNeedsNoLine(cfg, text, t);
      }
    }
  }

  lemma {:induction false} OnlyFrame(cfg: Config, text: string)
    requires KnownErrors(cfg) && |text| < cfg.maxBulk && |text| <= MAX64
    ensures var g, s := RespGrammar(cfg), BulkText('$', text);
            EndOf(g, s, 0) == 0 && !Has(g, s, 2)
  {
    var g, s := RespGrammar(cfg), BulkText('$', text);
    RespIsLawful(cfg);
    RoundTrip(cfg, BulkString(text), "");
    assert Encode(BulkString(text)) + "" == s;
    NextIs(cfg, s, 0);
    HasNext(g, s, 0);
    HasNext(g, s, 1);
    if Has(g, s, 2) {
      EndsGrow(g, s, 1, 2);
    }
  }

  // ---- two cuts that differ

  /** One read of the whole stream that does not fit gives nothing. */
  lemma {:induction false} OneReadTooLong(g: Grammar, s: string)
    requires |s| >= g.limit && NextAt(g, 0)("") == More(true)
    ensures var source := Reads(Data(s), Nothing);
            Stream(source) == s && Transcript(g, source, [Await]) == Outcome([[]], TooLong, Wire("", Nothing), 0, 0)
  {
    var w := Wire("", Reads(Data(s), Nothing));
    assert s + "" == s;
    assert Pull(NextAt(g, 0), Mode(true, 0, g.limit), w) == Pulled(TooLong, Wire("", Nothing));
    assert One(g, w, 0) == Given([], TooLong, Wire("", Nothing), 0, 0);
  }

  /** Two cuts of the stream "$5\r\nhello\r\n" of 11 bytes under a limit of 10: cut behind the length
      the value is delivered, and the buffer holds more than the limit; in one piece the stream is
      refused. */
  lemma {:induction false} TwoCutsDiffer(cfg: Config, head: string, tail: string)
    requires cfg.maxBulk == 10 && head == "$5\r\n" && tail == "hello\r\n"
    ensures var g, whole := RespGrammar(cfg), head + tail;
            var one, two := Reads(Data(whole), Nothing), Reads(Data(head), Reads(Data(tail), Nothing));
            && Stream(one) == Stream(two) == whole && |whole| == 11
            && Transcript(g, one, [Await]) == Outcome([[]], TooLong, Wire("", Nothing), 0, 0)
            && Transcript(g, two, [Await]) == Outcome([[BulkString("hello")]], Ready, Wire(whole, Nothing), 11, 11)
            && Pull(NextAt(g, 0), Mode(true, 0, g.limit), Wire("", two)) == Pulled(Ready, Wire(whole, Nothing))
  {
    FiveBytes(cfg, head, tail);
    TwoCuts(RespGrammar(cfg), head, tail, BulkString("hello"));
  }

  lemma {:induction false} TwoCuts(g: Grammar, head: string, tail: string, v: Value)
    requires |head| < g.limit <= |head + tail| && NextAt(g, 0)("") == More(true) && NextAt(g, 0)(head) == More(false)
    requires NextAt(g, 0)(head + tail) == Ok(v, |head + tail|)
    ensures var whole := head + tail;
            var one, two := Reads(Data(whole), Nothing), Reads(Data(head), Reads(Data(tail), Nothing));
            && Stream(one) == Stream(two) == whole
            && Transcript(g, one, [Await]) == Outcome([[]], TooLong, Wire("", Nothing), 0, 0)
            && Transcript(g, two, [Await]) == Outcome([[v]], Ready, Wire(whole, Nothing), |whole|, |whole|)
            && Pull(NextAt(g, 0), Mode(true, 0, g.limit), Wire("", two)) == Pulled(Ready, Wire(whole, Nothing))
  {
    OneReadTooLong(g, head + tail);
    InTwoPieces(g, head, tail, v);
  }

  /** A frame in two pieces, cut within a bulk: only the first piece must fit. */
  lemma {:induction false} InTwoPieces(g: Grammar, head: string, tail: string, v: Value)
    requires |head| < g.limit && NextAt(g, 0)("") == More(true) && NextAt(g, 0)(head) == More(false)
    requires NextAt(g, 0)(head + tail) == Ok(v, |head + tail|)
    ensures var source := Reads(Data(head), Reads(Data(tail), Nothing));
            var w := Wire(head + tail, Nothing);
            && Stream(source) == head + tail
            && Pull(NextAt(g, 0), Mode(true, 0, g.limit), Wire("", source)) == Pulled(Ready, w)
            && Transcript(g, source, [Await]) == Outcome([[v]], Ready, w, |head + tail|, |head + tail|)
  {
    var second := Reads(Data(tail), Nothing);
    var source := Reads(Data(head), second);
    assert Stream(second) == tail + "" == tail;
    var need, mode := NextAt(g, 0), Mode(true, 0, g.limit);
    TwoReads(need, mode, head, tail);
    assert One(g, Wire("", source), 0) == Given([v], Ready, Wire(head + tail, Nothing), |head + tail|, |head + tail|);
    assert [] + [[v]] == [[v]];
  }

  lemma {:induction false} TwoReads<T>(need: string -> Result<T>, mode: Mode, head: string, tail: string)
    requires mode.base == 0 && |head| < mode.limit
    requires need("") == More(true) && need(head) == More(false) && need(head + tail).Ok?
    ensures Pull(need, mode, Wire("", Reads(Data(head), Reads(Data(tail), Nothing))))
         == Pulled(Ready, Wire(head + tail, Nothing))
  {
    var second := Reads(Data(tail), Nothing);
    assert "" + head == head;
    assert Pull(need, mode, Wire(head + tail, Nothing)) == Pulled(Ready, Wire(head + tail, Nothing));
    assert Pull(need, mode, Wire(head, second)) == Pull(need, mode, Wire(head + tail, Nothing));
  }

  lemma {:induction false} FiveBytes(cfg: Config, head: string, tail: string)
    requires cfg.maxBulk == 10 && head == "$5\r\n" && tail == "hello\r\n"
    ensures NextAt(RespGrammar(cfg), 0)("") == More(true) && NextAt(RespGrammar(cfg), 0)(head) == More(false)
    ensures NextAt(RespGrammar(cfg), 0)(head + tail) == Ok(BulkString("hello"), |head + tail|)
  {
    var v := BulkString("hello");
    NextIs(cfg, "", 0);
    NextIs(cfg, head, 0);
    NextIs(cfg, head + tail, 0);
    CountOfText(5);
    assert Text(5) == "5";
    assert Header('$', "5") + "" == head + "" == head;
    PrefixAt(head, "");
    HeaderTrip(cfg, head, 0, '$', "5", "");
    assert Encode(v) == head + tail == Encode(v) + "";
    RoundTrip(cfg, v, "");
  }

}
