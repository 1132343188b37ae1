/**
 The limit of the buffer and what it means for delivery. A read has at most r bytes, a call is made
 for at most m frames; the stream may be of any length.
 */
module StreamLimits {
  import opened Common
  import opened Resp
  import opened StreamSpec
  import opened StreamSteps
  import opened StreamTheorems

  ghost predicate Within(calls: seq<Call>, m: nat) {
    forall i :: 0 <= i < |calls| ==> Wanted(calls[i]) <= m
  }

  // ---- where the frames of a stream end

  ghost predicate Has(g: Grammar, s: string, n: nat) { Repeat(g.frames(s), 0, n).Ok? }

  /** Where the first n frames of s end. */
  ghost function EndOf(g: Grammar, s: string, n: nat): nat {
    var run := Repeat(g.frames(s), 0, n);
    if run.Ok? then run.next else 0
  }

  lemma {:induction false} StartEnds(g: Grammar, s: string, values: seq<Value>, next: nat)
    requires StartsWith(g, s, values, next)
    ensures Has(g, s, |values|) && EndOf(g, s, |values|) == next
  {
  }

  lemma {:induction false} HasNext(g: Grammar, s: string, n: nat)
    ensures Has(g, s, n + 1) <==> Has(g, s, n) && NextAt(g, EndOf(g, s, n))(s).Ok?
    ensures Has(g, s, n + 1) ==> EndOf(g, s, n + 1) == NextAt(g, EndOf(g, s, n))(s).next
  {
  }

  lemma {:induction false} EndsGrow(g: Grammar, s: string, i: nat, n: nat)
    requires Lawful(g) && i <= n && Has(g, s, n)
    ensures Has(g, s, i) && EndOf(g, s, i) <= EndOf(g, s, n) <= |s|
    ensures i < n ==> EndOf(g, s, i) < EndOf(g, s, n)
  {
    assert Proper(g, s);
    RunsGrow(g.frames(s), |s|, i, n);
  }

  lemma {:induction false} RunsGrow<T(!new)>(f: nat -> Result<T>, hi: nat, i: nat, n: nat)
    requires i <= n && Inside(f, hi) && Repeat(f, 0, n).Ok?
    ensures Repeat(f, 0, i).Ok? && Repeat(f, 0, i).next <= Repeat(f, 0, n).next <= hi
    ensures i < n ==> Repeat(f, 0, i).next < Repeat(f, 0, n).next
    decreases n
  {
    if n > 0 {
      RunsGrow(f, hi, if i < n then i else n - 1, n - 1);
    }
  }

  /** A frame of s that t leaves undecided ends behind t. */
  lemma {:induction false} EndsBehind(g: Grammar, s: string, t: string, here: nat)
    requires Lawful(g) && t <= s && NextAt(g, here)(s).Ok? && NextAt(g, here)(t).More?
    ensures |t| < NextAt(g, here)(s).next
  {
    assert Agree(g, t, s);
  }

  /** A frame of s that ends within t is read from t. */
  lemma {:induction false} EndsWithin(g: Grammar, s: string, t: string, here: nat)
    requires Lawful(g) && t <= s && NextAt(g, here)(s).Ok? && NextAt(g, here)(s).next <= |t|
    ensures NextAt(g, here)(t) == NextAt(g, here)(s)
  {
    assert Agree(g, t, s);
  }

  // ---- where a read may not fit

  /** A call that began behind frame i has read k frames and t so far; within a line of the next one
      a read of r bytes can bring the buffer to the limit. */
  ghost predicate AtRisk(g: Grammar, r: nat, s: string, i: nat, k: nat, t: string) {
    && Has(g, s, i + k + 1) && t <= s && EndOf(g, s, i + k) <= |t|
    && NextAt(g, EndOf(g, s, i + k))(t) == More(true)
    && Crowded(g, r, s, t, EndOf(g, s, i))
  }

  /** That happens nowhere in the first n frames. */
  ghost predicate NoRisk(g: Grammar, r: nat, m: nat, s: string, n: nat) {
    forall i: nat, k: nat, t: string :: k < m && i + k < n ==> !AtRisk(g, r, s, i, k, t)
  }

  lemma {:induction false} TooLongAtRisk(g: Grammar, source: Reads, calls: seq<Call>, r: nat)
    requires Lawful(g) && Longest(source) <= r
    requires var out := Transcript(g, source, calls);
             out.stop.TooLong? && NextAt(g, out.next)(Stream(source)).Ok?
    ensures var got := Transcript(g, source, calls).got;
            && got != [] && |got| <= |calls| && |got[|got| - 1]| < Wanted(calls[|got| - 1])
            && |Flat(got)| == |Earlier(got)| + |got[|got| - 1]|
            && AtRisk(g, r, Stream(source), |Earlier(got)|, |got[|got| - 1]|,
                      Transcript(g, source, calls).wire.received)
  {
    var out, s := Transcript(g, source, calls), Stream(source);
    TranscriptReadsStream(g, source, calls);
    StartEnds(g, s, Flat(out.got), out.next);
    StartEnds(g, s, Earlier(out.got), out.base);
    HasNext(g, s, |Flat(out.got)|);
  }

  /** A session of calls for at most m frames, on reads of at most r bytes, that fails has given the
      first n frames of its stream if no read is at risk there. */
  lemma {:induction false} SessionGives(g: Grammar, source: Reads, calls: seq<Call>, r: nat, m: nat, n: nat)
    requires Lawful(g) && Longest(source) <= r && Within(calls, m)
    requires Has(g, Stream(source), n) && NoRisk(g, r, m, Stream(source), n)
    ensures var out := Transcript(g, source, calls);
            out.stop.Ready? || |Flat(out.got)| >= n
  {
    var out, s := Transcript(g, source, calls), Stream(source);
    var k := |Flat(out.got)|;
    if !out.stop.Ready? && k < n {
      TranscriptReadsStream(g, source, calls);
      StartEnds(g, s, Flat(out.got), out.next);
      EndsGrow(g, s, k + 1, n);
      HasNext(g, s, k);
      FailedGaveAll(g, source, calls);
      TooLongAtRisk(g, source, calls, r);
    }
  }

  /** Any m of the first n frames in a row, and one read, are within the limit. */
  ghost predicate FramesFit(g: Grammar, s: string, r: nat, m: nat, n: nat) {
    forall i: nat, j: nat :: i < j <= n && j <= i + m ==> EndOf(g, s, j) - EndOf(g, s, i) + r <= g.limit
  }

  lemma {:induction false} FitNoRisk(g: Grammar, r: nat, m: nat, s: string, n: nat)
    requires Lawful(g) && FramesFit(g, s, r, m, n)
    ensures NoRisk(g, r, m, s, n)
  {
    forall i: nat, k: nat, t: string | k < m && i + k < n ensures !AtRisk(g, r, s, i, k, t) {
      var j := i + k + 1;
      assert EndOf(g, s, j) - EndOf(g, s, i) + r <= g.limit;
      HasNext(g, s, i + k);
      if AtRisk(g, r, s, i, k, t) {
        EndsBehind(g, s, t, EndOf(g, s, i + k));
      }
    }
  }

  lemma {:induction false} ShortNoRisk(g: Grammar, r: nat, m: nat, s: string, n: nat)
    requires |s| < g.limit
    ensures NoRisk(g, r, m, s, n)
  {
  }

  /** The stream has these n frames and no more, and any m of them in a row fit. */
  ghost predicate AllFramesFit(g: Grammar, s: string, r: nat, m: nat, n: nat) {
    Has(g, s, n) && !Has(g, s, n + 1) && FramesFit(g, s, r, m, n)
  }

  /** Then a session that fails has given them all. */
  lemma {:induction false} FailedHasAll(g: Grammar, source: Reads, calls: seq<Call>, r: nat, m: nat, n: nat)
    requires Lawful(g) && Longest(source) <= r && Within(calls, m) && AllFramesFit(g, Stream(source), r, m, n)
    ensures var out := Transcript(g, source, calls);
            out.stop.Ready? || (|Flat(out.got)| == n && GaveAll(g, Stream(source), out))
  {
    var out, s := Transcript(g, source, calls), Stream(source);
    FitNoRisk(g, r, m, s, n);
    SessionGives(g, source, calls, r, m, n);
    TranscriptReadsStream(g, source, calls);
    StartEnds(g, s, Flat(out.got), out.next);
    if |Flat(out.got)| > n {
      EndsGrow(g, s, n + 1, |Flat(out.got)|);
    }
    HasNext(g, s, n);
  }

  // ---- what awaiting calls deliver

  lemma {:induction false} FlatOnes(got: seq<seq<Value>>)
    requires forall i :: 0 <= i < |got| ==> |got[i]| == 1
    ensures |Flat(got)| == |got|
  {
    if got != [] {
      FlatOnes(got[..|got| - 1]);
    }
  }

  lemma {:induction false} FlatAtMost(got: seq<seq<Value>>)
    requires forall i :: 0 <= i < |got| - 1 ==> |got[i]| == 1
    requires got != [] && got[|got| - 1] == []
    ensures |Flat(got)| < |got|
  {
    FlatOnes(got[..|got| - 1]);
  }

  lemma {:induction false} AwaitFails(g: Grammar, w: Wire, base: nat, calls: seq<Call>, got: seq<seq<Value>>)
    requires |got| <= |calls| && forall i :: 0 <= i < |calls| ==> calls[i] == Await
    ensures var out := Session(g, w, base, calls, got);
            !out.stop.Ready? ==> out.got != [] && out.got[|out.got| - 1] == []
    decreases |calls| - |got|
  {
    if |got| < |calls| {
      var first := Do(g, w, base, calls[|got|]);
      PullVerdict(NextAt(g, base), Mode(true, base, g.limit), w);
      if first.stop.Ready? {
        AwaitFails(g, first.wire, first.base, calls, got + [first.values]);
      }
    }
  }

  ghost predicate AllAwait(calls: seq<Call>) { forall i :: 0 <= i < |calls| ==> calls[i] == Await }

  lemma {:induction false} AwaitCounts(g: Grammar, source: Reads, calls: seq<Call>)
    requires AllAwait(calls)
    ensures var out := Transcript(g, source, calls);
            if out.stop.Ready? then |Flat(out.got)| == |calls| else |Flat(out.got)| < |calls|
  {
    var out := Transcript(g, source, calls);
    SessionProgress(g, Wire("", source), 0, calls, []);
    if out.stop.Ready? {
      FlatOnes(out.got);
    } else {
      AwaitFails(g, Wire("", source), 0, calls, []);
      FlatAtMost(out.got);
    }
  }

  lemma {:induction false} AwaitingGives(g: Grammar, source: Reads, calls: seq<Call>, r: nat)
    requires Lawful(g) && Longest(source) <= r && AllAwait(calls)
    requires Has(g, Stream(source), |calls|) && NoRisk(g, r, 1, Stream(source), |calls|)
    ensures var out := Transcript(g, source, calls);
            out.stop.Ready? && StartsWith(g, Stream(source), Flat(out.got), out.next) && |Flat(out.got)| == |calls|
  {
    TranscriptReadsStream(g, source, calls);
    AwaitCounts(g, source, calls);
    SessionGives(g, source, calls, r, 1, |calls|);
  }

  /** On a stream of any length: n awaiting calls deliver its first n frames, whatever the cut into
      reads of at most r bytes, when each of those frames and one read are within the limit. */
  lemma {:induction false} AwaitingDelivers(g: Grammar, source: Reads, calls: seq<Call>, r: nat)
    requires Lawful(g) && Longest(source) <= r && AllAwait(calls)
    requires Has(g, Stream(source), |calls|)
    requires forall i: nat :: i < |calls| ==>
               EndOf(g, Stream(source), i + 1) - EndOf(g, Stream(source), i) + r <= g.limit
    ensures var out := Transcript(g, source, calls);
            out.stop.Ready? && StartsWith(g, Stream(source), Flat(out.got), out.next) && |Flat(out.got)| == |calls|
  {
    var s := Stream(source);
    forall i: nat, j: nat | i < j <= |calls| && j <= i + 1
      ensures EndOf(g, s, j) - EndOf(g, s, i) + r <= g.limit
    {
      assert j == i + 1;
    }
    FitNoRisk(g, r, 1, s, |calls|);
    AwaitingGives(g, source, calls, r);
  }

  /** The same for a stream below the limit and reads of any size. */
  lemma {:induction false} AwaitingDeliversShort(g: Grammar, source: Reads, calls: seq<Call>)
    requires Lawful(g) && |Stream(source)| < g.limit && AllAwait(calls)
    requires Has(g, Stream(source), |calls|)
    ensures var out := Transcript(g, source, calls);
            out.stop.Ready? && StartsWith(g, Stream(source), Flat(out.got), out.next) && |Flat(out.got)| == |calls|
  {
    ShortNoRisk(g, Longest(source), 1, Stream(source), |calls|);
    AwaitingGives(g, source, calls, Longest(source));
  }

  // ---- encoded values

  /** The first results in a row are these items, one behind the other. */
  ghost predicate HasItems<T>(f: nat -> Result<T>, items: seq<T>, texts: seq<string>)
    requires |texts| == |items|
  {
    forall n: nat :: n <= |items| ==> Repeat(f, 0, n) == Ok(items[..n], |Concat(texts, n)|)
  }

  lemma {:induction false} EncodedHasItems(cfg: Config, items: seq<Value>, rest: string)
    requires EncodableList(cfg, items)
    ensures HasItems(RespGrammar(cfg).frames(Concat(EncodeAll(items), |items|) + rest), items, EncodeAll(items))
  {
    forall n: nat | n <= |items|
      ensures Repeat(RespGrammar(cfg).frames(Concat(EncodeAll(items), |items|) + rest), 0, n)
           == Ok(items[..n], |Concat(EncodeAll(items), n)|)
    {
      StreamRoundTrip(cfg, items, n, rest);
    }
  }

  lemma {:induction false} RunOfItems<T>(
      f: nat -> Result<T>, items: seq<T>, texts: seq<string>, values: seq<T>, next: nat)
    requires |texts| == |items| && HasItems(f, items, texts) && Repeat(f, 0, |values|) == Ok(values, next)
    ensures values <= items || items <= values
    ensures |values| <= |items| ==> next == |Concat(texts, |values|)|
    ensures !f(next).Ok? ==> items <= values
  {
    if |values| < |items| {
      assert Repeat(f, 0, |values|) == Ok(items[..|values|], next);
      assert Repeat(f, 0, |values| + 1).Ok?;
    } else {
      assert Repeat(f, 0, |items|).value == items[..|items|] == items;
      RunPrefix(f, 0, |items|, |values|);
    }
  }

  /** Any m of these texts in a row, and one read, are within the limit. */
  ghost predicate TextsFit(limit: nat, texts: seq<string>, r: nat, m: nat) {
    forall i: nat, j: nat :: i < j <= |texts| && j <= i + m ==>
      |Concat(texts, j)| - |Concat(texts, i)| + r <= limit
  }

  lemma {:induction false} ItemsFit(
      g: Grammar, s: string, items: seq<Value>, texts: seq<string>, r: nat, m: nat)
    requires |texts| == |items| && HasItems(g.frames(s), items, texts) && TextsFit(g.limit, texts, r, m)
    ensures Has(g, s, |items|) && FramesFit(g, s, r, m, |items|)
  {
    forall i: nat | i <= |items| ensures EndOf(g, s, i) == |Concat(texts, i)| {
      assert Repeat(g.frames(s), 0, i) == Ok(items[..i], |Concat(texts, i)|);
    }
  }

  /** A socket that delivers encoded values, in any reads of at most r bytes: whatever calls are made
      give those values in order. When any m of them in a row and one read are within the limit, a
      session of calls for at most m frames that fails has given all of them, and one awaiting call
      for each gives all of them; the stream may be of any length. */
  lemma {:induction false} EncodedStreamIsDelivered(
      cfg: Config, items: seq<Value>, rest: string, source: Reads, calls: seq<Call>, r: nat, m: nat)
    requires KnownErrors(cfg) && EncodableList(cfg, items) && Longest(source) <= r && Within(calls, m)
    requires Stream(source) == Concat(EncodeAll(items), |items|) + rest
    ensures var out := Transcript(RespGrammar(cfg), source, calls);
            var values := Flat(out.got);
            && (values <= items || items <= values)
            && (|values| <= |items| ==> out.next == |Concat(EncodeAll(items), |values|)|)
            && (TextsFit(cfg.maxBulk, EncodeAll(items), r, m) ==>
                  && (!out.stop.Ready? ==> items <= values)
                  && (AllAwait(calls) && |calls| == |items| ==> values == items))
  {
    var g, s := RespGrammar(cfg), Stream(source);
    var out := Transcript(g, source, calls);
    RespIsLawful(cfg);
    TranscriptReadsStream(g, source, calls);
    EncodedHasItems(cfg, items, rest);
    RunOfItems(g.frames(s), items, EncodeAll(items), Flat(out.got), out.next);
    if TextsFit(g.limit, EncodeAll(items), r, m) {
      ItemsFit(g, s, items, EncodeAll(items), r, m);
      FitNoRisk(g, r, m, s, |items|);
      SessionGives(g, source, calls, r, m, |items|);
      if AllAwait(calls) {
        AwaitCounts(g, source, calls);
      }
    }
  }
}
