/** Exactly on which streams the buffer can reach the limit, in any call of a session. */
module StreamBuffer {
  import opened Common
  import opened Resp
  import opened StreamSpec
  import opened StreamTheorems
  import opened StreamLimits
  import opened StreamCuts

  /** The frames up to i are below the limit; a call that begins behind them has read k more and t so
      far, all of it in the buffer, and within a bulk a read of r bytes can bring it to the limit. */
  ghost predicate BulkAtRisk(g: Grammar, r: nat, s: string, i: nat, k: nat, t: string) {
    && Has(g, s, i + k) && ShortFrames(g, s, i) && t <= s && EndOf(g, s, i + k) <= |t|
    && NextAt(g, EndOf(g, s, i + k))(t) == More(false)
    && |t| - EndOf(g, s, i) < g.limit && Crowded(g, r, s, t, EndOf(g, s, i))
  }

  ghost predicate BulkMayNotFit(g: Grammar, r: nat, m: nat, s: string) {
    exists i: nat, k: nat, t: string :: k < m && BulkAtRisk(g, r, s, i, k, t)
  }

  /** In every call of every session on every cut the buffer stays below the limit. */
  ghost predicate StaysBelow(g: Grammar, r: nat, m: nat, s: string) {
    forall source: Reads, calls: seq<Call> ::
      Stream(source) == s && Longest(source) <= r && Within(calls, m)
      ==> Peak(g, Wire("", source), 0, calls, []) < g.limit
  }

  // ---- such a stream overfills the buffer

  /** The last frame of the batch: t comes into the buffer, and then all of the next read. */
  lemma {:induction false} LastFills(
      g: Grammar, r: nat, s: string, t: string, i: nat, k: nat, j: nat, values: seq<Value>)
    requires Lawful(g) && BulkAtRisk(g, r, s, i, k, t) && j <= |t|
    ensures var out := Several(g, Fed(t, j, After(s, t, r)), EndOf(g, s, i), EndOf(g, s, i + k), 1, values);
            |out.wire.received| - EndOf(g, s, i) >= g.limit
  {
    var here, tail := EndOf(g, s, i + k), After(s, t, r);
    var need, mode := NextAt(g, here), Mode(false, EndOf(g, s, i), g.limit);
    var _ := FedPull(g, here, mode, t, j, tail);
    var w := Take(mode, false, Wire(t, tail)).wire;
    assert Pull(need, mode, Wire(t, tail)) == Pull(need, mode, w);
    PullVerdict(need, mode, w);
    assert |w.received| == |t| + Min(r, |s| - |t|);
  }

  lemma {:induction false} TryFills(g: Grammar, r: nat, s: string, i: nat, k: nat, t: string, j: nat)
    requires Lawful(g) && BulkAtRisk(g, r, s, i, k, t) && j <= |t|
    ensures var out := Several(g, Fed(t, j, After(s, t, r)), EndOf(g, s, i), EndOf(g, s, i), k + 1, []);
            |out.wire.received| - EndOf(g, s, i) >= g.limit
  {
    var early, j', values := BatchFed(g, s, t, After(s, t, r), i, k, 0, j, []);
    if !early {
      LastFills(g, r, s, t, i, k, j', values);
    }
  }

  lemma {:induction false} BulkFills(g: Grammar, r: nat, s: string, i: nat, k: nat, t: string)
    requires Lawful(g) && r > 0 && BulkAtRisk(g, r, s, i, k, t)
    ensures Peak(g, Wire("", Cut(s, t, r)), 0, Plan(i, k), []) >= g.limit
  {
    var calls, tail := Plan(i, k), After(s, t, r);
    CutIs(s, t, r);
    EndsGrow(g, s, i, i + k);
    var early, j, got := AwaitsFed(g, s, t, tail, i, 0, calls, []);
    TryFills(g, r, s, i, k, t, j);
    assert Do(g, Fed(t, j, tail), EndOf(g, s, i), calls[i])
        == Several(g, Fed(t, j, tail), EndOf(g, s, i), EndOf(g, s, i), k + 1, []);
  }

  // ---- only such a stream overfills the buffer

  /** Only a read for a bulk brings the buffer to the limit. */
  lemma {:induction false} PullFills(
      g: Grammar, here: nat, mode: Mode, w: Wire, whole: string, r: nat) returns (t: string)
    requires Joined(w, whole, r) && mode.limit == g.limit && |w.received| - mode.base < g.limit
    requires |Pull(NextAt(g, here), mode, w).wire.received| - mode.base >= g.limit
    ensures w.received <= t <= whole && NextAt(g, here)(t) == More(false)
    ensures |t| - mode.base < g.limit && Crowded(g, r, whole, t, mode.base)
    decreases w.source
  {
    var line := NextAt(g, here)(w.received).line;
    var out := Take(mode, line, w);
    TakeStream(mode, line, w, whole, r);
    TakeAtMost(mode, line, w, r);
    if |out.wire.received| - mode.base >= g.limit {
      t := w.received;
    } else {
      t := PullFills(g, here, mode, out.wire, whole, r);
    }
  }

  lemma {:induction false} TakeAtMost(mode: Mode, line: bool, w: Wire, r: nat)
    requires Longest(w.source) <= r
    ensures var out := Take(mode, line, w);
            |out.wire.received| <= |w.received| + r && (line ==>
              out.wire.received == w.received || |out.wire.received| - mode.base < mode.limit)
    ensures w.received <= Take(mode, line, w).wire.received
  {
    SkipStream(mode.await, w.source);
  }

  /** The call under way reads k of its frames from t before the buffer reaches the limit. */
  ghost predicate Fills(g: Grammar, r: nat, s: string, i: nat, base: nat, k: nat, t: string) {
    && Has(g, s, i + k) && t <= s && EndOf(g, s, i + k) <= |t|
    && NextAt(g, EndOf(g, s, i + k))(t) == More(false)
    && |t| - base < g.limit && Crowded(g, r, s, t, base)
  }

  lemma {:induction false} FrameFills(
      g: Grammar, s: string, r: nat, mode: Mode, w: Wire, i: nat, q: nat) returns (t: string)
    requires Joined(w, s, r) && mode.limit == g.limit && Has(g, s, i + q)
    requires EndOf(g, s, i + q) <= |w.received| && |w.received| - mode.base < g.limit
    requires |Pull(NextAt(g, EndOf(g, s, i + q)), mode, w).wire.received| - mode.base >= g.limit
    ensures Fills(g, r, s, i, mode.base, q, t)
  {
    t := PullFills(g, EndOf(g, s, i + q), mode, w, s, r);
  }

  lemma {:induction false} SeveralFill(
      g: Grammar, s: string, r: nat, w: Wire, i: nat, base: nat, q: nat, n: nat, values: seq<Value>)
      returns (k: nat, t: string)
    requires Lawful(g) && Joined(w, s, r) && Has(g, s, i + q)
    requires base <= EndOf(g, s, i + q) <= |w.received| && |w.received| - base < g.limit
    requires |Several(g, w, base, EndOf(g, s, i + q), n, values).wire.received| - base >= g.limit
    ensures q <= k < q + n && Fills(g, r, s, i, base, k, t)
    decreases n
  {
    var here, mode := EndOf(g, s, i + q), Mode(false, base, g.limit);
    var out := Pull(NextAt(g, here), mode, w);
    if |out.wire.received| - base >= g.limit {
      k := q;
      t := FrameFills(g, s, r, mode, w, i, q);
    } else {
      FrameReads(g, s, r, mode, w, here);
      PullVerdict(NextAt(g, here), mode, w);
      HasNext(g, s, i + q);
      var v := NextAt(g, here)(out.wire.received);
      k, t := SeveralFill(g, s, r, out.wire, i, base, q + 1, n - 1, values + [v.value]);
    }
  }

  lemma {:induction false} CallFills(g: Grammar, s: string, r: nat, w: Wire, i: nat, call: Call)
      returns (k: nat, t: string)
    requires Lawful(g) && Joined(w, s, r) && Has(g, s, i)
    requires EndOf(g, s, i) <= |w.received| && |w.received| - EndOf(g, s, i) < g.limit
    requires |Do(g, w, EndOf(g, s, i), call).wire.received| - EndOf(g, s, i) >= g.limit
    ensures k < Wanted(call) && Fills(g, r, s, i, EndOf(g, s, i), k, t)
  {
    var base := EndOf(g, s, i);
    match call
    case Await =>
      k := 0;
      t := FrameFills(g, s, r, Mode(true, base, g.limit), w, i, 0);
    case Try(n) => k, t := SeveralFill(g, s, r, w, i, base, 0, n, []);
  }

  /** The frames a call has read were in the buffer together. */
  lemma {:induction false} StillShort(g: Grammar, s: string, i: nat, j: nat)
    requires Lawful(g) && i <= j && Has(g, s, j) && ShortFrames(g, s, i)
    requires EndOf(g, s, j) - EndOf(g, s, i) < g.limit
    ensures ShortFrames(g, s, j)
  {
    forall q: nat | i <= q < j ensures EndOf(g, s, q + 1) - EndOf(g, s, q) < g.limit {
      EndsGrow(g, s, i, j);
      EndsGrow(g, s, q + 1, j);
      EndsGrow(g, s, i, q + 1);
      EndsGrow(g, s, q, q + 1);
      EndsGrow(g, s, i, q);
    }
  }

  lemma {:induction false} SessionFills(
      g: Grammar, s: string, r: nat, m: nat, w: Wire, base: nat, calls: seq<Call>, got: seq<seq<Value>>)
    requires Lawful(g) && Joined(w, s, r) && StartsWith(g, s, Flat(got), base) && |got| <= |calls|
    requires base <= |w.received| && |w.received| - base < g.limit && Within(calls, m)
    requires ShortFrames(g, s, |Flat(got)|) && Peak(g, w, base, calls, got) >= g.limit > 0
    ensures BulkMayNotFit(g, r, m, s)
    decreases |calls| - |got|
  {
    var i, call := |Flat(got)|, calls[|got|];
    var out := Do(g, w, base, call);
    StartEnds(g, s, Flat(got), base);
    if |out.wire.received| - base >= g.limit {
      var k, t := CallFills(g, s, r, w, i, call);
      assert BulkAtRisk(g, r, s, i, k, t);
    } else {
      var got' := got + [out.values];
      DoReads(g, s, r, w, base, call, Flat(got));
      assert got'[..|got|] == got;
      StartEnds(g, s, Flat(got'), out.next);
      EndsGrow(g, s, i, |Flat(got')|);
      StillShort(g, s, i, |Flat(got')|);
      SessionFills(g, s, r, m, out.wire, out.base, calls, got');
    }
  }

  /** The buffer stays below the limit, in every call, for every cut and all lists of calls, exactly
      when nowhere within a bulk, behind frames below the limit, a read can bring it there. */
  lemma {:induction false} BufferStaysBelowIff(g: Grammar, r: nat, m: nat, s: string)
    requires Lawful(g) && r > 0 && g.limit > 0
    ensures StaysBelow(g, r, m, s) <==> !BulkMayNotFit(g, r, m, s)
  {
    if BulkMayNotFit(g, r, m, s) {
      var i: nat, k: nat, t: string :| k < m && BulkAtRisk(g, r, s, i, k, t);
      CutIs(s, t, r);
      BulkFills(g, r, s, i, k, t);
      assert Within(Plan(i, k), m);
    } else {
      forall source: Reads, calls: seq<Call>
        | Stream(source) == s && Longest(source) <= r && Within(calls, m)
        ensures Peak(g, Wire("", source), 0, calls, []) < g.limit
      {
        assert "" + s == s;
        if Peak(g, Wire("", source), 0, calls, []) >= g.limit {
          SessionFills(g, s, r, m, Wire("", source), 0, calls, []);
        }
      }
    }
  }
}
