/**
 Sending one batch of the ring: `writev` may accept fewer bytes than offered; the writer then
 moves its iovec window forward in place and tries again.
 */
module WriteBatch {
  import opened Common

  /** All bytes of a list of buffers, in order. */
  function Join(bufs: seq<string>): string {
    if bufs == [] then "" else bufs[0] + Join(bufs[1..])
  }

  /** The buffers that remain after `k` bytes were accepted. */
  function Advance(bufs: seq<string>, k: nat): seq<string>
    requires k < |Join(bufs)|
  {
    if k >= |bufs[0]| then Advance(bufs[1..], k - |bufs[0]|) else [bufs[0][k..]] + bufs[1..]
  }

  lemma {:induction false} JoinAdvance(bufs: seq<string>, k: nat)
    requires k < |Join(bufs)|
    ensures Join(Advance(bufs, k)) == Join(bufs)[k..]
  {
    if k >= |bufs[0]| {
      JoinAdvance(bufs[1..], k - |bufs[0]|);
      assert Join(bufs)[k..] == Join(bufs[1..])[k - |bufs[0]|..];
    } else {
      assert ([bufs[0][k..]] + bufs[1..])[1..] == bufs[1..];
    }
  }

  lemma {:induction false} Associative(a: string, b: string, c: string)
    ensures a + b + c == a + (b + c)
  {
  }

  lemma {:induction false} JoinConcat(a: seq<string>, b: seq<string>)
    ensures Join(a + b) == Join(a) + Join(b)
  {
    if a == [] {
      assert a + b == b;
    } else {
      JoinConcat(a[1..], b);
      assert (a + b)[0] == a[0] && (a + b)[1..] == a[1..] + b;
      Associative(a[0], Join(a[1..]), Join(b));
    }
  }

  /** One iovec entry: `len` bytes of `buf` from `off` on. */
  datatype IoVec = IoVec(buf: string, off: nat, len: nat) {
    predicate Valid() { off + len <= |buf| }
    function Rest(): string requires Valid() { buf[off..off + len] }
  }

  predicate AllValid(iovs: seq<IoVec>) {
    forall i :: 0 <= i < |iovs| ==> iovs[i].Valid()
  }

  function Rests(iovs: seq<IoVec>): seq<string>
    requires AllValid(iovs)
  {
    if iovs == [] then [] else [iovs[0].Rest()] + Rests(iovs[1..])
  }

  function TotalLen(iovs: seq<IoVec>): nat {
    if iovs == [] then 0 else iovs[0].len + TotalLen(iovs[1..])
  }

  lemma {:induction false} TotalLenIsJoin(iovs: seq<IoVec>)
    requires AllValid(iovs)
    ensures TotalLen(iovs) == |Join(Rests(iovs))|
  {
    if iovs != [] {
      TotalLenIsJoin(iovs[1..]);
      assert Rests(iovs)[1..] == Rests(iovs[1..]);
    }
  }

  /** The window after `k` bytes of its first entry were accepted. */
  function Shorten(iovs: seq<IoVec>, k: nat): seq<IoVec>
    requires iovs != [] && k < iovs[0].len
  {
    [iovs[0].(off := iovs[0].off + k, len := iovs[0].len - k)] + iovs[1..]
  }

  lemma {:induction false} ShortenAdvances(iovs: seq<IoVec>, k: nat)
    requires AllValid(iovs) && iovs != [] && k < iovs[0].len
    ensures AllValid(Shorten(iovs, k))
    ensures k < |Join(Rests(iovs))| && Rests(Shorten(iovs, k)) == Advance(Rests(iovs), k)
  {
  }

  lemma {:induction false} SkipAdvances(iovs: seq<IoVec>, k: nat)
    requires AllValid(iovs) && k < |Join(Rests(iovs))| && iovs[0].len <= k
    ensures k - iovs[0].len < |Join(Rests(iovs[1..]))|
    ensures Advance(Rests(iovs), k) == Advance(Rests(iovs[1..]), k - iovs[0].len)
  {
  }

  /** What one call of `writev` returned: an error, or the number of bytes accepted. */
  datatype WriteResult = Error(err: int) | Accepted(n: nat)

  datatype Outcome = Sent | Failed(err: int) | StillWaiting

  /** The kernel never accepts more than it was offered: each result in `results`, taken in turn,
      is an error or at most the bytes that remain. */
  ghost predicate Plausible(results: seq<WriteResult>, i: nat, remaining: nat)
    requires i <= |results|
    decreases |results| - i
  {
    i < |results| && results[i].Accepted? ==>
      results[i].n <= remaining && Plausible(results, i + 1, remaining - results[i].n)
  }

  /** What becomes of a batch, and how many of its bytes are sent. */
  datatype Progress = Progress(outcome: Outcome, bytes: nat)

  /** The progress that the results from i on lead to when `sent` of `total` bytes are sent: it
      ends with the batch or with the first failure, an accepted count of 0 being one. */
  function Expected(results: seq<WriteResult>, i: nat, sent: nat, total: nat): Progress
    requires i <= |results|
    decreases |results| - i
  {
    if i == |results| then Progress(StillWaiting, sent)
    else if results[i].Error? then Progress(Failed(results[i].err), sent)
    else if results[i].n == 0 then Progress(Failed(ECONNRESET), sent)
    else if sent + results[i].n >= total then Progress(Sent, sent + results[i].n)
    else Expected(results, i + 1, sent + results[i].n, total)
  }

  /** The bytes the first n results accepted. */
  function Taken(results: seq<WriteResult>, n: nat): nat
    requires n <= |results|
  {
    if n == 0 then 0
    else Taken(results, n - 1) + (match results[n - 1] case Accepted(k) => k case Error(_) => 0)
  }

  /** The first i calls accepted something, and not yet everything. */
  predicate GoesOn(results: seq<WriteResult>, total: nat, i: nat) {
    i <= |results| && forall k :: 0 <= k < i ==> Partial(results, total, k)
  }

  predicate Partial(results: seq<WriteResult>, total: nat, k: nat)
    requires k < |results|
  {
    results[k].Accepted? && results[k].n > 0 && Taken(results, k + 1) < total
  }

  /** Call number i decides the batch: it is sent when that call accepts the last bytes, it fails
      with the error of that call or with ECONNRESET (104) when the call accepts nothing, and the
      loop waits on when there is no such call. */
  predicate Decides(results: seq<WriteResult>, total: nat, i: nat, p: Progress) {
    && GoesOn(results, total, i)
    && match p.outcome
       case Sent => i < |results| && results[i].Accepted? && results[i].n > 0
                    && p.bytes == Taken(results, i + 1) >= total
       case Failed(e) => i < |results| && p.bytes == Taken(results, i)
                         && (results[i] == Error(e) || (results[i] == Accepted(0) && e == 104))
       case StillWaiting => i == |results| && p.bytes == Taken(results, i)
  }

  lemma {:induction false} ExpectedDecided(results: seq<WriteResult>, total: nat, i: nat) returns (j: nat)
    requires GoesOn(results, total, i)
    ensures Decides(results, total, j, Expected(results, i, Taken(results, i), total))
    decreases |results| - i
  {
    j := i;
    if i < |results| && results[i].Accepted? && results[i].n > 0 && Taken(results, i + 1) < total {
      assert Partial(results, total, i);
      j := ExpectedDecided(results, total, i + 1);
    }
  }

  lemma {:induction false} DecidesNow(results: seq<WriteResult>, total: nat, i: nat, p: Progress)
    requires Decides(results, total, i, p)
    ensures i == |results| || (i < |results| && !Partial(results, total, i))
  {
  }

  lemma {:induction false} DecidedOnce(
      results: seq<WriteResult>, total: nat, i: nat, p: Progress, j: nat, q: Progress)
    requires Decides(results, total, i, p) && Decides(results, total, j, q)
    ensures i == j && p == q
  {
    DecidesNow(results, total, i, p);
    DecidesNow(results, total, j, q);
  }

  /** The progress of a batch is what the first decisive call makes of it, and nothing else. */
  lemma {:induction false} ProgressIff(results: seq<WriteResult>, total: nat, p: Progress)
    ensures p == Expected(results, 0, 0, total) <==> exists i: nat :: Decides(results, total, i, p)
  {
    var j := ExpectedDecided(results, total, 0);
    forall i: nat | Decides(results, total, i, p) ensures p == Expected(results, 0, 0, total) {
      DecidedOnce(results, total, i, p, j, Expected(results, 0, 0, total));
    }
  }

  /** The last entry reached is shortened in place. */
  method ShortenFirst(iovs: array<IoVec>, p: nat, k: nat)
    requires p < iovs.Length && k < iovs[p].len
    modifies iovs
    ensures iovs[p..] == old(Shorten(iovs[p..], k))
  {
    iovs[p] := iovs[p].(off := iovs[p].off + k, len := iovs[p].len - k);
  }

  /** The inner loop: `k` bytes were accepted from the entries `p ..`, fewer than they hold. */
  method MoveWindow(iovs: array<IoVec>, p: nat, numEvs: nat, k: nat) returns (p': nat, numEvs': nat)
    requires p + numEvs == iovs.Length
    requires AllValid(iovs[p..]) && k < |Join(Rests(iovs[p..]))|
    modifies iovs
    ensures p <= p' < iovs.Length && p' + numEvs' == iovs.Length
    ensures AllValid(iovs[p'..]) && Rests(iovs[p'..]) == old(Advance(Rests(iovs[p..]), k))
  {
    ghost var goal := Advance(Rests(iovs[p..]), k);
    p', numEvs' := p, numEvs;
    var consumed: nat := k;
    while consumed >= iovs[p'].len
      invariant p <= p' < iovs.Length && p' + numEvs' == iovs.Length
      invariant AllValid(iovs[p'..]) && consumed < |Join(Rests(iovs[p'..]))|
      invariant Advance(Rests(iovs[p'..]), consumed) == goal
      decreases iovs.Length - p'
      modifies {}
    {
      SkipAdvances(iovs[p'..], consumed);
      assert iovs[p'..][1..] == iovs[p' + 1..];
      consumed := consumed - iovs[p'].len;
      p', numEvs' := p' + 1, numEvs' - 1;
    }
    ShortenAdvances(iovs[p'..], consumed);
    ShortenFirst(iovs, p', consumed);
  }

  /** Seen as bytes: exactly those after the accepted ones remain. */
  method MoveOn(iovs: array<IoVec>, p: nat, numEvs: nat, k: nat) returns (p': nat, numEvs': nat)
    requires p + numEvs == iovs.Length
    requires AllValid(iovs[p..]) && k < |Join(Rests(iovs[p..]))|
    modifies iovs
    ensures p <= p' < iovs.Length && p' + numEvs' == iovs.Length && AllValid(iovs[p'..])
    ensures Join(Rests(iovs[p'..])) == old(Join(Rests(iovs[p..]))[k..])
    ensures TotalLen(iovs[p'..]) == old(TotalLen(iovs[p..])) - k
  {
    TotalLenIsJoin(iovs[p..]);
    JoinAdvance(Rests(iovs[p..]), k);
    p', numEvs' := MoveWindow(iovs, p, numEvs, k);
    TotalLenIsJoin(iovs[p'..]);
  }

  lemma {:induction false} Accept(wire: string, rest: string, n: nat)
    requires n <= |rest|
    ensures (wire + rest[..n]) + rest[n..] == wire + rest
  {
  }

  /** The sending loop over one batch, for any sequence of results of `writev`. The bytes the
      socket accepted are the first bytes of the batch, as many as the results say, and all of
      them when the loop ends normally. */
  method SendBatch(iovs: array<IoVec>, totalBytes: nat, results: seq<WriteResult>)
    returns (outcome: Outcome, wire: string)
    requires AllValid(iovs[..])
    requires totalBytes == TotalLen(iovs[..]) > 0
    requires Plausible(results, 0, totalBytes)
    modifies iovs
    ensures wire <= old(Join(Rests(iovs[..])))
    ensures Progress(outcome, |wire|) == Expected(results, 0, 0, totalBytes)
    ensures exists i: nat :: Decides(results, totalBytes, i, Progress(outcome, |wire|))
    ensures outcome == Sent <==> wire == old(Join(Rests(iovs[..])))
  {
    ghost var batch := Join(Rests(iovs[..]));
    ghost var rest := batch;
    TotalLenIsJoin(iovs[..]);
    ProgressIff(results, totalBytes, Expected(results, 0, 0, totalBytes));
    assert iovs[0..] == iovs[..];
    var bytes: nat, p: nat, numEvs: nat, i: nat := 0, 0, iovs.Length, 0;
    wire := "";
    while i < |results|
      invariant 0 <= i <= |results| && bytes < totalBytes
      invariant p + numEvs == iovs.Length
      invariant p <= iovs.Length && AllValid(iovs[p..])
      invariant TotalLen(iovs[p..]) == |rest| == totalBytes - bytes
      invariant Join(Rests(iovs[p..])) == rest && wire + rest == batch
      invariant Plausible(results, i, |rest|)
      invariant Expected(results, 0, 0, totalBytes) == Expected(results, i, bytes, totalBytes)
    {
      var result := results[i];
      if result.Error? || result.n == 0 {
        return Failed(if result.Error? then result.err else ECONNRESET), wire;
      }
      i := i + 1;
      Accept(wire, rest, result.n);
      wire := wire + Join(Rests(iovs[p..]))[..result.n];
      bytes := bytes + result.n;
      rest := rest[result.n..];
      if bytes == totalBytes {
        return Sent, wire;
      }
      p, numEvs := MoveOn(iovs, p, numEvs, result.n);
    }
    outcome := StillWaiting;
  }
}
