/** Small things several modules use. */
module Common {
  datatype Option<T> = None | Some(value: T)

  const ECONNRESET: int := 104

  /** The hash slots of a cluster. */
  const NUM_SLOT: nat := 16384

  function Min(a: nat, b: nat): nat { if a < b then a else b }

  /** The first position of c from `from` on, or the length. */
  function First<T(==)>(s: seq<T>, c: T, from: nat): (i: nat)
    requires from <= |s|
    ensures from <= i <= |s|
    decreases |s| - from
  {
    if from == |s| || s[from] == c then from else First(s, c, from + 1)
  }

  lemma {:induction false} FirstIs<T>(s: seq<T>, c: T, from: nat, i: nat)
    requires from <= i < |s| && s[i] == c && forall k :: from <= k < i ==> s[k] != c
    ensures First(s, c, from) == i
    decreases i - from
  {
    if from < i {
      FirstIs(s, c, from + 1, i);
    }
  }

  lemma {:induction false} FirstMeans<T>(s: seq<T>, c: T, from: nat)
    requires from <= |s|
    ensures forall k :: from <= k < First(s, c, from) ==> s[k] != c
    ensures First(s, c, from) < |s| ==> s[First(s, c, from)] == c
    decreases |s| - from
  {
    if from < |s| && s[from] != c {
      FirstMeans(s, c, from + 1);
    }
  }

  /** The first n bytes of s stand at position k of t. */
  predicate Match(t: string, k: nat, s: string, n: nat)
    requires k + n <= |t| && n <= |s|
  {
    n == 0 || (t[k + n - 1] == s[n - 1] && Match(t, k, s, n - 1))
  }

  lemma {:induction false} MatchIs(t: string, k: nat, s: string, n: nat)
    requires k + n <= |t| && n <= |s|
    ensures Match(t, k, s, n) <==> t[k..k + n] == s[..n]
  {
    if n > 0 {
      MatchIs(t, k, s, n - 1);
      assert t[k..k + n] == t[k..k + n - 1] + [t[k + n - 1]] && s[..n] == s[..n - 1] + [s[n - 1]];
    }
  }

  /** s is what remains of t from position k on. */
  predicate Tail(t: string, k: nat, s: string) { |t| == k + |s| && Match(t, k, s, |s|) }

  lemma {:induction false} TailIs(t: string, k: nat, s: string)
    ensures Tail(t, k, s) <==> k <= |t| && t[k..] == s
  {
    if |t| == k + |s| {
      MatchIs(t, k, s, |s|);
      assert t[k..k + |s|] == t[k..] && s[..|s|] == s;
    }
  }

  lemma {:induction false} TailSelf(t: string)
    ensures Tail(t, 0, t)
  {
    TailIs(t, 0, t);
  }

  lemma {:induction false} TailAt(t: string, k: nat, s: string, i: nat)
    requires Tail(t, k, s) && i < |s|
    ensures s[i] == t[k + i]
  {
    TailIs(t, k, s);
  }

  lemma {:induction false} TailGrows(t: string, k: nat, s: string, more: string)
    requires Tail(t, k, s)
    ensures Tail(t + more, k, s + more)
  {
    TailIs(t, k, s);
    TailIs(t + more, k, s + more);
  }

  lemma {:induction false} TailDrops(t: string, k: nat, s: string, p: nat)
    requires Tail(t, k, s) && p <= |s|
    ensures Tail(t, k + p, s[p..])
  {
    TailIs(t, k, s);
    TailIs(t, k + p, s[p..]);
  }
}
