/**
 What every text means to the parser, malformed ones included: each lemma takes the bytes of one
 frame and gives its value, its error, or that it is not complete.
 */
module RespFrames {
  import opened Common
  import opened Decimal
  import opened Resp

  /** The first newline from p on. */
  predicate NewlineAt(s: string, p: nat, nl: nat) {
    p <= nl < |s| && s[nl] == '\n' && forall k :: p <= k < nl ==> s[k] != '\n'
  }

  /** A frame with the prefix c and the text t on its first line starts at p; q is behind the line. */
  predicate FirstLine(s: string, p: nat, c: char, t: string, q: nat) {
    && q == p + |t| + 3 <= |s| && s[p] == c && s[p + 1..q - 2] == t && s[q - 2] == '\r' && NewlineAt(s, p, q - 1)
  }

  // ---- lines

  lemma {:induction false} NewlineIs(s: string, p: nat, nl: nat)
    requires p <= |s|
    ensures NewlineAt(s, p, nl) <==> nl < |s| && First(s, '\n', p) == nl
  {
    FirstMeans(s, '\n', p);
    if NewlineAt(s, p, nl) {
      FirstIs(s, '\n', p, nl);
    }
  }

  /** Bytes without a newline are not a frame yet. A newline that follows no carriage return is an
      error (-1), and so is a line of nothing else, whose prefix is the carriage return (-3). */
  lemma {:induction false} BadLines(cfg: Config, s: string, p: nat)
    requires p <= |s|
    ensures (forall nl: nat :: !NewlineAt(s, p, nl)) ==> Parse(cfg, s, p) == More(true)
    ensures forall nl: nat :: NewlineAt(s, p, nl) && (nl == p || s[nl - 1] != '\r') ==> Parse(cfg, s, p) == Bad(-1)
    ensures forall nl: nat :: NewlineAt(s, p, nl) && nl == p + 1 && s[p] == '\r' ==> Parse(cfg, s, p) == Bad(-3)
  {
    var fd := First(s, '\n', p);
    NewlineIs(s, p, fd);
    forall nl: nat | NewlineAt(s, p, nl) ensures nl == fd {
      NewlineIs(s, p, nl);
    }
  }

  /** There is no other way for a line to end. */
  lemma {:induction false} LineCases(s: string, p: nat, nl: nat)
    requires NewlineAt(s, p, nl) && nl != p && s[nl - 1] == '\r' && nl != p + 1
    ensures FirstLine(s, p, s[p], s[p + 1..nl - 1], nl + 1)
  {
  }

  lemma {:induction false} LineIs(cfg: Config, s: string, p: nat, c: char, t: string, q: nat)
    requires FirstLine(s, p, c, t, q)
    ensures Parse(cfg, s, p) == Frame(cfg, Parser(cfg, s, q), s, c, t, q)
  {
    NewlineIs(s, p, q - 1);
    SliceIs(s, p + 1, q - 2);
    assert ReadLine(s, p) == Ok(t, q);
  }

  // ---- frames of one line

  /** Strings, errors, nulls and big numbers take any text, an integer and a boolean only theirs, and a
      double what the library reads. A prefix that the protocol does not have is an error (-3). */
  lemma {:induction false} LineFrames(cfg: Config, s: string, p: nat, c: char, t: string, q: nat)
    requires FirstLine(s, p, c, t, q)
    ensures var r := Parse(cfg, s, p);
            && (c == '+' ==> r == Ok(SimpleString(t), q)) && (c == '-' ==> r == Ok(SimpleError(t), q))
            && (c == '_' ==> r == Ok(Null, q)) && (c == '(' ==> r == Ok(BigNumber(t), q))
            && (c == '#' ==> r == if t == "t" then Ok(Boolean(true), q) else
                                  if t == "f" then Ok(Boolean(false), q) else Bad(22))
            && (c == ',' ==> r == if cfg.stod(t) == 0 then Ok(Double(t), q) else Bad(cfg.stod(t)))
            && (c == ':' ==> (forall n :: IsNumber(t, n) ==> r == Ok(Integer(n), q)))
            && (c == ':' && (forall n :: !IsNumber(t, n)) ==> r == Bad(if OutOfRange(t) then 34 else 22))
            && (c !in "+-_(#,:$!=*~>%|" ==> r == Bad(-3))
  {
    LineIs(cfg, s, p, c, t, q);
    StollIff(t);
  }

  // ---- lengths and counts

  /** The error of a length or count: it is no number, out of range, or negative. */
  ghost predicate BadCount(t: string, e: int) {
    || ((forall n :: !IsNumber(t, n)) && e == if OutOfRange(t) then 34 else 22)
    || ((exists n :: IsNumber(t, n) && n < 0) && e == 22)
  }

  lemma {:induction false} CountIs(t: string)
    ensures match Count(t) case Num(n) => IsNumber(t, n) && n >= 0 case NumErr(e) => BadCount(t, e)
    ensures forall n :: IsNumber(t, n) && n >= 0 ==> Count(t) == Num(n)
    ensures forall e :: BadCount(t, e) ==> Count(t) == NumErr(e)
  {
    StollIff(t);
  }

  /** A bulk or an aggregate with such a count is malformed, except that the length -1 makes a null
      of a bulk string. */
  lemma {:induction false} BadCounts(cfg: Config, s: string, p: nat, c: char, t: string, q: nat, e: int)
    requires FirstLine(s, p, c, t, q) && c in "$!=*~>%|" && BadCount(t, e)
    ensures Parse(cfg, s, p) == if c == '$' && IsNumber(t, -1) then Ok(Null, q) else Bad(e)
  {
    LineIs(cfg, s, p, c, t, q);
    CountIs(t);
    StollIff(t);
  }

  lemma {:induction false} BulkIs(cfg: Config, s: string, q: nat, n: nat)
    requires q <= |s|
    ensures ReadBulk(cfg, s, q, n)
         == if n >= cfg.maxBulk then Bad(75)
            else if |s| < q + n + 2 then More(false)
            else if s[q + n..q + n + 2] != "\r\n" then Bad(-2)
            else Ok(s[q..q + n], q + n + 2)
  {
    if q + n + 2 <= |s| {
      SliceIs(s, q, q + n);
    }
  }

  lemma {:induction false} BulkFrameIs(cfg: Config, s: string, c: char, t: string, q: nat, n: nat, b: Result<string>)
    requires q <= |s| && IsBulk(c) && IsNumber(t, n) && b == ReadBulk(cfg, s, q, n)
    ensures ParseBulk(cfg, s, c, t, q) == if b.Ok? then Ok(BulkOf(c, b.value), b.next) else b.Fail()
  {
    CountIs(t);
    StollIff(t);
  }

  /** A bulk frame is its n bytes when CRLF follows them, and an error (-2) when something else does;
      it is too large (75) from the limit on, before its bytes are looked at. */
  lemma {:induction false} BulkFrames(cfg: Config, s: string, p: nat, c: char, t: string, q: nat, n: nat)
    requires FirstLine(s, p, c, t, q) && c in "$!=" && IsNumber(t, n)
    ensures Parse(cfg, s, p)
         == if n >= cfg.maxBulk then Bad(75)
            else if |s| < q + n + 2 then More(false)
            else if s[q + n..q + n + 2] != "\r\n" then Bad(-2)
            else Ok(BulkOf(c, s[q..q + n]), q + n + 2)
  {
    LineIs(cfg, s, p, c, t, q);
    BulkIs(cfg, s, q, n);
    BulkFrameIs(cfg, s, c, t, q, n, ReadBulk(cfg, s, q, n));
  }

  // ---- aggregates

  /** The number of frames inside one with the count n. */
  function Inner(c: char, n: nat): nat { match c case '%' => n + n case '|' => n + n + 1 case _ => n }

  /** The value of an aggregate holds the values inside it, in their order. */
  predicate Holds(c: char, v: Value, vs: seq<Value>) {
    match c
    case '*' => v == Array(vs)
    case '~' => v == Set(vs)
    case '>' => v == Push(vs)
    case '%' => v.Map? && Entries(v.entries, vs)
    case _ => v.Attribute? && |vs| > 0 && Entries(v.entries, vs[..|vs| - 1]) && v.value == vs[|vs| - 1]
  }

  predicate Entries(es: seq<Pair>, vs: seq<Value>) {
    |vs| == 2 * |es| && forall k :: 0 <= k < |es| ==> es[k] == Pair(vs[2 * k], vs[2 * k + 1])
  }

  /** Pairs are values, two by two. */
  lemma {:induction false} PairsAreTwo(f: nat -> Result<Value>, p: nat, n: nat)
    ensures var es, vs := Repeat(Pairs(f), p, n), Repeat(f, p, n + n);
            if es.Ok? then vs.Ok? && vs.next == es.next && Entries(es.value, vs.value)
            else !vs.Ok? && vs.Fail<Value>() == es.Fail<Value>()
  {
    if n > 0 {
      PairsAreTwo(f, p, n - 1);
      var es, vs := Repeat(Pairs(f), p, n - 1), Repeat(f, p, n + n - 2);
      assert Repeat(f, p, n + n - 1) == Repeat(f, p, n + n - 2 + 1);
    }
  }

  /** The value or failure of a run of frames, whatever kind of value they are. */
  lemma {:induction false} AggregateIs(
      cfg: Config, f: nat -> Result<Value>, s: string, c: char, t: string, q: nat, n: nat)
    requires q <= |s| && c in "*~>%|" && Count(t) == Num(n)
    ensures var r, vs := Frame(cfg, f, s, c, t, q), Repeat(f, q, Inner(c, n));
            if vs.Ok? then r.Ok? && r.next == vs.next && Holds(c, r.value, vs.value)
            else r == vs.Fail<Value>()
  {
    PairsAreTwo(f, q, n);
  }

  /** i frames can be read in a row from q on, and the next one cannot. */
  predicate Breaks(f: nat -> Result<Value>, q: nat, i: nat) {
    Repeat(f, q, i).Ok? && !f(Repeat(f, q, i).next).Ok?
  }

  ghost predicate Aggregated(f: nat -> Result<Value>, c: char, q: nat, m: nat, r: Result<Value>) {
    var all := Repeat(f, q, m);
    && (all.Ok? ==> r.Ok? && r.next == all.next && Holds(c, r.value, all.value))
    && (forall i: nat :: i < m && Breaks(f, q, i) ==> r == f(Repeat(f, q, i).next))
  }

  lemma {:induction false} RunDecides(f: nat -> Result<Value>, c: char, q: nat, m: nat, r: Result<Value>)
    requires var all := Repeat(f, q, m);
             if all.Ok? then r.Ok? && r.next == all.next && Holds(c, r.value, all.value) else r == all.Fail<Value>()
    ensures Aggregated(f, c, q, m, r)
  {
    forall i: nat | i < m && Breaks(f, q, i) ensures r == f(Repeat(f, q, i).next) {
      RepeatFails(f, q, i + 1, m);
    }
  }

  /** An aggregate is made of as many frames in a row as its count says. When one of them cannot be
      read, the first such frame decides: the aggregate has its error, or is not complete either. */
  lemma {:induction false} AggregateFrames(cfg: Config, s: string, p: nat, c: char, t: string, q: nat, n: nat)
    requires FirstLine(s, p, c, t, q) && c in "*~>%|" && IsNumber(t, n)
    ensures Aggregated(Parser(cfg, s, q), c, q, Inner(c, n), Parse(cfg, s, p))
  {
    LineIs(cfg, s, p, c, t, q);
    CountIs(t);
    AggregateIs(cfg, Parser(cfg, s, q), s, c, t, q, n);
    RunDecides(Parser(cfg, s, q), c, q, Inner(c, n), Frame(cfg, Parser(cfg, s, q), s, c, t, q));
  }

  /** Either all n frames can be read or one of them is the first that cannot. */
  lemma {:induction false} BreaksOrNot(f: nat -> Result<Value>, q: nat, n: nat)
    ensures Repeat(f, q, n).Ok? <==> forall i: nat :: i < n ==> !Breaks(f, q, i)
  {
    if n > 0 {
      BreaksOrNot(f, q, n - 1);
      if Repeat(f, q, n - 1).Ok? {
        assert Repeat(f, q, n).Ok? <==> !Breaks(f, q, n - 1);
      } else {
        RepeatFails(f, q, n - 1, n);
      }
    }
  }

  // ---- exactly the malformed frames

  /** The error of a bulk frame of n bytes. */
  predicate BadBulk(cfg: Config, s: string, q: nat, n: nat, e: int) {
    if n >= cfg.maxBulk then e == 75
    else q + n + 2 <= |s| && s[q + n..q + n + 2] != "\r\n" && e == -2
  }

  /** One of m frames from q on is malformed, and those before it can be read. */
  ghost predicate BadInside(f: nat -> Result<Value>, q: nat, m: nat, e: int) {
    exists i: nat :: i < m && Breaks(f, q, i) && f(Repeat(f, q, i).next) == Bad(e)
  }

  ghost predicate BadFrame(cfg: Config, s: string, c: char, t: string, q: nat, e: int)
    requires q <= |s|
  {
    if c in "+-_(" then false
    else if c == '#' then t != "t" && t != "f" && e == 22
    else if c == ',' then e == cfg.stod(t) != 0
    else if c == ':' then (forall n :: !IsNumber(t, n)) && e == if OutOfRange(t) then 34 else 22
    else if c in "$!=" then
      || (BadCount(t, e) && !(c == '$' && IsNumber(t, -1)))
      || exists n: nat :: IsNumber(t, n) && BadBulk(cfg, s, q, n, e)
    else if c in "*~>%|" then
      BadCount(t, e) || exists n: nat :: IsNumber(t, n) && BadInside(Parser(cfg, s, q), q, Inner(c, n), e)
    else e == -3
  }

  ghost predicate BadStart(s: string, p: nat, nl: nat, e: int) {
    NewlineAt(s, p, nl) &&
    if nl == p || s[nl - 1] != '\r' then e == -1 else nl == p + 1 && e == -3
  }

  lemma {:induction false} InsideIff(f: nat -> Result<Value>, c: char, q: nat, m: nat, r: Result<Value>, e: int)
    requires Aggregated(f, c, q, m, r)
    ensures r == Bad(e) <==> BadInside(f, q, m, e)
  {
    BreaksOrNot(f, q, m);
  }

  lemma {:induction false} BadAggregateIff(cfg: Config, s: string, p: nat, c: char, t: string, q: nat, e: int)
    requires FirstLine(s, p, c, t, q) && c in "*~>%|"
    ensures Parse(cfg, s, p) == Bad(e) <==> BadFrame(cfg, s, c, t, q, e)
  {
    CountIs(t);
    match Count(t)
    case Num(n) =>
      AggregateFrames(cfg, s, p, c, t, q, n);
      InsideIff(Parser(cfg, s, q), c, q, Inner(c, n), Parse(cfg, s, p), e);
    case NumErr(e') =>
      BadCounts(cfg, s, p, c, t, q, e');
  }

  lemma {:induction false} BadBulkIff(cfg: Config, s: string, p: nat, c: char, t: string, q: nat, e: int)
    requires FirstLine(s, p, c, t, q) && c in "$!="
    ensures Parse(cfg, s, p) == Bad(e) <==> BadFrame(cfg, s, c, t, q, e)
  {
    CountIs(t);
    match Count(t)
    case Num(n) =>
      BulkFrames(cfg, s, p, c, t, q, n);
    case NumErr(e') =>
      BadCounts(cfg, s, p, c, t, q, e');
  }

  lemma {:induction false} BadFrameIff(cfg: Config, s: string, p: nat, c: char, t: string, q: nat, e: int)
    requires FirstLine(s, p, c, t, q)
    ensures Parse(cfg, s, p) == Bad(e) <==> BadFrame(cfg, s, c, t, q, e)
  {
    if c in "*~>%|" {
      BadAggregateIff(cfg, s, p, c, t, q, e);
    } else if c in "$!=" {
      BadBulkIff(cfg, s, p, c, t, q, e);
    } else {
      LineFrames(cfg, s, p, c, t, q);
    }
  }

  lemma {:induction false} OneFirstLine(
      s: string, p: nat, c: char, t: string, q: nat, c': char, t': string, q': nat)
    requires FirstLine(s, p, c, t, q) && FirstLine(s, p, c', t', q')
    ensures c == c' && t == t' && q == q'
  {
  }

  /** Exactly these bytes are malformed, with exactly these errors: a newline without a carriage
      return before it, a line of nothing else, and a frame that its prefix, its number, its bulk or
      a frame inside it spoils. */
  lemma {:induction false} MalformedIff(cfg: Config, s: string, p: nat, e: int)
    requires p <= |s|
    ensures Parse(cfg, s, p) == Bad(e)
       <==> || (exists nl: nat :: BadStart(s, p, nl, e))
            || (exists c, t, q: nat :: FirstLine(s, p, c, t, q) && BadFrame(cfg, s, c, t, q, e))
  {
    BadLines(cfg, s, p);
    var fd := First(s, '\n', p);
    NewlineIs(s, p, fd);
    forall nl: nat | NewlineAt(s, p, nl) ensures nl == fd {
      NewlineIs(s, p, nl);
    }
    if fd < |s| && fd != p && s[fd - 1] == '\r' && fd != p + 1 {
      var c, t, q := s[p], s[p + 1..fd - 1], fd + 1;
      LineCases(s, p, fd);
      BadFrameIff(cfg, s, p, c, t, q, e);
      forall c', t', q': nat | FirstLine(s, p, c', t', q') ensures c == c' && t == t' && q == q' {
        OneFirstLine(s, p, c, t, q, c', t', q');
      }
    } else if fd < |s| {
      assert BadStart(s, p, fd, if fd == p || s[fd - 1] != '\r' then -1 else -3);
    }
  }
}
