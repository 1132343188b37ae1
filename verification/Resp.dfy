/**
 The Redis serialization protocol (RESP2 and RESP3) as a one-shot parser over a complete byte
 string, and the matching encoder. A byte is a `char`.
 */
module Resp {
  import opened Common
  import opened Decimal

  datatype Value =
    | Null
    | SimpleString(text: string)
    | SimpleError(text: string)
    | Integer(n: int)
    | BulkString(text: string)
    | Array(items: seq<Value>)
    | Boolean(b: bool)
    | Double(text: string)
    | BigNumber(text: string)
    | BulkError(text: string)
    | Verbatim(text: string)
    | Map(entries: seq<Pair>)
    | Attribute(entries: seq<Pair>, value: Value)
    | Set(items: seq<Value>)
    | Push(items: seq<Value>)

  datatype Pair = Pair(key: Value, value: Value)

  /** What the parser takes as given: the largest bulk it accepts (exclusive), and which texts
      `std::from_chars` reads as a double: 0, or the error it gives. */
  datatype Config = Config(maxBulk: nat, stod: string -> int)

  /** `Ok` with the position after the frame; `More` when the bytes end too early, within a line or
      within a bulk. */
  datatype Result<T> = Ok(value: T, next: nat) | More(line: bool) | Bad(err: int) {
    predicate Failure() { !Ok? }
    function Fail<U>(): Result<U> requires Failure() { if More? then More(line) else Bad(err) }
  }

  const EOVERFLOW: int := 75
  const BAD_LINE: int := -1
  const BAD_BULK: int := -2
  const BAD_PREFIX: int := -3

  // ---- lines and bulks

  /** The bytes lo .. hi of s; recursive for proofs by induction, and `s[lo..hi]` by `SliceIs`. */
  function Slice(s: string, lo: nat, hi: nat): (t: string)
    requires lo <= hi <= |s|
    ensures |t| == hi - lo
  {
    if lo == hi then "" else Slice(s, lo, hi - 1) + [s[hi - 1]]
  }

  lemma {:induction false} SliceIs(s: string, lo: nat, hi: nat)
    requires lo <= hi <= |s|
    ensures Slice(s, lo, hi) == s[lo..hi]
  {
    if lo < hi {
      SliceIs(s, lo, hi - 1);
      assert s[lo..hi] == s[lo..hi - 1] + [s[hi - 1]];
    }
  }

  /** The text of the line at p, behind its first byte, which is the prefix of the frame. */
  function ReadLine(s: string, p: nat): (r: Result<string>)
    requires p <= |s|
    ensures r.Ok? ==> p + 2 <= r.next <= |s|
  {
    var fd := First(s, '\n', p);
    if fd == |s| then More(true)
    else if fd == p || s[fd - 1] != '\r' then Bad(BAD_LINE)
    else Ok(if fd == p + 1 then "" else Slice(s, p + 1, fd - 1), fd + 1)
  }

  function ReadBulk(cfg: Config, s: string, p: nat, n: nat): (r: Result<string>)
    requires p <= |s|
    ensures r.Ok? ==> p + 2 <= r.next <= |s|
  {
    if n >= cfg.maxBulk then Bad(EOVERFLOW)
    else if |s| - p < n + 2 then More(false)
    else if s[p + n] != '\r' || s[p + n + 1] != '\n' then Bad(BAD_BULK)
    else Ok(Slice(s, p, p + n), p + n + 2)
  }

  // ---- frames

  predicate IsBulk(c: char) { c == '$' || c == '!' || c == '=' }
  predicate IsList(c: char) { c == '*' || c == '~' || c == '>' }
  predicate IsPairs(c: char) { c == '%' || c == '|' }

  function BulkOf(c: char, text: string): Value
    requires IsBulk(c)
  {
    match c case '$' => BulkString(text) case '!' => BulkError(text) case _ => Verbatim(text)
  }

  function ListOf(c: char, items: seq<Value>): Value
    requires IsList(c)
  {
    match c case '*' => Array(items) case '~' => Set(items) case _ => Push(items)
  }

  /** A length or count: not negative. */
  function Count(text: string): Number {
    match Stoll(text)
    case NumErr(e) => NumErr(e)
    case Num(n) => if n < 0 then NumErr(EINVAL) else Num(n)
  }

  /** Frames of one line. */
  function Scalar(cfg: Config, prefix: char, text: string, next: nat): Result<Value> {
    match prefix
    case '+' => Ok(SimpleString(text), next)
    case '-' => Ok(SimpleError(text), next)
    case ':' => (match Stoll(text) case Num(n) => Ok(Integer(n), next) case NumErr(e) => Bad(e))
    case '_' => Ok(Null, next)
    case '#' =>
      if text == "t" then Ok(Boolean(true), next)
      else if text == "f" then Ok(Boolean(false), next)
      else Bad(EINVAL)
    case ',' => if cfg.stod(text) == 0 then Ok(Double(text), next) else Bad(cfg.stod(text))
    case '(' => Ok(BigNumber(text), next)
    case _ => Bad(BAD_PREFIX)
  }

  function ParseBulk(cfg: Config, s: string, prefix: char, text: string, q: nat): (r: Result<Value>)
    requires IsBulk(prefix) && q <= |s|
    ensures r.Ok? ==> q <= r.next <= |s|
  {
    if prefix == '$' && Stoll(text) == Num(-1) then Ok(Null, q)
    else
      match Count(text)
      case NumErr(e) => Bad(e)
      case Num(n) =>
        match ReadBulk(cfg, s, q, n)
        case Ok(bulk, next) => Ok(BulkOf(prefix, bulk), next)
        case More(line) => More(line)
        case Bad(e) => Bad(e)
  }

  // ---- runs of frames

  /** n results in a row, each starting where the one before ended. */
  function Repeat<T>(f: nat -> Result<T>, p: nat, n: nat): Result<seq<T>> {
    if n == 0 then Ok([], p)
    else
      var init := Repeat(f, p, n - 1);
      if !init.Ok? then init
      else
        var last := f(init.next);
        if last.Ok? then Ok(init.value + [last.value], last.next) else last.Fail()
  }

  function ReadPair(f: nat -> Result<Value>, p: nat): Result<Pair> {
    var key := f(p);
    if !key.Ok? then key.Fail()
    else
      var value := f(key.next);
      if value.Ok? then Ok(Pair(key.value, value.value), value.next) else value.Fail()
  }

  /** A map entry is two results in a row. */
  function Pairs(f: nat -> Result<Value>): nat -> Result<Pair> {
    (p: nat) => ReadPair(f, p)
  }

  // ---- the parser

  /** The frame whose first line has been read; f reads the frames inside it. */
  function Frame(cfg: Config, f: nat -> Result<Value>, s: string, prefix: char, text: string, q: nat): Result<Value>
    requires q <= |s|
  {
    if IsBulk(prefix) then ParseBulk(cfg, s, prefix, text, q)
    else if !IsList(prefix) && !IsPairs(prefix) then Scalar(cfg, prefix, text, q)
    else
      match Count(text)
      case NumErr(e) => Bad(e)
      case Num(n) =>
        if IsList(prefix) then Listed(prefix, Repeat(f, q, n)) else Paired(prefix, Repeat(Pairs(f), q, n), f)
  }

  function Listed(prefix: char, items: Result<seq<Value>>): Result<Value>
    requires IsList(prefix)
  {
    if items.Ok? then Ok(ListOf(prefix, items.value), items.next) else items.Fail()
  }

  /** A map, or an attribute: entries and the value they are about. */
  function Paired(prefix: char, entries: Result<seq<Pair>>, f: nat -> Result<Value>): Result<Value> {
    if !entries.Ok? then entries.Fail()
    else if prefix == '%' then Ok(Map(entries.value), entries.next)
    else
      var v := f(entries.next);
      if v.Ok? then Ok(Attribute(entries.value, v.value), v.next) else v
  }

  /** One frame from position p on. */
  function Parse(cfg: Config, s: string, p: nat): Result<Value>
    requires p <= |s|
    decreases |s| - p, 0
  {
    var line := ReadLine(s, p);
    if line.Ok? then Frame(cfg, Parser(cfg, s, line.next), s, s[p], line.value, line.next) else line.Fail()
  }

  /** Frames at any position from lo on. */
  function Parser(cfg: Config, s: string, lo: nat): nat -> Result<Value>
    requires lo <= |s|
    decreases |s| - lo, 1
  {
    (p: nat) => if lo <= p <= |s| then Parse(cfg, s, p) else More(true)
  }

  // ---- more bytes do not change what has been decided

  lemma {:induction false} FindStable(s: string, more: string, from: nat)
    requires from <= |s| && First(s, '\n', from) < |s|
    ensures First(s + more, '\n', from) == First(s, '\n', from)
    decreases |s| - from
  {
    if s[from] != '\n' {
      FindStable(s, more, from + 1);
    }
  }

  lemma {:induction false} SliceStable(s: string, more: string, lo: nat, hi: nat)
    requires lo <= hi <= |s|
    ensures Slice(s + more, lo, hi) == Slice(s, lo, hi)
  {
    if lo < hi {
      SliceStable(s, more, lo, hi - 1);
    }
  }

  lemma {:induction false} ReadLineStable(s: string, more: string, p: nat)
    requires p <= |s| && !ReadLine(s, p).More?
    ensures ReadLine(s + more, p) == ReadLine(s, p)
  {
    FindStable(s, more, p);
    var fd := First(s, '\n', p);
    if fd > p + 1 {
      SliceStable(s, more, p + 1, fd - 1);
    }
  }

  lemma {:induction false} ReadBulkStable(cfg: Config, s: string, more: string, p: nat, n: nat)
    requires p <= |s| && !ReadBulk(cfg, s, p, n).More?
    ensures ReadBulk(cfg, s + more, p, n) == ReadBulk(cfg, s, p, n)
  {
    if p + n <= |s| {
      SliceStable(s, more, p, p + n);
    }
  }

  /** g decides whatever f decides, in the same way. */
  ghost predicate Refines<T(!new)>(f: nat -> Result<T>, g: nat -> Result<T>) {
    forall p: nat :: f(p).More? || g(p) == f(p)
  }

  lemma {:induction false} RepeatStable<T(!new)>(f: nat -> Result<T>, g: nat -> Result<T>, p: nat, n: nat)
    requires Refines(f, g)
    ensures Repeat(f, p, n).More? || Repeat(g, p, n) == Repeat(f, p, n)
  {
    if n > 0 {
      RepeatStable(f, g, p, n - 1);
    }
  }

  lemma {:induction false} PairsStable(f: nat -> Result<Value>, g: nat -> Result<Value>)
    requires Refines(f, g)
    ensures Refines(Pairs(f), Pairs(g))
  {
  }

  lemma {:induction false} FrameStable(
      cfg: Config, f: nat -> Result<Value>, g: nat -> Result<Value>,
      s: string, more: string, prefix: char, text: string, q: nat)
    requires q <= |s| && Refines(f, g)
    ensures Frame(cfg, f, s, prefix, text, q).More?
         || Frame(cfg, g, s + more, prefix, text, q) == Frame(cfg, f, s, prefix, text, q)
  {
    if Count(text).Num? {
      var n := Count(text).n;
      if IsBulk(prefix) {
        if !ReadBulk(cfg, s, q, n).More? {
          ReadBulkStable(cfg, s, more, q, n);
        }
      } else {
        PairsStable(f, g);
        RepeatStable(f, g, q, n);
        RepeatStable(Pairs(f), Pairs(g), q, n);
      }
    }
  }

  /** A frame that was read, or found malformed, stays so when more bytes arrive. */
  lemma {:induction false} ParseStable(cfg: Config, s: string, more: string, p: nat)
    requires p <= |s|
    ensures Parse(cfg, s, p).More? || Parse(cfg, s + more, p) == Parse(cfg, s, p)
    decreases |s| - p, 0
  {
    var line := ReadLine(s, p);
    if !line.More? {
      ReadLineStable(s, more, p);
    }
    if line.Ok? {
      ParserStable(cfg, s, more, line.next);
      FrameStable(cfg, Parser(cfg, s, line.next), Parser(cfg, s + more, line.next),
                  s, more, s[p], line.value, line.next);
    }
  }

  lemma {:induction false} ParserStable(cfg: Config, s: string, more: string, lo: nat)
    requires lo <= |s|
    ensures Refines(Parser(cfg, s, lo), Parser(cfg, s + more, lo))
    decreases |s| - lo, 1
  {
    forall p: nat | p <= |s| && lo <= p
      ensures Parse(cfg, s, p).More? || Parse(cfg, s + more, p) == Parse(cfg, s, p)
    {
      ParseStable(cfg, s, more, p);
    }
  }

  // ---- a frame lies within the bytes it was read from

  ghost predicate Inside<T(!new)>(f: nat -> Result<T>, hi: nat) {
    forall p: nat :: f(p).Ok? ==> p < f(p).next <= hi
  }

  lemma {:induction false} RepeatInside<T(!new)>(f: nat -> Result<T>, hi: nat, p: nat, n: nat)
    requires Inside(f, hi) && p <= hi && Repeat(f, p, n).Ok?
    ensures p <= Repeat(f, p, n).next <= hi
  {
    if n > 0 {
      RepeatInside(f, hi, p, n - 1);
    }
  }

  lemma {:induction false} PairsInside(f: nat -> Result<Value>, hi: nat)
    requires Inside(f, hi)
    ensures Inside(Pairs(f), hi)
  {
  }

  lemma {:induction false} FrameInside(
      cfg: Config, f: nat -> Result<Value>, s: string, prefix: char, text: string, q: nat)
    requires q <= |s| && Inside(f, |s|) && Frame(cfg, f, s, prefix, text, q).Ok?
    ensures q <= Frame(cfg, f, s, prefix, text, q).next <= |s|
  {
    if (IsList(prefix) || IsPairs(prefix)) && Count(text).Num? {
      var n := Count(text).n;
      PairsInside(f, |s|);
      if IsList(prefix) {
        RepeatInside(f, |s|, q, n);
      } else {
        RepeatInside(Pairs(f), |s|, q, n);
      }
    }
  }

  lemma {:induction false} ParseInside(cfg: Config, s: string, p: nat)
    requires p <= |s| && Parse(cfg, s, p).Ok?
    ensures p < Parse(cfg, s, p).next <= |s|
    decreases |s| - p, 0
  {
    var line := ReadLine(s, p);
    ParserInside(cfg, s, line.next);
    FrameInside(cfg, Parser(cfg, s, line.next), s, s[p], line.value, line.next);
  }

  lemma {:induction false} ParserInside(cfg: Config, s: string, lo: nat)
    requires lo <= |s|
    ensures Inside(Parser(cfg, s, lo), |s|)
    decreases |s| - lo, 1
  {
    forall p: nat | lo <= p <= |s| && Parse(cfg, s, p).Ok? ensures p < Parse(cfg, s, p).next <= |s| {
      ParseInside(cfg, s, p);
    }
  }

  // ---- a frame that ends within the first bytes is read from them alone

  lemma {:induction false} FindLocal(s: string, more: string, from: nat)
    requires from <= |s| && First(s + more, '\n', from) < |s|
    ensures First(s, '\n', from) == First(s + more, '\n', from)
    decreases |s| - from
  {
    if s[from] != '\n' {
      FindLocal(s, more, from + 1);
    }
  }

  lemma {:induction false} ReadLineLocal(s: string, more: string, p: nat)
    requires p <= |s| && ReadLine(s + more, p).Ok? && ReadLine(s + more, p).next <= |s|
    ensures ReadLine(s, p) == ReadLine(s + more, p)
  {
    FindLocal(s, more, p);
    ReadLineStable(s, more, p);
  }

  /** g reads what f reads up to position hi. */
  ghost predicate Local<T(!new)>(f: nat -> Result<T>, g: nat -> Result<T>, hi: nat) {
    forall p: nat :: f(p).Ok? && f(p).next <= hi ==> g(p) == f(p)
  }

  lemma {:induction false} RepeatLocal<T(!new)>(
      f: nat -> Result<T>, g: nat -> Result<T>, hi: nat, top: nat, p: nat, n: nat)
    requires Local(f, g, hi) && Inside(f, top) && Repeat(f, p, n).Ok? && Repeat(f, p, n).next <= hi
    ensures Repeat(g, p, n) == Repeat(f, p, n)
  {
    if n > 0 {
      RepeatLocal(f, g, hi, top, p, n - 1);
    }
  }

  lemma {:induction false} PairsLocal(f: nat -> Result<Value>, g: nat -> Result<Value>, hi: nat, top: nat)
    requires Local(f, g, hi) && Inside(f, top)
    ensures Local(Pairs(f), Pairs(g), hi)
  {
  }

  lemma {:induction false} BulkLocal(cfg: Config, s: string, more: string, prefix: char, text: string, q: nat)
    requires q <= |s| && IsBulk(prefix)
    requires var r := ParseBulk(cfg, s + more, prefix, text, q); r.Ok? && r.next <= |s|
    ensures ParseBulk(cfg, s, prefix, text, q) == ParseBulk(cfg, s + more, prefix, text, q)
  {
    if Count(text).Num? {
      ReadBulkStable(cfg, s, more, q, Count(text).n);
    }
  }

  lemma {:induction false} FrameLocal(
      cfg: Config, f: nat -> Result<Value>, g: nat -> Result<Value>, s: string, more: string,
      prefix: char, text: string, q: nat)
    requires q <= |s| && Local(f, g, |s|) && Inside(f, |s + more|)
    requires var r := Frame(cfg, f, s + more, prefix, text, q); r.Ok? && r.next <= |s|
    ensures Frame(cfg, g, s, prefix, text, q) == Frame(cfg, f, s + more, prefix, text, q)
  {
    var top := |s + more|;
    if IsBulk(prefix) {
      BulkLocal(cfg, s, more, prefix, text, q);
    } else if IsList(prefix) && Count(text).Num? {
      RepeatLocal(f, g, |s|, top, q, Count(text).n);
    } else if IsPairs(prefix) && Count(text).Num? {
      PairsInside(f, top);
      PairsLocal(f, g, |s|, top);
      RepeatLocal(Pairs(f), Pairs(g), |s|, top, q, Count(text).n);
    }
  }

  /** A frame that ends within s is read from s alone. */
  lemma {:induction false} ParseLocal(cfg: Config, s: string, more: string, p: nat)
    requires p <= |s| && Parse(cfg, s + more, p).Ok? && Parse(cfg, s + more, p).next <= |s|
    ensures Parse(cfg, s, p) == Parse(cfg, s + more, p)
    decreases |s| - p, 0
  {
    var t := s + more;
    var line := ReadLine(t, p);
    ParserInside(cfg, t, line.next);
    FrameInside(cfg, Parser(cfg, t, line.next), t, t[p], line.value, line.next);
    ReadLineLocal(s, more, p);
    ParserLocal(cfg, s, more, line.next);
    FrameLocal(cfg, Parser(cfg, t, line.next), Parser(cfg, s, line.next), s, more, s[p], line.value, line.next);
  }

  lemma {:induction false} ParserLocal(cfg: Config, s: string, more: string, lo: nat)
    requires lo <= |s|
    ensures Local(Parser(cfg, s + more, lo), Parser(cfg, s, lo), |s|)
    decreases |s| - lo, 1
  {
    var t := s + more;
    forall p: nat | lo <= p <= |t| && Parse(cfg, t, p).Ok? && Parse(cfg, t, p).next <= |s|
      ensures p <= |s| && Parse(cfg, s, p) == Parse(cfg, t, p)
    {
      ParseInside(cfg, t, p);
      ParseLocal(cfg, s, more, p);
    }
  }

  // ---- the same bytes at another place

  function Shift<T>(r: Result<T>, k: nat): Result<T> {
    if r.Ok? then Ok(r.value, r.next + k) else r
  }

  lemma {:induction false} FindShift(t: string, k: nat, s: string, p: nat)
    requires Tail(t, k, s) && p <= |s|
    ensures First(t, '\n', k + p) == k + First(s, '\n', p)
    decreases |s| - p
  {
    if p < |s| {
      TailAt(t, k, s, p);
      if s[p] != '\n' {
        FindShift(t, k, s, p + 1);
      }
    }
  }

  lemma {:induction false} SliceShift(t: string, k: nat, s: string, lo: nat, hi: nat)
    requires Tail(t, k, s) && lo <= hi <= |s|
    ensures Slice(t, k + lo, k + hi) == Slice(s, lo, hi)
  {
    if lo < hi {
      SliceShift(t, k, s, lo, hi - 1);
      TailAt(t, k, s, hi - 1);
    }
  }

  lemma {:induction false} ReadLineShift(t: string, k: nat, s: string, p: nat)
    requires Tail(t, k, s) && p <= |s|
    ensures ReadLine(t, k + p) == Shift(ReadLine(s, p), k)
  {
    FindShift(t, k, s, p);
    var fd := First(s, '\n', p);
    if fd > p {
      TailAt(t, k, s, fd - 1);
    }
    if fd > p + 1 {
      SliceShift(t, k, s, p + 1, fd - 1);
    }
  }

  lemma {:induction false} ReadBulkShift(cfg: Config, t: string, k: nat, s: string, p: nat, n: nat)
    requires Tail(t, k, s) && p <= |s|
    ensures ReadBulk(cfg, t, k + p, n) == Shift(ReadBulk(cfg, s, p, n), k)
  {
    if p + n + 2 <= |s| {
      TailAt(t, k, s, p + n);
      TailAt(t, k, s, p + n + 1);
      SliceShift(t, k, s, p, p + n);
    }
  }

  // ---- failures end a run

  lemma {:induction false} RepeatFails<T>(f: nat -> Result<T>, p: nat, i: nat, n: nat)
    requires i <= n && !Repeat(f, p, i).Ok?
    ensures Repeat(f, p, n) == Repeat(f, p, i)
  {
    if i < n {
      RepeatFails(f, p, i, n - 1);
    }
  }

  /** There is only one way to read as many frames as there are. */
  lemma {:induction false} LongestIsUnique<T>(f: nat -> Result<T>, p: nat, m: nat, n: nat)
    requires Repeat(f, p, m).Ok? && !Repeat(f, p, m + 1).Ok?
    requires Repeat(f, p, n).Ok? && !Repeat(f, p, n + 1).Ok?
    ensures m == n
  {
    if m + 1 <= n {
      RepeatFails(f, p, m + 1, n);
    }
    if n + 1 <= m {
      RepeatFails(f, p, n + 1, m);
    }
  }

  // ---- encoding

  const CRLF: string := "\r\n"

  function Header(prefix: char, text: string): string { [prefix] + text + CRLF }

  function BulkText(prefix: char, text: string): string { Header(prefix, Text(|text|)) + (text + CRLF) }

  /** The first n texts of a list, one after the other. */
  function Concat(texts: seq<string>, n: nat): string
    requires n <= |texts|
  {
    if n == 0 then "" else Concat(texts, n - 1) + texts[n - 1]
  }

  function Encode(v: Value): string
    decreases v, 0
  {
    match v
    case Null => Header('_', "")
    case SimpleString(t) => Header('+', t)
    case SimpleError(t) => Header('-', t)
    case Integer(n) => Header(':', Text(n))
    case BulkString(t) => BulkText('$', t)
    case Array(items) => Header('*', Text(|items|)) + Concat(EncodeAll(items), |items|)
    case Boolean(b) => Header('#', if b then "t" else "f")
    case Double(t) => Header(',', t)
    case BigNumber(t) => Header('(', t)
    case BulkError(t) => BulkText('!', t)
    case Verbatim(t) => BulkText('=', t)
    case Map(entries) => Header('%', Text(|entries|)) + Concat(EncodePairs(entries), |entries|)
    case Attribute(entries, value) =>
      Header('|', Text(|entries|)) + (Concat(EncodePairs(entries), |entries|) + Encode(value))
    case Set(items) => Header('~', Text(|items|)) + Concat(EncodeAll(items), |items|)
    case Push(items) => Header('>', Text(|items|)) + Concat(EncodeAll(items), |items|)
  }

  function EncodeAll(items: seq<Value>): (texts: seq<string>)
    ensures |texts| == |items|
    decreases items, 0
  {
    seq(|items|, i requires 0 <= i < |items| => Encode(items[i]))
  }

  function EncodePair(e: Pair): string
    decreases e, 0
  {
    match e case Pair(key, value) => Encode(key) + Encode(value)
  }

  function EncodePairs(entries: seq<Pair>): (texts: seq<string>)
    ensures |texts| == |entries|
    decreases entries, 0
  {
    seq(|entries|, i requires 0 <= i < |entries| => EncodePair(entries[i]))
  }

  /** Values the protocol can carry: line text without newline, bulks below the limit, 64-bit
      integers and counts. */
  predicate Encodable(cfg: Config, v: Value)
    decreases v, 0
  {
    match v
    case Null => true
    case Boolean(_) => true
    case SimpleString(t) => '\n' !in t
    case SimpleError(t) => '\n' !in t
    case BigNumber(t) => '\n' !in t
    case Double(t) => '\n' !in t && cfg.stod(t) == 0
    case Integer(n) => MIN64 <= n <= MAX64
    case BulkString(t) => |t| < cfg.maxBulk && |t| <= MAX64
    case BulkError(t) => |t| < cfg.maxBulk && |t| <= MAX64
    case Verbatim(t) => |t| < cfg.maxBulk && |t| <= MAX64
    case Array(items) => EncodableList(cfg, items)
    case Set(items) => EncodableList(cfg, items)
    case Push(items) => EncodableList(cfg, items)
    case Map(entries) => EncodablePairs(cfg, entries)
    case Attribute(entries, value) => EncodablePairs(cfg, entries) && Encodable(cfg, value)
  }

  predicate EncodableList(cfg: Config, items: seq<Value>)
    decreases items, 0
  {
    |items| <= MAX64 && forall i :: 0 <= i < |items| ==> Encodable(cfg, items[i])
  }

  predicate EncodablePair(cfg: Config, e: Pair)
    decreases e, 0
  {
    match e case Pair(key, value) => Encodable(cfg, key) && Encodable(cfg, value)
  }

  predicate EncodablePairs(cfg: Config, entries: seq<Pair>)
    decreases entries, 0
  {
    |entries| <= MAX64 && forall i :: 0 <= i < |entries| ==> EncodablePair(cfg, entries[i])
  }

  // ---- round trip

  /** The text t stands at position p of s. */
  predicate At(s: string, p: nat, t: string) { p + |t| <= |s| && Match(s, p, t, |t|) }

  lemma {:induction false} AtIs(s: string, p: nat, t: string)
    ensures At(s, p, t) <==> p + |t| <= |s| && s[p..p + |t|] == t
  {
    if p + |t| <= |s| {
      MatchIs(s, p, t, |t|);
      assert t[..|t|] == t;
    }
  }

  lemma {:induction false} AtParts(s: string, p: nat, a: string, b: string)
    requires At(s, p, a + b)
    ensures At(s, p, a) && At(s, p + |a|, b)
  {
    AtIs(s, p, a + b);
    AtIs(s, p, a);
    AtIs(s, p + |a|, b);
    assert s[p..p + |a|] == s[p..p + |a + b|][..|a|] == a;
    assert s[p + |a|..p + |a + b|] == s[p..p + |a + b|][|a|..] == b;
  }

  lemma {:induction false} AtIndex(s: string, p: nat, t: string, k: nat)
    requires At(s, p, t) && k < |t|
    ensures s[p + k] == t[k]
  {
    AtIs(s, p, t);
    assert s[p..p + |t|][k] == t[k];
  }

  lemma {:induction false} ReadHeader(s: string, p: nat, prefix: char, text: string)
    requires At(s, p, Header(prefix, text)) && prefix != '\n' && '\n' !in text
    ensures p < |s| && s[p] == prefix && ReadLine(s, p) == Ok(text, p + |text| + 3)
  {
    var h := Header(prefix, text);
    AtIs(s, p, h);
    SliceIs(s, p + 1, p + 1 + |text|);
    forall k | p <= k < p + |h| ensures s[k] == h[k - p] {
      assert s[p..p + |h|][k - p] == s[k];
    }
    FirstIs(s, '\n', p, p + |text| + 2);
    assert s[p + 1..p + 1 + |text|] == h[1..1 + |text|] == text;
  }

  lemma {:induction false} ReadBulkText(cfg: Config, s: string, p: nat, text: string)
    requires At(s, p, text + CRLF) && |text| < cfg.maxBulk
    ensures ReadBulk(cfg, s, p, |text|) == Ok(text, p + |text| + 2)
  {
    AtParts(s, p, text, CRLF);
    AtIndex(s, p + |text|, CRLF, 0);
    AtIndex(s, p + |text|, CRLF, 1);
    AtIs(s, p, text);
    SliceIs(s, p, p + |text|);
  }

  lemma {:induction false} CountOfText(n: nat)
    requires n <= MAX64
    ensures Count(Text(n)) == Num(n) && '\n' !in Text(n)
  {
    StollOfText(n);
    TextHasNoNewline(n);
  }

  /** A frame starts with its header. */
  lemma {:induction false} HeaderTrip(cfg: Config, s: string, p: nat, prefix: char, text: string, rest: string)
    requires At(s, p, Header(prefix, text) + rest) && prefix != '\n' && '\n' !in text
    ensures var q := p + |text| + 3;
            && At(s, q, rest)
            && Parse(cfg, s, p) == Frame(cfg, Parser(cfg, s, q), s, prefix, text, q)
  {
    AtParts(s, p, Header(prefix, text), rest);
    ReadHeader(s, p, prefix, text);
  }

  /** Of all lengths and counts below zero only that of a null bulk string is accepted: a RESP2 null
      array is refused. */
  lemma {:induction false} NegativeLengths(cfg: Config, s: string, p: nat, prefix: char, n: int, rest: string)
    requires (IsBulk(prefix) || IsList(prefix) || IsPairs(prefix)) && MIN64 <= n < 0
    requires At(s, p, Header(prefix, Text(n)) + rest)
    ensures Parse(cfg, s, p)
         == if prefix == '$' && n == -1 then Ok(Null, p + |Header(prefix, Text(n))|) else Bad(EINVAL)
  {
    TextHasNoNewline(n);
    StollOfText(n);
    HeaderTrip(cfg, s, p, prefix, Text(n), rest);
  }

  /** The k-th of a run of values is read where its text stands. */
  predicate ItemAt<T(==)>(f: nat -> Result<T>, p: nat, items: seq<T>, texts: seq<string>, k: nat)
    requires k < |items| == |texts|
  {
    f(p + |Concat(texts, k)|) == Ok(items[k], p + |Concat(texts, k)| + |texts[k]|)
  }

  lemma {:induction false} RepeatTrip<T>(f: nat -> Result<T>, p: nat, items: seq<T>, texts: seq<string>, n: nat)
    requires n <= |items| == |texts|
    requires forall k: nat :: k < |items| ==> ItemAt(f, p, items, texts, k)
    ensures Repeat(f, p, n) == Ok(items[..n], p + |Concat(texts, n)|)
  {
    if n > 0 {
      RepeatTrip(f, p, items, texts, n - 1);
      assert ItemAt(f, p, items, texts, n - 1);
      assert items[..n] == items[..n - 1] + [items[n - 1]];
    }
  }

  lemma {:induction false} ConcatAt(s: string, p: nat, texts: seq<string>, n: nat, k: nat)
    requires k < n <= |texts| && At(s, p, Concat(texts, n))
    ensures At(s, p + |Concat(texts, k)|, texts[k])
  {
    AtParts(s, p, Concat(texts, n - 1), texts[n - 1]);
    if k < n - 1 {
      ConcatAt(s, p, texts, n - 1, k);
    }
  }

  // ---- a text stands for a value

  /** If the text t stands at p, the value v is read there, up to the end of t. */
  ghost predicate StandsFor(cfg: Config, v: Value, t: string, s: string, p: nat) {
    At(s, p, t) ==> Parse(cfg, s, p) == Ok(v, p + |t|)
  }

  /** Wherever t stands, v is read. */
  ghost predicate Reads(cfg: Config, v: Value, t: string) {
    forall s: string, p: nat :: StandsFor(cfg, v, t, s, p)
  }

  ghost predicate PairStandsFor(cfg: Config, e: Pair, t: string, s: string, lo: nat, p: nat) {
    At(s, p, t) && lo <= p ==> ReadPair(Parser(cfg, s, lo), p) == Ok(e, p + |t|)
  }

  ghost predicate ReadsPair(cfg: Config, e: Pair, t: string) {
    forall s: string, lo: nat, p: nat :: PairStandsFor(cfg, e, t, s, lo, p)
  }

  /** Each text of a list stands for the value at the same index. */
  ghost predicate ReadsItem(cfg: Config, items: seq<Value>, texts: seq<string>, k: nat) {
    k < |items| && k < |texts| && Reads(cfg, items[k], texts[k])
  }

  ghost predicate ReadsEntry(cfg: Config, entries: seq<Pair>, texts: seq<string>, k: nat) {
    k < |entries| && k < |texts| && ReadsPair(cfg, entries[k], texts[k])
  }

  lemma {:induction false} ReadsFrom(cfg: Config, v: Value, t: string, s: string, lo: nat, p: nat)
    requires Reads(cfg, v, t) && At(s, p, t) && lo <= p
    ensures Parser(cfg, s, lo)(p) == Ok(v, p + |t|)
  {
    assert StandsFor(cfg, v, t, s, p);
  }

  lemma {:induction false} PairOf(f: nat -> Result<Value>, p: nat, key: Value, q: nat, value: Value, r: nat)
    requires f(p) == Ok(key, q) && f(q) == Ok(value, r)
    ensures ReadPair(f, p) == Ok(Pair(key, value), r)
  {
  }

  lemma {:induction false} PairReadsFrom(
      cfg: Config, key: Value, a: string, value: Value, b: string, s: string, lo: nat, p: nat)
    requires Reads(cfg, key, a) && Reads(cfg, value, b) && At(s, p, a + b) && lo <= p
    ensures ReadPair(Parser(cfg, s, lo), p) == Ok(Pair(key, value), p + |a + b|)
  {
    AtParts(s, p, a, b);
    ReadsFrom(cfg, key, a, s, lo, p);
    ReadsFrom(cfg, value, b, s, lo, p + |a|);
    PairOf(Parser(cfg, s, lo), p, key, p + |a|, value, p + |a| + |b|);
  }

  lemma {:induction false} PairReads(cfg: Config, key: Value, a: string, value: Value, b: string)
    requires Reads(cfg, key, a) && Reads(cfg, value, b)
    ensures ReadsPair(cfg, Pair(key, value), a + b)
  {
    forall s: string, lo: nat, p: nat ensures PairStandsFor(cfg, Pair(key, value), a + b, s, lo, p) {
      if At(s, p, a + b) && lo <= p {
        PairReadsFrom(cfg, key, a, value, b, s, lo, p);
      }
    }
  }

  lemma {:induction false} ItemsAt(cfg: Config, s: string, q: nat, items: seq<Value>, texts: seq<string>)
    requires |texts| == |items| && forall k: nat :: k < |items| ==> ReadsItem(cfg, items, texts, k)
    requires At(s, q, Concat(texts, |items|))
    ensures forall k: nat :: k < |items| ==> ItemAt(Parser(cfg, s, q), q, items, texts, k)
  {
    forall k: nat | k < |items| ensures ItemAt(Parser(cfg, s, q), q, items, texts, k) {
      ConcatAt(s, q, texts, |items|, k);
      assert ReadsItem(cfg, items, texts, k);
      ReadsFrom(cfg, items[k], texts[k], s, q, q + |Concat(texts, k)|);
    }
  }

  lemma {:induction false} EntriesAt(cfg: Config, s: string, q: nat, entries: seq<Pair>, texts: seq<string>)
    requires |texts| == |entries| && forall k: nat :: k < |entries| ==> ReadsEntry(cfg, entries, texts, k)
    requires At(s, q, Concat(texts, |entries|))
    ensures forall k: nat :: k < |entries| ==> ItemAt(Pairs(Parser(cfg, s, q)), q, entries, texts, k)
  {
    forall k: nat | k < |entries| ensures ItemAt(Pairs(Parser(cfg, s, q)), q, entries, texts, k) {
      ConcatAt(s, q, texts, |entries|, k);
      assert ReadsEntry(cfg, entries, texts, k);
      assert PairStandsFor(cfg, entries[k], texts[k], s, q, q + |Concat(texts, k)|);
    }
  }

  lemma {:induction false} ListFrame(
      cfg: Config, f: nat -> Result<Value>, s: string, prefix: char, n: string, q: nat,
      items: seq<Value>, texts: seq<string>)
    requires IsList(prefix) && q <= |s| && |texts| == |items| && Count(n) == Num(|items|)
    requires forall k: nat :: k < |items| ==> ItemAt(f, q, items, texts, k)
    ensures Frame(cfg, f, s, prefix, n, q) == Ok(ListOf(prefix, items), q + |Concat(texts, |items|)|)
  {
    RepeatTrip(f, q, items, texts, |items|);
    assert items[..|items|] == items;
  }

  lemma {:induction false} MapFrame(
      cfg: Config, f: nat -> Result<Value>, s: string, n: string, q: nat, entries: seq<Pair>, texts: seq<string>)
    requires q <= |s| && |texts| == |entries| && Count(n) == Num(|entries|)
    requires forall k: nat :: k < |entries| ==> ItemAt(Pairs(f), q, entries, texts, k)
    ensures Frame(cfg, f, s, '%', n, q) == Ok(Map(entries), q + |Concat(texts, |entries|)|)
  {
    RepeatTrip(Pairs(f), q, entries, texts, |entries|);
    assert entries[..|entries|] == entries;
  }

  lemma {:induction false} ListReads(cfg: Config, prefix: char, n: string, items: seq<Value>, texts: seq<string>)
    requires IsList(prefix) && |texts| == |items| && Count(n) == Num(|items|) && '\n' !in n
    requires forall k: nat :: k < |items| ==> ReadsItem(cfg, items, texts, k)
    ensures Reads(cfg, ListOf(prefix, items), Header(prefix, n) + Concat(texts, |items|))
  {
    var rest := Concat(texts, |items|);
    forall s: string, p: nat ensures StandsFor(cfg, ListOf(prefix, items), Header(prefix, n) + rest, s, p) {
      if At(s, p, Header(prefix, n) + rest) {
        var q := p + |n| + 3;
        AfterHeader(s, p, prefix, n, rest);
        ItemsAt(cfg, s, q, items, texts);
        ListFrame(cfg, Parser(cfg, s, q), s, prefix, n, q, items, texts);
        HeaderReads(cfg, s, p, prefix, n, rest, Ok(ListOf(prefix, items), q + |rest|));
      }
    }
  }

  lemma {:induction false} MapReads(cfg: Config, n: string, entries: seq<Pair>, texts: seq<string>)
    requires |texts| == |entries| && Count(n) == Num(|entries|) && '\n' !in n
    requires forall k: nat :: k < |entries| ==> ReadsEntry(cfg, entries, texts, k)
    ensures Reads(cfg, Map(entries), Header('%', n) + Concat(texts, |entries|))
  {
    var rest := Concat(texts, |entries|);
    forall s: string, p: nat ensures StandsFor(cfg, Map(entries), Header('%', n) + rest, s, p) {
      if At(s, p, Header('%', n) + rest) {
        var q := p + |n| + 3;
        AfterHeader(s, p, '%', n, rest);
        EntriesAt(cfg, s, q, entries, texts);
        MapFrame(cfg, Parser(cfg, s, q), s, n, q, entries, texts);
        HeaderReads(cfg, s, p, '%', n, rest, Ok(Map(entries), q + |rest|));
      }
    }
  }

  lemma {:induction false} AttributeFrame(
      cfg: Config, f: nat -> Result<Value>, s: string, n: string, q: nat,
      entries: seq<Pair>, texts: seq<string>, value: Value, next: nat)
    requires q <= |s| && |texts| == |entries| && Count(n) == Num(|entries|)
    requires forall k: nat :: k < |entries| ==> ItemAt(Pairs(f), q, entries, texts, k)
    requires f(q + |Concat(texts, |entries|)|) == Ok(value, next)
    ensures Frame(cfg, f, s, '|', n, q) == Ok(Attribute(entries, value), next)
  {
    RepeatTrip(Pairs(f), q, entries, texts, |entries|);
    assert entries[..|entries|] == entries;
  }

  lemma {:induction false} AttributeRest(
      cfg: Config, s: string, q: nat, entries: seq<Pair>, texts: seq<string>,
      value: Value, text: string, f: nat -> Result<Value>, r: nat)
    requires |texts| == |entries| && Reads(cfg, value, text)
    requires q <= |s| && f == Parser(cfg, s, q) && r == q + |Concat(texts, |entries|)|
    requires forall k: nat :: k < |entries| ==> ReadsEntry(cfg, entries, texts, k)
    requires At(s, q, Concat(texts, |entries|)) && At(s, r, text)
    ensures (forall k: nat :: k < |entries| ==> ItemAt(Pairs(f), q, entries, texts, k)) && f(r) == Ok(value, r + |text|)
  {
    EntriesAt(cfg, s, q, entries, texts);
    ReadsFrom(cfg, value, text, s, q, r);
  }

  lemma {:induction false} AttributeBody(
      cfg: Config, s: string, n: string, q: nat, entries: seq<Pair>, texts: seq<string>,
      value: Value, text: string, rest: string, f: nat -> Result<Value>)
    requires |texts| == |entries| && Count(n) == Num(|entries|) && Reads(cfg, value, text)
    requires forall k: nat :: k < |entries| ==> ReadsEntry(cfg, entries, texts, k)
    requires rest == Concat(texts, |entries|) + text && At(s, q, rest) && f == Parser(cfg, s, q)
    ensures Frame(cfg, f, s, '|', n, q) == Ok(Attribute(entries, value), q + |rest|)
  {
    var r := q + |Concat(texts, |entries|)|;
    AtParts(s, q, Concat(texts, |entries|), text);
    AttributeRest(cfg, s, q, entries, texts, value, text, f, r);
    AttributeFrame(cfg, f, s, n, q, entries, texts, value, r + |text|);
  }

  /** A frame is what follows its header. */
  lemma {:induction false} HeaderReads(
      cfg: Config, s: string, p: nat, prefix: char, n: string, rest: string, r: Result<Value>)
    requires At(s, p, Header(prefix, n) + rest) && prefix != '\n' && '\n' !in n && p + |n| + 3 <= |s|
    requires r == Frame(cfg, Parser(cfg, s, p + |n| + 3), s, prefix, n, p + |n| + 3)
    ensures Parse(cfg, s, p) == r
  {
    HeaderTrip(cfg, s, p, prefix, n, rest);
  }

  lemma {:induction false} AfterHeader(s: string, p: nat, prefix: char, n: string, rest: string)
    requires At(s, p, Header(prefix, n) + rest)
    ensures p + |n| + 3 <= |s| && At(s, p + |n| + 3, rest)
  {
    AtParts(s, p, Header(prefix, n), rest);
  }

  lemma {:induction false} AttributeReads(
      cfg: Config, n: string, entries: seq<Pair>, texts: seq<string>, value: Value, text: string)
    requires |texts| == |entries| && Count(n) == Num(|entries|) && '\n' !in n && Reads(cfg, value, text)
    requires forall k: nat :: k < |entries| ==> ReadsEntry(cfg, entries, texts, k)
    ensures Reads(cfg, Attribute(entries, value), Header('|', n) + (Concat(texts, |entries|) + text))
  {
    var rest := Concat(texts, |entries|) + text;
    var t := Header('|', n) + rest;
    forall s: string, p: nat ensures StandsFor(cfg, Attribute(entries, value), t, s, p) {
      if At(s, p, t) {
        AfterHeader(s, p, '|', n, rest);
        AttributeBody(cfg, s, n, p + |n| + 3, entries, texts, value, text, rest, Parser(cfg, s, p + |n| + 3));
        HeaderReads(cfg, s, p, '|', n, rest, Ok(Attribute(entries, value), p + |n| + 3 + |rest|));
      }
    }
  }

  lemma {:induction false} LineReads(cfg: Config, prefix: char, text: string, v: Value)
    requires prefix != '\n' && '\n' !in text && !IsBulk(prefix) && !IsList(prefix) && !IsPairs(prefix)
    requires forall next :: Scalar(cfg, prefix, text, next) == Ok(v, next)
    ensures Reads(cfg, v, Header(prefix, text))
  {
    forall s: string, p: nat ensures StandsFor(cfg, v, Header(prefix, text), s, p) {
      if At(s, p, Header(prefix, text)) {
        assert Header(prefix, text) + "" == Header(prefix, text);
        HeaderTrip(cfg, s, p, prefix, text, "");
      }
    }
  }

  lemma {:induction false} BulkReads(cfg: Config, prefix: char, n: string, text: string)
    requires IsBulk(prefix) && |text| < cfg.maxBulk && Count(n) == Num(|text|) && '\n' !in n
    ensures Reads(cfg, BulkOf(prefix, text), Header(prefix, n) + (text + CRLF))
  {
    forall s: string, p: nat ensures StandsFor(cfg, BulkOf(prefix, text), Header(prefix, n) + (text + CRLF), s, p) {
      if At(s, p, Header(prefix, n) + (text + CRLF)) {
        HeaderTrip(cfg, s, p, prefix, n, text + CRLF);
        ReadBulkText(cfg, s, p + |n| + 3, text);
      }
    }
  }

  // ---- the encoding of a value stands for it

  lemma {:induction false} PairRoundTrip(cfg: Config, e: Pair)
    requires EncodablePair(cfg, e)
    ensures ReadsPair(cfg, e, EncodePair(e))
    decreases e, 0
  {
    match e
    case Pair(key, value) =>
      RoundTripReads(cfg, key);
      RoundTripReads(cfg, value);
      PairReads(cfg, key, Encode(key), value, Encode(value));
  }

  lemma {:induction false} ItemsRoundTrip(cfg: Config, items: seq<Value>)
    requires EncodableList(cfg, items)
    ensures forall k: nat :: k < |items| ==> ReadsItem(cfg, items, EncodeAll(items), k)
    decreases items, 0
  {
    forall k: nat | k < |items| ensures ReadsItem(cfg, items, EncodeAll(items), k) {
      RoundTripReads(cfg, items[k]);
    }
  }

  lemma {:induction false} EntriesRoundTrip(cfg: Config, entries: seq<Pair>)
    requires EncodablePairs(cfg, entries)
    ensures forall k: nat :: k < |entries| ==> ReadsEntry(cfg, entries, EncodePairs(entries), k)
    decreases entries, 0
  {
    forall k: nat | k < |entries| ensures ReadsEntry(cfg, entries, EncodePairs(entries), k) {
      PairRoundTrip(cfg, entries[k]);
    }
  }

  /** Reading an encoded value gives the value and stops exactly behind it, whatever surrounds it. */
  lemma {:induction false} RoundTripReads(cfg: Config, v: Value)
    requires Encodable(cfg, v)
    ensures Reads(cfg, v, Encode(v))
    decreases v, 0
  {
    match v
    case Null => LineReads(cfg, '_', "", v);
    case SimpleString(t) => LineReads(cfg, '+', t, v);
    case SimpleError(t) => LineReads(cfg, '-', t, v);
    case Integer(n) =>
      TextHasNoNewline(n);
      StollOfText(n);
      LineReads(cfg, ':', Text(n), v);
    case BulkString(t) =>
      CountOfText(|t|);
      BulkReads(cfg, '$', Text(|t|), t);
    case Array(items) =>
      CountOfText(|items|);
      ItemsRoundTrip(cfg, items);
      ListReads(cfg, '*', Text(|items|), items, EncodeAll(items));
    case Boolean(b) => LineReads(cfg, '#', if b then "t" else "f", v);
    case Double(t) => LineReads(cfg, ',', t, v);
    case BigNumber(t) => LineReads(cfg, '(', t, v);
    case BulkError(t) =>
      CountOfText(|t|);
      BulkReads(cfg, '!', Text(|t|), t);
    case Verbatim(t) =>
      CountOfText(|t|);
      BulkReads(cfg, '=', Text(|t|), t);
    case Map(entries) =>
      CountOfText(|entries|);
      EntriesRoundTrip(cfg, entries);
      MapReads(cfg, Text(|entries|), entries, EncodePairs(entries));
    case Attribute(entries, value) =>
      CountOfText(|entries|);
      EntriesRoundTrip(cfg, entries);
      RoundTripReads(cfg, value);
      AttributeReads(cfg, Text(|entries|), entries, EncodePairs(entries), value, Encode(value));
    case Set(items) =>
      CountOfText(|items|);
      ItemsRoundTrip(cfg, items);
      ListReads(cfg, '~', Text(|items|), items, EncodeAll(items));
    case Push(items) =>
      CountOfText(|items|);
      ItemsRoundTrip(cfg, items);
      ListReads(cfg, '>', Text(|items|), items, EncodeAll(items));
  }

  /** The round trip, for every value and whatever bytes follow. */
  lemma {:induction false} RoundTrip(cfg: Config, v: Value, rest: string)
    requires Encodable(cfg, v)
    ensures Parse(cfg, Encode(v) + rest, 0) == Ok(v, |Encode(v)|)
  {
    RoundTripReads(cfg, v);
    PrefixAt(Encode(v), rest);
    assert StandsFor(cfg, v, Encode(v), Encode(v) + rest, 0);
  }

  lemma {:induction false} PrefixAt(t: string, rest: string)
    ensures At(t + rest, 0, t)
  {
    AtIs(t + rest, 0, t);
    assert (t + rest)[0..|t|] == t;
  }

  /** Any number of encodable values, one after the other: the first n frames are the first n. */
  lemma {:induction false} StreamRoundTrip(cfg: Config, items: seq<Value>, n: nat, rest: string)
    requires EncodableList(cfg, items) && n <= |items|
    ensures var texts := EncodeAll(items);
            var s := Concat(texts, |items|) + rest;
            Repeat(Parser(cfg, s, 0), 0, n) == Ok(items[..n], |Concat(texts, n)|)
  {
    var texts := EncodeAll(items);
    var s := Concat(texts, |items|) + rest;
    ItemsRoundTrip(cfg, items);
    PrefixAt(Concat(texts, |items|), rest);
    ItemsAt(cfg, s, 0, items, texts);
    RepeatTrip(Parser(cfg, s, 0), 0, items, texts, n);
  }
}
