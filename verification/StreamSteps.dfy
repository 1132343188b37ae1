/** How the needs of the parser's methods lead to each other while the stream grows. */
module StreamSteps {
  import opened Common
  import opened Resp
  import opened StreamSpec

  // ---- growing streams

  lemma {:induction false} Grows(cfg: Config, s: string, t: string, p: nat)
    requires s <= t && p <= |s|
    ensures ReadLine(s, p).More? || (ReadLine(t, p) == ReadLine(s, p) && (p < |s| ==> t[p] == s[p]))
    ensures Parse(cfg, s, p).More? || Parse(cfg, t, p) == Parse(cfg, s, p)
  {
    assert t == s + t[|s|..];
    if !ReadLine(s, p).More? {
      ReadLineStable(s, t[|s|..], p);
    }
    ParseStable(cfg, s, t[|s|..], p);
  }

  lemma {:induction false} RunGrows(cfg: Config, s: string, t: string, lo: nat, p: nat, n: nat)
    requires s <= t && lo <= |s|
    ensures Repeat(Parser(cfg, s, lo), p, n).More?
         || Repeat(Parser(cfg, t, lo), p, n) == Repeat(Parser(cfg, s, lo), p, n)
  {
    assert t == s + t[|s|..];
    ParserStable(cfg, s, t[|s|..], lo);
    RepeatStable(Parser(cfg, s, lo), Parser(cfg, t, lo), p, n);
  }

  lemma {:induction false} PairRunGrows(cfg: Config, s: string, t: string, lo: nat, p: nat, n: nat)
    requires s <= t && lo <= |s|
    ensures var f, g := Pairs(Parser(cfg, s, lo)), Pairs(Parser(cfg, t, lo));
            Repeat(f, p, n).More? || Repeat(g, p, n) == Repeat(f, p, n)
  {
    assert t == s + t[|s|..];
    ParserStable(cfg, s, t[|s|..], lo);
    PairsStable(Parser(cfg, s, lo), Parser(cfg, t, lo));
    RepeatStable(Pairs(Parser(cfg, s, lo)), Pairs(Parser(cfg, t, lo)), p, n);
  }

  /** What the next result means for a run of n of which i have been read. */
  lemma {:induction false} RunStep<T>(f: nat -> Result<T>, q: nat, i: nat, items: seq<T>, here: nat, n: nat)
    requires i < n && Repeat(f, q, i) == Ok(items, here)
    ensures var r, run := f(here), Repeat(f, q, n);
            && (r.Ok? ==> Repeat(f, q, i + 1) == Ok(items + [r.value], r.next))
            && Follows(r, run)
  {
    if !f(here).Ok? {
      RepeatFails(f, q, i + 1, n);
    }
  }

  lemma {:induction false} ItemStep(
      cfg: Config, s: string, t: string, q: nat, i: nat, items: seq<Value>, here: nat, n: nat)
    requires s <= t && q <= |s| && i < n && Repeat(Parser(cfg, s, q), q, i) == Ok(items, here)
    ensures var r := Parser(cfg, t, q)(here);
            && (r.Ok? ==> Repeat(Parser(cfg, t, q), q, i + 1) == Ok(items + [r.value], r.next))
            && Follows(ElementAt(cfg, q, here)(t), RunAt(cfg, q, n)(t))
  {
    RunGrows(cfg, s, t, q, q, i);
    RunStep(Parser(cfg, t, q), q, i, items, here, n);
  }

  lemma {:induction false} EntryStep(
      cfg: Config, s: string, t: string, q: nat, i: nat, entries: seq<Pair>, here: nat, n: nat)
    requires s <= t && q <= |s| && i < n && Repeat(Pairs(Parser(cfg, s, q)), q, i) == Ok(entries, here)
    ensures var r := ReadPair(Parser(cfg, t, q), here);
            && (r.Ok? ==> Repeat(Pairs(Parser(cfg, t, q)), q, i + 1) == Ok(entries + [r.value], r.next))
            && Follows(EntryAt(cfg, q, here)(t), EntriesFrom(cfg, q, n)(t))
  {
    PairRunGrows(cfg, s, t, q, q, i);
    RunStep(Pairs(Parser(cfg, t, q)), q, i, entries, here, n);
  }

  // ---- one need leads to another

  lemma {:induction false} LineLeads(cfg: Config, p: nat, s: string)
    requires p <= |s|
    ensures Leads(LineAt(p), FrameAt(cfg, p), s)
  {
  }

  /** The line was read from s: the frame is what its line says. */
  lemma {:induction false} FrameIsBody(cfg: Config, s: string, t: string, p: nat, text: string, q: nat)
    requires s <= t && p < |s| && LineAt(p)(s) == Ok(text, q)
    ensures q <= |t| && Parse(cfg, t, p) == BodyAt(cfg, s[p], text, q)(t)
  {
    Grows(cfg, s, t, p);
  }

  lemma {:induction false} LineThenBody(cfg: Config, mode: Mode, w: Wire, p: nat, text: string, q: nat)
    requires p < |w.received| && LineAt(p)(w.received) == Ok(text, q)
    ensures Pull(FrameAt(cfg, p), mode, w) == Pull(BodyAt(cfg, w.received[p], text, q), mode, w)
  {
    var ch := w.received[p];
    forall t: string | w.received <= t ensures FrameAt(cfg, p)(t) == BodyAt(cfg, ch, text, q)(t) {
      FrameIsBody(cfg, w.received, t, p, text, q);
    }
    PullSame(FrameAt(cfg, p), BodyAt(cfg, ch, text, q), mode, w);
  }

  /** A frame: its line, and then what its line says. */
  lemma {:induction false} FrameTurn(cfg: Config, mode: Mode, w: Wire, p: nat)
    requires p <= |w.received|
    ensures var out := Pull(LineAt(p), mode, w);
            var line := LineAt(p)(out.wire.received);
            && (!out.stop.Ready? ==> Pull(FrameAt(cfg, p), mode, w) == out)
            && (out.stop.Ready? && line.Ok? && p < |out.wire.received| ==>
                  Pull(FrameAt(cfg, p), mode, w)
                    == Pull(BodyAt(cfg, out.wire.received[p], line.value, line.next), mode, out.wire))
  {
    var out := Pull(LineAt(p), mode, w);
    LineLeads(cfg, p, w.received);
    PullThen(LineAt(p), FrameAt(cfg, p), mode, w);
    var line := LineAt(p)(out.wire.received);
    if out.stop.Ready? && line.Ok? && p < |out.wire.received| {
      LineThenBody(cfg, mode, out.wire, p, line.value, line.next);
    }
  }

  lemma {:induction false} BulkLeads(cfg: Config, ch: char, text: string, q: nat, s: string)
    requires IsBulk(ch) && q <= |s| && Count(text).Num?
    ensures Leads(BulkAt(cfg, q, Count(text).n), BodyAt(cfg, ch, text, q), s)
  {
  }

  lemma {:induction false} ListLeads(cfg: Config, ch: char, text: string, q: nat, s: string)
    requires IsList(ch) && q <= |s| && Count(text).Num?
    ensures Leads(RunAt(cfg, q, Count(text).n), BodyAt(cfg, ch, text, q), s)
  {
  }

  lemma {:induction false} PairedIsBody(cfg: Config, mode: Mode, w: Wire, ch: char, text: string, q: nat)
    requires IsPairs(ch) && Count(text).Num?
    ensures Pull(BodyAt(cfg, ch, text, q), mode, w) == Pull(PairedAt(cfg, ch, q, Count(text).n), mode, w)
  {
    PullSame(BodyAt(cfg, ch, text, q), PairedAt(cfg, ch, q, Count(text).n), mode, w);
  }

  lemma {:induction false} ItemLeads(
      cfg: Config, s: string, q: nat, i: nat, items: seq<Value>, here: nat, n: nat)
    requires q <= |s| && i < n && Repeat(Parser(cfg, s, q), q, i) == Ok(items, here)
    ensures Leads(ElementAt(cfg, q, here), RunAt(cfg, q, n), s)
  {
    forall t: string | s <= t ensures Follows(ElementAt(cfg, q, here)(t), RunAt(cfg, q, n)(t)) {
      ItemStep(cfg, s, t, q, i, items, here, n);
    }
  }

  lemma {:induction false} ParserIs(cfg: Config, s: string, lo: nat, here: nat)
    requires lo <= |s|
    ensures Parser(cfg, s, lo)(here) == if lo <= here <= |s| then Parse(cfg, s, here) else More(true)
  {
  }

  lemma {:induction false} ItemIs(cfg: Config, s: string, q: nat, here: nat)
    requires q <= here
    ensures ElementAt(cfg, q, here)(s) == FrameAt(cfg, here)(s)
  {
    if q <= |s| {
      ParserIs(cfg, s, q, here);
    }
  }

  lemma {:induction false} ItemIsFrame(cfg: Config, mode: Mode, w: Wire, q: nat, here: nat)
    requires q <= here
    ensures Pull(ElementAt(cfg, q, here), mode, w) == Pull(FrameAt(cfg, here), mode, w)
  {
    forall t: string | w.received <= t ensures ElementAt(cfg, q, here)(t) == FrameAt(cfg, here)(t) {
      ItemIs(cfg, t, q, here);
    }
    PullSame(ElementAt(cfg, q, here), FrameAt(cfg, here), mode, w);
  }

  lemma {:induction false} EntryLeads(
      cfg: Config, s: string, q: nat, i: nat, entries: seq<Pair>, here: nat, n: nat)
    requires q <= |s| && i < n && Repeat(Pairs(Parser(cfg, s, q)), q, i) == Ok(entries, here)
    ensures Leads(EntryAt(cfg, q, here), EntriesFrom(cfg, q, n), s)
  {
    forall t: string | s <= t ensures Follows(EntryAt(cfg, q, here)(t), EntriesFrom(cfg, q, n)(t)) {
      EntryStep(cfg, s, t, q, i, entries, here, n);
    }
  }

  /** Item i of a run, read from `w` on. */
  lemma {:induction false} ItemTurn(
      cfg: Config, mode: Mode, w: Wire, q: nat, i: nat, items: seq<Value>, here: nat, n: nat)
    requires q <= |w.received| && i < n && RunAt(cfg, q, i)(w.received) == Ok(items, here)
    ensures var out := Pull(ElementAt(cfg, q, here), mode, w);
            && Pull(RunAt(cfg, q, n), mode, w)
                 == (if out.stop.Ready? then Pull(RunAt(cfg, q, n), mode, out.wire) else out)
            && (out.stop.Ready? ==>
                  var r := ElementAt(cfg, q, here)(out.wire.received);
                  r.Ok? && RunAt(cfg, q, i + 1)(out.wire.received) == Ok(items + [r.value], r.next))
  {
    ItemLeads(cfg, w.received, q, i, items, here, n);
    PullThen(ElementAt(cfg, q, here), RunAt(cfg, q, n), mode, w);
    PullVerdict(ElementAt(cfg, q, here), mode, w);
    ItemStep(cfg, w.received, Pull(ElementAt(cfg, q, here), mode, w).wire.received, q, i, items, here, n);
  }

  lemma {:induction false} EntryTurn(
      cfg: Config, mode: Mode, w: Wire, q: nat, i: nat, entries: seq<Pair>, here: nat, n: nat)
    requires q <= |w.received| && i < n && EntriesFrom(cfg, q, i)(w.received) == Ok(entries, here)
    ensures var out := Pull(EntryAt(cfg, q, here), mode, w);
            && Pull(EntriesFrom(cfg, q, n), mode, w)
                 == (if out.stop.Ready? then Pull(EntriesFrom(cfg, q, n), mode, out.wire) else out)
            && (out.stop.Ready? ==>
                  var r := EntryAt(cfg, q, here)(out.wire.received);
                  r.Ok? && EntriesFrom(cfg, q, i + 1)(out.wire.received) == Ok(entries + [r.value], r.next))
  {
    EntryLeads(cfg, w.received, q, i, entries, here, n);
    PullThen(EntryAt(cfg, q, here), EntriesFrom(cfg, q, n), mode, w);
    PullVerdict(EntryAt(cfg, q, here), mode, w);
    EntryStep(cfg, w.received, Pull(EntryAt(cfg, q, here), mode, w).wire.received, q, i, entries, here, n);
  }

  lemma {:induction false} KeyLeads(cfg: Config, q: nat, here: nat, s: string)
    requires q <= here <= |s|
    ensures Leads(FrameAt(cfg, here), EntryAt(cfg, q, here), s)
  {
  }

  /** The key of the next entry was read from s, the value is read from t. */
  lemma {:induction false} KeyThenValue(cfg: Config, s: string, t: string, q: nat, here: nat, key: Value, mid: nat)
    requires s <= t && q <= here <= |s| && q <= mid <= |s| && Parse(cfg, s, here) == Ok(key, mid)
    ensures var r, value := ReadPair(Parser(cfg, t, q), here), Parse(cfg, t, mid);
            r == if value.Ok? then Ok(Pair(key, value.value), value.next) else value.Fail()
  {
    Grows(cfg, s, t, here);
  }

  lemma {:induction false} ValueLeads(cfg: Config, s: string, q: nat, here: nat, key: Value, mid: nat)
    requires q <= here <= |s| && q <= mid <= |s| && Parse(cfg, s, here) == Ok(key, mid)
    ensures Leads(FrameAt(cfg, mid), EntryAt(cfg, q, here), s)
  {
    forall t: string | s <= t ensures Follows(FrameAt(cfg, mid)(t), EntryAt(cfg, q, here)(t)) {
      KeyThenValue(cfg, s, t, q, here, key, mid);
    }
  }

  lemma {:induction false} EntriesLead(cfg: Config, ch: char, q: nat, n: nat, s: string)
    requires q <= |s|
    ensures Leads(EntriesFrom(cfg, q, n), PairedAt(cfg, ch, q, n), s)
  {
  }

  /** The entries of an attribute were read from s, its value is read from t. */
  lemma {:induction false} EntriesThenValue(
      cfg: Config, s: string, t: string, ch: char, q: nat, n: nat, entries: seq<Pair>, mid: nat)
    requires s <= t && ch != '%' && q <= mid <= |s|
    requires Repeat(Pairs(Parser(cfg, s, q)), q, n) == Ok(entries, mid)
    ensures var r, value := PairedAt(cfg, ch, q, n)(t), Parse(cfg, t, mid);
            r == if value.Ok? then Ok(Attribute(entries, value.value), value.next) else value
  {
    PairRunGrows(cfg, s, t, q, q, n);
  }

  lemma {:induction false} AttributeValueLeads(
      cfg: Config, s: string, ch: char, q: nat, n: nat, entries: seq<Pair>, mid: nat)
    requires ch != '%' && q <= mid <= |s|
    requires Repeat(Pairs(Parser(cfg, s, q)), q, n) == Ok(entries, mid)
    ensures Leads(FrameAt(cfg, mid), PairedAt(cfg, ch, q, n), s)
  {
    forall t: string | s <= t ensures Follows(FrameAt(cfg, mid)(t), PairedAt(cfg, ch, q, n)(t)) {
      EntriesThenValue(cfg, s, t, ch, q, n, entries, mid);
    }
  }

  lemma {:induction false} NextIs(cfg: Config, s: string, here: nat)
    ensures NextAt(RespGrammar(cfg), here)(s) == if here <= |s| then Parse(cfg, s, here) else More(true)
  {
    ParserIs(cfg, s, 0, here);
  }

  lemma {:induction false} NextIsFrame(cfg: Config, mode: Mode, w: Wire, here: nat)
    ensures Pull(NextAt(RespGrammar(cfg), here), mode, w) == Pull(FrameAt(cfg, here), mode, w)
  {
    forall t: string | w.received <= t ensures NextAt(RespGrammar(cfg), here)(t) == FrameAt(cfg, here)(t) {
      NextIs(cfg, t, here);
    }
    PullSame(NextAt(RespGrammar(cfg), here), FrameAt(cfg, here), mode, w);
  }

  // ---- the buffer s is what remains of the stream t from position k on

  /** While the line at the cursor is incomplete, the need is for more of a line. */
  ghost predicate NeedsLine<T(!new)>(need: string -> Result<T>, k: nat, p: nat) {
    forall t: string, s: string :: Tail(t, k, s) && p <= |s| && First(s, '\n', p) == |s| ==> need(t) == More(true)
  }

  /** Once it is complete, the need is for that line. */
  ghost predicate TakesLine(need: string -> Result<string>, k: nat, p: nat) {
    forall t: string, s: string ::
      Tail(t, k, s) && p <= |s| && First(s, '\n', p) < |s| ==> need(t) == Shift(ReadLine(s, p), k)
  }

  lemma {:induction false} LineNeeded(k: nat, p: nat)
    ensures NeedsLine(LineAt(k + p), k, p) && TakesLine(LineAt(k + p), k, p)
  {
    forall t: string, s: string | Tail(t, k, s) && p <= |s| ensures LineAt(k + p)(t) == Shift(ReadLine(s, p), k) {
      ReadLineShift(t, k, s, p);
    }
  }

  ghost predicate NeedsBulk<T(!new)>(need: string -> Result<T>, k: nat, p: nat, n: nat) {
    forall t: string, s: string :: Tail(t, k, s) && p <= |s| < p + n + 2 ==> need(t) == More(false)
  }

  lemma {:induction false} BulkNeeded(cfg: Config, k: nat, p: nat, n: nat)
    requires n < cfg.maxBulk
    ensures NeedsBulk(BulkAt(cfg, k + p, n), k, p, n)
  {
    forall t: string, s: string | Tail(t, k, s) && p <= |s| < p + n + 2
      ensures BulkAt(cfg, k + p, n)(t) == More(false)
    {
      ReadBulkShift(cfg, t, k, s, p, n);
    }
  }

  lemma {:induction false} BulkTooLong(cfg: Config, mode: Mode, w: Wire, p: nat, n: nat)
    requires p <= |w.received| && n >= cfg.maxBulk
    ensures Pull(BulkAt(cfg, p, n), mode, w) == Pulled(Malformed(EOVERFLOW), w)
  {
  }

  lemma {:induction false} BulkHere(cfg: Config, t: string, k: nat, s: string, p: nat, n: nat)
    requires Tail(t, k, s) && p + n + 2 <= |s| && n < cfg.maxBulk
    ensures k + p <= |t| && BulkAt(cfg, k + p, n)(t) == ReadBulk(cfg, t, k + p, n)
    ensures ReadBulk(cfg, t, k + p, n)
         == if s[p + n] != '\r' || s[p + n + 1] != '\n' then Bad(BAD_BULK) else Ok(Slice(s, p, p + n), k + p + n + 2)
  {
    ReadBulkShift(cfg, t, k, s, p, n);
  }

  /** A search for the end of the line may go on where it stopped. */
  lemma {:induction false} FindResumes(s: string, t: string, p: nat)
    requires s <= t && p <= |s| && First(s, '\n', p) == |s|
    ensures First(t, '\n', p) == First(t, '\n', |s|)
    decreases |s| - p
  {
    if p < |s| {
      FindResumes(s, t, p + 1);
    }
  }
}
