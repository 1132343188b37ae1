/**
 The stream parser of a connection: it keeps the bytes it has received but not used, reads more
 from the socket when a frame is incomplete, and takes up where it stopped. Every method ends with
 the outcome, the bytes received and the reads left that `StreamSpec` gives for it.
 */
module RespStream {
  import opened Common
  import opened Decimal
  import opened Resp
  import opened StreamSpec
  import opened StreamSteps
  import opened StreamTheorems
  import opened StreamLimits

  /** The bytes a socket delivers. */
  function Pending(source: Reads): nat {
    match source case Nothing => 0 case Reads(first, rest) => Size(first) + Pending(rest)
  }

  class RedisParser {
    const cfg: Config
    var linebuffer: string
    var pos: nat
    var source: Reads         // what the socket is going to deliver
    ghost var received: string    // all bytes that came into the buffer
    ghost var base: nat           // how many of them have been erased again

    ghost predicate Shape() reads this {
      && Tail(received, base, linebuffer) && pos <= |linebuffer|
      && Sound(source)
    }

    /** Between two calls. */
    ghost predicate Valid() reads this { Shape() && pos == 0 }

    /** Where the next byte to look at stands in the stream. */
    ghost function Here(): nat reads this { base + pos }

    ghost function Now(): Wire reads this { Wire(received, source) }

    ghost function Reading(await: bool): Mode reads this { Mode(await, base, cfg.maxBulk) }

    function Avail(): int reads this { |linebuffer| - pos + Pending(source) }

    /** A call in need of this has ended with err: error, bytes and reads are as specified. */
    ghost predicate Gives<T>(need: string -> Result<T>, await: bool, was: Wire, err: int) reads this {
      var out := Pull(need, Reading(await), was);
      err == Code(out.stop) && (err == 0 <==> out.stop.Ready?) && Now() == out.wire
    }

    /** A call in need of this, having read since, goes on as if it started now. */
    ghost predicate OnTrack<T>(need: string -> Result<T>, await: bool, was: Wire) reads this {
      Pull(need, Reading(await), was) == Pull(need, Reading(await), Now())
    }

    constructor (config: Config, socket: Reads)
      requires Sound(socket)
      ensures Valid() && received == "" && base == 0 && source == socket && cfg == config
    {
      cfg := config;
      linebuffer, pos, source := "", 0, socket;
      received, base := "", 0;
    }

    /** One read from the socket: the next of what it delivers. An awaiting call is not resumed
        before there is something to read; a non-blocking one gets EAGAIN then. */
    method Receive(await: bool) returns (r: Recv)
      requires Shape()
      modifies this`source
      ensures Shape() && Delivers(r)
      ensures match Skip(await, old(source))
              case Nothing => r == Fail(EAGAIN) && source == Nothing
              case Reads(first, rest) => r == first && source == rest
      ensures Size(r) + Pending(source) <= Pending(old(source))
      ensures Longest(source) <= Longest(old(source)) && Size(r) <= Longest(old(source))
    {
      while await && source.Reads? && source.first == Fail(EAGAIN)
        invariant Shape() && Skip(await, source) == Skip(await, old(source))
        invariant Pending(source) <= Pending(old(source)) && Longest(source) <= Longest(old(source))
        decreases source
      {
        source := source.rest;
      }
      if source == Nothing {
        return Fail(EAGAIN);
      }
      r, source := source.first, source.rest;
    }

    /** Appends what the socket delivers to the buffer. Reading a line, the buffer must stay below
        the limit. */
    method Fill(await: bool, limited: bool) returns (err: int)
      requires Shape()
      modifies this`source, this`linebuffer, this`received
      ensures Shape() && old(received) <= received && old(linebuffer) <= linebuffer
      ensures Avail() <= old(Avail())
      ensures err == 0 ==> |linebuffer| > |old(linebuffer)| && source < old(source)
      ensures err == 0 && limited ==> |linebuffer| < cfg.maxBulk
      ensures Longest(source) <= Longest(old(source)) && |linebuffer| <= |old(linebuffer)| + Longest(old(source))
      ensures err != 0 ==> linebuffer == old(linebuffer)
      ensures var out := Take(Reading(await), limited, old(Now()));
              err == Code(out.stop) && (err == 0 <==> out.stop.Ready?) && Now() == out.wire
    {
      var r := Receive(await);
      match r
      case Fail(e) => return e;
      case Closed => return ECONNRESET;
      case Data(bytes) =>
        if limited && |linebuffer| + |bytes| >= cfg.maxBulk {
          return EOVERFLOW;
        }
        TailGrows(received, base, linebuffer, bytes);
        linebuffer := linebuffer + bytes;
        received := received + bytes;
        err := 0;
    }

    /** The newline has been found. */
    method TakeLine(fd: nat, ghost need: string -> Result<string>) returns (err: int, ch: char, data: string)
      requires Shape() && fd == First(linebuffer, '\n', pos) < |linebuffer| && TakesLine(need, base, pos)
      modifies this`pos
      ensures Shape() && pos >= old(pos)
      ensures need(received) == if err == 0 then Ok(data, Here()) else Bad(err)
      ensures err == 0 ==> old(pos) < |linebuffer| && ch == linebuffer[old(pos)] && pos > old(pos)
    {
      assert need(received) == Shift(Resp.ReadLine(linebuffer, pos), base);
      if fd == pos || linebuffer[fd - 1] != '\r' {
        return BAD_LINE, '\0', "";
      }
      ch := linebuffer[pos];
      data := if fd == pos + 1 then "" else Slice(linebuffer, pos + 1, fd - 1);
      pos := fd + 1;
      err := 0;
    }

    /** Reads until the line from the cursor on is complete. */
    method FindLine<T(!new)>(await: bool, ghost need: string -> Result<T>) returns (err: int, fd: nat)
      requires Shape() && NeedsLine(need, base, pos)
      modifies this`source, this`linebuffer, this`received
      ensures Shape() && old(received) <= received && Avail() <= old(Avail())
      ensures err == 0 ==> fd == First(linebuffer, '\n', pos) < |linebuffer| && OnTrack(need, await, old(Now()))
      ensures err != 0 ==> Gives(need, await, old(Now()), err)
      ensures linebuffer == old(linebuffer) || |linebuffer| < cfg.maxBulk
    {
      fd := pos;
      while true
        invariant linebuffer == old(linebuffer) || |linebuffer| < cfg.maxBulk
        invariant Shape() && old(received) <= received && Avail() <= old(Avail())
        invariant pos <= fd <= |linebuffer| && First(linebuffer, '\n', pos) == First(linebuffer, '\n', fd)
        invariant OnTrack(need, await, old(Now()))
        decreases source
      {
        fd := First(linebuffer, '\n', fd);
        if fd < |linebuffer| {
          return 0, fd;
        }
        assert need(received) == More(true);
        ghost var seen := linebuffer;
        fd := |linebuffer|;
        err := Fill(await, true);
        if err != 0 {
          return;
        }
        FindResumes(seen, linebuffer, pos);
      }
    }

    /** Reads the line this is the need for. */
    method ReadLineFor(await: bool, ghost need: string -> Result<string>) returns (err: int, ch: char, data: string)
      requires Shape() && NeedsLine(need, base, pos) && TakesLine(need, base, pos)
      modifies this
      ensures Shape() && base == old(base) && old(received) <= received
      ensures Avail() <= old(Avail()) && pos >= old(pos)
      ensures Gives(need, await, old(Now()), err)
      ensures err == 0 ==>
        && need(received) == Ok(data, Here())
        && old(Here()) < |received| && ch == received[old(Here())] && Avail() < old(Avail())
      ensures linebuffer == old(linebuffer) || |linebuffer| < cfg.maxBulk
    {
      ch, data := '\0', "";
      var fd;
      err, fd := FindLine(await, need);
      if err == 0 {
        TailAt(received, base, linebuffer, pos);
        err, ch, data := TakeLine(fd, need);
      }
    }

    method ReadLine(await: bool) returns (err: int, ch: char, data: string)
      requires Shape()
      modifies this
      ensures Shape() && base == old(base) && old(received) <= received
      ensures Avail() <= old(Avail()) && pos >= old(pos)
      ensures Gives(LineAt(old(Here())), await, old(Now()), err)
      ensures err == 0 ==>
        && LineAt(old(Here()))(received) == Ok(data, Here())
        && old(Here()) < |received| && ch == received[old(Here())] && Avail() < old(Avail())
      ensures linebuffer == old(linebuffer) || |linebuffer| < cfg.maxBulk
    {
      LineNeeded(base, pos);
      err, ch, data := ReadLineFor(await, LineAt(Here()));
    }

    /** Reads until n bytes and the end of their line are in the buffer. */
    method FindBulk<T(!new)>(await: bool, n: nat, ghost need: string -> Result<T>) returns (err: int)
      requires Shape() && NeedsBulk(need, base, pos, n)
      modifies this`source, this`linebuffer, this`received
      ensures Shape() && old(received) <= received && Avail() <= old(Avail())
      ensures err == 0 ==> |linebuffer| - pos >= n + 2 && OnTrack(need, await, old(Now()))
      ensures err != 0 ==> Gives(need, await, old(Now()), err)
      ensures linebuffer == old(linebuffer) || |linebuffer| < pos + n + 2 + Longest(old(source))
    {
      while |linebuffer| - pos < n + 2
        invariant Shape() && old(received) <= received && Avail() <= old(Avail())
        invariant linebuffer == old(linebuffer) || |linebuffer| < pos + n + 2 + Longest(old(source))
        invariant Longest(source) <= Longest(old(source)) && OnTrack(need, await, old(Now()))
        decreases source
      {
        assert need(received) == More(false);
        err := Fill(await, false);
        if err != 0 {
          return;
        }
      }
      err := 0;
    }

    /** The bytes are there. */
    method TakeBulk(n: nat) returns (err: int, data: string)
      requires Shape() && |linebuffer| - pos >= n + 2 && n < cfg.maxBulk
      modifies this`pos
      ensures Shape() && pos >= old(pos)
      ensures BulkAt(cfg, old(Here()), n)(received) == if err == 0 then Ok(data, Here()) else Bad(err)
    {
      BulkHere(cfg, received, base, linebuffer, pos, n);
      if linebuffer[pos + n] != '\r' || linebuffer[pos + n + 1] != '\n' {
        return BAD_BULK, "";
      }
      data := Slice(linebuffer, pos, pos + n);
      pos := pos + n + 2;
      err := 0;
    }

    /** The buffer may grow past the limit here, but not further than the bulk and one read. */
    method ReadBulk(await: bool, n: nat) returns (err: int, data: string)
      requires Shape()
      modifies this
      ensures Shape() && base == old(base) && old(received) <= received
      ensures Avail() <= old(Avail()) && pos >= old(pos)
      ensures Gives(BulkAt(cfg, old(Here()), n), await, old(Now()), err)
      ensures err == 0 ==> BulkAt(cfg, old(Here()), n)(received) == Ok(data, Here())
      ensures linebuffer == old(linebuffer)
           || (n < cfg.maxBulk && |linebuffer| < old(pos) + n + 2 + Longest(old(source)))
    {
      data := "";
      if n >= cfg.maxBulk {
        BulkTooLong(cfg, Reading(await), Now(), Here(), n);
        return EOVERFLOW, data;
      }
      ghost var need := BulkAt(cfg, Here(), n);
      BulkNeeded(cfg, base, pos, n);
      err := FindBulk(await, n, need);
      if err != 0 {
        return;
      }
      err, data := TakeBulk(n);
    }

    /** One frame and everything inside it. */
    method ParseRecursion(await: bool) returns (err: int, v: Value)
      requires Shape()
      modifies this
      ensures Shape() && base == old(base) && old(received) <= received
      ensures Avail() <= old(Avail()) && pos >= old(pos)
      ensures Gives(FrameAt(cfg, old(Here())), await, old(Now()), err)
      ensures err == 0 ==> Parse(cfg, received, old(Here())) == Ok(v, Here())
      decreases Avail(), 0
    {
      v := Null;
      ghost var p := Here();
      FrameTurn(cfg, Reading(await), Now(), p);
      var ch, text;
      err, ch, text := ReadLine(await);
      if err != 0 {
        return;
      }
      ghost var s, q := received, Here();
      err, v := ParseBody(await, ch, text);
      FrameIsBody(cfg, s, received, p, text, q);
    }

    /** The frame whose first line has been read. */
    method ParseBody(await: bool, ch: char, text: string) returns (err: int, v: Value)
      requires Shape()
      modifies this
      ensures Shape() && base == old(base) && old(received) <= received
      ensures Avail() <= old(Avail()) && pos >= old(pos)
      ensures Gives(BodyAt(cfg, ch, text, old(Here())), await, old(Now()), err)
      ensures err == 0 ==> BodyAt(cfg, ch, text, old(Here()))(received) == Ok(v, Here())
      decreases Avail(), 5
    {
      v := Null;
      if IsBulk(ch) {
        err, v := ParseBulkFrame(await, ch, text);
      } else if IsList(ch) || IsPairs(ch) {
        err, v := ParseAggregate(await, ch, text);
      } else {
        match Scalar(cfg, ch, text, 0)
        case Ok(value, _) => err, v := 0, value;
        case Bad(e) => err := e;
      }
    }

    method ParseBulkFrame(await: bool, ch: char, text: string) returns (err: int, v: Value)
      requires Shape() && IsBulk(ch)
      modifies this
      ensures Shape() && base == old(base) && old(received) <= received
      ensures Avail() <= old(Avail()) && pos >= old(pos)
      ensures Gives(BodyAt(cfg, ch, text, old(Here())), await, old(Now()), err)
      ensures err == 0 ==> BodyAt(cfg, ch, text, old(Here()))(received) == Ok(v, Here())
    {
      v := Null;
      ghost var q, was := Here(), Now();
      match Stoll(text)
      case NumErr(e) => err := e;
      case Num(n) =>
        if n < 0 {
          err := if ch == '$' && n == -1 then 0 else EINVAL;
          return;
        }
        var data;
        err, data := ReadBulk(await, n);
        BulkLeads(cfg, ch, text, q, was.received);
        PullThen(BulkAt(cfg, q, n), BodyAt(cfg, ch, text, q), Reading(await), was);
        if err == 0 {
          v := BulkOf(ch, data);
        }
    }

    /** Arrays, sets, pushes, maps and attributes. */
    method ParseAggregate(await: bool, ch: char, text: string) returns (err: int, v: Value)
      requires Shape() && (IsList(ch) || IsPairs(ch))
      modifies this
      ensures Shape() && base == old(base) && old(received) <= received
      ensures Avail() <= old(Avail()) && pos >= old(pos)
      ensures Gives(BodyAt(cfg, ch, text, old(Here())), await, old(Now()), err)
      ensures err == 0 ==> BodyAt(cfg, ch, text, old(Here()))(received) == Ok(v, Here())
      decreases Avail(), 4
    {
      v := Null;
      ghost var q, was := Here(), Now();
      match Stoll(text)
      case NumErr(e) => err := e;
      case Num(n) =>
        if n < 0 {
          return EINVAL, v;
        }
        if IsList(ch) {
          var items;
          err, items := ParseItems(await, n);
          ListLeads(cfg, ch, text, q, was.received);
          PullThen(RunAt(cfg, q, n), BodyAt(cfg, ch, text, q), Reading(await), was);
          if err == 0 {
            v := ListOf(ch, items);
          }
        } else {
          err, v := ParsePaired(await, ch, n);
          PairedIsBody(cfg, Reading(await), was, ch, text, q);
        }
    }

    /** One element; q is where the list it belongs to starts. */
    method ParseItem(await: bool, ghost q: nat) returns (err: int, v: Value)
      requires Shape() && q <= Here()
      modifies this
      ensures Shape() && base == old(base) && old(received) <= received
      ensures Avail() <= old(Avail()) && pos >= old(pos)
      ensures Gives(ElementAt(cfg, q, old(Here())), await, old(Now()), err)
      ensures err == 0 ==> ElementAt(cfg, q, old(Here()))(received) == Ok(v, Here())
      decreases Avail(), 1
    {
      ghost var here := Here();
      ItemIsFrame(cfg, Reading(await), Now(), q, here);
      err, v := ParseRecursion(await);
      ItemIs(cfg, received, q, here);
    }

    method ParseItems(await: bool, n: nat) returns (err: int, items: seq<Value>)
      requires Shape()
      modifies this
      ensures Shape() && base == old(base) && old(received) <= received
      ensures Avail() <= old(Avail()) && pos >= old(pos)
      ensures Gives(RunAt(cfg, old(Here()), n), await, old(Now()), err)
      ensures err == 0 ==> RunAt(cfg, old(Here()), n)(received) == Ok(items, Here())
      decreases Avail(), 2
    {
      items := [];
      var i := 0;
      ghost var q, was := Here(), Now();
      while i < n
        invariant Shape() && base == old(base) && old(received) <= received
        invariant i <= n && Avail() <= old(Avail()) && pos >= old(pos)
        invariant RunAt(cfg, q, i)(received) == Ok(items, Here())
        invariant OnTrack(RunAt(cfg, q, n), await, was)
      {
        ghost var here, before := Here(), Now();
        var v;
        err, v := ParseItem(await, q);
        ItemTurn(cfg, Reading(await), before, q, i, items, here, n);
        if err != 0 {
          return;
        }
        items, i := items + [v], i + 1;
      }
      err := 0;
    }

    /** One key and its value; q is where the map they belong to starts. */
    method ParseEntry(await: bool, ghost q: nat) returns (err: int, e: Pair)
      requires Shape() && q <= Here()
      modifies this
      ensures Shape() && base == old(base) && old(received) <= received
      ensures Avail() <= old(Avail()) && pos >= old(pos)
      ensures Gives(EntryAt(cfg, q, old(Here())), await, old(Now()), err)
      ensures err == 0 ==> EntryAt(cfg, q, old(Here()))(received) == Ok(e, Here())
      decreases Avail(), 1
    {
      e := Pair(Null, Null);
      ghost var here, was := Here(), Now();
      var key, value;
      err, key := ParseRecursion(await);
      KeyLeads(cfg, q, here, was.received);
      PullThen(FrameAt(cfg, here), EntryAt(cfg, q, here), Reading(await), was);
      if err != 0 {
        return;
      }
      ghost var mid, before := Here(), Now();
      err, value := ParseRecursion(await);
      ValueLeads(cfg, before.received, q, here, key, mid);
      PullThen(FrameAt(cfg, mid), EntryAt(cfg, q, here), Reading(await), before);
      KeyThenValue(cfg, before.received, received, q, here, key, mid);
      if err == 0 {
        e := Pair(key, value);
      }
    }

    method ParseEntries(await: bool, n: nat) returns (err: int, entries: seq<Pair>)
      requires Shape()
      modifies this
      ensures Shape() && base == old(base) && old(received) <= received
      ensures Avail() <= old(Avail()) && pos >= old(pos)
      ensures Gives(EntriesFrom(cfg, old(Here()), n), await, old(Now()), err)
      ensures err == 0 ==> EntriesFrom(cfg, old(Here()), n)(received) == Ok(entries, Here())
      decreases Avail(), 2
    {
      entries := [];
      var i := 0;
      ghost var q, was := Here(), Now();
      while i < n
        invariant Shape() && base == old(base) && old(received) <= received
        invariant i <= n && Avail() <= old(Avail()) && pos >= old(pos)
        invariant EntriesFrom(cfg, q, i)(received) == Ok(entries, Here())
        invariant OnTrack(EntriesFrom(cfg, q, n), await, was)
      {
        ghost var here, before := Here(), Now();
        var e;
        err, e := ParseEntry(await, q);
        EntryTurn(cfg, Reading(await), before, q, i, entries, here, n);
        if err != 0 {
          return;
        }
        entries, i := entries + [e], i + 1;
      }
      err := 0;
    }

    /** A map; for an attribute the value the entries are about follows. */
    method ParsePaired(await: bool, ch: char, n: nat) returns (err: int, v: Value)
      requires Shape() && IsPairs(ch)
      modifies this
      ensures Shape() && base == old(base) && old(received) <= received
      ensures Avail() <= old(Avail()) && pos >= old(pos)
      ensures Gives(PairedAt(cfg, ch, old(Here()), n), await, old(Now()), err)
      ensures err == 0 ==> PairedAt(cfg, ch, old(Here()), n)(received) == Ok(v, Here())
      decreases Avail(), 3
    {
      v := Null;
      ghost var q, was := Here(), Now();
      var entries;
      err, entries := ParseEntries(await, n);
      EntriesLead(cfg, ch, q, n, was.received);
      PullThen(EntriesFrom(cfg, q, n), PairedAt(cfg, ch, q, n), Reading(await), was);
      if err != 0 {
        return;
      }
      if ch == '%' {
        v := Map(entries);
        return;
      }
      ghost var mid, before := Here(), Now();
      var value;
      err, value := ParseRecursion(await);
      AttributeValueLeads(cfg, before.received, ch, q, n, entries, mid);
      PullThen(FrameAt(cfg, mid), PairedAt(cfg, ch, q, n), Reading(await), before);
      EntriesThenValue(cfg, before.received, received, ch, q, n, entries, mid);
      if err == 0 {
        v := Attribute(entries, value);
      }
    }

    /** The used part of the buffer is erased. */
    method Consume()
      requires Shape()
      modifies this`linebuffer, this`pos, this`base
      ensures Valid() && base == old(Here())
    {
      TailDrops(received, base, linebuffer, pos);
      linebuffer, base := linebuffer[pos..], base + pos;
      pos := 0;
    }

    /** For the next connection. */
    method Reset(socket: Reads)
      requires Sound(socket)
      modifies this
      ensures Valid() && received == "" && base == 0 && source == socket
    {
      linebuffer, pos, source := "", 0, socket;
      received, base := "", 0;
    }

    /** The frame at the cursor, or why there is none. */
    method NextFrame(await: bool) returns (err: int, v: Value)
      requires Shape()
      modifies this
      ensures Shape() && base == old(base) && pos >= old(pos)
      ensures var need := NextAt(RespGrammar(cfg), old(Here()));
              var out := Pull(need, Reading(await), old(Now()));
              && Now() == out.wire && err == Code(out.stop) && (err == 0 <==> out.stop.Ready?)
              && (if err == 0 then need(out.wire.received) == Ok(v, Here()) else !need(out.wire.received).Ok?)
    {
      PullVerdict(NextAt(RespGrammar(cfg), Here()), Reading(await), Now());
      NextIsFrame(cfg, Reading(await), Now(), Here());
      ghost var here := Here();
      err, v := ParseRecursion(await);
      NextIs(cfg, received, here);
    }

    /** `parse`: waits for the next frame. After an error the cursor stays where it was reached. */
    method ParseOne() returns (err: int, v: Value)
      requires Valid()
      modifies this
      ensures Shape()
      ensures var out := One(RespGrammar(cfg), old(Now()), old(base));
              && err == Code(out.stop) && (err == 0 <==> out.stop.Ready?)
              && Now() == out.wire && base == out.base
              && (err == 0 ==> Valid() && out.values == [v])
    {
      err, v := NextFrame(true);
      if err == 0 {
        Consume();
      }
    }

    /** One more frame of a batch. */
    method TryNext(ghost n: nat, ghost values: seq<Value>) returns (err: int, v: Value)
      requires Shape() && n > 0
      modifies this
      ensures Shape() && base == old(base) && pos >= old(pos)
      ensures var out := Several(RespGrammar(cfg), old(Now()), base, old(Here()), n, values);
              if err == 0 then out == Several(RespGrammar(cfg), Now(), base, Here(), n - 1, values + [v])
              else if err == EAGAIN then out == Given(values, Ready, Now(), old(Here()), old(Here()))
              else !out.stop.Ready? && err == Code(out.stop) && out == Given(values, out.stop, Now(), base, old(Here()))
    {
      err, v := NextFrame(false);
    }

    /** `try_parse_n`: up to n frames without waiting. When the last one is incomplete its bytes
        stay in the buffer. */
    method TryParseN(n: nat) returns (num: nat, err: int, values: seq<Value>)
      requires Valid()
      modifies this
      ensures Valid() && num == |values| <= n
      ensures var out := Several(RespGrammar(cfg), old(Now()), old(base), old(base), n, []);
              && err == Code(out.stop) && (err == 0 <==> out.stop.Ready?)
              && Now() == out.wire && base == out.base && values == out.values
    {
      values, num := [], 0;
      ghost var out := Several(RespGrammar(cfg), Now(), base, base, n, []);
      while num < n
        invariant Shape() && base == old(base) && num == |values| <= n
        invariant out == Several(RespGrammar(cfg), Now(), base, Here(), n - num, values)
      {
        var pivot := pos;
        var v;
        err, v := TryNext(n - num, values);
        if err == EAGAIN {
          pos := pivot;
          Consume();
          return num, 0, values;
        } else if err != 0 {
          pos := 0;
          return;
        }
        values, num := values + [v], num + 1;
      }
      Consume();
      err := 0;
    }

    method Perform(call: Call) returns (err: int, values: seq<Value>)
      requires Valid()
      modifies this
      ensures Shape() && (err == 0 ==> Valid())
      ensures var out := Do(RespGrammar(cfg), old(Now()), old(base), call);
              && err == Code(out.stop) && (err == 0 <==> out.stop.Ready?)
              && Now() == out.wire && base == out.base && values == out.values
    {
      match call
      case Await =>
        var v;
        err, v := ParseOne();
        values := if err == 0 then [v] else [];
      case Try(n) =>
        var num;
        num, err, values := TryParseN(n);
    }
  }

  /** Any mix of awaiting and non-blocking calls until one fails, on any cut of a stream into
      reads: each call returns what its session says. */
  method Drive(parser: RedisParser, calls: seq<Call>) returns (got: seq<seq<Value>>, err: int)
    requires parser.Valid()
    modifies parser
    ensures var out := Session(RespGrammar(parser.cfg), old(parser.Now()), old(parser.base), calls, []);
            && got == out.got && err == Code(out.stop) && (err == 0 <==> out.stop.Ready?)
            && parser.Now() == out.wire && parser.base == out.base
  {
    got, err := [], 0;
    ghost var out := Session(RespGrammar(parser.cfg), parser.Now(), parser.base, calls, []);
    while |got| < |calls|
      invariant |got| <= |calls| && parser.Valid() && err == 0
      invariant out == Session(RespGrammar(parser.cfg), parser.Now(), parser.base, calls, got)
    {
      var values;
      err, values := parser.Perform(calls[|got|]);
      got := got + [values];
      if err != 0 {
        return;
      }
    }
  }

  /** Two connections on which the same bytes arrive, in any reads of at most r bytes and whatever
      calls for at most m frames are made: each gives what its session says, the values of one are
      the first of the other, and they are the same once both have failed, for a stream of n frames
      of which any m in a row, and one read, are within the limit. */
  method DriveTwo(
      cfg: Config, one: Reads, other: Reads, calls: seq<Call>, calls': seq<Call>,
      ghost r: nat, ghost m: nat, ghost n: nat)
      returns (got: seq<seq<Value>>, err: int, got': seq<seq<Value>>, err': int)
    requires Sound(one) && Sound(other) && Stream(one) == Stream(other) && KnownErrors(cfg)
    requires Longest(one) <= r && Longest(other) <= r && Within(calls, m) && Within(calls', m)
    ensures var out, out' := Transcript(RespGrammar(cfg), one, calls), Transcript(RespGrammar(cfg), other, calls');
            got == out.got && err == Code(out.stop) && got' == out'.got && err' == Code(out'.stop)
    ensures Flat(got) <= Flat(got') || Flat(got') <= Flat(got)
    ensures var g, s := RespGrammar(cfg), Stream(one);
            AllFramesFit(g, s, r, m, n) && err != 0 && err' != 0 ==> Flat(got) == Flat(got') && |Flat(got)| == n
  {
    ghost var g := RespGrammar(cfg);
    var parser := new RedisParser(cfg, one);
    var parser' := new RedisParser(cfg, other);
    got, err := Drive(parser, calls);
    got', err' := Drive(parser', calls');
    RespIsLawful(cfg);
    CutsDoNotMatter(g, one, other, calls, calls');
    if AllFramesFit(g, Stream(one), r, m, n) && err != 0 && err' != 0 {
      FailedHasAll(g, one, calls, r, m, n);
      FailedHasAll(g, other, calls', r, m, n);
    }
  }
}
