/**
 The table of shards of a cluster: open addressing with linear probing, filled once when the
 cluster connects and then by concurrent compare-and-swap. The hash is any function into the table.
 */
module ShardTable {
  import opened Common

  datatype Addr = Addr(ip: int, port: int)

  /** A shard object; the id is its identity. */
  datatype Shard = Shard(id: nat, addr: Addr)

  datatype Cell = Empty | Full(shard: Shard)

  /** The cell probed after i steps from `start`. */
  function Probe(start: nat, i: nat, n: nat): (c: nat)
    requires start < n && i < n
    ensures c < n
  {
    if start + i < n then start + i else start + i - n
  }

  lemma {:induction false} ProbeIsModulo(start: nat, i: nat, n: nat)
    requires start < n && i < n
    ensures Probe(start, i, n) == (start + i) % n
  {
  }

  /** After how many steps from `start` cell c is probed. */
  function Steps(start: nat, c: nat, n: nat): (i: nat)
    requires start < n && c < n
    ensures i < n && Probe(start, i, n) == c
  {
    if start <= c then c - start else c + n - start
  }

  /** The cell probed after i steps is taken by another address. */
  predicate Other(table: seq<Cell>, start: nat, i: nat, addr: Addr) {
    && start < |table| && i < |table|
    && table[Probe(start, i, |table|)].Full? && table[Probe(start, i, |table|)].shard.addr != addr
  }

  ghost predicate Passed(table: seq<Cell>, start: nat, i: nat, addr: Addr) {
    forall j: nat :: j < i ==> Other(table, start, j, addr)
  }

  /** From its own hash a shard is met before any empty cell, and is the first of its address. */
  ghost predicate Reachable(hash: Addr -> nat, table: seq<Cell>, c: nat)
    requires c < |table|
  {
    table[c].Full? ==>
      var addr := table[c].shard.addr;
      hash(addr) < |table| && Passed(table, hash(addr), Steps(hash(addr), c, |table|), addr)
  }

  ghost predicate TableOk(hash: Addr -> nat, table: seq<Cell>) {
    forall c: nat :: c < |table| ==> Reachable(hash, table, c)
  }

  /** No address occupies two cells. */
  lemma {:induction false} NoTwoCells(hash: Addr -> nat, table: seq<Cell>, c: nat, d: nat)
    requires TableOk(hash, table) && c < |table| && d < |table|
    requires table[c].Full? && table[d].Full? && table[c].shard.addr == table[d].shard.addr
    ensures c == d
  {
    assert Reachable(hash, table, c) && Reachable(hash, table, d);
    var addr, n := table[c].shard.addr, |table|;
    var i, j := Steps(hash(addr), c, n), Steps(hash(addr), d, n);
    assert i < j ==> Other(table, hash(addr), i, addr);
    assert j < i ==> Other(table, hash(addr), j, addr);
  }

  // ---- filling a cell

  /** Full cells stay as they are. */
  ghost predicate Grown(table: seq<Cell>, table': seq<Cell>) {
    |table'| == |table| && forall c: nat :: c < |table| && table[c].Full? ==> table'[c] == table[c]
  }

  lemma {:induction false} PassedStays(table: seq<Cell>, table': seq<Cell>, start: nat, i: nat, addr: Addr)
    requires Grown(table, table') && Passed(table, start, i, addr)
    ensures Passed(table', start, i, addr)
  {
    forall j: nat | j < i ensures Other(table', start, j, addr) {
      assert Other(table, start, j, addr);
    }
  }

  /** A shard put into the first empty cell of its probe sequence keeps the table in order. */
  lemma {:induction false} FillKeepsOrder(hash: Addr -> nat, table: seq<Cell>, shard: Shard, i: nat)
    requires TableOk(hash, table) && hash(shard.addr) < |table| && i < |table|
    requires Passed(table, hash(shard.addr), i, shard.addr)
    requires table[Probe(hash(shard.addr), i, |table|)] == Empty
    ensures TableOk(hash, table[Probe(hash(shard.addr), i, |table|) := Full(shard)])
  {
    var p := Probe(hash(shard.addr), i, |table|);
    var table' := table[p := Full(shard)];
    forall c: nat | c < |table'| ensures Reachable(hash, table', c) {
      if c == p {
        PassedStays(table, table', hash(shard.addr), i, shard.addr);
      } else if table[c].Full? {
        assert Reachable(hash, table, c);
        var addr := table[c].shard.addr;
        PassedStays(table, table', hash(addr), Steps(hash(addr), c, |table|), addr);
      }
    }
  }

  // ---- concurrent lookups

  datatype Finder =
    | Idle
    | Loading(addr: Addr, i: nat)   // about to load the i-th cell, or to give up
    | Adding(addr: Addr, i: nat)    // has seen it empty, about to compare and swap

  /** What a call returned. */
  datatype Answer = Answer(addr: Addr, shard: Option<Shard>)

  datatype State = State(table: seq<Cell>, finders: seq<Finder>, nextId: nat, answers: seq<Answer>)

  datatype Action = Call(a: nat, addr: Addr) | Go(a: nat)

  function SetFinder(s: State, a: nat, f: Finder): State
    requires a < |s.finders|
  {
    s.(finders := s.finders[a := f])
  }

  function Return(s: State, a: nat, addr: Addr, shard: Option<Shard>): State
    requires a < |s.finders|
  {
    SetFinder(s, a, Idle).(answers := s.answers + [Answer(addr, shard)])
  }

  /** The i-th cell holds a shard: it is the one looked for, or the search goes on. */
  function Meet(s: State, a: nat, addr: Addr, i: nat, shard: Shard): State
    requires a < |s.finders|
  {
    if shard.addr == addr then Return(s, a, addr, Some(shard)) else SetFinder(s, a, Loading(addr, i + 1))
  }

  /** One step of `find_shard`. The swap fails when another finder was faster; then the winner's
      shard is looked at. */
  function FindStep(hash: Addr -> nat, s: State, a: nat): State
    requires a < |s.finders| && forall addr :: hash(addr) < |s.table|
  {
    match s.finders[a]
    case Idle => s
    case Loading(addr, i) =>
      if i >= |s.table| then Return(s, a, addr, None)
      else (
        match s.table[Probe(hash(addr), i, |s.table|)]
        case Full(shard) => Meet(s, a, addr, i, shard)
        case Empty => SetFinder(s, a, Adding(addr, i)))
    case Adding(addr, i) =>
      if i >= |s.table| then s
      else (
        var p := Probe(hash(addr), i, |s.table|);
        match s.table[p]
        case Full(shard) => Meet(s, a, addr, i, shard)
        case Empty =>
          var new_ := Shard(s.nextId, addr);
          Return(s, a, addr, Some(new_)).(table := s.table[p := Full(new_)], nextId := s.nextId + 1))
  }

  function Step(hash: Addr -> nat, s: State, act: Action): (s': State)
    requires forall addr :: hash(addr) < |s.table|
    ensures |s'.table| == |s.table| && |s'.finders| == |s.finders|
  {
    match act
    case Call(a, addr) =>
      if a < |s.finders| && s.finders[a] == Idle then SetFinder(s, a, Loading(addr, 0)) else s
    case Go(a) => if a < |s.finders| then FindStep(hash, s, a) else s
  }

  function Run(hash: Addr -> nat, s: State, schedule: seq<Action>): (s': State)
    requires forall addr :: hash(addr) < |s.table|
    ensures |s'.table| == |s.table| && |s'.finders| == |s.finders|
  {
    if schedule == [] then s
    else Step(hash, Run(hash, s, schedule[..|schedule| - 1]), schedule[|schedule| - 1])
  }

  // ---- the invariant

  ghost predicate FinderOk(hash: Addr -> nat, table: seq<Cell>, f: Finder) {
    match f
    case Idle => true
    case Loading(addr, i) => i <= |table| && Passed(table, hash(addr), i, addr)
    case Adding(addr, i) => i < |table| && Passed(table, hash(addr), i, addr)
  }

  ghost predicate Holds(table: seq<Cell>, shard: Shard) {
    exists c: nat :: c < |table| && table[c] == Full(shard)
  }

  /** A shard that was returned is in the table; nothing is returned only when the table is full
      of other addresses. */
  ghost predicate AnswerOk(hash: Addr -> nat, table: seq<Cell>, ans: Answer) {
    match ans.shard
    case Some(shard) => shard.addr == ans.addr && Holds(table, shard)
    case None => Passed(table, hash(ans.addr), |table|, ans.addr)
  }

  ghost predicate Inv(hash: Addr -> nat, s: State) {
    && TableOk(hash, s.table)
    && (forall a :: 0 <= a < |s.finders| ==> FinderOk(hash, s.table, s.finders[a]))
    && (forall k :: 0 <= k < |s.answers| ==> AnswerOk(hash, s.table, s.answers[k]))
  }

  lemma {:induction false} GrownKeeps(hash: Addr -> nat, s: State, table': seq<Cell>)
    requires Inv(hash, s) && Grown(s.table, table')
    ensures forall a :: 0 <= a < |s.finders| ==> FinderOk(hash, table', s.finders[a])
    ensures forall k :: 0 <= k < |s.answers| ==> AnswerOk(hash, table', s.answers[k])
  {
    forall a | 0 <= a < |s.finders| ensures FinderOk(hash, table', s.finders[a]) {
      var f := s.finders[a];
      assert FinderOk(hash, s.table, f);
      if f != Idle {
        PassedStays(s.table, table', hash(f.addr), f.i, f.addr);
      }
    }
    forall k | 0 <= k < |s.answers| ensures AnswerOk(hash, table', s.answers[k]) {
      var ans := s.answers[k];
      assert AnswerOk(hash, s.table, ans);
      match ans.shard
      case None => PassedStays(s.table, table', hash(ans.addr), |s.table|, ans.addr);
      case Some(shard) =>
        var c: nat :| c < |s.table| && s.table[c] == Full(shard);
        assert table'[c] == Full(shard);
    }
  }

  lemma {:induction false} MeetInv(hash: Addr -> nat, s: State, a: nat, addr: Addr, i: nat, shard: Shard)
    requires Inv(hash, s) && a < |s.finders| && i < |s.table| && hash(addr) < |s.table|
    requires Passed(s.table, hash(addr), i, addr) && s.table[Probe(hash(addr), i, |s.table|)] == Full(shard)
    ensures Inv(hash, Meet(s, a, addr, i, shard))
  {
  }

  lemma {:induction false} AddInv(hash: Addr -> nat, s: State, a: nat)
    requires Inv(hash, s) && a < |s.finders| && s.finders[a].Adding? && forall addr :: hash(addr) < |s.table|
    requires s.table[Probe(hash(s.finders[a].addr), s.finders[a].i, |s.table|)] == Empty
    ensures Inv(hash, FindStep(hash, s, a))
  {
    var addr, i := s.finders[a].addr, s.finders[a].i;
    var p, shard := Probe(hash(addr), i, |s.table|), Shard(s.nextId, addr);
    var table' := s.table[p := Full(shard)];
    FillKeepsOrder(hash, s.table, shard, i);
    GrownKeeps(hash, s, table');
    assert table'[p] == Full(shard);
  }

  lemma {:induction false} StepInv(hash: Addr -> nat, s: State, act: Action)
    requires Inv(hash, s) && forall addr :: hash(addr) < |s.table|
    ensures Inv(hash, Step(hash, s, act))
  {
    if act.Go? && act.a < |s.finders| {
      var a := act.a;
      assert FinderOk(hash, s.table, s.finders[a]);
      match s.finders[a]
      case Idle =>
      case Loading(addr, i) =>
        if i < |s.table| && s.table[Probe(hash(addr), i, |s.table|)].Full? {
          MeetInv(hash, s, a, addr, i, s.table[Probe(hash(addr), i, |s.table|)].shard);
        }
      case Adding(addr, i) =>
        if s.table[Probe(hash(addr), i, |s.table|)].Full? {
          MeetInv(hash, s, a, addr, i, s.table[Probe(hash(addr), i, |s.table|)].shard);
        } else {
          AddInv(hash, s, a);
        }
    }
  }

  lemma {:induction false} RunInv(hash: Addr -> nat, s: State, schedule: seq<Action>)
    requires Inv(hash, s) && forall addr :: hash(addr) < |s.table|
    ensures Inv(hash, Run(hash, s, schedule))
  {
    if schedule != [] {
      RunInv(hash, s, schedule[..|schedule| - 1]);
      StepInv(hash, Run(hash, s, schedule[..|schedule| - 1]), schedule[|schedule| - 1]);
    }
  }

  // ---- what concurrent lookups guarantee

  /** Lookups begin on a table in order. */
  function Start(table: seq<Cell>, m: nat, nextId: nat): State {
    State(table, seq(m, _ => Idle), nextId, [])
  }

  /** In every interleaving of any number of lookups no address gets a second cell. */
  lemma {:induction false} OneCellPerAddress(
      hash: Addr -> nat, table: seq<Cell>, m: nat, nextId: nat, schedule: seq<Action>, c: nat, d: nat)
    requires TableOk(hash, table) && forall addr :: hash(addr) < |table|
    requires var t := Run(hash, Start(table, m, nextId), schedule).table;
             && c < |t| && d < |t| && t[c].Full? && t[d].Full? && t[c].shard.addr == t[d].shard.addr
    ensures c == d
  {
    RunInv(hash, Start(table, m, nextId), schedule);
    NoTwoCells(hash, Run(hash, Start(table, m, nextId), schedule).table, c, d);
  }

  /** All lookups of an address that return a shard return the same one, which is in the table. */
  lemma {:induction false} SameAnswers(
      hash: Addr -> nat, table: seq<Cell>, m: nat, nextId: nat, schedule: seq<Action>, j: nat, k: nat)
    requires TableOk(hash, table) && forall addr :: hash(addr) < |table|
    requires var answers := Run(hash, Start(table, m, nextId), schedule).answers;
             && j < |answers| && k < |answers| && answers[j].addr == answers[k].addr
             && answers[j].shard.Some? && answers[k].shard.Some?
    ensures var s := Run(hash, Start(table, m, nextId), schedule);
            s.answers[j] == s.answers[k] && Holds(s.table, s.answers[j].shard.value)
  {
    RunInv(hash, Start(table, m, nextId), schedule);
    var s := Run(hash, Start(table, m, nextId), schedule);
    assert AnswerOk(hash, s.table, s.answers[j]) && AnswerOk(hash, s.table, s.answers[k]);
    var c: nat :| c < |s.table| && s.table[c] == Full(s.answers[j].shard.value);
    var d: nat :| d < |s.table| && s.table[d] == Full(s.answers[k].shard.value);
    NoTwoCells(hash, s.table, c, d);
  }

  /** Every cell is taken by another address. */
  predicate FullOfOthers(table: seq<Cell>, addr: Addr) {
    forall c: nat :: c < |table| ==> table[c].Full? && table[c].shard.addr != addr
  }

  lemma {:induction false} PassedAll(table: seq<Cell>, start: nat, addr: Addr)
    requires start < |table|
    ensures Passed(table, start, |table|, addr) <==> FullOfOthers(table, addr)
  {
    if Passed(table, start, |table|, addr) {
      forall c: nat | c < |table| ensures table[c].Full? && table[c].shard.addr != addr {
        assert Other(table, start, Steps(start, c, |table|), addr);
      }
    }
  }

  /** A lookup has come back empty-handed exactly when every cell is taken by another address. */
  lemma {:induction false} NullIff(
      hash: Addr -> nat, table: seq<Cell>, m: nat, nextId: nat, schedule: seq<Action>, k: nat)
    requires TableOk(hash, table) && forall addr :: hash(addr) < |table|
    requires k < |Run(hash, Start(table, m, nextId), schedule).answers|
    ensures var s := Run(hash, Start(table, m, nextId), schedule);
            s.answers[k].shard == None <==> FullOfOthers(s.table, s.answers[k].addr)
  {
    RunInv(hash, Start(table, m, nextId), schedule);
    var s := Run(hash, Start(table, m, nextId), schedule);
    assert AnswerOk(hash, s.table, s.answers[k]);
    PassedAll(s.table, hash(s.answers[k].addr), s.answers[k].addr);
    if s.answers[k].shard.Some? {
      var c: nat :| c < |s.table| && s.table[c] == Full(s.answers[k].shard.value);
      assert !FullOfOthers(s.table, s.answers[k].addr);
    }
  }

  lemma {:induction false} StepGrows(hash: Addr -> nat, s: State, act: Action)
    requires forall addr :: hash(addr) < |s.table|
    ensures Grown(s.table, Step(hash, s, act).table)
  {
  }

  lemma {:induction false} RunGrows(hash: Addr -> nat, s: State, schedule: seq<Action>, n: nat)
    requires n <= |schedule| && forall addr :: hash(addr) < |s.table|
    ensures Grown(Run(hash, s, schedule[..n]).table, Run(hash, s, schedule).table)
  {
    if n < |schedule| {
      var init := schedule[..|schedule| - 1];
      assert init[..n] == schedule[..n];
      RunGrows(hash, s, init, n);
      StepGrows(hash, Run(hash, s, init), schedule[|schedule| - 1]);
    } else {
      assert schedule[..n] == schedule;
    }
  }

  /** Once the table is full of other addresses every lookup, whoever else looks for whatever, is
      answered null. */
  lemma {:induction false} FullTableAnswersNull(
      hash: Addr -> nat, table: seq<Cell>, m: nat, nextId: nat, schedule: seq<Action>, n: nat, k: nat)
    requires TableOk(hash, table) && n <= |schedule| && forall addr :: hash(addr) < |table|
    requires var s := Run(hash, Start(table, m, nextId), schedule[..n]);
             var t := Run(hash, Start(table, m, nextId), schedule);
             k < |t.answers| && FullOfOthers(s.table, t.answers[k].addr)
    ensures Run(hash, Start(table, m, nextId), schedule).answers[k].shard == None
  {
    RunGrows(hash, Start(table, m, nextId), schedule, n);
    NullIff(hash, table, m, nextId, schedule, k);
  }

  /** A lookup with nobody else about, after k of its steps. */
  function Alone(hash: Addr -> nat, table: seq<Cell>, nextId: nat, addr: Addr, k: nat): (s: State)
    requires forall addr :: hash(addr) < |table|
    ensures |s.table| == |table| && |s.finders| == 1
  {
    if k == 0 then Step(hash, Start(table, 1, nextId), Call(0, addr))
    else Step(hash, Alone(hash, table, nextId, addr, k - 1), Go(0))
  }

  lemma {:induction false} AloneProgress(hash: Addr -> nat, table: seq<Cell>, nextId: nat, addr: Addr, k: nat)
    requires forall addr :: hash(addr) < |table|
    ensures var s, start := Alone(hash, table, nextId, addr, k), hash(addr);
            match s.finders[0]
            case Loading(a, i) =>
              a == addr && i == k <= |table| && s.table == table && s.answers == [] && Passed(table, start, i, addr)
            case Adding(a, i) =>
              && a == addr && i + 1 == k <= |table| && s.table == table && s.answers == []
              && table[Probe(start, i, |table|)] == Empty
            case Idle =>
              && |s.answers| == 1 && s.answers[0].addr == addr
              && (s.answers[0].shard == None <==> FullOfOthers(table, addr))
  {
    if k > 0 {
      AloneProgress(hash, table, nextId, addr, k - 1);
      PassedAll(table, hash(addr), addr);
      var s := Alone(hash, table, nextId, addr, k - 1);
      if s.finders[0].Loading? && k <= |table| {
        var cell := table[Probe(hash(addr), k - 1, |table|)];
        assert Other(table, hash(addr), k - 1, addr) <==> cell.Full? && cell.shard.addr != addr;
      }
    }
  }

  /** A lookup alone ends after as many steps as there are cells and one more, and answers null
      exactly when the table it started on is full of other addresses. */
  lemma {:induction false} LoneLookupNullIff(hash: Addr -> nat, table: seq<Cell>, nextId: nat, addr: Addr)
    requires forall addr :: hash(addr) < |table|
    ensures var answers := Alone(hash, table, nextId, addr, |table| + 1).answers;
            && |answers| == 1 && answers[0].addr == addr
            && (answers[0].shard == None <==> FullOfOthers(table, addr))
  {
    AloneProgress(hash, table, nextId, addr, |table| + 1);
  }

  /** Such a run: a table of one cell, and a second address. */
  lemma {:induction false} NullHappens(taken: Shard, addr: Addr)
    requires taken.addr != addr
    ensures var hash, table := (_: Addr) => 0, [Full(taken)];
            && TableOk(hash, table)
            && Run(hash, Start(table, 1, 0), [Call(0, addr), Go(0), Go(0)]).answers == [Answer(addr, None)]
  {
    var hash, table := (_: Addr) => 0, [Full(taken)];
    var s0 := Start(table, 1, 0);
    var s1 := Step(hash, s0, Call(0, addr));
    var s2 := Step(hash, s1, Go(0));
    assert Run(hash, s0, []) == s0;
    RunSnoc(hash, s0, [], Call(0, addr));
    RunSnoc(hash, s0, [Call(0, addr)], Go(0));
    RunSnoc(hash, s0, [Call(0, addr), Go(0)], Go(0));
    assert [] + [Call(0, addr)] == [Call(0, addr)] && [Call(0, addr)] + [Go(0)] == [Call(0, addr), Go(0)];
    assert [Call(0, addr), Go(0)] + [Go(0)] == [Call(0, addr), Go(0), Go(0)];
    assert s2.finders[0] == Loading(addr, 1);
  }

  lemma {:induction false} RunSnoc(hash: Addr -> nat, s: State, schedule: seq<Action>, act: Action)
    requires forall addr :: hash(addr) < |s.table|
    ensures Run(hash, s, schedule + [act]) == Step(hash, Run(hash, s, schedule), act)
  {
    assert (schedule + [act])[..|schedule|] == schedule;
  }

  /** Probing from its hash meets an existing shard before any empty cell and before any other
      shard of that address. */
  lemma {:induction false} ProbeMeetsShard(
      hash: Addr -> nat, table: seq<Cell>, m: nat, nextId: nat, schedule: seq<Action>, c: nat, j: nat)
    requires TableOk(hash, table) && forall addr :: hash(addr) < |table|
    requires var t := Run(hash, Start(table, m, nextId), schedule).table;
             c < |t| && t[c].Full? && j < Steps(hash(t[c].shard.addr), c, |t|)
    ensures var t := Run(hash, Start(table, m, nextId), schedule).table;
            Other(t, hash(t[c].shard.addr), j, t[c].shard.addr)
  {
    RunInv(hash, Start(table, m, nextId), schedule);
    var t := Run(hash, Start(table, m, nextId), schedule).table;
    assert Reachable(hash, t, c);
  }

  // ---- shards are made once

  /** No two cells hold the same shard object, and the next one will be new. */
  ghost predicate NewIds(table: seq<Cell>, nextId: nat) {
    && (forall c :: 0 <= c < |table| && table[c].Full? ==> table[c].shard.id < nextId)
    && (forall c, d :: 0 <= c < d < |table| && table[c].Full? && table[d].Full? ==>
          table[c].shard.id != table[d].shard.id)
  }

  lemma {:induction false} NewIdsStep(hash: Addr -> nat, s: State, act: Action)
    requires NewIds(s.table, s.nextId) && forall addr :: hash(addr) < |s.table|
    ensures NewIds(Step(hash, s, act).table, Step(hash, s, act).nextId)
  {
  }

  /** Whatever lookups race, no two cells ever hold the same shard. */
  lemma {:induction false} ShardsAreDistinct(
      hash: Addr -> nat, table: seq<Cell>, m: nat, nextId: nat, schedule: seq<Action>)
    requires NewIds(table, nextId) && forall addr :: hash(addr) < |table|
    ensures var s := Run(hash, Start(table, m, nextId), schedule); NewIds(s.table, s.nextId)
  {
    if schedule != [] {
      var init := schedule[..|schedule| - 1];
      ShardsAreDistinct(hash, table, m, nextId, init);
      NewIdsStep(hash, Run(hash, Start(table, m, nextId), init), schedule[|schedule| - 1]);
    }
  }

  // ---- a lookup waits for nobody

  /** How many steps a lookup is away from its answer, at most. */
  function Left(n: nat, f: Finder): int {
    match f
    case Idle => 0
    case Loading(_, i) => 2 * (n - i) + 1
    case Adding(_, i) => 2 * (n - i)
  }

  function Moves(schedule: seq<Action>, a: nat): nat {
    if schedule == [] then 0
    else Moves(schedule[..|schedule| - 1], a) + (if schedule[|schedule| - 1] == Go(a) then 1 else 0)
  }

  lemma {:induction false} LeftStep(hash: Addr -> nat, s: State, act: Action, a: nat)
    requires Inv(hash, s) && (forall addr :: hash(addr) < |s.table|) && a < |s.finders| && s.finders[a] != Idle
    ensures var f, n := Step(hash, s, act).finders[a], |s.table|;
            f == Idle || Left(n, f) <= Left(n, s.finders[a]) - (if act == Go(a) then 1 else 0)
  {
    assert FinderOk(hash, s.table, s.finders[a]);
  }

  /** The lookup of finder a goes on throughout the schedule. */
  ghost predicate GoesOn(hash: Addr -> nat, s: State, schedule: seq<Action>, a: nat)
    requires a < |s.finders| && forall addr :: hash(addr) < |s.table|
  {
    forall k :: 0 <= k <= |schedule| ==> Run(hash, s, schedule[..k]).finders[a] != Idle
  }

  lemma {:induction false} LeftBounds(hash: Addr -> nat, s: State, a: nat)
    requires Inv(hash, s) && a < |s.finders| && s.finders[a] != Idle
    ensures 0 < Left(|s.table|, s.finders[a]) <= 2 * |s.table| + 1
  {
    assert FinderOk(hash, s.table, s.finders[a]);
  }

  lemma {:induction false} LeftRun(hash: Addr -> nat, s: State, schedule: seq<Action>, a: nat)
    requires Inv(hash, s) && (forall addr :: hash(addr) < |s.table|) && a < |s.finders|
    requires GoesOn(hash, s, schedule, a)
    ensures Left(|s.table|, Run(hash, s, schedule).finders[a]) + Moves(schedule, a) <= Left(|s.table|, s.finders[a])
    ensures Run(hash, s, schedule).finders[a] != Idle
  {
    assert schedule[..|schedule|] == schedule;
    if schedule != [] {
      var init := schedule[..|schedule| - 1];
      forall k | 0 <= k <= |init| ensures Run(hash, s, init[..k]).finders[a] != Idle {
        assert init[..k] == schedule[..k];
      }
      LeftRun(hash, s, init, a);
      RunInv(hash, s, init);
      LeftStep(hash, Run(hash, s, init), schedule[|schedule| - 1], a);
    }
  }

  lemma {:induction false} MovesBelow(hash: Addr -> nat, s: State, schedule: seq<Action>, a: nat)
    requires Inv(hash, s) && (forall addr :: hash(addr) < |s.table|) && a < |s.finders|
    requires GoesOn(hash, s, schedule, a)
    ensures Moves(schedule, a) <= 2 * |s.table|
  {
    assert schedule[..0] == [];
    LeftRun(hash, s, schedule, a);
    RunInv(hash, s, schedule);
    LeftBounds(hash, s, a);
    LeftBounds(hash, Run(hash, s, schedule), a);
  }

  /** A lookup has answered after at most two steps for each cell and one more, whatever the other
      lookups do meanwhile. */
  lemma {:induction false} LookupIsWaitFree(
      hash: Addr -> nat, table: seq<Cell>, m: nat, nextId: nat, before: seq<Action>, schedule: seq<Action>, a: nat)
    requires TableOk(hash, table) && (forall addr :: hash(addr) < |table|) && a < m
    requires Moves(schedule, a) > 2 * |table|
    ensures !GoesOn(hash, Run(hash, Start(table, m, nextId), before), schedule, a)
  {
    var s := Run(hash, Start(table, m, nextId), before);
    RunInv(hash, Start(table, m, nextId), before);
    if GoesOn(hash, s, schedule, a) {
      MovesBelow(hash, s, schedule, a);
    }
  }

  // ---- connecting: the shards of the slot map, and the first fill of the table

  const ENOMEM: int := 12

  /** One entry of the reply to CLUSTER SLOTS: slots from `begin` to `end` belong to `addr`. */
  datatype SlotRange = SlotRange(begin: nat, end: nat, addr: Addr)

  predicate Covers(r: SlotRange, slot: nat) { r.begin <= slot <= r.end }

  /** The owner of a slot according to the first n entries: the last one that covers it. */
  function Owner(ranges: seq<SlotRange>, n: nat, slot: nat): Option<Addr>
    requires n <= |ranges|
  {
    if n == 0 then None
    else if Covers(ranges[n - 1], slot) then Some(ranges[n - 1].addr)
    else Owner(ranges, n - 1, slot)
  }

  ghost predicate Distinct(shards: seq<Shard>) {
    forall i, j :: 0 <= i < j < |shards| ==> shards[i].addr != shards[j].addr
  }

  /** A slot without owner is left alone, one with an owner points at the shard of that address. */
  ghost predicate SlotOk(shards: seq<Shard>, owner: Option<Addr>, was: nat, now: nat) {
    match owner
    case None => now == was
    case Some(addr) => now < |shards| && shards[now].addr == addr
  }

  /** The addresses of the first n entries. */
  function Addresses(ranges: seq<SlotRange>, n: nat): set<Addr>
    requires n <= |ranges|
  {
    if n == 0 then {} else Addresses(ranges, n - 1) + {ranges[n - 1].addr}
  }

  function ShardAddresses(shards: seq<Shard>, n: nat): set<Addr>
    requires n <= |shards|
  {
    if n == 0 then {} else ShardAddresses(shards, n - 1) + {shards[n - 1].addr}
  }

  /** The shards are made for the addresses of the first n entries, one for each. */
  ghost predicate OnePerAddress(ranges: seq<SlotRange>, n: nat, shards: seq<Shard>)
    requires n <= |ranges|
  {
    && Distinct(shards)
    && ShardAddresses(shards, |shards|) == Addresses(ranges, n)
    && forall j :: 0 <= j < |shards| ==> shards[j].id == j
  }

  /** The position of the shard with this address, or the end. */
  method Search(shards: seq<Shard>, addr: Addr) returns (index: nat)
    ensures index <= |shards| && (index < |shards| ==> shards[index].addr == addr)
    ensures forall k :: 0 <= k < index ==> shards[k].addr != addr
  {
    index := 0;
    while index < |shards|
      invariant index <= |shards|
      invariant forall k :: 0 <= k < index ==> shards[k].addr != addr
    {
      if shards[index].addr == addr {
        return;
      }
      index := index + 1;
    }
  }

  lemma {:induction false} AddressListed(shards: seq<Shard>, n: nat, j: nat)
    requires j < n <= |shards|
    ensures shards[j].addr in ShardAddresses(shards, n)
  {
    if j < n - 1 {
      AddressListed(shards, n - 1, j);
    }
  }

  lemma {:induction false} AddressesStay(shards: seq<Shard>, shard: Shard, n: nat)
    requires n <= |shards|
    ensures ShardAddresses(shards + [shard], n) == ShardAddresses(shards, n)
  {
    if n > 0 {
      AddressesStay(shards, shard, n - 1);
    }
  }

  lemma {:induction false} NextRange(ranges: seq<SlotRange>, k: nat, shards: seq<Shard>, index: nat)
    requires k < |ranges| && OnePerAddress(ranges, k, shards) && index <= |shards|
    requires forall j :: 0 <= j < index ==> shards[j].addr != ranges[k].addr
    requires index < |shards| ==> shards[index].addr == ranges[k].addr
    ensures OnePerAddress(ranges, k + 1, if index < |shards| then shards else shards + [Shard(index, ranges[k].addr)])
  {
    if index < |shards| {
      AddressListed(shards, |shards|, index);
    } else {
      AddressesStay(shards, Shard(index, ranges[k].addr), |shards|);
    }
  }

  /** One shard per address, and every covered slot points at the shard that owns it. */
  method Collect(ranges: seq<SlotRange>, slots: array<nat>) returns (shards: seq<Shard>)
    requires slots.Length == NUM_SLOT
    requires forall k :: 0 <= k < |ranges| ==> ranges[k].end < NUM_SLOT
    modifies slots
    ensures OnePerAddress(ranges, |ranges|, shards)
    ensures forall s :: 0 <= s < NUM_SLOT ==>
              SlotOk(shards, Owner(ranges, |ranges|, s), old(slots[s]), slots[s])
  {
    shards := [];
    var k := 0;
    while k < |ranges|
      invariant 0 <= k <= |ranges| && OnePerAddress(ranges, k, shards)
      invariant forall s :: 0 <= s < NUM_SLOT ==> SlotOk(shards, Owner(ranges, k, s), old(slots[s]), slots[s])
    {
      var r := ranges[k];
      var index := Search(shards, r.addr);
      NextRange(ranges, k, shards, index);
      if index == |shards| {
        shards := shards + [Shard(index, r.addr)];
      }
      ghost var before := slots[..];
      var s := r.begin;
      while s <= r.end
        invariant r.begin <= s
        invariant forall j :: 0 <= j < NUM_SLOT ==>
          slots[j] == if r.begin <= j < s && j <= r.end then index else before[j]
        decreases r.end + 1 - s
      {
        slots[s] := index;
        s := s + 1;
      }
      k := k + 1;
    }
  }

  ghost function FullCells(table: seq<Cell>): set<nat> {
    set c: nat | c < |table| && table[c].Full?
  }

  ghost function Below(n: nat): set<nat> { if n == 0 then {} else Below(n - 1) + {n - 1} }

  lemma {:induction false} BelowIs(n: nat, c: nat)
    ensures c in Below(n) <==> c < n
  {
    if n > 0 {
      BelowIs(n - 1, c);
    }
  }

  lemma {:induction false} BelowSize(n: nat)
    ensures |Below(n)| == n
  {
    if n > 0 {
      BelowSize(n - 1);
      BelowIs(n - 1, n - 1);
    }
  }

  lemma {:induction false} FullCellsBound(table: seq<Cell>)
    ensures |FullCells(table)| <= |table|
    ensures (forall c :: 0 <= c < |table| ==> table[c].Full?) ==> |FullCells(table)| == |table|
  {
    var all := Below(|table|);
    BelowSize(|table|);
    forall c: nat ensures c in all <==> c < |table| {
      BelowIs(|table|, c);
    }
    assert FullCells(table) + (all - FullCells(table)) == all;
    if forall c :: 0 <= c < |table| ==> table[c].Full? {
      assert FullCells(table) == all;
    }
  }

  /** The cells hold the first k shards and nothing else. */
  ghost predicate HoldsFirst(table: seq<Cell>, shards: seq<Shard>, k: nat)
    requires k <= |shards|
  {
    && |FullCells(table)| == k
    && (forall j :: 0 <= j < k ==> Holds(table, shards[j]))
    && (forall c :: 0 <= c < |table| && table[c].Full? ==> table[c].shard in shards[..k])
  }

  lemma {:induction false} NextShardIsNew(
      hash: Addr -> nat, table: seq<Cell>, shards: seq<Shard>, k: nat, i: nat)
    requires k < |shards| && Distinct(shards) && HoldsFirst(table, shards, k)
    requires hash(shards[k].addr) < |table| && i <= |table|
    requires forall j: nat :: j < i ==> table[Probe(hash(shards[k].addr), j, |table|)].Full?
    ensures Passed(table, hash(shards[k].addr), i, shards[k].addr)
  {
  }

  lemma {:induction false} HoldsNext(table: seq<Cell>, shards: seq<Shard>, k: nat, c: nat)
    requires k < |shards| && HoldsFirst(table, shards, k) && c < |table| && table[c] == Empty
    ensures HoldsFirst(table[c := Full(shards[k])], shards, k + 1)
  {
    var table' := table[c := Full(shards[k])];
    assert FullCells(table') == FullCells(table) + {c};
    assert table'[c] == Full(shards[k]);
    forall j | 0 <= j < k + 1 ensures Holds(table', shards[j]) {
      if j < k {
        var d: nat :| d < |table| && table[d] == Full(shards[j]);
        assert table'[d] == Full(shards[j]);
      }
    }
    assert shards[..k + 1] == shards[..k] + [shards[k]];
  }

  /** The fill of an empty table: it fails exactly when there are more shards than cells, and
      leaves the table in the order that lookups rely on. */
  method Fill(hash: Addr -> nat, shards: seq<Shard>, table: array<Cell>) returns (err: int)
    requires Distinct(shards) && forall addr :: hash(addr) < table.Length
    requires forall c :: 0 <= c < table.Length ==> table[c] == Empty
    modifies table
    ensures TableOk(hash, table[..])
    ensures err == (if |shards| <= table.Length then 0 else 12)
    ensures err == 0 ==> forall j :: 0 <= j < |shards| ==> Holds(table[..], shards[j])
    ensures forall c :: 0 <= c < table.Length && table[c].Full? ==> table[c].shard in shards
  {
    var n := table.Length;
    assert FullCells(table[..]) == {};
    var k := 0;
    while k < |shards|
      invariant 0 <= k <= |shards| && TableOk(hash, table[..]) && HoldsFirst(table[..], shards, k)
    {
      var start := hash(shards[k].addr);
      var i := 0;
      while i < n && table[Probe(start, i, n)] != Empty
        invariant 0 <= i <= n
        invariant forall j: nat :: j < i ==> table[..][Probe(start, j, n)].Full?
        modifies {}
      {
        i := i + 1;
      }
      FullCellsBound(table[..]);
      if i == n {
        forall c | 0 <= c < n ensures table[..][c].Full? {
          assert Probe(start, Steps(start, c, n), n) == c;
        }
        return ENOMEM;
      }
      NextShardIsNew(hash, table[..], shards, k, i);
      FillKeepsOrder(hash, table[..], shards[k], i);
      HoldsNext(table[..], shards, k, Probe(start, i, n));
      ghost var before := table[..];
      table[Probe(start, i, n)] := Full(shards[k]);
      assert table[..] == before[Probe(start, i, n) := Full(shards[k])];
      k := k + 1;
    }
    FullCellsBound(table[..]);
    err := 0;
  }
}
