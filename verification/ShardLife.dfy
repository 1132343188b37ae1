/**
 The life of one shard of a cluster, in the thread-safe build: any number of callers of
 `try_connect` and of `close`. The flag `connected` is 0 at first, 1 while somebody connects,
 2 when the pipeline is published, 3 when the shard is dead.
 */
module ShardLife {
  import opened Common

  /** A caller of `try_connect`, by what it does next. */
  datatype Caller =
    | Idle
    | Claiming              // compare and swap 0 -> 1
    | Creating              // makes a pipeline and stores it in the shard
    | Publishing(pipe: nat) // compare and swap 1 -> 2
    | Starting(pipe: nat)   // sets it alive and starts its worker
    | Waiting               // spins until the flag is above 1
    | Reading               // the flag was 2: reads the shard's pipeline

  /** A caller of `close`: it has exchanged the flag and found 2. */
  datatype Closer = Away | Stopping

  /** `made` counts the pipelines made, `alive` the pipelines that are alive. History: `published`
      is the pipeline whose publication succeeded, `tooEarly` says that a closer stopped it before
      its creator had started it. */
  datatype State = State(
    connected: nat, pipe: Option<nat>, made: nat, alive: set<nat>,
    callers: seq<Caller>, closers: seq<Closer>,
    answers: seq<Option<nat>>, published: Option<nat>, tooEarly: bool)

  datatype Action = Call(a: nat) | Go(a: nat) | Close(b: nat) | Stop(b: nat)

  function Init(m: nat, n: nat): State {
    State(0, None, 0, {}, seq(m, _ => Idle), seq(n, _ => Away), [], None, false)
  }

  function Put(s: State, a: nat, c: Caller): State
    requires a < |s.callers|
  {
    s.(callers := s.callers[a := c])
  }

  function Return(s: State, a: nat, answer: Option<nat>): State
    requires a < |s.callers|
  {
    Put(s, a, Idle).(answers := s.answers + [answer])
  }

  function GoStep(s: State, a: nat): State
    requires a < |s.callers|
  {
    match s.callers[a]
    case Idle => s
    case Claiming =>
      if s.connected == 0 then Put(s, a, Creating).(connected := 1)
      else if s.connected == 1 then Put(s, a, Waiting)
      else if s.connected == 2 then Put(s, a, Reading)
      else Return(s, a, None)
    case Creating => Put(s, a, Publishing(s.made)).(pipe := Some(s.made), made := s.made + 1)
    case Publishing(pipe) =>
      if s.connected == 1 then Put(s, a, Starting(pipe)).(connected := 2, published := Some(pipe))
      else Return(s, a, None)
    case Starting(pipe) => Return(s, a, Some(pipe)).(alive := s.alive + {pipe})
    case Waiting =>
      if s.connected <= 1 then s
      else if s.connected == 2 then Put(s, a, Reading)
      else Return(s, a, None)
    case Reading => Return(s, a, s.pipe)
  }

  predicate IsStarting(c: Caller) { c.Starting? }

  predicate SomeoneStarts(callers: seq<Caller>) {
    exists a :: 0 <= a < |callers| && IsStarting(callers[a])
  }

  function Step(s: State, act: Action): (s': State)
    ensures |s'.callers| == |s.callers| && |s'.closers| == |s.closers|
  {
    match act
    case Call(a) => if a < |s.callers| && s.callers[a] == Idle then Put(s, a, Claiming) else s
    case Go(a) => if a < |s.callers| then GoStep(s, a) else s
    case Close(b) =>
      if b < |s.closers| && s.closers[b] == Away then
        s.(connected := 3, closers := if s.connected == 2 then s.closers[b := Stopping] else s.closers)
      else s
    case Stop(b) =>
      if b < |s.closers| && s.closers[b] == Stopping && s.pipe.Some? then
        s.(alive := s.alive - {s.pipe.value}, closers := s.closers[b := Away],
           tooEarly := SomeoneStarts(s.callers))
      else s
  }

  function Run(s: State, schedule: seq<Action>): (s': State)
    ensures |s'.callers| == |s.callers| && |s'.closers| == |s.closers|
  {
    if schedule == [] then s else Step(Run(s, schedule[..|schedule| - 1]), schedule[|schedule| - 1])
  }

  // ---- the invariant

  /** The creator: at most one caller ever gets past the claim. */
  predicate IsCreator(c: Caller) { c.Creating? || c.Publishing? || c.Starting? }

  ghost predicate CallerOk(connected: nat, pipe: Option<nat>, made: nat, published: Option<nat>, c: Caller) {
    match c
    case Creating => made == 0 && (connected == 1 || connected == 3) && published == None
    case Publishing(p) => p == 0 && made == 1 && (connected == 1 || connected == 3) && published == None
    case Starting(p) => p == 0 && published == Some(0)
    case Reading => published == Some(0)
    case Waiting => connected != 0
    case _ => true
  }

  ghost predicate OneCreator(callers: seq<Caller>) {
    forall a, b :: 0 <= a < b < |callers| ==> !IsCreator(callers[a]) || !IsCreator(callers[b])
  }

  ghost predicate NoCreator(callers: seq<Caller>) {
    forall a :: 0 <= a < |callers| ==> !IsCreator(callers[a])
  }

  ghost predicate NoStopper(closers: seq<Closer>) {
    forall b :: 0 <= b < |closers| ==> closers[b] == Away
  }

  ghost predicate OneStopper(closers: seq<Closer>) {
    forall b, c :: 0 <= b < c < |closers| ==> closers[b] == Away || closers[c] == Away
  }

  /** How the flag, the pipeline and its life go together. */
  ghost predicate FlagOk(s: State) {
    && s.connected <= 3 && s.made <= 1
    && (s.connected == 0 ==> s.made == 0 && NoCreator(s.callers))
    && (s.connected == 2 ==> s.published == Some(0))
    && (s.pipe == if s.made == 0 then None else Some(0))
    && (s.published.Some? ==> s.made == 1 && s.published == Some(0) && (s.connected == 2 || s.connected == 3))
    && (s.published == None ==> s.alive == {} && NoStopper(s.closers) && !s.tooEarly)
  }

  /** The published pipeline is meant to live while the shard is not closed or a closer has yet to
      stop it, and it keeps living when the closer came before its creator had started it. */
  predicate Lives(connected: nat, tooEarly: bool, closers: seq<Closer>) {
    connected == 2 || tooEarly || Stopping in closers
  }

  ghost predicate LifeOk(s: State) {
    && s.alive <= {0}
    && (s.connected != 3 ==> NoStopper(s.closers) && !s.tooEarly)
    && (s.tooEarly ==> NoStopper(s.closers))
    && (s.published.Some? ==>
          ((0 in s.alive) <==> !SomeoneStarts(s.callers) && Lives(s.connected, s.tooEarly, s.closers)))
    && (SomeoneStarts(s.callers) ==> Lives(s.connected, s.tooEarly, s.closers))
  }

  ghost predicate AnswersOk(connected: nat, published: Option<nat>, answers: seq<Option<nat>>) {
    && (forall k :: 0 <= k < |answers| ==> answers[k] == None || answers[k] == published)
    && (None in answers ==> connected == 3)
  }

  ghost predicate CallersOk(
      connected: nat, pipe: Option<nat>, made: nat, published: Option<nat>, callers: seq<Caller>)
  {
    forall a :: 0 <= a < |callers| ==> CallerOk(connected, pipe, made, published, callers[a])
  }

  ghost predicate Inv(s: State) {
    && FlagOk(s) && LifeOk(s) && OneCreator(s.callers) && OneStopper(s.closers)
    && CallersOk(s.connected, s.pipe, s.made, s.published, s.callers)
    && AnswersOk(s.connected, s.published, s.answers)
  }

  lemma {:induction false} InitInv(m: nat, n: nat)
    ensures Inv(Init(m, n))
  {
  }

  // ---- the callers

  /** Nobody but the creator ever starts, so whether somebody does depends on that caller only. */
  lemma {:induction false} OnlyCreatorStarts(callers: seq<Caller>, a: nat, c: Caller)
    requires a < |callers| && OneCreator(callers)
    requires IsCreator(c) ==> IsCreator(callers[a]) || NoCreator(callers)
    ensures OneCreator(callers[a := c])
    ensures IsCreator(callers[a]) && !IsCreator(c) ==> NoCreator(callers[a := c])
    ensures NoCreator(callers) && !IsCreator(c) ==> NoCreator(callers[a := c])
    ensures IsCreator(callers[a]) ==> (SomeoneStarts(callers) <==> IsStarting(callers[a]))
    ensures IsCreator(callers[a]) || IsCreator(c) ==> (SomeoneStarts(callers[a := c]) <==> IsStarting(c))
    ensures !IsCreator(callers[a]) && !IsCreator(c) ==> (SomeoneStarts(callers[a := c]) <==> SomeoneStarts(callers))
  {
    var callers' := callers[a := c];
    forall b, d | 0 <= b < d < |callers'| ensures !IsCreator(callers'[b]) || !IsCreator(callers'[d]) {
      assert !IsCreator(callers[b]) || !IsCreator(callers[d]);
    }
    forall b | 0 <= b < |callers| && b != a ensures IsStarting(callers[b]) <==> IsStarting(callers'[b]) {
    }
    if IsStarting(callers[a]) {
      assert SomeoneStarts(callers);
    }
    if IsStarting(c) {
      assert IsStarting(callers'[a]);
    }
    if SomeoneStarts(callers) {
      var b :| 0 <= b < |callers| && IsStarting(callers[b]);
      assert b != a ==> IsStarting(callers'[b]);
    }
  }

  /** A step that touches neither the flag nor the pipelines. */
  lemma {:induction false} PlainInv(s: State, a: nat, c: Caller)
    requires Inv(s) && a < |s.callers| && !IsCreator(s.callers[a]) && !IsCreator(c)
    requires CallerOk(s.connected, s.pipe, s.made, s.published, c)
    ensures Inv(Put(s, a, c))
  {
    OnlyCreatorStarts(s.callers, a, c);
  }

  lemma {:induction false} ClaimInv(s: State, a: nat)
    requires Inv(s) && a < |s.callers| && s.callers[a] == Claiming && s.connected == 0
    ensures Inv(GoStep(s, a))
  {
  }

  lemma {:induction false} ReturnInv(s: State, a: nat, answer: Option<nat>)
    requires Inv(s) && a < |s.callers| && !IsCreator(s.callers[a])
    requires if answer == None then s.connected == 3 else answer == s.published
    ensures Inv(Return(s, a, answer))
  {
    OnlyCreatorStarts(s.callers, a, Idle);
  }

  /** The creator moves on; the others are not concerned. */
  lemma {:induction false} OthersOk(s: State, s': State, a: nat)
    requires a < |s.callers| == |s'.callers| && OneCreator(s.callers) && IsCreator(s.callers[a])
    requires CallersOk(s.connected, s.pipe, s.made, s.published, s.callers)
    requires s'.callers == s.callers[a := s'.callers[a]]
    requires CallerOk(s'.connected, s'.pipe, s'.made, s'.published, s'.callers[a])
    requires (s.published.Some? ==> s'.published == s.published) && (s'.connected == 0 ==> s.connected == 0)
    ensures CallersOk(s'.connected, s'.pipe, s'.made, s'.published, s'.callers)
  {
  }

  lemma {:induction false} CreatorInv(s: State, a: nat)
    requires Inv(s) && a < |s.callers| && IsCreator(s.callers[a])
    ensures Inv(GoStep(s, a))
  {
    var s' := GoStep(s, a);
    assert CallerOk(s.connected, s.pipe, s.made, s.published, s.callers[a]);
    OnlyCreatorStarts(s.callers, a, s'.callers[a]);
    OthersOk(s, s', a);
  }

  lemma {:induction false} GoInv(s: State, a: nat)
    requires Inv(s) && a < |s.callers|
    ensures Inv(GoStep(s, a))
  {
    assert CallerOk(s.connected, s.pipe, s.made, s.published, s.callers[a]);
    match s.callers[a]
    case Idle =>
    case Claiming =>
      if s.connected == 0 { ClaimInv(s, a); }
      else if s.connected == 1 { PlainInv(s, a, Waiting); }
      else if s.connected == 2 { PlainInv(s, a, Reading); }
      else { ReturnInv(s, a, None); }
    case Waiting =>
      if s.connected == 2 { PlainInv(s, a, Reading); }
      else if s.connected > 2 { ReturnInv(s, a, None); }
    case Reading => ReturnInv(s, a, s.pipe);
    case _ => CreatorInv(s, a);
  }

  // ---- the closers

  lemma {:induction false} CloseInv(s: State, b: nat)
    requires Inv(s) && b < |s.closers| && s.closers[b] == Away
    ensures Inv(Step(s, Close(b)))
  {
    var s' := Step(s, Close(b));
    forall a | 0 <= a < |s.callers| ensures CallerOk(3, s.pipe, s.made, s.published, s.callers[a]) {
      assert CallerOk(s.connected, s.pipe, s.made, s.published, s.callers[a]);
    }
    assert s.connected == 2 ==> s'.closers[b] == Stopping;
  }

  lemma {:induction false} StopInv(s: State, b: nat)
    requires Inv(s) && b < |s.closers| && s.closers[b] == Stopping
    ensures Inv(Step(s, Stop(b)))
  {
  }

  lemma {:induction false} StepInv(s: State, act: Action)
    requires Inv(s)
    ensures Inv(Step(s, act))
  {
    match act
    case Call(a) => if a < |s.callers| && s.callers[a] == Idle { PlainInv(s, a, Claiming); }
    case Go(a) => if a < |s.callers| { GoInv(s, a); }
    case Close(b) => if b < |s.closers| && s.closers[b] == Away { CloseInv(s, b); }
    case Stop(b) => if b < |s.closers| && s.closers[b] == Stopping { StopInv(s, b); }
  }

  lemma {:induction false} RunInv(s: State, schedule: seq<Action>)
    requires Inv(s)
    ensures Inv(Run(s, schedule))
  {
    if schedule != [] {
      RunInv(s, schedule[..|schedule| - 1]);
      StepInv(Run(s, schedule[..|schedule| - 1]), schedule[|schedule| - 1]);
    }
  }

  // ---- what a shard guarantees

  function Reach(m: nat, n: nat, schedule: seq<Action>): State { Run(Init(m, n), schedule) }

  lemma {:induction false} ReachInv(m: nat, n: nat, schedule: seq<Action>)
    ensures Inv(Reach(m, n, schedule))
  {
    InitInv(m, n);
    RunInv(Init(m, n), schedule);
  }

  /** The state of a shard never decreases. */
  lemma {:induction false} StateNeverDecreases(m: nat, n: nat, schedule: seq<Action>, act: Action)
    ensures Reach(m, n, schedule).connected <= Reach(m, n, schedule + [act]).connected <= 3
  {
    ReachInv(m, n, schedule);
    ReachInv(m, n, schedule + [act]);
    RunSnoc(Init(m, n), schedule, act);
  }

  /** Whoever interferes: at most one pipeline is made, at most one published, every answer that is
      not null is that pipeline, and null is answered only when the shard is dead. */
  lemma {:induction false} OnePipeline(m: nat, n: nat, schedule: seq<Action>, k: nat)
    requires k < |Reach(m, n, schedule).answers|
    ensures var s := Reach(m, n, schedule);
            && s.made <= 1
            && (s.answers[k].Some? ==> s.answers[k] == s.published)
            && (s.answers[k] == None ==> s.connected == 3)
  {
    ReachInv(m, n, schedule);
  }

  /** What was published stays published. */
  lemma {:induction false} PublishedStays(m: nat, n: nat, schedule: seq<Action>, act: Action)
    requires Reach(m, n, schedule).published.Some?
    ensures Reach(m, n, schedule + [act]).published == Reach(m, n, schedule).published
  {
    ReachInv(m, n, schedule);
    var s := Reach(m, n, schedule);
    RunSnoc(Init(m, n), schedule, act);
    if act.Go? && act.a < |s.callers| {
      assert CallerOk(s.connected, s.pipe, s.made, s.published, s.callers[act.a]);
    }
  }

  // ---- closing

  predicate ClosesAt(n: nat, schedule: seq<Action>, i: nat) {
    i < |schedule| && schedule[i].Close? && schedule[i].b < n
  }

  lemma {:induction false} EarlierClose(n: nat, schedule: seq<Action>, act: Action)
    ensures (exists i: nat :: ClosesAt(n, schedule + [act], i))
       <==> (exists i: nat :: ClosesAt(n, schedule, i)) || (act.Close? && act.b < n)
  {
    var all := schedule + [act];
    if act.Close? && act.b < n {
      assert ClosesAt(n, all, |schedule|);
    }
    forall i: nat | i < |schedule| ensures ClosesAt(n, all, i) <==> ClosesAt(n, schedule, i) {
    }
  }

  lemma {:induction false} CloseStep(s: State, act: Action)
    requires Inv(s)
    ensures Step(s, act).connected == 3 <==> s.connected == 3 || (act.Close? && act.b < |s.closers|)
  {
    if act.Close? && act.b < |s.closers| && s.closers[act.b] != Away {
      assert !NoStopper(s.closers);
    }
  }

  /** A shard is dead exactly when somebody has called `close` on it. */
  lemma {:induction false} DeadIff(m: nat, n: nat, schedule: seq<Action>)
    ensures Reach(m, n, schedule).connected == 3 <==> exists i: nat :: ClosesAt(n, schedule, i)
  {
    if schedule != [] {
      var init, act := schedule[..|schedule| - 1], schedule[|schedule| - 1];
      assert schedule == init + [act];
      DeadIff(m, n, init);
      ReachInv(m, n, init);
      EarlierClose(n, init, act);
      CloseStep(Reach(m, n, init), act);
    }
  }

  /** A shard that is dead and has published nothing. */
  ghost predicate NeverLived(s: State) {
    && s.connected == 3 && s.published == None && s.alive == {}
    && forall k :: 0 <= k < |s.answers| ==> s.answers[k] == None
  }

  lemma {:induction false} NeverLivedGo(s: State, a: nat)
    requires Inv(s) && NeverLived(s) && a < |s.callers|
    ensures NeverLived(GoStep(s, a))
  {
    assert CallerOk(s.connected, s.pipe, s.made, s.published, s.callers[a]);
  }

  /** A shard that is closed before its pipeline was published is dead from then on: nothing is
      published, no pipeline lives, and every call of `try_connect` answers null. */
  lemma {:induction false} ClosedEarlyStaysDead(
      m: nat, n: nat, schedule: seq<Action>, b: nat, later: seq<Action>)
    requires b < n && Reach(m, n, schedule).connected < 2
    ensures NeverLived(Reach(m, n, schedule + [Close(b)] + later))
    decreases |later|
  {
    ReachInv(m, n, schedule);
    var closed := schedule + [Close(b)];
    if later == [] {
      RunSnoc(Init(m, n), schedule, Close(b));
      assert closed + later == closed;
    } else {
      var init, act := later[..|later| - 1], later[|later| - 1];
      ClosedEarlyStaysDead(m, n, schedule, b, init);
      ReachInv(m, n, closed + init);
      RunSnoc(Init(m, n), closed + init, act);
      assert closed + init + [act] == closed + later;
      if act.Go? && act.a < m {
        NeverLivedGo(Reach(m, n, closed + init), act.a);
      }
    }
  }

  // ---- a caller on its own

  /** k steps of caller a. */
  function Goes(s: State, a: nat, k: nat): (s': State)
    requires a < |s.callers|
    ensures |s'.callers| == |s.callers|
    decreases k
  {
    if k == 0 then s else Goes(GoStep(s, a), a, k - 1)
  }

  /** The number of steps a caller still has before it, when nobody else moves. */
  function StepsLeft(connected: nat, c: Caller): nat {
    match c
    case Idle => 0
    case Claiming => if connected == 0 then 4 else if connected == 2 then 2 else 1
    case Creating => if connected == 1 then 3 else 2
    case Publishing(_) => if connected == 1 then 2 else 1
    case Starting(_) => 1
    case Waiting => if connected == 2 then 2 else 1
    case Reading => 1
  }

  /** Too late: the shard is dead and the call has not got past that. */
  predicate TooLate(connected: nat, c: Caller) { connected == 3 && !c.Starting? && !c.Reading? }

  /** From s on to t, caller a returned: with null when it was too late, and else with the pipeline,
      which stands published, and is alive if this caller made it. */
  predicate Returned(s: State, t: State, a: nat)
    requires a < |s.callers|
  {
    var late := TooLate(s.connected, s.callers[a]);
    && t.callers == s.callers[a := Idle]
    && t.answers == s.answers + [if late then None else Some(0)]
    && t.connected == (if s.connected == 3 then 3 else 2)
    && (!late ==> t.published == Some(0) && (IsCreator(s.callers[a]) || s.connected == 0 ==> 0 in t.alive))
  }

  lemma {:induction false} OwnStep(s: State, a: nat)
    requires Inv(s) && a < |s.callers| && s.callers[a] != Idle
    requires s.connected == 1 ==> IsCreator(s.callers[a])
    ensures var t := GoStep(s, a);
            if StepsLeft(s.connected, s.callers[a]) == 1 then Returned(s, t, a)
            else
              && StepsLeft(t.connected, t.callers[a]) == StepsLeft(s.connected, s.callers[a]) - 1
              && t.callers == s.callers[a := t.callers[a]] && t.callers[a] != Idle && t.answers == s.answers
              && (t.connected == 3 <==> s.connected == 3)
              && TooLate(t.connected, t.callers[a]) == TooLate(s.connected, s.callers[a])
              && (t.connected == 1 ==> IsCreator(t.callers[a]))
              && (IsCreator(s.callers[a]) || s.connected == 0 ==> IsCreator(t.callers[a]))
  {
    assert CallerOk(s.connected, s.pipe, s.made, s.published, s.callers[a]);
  }

  lemma {:induction false} OwnSteps(s: State, a: nat)
    requires Inv(s) && a < |s.callers| && s.callers[a] != Idle
    requires s.connected == 1 ==> IsCreator(s.callers[a])
    ensures Returned(s, Goes(s, a, StepsLeft(s.connected, s.callers[a])), a)
    decreases StepsLeft(s.connected, s.callers[a])
  {
    var t := GoStep(s, a);
    OwnStep(s, a);
    if StepsLeft(s.connected, s.callers[a]) == 1 {
      assert Goes(t, a, 0) == t;
    } else {
      GoInv(s, a);
      OwnSteps(t, a);
    }
  }

  /** A call of `try_connect` that nobody disturbs returns within four steps, unless somebody else is
      connecting: with null exactly when it is too late, and else with the pipeline. */
  lemma {:induction false} CallReturns(m: nat, n: nat, schedule: seq<Action>, a: nat)
    requires a < m
    requires var s := Reach(m, n, schedule);
             s.callers[a] != Idle && (s.connected == 1 ==> IsCreator(s.callers[a]))
    ensures var s := Reach(m, n, schedule);
            var k := StepsLeft(s.connected, s.callers[a]);
            k <= 4 && Returned(s, Goes(s, a, k), a)
  {
    ReachInv(m, n, schedule);
    OwnSteps(Reach(m, n, schedule), a);
  }

  /** Action i of the schedule is a closer stopping the pipeline while its creator has published it
      and not yet started it. */
  ghost predicate StopsEarly(m: nat, n: nat, schedule: seq<Action>, i: nat) {
    i < |schedule| && schedule[i].Stop? &&
    var s := Reach(m, n, schedule[..i]);
    schedule[i].b < |s.closers| && s.closers[schedule[i].b] == Stopping && SomeoneStarts(s.callers)
  }

  lemma {:induction false} TooEarlyIs(m: nat, n: nat, schedule: seq<Action>)
    ensures Reach(m, n, schedule).tooEarly <==> exists i: nat :: StopsEarly(m, n, schedule, i)
  {
    if schedule != [] {
      var last := |schedule| - 1;
      TooEarlyIs(m, n, schedule[..last]);
      EarlierStops(m, n, schedule);
      TooEarlyStep(m, n, schedule);
    }
  }

  lemma {:induction false} EarlierStops(m: nat, n: nat, schedule: seq<Action>)
    requires schedule != []
    ensures var init := schedule[..|schedule| - 1];
            (exists i: nat :: StopsEarly(m, n, schedule, i))
            <==> (exists i: nat :: StopsEarly(m, n, init, i)) || StopsEarly(m, n, schedule, |schedule| - 1)
  {
    var init := schedule[..|schedule| - 1];
    forall i: nat | i < |init| ensures StopsEarly(m, n, schedule, i) <==> StopsEarly(m, n, init, i) {
      assert schedule[..i] == init[..i];
    }
  }

  lemma {:induction false} TooEarlyStep(m: nat, n: nat, schedule: seq<Action>)
    requires schedule != []
    ensures Reach(m, n, schedule).tooEarly
       <==> Reach(m, n, schedule[..|schedule| - 1]).tooEarly || StopsEarly(m, n, schedule, |schedule| - 1)
  {
    ReachInv(m, n, schedule[..|schedule| - 1]);
  }

  /** A shard that was closed for good, nobody being about to start or to stop anything, has a
      living pipeline exactly when the schedule let a closer stop it between its publication and
      its creator's next step, the start. */
  lemma {:induction false} CloseTakesEffectIff(m: nat, n: nat, schedule: seq<Action>)
    requires var s := Reach(m, n, schedule);
             s.connected == 3 && s.published.Some? && !SomeoneStarts(s.callers) && Stopping !in s.closers
    ensures var s := Reach(m, n, schedule);
            s.published.value in s.alive <==> exists i: nat :: StopsEarly(m, n, schedule, i)
  {
    ReachInv(m, n, schedule);
    TooEarlyIs(m, n, schedule);
  }

  /** Such a run: a close between the publication and the start is lost. */
  lemma {:induction false} CloseCanBeLost()
    ensures var s := Reach(1, 1, [Call(0), Go(0), Go(0), Go(0), Close(0), Stop(0), Go(0)]);
            s.connected == 3 && s.answers == [Some(0)] && s.alive == {0} && s.tooEarly
  {
    var s1 := Step(Init(1, 1), Call(0));
    var s2 := Step(s1, Go(0));
    var s3 := Step(s2, Go(0));
    var s4 := Step(s3, Go(0));
    var s5 := Step(s4, Close(0));
    assert IsStarting(s5.callers[0]);
    var s6 := Step(s5, Stop(0));
    var s7 := Step(s6, Go(0));
    RunIs7(Init(1, 1), Call(0), Go(0), Go(0), Go(0), Close(0), Stop(0), Go(0));
  }

  lemma {:induction false} RunIs7(
      s: State, a: Action, b: Action, c: Action, d: Action, e: Action, f: Action, g: Action)
    ensures Run(s, [a, b, c, d, e, f, g]) == Step(Step(Step(Step(Step(Step(Step(s, a), b), c), d), e), f), g)
  {
    RunSnoc(s, [], a);
    RunSnoc(s, [a], b);
    RunSnoc(s, [a, b], c);
    RunSnoc(s, [a, b, c], d);
    RunSnoc(s, [a, b, c, d], e);
    RunSnoc(s, [a, b, c, d, e], f);
    RunSnoc(s, [a, b, c, d, e, f], g);
    assert [] + [a] == [a] && [a] + [b] == [a, b] && [a, b] + [c] == [a, b, c];
    assert [a, b, c] + [d] == [a, b, c, d] && [a, b, c, d] + [e] == [a, b, c, d, e];
    assert [a, b, c, d, e] + [f] == [a, b, c, d, e, f] && [a, b, c, d, e, f] + [g] == [a, b, c, d, e, f, g];
  }

  lemma {:induction false} RunSnoc(s: State, schedule: seq<Action>, act: Action)
    ensures Run(s, schedule + [act]) == Step(Run(s, schedule), act)
  {
  }
}
