/**
 Cancellation of a chain of awaiting tasks (thread-safe build). `nodes[0]` is the outermost
 task, the last node the task that runs; the parent of node i is node i - 1. Each node has a
 cancel bit (0b01) and a hooked bit (0b10). The running task hooks the whole chain before an
 operation suspends it and unhooks it afterwards; any number of threads may call
 `request_cancel` on any node meanwhile, also on tasks that have returned: a token keeps those alive
 outside the chain (`gone`). Each atomic operation is one step.
 */
module CancelChain {

  datatype Node = Node(cancelled: bool, hooked: bool)

  const FREE_NODE := Node(false, false)

  datatype Lock = Free | ByHook | ByCanceller(c: nat)

  /** Where the running task is. */
  datatype TaskPc =
    | Idle
    | FirstCas            // a root without chain object hooks itself, without the lock
    | WantLock
    | Climb(i: nat)       // nodes above i are hooked; about to compare-and-swap node i
    | RollBack(i: nat)    // the hook failed; about to clear node i, then i + 1, ...
    | HookOk              // all nodes hooked; about to unlock
    | HookFailed          // about to unlock
    | ReturnedFalse       // the hook returned false
    | Suspended           // the hook returned true: waiting for the operation
    | Unhook(i: nat)      // about to clear node i, then i - 1, ...

  /** A task: in the chain, or returned. */
  datatype Ref = In(i: nat) | Gone(k: nat)

  /** Where a canceller is. `round` (history) is the hook round it raced with. */
  datatype CancelPc =
    | Out
    | Loaded(at: Ref, expected: Node)
    | Waiting(at: Ref, round: int)
    | Holding(at: Ref, round: int)
    | Calling(at: Ref, round: int)
    | Leaving(at: Ref, round: int, called: bool)

  /** History of one hook round: an attempt to hook the chain, and what became of it. */
  datatype Outcome = Trying | Hooked | Failed | Released

  /** A `request_cancel` that set a task's bit while hook round `round` was going on. */
  datatype Report =
    | FoundFree(j: nat, round: int)            // node j was not hooked yet
    | FoundHooked(round: int, called: bool)    // the task was hooked; reported when the call returns

  datatype State = State(
    nodes: seq<Node>, gone: seq<Node>, chained: bool, handle: int, lock: Lock,
    task: TaskPc, cancellers: seq<CancelPc>,
    rounds: seq<Outcome>, hooks: nat, calls: seq<int>, log: seq<Report>)

  datatype Action =
    | StartHook              // the running task is about to suspend in an operation
    | TaskStep               // the running task's next step
    | Await(cancelled: bool) // the running task awaits a task, which may have been cancelled before
    | Return                 // the running task finishes, its awaiter continues
    | Cancel(c: nat, at: Ref) // canceller c starts on a task, or takes its next step
    | Spurious(c: nat)       // canceller c's weak compare-and-swap fails for no reason

  function Init(m: nat): State {
    State([FREE_NODE], [], false, -1, Free, Idle, seq(m, _ => Out), [], 0, [], [])
  }

  function Leaf(s: State): int { |s.nodes| - 1 }

  function Cur(s: State): int { |s.rounds| - 1 }

  predicate InProgress(s: State) { s.rounds != [] && s.rounds[|s.rounds| - 1] == Trying }

  function SetHooked(s: State, i: nat, b: bool): (s': State)
    requires i < |s.nodes|
    ensures |s'.nodes| == |s.nodes|
  {
    s.(nodes := s.nodes[i := s.nodes[i].(hooked := b)])
  }

  function Settle(s: State, o: Outcome): State {
    if s.rounds == [] then s else s.(rounds := s.rounds[|s.rounds| - 1 := o])
  }

  function StartHookStep(s: State): State {
    if !s.chained then
      s.(chained := true, handle := |s.rounds|, rounds := s.rounds + [Trying], task := FirstCas)
    else
      s.(rounds := s.rounds + [Trying], task := WantLock)
  }

  function ClimbStep(s: State, i: nat): State
    requires i < |s.nodes|
  {
    if s.nodes[i] == FREE_NODE then
      var s' := SetHooked(s, i, true);
      if i == 0 then Settle(s', Hooked).(task := HookOk, hooks := s.hooks + 1)
      else s'.(task := Climb(i - 1))
    else
      Settle(s, Failed).(task := if i == Leaf(s) then HookFailed else RollBack(i + 1))
  }

  function DoTaskStep(s: State): State
    requires s.nodes != []
  {
    match s.task
    case Idle => s
    case FirstCas =>
      if s.nodes[0] == FREE_NODE then
        Settle(SetHooked(s, 0, true), Hooked).(task := Suspended, hooks := s.hooks + 1)
      else
        Settle(s, Failed).(task := ReturnedFalse)
    case WantLock =>
      if s.lock == Free then s.(lock := ByHook, handle := Cur(s), task := Climb(Leaf(s))) else s
    case Climb(i) => if i < |s.nodes| then ClimbStep(s, i) else s
    case RollBack(i) =>
      if i < |s.nodes| then
        SetHooked(s, i, false).(task := if i == Leaf(s) then HookFailed else RollBack(i + 1))
      else s
    case HookOk => s.(lock := Free, task := Suspended)
    case HookFailed => s.(lock := Free, task := ReturnedFalse)
    case ReturnedFalse => s.(task := Unhook(Leaf(s)))
    case Suspended => Settle(s, Released).(task := Unhook(Leaf(s)))
    case Unhook(i) =>
      if i < |s.nodes| then
        SetHooked(s, i, false).(task := if i == 0 then Idle else Unhook(i - 1))
      else s
  }

  predicate RefOk(s: State, at: Ref) {
    match at case In(i) => i < |s.nodes| case Gone(k) => k < |s.gone|
  }

  function NodeAt(s: State, at: Ref): Node
    requires RefOk(s, at)
  {
    match at case In(i) => s.nodes[i] case Gone(k) => s.gone[k]
  }

  function SetCancelled(s: State, at: Ref): State
    requires RefOk(s, at)
  {
    var node := NodeAt(s, at).(cancelled := true);
    match at
    case In(i) => s.(nodes := s.nodes[i := node])
    case Gone(k) => s.(gone := s.gone[k := node])
  }

  function SetPc(s: State, c: nat, p: CancelPc): State
    requires c < |s.cancellers|
  {
    s.(cancellers := s.cancellers[c := p])
  }

  /** The compare-and-swap that sets the cancel bit succeeded. */
  function SwapStep(s: State, c: nat, at: Ref): State
    requires c < |s.cancellers| && RefOk(s, at)
  {
    var s' := SetCancelled(s, at);
    if NodeAt(s, at).hooked then SetPc(s', c, Waiting(at, Cur(s)))
    else
      SetPc(s', c, Out).(log := if at.In? && InProgress(s) then s.log + [FoundFree(at.i, Cur(s))] else s.log)
  }

  function CancelStep(s: State, c: nat, at: Ref, spurious: bool): State
    requires c < |s.cancellers|
  {
    match s.cancellers[c]
    case Out => if RefOk(s, at) then SetPc(s, c, Loaded(at, NodeAt(s, at))) else s
    case Loaded(at, expected) =>
      if !RefOk(s, at) then s
      else if expected.cancelled then SetPc(s, c, Out)
      else if NodeAt(s, at) != expected || spurious then SetPc(s, c, Loaded(at, NodeAt(s, at)))
      else SwapStep(s, c, at)
    case Waiting(at, round) =>
      if s.lock == Free then SetPc(s, c, Holding(at, round)).(lock := ByCanceller(c)) else s
    case Holding(at, round) =>
      if RefOk(s, at) && NodeAt(s, at).hooked then SetPc(s, c, Calling(at, round))
      else SetPc(s, c, Leaving(at, round, false))
    case Calling(at, round) =>
      SetPc(s, c, Leaving(at, round, true)).(calls := s.calls + [s.handle])
    case Leaving(_, round, called) =>
      SetPc(s, c, Out).(lock := Free, log := s.log + [FoundHooked(round, called)])
  }

  /** The last task of the chain returns: who works on it goes on outside the chain. */
  function Moved(p: CancelPc, leaf: nat, k: nat): CancelPc {
    if !p.Out? && p.at == In(leaf) then p.(at := Gone(k)) else p
  }

  function ReturnStep(s: State): State
    requires |s.nodes| > 1
  {
    var leaf := |s.nodes| - 1;
    s.(nodes := s.nodes[..leaf], gone := s.gone + [s.nodes[leaf]],
       cancellers := seq(|s.cancellers|, c requires 0 <= c < |s.cancellers| =>
                           Moved(s.cancellers[c], leaf, |s.gone|)))
  }

  function Step(s: State, a: Action): State
    requires s.nodes != []
  {
    match a
    case StartHook => if s.task == Idle then StartHookStep(s) else s
    case TaskStep => DoTaskStep(s)
    case Await(cancelled) =>
      if s.task == Idle then s.(nodes := s.nodes + [Node(cancelled, false)], chained := true) else s
    case Return =>
      if s.task == Idle && |s.nodes| > 1 then ReturnStep(s) else s
    case Cancel(c, at) => if c < |s.cancellers| then CancelStep(s, c, at, false) else s
    case Spurious(c) => if c < |s.cancellers| && s.cancellers[c].Loaded? then CancelStep(s, c, In(0), true) else s
  }

  function Run(s: State, actions: seq<Action>): (s': State)
    requires s.nodes != []
    ensures s'.nodes != []
  {
    if actions == [] then s
    else Step(Run(s, actions[..|actions| - 1]), actions[|actions| - 1])
  }

  // ---- the invariant

  predicate Over(o: Outcome) { o == Failed || o == Released }

  /** Which nodes are hooked, given where the task is. */
  ghost predicate BitsOk(s: State) {
    forall i {:trigger s.nodes[i]} :: 0 <= i < |s.nodes| ==>
      match s.task
      case Climb(k) => s.nodes[i].hooked <==> i > k
      case RollBack(k) => s.nodes[i].hooked ==> i >= k
      case HookOk => s.nodes[i].hooked
      case Suspended => s.nodes[i].hooked
      case Unhook(k) => s.nodes[i].hooked ==> i <= k
      case _ => !s.nodes[i].hooked
  }

  ghost predicate ShapeOk(s: State) {
    && s.nodes != []
    && (s.task.Climb? || s.task.RollBack? || s.task.Unhook? ==> s.task.i < |s.nodes|)
    && (!s.chained ==> |s.nodes| == 1 && s.rounds == [] && s.task == Idle)
    && (s.task == FirstCas ==> |s.nodes| == 1)
    && (s.task != WantLock ==> s.handle == Cur(s))
    && (forall k :: 0 <= k < |s.gone| ==> !s.gone[k].hooked)
    && (s.lock == ByHook <==> s.task.Climb? || s.task.RollBack? || s.task == HookOk || s.task == HookFailed)
  }

  ghost predicate RoundsOk(s: State) {
    && (forall r :: 0 <= r < |s.rounds| - 1 ==> Over(s.rounds[r]))
    && (s.rounds == [] ==> s.task == Idle)
    && (s.rounds != [] ==>
          var o := s.rounds[|s.rounds| - 1];
          match s.task
          case FirstCas => o == Trying
          case WantLock => o == Trying
          case Climb(_) => o == Trying
          case HookOk => o == Hooked
          case Suspended => o == Hooked
          case RollBack(_) => o == Failed
          case HookFailed => o == Failed
          case ReturnedFalse => o == Failed
          case _ => Over(o))
  }

  predicate HoldsLock(p: CancelPc) { p.Holding? || p.Calling? || p.Leaving? }

  ghost predicate CancellerOk(s: State, c: nat)
    requires c < |s.cancellers|
  {
    var p := s.cancellers[c];
    && (!p.Out? ==> RefOk(s, p.at))
    // the bits only ever gain a cancel bit, and nobody gets on without it
    && (p.Loaded? && p.expected.cancelled ==> NodeAt(s, p.at).cancelled)
    && (p.Waiting? || HoldsLock(p) ==> NodeAt(s, p.at).cancelled)
    && (HoldsLock(p) <==> s.lock == ByCanceller(c))
    && (p.Waiting? || HoldsLock(p) ==> 0 <= p.round < |s.rounds|)
    && (p.Waiting? || p.Holding? ==>
          && NodeAt(s, p.at).cancelled
          && (NodeAt(s, p.at).hooked ==> p.round == Cur(s) == s.handle)
          && (!NodeAt(s, p.at).hooked ==> Over(s.rounds[p.round])))
    && (p.Calling? ==> p.round == s.handle)
    && (p.Leaving? ==> if p.called then p.round in s.calls else Over(s.rounds[p.round]))
  }

  /** The hook under way has yet to pass node j, whose cancel bit is set. */
  predicate Doomed(s: State, j: nat) {
    && j < |s.nodes| && s.nodes[j].cancelled
    && (s.task == FirstCas || s.task == WantLock || (s.task.Climb? && j <= s.task.i))
  }

  ghost predicate ReportOk(s: State, e: Report) {
    && 0 <= e.round < |s.rounds|
    && match e
       case FoundFree(j, round) =>
         s.rounds[round] == Failed || (s.rounds[round] == Trying && round == Cur(s) && Doomed(s, j))
       case FoundHooked(round, called) =>
         if called then round in s.calls else Over(s.rounds[round])
  }

  ghost predicate Inv(s: State) {
    && ShapeOk(s)
    && BitsOk(s)
    && RoundsOk(s)
    && (forall c :: 0 <= c < |s.cancellers| ==> CancellerOk(s, c))
    && (s.lock.ByCanceller? ==> s.lock.c < |s.cancellers|)
    && (forall k :: 0 <= k < |s.log| ==> ReportOk(s, s.log[k]))
  }

  lemma {:induction false} InitInv(m: nat)
    ensures Inv(Init(m))
  {
  }

  lemma {:induction false} StartHookInv(s: State)
    requires Inv(s) && s.task == Idle
    ensures Inv(StartHookStep(s))
  {
    var s' := StartHookStep(s);
    assert forall c :: 0 <= c < |s.cancellers| ==> CancellerOk(s, c) ==> CancellerOk(s', c);
    assert forall k :: 0 <= k < |s.log| ==> ReportOk(s, s.log[k]) ==> ReportOk(s', s.log[k]);
  }

  lemma {:induction false} ClimbInv(s: State)
    requires Inv(s) && s.task.Climb?
    ensures Inv(DoTaskStep(s))
  {
    var s' := DoTaskStep(s);
    assert forall c :: 0 <= c < |s.cancellers| ==> CancellerOk(s, c) ==> CancellerOk(s', c);
    assert forall k :: 0 <= k < |s.log| ==> ReportOk(s, s.log[k]) ==> ReportOk(s', s.log[k]);
  }

  lemma {:induction false} ClearInv(s: State)
    requires Inv(s) && (s.task.RollBack? || s.task.Unhook?)
    ensures Inv(DoTaskStep(s))
  {
    var s' := DoTaskStep(s);
    assert forall c :: 0 <= c < |s.cancellers| ==> CancellerOk(s, c) ==> CancellerOk(s', c);
    assert forall k :: 0 <= k < |s.log| ==> ReportOk(s, s.log[k]) ==> ReportOk(s', s.log[k]);
  }

  lemma {:induction false} HookEntryInv(s: State)
    requires Inv(s) && (s.task == FirstCas || s.task == WantLock)
    ensures Inv(DoTaskStep(s))
  {
    var s' := DoTaskStep(s);
    assert forall c :: 0 <= c < |s.cancellers| ==> CancellerOk(s, c) ==> CancellerOk(s', c);
    assert forall k :: 0 <= k < |s.log| ==> ReportOk(s, s.log[k]) ==> ReportOk(s', s.log[k]);
  }

  lemma {:induction false} HookExitInv(s: State)
    requires Inv(s) && s.task in {HookOk, HookFailed, ReturnedFalse, Suspended}
    ensures Inv(DoTaskStep(s))
  {
    var s' := DoTaskStep(s);
    assert forall c :: 0 <= c < |s.cancellers| ==> CancellerOk(s, c) ==> CancellerOk(s', c);
    assert forall k :: 0 <= k < |s.log| ==> ReportOk(s, s.log[k]) ==> ReportOk(s', s.log[k]);
  }

  lemma {:induction false} AwaitInv(s: State, cancelled: bool)
    requires Inv(s)
    ensures Inv(Step(s, Await(cancelled)))
  {
    var s' := Step(s, Await(cancelled));
    assert forall c :: 0 <= c < |s.cancellers| ==> CancellerOk(s, c) ==> CancellerOk(s', c);
    assert forall k :: 0 <= k < |s.log| ==> ReportOk(s, s.log[k]) ==> ReportOk(s', s.log[k]);
  }

  /** Nothing is hooked when a task returns, so that a canceller of it finds its round over. */
  lemma {:induction false} ReturnInv(s: State)
    requires Inv(s) && s.task == Idle && |s.nodes| > 1
    ensures Inv(ReturnStep(s))
  {
    var s' := ReturnStep(s);
    forall c | 0 <= c < |s'.cancellers| ensures CancellerOk(s', c) {
      assert CancellerOk(s, c);
    }
    assert forall k :: 0 <= k < |s.log| ==> ReportOk(s, s.log[k]) ==> ReportOk(s', s.log[k]);
  }

  // ---- the cancellers

  predicate GainsCancel(node: Node, node': Node) {
    node'.hooked == node.hooked && (node.cancelled ==> node'.cancelled)
  }

  ghost predicate OnlyCancels(s: State, s': State) {
    && |s'.nodes| == |s.nodes| && |s'.gone| == |s.gone|
    && (forall i :: 0 <= i < |s.nodes| ==> GainsCancel(s.nodes[i], s'.nodes[i]))
    && (forall k :: 0 <= k < |s.gone| ==> GainsCancel(s.gone[k], s'.gone[k]))
  }

  lemma {:induction false} CancelsOnly(s: State, at: Ref)
    requires RefOk(s, at)
    ensures OnlyCancels(s, SetCancelled(s, at))
  {
  }

  lemma {:induction false} CancelsKeep(s: State, at: Ref)
    requires Inv(s) && RefOk(s, at)
    ensures Inv(SetCancelled(s, at))
  {
    var s' := SetCancelled(s, at);
    CancelsOnly(s, at);
    forall d | 0 <= d < |s.cancellers| ensures CancellerOk(s', d) {
      assert CancellerOk(s, d);
    }
    forall k | 0 <= k < |s.log| ensures ReportOk(s', s'.log[k]) {
      assert ReportOk(s, s.log[k]);
    }
  }

  /** A canceller that does not hold the lock moves on to a place where it needs none. */
  lemma {:induction false} PcInv(s: State, c: nat, p: CancelPc)
    requires Inv(s) && c < |s.cancellers| && !HoldsLock(s.cancellers[c])
    requires CancellerOk(SetPc(s, c, p), c)
    ensures Inv(SetPc(s, c, p))
  {
    var s' := SetPc(s, c, p);
    assert forall d :: 0 <= d < |s.cancellers| && d != c ==> CancellerOk(s, d) ==> CancellerOk(s', d);
    assert forall k :: 0 <= k < |s.log| ==> ReportOk(s, s.log[k]) ==> ReportOk(s', s.log[k]);
  }

  /** The report that a node was not hooked yet: the round under way has yet to pass it. */
  lemma {:induction false} FreeReport(s: State, j: nat)
    requires Inv(s) && InProgress(s) && j < |s.nodes| && s.nodes[j].cancelled && !s.nodes[j].hooked
    ensures Inv(s.(log := s.log + [FoundFree(j, Cur(s))]))
  {
    var s' := s.(log := s.log + [FoundFree(j, Cur(s))]);
    assert forall d :: 0 <= d < |s.cancellers| ==> CancellerOk(s, d) ==> CancellerOk(s', d);
    forall k | 0 <= k < |s'.log| ensures ReportOk(s', s'.log[k]) {
      if k < |s.log| {
        assert ReportOk(s, s.log[k]);
      }
    }
  }

  lemma {:induction false} SwapInv(s: State, c: nat, at: Ref)
    requires Inv(s) && c < |s.cancellers| && s.cancellers[c].Loaded? && RefOk(s, at)
    ensures Inv(SwapStep(s, c, at))
  {
    var s1 := SetCancelled(s, at);
    CancelsKeep(s, at);
    assert CancellerOk(s, c);
    if NodeAt(s, at).hooked {
      PcInv(s1, c, Waiting(at, Cur(s)));
    } else {
      PcInv(s1, c, Out);
      if at.In? && InProgress(s) {
        FreeReport(SetPc(s1, c, Out), at.i);
      }
    }
  }

  lemma {:induction false} LoadedInv(s: State, c: nat, spurious: bool)
    requires Inv(s) && c < |s.cancellers| && s.cancellers[c].Loaded?
    ensures Inv(CancelStep(s, c, In(0), spurious))
  {
    var p := s.cancellers[c];
    assert CancellerOk(s, c);
    if p.expected.cancelled {
      PcInv(s, c, Out);
    } else if spurious || NodeAt(s, p.at) != p.expected {
      PcInv(s, c, Loaded(p.at, NodeAt(s, p.at)));
    } else {
      SwapInv(s, c, p.at);
    }
  }

  /** One canceller has moved on: neither the tasks nor the rounds have changed. */
  ghost predicate OneMoved(s: State, s': State, c: nat)
    requires c < |s.cancellers|
  {
    && |s'.cancellers| == |s.cancellers|
    && s' == s.(cancellers := s.cancellers[c := s'.cancellers[c]], lock := s'.lock, calls := s'.calls, log := s'.log)
    && (forall r :: r in s.calls ==> r in s'.calls)
    && (s'.lock == s.lock || (s.lock == Free && s'.lock == ByCanceller(c))
                          || (s.lock == ByCanceller(c) && s'.lock == Free))
  }

  lemma {:induction false} OthersKeep(s: State, s': State, c: nat)
    requires Inv(s) && c < |s.cancellers| && OneMoved(s, s', c)
    ensures forall d :: 0 <= d < |s.cancellers| && d != c ==> CancellerOk(s', d)
    ensures forall k :: 0 <= k < |s.log| ==> ReportOk(s', s.log[k])
  {
    forall d | 0 <= d < |s.cancellers| && d != c ensures CancellerOk(s', d) {
      assert CancellerOk(s, d);
    }
    forall k | 0 <= k < |s.log| ensures ReportOk(s', s.log[k]) {
      assert ReportOk(s, s.log[k]);
    }
  }

  lemma {:induction false} WaitingInv(s: State, c: nat, at: Ref)
    requires Inv(s) && c < |s.cancellers| && s.cancellers[c].Waiting?
    ensures Inv(CancelStep(s, c, at, false))
  {
    assert CancellerOk(s, c);
    if s.lock == Free {
      OthersKeep(s, CancelStep(s, c, at, false), c);
    }
  }

  lemma {:induction false} HoldingInv(s: State, c: nat, at: Ref)
    requires Inv(s) && c < |s.cancellers| && s.cancellers[c].Holding?
    ensures Inv(CancelStep(s, c, at, false))
  {
    assert CancellerOk(s, c);
    OthersKeep(s, CancelStep(s, c, at, false), c);
  }

  lemma {:induction false} CallingInv(s: State, c: nat, at: Ref)
    requires Inv(s) && c < |s.cancellers| && s.cancellers[c].Calling?
    ensures Inv(CancelStep(s, c, at, false))
  {
    assert CancellerOk(s, c);
    OthersKeep(s, CancelStep(s, c, at, false), c);
  }

  lemma {:induction false} LeavingInv(s: State, c: nat, at: Ref)
    requires Inv(s) && c < |s.cancellers| && s.cancellers[c].Leaving?
    ensures Inv(CancelStep(s, c, at, false))
  {
    assert CancellerOk(s, c);
    OthersKeep(s, CancelStep(s, c, at, false), c);
  }

  lemma {:induction false} CancelInv(s: State, c: nat, at: Ref)
    requires Inv(s) && c < |s.cancellers|
    ensures Inv(CancelStep(s, c, at, false))
  {
    match s.cancellers[c]
    case Loaded(_, _) =>
      LoadedInv(s, c, false);
      assert CancelStep(s, c, at, false) == CancelStep(s, c, In(0), false);
    case Out =>
      assert CancellerOk(s, c);
      if RefOk(s, at) {
        PcInv(s, c, Loaded(at, NodeAt(s, at)));
      }
    case Waiting(_, _) => WaitingInv(s, c, at);
    case Holding(_, _) => HoldingInv(s, c, at);
    case Calling(_, _) => CallingInv(s, c, at);
    case Leaving(_, _, _) => LeavingInv(s, c, at);
  }

  lemma {:induction false} StepInv(s: State, a: Action)
    requires Inv(s)
    ensures Inv(Step(s, a))
  {
    match a
    case StartHook => if s.task == Idle { StartHookInv(s); }
    case TaskStep =>
      if s.task.Climb? { ClimbInv(s); }
      else if s.task.RollBack? || s.task.Unhook? { ClearInv(s); }
      else if s.task == FirstCas || s.task == WantLock { HookEntryInv(s); }
      else if s.task != Idle { HookExitInv(s); }
    case Await(cancelled) => AwaitInv(s, cancelled);
    case Return => if s.task == Idle && |s.nodes| > 1 { ReturnInv(s); }
    case Cancel(c, at) => if c < |s.cancellers| { CancelInv(s, c, at); }
    case Spurious(c) => if c < |s.cancellers| && s.cancellers[c].Loaded? { LoadedInv(s, c, true); }
  }

  lemma {:induction false} RunInv(s: State, actions: seq<Action>)
    requires Inv(s)
    ensures Inv(Run(s, actions))
  {
    if actions != [] {
      RunInv(s, actions[..|actions| - 1]);
      StepInv(Run(s, actions[..|actions| - 1]), actions[|actions| - 1]);
    }
  }

  // ---- what a caller may rely on

  /** A failed hook leaves no hooked bit behind; a successful one has hooked the whole chain,
      so that `request_cancel` on any task of the chain reaches the operation. */
  lemma {:induction false} HookIsAllOrNothing(m: nat, actions: seq<Action>)
    ensures var s := Run(Init(m), actions);
            && (s.task == Idle || s.task == ReturnedFalse ==> forall i :: 0 <= i < |s.nodes| ==> !s.nodes[i].hooked)
            && (s.task == Suspended ==> forall i :: 0 <= i < |s.nodes| ==> s.nodes[i].hooked)
  {
    RunInv(Init(m), actions);
  }

  /** A hook gets past a node exactly when that node's cancel bit is not set: a hook fails only
      because of a cancel request, never because of an earlier hook's leftovers. */
  lemma {:induction false} HookStopsOnlyAtCancelledNode(m: nat, actions: seq<Action>)
    requires Run(Init(m), actions).task.Climb?
    ensures var s := Run(Init(m), actions);
            var s' := DoTaskStep(s);
            && s.task.i < |s.nodes|
            && (s.nodes[s.task.i].cancelled <==> s'.task == HookFailed || s'.task.RollBack?)
            && (!s.nodes[s.task.i].cancelled <==> s'.task == HookOk || s'.task.Climb?)
  {
    RunInv(Init(m), actions);
  }

  /** A `request_cancel` that set its bit while a hook round was going on: if the node was not
      hooked yet, that round does not succeed; if it was, the round's own cancel handle was
      called, unless the round failed or was unhooked first. */
  lemma {:induction false} CancelNeverMissesAHook(m: nat, actions: seq<Action>, k: nat)
    requires k < |Run(Init(m), actions).log|
    ensures var s := Run(Init(m), actions);
            var e := s.log[k];
            && 0 <= e.round < |s.rounds|
            && match e
               case FoundFree(_, round) => s.rounds[round] == Trying || s.rounds[round] == Failed
               case FoundHooked(round, called) =>
                 if called then round in s.calls
                 else s.rounds[round] == Failed || s.rounds[round] == Released
  {
    RunInv(Init(m), actions);
    var s := Run(Init(m), actions);
    assert ReportOk(s, s.log[k]);
  }

  /** The only hook round that can still succeed after node j's cancel bit is set is one that
      has already passed node j. */
  predicate PastNode(s: State, j: nat) { s.task.Climb? && s.task.i < j }

  /** Node j stays in the chain throughout the run. */
  ghost predicate Stays(s: State, actions: seq<Action>, j: nat)
    requires s.nodes != []
  {
    forall k :: 0 <= k <= |actions| ==> j < |Run(s, actions[..k]).nodes|
  }

  lemma {:induction false} StaysPrefix(s: State, actions: seq<Action>, j: nat)
    requires s.nodes != [] && actions != [] && Stays(s, actions, j)
    ensures Stays(s, actions[..|actions| - 1], j)
    ensures j < |Run(s, actions).nodes|
  {
    var p := actions[..|actions| - 1];
    forall k | 0 <= k <= |p| ensures j < |Run(s, p[..k]).nodes| {
      assert p[..k] == actions[..k];
    }
    assert actions[..|actions|] == actions;
  }

  /** Once the cancel bit of node j is set it stays set, and no later hook through j succeeds. */
  lemma {:induction false} NoHookAfterCancel(s: State, actions: seq<Action>, j: nat)
    requires Inv(s) && j < |s.nodes| && s.nodes[j].cancelled && !PastNode(s, j)
    requires Stays(s, actions, j)
    ensures var s' := Run(s, actions);
            s'.hooks == s.hooks && j < |s'.nodes| && s'.nodes[j].cancelled && !PastNode(s', j)
  {
    if actions != [] {
      StaysPrefix(s, actions, j);
      NoHookAfterCancel(s, actions[..|actions| - 1], j);
      RunInv(s, actions[..|actions| - 1]);
      CancelledStep(Run(s, actions[..|actions| - 1]), actions[|actions| - 1], j);
    }
  }

  // ---- a request that has returned

  /** Where the task at `at` is after one action: it may have returned. */
  function MovedBy(s: State, a: Action, at: Ref): Ref {
    if a.Return? && s.task == Idle && |s.nodes| > 1 && at == In(|s.nodes| - 1) then Gone(|s.gone|) else at
  }

  /** The same after a list of actions. */
  function TaskAfter(s: State, actions: seq<Action>, at: Ref): Ref
    requires s.nodes != []
  {
    if actions == [] then at
    else
      var init := actions[..|actions| - 1];
      MovedBy(Run(s, init), actions[|actions| - 1], TaskAfter(s, init, at))
  }

  /** Canceller c has been at work since: it is not done before the last of these actions. */
  ghost predicate BusyUntil(s: State, actions: seq<Action>, c: nat)
    requires s.nodes != []
  {
    forall k :: 0 <= k < |actions| ==>
      var t := Run(s, actions[..k]); c < |t.cancellers| && !t.cancellers[c].Out?
  }

  ghost predicate AtWork(s: State, c: nat, at: Ref) {
    c < |s.cancellers| && !s.cancellers[c].Out? && s.cancellers[c].at == at && RefOk(s, at)
  }

  ghost predicate WorksOrDone(s: State, c: nat, at: Ref) {
    && c < |s.cancellers| && RefOk(s, at)
    && if s.cancellers[c].Out? then NodeAt(s, at).cancelled else s.cancellers[c].at == at
  }

  /** Its own step. */
  lemma {:induction false} OwnStep(s: State, c: nat, at: Ref, to: Ref, spurious: bool)
    requires AtWork(s, c, at)
    requires s.cancellers[c].Loaded? && s.cancellers[c].expected.cancelled ==> NodeAt(s, at).cancelled
    requires s.cancellers[c].Leaving? ==> NodeAt(s, at).cancelled
    ensures WorksOrDone(CancelStep(s, c, to, spurious), c, at)
  {
  }

  /** The step of another canceller. */
  lemma {:induction false} OtherCancels(s: State, d: nat, c: nat, at: Ref, to: Ref, spurious: bool)
    requires AtWork(s, c, at) && d < |s.cancellers| && d != c
    ensures WorksOrDone(CancelStep(s, d, to, spurious), c, at)
  {
  }

  /** A step of the running task that takes no task off the chain. */
  lemma {:induction false} TaskMoves(s: State, a: Action, c: nat, at: Ref)
    requires s.nodes != [] && AtWork(s, c, at) && (a.StartHook? || a.TaskStep? || a.Await?)
    ensures WorksOrDone(Step(s, a), c, at)
  {
  }

  lemma {:induction false} TaskReturns(s: State, c: nat, at: Ref)
    requires s.nodes != [] && AtWork(s, c, at)
    ensures WorksOrDone(Step(s, Return), c, MovedBy(s, Return, at))
  {
  }

  lemma {:induction false} AtWorkOk(s: State, c: nat)
    requires Inv(s) && c < |s.cancellers| && !s.cancellers[c].Out?
    ensures RefOk(s, s.cancellers[c].at)
    ensures s.cancellers[c].Loaded? && s.cancellers[c].expected.cancelled ==> NodeAt(s, s.cancellers[c].at).cancelled
    ensures s.cancellers[c].Leaving? ==> NodeAt(s, s.cancellers[c].at).cancelled
  {
    assert CancellerOk(s, c);
  }

  /** A canceller at work on a task either stays at work on it, or ends with the task's bit set. */
  lemma {:induction false} RequestStep(s: State, a: Action, c: nat, at: Ref)
    requires Inv(s) && c < |s.cancellers| && !s.cancellers[c].Out? && s.cancellers[c].at == at
    ensures WorksOrDone(Step(s, a), c, MovedBy(s, a, at))
  {
    AtWorkOk(s, c);
    match a
    case Return => TaskReturns(s, c, at);
    case Cancel(d, to) =>
      if d == c { OwnStep(s, c, at, to, false); } else if d < |s.cancellers| { OtherCancels(s, d, c, at, to, false); }
    case Spurious(d) =>
      if d == c { OwnStep(s, c, at, In(0), true); }
      else if d < |s.cancellers| { OtherCancels(s, d, c, at, In(0), true); }
    case _ => TaskMoves(s, a, c, at);
  }

  lemma {:induction false} RequestRun(s: State, actions: seq<Action>, c: nat, at: Ref)
    requires Inv(s) && c < |s.cancellers| && !s.cancellers[c].Out? && s.cancellers[c].at == at
    requires BusyUntil(s, actions, c)
    ensures WorksOrDone(Run(s, actions), c, TaskAfter(s, actions, at))
  {
    if actions != [] {
      var k := |actions| - 1;
      var init := actions[..k];
      forall i | 0 <= i < |init| ensures var t := Run(s, init[..i]); c < |t.cancellers| && !t.cancellers[c].Out? {
        assert init[..i] == actions[..i];
      }
      RequestRun(s, init, c, at);
      RunInv(s, init);
      assert init == actions[..k];
      RequestStep(Run(s, init), actions[k], c, TaskAfter(s, init, at));
    } else {
      AtWorkOk(s, c);
    }
  }

  /** A `request_cancel` on any task, in the chain or returned: when it comes back, that task's cancel
      bit is set, whatever happened meanwhile. */
  lemma {:induction false} RequestSetsBit(m: nat, before: seq<Action>, c: nat, at: Ref, during: seq<Action>)
    requires var s := Run(Init(m), before); c < |s.cancellers| && s.cancellers[c].Out? && RefOk(s, at)
    requires var s1 := Step(Run(Init(m), before), Cancel(c, at));
             s1.nodes != [] && BusyUntil(s1, during, c)
    requires var t := Run(Step(Run(Init(m), before), Cancel(c, at)), during);
             c < |t.cancellers| && t.cancellers[c].Out?
    ensures var s1 := Step(Run(Init(m), before), Cancel(c, at));
            var t, task := Run(s1, during), TaskAfter(s1, during, at);
            RefOk(t, task) && NodeAt(t, task).cancelled
  {
    var s := Run(Init(m), before);
    RunInv(Init(m), before);
    StepInv(s, Cancel(c, at));
    RequestRun(Step(s, Cancel(c, at)), during, c, at);
  }

  /** All hook rounds from number n on have failed or are going to. */
  ghost predicate LaterFail(s: State, j: nat, n: nat) {
    && j < |s.nodes| && s.nodes[j].cancelled
    && (|s.rounds| > n ==> !PastNode(s, j) && s.task != HookOk && s.task != Suspended)
    && forall r :: n <= r < |s.rounds| ==> s.rounds[r] == Trying || s.rounds[r] == Failed
  }

  lemma {:induction false} LaterTaskStep(s: State, j: nat, n: nat)
    requires Inv(s) && LaterFail(s, j, n)
    ensures LaterFail(DoTaskStep(s), j, n)
  {
  }

  lemma {:induction false} LaterStep(s: State, a: Action, j: nat, n: nat)
    requires Inv(s) && LaterFail(s, j, n) && n <= |s.rounds| && j < |Step(s, a).nodes|
    ensures LaterFail(Step(s, a), j, n) && n <= |Step(s, a).rounds|
  {
    match a
    case TaskStep => LaterTaskStep(s, j, n);
    case Cancel(c, _) => if c < |s.cancellers| { assert CancellerOk(s, c); }
    case Spurious(c) => if c < |s.cancellers| { assert CancellerOk(s, c); }
    case _ =>
  }

  lemma {:induction false} LaterRun(s: State, actions: seq<Action>, j: nat, n: nat)
    requires Inv(s) && LaterFail(s, j, n) && n <= |s.rounds| && Stays(s, actions, j)
    ensures LaterFail(Run(s, actions), j, n) && n <= |Run(s, actions).rounds|
  {
    if actions != [] {
      var init := actions[..|actions| - 1];
      StaysPrefix(s, actions, j);
      LaterRun(s, init, j, n);
      RunInv(s, init);
      LaterStep(Run(s, init), actions[|actions| - 1], j, n);
    }
  }

  /** A `request_cancel` that has come back on a task of the chain lets no later hook through that task
      succeed: every round that begins afterwards, while the task is in the chain, fails. */
  lemma {:induction false} NoHookAfterRequest(
      m: nat, before: seq<Action>, c: nat, at: Ref, during: seq<Action>, j: nat, after: seq<Action>, r: nat)
    requires var s := Run(Init(m), before); c < |s.cancellers| && s.cancellers[c].Out? && RefOk(s, at)
    requires var s1 := Step(Run(Init(m), before), Cancel(c, at));
             s1.nodes != [] && BusyUntil(s1, during, c) && TaskAfter(s1, during, at) == In(j)
    requires var t := Run(Step(Run(Init(m), before), Cancel(c, at)), during);
             && c < |t.cancellers| && t.cancellers[c].Out? && Stays(t, after, j)
             && |t.rounds| <= r < |Run(t, after).rounds|
    ensures var t := Run(Step(Run(Init(m), before), Cancel(c, at)), during);
            Run(t, after).rounds[r] == Trying || Run(t, after).rounds[r] == Failed
  {
    var s1 := Step(Run(Init(m), before), Cancel(c, at));
    var t := Run(s1, during);
    RequestSetsBit(m, before, c, at, during);
    RunInv(Init(m), before);
    StepInv(Run(Init(m), before), Cancel(c, at));
    RunInv(s1, during);
    LaterRun(t, after, j, |t.rounds|);
  }

  /** A root hooks itself without the lock: that succeeds exactly when it was not cancelled before. */
  lemma {:induction false} FirstHookIff(m: nat, actions: seq<Action>)
    requires Run(Init(m), actions).task == FirstCas
    ensures var s := Run(Init(m), actions);
            && |s.nodes| == 1
            && DoTaskStep(s).task == (if s.nodes[0].cancelled then ReturnedFalse else Suspended)
  {
    RunInv(Init(m), actions);
  }

  /** A task that was cancelled before it was awaited: while it is in the chain no hook succeeds. */
  lemma {:induction false} CancelledBeforeAwait(m: nat, before: seq<Action>, actions: seq<Action>)
    requires Run(Init(m), before).task == Idle
    requires Stays(Step(Run(Init(m), before), Await(true)), actions, |Run(Init(m), before).nodes|)
    ensures var s := Run(Init(m), before);
            var s' := Run(Step(s, Await(true)), actions);
            && s'.hooks == s.hooks && |s.nodes| < |s'.nodes| && s'.nodes[|s.nodes|].cancelled
            && s'.task != Suspended
  {
    var s := Run(Init(m), before);
    var t := Step(s, Await(true));
    RunInv(Init(m), before);
    StepInv(s, Await(true));
    NoHookAfterCancel(t, actions, |s.nodes|);
    NeverSuspends(t, actions, |s.nodes|);
  }

  /** The task suspends only in a hook that succeeds. */
  lemma {:induction false} NeverSuspends(s: State, actions: seq<Action>, j: nat)
    requires Inv(s) && j < |s.nodes| && s.nodes[j].cancelled && !PastNode(s, j)
    requires s.task != HookOk && s.task != Suspended && Stays(s, actions, j)
    ensures Run(s, actions).task != HookOk && Run(s, actions).task != Suspended
  {
    if actions != [] {
      var init := actions[..|actions| - 1];
      StaysPrefix(s, actions, j);
      NeverSuspends(s, init, j);
      NoHookAfterCancel(s, init, j);
      RunInv(s, init);
      NotSuspended(Run(s, init), actions[|actions| - 1], j);
    }
  }

  lemma {:induction false} NotSuspended(s: State, a: Action, j: nat)
    requires Inv(s) && j < |s.nodes| && s.nodes[j].cancelled && !PastNode(s, j)
    requires s.task != HookOk && s.task != Suspended
    ensures Step(s, a).task != HookOk && Step(s, a).task != Suspended
  {
  }

  lemma {:induction false} CancelledTaskStep(s: State, j: nat)
    requires Inv(s) && j < |s.nodes| && s.nodes[j].cancelled && !PastNode(s, j)
    ensures var s' := DoTaskStep(s);
            |s'.nodes| == |s.nodes| && s'.hooks == s.hooks && s'.nodes[j].cancelled && !PastNode(s', j)
  {
  }

  lemma {:induction false} CancelledStep(s: State, a: Action, j: nat)
    requires Inv(s) && j < |s.nodes| && s.nodes[j].cancelled && !PastNode(s, j)
    requires j < |Step(s, a).nodes|
    ensures var s' := Step(s, a);
            s'.hooks == s.hooks && s'.nodes[j].cancelled && !PastNode(s', j)
  {
    match a
    case TaskStep => CancelledTaskStep(s, j);
    case StartHook =>
    case Await(_) =>
    case Return =>
    case Cancel(c, _) => if c < |s.cancellers| { assert CancellerOk(s, c); }
    case Spurious(c) => if c < |s.cancellers| { assert CancellerOk(s, c); }
  }
}
