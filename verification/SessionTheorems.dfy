/** What the session manager promises its callers, over every run. */
module SessionTheorems {
  import opened SessionManager
  import opened SessionInvariant
  import opened Sums
  import opened Wrappers

  // ----- a finished row stays finished, a row runs at most once

  /** No step takes a terminal row back to queued or running, not even a restart. */
  lemma TerminalStays(s: State, l: Label, id: nat)
    requires Inv(s) && Enabled(s, l) && id < |s.sessions|
    ensures id < |Apply(s, l).sessions|
    ensures Terminal(s.sessions[id].status) ==> Terminal(Apply(s, l).sessions[id].status)
    ensures s.sessions[id].finishedQueued ==> Apply(s, l).sessions[id].finishedQueued
    ensures s.sessions[id].status.Queued? && Terminal(Apply(s, l).sessions[id].status) ==>
              Apply(s, l).sessions[id].finishedQueued
  {
    assert SessionInv(s, id);
    match l
    case Dispatch(i, c) =>
      DispatchFrame(s, i, c);
      hide Dispatched;
      if i == id {
        MovedFinish(s, s.sessions[id], c);
        hide Moved;
      }
    case CancelStep(call) =>
      CancelFinish(s, call, id);
      hide Canceling;
    case _ =>
      hide ReplyAgrees, Dispatched, Canceling;
  }

  /** What a step may do to the status of its own row. */
  predicate Progresses(x: Session, y: Session) {
    && (Terminal(x.status) ==> Terminal(y.status))
    && (x.finishedQueued ==> y.finishedQueued)
    && (x.status.Queued? && Terminal(y.status) ==> y.finishedQueued)
  }

  lemma MovedFinish(s: State, x: Session, c: Choice)
    requires RowAgrees(x)
    ensures Progresses(x, Moved(s, x, c))
  {
    match x.pc
    case Starting(_) =>
    case Admission(at) =>
      assert Progresses(x, Admit(s, x, at, c));
    case Executing(at) =>
      assert Progresses(x, Execute(s, x, at, c));
    case Replying(_) =>
      ResolveFrame(s, x, c);
      hide Resolve;
    case Ending(_) =>
  }

  lemma CancelFinish(s: State, call: nat, id: nat)
    requires call < |s.cancels| && id < |s.sessions|
    ensures |Canceling(s, call).sessions| == |s.sessions|
    ensures Progresses(s.sessions[id], Canceling(s, call).sessions[id])
  {
  }

  lemma {:induction false} FinishedStaysFinished(states: seq<State>, labels: seq<Label>, id: nat)
    requires Steps(states, labels) && Inv(states[0]) && id < |states[0].sessions|
    ensures id < |states[|labels|].sessions|
    ensures Terminal(states[0].sessions[id].status) ==> Terminal(states[|labels|].sessions[id].status)
    ensures states[0].sessions[id].finishedQueued ==> states[|labels|].sessions[id].finishedQueued
    decreases |labels|
  {
    if labels != [] {
      var n := |labels| - 1;
      hide Inv, Apply, Enabled;
      assert Enabled(states[n], labels[n]) && states[n + 1] == Apply(states[n], labels[n]);
      FinishedStaysFinished(states[..n + 1], labels[..n], id);
      StepsKeepInv(states[..n + 1], labels[..n]);
      TerminalStays(states[n], labels[n], id);
    }
  }

  /**
   A row reaches runner.Run at most once, however often the daemon restarts; and a
   row that one step takes from queued straight to a terminal status never does.
   */
  lemma AtMostOneRun(states: seq<State>, labels: seq<Label>, i: nat, id: nat)
    requires Run(states, labels) && i < |labels| && id < |states[i].sessions|
    ensures id < |states[i + 1].sessions| && id < |states[|labels|].sessions|
    ensures states[|labels|].sessions[id].runs <= 1
    ensures states[i].sessions[id].status.Queued? && Terminal(states[i + 1].sessions[id].status) ==>
              states[|labels|].sessions[id].runs == 0
  {
    RunKeepsInv(states[..i + 1], labels[..i]);
    assert Enabled(states[i], labels[i]) && states[i + 1] == Apply(states[i], labels[i]);
    TerminalStays(states[i], labels[i], id);
    StepKeepsInv(states[i], labels[i]);
    FinishedStaysFinished(states[i + 1..], labels[i + 1..], id);
    RunKeepsInv(states, labels);
    assert states[i + 1..][|labels[i + 1..]|] == states[|labels|];
    assert SessionInv(states[|labels|], id);
  }

  /** The step is session `id`'s call of runner.Run. */
  predicate CallsRunner(s: State, l: Label, id: nat) {
    && l.Dispatch? && l.id == id && !l.choice.fail && id < |s.sessions| && s.sessions[id].pc == Executing(Prompting)
  }

  lemma ExecuteRuns(s: State, x: Session, c: Choice)
    requires x.pc.Executing?
    ensures Execute(s, x, x.pc.exec, c).runs == x.runs + if x.pc.exec.Prompting? && !c.fail then 1 else 0
  {
    match x.pc.exec { case Marking => case MarkFailed => case Prompting => case _ => }
  }

  lemma MovedRuns(s: State, x: Session, c: Choice)
    ensures Moved(s, x, c).runs == x.runs + if x.pc == Executing(Prompting) && !c.fail then 1 else 0
  {
    hide Execute, Resolve;
    match x.pc
    case Executing(_) => ExecuteRuns(s, x, c);
    case Replying(_) => ResolveFrame(s, x, c);
    case Ending(at) => match at { case Finishing(_) => case _ => }
    case _ =>
  }

  lemma RunsCount(s: State, l: Label, id: nat)
    requires Enabled(s, l) && id < |s.sessions|
    ensures id < |Apply(s, l).sessions|
    ensures Apply(s, l).sessions[id].runs == s.sessions[id].runs + if CallsRunner(s, l, id) then 1 else 0
  {
    if l.Dispatch? && l.id == id {
      MovedRuns(s, s.sessions[id], l.choice);
      DispatchFrame(s, id, l.choice);
      hide Dispatched, Moved;
    } else {
      StepFrame(s, l, id);
      hide Apply;
    }
  }

  lemma {:induction false} RunsGrow(states: seq<State>, labels: seq<Label>, id: nat)
    requires Steps(states, labels) && id < |states[0].sessions|
    ensures id < |states[|labels|].sessions| && states[|labels|].sessions[id].runs >= states[0].sessions[id].runs
    decreases |labels|
  {
    if labels != [] {
      var n := |labels| - 1;
      hide Apply, Enabled, CallsRunner;
      assert Enabled(states[n], labels[n]) && states[n + 1] == Apply(states[n], labels[n]);
      RunsGrow(states[..n + 1], labels[..n], id);
      RunsCount(states[n], labels[n], id);
    }
  }

  /** No two steps of a run call the runner for the same session. */
  lemma RunnerCalledOnce(states: seq<State>, labels: seq<Label>, i: nat, j: nat, id: nat)
    requires Run(states, labels) && i < |labels| && j < |labels|
    requires CallsRunner(states[i], labels[i], id) && CallsRunner(states[j], labels[j], id)
    ensures i == j
  {
    if i < j {
      CalledBefore(states, labels, i, j, id);
    } else if j < i {
      CalledBefore(states, labels, j, i, id);
    }
  }

  lemma CalledBefore(states: seq<State>, labels: seq<Label>, i: nat, j: nat, id: nat)
    requires Run(states, labels) && i < j < |labels|
    requires CallsRunner(states[i], labels[i], id)
    ensures !CallsRunner(states[j], labels[j], id)
  {
    assert Enabled(states[i], labels[i]) && states[i + 1] == Apply(states[i], labels[i]);
    hide Enabled, Apply, Init;
    RunsCount(states[i], labels[i], id);
    RunsGrow(states[i + 1..j + 1], labels[i + 1..j], id);
    assert states[i + 1..j + 1][|labels[i + 1..j]|] == states[j];
    RunKeepsInv(states[..j + 1], labels[..j]);
    assert SessionInv(states[j], id);
  }

  /** One mention starts one run: no two sessions answer the same message for the same agent. */
  lemma OneSessionPerMention(states: seq<State>, labels: seq<Label>, i: nat, j: nat)
    requires Run(states, labels) && i < |states[|labels|].sessions| && j < |states[|labels|].sessions|
    requires states[|labels|].sessions[i].trigger == states[|labels|].sessions[j].trigger
    requires states[|labels|].sessions[i].agent == states[|labels|].sessions[j].agent
    ensures i == j
  {
    RunKeepsInv(states, labels);
  }

  // ----- the scheduler

  lemma {:induction false} WeighsAtLeast(ids: set<nat>, xs: seq<Session>, weight: Session -> nat)
    requires forall id | id in ids :: id < |xs| && weight(xs[id]) >= 1
    ensures |ids| <= Sum(xs, weight)
    decreases |xs|
  {
    if xs == [] {
      if id :| id in ids {
        assert false;
      }
    } else {
      var n := |xs| - 1;
      assert |ids| <= |ids - {n}| + 1;
      WeighsAtLeast(ids - {n}, xs[..n], weight);
    }
  }

  /** At every moment: at most four runs, none of them queued, and every queued id is a goroutine still to be admitted. */
  lemma SchedulerIsConsistent(states: seq<State>, labels: seq<Label>)
    requires Run(states, labels)
    ensures
      var s := states[|labels|];
      && |s.running| <= s.sem <= MAX_CONCURRENT_SESSIONS
      && s.queued !! s.running
      && (forall id | id in s.queued || id in s.running :: id < |s.sessions|)
      && (forall id | id in s.queued :: Waits(s.sessions[id].pc))
      && (forall id | id in s.running :: InSlot(s.sessions[id].pc))
      && (!s.closed ==> forall id | 0 <= id < |s.sessions| && Waits(s.sessions[id].pc) :: id in s.queued)
      && (s.closed ==> s.queued == {})
  {
    RunKeepsInv(states, labels);
    var s := states[|labels|];
    hide RowAgrees, ReplyAgrees, Run, Sum;
    forall id | id in s.queued
      ensures id < |s.sessions| && Waits(s.sessions[id].pc) && !s.closed && id !in s.running
    {
      assert SessionInv(s, id);
    }
    forall id | id in s.running
      ensures id < |s.sessions| && InSlot(s.sessions[id].pc)
    {
      assert SessionInv(s, id);
    }
    forall id | 0 <= id < |s.sessions| && Waits(s.sessions[id].pc) && !s.closed
      ensures id in s.queued
    {
      assert SessionInv(s, id);
    }
    WeighsAtLeast(s.running, s.sessions, SlotWeight);
  }

  // ----- the shutdown barrier

  /**
   Once the manager is closed and its WaitGroup is zero, every session that ever had
   a goroutine is finished, and a row is not terminal exactly when its Start is still
   between CreateSession and its own FinishSession and no Cancel has reached the row.
   */
  lemma BarrierIff(s: State, id: nat)
    requires Inv(s) && s.closed && s.wg == 0 && id < |s.sessions|
    ensures s.sessions[id].pc.Starting? || (s.sessions[id].pc == Ending(Gone) && Terminal(s.sessions[id].status))
    ensures !Terminal(s.sessions[id].status) <==> Window(s.sessions[id].pc) && !s.sessions[id].byCancel
  {
    SumBoundsEach(s.sessions, id, LiveWeight);
    assert SessionInv(s, id);
    hide ReplyAgrees, Sum;
    var x := s.sessions[id];
    assert !Live(x.pc);
    if x.pc.Starting? {
      match x.pc.start
      case Created =>
      case Refused =>
      case Abandoned =>
    }
  }

  lemma ShutdownBarrier(states: seq<State>, labels: seq<Label>)
    requires Run(states, labels) && states[|labels|].closed && states[|labels|].wg == 0
    ensures
      var s := states[|labels|];
      && (forall id | 0 <= id < |s.sessions| :: s.sessions[id].pc.Starting? || Terminal(s.sessions[id].status))
      && ((forall id | 0 <= id < |s.sessions| :: Terminal(s.sessions[id].status)) <==>
          (forall id | 0 <= id < |s.sessions| && Window(s.sessions[id].pc) :: s.sessions[id].byCancel))
  {
    RunKeepsInv(states, labels);
    var s := states[|labels|];
    forall id | 0 <= id < |s.sessions|
      ensures s.sessions[id].pc.Starting? || Terminal(s.sessions[id].status)
      ensures !Terminal(s.sessions[id].status) <==> Window(s.sessions[id].pc) && !s.sessions[id].byCancel
    {
      BarrierIff(s, id);
    }
  }

  /** A daemon with one message, about to be shut down. */
  function OneMessage(): State {
    State([], [Post(1, "al", false, 0, "@bot hi", None)], {}, {}, false, false, 0, 0, NotCalled, [])
  }

  /**
   ShutdownAndWait's comment promises every row terminal. It is not so for a Start
   caught after CreateSession: here the barrier is passed with the row still queued.
   */
  lemma BarrierMissesStart() returns (states: seq<State>, labels: seq<Label>)
    ensures Run(states, labels)
    ensures states[|labels|].shutdown.ShutDown? && states[|labels|].wg == 0
    ensures |states[|labels|].sessions| == 1 && states[|labels|].sessions[0].status.Queued?
  {
    var s0 := OneMessage();
    labels := [Create(1, 1, "bot", Auto), ShutdownClose, ShutdownCancel, ShutdownReturn];
    var s1 := Apply(s0, labels[0]);
    var s2 := Apply(s1, labels[1]);
    var s3 := Apply(s2, labels[2]);
    assert s3.shutdown == FinishingQueued({});
    var s4 := Apply(s3, labels[3]);
    states := [s0, s1, s2, s3, s4];
  }

  // ----- the drain

  /** An upper bound on the steps a goroutine has left. */
  function RankOf(pc: Pc): nat {
    match pc
    case Starting(_) => 0
    case Admission(at) => (
      match at
      case Selecting => 60
      case DropOnCtx => 3
      case FinishOnCtx => 2
      case Admitting => 59
      case DropOnClosed => 4
      case FinishOnClosed => 3)
    case Executing(at) => (
      match at
      case Marking => 58
      case MarkFailed => 5
      case Prompting => 57
      case InRunner => 56
      case RunnerFailed => 5)
    case Replying(at) => (
      match at
      case Resolving => 55
      case Polling(k) => if k <= GRACE_POLLS then 10 + 2 * (GRACE_POLLS - k) else 10
      case Checking(k, _) => if k <= GRACE_POLLS then 9 + 2 * (GRACE_POLLS - k) else 9
      case Polled(_, _) => 8
      case Posting => 7
      case Appending => 6
      case Linking(_) => 5)
    case Ending(at) => (
      match at
      case Finishing(_) => 4
      case Unwinding => 3
      case Releasing => 2
      case Leaving => 1
      case Gone => 0)
  }

  function RankWeight(x: Session): nat {
    RankOf(x.pc)
  }

  function Rank(s: State): nat {
    Sum(s.sessions, RankWeight)
  }

  lemma AdmitRanks(s: State, x: Session, c: Choice)
    requires x.pc.Admission?
    ensures RankOf(Admit(s, x, x.pc.admit, c).pc) < RankOf(x.pc)
  {
    match x.pc.admit
    case Selecting =>
    case Admitting =>
    case _ =>
  }

  lemma ExecuteRanks(s: State, x: Session, c: Choice)
    requires x.pc.Executing?
    ensures RankOf(Execute(s, x, x.pc.exec, c).pc) < RankOf(x.pc)
  {
    match x.pc.exec
    case Marking =>
    case MarkFailed =>
    case _ =>
  }

  lemma ResolveRanks(s: State, x: Session, c: Choice)
    requires x.pc.Replying? && RowAgrees(x)
    ensures RankOf(Resolve(s, x, x.pc.reply, c).pc) < RankOf(x.pc)
  {
    hide AgentPosts, SaysNothing, Reply;
    match x.pc.reply
    case Resolving =>
    case Polling(_) =>
    case Checking(_, _) =>
    case Polled(_, _) =>
    case _ =>
  }

  lemma MovedRanks(s: State, x: Session, c: Choice)
    requires RowAgrees(x) && Live(x.pc)
    ensures RankWeight(Moved(s, x, c)) < RankWeight(x)
  {
    hide Admit, Execute, Resolve, RowAgrees;
    match x.pc
    case Admission(_) => AdmitRanks(s, x, c); hide RankOf;
    case Executing(_) => ExecuteRanks(s, x, c); hide RankOf;
    case Replying(_) => ResolveRanks(s, x, c); hide RankOf;
    case Ending(_) =>
  }

  lemma DispatchRanks(s: State, id: nat, c: Choice)
    requires Inv(s) && CanDispatch(s, id, c)
    ensures Rank(Dispatched(s, id, c)) < Rank(s)
    ensures Dispatched(s, id, c).closed == s.closed && Dispatched(s, id, c).wg <= s.wg
  {
    assert SessionInv(s, id);
    DispatchFrame(s, id, c);
    MovedRanks(s, s.sessions[id], c);
    SumUpdate(s.sessions, id, Moved(s, s.sessions[id], c), RankWeight);
    hide Moved, Sum, RowAgrees, ReplyAgrees, RankWeight;
  }

  /** Every step of a session's goroutine uses up some of what is left to do, and once closed no step adds any. */
  lemma StepRanks(s: State, l: Label)
    requires Inv(s) && s.closed && Enabled(s, l) && !l.Restart?
    ensures Apply(s, l).closed && Apply(s, l).wg <= s.wg
    ensures if l.Dispatch? then Rank(Apply(s, l)) < Rank(s) else Rank(Apply(s, l)) == Rank(s)
  {
    var s' := Apply(s, l);
    match l
    case Dispatch(id, c) =>
      DispatchRanks(s, id, c);
      hide Dispatched, Rank;
    case Create(_, _, _, _) =>
    case Register(id) => SumUpdate(s.sessions, id, s'.sessions[id], RankWeight); hide Sum;
    case Refuse(id) => SumUpdate(s.sessions, id, s'.sessions[id], RankWeight); hide Sum;
    case ShutdownFinish(id) => SumUpdate(s.sessions, id, s'.sessions[id], RankWeight); hide Sum;
    case CancelStep(call) =>
      var pc := s.cancels[call];
      if (pc.Calling? || pc.Writing?) && pc.id < |s.sessions| {
        SumUpdate(s.sessions, pc.id, s'.sessions[pc.id], RankWeight);
      }
      hide Sum;
    case _ =>
  }

  function Dispatches(labels: seq<Label>): nat {
    if labels == [] then 0
    else Dispatches(labels[..|labels| - 1]) + if labels[|labels| - 1].Dispatch? then 1 else 0
  }

  /**
   From the moment the manager is closed, whatever Start, Cancel and Shutdown calls
   still do, the session goroutines take no more steps than the rank at that moment.
   */
  lemma {:induction false} DrainIsBounded(states: seq<State>, labels: seq<Label>)
    requires Steps(states, labels) && Inv(states[0]) && states[0].closed
    requires forall l | l in labels :: !l.Restart?
    ensures states[|labels|].closed && states[|labels|].wg <= states[0].wg
    ensures Dispatches(labels) + Rank(states[|labels|]) <= Rank(states[0])
    decreases |labels|
  {
    if labels != [] {
      var n := |labels| - 1;
      hide Inv, Apply, Enabled, Rank;
      assert Enabled(states[n], labels[n]) && states[n + 1] == Apply(states[n], labels[n]);
      DrainIsBounded(states[..n + 1], labels[..n]);
      StepsKeepInv(states[..n + 1], labels[..n]);
      StepRanks(states[n], labels[n]);
    }
  }

  /** A step that asks nothing of the runner but to return once its context is cancelled. */
  predicate Unaided(s: State, id: nat, c: Choice) {
    CanDispatch(s, id, c) && (s.sessions[id].pc == Executing(InRunner) ==> CtxCancelled(s, s.sessions[id]))
  }

  const GIVE_UP: Choice := Choice(false, false, true, "")

  /** With the manager's context done, no goroutine waits for another: each can move by itself. */
  lemma NobodyWaits(s: State, id: nat)
    requires Inv(s) && s.ctxDone && id < |s.sessions| && Live(s.sessions[id].pc)
    ensures Unaided(s, id, GIVE_UP)
  {
    SumBoundsEach(s.sessions, id, LiveWeight);
    SumBoundsEach(s.sessions, id, SlotWeight);
    hide Sum, RowAgrees, ReplyAgrees;
  }

  /** Shutdown always has a next step, whatever the sessions do. */
  lemma ShutdownNeverWaits(s: State)
    requires Inv(s) && s.shutdown.FinishingQueued?
    ensures Enabled(s, ShutdownReturn) || exists id :: Enabled(s, ShutdownFinish(id))
  {
    if s.shutdown.left != {} {
      var id :| id in s.shutdown.left;
      assert id in Unfinished(s.shutdown);
      assert Enabled(s, ShutdownFinish(id));
    }
  }

  predicate OfShutdown(l: Label) {
    l.ShutdownCancel? || l.ShutdownFinish? || l.ShutdownReturn?
  }

  /**
   Once closed, Shutdown comes to its end by its own steps alone, one for each row it
   has to finish and two more: it waits for no session, so a session goroutine may
   call it.
   */
  lemma {:induction false} ShutdownReturns(s: State) returns (states: seq<State>, labels: seq<Label>)
    requires Inv(s) && s.closed && !s.shutdown.ShutDown?
    ensures Steps(states, labels) && states[0] == s && states[|labels|].shutdown.ShutDown?
    ensures forall l | l in labels :: OfShutdown(l)
    ensures |labels| <= |Unfinished(s.shutdown)| + 2
    ensures s.shutdown.FinishingQueued? ==> |labels| <= |Unfinished(s.shutdown)| + 1
    decreases s.shutdown.CancelingAll?, |Unfinished(s.shutdown)|
  {
    var l;
    if s.shutdown.CancelingAll? {
      l := ShutdownCancel;
    } else if s.shutdown.left == {} {
      l := ShutdownReturn;
    } else {
      var id :| id in s.shutdown.left;
      assert id in Unfinished(s.shutdown);
      l := ShutdownFinish(id);
    }
    StepKeepsInv(s, l);
    var s' := Apply(s, l);
    if l.ShutdownReturn? {
      states, labels := [s, s'], [l];
    } else {
      assert Unfinished(s'.shutdown) == Unfinished(s.shutdown) - if l.ShutdownFinish? then {l.id} else {};
      var later, laterLabels := ShutdownReturns(s');
      StepsCons(s, l, later, laterLabels);
      states, labels := [s] + later, [l] + laterLabels;
    }
  }

  lemma StepsCons(s: State, l: Label, later: seq<State>, laterLabels: seq<Label>)
    requires Enabled(s, l) && Steps(later, laterLabels) && later[0] == Apply(s, l)
    ensures Steps([s] + later, [l] + laterLabels)
    ensures ([s] + later)[|[l] + laterLabels|] == later[|laterLabels|]
  {
    hide Enabled, Apply;
    var states, labels := [s] + later, [l] + laterLabels;
    forall i | 0 <= i < |labels|
      ensures Enabled(states[i], labels[i]) && states[i + 1] == Apply(states[i], labels[i])
    {
      if i > 0 {
        assert states[i] == later[i - 1] && labels[i] == laterLabels[i - 1];
      }
    }
  }

  /** From any state with the context done, the goroutines alone can bring the WaitGroup to zero. */
  lemma {:induction false} DrainCompletes(s: State) returns (states: seq<State>, labels: seq<Label>)
    requires Inv(s) && s.ctxDone
    ensures Steps(states, labels) && states[0] == s && states[|labels|].wg == 0
    ensures forall l | l in labels :: l.Dispatch?
    decreases Rank(s)
  {
    if id: nat :| id < |s.sessions| && Live(s.sessions[id].pc) {
      NobodyWaits(s, id);
      var l := Dispatch(id, GIVE_UP);
      StepKeepsInv(s, l);
      StepRanks(s, l);
      var s' := Apply(s, l);
      assert s'.ctxDone;
      var later, laterLabels := DrainCompletes(s');
      StepsCons(s, l, later, laterLabels);
      states, labels := [s] + later, [l] + laterLabels;
    } else {
      SumOfZeros(s.sessions, LiveWeight);
      states, labels := [s], [];
    }
  }

  // ----- the status of a finished row is not final

  /** A choice for the uneventful path: a free slot, no failure, no output. */
  const QUIET: Choice := Choice(true, false, true, "")

  /** A stdout session on its quiet path. */
  function QuietSession(pc: Pc, status: Status): Session {
    Session(1, 1, "bot", ReplyMode.Stdout, pc, status, None, false, "", InRun(pc) || pc.Ending?,
            if PastRunner(pc) || pc.Ending? then 1 else 0, false, false, 0, false)
  }

  /** OneMessage with that session, and one call of Cancel that has read its row. */
  function Snapshot(pc: Pc, status: Status): State {
    OneMessage().(
    sessions := [QuietSession(pc, status)],
    queued := if Waits(pc) then {0} else {},
    running := if InRunning(pc) then {0} else {},
    sem := if InSlot(pc) then 1 else 0,
    wg := if Live(pc) then 1 else 0,
    cancels := [Looking(0)])
  }

  function QuietAt(k: nat): (Pc, Status) {
    if k == 0 then (Admission(Selecting), Queued)
    else if k == 1 then (Admission(Admitting), Queued)
    else if k == 2 then (Executing(Marking), Queued)
    else if k == 3 then (Executing(Prompting), Running)
    else if k == 4 then (Executing(InRunner), Running)
    else if k == 5 then (Replying(Resolving), Running)
    else if k == 6 then (Replying(Posting), Running)
    else if k == 7 then (Ending(Finishing(Succeeded)), Running)
    else if k == 8 then (Ending(Unwinding), Succeeded)
    else (Ending(Releasing), Succeeded)
  }

  function QuietPath(): seq<State> {
    seq(10, k requires 0 <= k < 10 => Snapshot(QuietAt(k).0, QuietAt(k).1))
  }

  lemma QuietMoves(s: State, k: nat)
    requires k < 9 && !s.closed && !s.ctxDone
    ensures
      var (pc, status) := QuietAt(k);
      var (next, nextStatus) := QuietAt(k + 1);
      && Live(pc) && RowAgrees(QuietSession(pc, status))
      && Moved(s, QuietSession(pc, status), QUIET) == QuietSession(next, nextStatus)
  {
    hide AgentPosts;
    if k < 3 {
    } else if k < 6 {
    } else {
    }
  }

  /** The shared state follows from where the goroutine is, so a step of the path is a step of its session. */
  lemma QuietPathStep(k: nat)
    requires k < 9
    ensures Enabled(QuietPath()[k], Dispatch(0, QUIET))
    ensures Apply(QuietPath()[k], Dispatch(0, QUIET)) == QuietPath()[k + 1]
  {
    var (pc, status) := QuietAt(k);
    var (next, nextStatus) := QuietAt(k + 1);
    var s := Snapshot(pc, status);
    QuietMoves(s, k);
    MovedStep(s, s.sessions[0], QUIET);
    assert pc != Replying(Appending) && pc != Admission(DropOnCtx) && pc != Admission(DropOnClosed);
    hide Moved, RowAgrees, QuietAt, QuietSession;
    assert Waits(pc) <==> pc == Admission(Selecting) || pc == Admission(Admitting);
    hide Waits, InRunning, InSlot, OnClosed, OnCtx, Window;
  }

  lemma QuietPathSteps()
    ensures Steps(QuietPath(), seq(9, _ => Dispatch(0, QUIET)))
  {
    hide Enabled, Apply;
    forall k | 0 <= k < 9
      ensures Enabled(QuietPath()[k], Dispatch(0, QUIET))
      ensures Apply(QuietPath()[k], Dispatch(0, QUIET)) == QuietPath()[k + 1]
    {
      QuietPathStep(k);
    }
  }

  lemma StepsJoin(states: seq<State>, labels: seq<Label>, more: seq<State>, moreLabels: seq<Label>)
    requires Steps(states, labels) && Steps(more, moreLabels) && states[|labels|] == more[0]
    ensures Steps(states + more[1..], labels + moreLabels)
    ensures (states + more[1..])[|labels| + |moreLabels|] == more[|moreLabels|]
    ensures (states + more[1..])[|labels|] == more[0]
  {
    hide Enabled, Apply;
    var all, allLabels := states + more[1..], labels + moreLabels;
    forall i | 0 <= i < |allLabels|
      ensures Enabled(all[i], allLabels[i]) && all[i + 1] == Apply(all[i], allLabels[i])
    {
      if i >= |labels| {
        assert all[i] == more[i - |labels|] && all[i + 1] == more[i - |labels| + 1];
      }
    }
  }

  /** A session is started, and a Cancel call reads its row. */
  lemma QuietStart() returns (states: seq<State>, labels: seq<Label>)
    ensures Run(states, labels) && states[|labels|] == QuietPath()[0]
  {
    var s0 := OneMessage();
    var s1 := Apply(s0, Create(1, 1, "bot", ReplyMode.Stdout));
    var s2 := Apply(s1, Register(0));
    var s3 := Apply(s2, CancelCall(0));
    var s4 := Apply(s3, CancelStep(0));
    assert s4 == QuietPath()[0];
    states := [s0, s1, s2, s3, s4];
    labels := [Create(1, 1, "bot", ReplyMode.Stdout), Register(0), CancelCall(0), CancelStep(0)];
  }

  /** The session over, the Cancel call goes on. */
  lemma QuietEnd() returns (states: seq<State>, labels: seq<Label>)
    ensures Steps(states, labels) && states[0] == QuietPath()[9]
    ensures |states[|labels|].sessions| == 1 && states[|labels|].sessions[0].status.Canceled?
  {
    var s0 := QuietPath()[9];
    var s1 := Apply(s0, CancelStep(0));
    var s2 := Apply(s1, CancelStep(0));
    states := [s0, s1, s2];
    labels := [CancelStep(0), CancelStep(0)];
  }

  /**
   FinishSession does not look at the row: a Cancel that read it before the run
   finished turns a succeeded session into a canceled one.
   */
  lemma FinishedStatusIsNotFinal() returns (states: seq<State>, labels: seq<Label>)
    ensures Run(states, labels)
    ensures exists i | 0 <= i < |labels| :: |states[i].sessions| == 1 && states[i].sessions[0].status.Succeeded?
    ensures |states[|labels|].sessions| == 1 && states[|labels|].sessions[0].status.Canceled?
  {
    var start, startLabels := QuietStart();
    var end, endLabels := QuietEnd();
    var path, pathLabels := QuietPath(), seq(9, _ => Dispatch(0, QUIET));
    QuietPathSteps();
    assert |path[9].sessions| == 1 && path[9].sessions[0].status.Succeeded?;
    hide QuietPath;
    StepsJoin(start, startLabels, path, pathLabels);
    var mid, midLabels := start + path[1..], startLabels + pathLabels;
    StepsJoin(mid, midLabels, end, endLabels);
    states, labels := mid + end[1..], midLabels + endLabels;
    assert states[|midLabels|] == path[9];
  }
}
