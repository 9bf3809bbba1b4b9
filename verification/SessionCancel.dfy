/** What is left of a session once it has been told to stop. */
module SessionCancel {
  import opened SessionManager
  import opened SessionInvariant
  import opened SessionReplies
  import opened Wrappers

  // ----- nothing else to write

  /** The session's goroutine will not write the row again. */
  predicate Over(pc: Pc) {
    RowDone(pc) || pc == Starting(Abandoned)
  }

  /** Between run's start and the append of a reply. */
  predicate MayStop(pc: Pc) {
    pc.Executing? || (pc.Replying? && !pc.reply.Appending? && !pc.reply.Linking?)
  }

  /** Whatever the goroutine still writes to the row's status is canceled. */
  predicate BoundToCancel(s: State, x: Session) {
    match x.pc
    case Starting(at) => at.Created? ==> s.closed
    case Admission(at) => at.Selecting? || at.Admitting? ==> s.closed
    case Executing(at) => (at.InRunner? || at.RunnerFailed?) && CtxCancelled(s, x)
    case Replying(_) => MayStop(x.pc) && CtxCancelled(s, x)
    case Ending(at) => at.Finishing? ==> at.outcome == Canceled
  }

  lemma AdmitBound(s: State, x: Session, c: Choice)
    requires x.pc.Admission? && BoundToCancel(s, x)
    ensures
      var y := Admit(s, x, x.pc.admit, c);
      BoundToCancel(s, y) && y.status in {x.status, Canceled}
  {
    match x.pc.admit
    case Selecting =>
    case DropOnCtx =>
    case FinishOnCtx =>
    case Admitting =>
    case DropOnClosed =>
    case FinishOnClosed =>
  }

  lemma ExecuteBound(s: State, x: Session, c: Choice)
    requires x.pc.Executing? && BoundToCancel(s, x)
    ensures
      var y := Execute(s, x, x.pc.exec, c);
      BoundToCancel(s, y) && y.status == x.status
  {
    match x.pc.exec { case InRunner => case RunnerFailed => case _ => }
  }

  lemma ResolveBound(s: State, x: Session, c: Choice)
    requires x.pc.Replying? && BoundToCancel(s, x)
    ensures
      var y := Resolve(s, x, x.pc.reply, c);
      BoundToCancel(s, y) && y.status == x.status
  {
    ResolveFrame(s, x, c);
    hide AgentPosts, SaysNothing, Reply;
    match x.pc.reply
    case Resolving =>
    case Polling(_) =>
    case Checking(_, _) =>
    case Polled(_, _) =>
    case Posting =>
    case _ =>
  }

  lemma EndBound(s: State, x: Session)
    requires x.pc.Ending? && BoundToCancel(s, x)
    ensures
      var y := End(x, x.pc.end);
      BoundToCancel(s, y) && y.status in {x.status, Canceled}
  {
    match x.pc.end { case Finishing(_) => case Unwinding => case Releasing => case Leaving => case Gone => }
  }

  lemma MovedBound(s: State, x: Session, c: Choice)
    requires Live(x.pc) && BoundToCancel(s, x)
    ensures BoundToCancel(s, Moved(s, x, c)) && Moved(s, x, c).status in {x.status, Canceled}
  {
    hide Admit, Execute, Resolve, End;
    match x.pc
    case Admission(_) => AdmitBound(s, x, c); hide BoundToCancel;
    case Executing(_) => ExecuteBound(s, x, c); hide BoundToCancel;
    case Replying(_) => ResolveBound(s, x, c); hide BoundToCancel;
    case Ending(_) => EndBound(s, x); hide BoundToCancel;
  }

  /** Only a restart takes back a closing or a cancel. */
  lemma StopsStay(s: State, l: Label)
    requires Enabled(s, l) && !l.Restart?
    ensures (s.closed ==> Apply(s, l).closed) && (s.ctxDone ==> Apply(s, l).ctxDone)
    ensures l.Dispatch? ==> Apply(s, l).closed == s.closed && Apply(s, l).ctxDone == s.ctxDone
  {
    if l.Dispatch? {
      DispatchFrame(s, l.id, l.choice);
    }
    hide Dispatched, Canceling, Finish;
  }

  lemma SteppedBound(s: State, l: Label, s': State, id: nat)
    requires id < |s.sessions| && (l.Dispatch? ==> l.id != id) && BoundToCancel(s, s.sessions[id])
    requires l == Register(id) ==> s.sessions[id].pc == Starting(Created)
    requires l.Restart? || ((s.closed ==> s'.closed) && (s.ctxDone ==> s'.ctxDone))
    ensures BoundToCancel(s', Stepped(s, l, id)) && Stepped(s, l, id).status in {s.sessions[id].status, Canceled}
  {
    match l {
      case Register(_) => case Refuse(_) => case CancelStep(_) => case ShutdownFinish(_) => case Restart => case _ =>
    }
  }

  lemma OthersLeaveBound(s: State, l: Label, id: nat)
    requires Enabled(s, l) && id < |s.sessions| && (l.Dispatch? ==> l.id != id)
    requires BoundToCancel(s, s.sessions[id])
    ensures id < |Apply(s, l).sessions| && BoundToCancel(Apply(s, l), Apply(s, l).sessions[id])
    ensures Apply(s, l).sessions[id].status in {s.sessions[id].status, Canceled}
  {
    assert l == Register(id) ==> s.sessions[id].pc == Starting(Created);
    hide *;
    if !l.Restart? {
      StopsStay(s, l);
    }
    StepFrame(s, l, id);
    SteppedBound(s, l, Apply(s, l), id);
  }

  lemma BoundStays(s: State, l: Label, id: nat)
    requires Enabled(s, l) && id < |s.sessions| && BoundToCancel(s, s.sessions[id])
    ensures id < |Apply(s, l).sessions| && BoundToCancel(Apply(s, l), Apply(s, l).sessions[id])
    ensures Apply(s, l).sessions[id].status in {s.sessions[id].status, Canceled}
  {
    if l.Dispatch? && l.id == id {
      StopsStay(s, l);
      MovedBound(s, s.sessions[id], l.choice);
      DispatchFrame(s, id, l.choice);
      hide Dispatched, Moved;
    } else {
      OthersLeaveBound(s, l, id);
      hide Apply, BoundToCancel;
    }
  }

  // ----- a finished row whose goroutine still has to write

  /** It was another call that finished it, so it is canceled. */
  predicate EarlyIsCanceled(x: Session) {
    Terminal(x.status) && !Over(x.pc) ==> x.status == Canceled
  }

  lemma AdmitEarly(s: State, x: Session, c: Choice)
    requires x.pc.Admission? && EarlyIsCanceled(x)
    ensures EarlyIsCanceled(Admit(s, x, x.pc.admit, c))
  {
    match x.pc.admit { case FinishOnCtx => case FinishOnClosed => case _ => }
  }

  lemma ExecuteEarly(s: State, x: Session, c: Choice)
    requires x.pc.Executing? && EarlyIsCanceled(x)
    ensures EarlyIsCanceled(Execute(s, x, x.pc.exec, c))
  {
    match x.pc.exec { case Marking => case _ => }
  }

  lemma EndEarly(x: Session)
    requires x.pc.Ending? && EarlyIsCanceled(x)
    ensures EarlyIsCanceled(End(x, x.pc.end))
  {
    match x.pc.end { case Finishing(_) => case _ => }
  }

  lemma MovedEarly(s: State, x: Session, c: Choice)
    requires Live(x.pc) && EarlyIsCanceled(x)
    ensures EarlyIsCanceled(Moved(s, x, c))
  {
    hide Admit, Execute, Resolve, End, Terminal;
    match x.pc
    case Admission(_) => AdmitEarly(s, x, c); hide EarlyIsCanceled;
    case Executing(_) => ExecuteEarly(s, x, c); hide EarlyIsCanceled;
    case Replying(_) => ResolveFrame(s, x, c);
    case Ending(_) => EndEarly(x); hide EarlyIsCanceled;
  }

  lemma StepKeepsEarly(s: State, l: Label, id: nat)
    requires Enabled(s, l) && id < |s.sessions| && EarlyIsCanceled(s.sessions[id])
    ensures id < |Apply(s, l).sessions| && EarlyIsCanceled(Apply(s, l).sessions[id])
  {
    if l.Dispatch? && l.id == id {
      MovedEarly(s, s.sessions[id], l.choice);
      DispatchFrame(s, id, l.choice);
      hide Dispatched, Moved, EarlyIsCanceled;
    } else {
      StepFrame(s, l, id);
      hide Apply;
    }
  }

  lemma {:induction false} RunKeepsEarly(states: seq<State>, labels: seq<Label>, id: nat)
    requires Run(states, labels) && id < |states[|labels|].sessions|
    ensures EarlyIsCanceled(states[|labels|].sessions[id])
    decreases |labels|
  {
    hide Inv, Enabled, Apply, Over;
    if labels != [] {
      var n := |labels| - 1;
      RunSplits(states, labels);
      if id < |states[n].sessions| {
        RunKeepsEarly(states[..n + 1], labels[..n], id);
        StepKeepsEarly(states[n], labels[n], id);
      } else {
        NewIsFresh(states[n], labels[n], id);
      }
    }
  }

  // ----- a cancel is honoured

  /** Told to stop before its reply: its context is cancelled, or the manager closed before it was admitted. */
  predicate CaughtInTime(s: State, x: Session) {
    if x.pc.Executing? || x.pc.Replying? then MayStop(x.pc) && CtxCancelled(s, x)
    else s.closed && (x.pc.Admission? || x.pc == Starting(Created))
  }

  /** On its way to canceled, or to failed if it never gets to run. */
  predicate Stopping(s: State, x: Session) {
    && (BoundToCancel(s, x) || (x.pc.Executing? && CtxCancelled(s, x)) || (x.pc == Ending(Finishing(Failed)) && x.runs == 0))
    && !x.status.Succeeded? && (x.status.Failed? ==> x.runs == 0 && RowDone(x.pc))
  }

  lemma ExecuteStops(s: State, x: Session, c: Choice)
    requires RowAgrees(x) && x.pc.Executing? && Stopping(s, x)
    ensures Stopping(s, Execute(s, x, x.pc.exec, c))
  {
    match x.pc.exec { case Marking => case MarkFailed => case Prompting => case InRunner => case RunnerFailed => }
  }

  lemma EndStops(s: State, x: Session)
    requires x.pc.Ending? && Stopping(s, x)
    ensures Stopping(s, End(x, x.pc.end))
  {
    match x.pc.end { case Finishing(_) => case Unwinding => case Releasing => case Leaving => case Gone => }
  }

  lemma MovedStops(s: State, x: Session, c: Choice)
    requires RowAgrees(x) && Live(x.pc) && Stopping(s, x)
    ensures Stopping(s, Moved(s, x, c))
  {
    hide Admit, Execute, Resolve, End, RowAgrees;
    match x.pc
    case Admission(_) => AdmitBound(s, x, c); hide BoundToCancel;
    case Executing(_) => ExecuteStops(s, x, c); hide Stopping;
    case Replying(_) => ResolveBound(s, x, c); hide BoundToCancel;
    case Ending(_) => EndStops(s, x); hide Stopping;
  }

  lemma SteppedStops(s: State, l: Label, s': State, id: nat)
    requires id < |s.sessions| && (l.Dispatch? ==> l.id != id) && Stopping(s, s.sessions[id])
    requires l == Register(id) ==> s.sessions[id].pc == Starting(Created)
    requires l == Refuse(id) ==> s.sessions[id].pc == Starting(Refused)
    requires l.Restart? || ((s.closed ==> s'.closed) && (s.ctxDone ==> s'.ctxDone))
    ensures Stopping(s', Stepped(s, l, id))
  {
    match l {
      case Register(_) => case Refuse(_) => case CancelStep(_) => case ShutdownFinish(_) => case Restart => case _ =>
    }
  }

  lemma StoppingStays(s: State, l: Label, id: nat)
    requires Inv(s) && Enabled(s, l) && id < |s.sessions| && Stopping(s, s.sessions[id])
    ensures id < |Apply(s, l).sessions| && Stopping(Apply(s, l), Apply(s, l).sessions[id])
    ensures PostsBy(Apply(s, l).posts, id) == PostsBy(s.posts, id)
  {
    assert SessionInv(s, id);
    assert l == Register(id) ==> s.sessions[id].pc == Starting(Created);
    assert l == Refuse(id) ==> s.sessions[id].pc == Starting(Refused);
    assert !WritesReply(s, l, id);
    hide *;
    if PostsBy(Apply(s, l).posts, id) != PostsBy(s.posts, id) {
      OnlyRepliesCount(s, l, id);
    }
    if !l.Restart? {
      StopsStay(s, l);
    }
    if l.Dispatch? && l.id == id {
      OwnStops(s, id, l.choice);
    } else {
      StepFrame(s, l, id);
      SteppedStops(s, l, Apply(s, l), id);
    }
  }

  lemma OwnStops(s: State, id: nat, c: Choice)
    requires CanDispatch(s, id, c) && RowAgrees(s.sessions[id]) && Stopping(s, s.sessions[id])
    ensures
      var s' := Apply(s, Dispatch(id, c));
      id < |s'.sessions| && Stopping(s', s'.sessions[id])
  {
    StopsStay(s, Dispatch(id, c));
    MovedStops(s, s.sessions[id], c);
    DispatchFrame(s, id, c);
    hide Dispatched, Moved, RowAgrees;
  }

  lemma {:induction false} StoppingForGood(states: seq<State>, labels: seq<Label>, id: nat)
    requires Steps(states, labels) && Inv(states[0]) && id < |states[0].sessions|
    requires Stopping(states[0], states[0].sessions[id])
    ensures id < |states[|labels|].sessions| && Stopping(states[|labels|], states[|labels|].sessions[id])
    ensures PostsBy(states[|labels|].posts, id) == PostsBy(states[0].posts, id)
    decreases |labels|
  {
    if labels != [] {
      var n := |labels| - 1;
      hide Inv, Apply, Enabled, Stopping, PostsBy;
      assert Enabled(states[n], labels[n]) && states[n + 1] == Apply(states[n], labels[n]);
      StoppingForGood(states[..n + 1], labels[..n], id);
      StepsKeepInv(states[..n + 1], labels[..n]);
      StoppingStays(states[n], labels[n], id);
    }
  }

  lemma CaughtIsStopping(s: State, id: nat)
    requires Inv(s) && id < |s.sessions| && CaughtInTime(s, s.sessions[id]) && EarlyIsCanceled(s.sessions[id])
    ensures Stopping(s, s.sessions[id]) && PostsBy(s.posts, id) == 0
  {
    assert SessionInv(s, id);
    hide Inv, PostsBy;
  }

  /**
   A session that is told to stop before it appends its reply, by Cancel or by
   Shutdown, has none in any continuation, and ends canceled; or failed, where it never
   came to run at all, since its row or its prompt failed first.
   */
  lemma CancelIsHonoured(states: seq<State>, labels: seq<Label>, i: nat, id: nat)
    requires Run(states, labels) && i <= |labels| && id < |states[i].sessions|
    requires CaughtInTime(states[i], states[i].sessions[id])
    ensures
      var s := states[|labels|];
      && id < |s.sessions| && PostsBy(s.posts, id) == 0
      && var y := s.sessions[id];
         y.reply.None? && (Terminal(y.status) ==> y.status.Canceled? || (y.status.Failed? && y.runs == 0))
  {
    assert Run(states[..i + 1], labels[..i]) && Steps(states[i..], labels[i..]);
    hide Enabled, Apply, Init;
    RunKeepsInv(states[..i + 1], labels[..i]);
    RunKeepsEarly(states[..i + 1], labels[..i], id);
    CaughtIsStopping(states[i], id);
    StoppingForGood(states[i..], labels[i..], id);
    assert states[i..][|labels[i..]|] == states[|labels|];
    RunKeepsInv(states, labels);
    assert SessionInv(states[|labels|], id);
    hide PostsBy, RowAgrees, Steps, Run;
  }

  // ----- canceled before its turn

  /** Canceled without having run, and the goroutine will find it so. */
  predicate HeldBack(x: Session) {
    && x.status.Canceled? && x.runs == 0
    && match x.pc
       case Starting(_) => true
       case Admission(_) => true
       case Executing(at) => at.Marking? || at.MarkFailed?
       case Replying(_) => false
       case Ending(at) => at.Finishing? ==> at.outcome == Canceled
  }

  /** Asked for its status, the store fails to give it. */
  predicate StatusUnread(s: State, l: Label, id: nat) {
    && l.Dispatch? && l.id == id && l.choice.fail && id < |s.sessions|
    && s.sessions[id].pc == Executing(MarkFailed)
  }

  lemma ExecuteHeld(s: State, x: Session, c: Choice)
    requires x.pc.Executing? && HeldBack(x) && !(x.pc.exec.MarkFailed? && c.fail)
    ensures HeldBack(Execute(s, x, x.pc.exec, c))
  {
    match x.pc.exec { case Marking => case MarkFailed => case _ => }
  }

  lemma MovedHeld(s: State, x: Session, c: Choice)
    requires Live(x.pc) && HeldBack(x) && !(x.pc == Executing(MarkFailed) && c.fail)
    ensures HeldBack(Moved(s, x, c))
  {
    hide Execute, Resolve;
    match x.pc
    case Admission(at) => match at { case FinishOnCtx => case FinishOnClosed => case _ => }
    case Executing(_) => ExecuteHeld(s, x, c); hide HeldBack;
    case Ending(at) => match at { case Finishing(_) => case _ => }
  }

  lemma StepHeld(s: State, l: Label, id: nat)
    requires Enabled(s, l) && id < |s.sessions| && HeldBack(s.sessions[id]) && !StatusUnread(s, l, id)
    ensures id < |Apply(s, l).sessions| && HeldBack(Apply(s, l).sessions[id])
  {
    if l.Dispatch? && l.id == id {
      OwnFrame(s, id, l.choice);
      MovedHeld(s, s.sessions[id], l.choice);
      hide Moved;
    } else {
      StepFrame(s, l, id);
    }
    hide Apply, Enabled;
  }

  lemma {:induction false} HeldForGood(states: seq<State>, labels: seq<Label>, id: nat)
    requires Steps(states, labels) && id < |states[0].sessions| && HeldBack(states[0].sessions[id])
    requires forall k | 0 <= k < |labels| :: !StatusUnread(states[k], labels[k], id)
    ensures id < |states[|labels|].sessions| && HeldBack(states[|labels|].sessions[id])
    decreases |labels|
  {
    if labels != [] {
      var n := |labels| - 1;
      hide Apply, Enabled, HeldBack, StatusUnread;
      assert Enabled(states[n], labels[n]) && states[n + 1] == Apply(states[n], labels[n]);
      HeldForGood(states[..n + 1], labels[..n], id);
      StepHeld(states[n], labels[n], id);
    }
  }

  lemma OwnCancelHolds(s: State, x: Session, c: Choice)
    requires RowAgrees(x) && Live(x.pc) && x.status.Queued? && !Finishes(x.pc) && Moved(s, x, c).status.Canceled?
    ensures HeldBack(Moved(s, x, c))
  {
    hide Resolve;
    match x.pc
    case Admission(at) => match at { case FinishOnCtx => case FinishOnClosed => case _ => }
    case Executing(at) => match at { case Marking => case MarkFailed => case _ => }
    case Replying(_) => ResolveFrame(s, x, c);
    case Ending(_) =>
  }

  lemma CancelHolds(s: State, l: Label, id: nat)
    requires Inv(s) && Enabled(s, l) && id < |s.sessions| && id < |Apply(s, l).sessions|
    requires s.sessions[id].status.Queued? && !Finishes(s.sessions[id].pc) && Apply(s, l).sessions[id].status.Canceled?
    ensures HeldBack(Apply(s, l).sessions[id])
  {
    assert SessionInv(s, id);
    if l.Dispatch? && l.id == id {
      OwnFrame(s, id, l.choice);
      OwnCancelHolds(s, s.sessions[id], l.choice);
      hide Moved;
    } else {
      StepFrame(s, l, id);
    }
    hide Inv, Apply, Enabled;
  }

  /**
   A row that is canceled while it is queued stays so and its agent is never run, as long
   as the store gives its status when the goroutine asks for it.
   */
  lemma CanceledInQueueStays(states: seq<State>, labels: seq<Label>, i: nat, id: nat)
    requires Run(states, labels) && i < |labels| && id < |states[i].sessions|
    requires states[i].sessions[id].status.Queued? && !Finishes(states[i].sessions[id].pc)
    requires id < |states[i + 1].sessions| && states[i + 1].sessions[id].status.Canceled?
    requires forall k | i < k < |labels| :: !StatusUnread(states[k], labels[k], id)
    ensures
      var s := states[|labels|];
      id < |s.sessions| && s.sessions[id].status.Canceled? && s.sessions[id].runs == 0
  {
    hide *;
    RunParts(states, labels, i);
    var later, laterLabels := states[i + 1..], labels[i + 1..];
    forall k | 0 <= k < |laterLabels|
      ensures !StatusUnread(later[k], laterLabels[k], id)
    {
      assert later[k] == states[i + 1 + k] && laterLabels[k] == labels[i + 1 + k];
    }
    RunKeepsInv(states[..i + 1], labels[..i]);
    CancelHolds(states[i], labels[i], id);
    HeldForGood(later, laterLabels, id);
    HeldIsCanceled(states[|labels|].sessions[id]);
  }

  lemma HeldIsCanceled(x: Session)
    requires HeldBack(x)
    ensures x.status.Canceled? && x.runs == 0
  {
  }

  // ----- a call of Cancel takes effect

  /** By this step the call finds the row finished, stops the session, or marks its row. */
  predicate TakesEffect(s: State, s': State, call: nat, id: nat) {
    && call < |s.cancels| && id < |s.sessions| && id < |s'.sessions|
    && var x, y := s.sessions[id], s'.sessions[id];
       || (s.cancels[call] == Reading(id) && Terminal(x.status) && y == x)
       || (s.cancels[call] == Calling(id) && y == x.(cancelled := true))
       || (s.cancels[call] == Writing(id) && y.status == Canceled && y.pc == x.pc && y.cancelled == x.cancelled)
  }

  /** The call has looked the session up, and found it running or not. */
  ghost predicate LookedUp(states: seq<State>, labels: seq<Label>, call: nat, id: nat, found: bool)
    requires |states| == |labels| + 1
  {
    exists j | 0 <= j < |labels| ::
      labels[j] == CancelStep(call) && call < |states[j].cancels| && states[j].cancels[call] == Looking(id)
      && (id in states[j].running <==> found)
  }

  ghost predicate TookEffect(states: seq<State>, labels: seq<Label>, call: nat, id: nat)
    requires |states| == |labels| + 1
  {
    exists j | 0 <= j < |labels| :: labels[j] == CancelStep(call) && TakesEffect(states[j], states[j + 1], call, id)
  }

  ghost predicate CallStands(states: seq<State>, labels: seq<Label>, call: nat, id: nat)
    requires |states| == |labels| + 1
  {
    && call < |states[|labels|].cancels|
    && match states[|labels|].cancels[call]
       case Reading(i) => i == id
       case Looking(i) => i == id
       case Calling(i) => i == id && LookedUp(states, labels, call, id, true)
       case Writing(i) => i == id && LookedUp(states, labels, call, id, false)
       case Returned => TookEffect(states, labels, call, id)
  }

  lemma CancelsStay(s: State, l: Label, call: nat)
    requires Enabled(s, l) && !l.Restart? && call < |s.cancels| && l != CancelStep(call)
    ensures call < |Apply(s, l).cancels| && Apply(s, l).cancels[call] == s.cancels[call]
  {
    if l.Dispatch? {
      DispatchFrame(s, l.id, l.choice);
    }
    hide Dispatched, Finish;
  }

  lemma EvidenceStays(states: seq<State>, labels: seq<Label>, call: nat, id: nat, found: bool)
    requires |states| == |labels| + 1 && labels != []
    ensures
      var n := |labels| - 1;
      && (LookedUp(states[..n + 1], labels[..n], call, id, found) ==> LookedUp(states, labels, call, id, found))
      && (TookEffect(states[..n + 1], labels[..n], call, id) ==> TookEffect(states, labels, call, id))
  {
    hide TakesEffect;
    var n := |labels| - 1;
    var states', labels' := states[..n + 1], labels[..n];
    if LookedUp(states', labels', call, id, found) {
      var j :| 0 <= j < n && labels'[j] == CancelStep(call) && call < |states'[j].cancels|
               && states'[j].cancels[call] == Looking(id) && (id in states'[j].running <==> found);
      assert labels[j] == CancelStep(call) && states[j] == states'[j];
    }
    if TookEffect(states', labels', call, id) {
      var j :| 0 <= j < n && labels'[j] == CancelStep(call) && TakesEffect(states'[j], states'[j + 1], call, id);
      assert labels[j] == CancelStep(call) && TakesEffect(states[j], states[j + 1], call, id);
    }
  }

  lemma {:induction false} CallGoesOn(states: seq<State>, labels: seq<Label>, call: nat, id: nat)
    requires Steps(states, labels) && call < |states[0].cancels| && states[0].cancels[call] == Reading(id)
    requires id < |states[0].sessions| && forall l | l in labels :: !l.Restart?
    ensures |states| == |labels| + 1 && CallStands(states, labels, call, id) && id < |states[|labels|].sessions|
    decreases |labels|
  {
    if labels == [] {
      hide Enabled, Apply;
    } else {
      hide *;
      var n := |labels| - 1;
      StepsSplit(states, labels);
      CallGoesOn(states[..n + 1], labels[..n], call, id);
      SessionsStay(states[n], labels[n]);
      CallStandsOn(states, labels, call, id);
    }
  }

  /** One step more of a run, of the call or of another. */
  lemma CallStandsOn(states: seq<State>, labels: seq<Label>, call: nat, id: nat)
    requires |states| == |labels| + 1 && labels != []
    requires
      var n := |labels| - 1;
      && Enabled(states[n], labels[n]) && states[n + 1] == Apply(states[n], labels[n]) && !labels[n].Restart?
      && id < |states[n].sessions| && CallStands(states[..n + 1], labels[..n], call, id)
    ensures CallStands(states, labels, call, id)
  {
    var n := |labels| - 1;
    EvidenceStays(states, labels, call, id, true);
    EvidenceStays(states, labels, call, id, false);
    assert states[..n + 1][|labels[..n]|] == states[n];
    hide Enabled, Apply, LookedUp, TookEffect;
    if labels[n] == CancelStep(call) {
      assert !states[n].cancels[call].Returned? by {
        StepIsOpen(states[n], labels[n], call);
      }
      CallSteps(states, labels, call, id);
    } else {
      CancelsStay(states[n], labels[n], call);
    }
  }

  lemma StepIsOpen(s: State, l: Label, call: nat)
    requires Enabled(s, l) && l == CancelStep(call)
    ensures call < |s.cancels| && !s.cancels[call].Returned?
  {
  }

  lemma CallSteps(states: seq<State>, labels: seq<Label>, call: nat, id: nat)
    requires |states| == |labels| + 1 && labels != []
    requires
      var n := |labels| - 1;
      && labels[n] == CancelStep(call) && Enabled(states[n], labels[n]) && states[n + 1] == Apply(states[n], labels[n])
      && id < |states[n].sessions| && call < |states[n].cancels|
      && states[n].cancels[call] in {Reading(id), Looking(id), Calling(id), Writing(id)}
    requires states[|labels| - 1].cancels[call] == Calling(id) ==> LookedUp(states, labels, call, id, true)
    requires states[|labels| - 1].cancels[call] == Writing(id) ==> LookedUp(states, labels, call, id, false)
    ensures CallStands(states, labels, call, id)
  {
    var n := |labels| - 1;
    var s, s' := states[n], states[n + 1];
    if s.cancels[call] == Looking(id) {
      assert LookedUp(states, labels, call, id, id in s.running);
    } else if s.cancels[call] != Reading(id) || Terminal(s.sessions[id].status) {
      assert TakesEffect(s, s', call, id);
    }
    hide TakesEffect, Finish;
  }

  /**
   A call of Cancel that returns has done one of three things to the session: found its
   row finished; or, as it was running, cancelled its context and left the row alone; or,
   as it was not, marked the row canceled and left the goroutine alone.
   */
  lemma CancelTakesEffect(states: seq<State>, labels: seq<Label>, a: nat, call: nat, id: nat)
    requires Run(states, labels) && a < |labels| && labels[a] == CancelCall(id) && call == |states[a].cancels|
    requires id < |states[a].sessions| && forall l | l in labels[a..] :: !l.Restart?
    ensures CallStands(states[a + 1..], labels[a + 1..], call, id)
  {
    assert Enabled(states[a], labels[a]) && states[a + 1] == Apply(states[a], labels[a]);
    hide Enabled, Init, CallStands;
    assert Steps(states[a + 1..], labels[a + 1..]) by {
      hide Apply;
    }
    assert forall l | l in labels[a + 1..] :: l in labels[a..];
    CallGoesOn(states[a + 1..], labels[a + 1..], call, id);
  }
}
