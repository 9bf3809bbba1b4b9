/** When the status of a finished session can still change, and when it cannot. */
module SessionFinality {
  import opened SessionManager
  import opened SessionInvariant
  import opened SessionTheorems
  import opened SessionReplies
  import opened SessionCancel
  import opened Sums

  // ----- one step

  /** A goroutine at this point runs FinishSession next, with this status. */
  predicate AboutToWrite(pc: Pc, st: Status) {
    || pc == Ending(Finishing(st))
    || ((pc == Admission(FinishOnCtx) || pc == Admission(FinishOnClosed)) && st == Canceled)
  }

  /** The step runs FinishSession on row `id`, and with this status. */
  predicate Writes(s: State, l: Label, id: nat, st: Status) {
    && id < |s.sessions|
    && match l
       case Dispatch(i, _) => i == id && AboutToWrite(s.sessions[id].pc, st)
       case CancelStep(call) => call < |s.cancels| && s.cancels[call] == Writing(id) && st == Canceled
       case ShutdownFinish(i) => i == id && st == Canceled
       case Refuse(i) => i == id && st == Canceled
       case _ => false
  }

  lemma AdmitWrites(s: State, x: Session, c: Choice)
    requires x.pc.Admission?
    ensures
      var st := Admit(s, x, x.pc.admit, c).status;
      if x.pc.admit.FinishOnCtx? || x.pc.admit.FinishOnClosed? then st == Canceled else st == x.status
  {
    match x.pc.admit { case Selecting => case FinishOnCtx => case FinishOnClosed => case Admitting => case _ => }
  }

  lemma ExecuteWrites(s: State, x: Session, c: Choice)
    requires x.pc.Executing? && Terminal(x.status)
    ensures Execute(s, x, x.pc.exec, c).status == x.status
  {
    match x.pc.exec { case Marking => case MarkFailed => case Prompting => case InRunner => case _ => }
  }

  lemma EndWrites(x: Session)
    requires x.pc.Ending?
    ensures End(x, x.pc.end).status == if x.pc.end.Finishing? then x.pc.end.outcome else x.status
  {
    match x.pc.end { case Finishing(_) => case Unwinding => case Releasing => case Leaving => case Gone => }
  }

  lemma OwnStepWrites(s: State, x: Session, c: Choice)
    requires Terminal(x.status)
    ensures forall st | AboutToWrite(x.pc, st) :: Moved(s, x, c).status == st
    ensures (forall st :: !AboutToWrite(x.pc, st)) ==> Moved(s, x, c).status == x.status
  {
    hide Admit, Execute, Resolve, End;
    match x.pc
    case Starting(_) =>
    case Admission(at) =>
      AdmitWrites(s, x, c);
      assert AboutToWrite(x.pc, Canceled) <==> at.FinishOnCtx? || at.FinishOnClosed?;
    case Executing(_) => ExecuteWrites(s, x, c);
    case Replying(_) => ResolveFrame(s, x, c);
    case Ending(at) =>
      EndWrites(x);
      assert at.Finishing? ==> AboutToWrite(x.pc, at.outcome);
  }

  /** A step that finishes a row leaves it with the status it writes; any other leaves a terminal status alone. */
  lemma StepWrites(s: State, l: Label, id: nat)
    requires Inv(s) && Enabled(s, l) && id < |s.sessions| && Terminal(s.sessions[id].status)
    ensures id < |Apply(s, l).sessions|
    ensures forall st | Writes(s, l, id, st) :: Apply(s, l).sessions[id].status == st
    ensures (forall st :: !Writes(s, l, id, st)) ==> Apply(s, l).sessions[id].status == s.sessions[id].status
  {
    hide Inv, Apply, Moved, AboutToWrite;
    if l.Dispatch? && l.id == id {
      OwnFrame(s, id, l.choice);
      OwnStepWrites(s, s.sessions[id], l.choice);
      assert forall st :: Writes(s, l, id, st) == AboutToWrite(s.sessions[id].pc, st);
    } else {
      StepFrame(s, l, id);
      hide Enabled;
      assert Writes(s, l, id, Canceled) <==>
             match l
             case CancelStep(call) => call < |s.cancels| && s.cancels[call] == Writing(id)
             case ShutdownFinish(i) => i == id
             case Refuse(i) => i == id
             case _ => false;
    }
  }

  /**
   The status of a finished row changes in a step exactly if the step is one of the
   five that run FinishSession on it, and writes another status.
   */
  lemma StatusChangesIff(s: State, l: Label, id: nat)
    requires Inv(s) && Enabled(s, l) && id < |s.sessions| && Terminal(s.sessions[id].status)
    ensures id < |Apply(s, l).sessions|
    ensures Apply(s, l).sessions[id].status != s.sessions[id].status <==>
            exists st: Status :: Writes(s, l, id, st) && st != s.sessions[id].status
  {
    StepWrites(s, l, id);
    hide Inv, Enabled, Apply, Writes;
  }

  // ----- for good

  /** The call has read row `id`, and may come to write it. */
  predicate CallPends(pc: CancelPc, id: nat) {
    pc == Looking(id) || pc == Writing(id)
  }

  /** Some call of Cancel, or the call of Shutdown, is yet to write the row. */
  ghost predicate Pending(s: State, id: nat) {
    || id in Unfinished(s.shutdown)
    || exists call | 0 <= call < |s.cancels| :: CallPends(s.cancels[call], id)
  }

  /** Nobody will write another status. */
  ghost predicate Settled(s: State, id: nat) {
    && id < |s.sessions|
    && var x := s.sessions[id];
       if x.status.Canceled? then BoundToCancel(s, x) else Terminal(x.status) && Over(x.pc) && !Pending(s, id)
  }

  /** What a step does to the row of a session that is over. */
  lemma OverStays(s: State, l: Label, id: nat)
    requires Inv(s) && Enabled(s, l) && id < |s.sessions|
    requires Over(s.sessions[id].pc) && Terminal(s.sessions[id].status)
    ensures id < |Apply(s, l).sessions| && Over(Apply(s, l).sessions[id].pc)
    ensures Apply(s, l).sessions[id].status in {s.sessions[id].status, Canceled}
    ensures !Pending(s, id) ==> Apply(s, l).sessions[id].status == s.sessions[id].status
  {
    hide Inv, Apply;
    if l.Dispatch? && l.id == id {
      OwnFrame(s, id, l.choice);
      hide End;
    } else {
      StepFrame(s, l, id);
      hide Enabled;
    }
  }

  /** A call that reads the row of a finished session returns. */
  lemma CallsStayAway(s: State, l: Label, id: nat, call: nat)
    requires Enabled(s, l) && id < |s.sessions| && Terminal(s.sessions[id].status)
    requires forall k | 0 <= k < |s.cancels| :: !CallPends(s.cancels[k], id)
    requires call < |Apply(s, l).cancels|
    ensures !CallPends(Apply(s, l).cancels[call], id)
  {
    match l
    case Dispatch(i, c) =>
      DispatchFrame(s, i, c);
      hide Dispatched;
    case CancelStep(k) =>
      assert !CallPends(s.cancels[k], id);
      hide Finish;
    case _ =>
      hide Dispatched, Canceling, Finish, Reconciled;
  }

  /** Once nothing is pending for a session that is over, nothing will be. */
  lemma NothingPends(s: State, l: Label, id: nat)
    requires Inv(s) && Enabled(s, l) && id < |s.sessions| && !Pending(s, id)
    requires Over(s.sessions[id].pc) && Terminal(s.sessions[id].status)
    ensures !Pending(Apply(s, l), id)
  {
    assert SessionInv(s, id);
    hide Inv, RowAgrees, ReplyAgrees, Apply, Enabled, Terminal;
    forall call | 0 <= call < |Apply(s, l).cancels|
      ensures !CallPends(Apply(s, l).cancels[call], id)
    {
      CallsStayAway(s, l, id, call);
    }
  }

  lemma SettledStays(s: State, l: Label, id: nat)
    requires Inv(s) && Enabled(s, l) && Settled(s, id)
    ensures Settled(Apply(s, l), id)
    ensures Apply(s, l).sessions[id].status == s.sessions[id].status
  {
    if s.sessions[id].status.Canceled? {
      BoundStays(s, l, id);
    } else {
      OverStays(s, l, id);
      NothingPends(s, l, id);
    }
    hide Inv, Enabled, Apply, Pending, Over, BoundToCancel;
  }

  /** A settled status is the same after every continuation. */
  lemma {:induction false} SettledForGood(states: seq<State>, labels: seq<Label>, id: nat)
    requires Steps(states, labels) && Inv(states[0]) && Settled(states[0], id)
    ensures Settled(states[|labels|], id)
    ensures states[|labels|].sessions[id].status == states[0].sessions[id].status
    decreases |labels|
  {
    if labels != [] {
      var n := |labels| - 1;
      hide Inv, Apply, Enabled, Settled;
      assert Enabled(states[n], labels[n]) && states[n + 1] == Apply(states[n], labels[n]);
      SettledForGood(states[..n + 1], labels[..n], id);
      StepsKeepInv(states[..n + 1], labels[..n]);
      SettledStays(states[n], labels[n], id);
    }
  }

  // ----- otherwise not

  /** Whatever is still to happen, the row keeps the status it has. */
  ghost predicate Final(s: State, id: nat)
    requires id < |s.sessions|
  {
    forall states: seq<State>, labels: seq<Label> | Steps(states, labels) && states[0] == s ::
      id < |states[|labels|].sessions| && states[|labels|].sessions[id].status == s.sessions[id].status
  }

  /** A call of Cancel that is about to write the row can write it. */
  lemma WriteLands(states: seq<State>, labels: seq<Label>, id: nat, call: nat)
    returns (more: seq<State>, moreLabels: seq<Label>)
    requires Steps(states, labels) && id < |states[|labels|].sessions| && call < |states[|labels|].cancels|
    requires states[|labels|].cancels[call] == Writing(id)
    ensures Steps(more, moreLabels) && more[0] == states[0] && id < |more[|moreLabels|].sessions|
    ensures more[|moreLabels|].sessions[id].status == Canceled
  {
    var l := CancelStep(call);
    more, moreLabels := states + [Apply(states[|labels|], l)], labels + [l];
  }

  /** A call that has read the row can come to write it, once the session has left the running map. */
  lemma LookLands(s: State, id: nat, call: nat) returns (states: seq<State>, labels: seq<Label>)
    requires Inv(s) && id < |s.sessions| && Over(s.sessions[id].pc) && call < |s.cancels| && s.cancels[call] == Looking(id)
    ensures Steps(states, labels) && states[0] == s && id < |states[|labels|].sessions|
    ensures states[|labels|].sessions[id].status == Canceled
  {
    assert SessionInv(s, id);
    states, labels := [s], [];
    if id in s.running {
      assert s.sessions[id].pc == Ending(Unwinding);
      var l := Dispatch(id, GIVE_UP);
      states, labels := [s, Apply(s, l)], [l];
    }
    hide Inv;
    var now := states[|labels|];
    assert id !in now.running && now.cancels[call] == Looking(id) && id < |now.sessions|;
    var l := CancelStep(call);
    states, labels := states + [Apply(now, l)], labels + [l];
    hide Dispatched;
    states, labels := WriteLands(states, labels, id, call);
  }

  lemma ShutdownLands(s: State, id: nat) returns (states: seq<State>, labels: seq<Label>)
    requires id < |s.sessions| && id in Unfinished(s.shutdown)
    ensures Steps(states, labels) && states[0] == s && id < |states[|labels|].sessions|
    ensures states[|labels|].sessions[id].status == Canceled
  {
    states, labels := [s], [];
    if s.shutdown.CancelingAll? {
      states, labels := [s, Apply(s, ShutdownCancel)], [ShutdownCancel];
    }
    var now := states[|labels|];
    var l := ShutdownFinish(id);
    states, labels := states + [Apply(now, l)], labels + [l];
  }

  lemma PendingLands(s: State, id: nat) returns (states: seq<State>, labels: seq<Label>)
    requires Inv(s) && id < |s.sessions| && Over(s.sessions[id].pc) && Pending(s, id)
    ensures Steps(states, labels) && states[0] == s && id < |states[|labels|].sessions|
    ensures states[|labels|].sessions[id].status == Canceled
  {
    if id in Unfinished(s.shutdown) {
      states, labels := ShutdownLands(s, id);
    } else {
      var call :| 0 <= call < |s.cancels| && CallPends(s.cancels[call], id);
      if s.cancels[call] == Writing(id) {
        states, labels := WriteLands([s], [], id, call);
      } else {
        states, labels := LookLands(s, id, call);
      }
    }
  }

  // A canceled row whose goroutine may still write something else.

  /** Whatever can fail fails. */
  const SPOIL: Choice := Choice(true, true, true, "")

  lemma AdmitSpoils(s: State, x: Session)
    requires x.pc.Admission? && x.status == Canceled && !BoundToCancel(s, x)
    ensures
      var y := Admit(s, x, x.pc.admit, SPOIL);
      !y.pc.Starting? && y.status == Canceled && !BoundToCancel(s, y)
  {
    match x.pc.admit { case Selecting => case Admitting => case _ => }
  }

  lemma ExecuteSpoils(s: State, x: Session)
    requires x.pc.Executing? && x.status == Canceled && !BoundToCancel(s, x)
    ensures
      var y := Execute(s, x, x.pc.exec, SPOIL);
      !y.pc.Starting? && y.status == Canceled && !BoundToCancel(s, y)
  {
    match x.pc.exec { case Marking => case MarkFailed => case Prompting => case InRunner => case RunnerFailed => }
  }

  lemma ResolveSpoils(s: State, x: Session)
    requires x.pc.Replying? && x.status == Canceled && !BoundToCancel(s, x)
    ensures
      var y := Resolve(s, x, x.pc.reply, SPOIL);
      !y.pc.Starting? && y.status == Canceled && !BoundToCancel(s, y)
  {
    ResolveFrame(s, x, SPOIL);
    hide AgentPosts, SaysNothing, Reply;
    match x.pc.reply
    case Resolving =>
    case Polling(_) =>
    case Checking(_, _) =>
    case Polled(_, _) =>
    case Posting =>
    case Appending =>
    case Linking(_) =>
  }

  /** A goroutine that may write something else stays so until it does. */
  lemma MovedSpoils(s: State, x: Session)
    requires Live(x.pc) && x.status == Canceled && !BoundToCancel(s, x)
    ensures
      var y := Moved(s, x, SPOIL);
      !y.pc.Starting? && (y.status != Canceled || !BoundToCancel(s, y))
  {
    hide Admit, Execute, Resolve;
    match x.pc
    case Admission(_) => AdmitSpoils(s, x); hide BoundToCancel;
    case Executing(_) => ExecuteSpoils(s, x); hide BoundToCancel;
    case Replying(_) => ResolveSpoils(s, x); hide BoundToCancel;
    case Ending(_) =>
  }

  /** The next step: its own, or that of a session that holds a slot it waits for. */
  lemma SpoilerMoves(s: State, id: nat) returns (j: nat)
    requires Inv(s) && id < |s.sessions| && !BoundToCancel(s, s.sessions[id]) && s.sessions[id].pc != Starting(Created)
    ensures CanDispatch(s, j, SPOIL)
  {
    j := id;
    if s.sessions[id].pc == Admission(Selecting) && s.sem == MAX_CONCURRENT_SESSIONS {
      if forall k | 0 <= k < |s.sessions| :: SlotWeight(s.sessions[k]) == 0 {
        SumOfZeros(s.sessions, SlotWeight);
        assert false;
      }
      j :| 0 <= j < |s.sessions| && SlotWeight(s.sessions[j]) != 0;
    }
    SumBoundsEach(s.sessions, j, LiveWeight);
    SumBoundsEach(s.sessions, j, SlotWeight);
    hide Sum, RowAgrees, ReplyAgrees, Scheduled;
  }

  lemma SameBound(s: State, s': State, x: Session)
    requires s'.closed == s.closed && s'.ctxDone == s.ctxDone
    ensures BoundToCancel(s', x) <==> BoundToCancel(s, x)
  {
  }

  lemma SpoilStep(s: State, id: nat, j: nat)
    requires CanDispatch(s, j, SPOIL) && id < |s.sessions| && s.sessions[id].status == Canceled
    requires !BoundToCancel(s, s.sessions[id]) && s.sessions[id].pc != Starting(Created)
    ensures
      var s' := Apply(s, Dispatch(j, SPOIL));
      && id < |s'.sessions| && s'.sessions[id].pc != Starting(Created)
      && (s'.sessions[id].status != Canceled || !BoundToCancel(s', s'.sessions[id]))
  {
    var s' := Apply(s, Dispatch(j, SPOIL));
    assert j == id ==> Live(s.sessions[id].pc);
    StopsStay(s, Dispatch(j, SPOIL));
    DispatchFrame(s, j, SPOIL);
    hide *;
    SameBound(s, s', s'.sessions[id]);
    if j == id {
      MovedSpoils(s, s.sessions[id]);
    }
  }

  /** Such a row comes to another status. */
  lemma {:induction false} SpoilsFrom(s: State, id: nat) returns (states: seq<State>, labels: seq<Label>)
    requires Inv(s) && id < |s.sessions| && s.sessions[id].status == Canceled && !BoundToCancel(s, s.sessions[id])
    requires s.sessions[id].pc != Starting(Created)
    ensures Steps(states, labels) && states[0] == s && id < |states[|labels|].sessions|
    ensures states[|labels|].sessions[id].status != Canceled
    decreases Rank(s)
  {
    var j := SpoilerMoves(s, id);
    var l := Dispatch(j, SPOIL);
    SpoilStep(s, id, j);
    StepKeepsInv(s, l);
    DispatchRanks(s, j, SPOIL);
    hide Inv, BoundToCancel, CanDispatch, Dispatched;
    var s' := Apply(s, l);
    if s'.sessions[id].status != Canceled {
      states, labels := [s, s'], [l];
    } else {
      var later, laterLabels := SpoilsFrom(s', id);
      StepsCons(s, l, later, laterLabels);
      states, labels := [s] + later, [l] + laterLabels;
    }
  }

  lemma Spoils(s: State, id: nat) returns (states: seq<State>, labels: seq<Label>)
    requires Inv(s) && id < |s.sessions| && s.sessions[id].status == Canceled && !BoundToCancel(s, s.sessions[id])
    ensures Steps(states, labels) && states[0] == s && id < |states[|labels|].sessions|
    ensures states[|labels|].sessions[id].status != Canceled
  {
    if s.sessions[id].pc == Starting(Created) {
      var l := Register(id);
      StepKeepsInv(s, l);
      hide Inv;
      var later, laterLabels := SpoilsFrom(Apply(s, l), id);
      StepsCons(s, l, later, laterLabels);
      states, labels := [s] + later, [l] + laterLabels;
    } else {
      states, labels := SpoilsFrom(s, id);
    }
  }

  /**
   Exactly when the status of a finished session is final, in every reachable state. A
   canceled one is if and only if its goroutine is bound to write nothing but canceled:
   it is over; or was dropped, or has still to be admitted and the manager is closed; or
   is in its run or past it, its context cancelled and no reply begun. Any other is if
   and only if no call of Cancel may still come to write it and Shutdown has not the row
   still to finish; its goroutine is over then.
   */
  lemma StatusIsFinalIff(states: seq<State>, labels: seq<Label>, id: nat)
    requires Run(states, labels) && id < |states[|labels|].sessions|
    requires Terminal(states[|labels|].sessions[id].status)
    ensures
      var s := states[|labels|];
      var x := s.sessions[id];
      && (x.status.Canceled? || Over(x.pc))
      && (Final(s, id) <==> if x.status.Canceled? then BoundToCancel(s, x) else !Pending(s, id))
  {
    var s := states[|labels|];
    hide *;
    RunKeepsInv(states, labels);
    RunKeepsEarly(states, labels, id);
    FinishedEarlyOrOver(s.sessions[id]);
    SettledIsFinal(s, id);
    if s.sessions[id].status.Canceled? && !BoundToCancel(s, s.sessions[id]) {
      var more, moreLabels := Spoils(s, id);
      NotFinal(s, id, more, moreLabels);
    } else if !s.sessions[id].status.Canceled? && Pending(s, id) {
      var more, moreLabels := PendingLands(s, id);
      NotFinal(s, id, more, moreLabels);
    }
  }

  lemma FinishedEarlyOrOver(x: Session)
    requires EarlyIsCanceled(x) && Terminal(x.status)
    ensures x.status.Canceled? || Over(x.pc)
  {
  }

  lemma NotFinal(s: State, id: nat, states: seq<State>, labels: seq<Label>)
    requires Steps(states, labels) && states[0] == s && id < |s.sessions| && id < |states[|labels|].sessions|
    requires states[|labels|].sessions[id].status != s.sessions[id].status
    ensures !Final(s, id)
  {
    hide Steps;
  }

  lemma SettledIsFinal(s: State, id: nat)
    requires Inv(s) && id < |s.sessions| && Terminal(s.sessions[id].status)
    requires s.sessions[id].status.Canceled? || Over(s.sessions[id].pc)
    ensures (if s.sessions[id].status.Canceled? then BoundToCancel(s, s.sessions[id]) else !Pending(s, id)) ==> Final(s, id)
  {
    hide Inv, Pending, BoundToCancel;
    if Settled(s, id) {
      forall states: seq<State>, labels: seq<Label> | Steps(states, labels) && states[0] == s
        ensures id < |states[|labels|].sessions| && states[|labels|].sessions[id].status == s.sessions[id].status
      {
        SettledForGood(states, labels, id);
      }
    }
  }

  // ----- a restart

  lemma GoneStays(s: State, l: Label, id: nat)
    requires Enabled(s, l) && id < |s.sessions| && s.sessions[id].pc == Ending(Gone)
    ensures
      id < |Apply(s, l).sessions|
      && var x, y := s.sessions[id], Apply(s, l).sessions[id];
         y.pc == Ending(Gone) && y.runs == x.runs && y.reply == x.reply
    ensures PostsBy(Apply(s, l).posts, id) == PostsBy(s.posts, id)
  {
    if PostsBy(Apply(s, l).posts, id) != PostsBy(s.posts, id) {
      OnlyRepliesCount(s, l, id);
    }
    StepFrame(s, l, id);
    hide PostsBy, Apply;
  }

  lemma {:induction false} GoneForGood(states: seq<State>, labels: seq<Label>, id: nat)
    requires Steps(states, labels) && id < |states[0].sessions| && states[0].sessions[id].pc == Ending(Gone)
    ensures
      var s := states[|labels|];
      && id < |s.sessions| && s.sessions[id].pc == Ending(Gone)
      && s.sessions[id].runs == states[0].sessions[id].runs && s.sessions[id].reply == states[0].sessions[id].reply
      && PostsBy(s.posts, id) == PostsBy(states[0].posts, id)
    decreases |labels|
  {
    if labels != [] {
      var n := |labels| - 1;
      hide Apply, Enabled, PostsBy;
      assert Enabled(states[n], labels[n]) && states[n + 1] == Apply(states[n], labels[n]);
      GoneForGood(states[..n + 1], labels[..n], id);
      GoneStays(states[n], labels[n], id);
    }
  }

  lemma RestartSettles(s: State, id: nat)
    requires Inv(s) && id < |s.sessions|
    ensures
      var s', x := Restarted(s), s.sessions[id];
      && id < |s'.sessions| && s'.posts == s.posts && Inv(s') && Settled(s', id)
      && s'.sessions[id].pc == Ending(Gone) && s'.sessions[id].runs == x.runs && s'.sessions[id].reply == x.reply
      && s'.sessions[id].status == (if Terminal(x.status) then x.status else Canceled)
  {
    RestartKeepsInv(s);
    hide Inv;
  }

  /**
   A crash is the end of every session there is: none of them ever runs again, gets a
   reply, or is queued or running, whatever the restarted daemon and its callers do;
   and each keeps for good the status it had, or is canceled for good if it had not
   finished.
   */
  lemma RestartEndsSessions(states: seq<State>, labels: seq<Label>, i: nat, id: nat)
    requires Run(states, labels) && i < |labels| && labels[i].Restart? && id < |states[i].sessions|
    ensures
      var before, s := states[i].sessions[id], states[|labels|];
      && id < |s.sessions| && s.sessions[id].pc == Ending(Gone) && id !in s.queued && id !in s.running
      && s.sessions[id].runs == before.runs && s.sessions[id].reply == before.reply
      && PostsBy(s.posts, id) == PostsBy(states[i].posts, id)
      && s.sessions[id].status == (if Terminal(before.status) then before.status else Canceled)
  {
    RunKeepsInv(states[..i + 1], labels[..i]);
    RestartSettles(states[i], id);
    assert Enabled(states[i], labels[i]) && states[i + 1] == Apply(states[i], labels[i]) == Restarted(states[i]);
    RunKeepsInv(states, labels);
    hide Apply, Enabled, Init, Settled, Restarted, PostsBy, RowAgrees, ReplyAgrees;
    var later, laterLabels := states[i + 1..], labels[i + 1..];
    assert later[|laterLabels|] == states[|labels|];
    GoneForGood(later, laterLabels, id);
    SettledForGood(later, laterLabels, id);
    assert SessionInv(states[|labels|], id);
  }
}
