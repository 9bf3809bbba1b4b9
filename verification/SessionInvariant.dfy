/** What every interleaving of the session manager's goroutines keeps. */
module SessionInvariant {
  import opened SessionManager
  import opened Sums
  import opened Wrappers

  // ----- one session's row against its goroutine

  predicate Window(pc: Pc) {
    pc == Starting(Created) || pc == Starting(Refused)
  }

  /** Holding a slot of the semaphore. */
  predicate InSlot(pc: Pc) {
    || (pc.Admission? && (pc.admit.Admitting? || pc.admit.DropOnClosed? || pc.admit.FinishOnClosed?))
    || InRunning(pc) || pc == Ending(Releasing)
  }

  /** Between entering and leaving the running map. */
  predicate InRunning(pc: Pc) {
    pc.Executing? || pc.Replying? || Finishes(pc) || pc == Ending(Unwinding)
  }

  /** Between a successful MarkSessionRunning and the decision how to finish. */
  predicate InRun(pc: Pc) {
    (pc.Executing? && !pc.exec.Marking? && !pc.exec.MarkFailed?) || pc.Replying?
  }

  /** Past the call of runner.Run, with the decision how to finish still open. */
  predicate PastRunner(pc: Pc) {
    pc == Executing(InRunner) || pc == Executing(RunnerFailed) || pc.Replying?
  }

  predicate Finishes(pc: Pc) {
    pc.Ending? && pc.end.Finishing?
  }

  /** The goroutine has written its last to the row. */
  predicate RowDone(pc: Pc) {
    pc.Ending? && !pc.end.Finishing?
  }

  predicate RowAgrees(x: Session) {
    && (RowDone(x.pc) || x.pc == Starting(Abandoned) ==> Terminal(x.status))
    && (x.status.Queued? ==> !x.marked)
    && (x.status.Running? ==> x.marked && (InRun(x.pc) || Finishes(x.pc)))
    && (x.marked ==> InRun(x.pc) || x.pc.Ending?)
    && (InRun(x.pc) ==> x.marked)
    && (x.finishedQueued ==> !x.marked && Terminal(x.status))
    && x.runs <= 1
    && (x.runs == 1 ==> x.marked && x.pc != Executing(Prompting))
    && (PastRunner(x.pc) ==> x.runs == 1)
    && (Window(x.pc) ==> (Terminal(x.status) <==> x.byCancel))
    && (Finishes(x.pc) ==> Terminal(x.pc.end.outcome))
    && (x.pc.Replying? && x.pc.reply.Polling? ==> x.pc.reply.polls <= GRACE_POLLS)
    && (x.pc.Replying? && x.pc.reply.Checking? ==> x.pc.reply.polls <= GRACE_POLLS)
  }

  // ----- the scheduler

  /** Launched, and yet to pass the closed check. */
  predicate Waits(pc: Pc) {
    pc == Admission(Selecting) || pc == Admission(Admitting)
  }

  /** The branch a goroutine takes that finds the manager closed. */
  predicate OnClosed(pc: Pc) {
    pc == Admission(DropOnClosed) || pc == Admission(FinishOnClosed)
  }

  /** The branch a goroutine takes that sees the manager's context done. */
  predicate OnCtx(pc: Pc) {
    pc == Admission(DropOnCtx) || pc == Admission(FinishOnCtx)
  }

  predicate Scheduled(s: State, id: nat)
    requires id < |s.sessions|
  {
    var x := s.sessions[id];
    && (id in s.queued <==> !s.closed && Waits(x.pc))
    && (id in s.running <==> InRunning(x.pc))
    && (x.pc == Starting(Refused) || OnClosed(x.pc) ==> s.closed)
    && (OnCtx(x.pc) ==> s.ctxDone)
    && (id in Unfinished(s.shutdown) ==> !Window(x.pc))
  }

  /** The ids Shutdown has still to finish. */
  function Unfinished(pc: ShutdownPc): set<nat> {
    match pc
    case CancelingAll(snapshot) => snapshot
    case FinishingQueued(left) => left
    case _ => {}
  }

  function LiveWeight(x: Session): nat {
    if Live(x.pc) then 1 else 0
  }

  function SlotWeight(x: Session): nat {
    if InSlot(x.pc) then 1 else 0
  }

  ghost predicate Counted(s: State) {
    && s.wg == Sum(s.sessions, LiveWeight)
    && s.sem == Sum(s.sessions, SlotWeight) <= MAX_CONCURRENT_SESSIONS
  }

  ghost predicate Global(s: State) {
    && (forall id | id in s.queued || id in s.running || id in Unfinished(s.shutdown) :: id < |s.sessions|)
    && (s.closed <==> !s.shutdown.NotCalled?)
    && (s.ctxDone <==> s.shutdown.FinishingQueued? || s.shutdown.ShutDown?)
    && (forall i, j | 0 <= i < j < |s.sessions| ::
          s.sessions[i].trigger != s.sessions[j].trigger || s.sessions[i].agent != s.sessions[j].agent)
  }

  // ----- the reply

  /** At the session's last poll, with the trigger in the table, none of its agent's messages followed it. */
  predicate PolledNone(posts: seq<Post>, x: Session) {
    x.trigger <= x.polledAt <= |posts| && AgentPosts(posts[..x.polledAt], x.thread, x.agent, x.trigger) == 0
  }

  predicate MayReply(posts: seq<Post>, x: Session) {
    !x.mode.Cli? && (x.mode.Auto? ==> PolledNone(posts, x))
  }

  /** Message `m` is the daemon's reply for session `id`: it comes after the trigger, and after the last poll. */
  predicate IsReply(posts: seq<Post>, x: Session, id: nat, m: nat) {
    && 1 <= m <= |posts| && posts[m - 1] == ReplyOf(x, id)
    && x.trigger < m && (x.mode.Auto? ==> x.polledAt < m)
  }

  predicate Links(pc: Pc) {
    pc.Replying? && pc.reply.Linking?
  }

  predicate ReplyAgrees(posts: seq<Post>, x: Session, id: nat) {
    var n := PostsBy(posts, id);
    && n <= 1
    && 1 <= x.trigger <= |posts|
    && (n == 1 ==> x.runs == 1 && MayReply(posts, x) && (x.pc.Ending? || Links(x.pc)))
    && (x.reply.Some? ==> IsReply(posts, x, id, x.reply.value))
    && (Links(x.pc) ==> n == 1 && x.reply.None? && !x.linkFailed && IsReply(posts, x, id, x.pc.reply.message))
    && (!Links(x.pc) ==> (x.reply.Some? <==> n == 1 && !x.linkFailed))
    && (n == 0 ==> !x.linkFailed)
    && (x.pc.Replying? ==> ReplyStage(posts, x, x.pc.reply))
  }

  predicate ReplyStage(posts: seq<Post>, x: Session, at: ReplyPc) {
    match at
    case Resolving => true
    case Polling(_) => !x.mode.Stdout?
    case Checking(_, erred) => !x.mode.Stdout? && (!erred ==> PolledNone(posts, x))
    case Polled(posted, erred) => !x.mode.Stdout? && (!erred && !posted ==> PolledNone(posts, x))
    case Posting => MayReply(posts, x)
    case Appending => MayReply(posts, x)
    case Linking(_) => true
  }

  ghost predicate SessionInv(s: State, id: nat)
    requires id < |s.sessions|
  {
    RowAgrees(s.sessions[id]) && Scheduled(s, id) && ReplyAgrees(s.posts, s.sessions[id], id)
  }

  ghost predicate Inv(s: State) {
    && Counted(s) && Global(s)
    && (forall id | 0 <= id < |s.sessions| :: SessionInv(s, id))
    && (forall id | |s.sessions| <= id :: PostsBy(s.posts, id) == 0)
  }

  // ----- posts only grow

  lemma {:induction false} NoReplies(posts: seq<Post>, id: nat)
    requires forall i | 0 <= i < |posts| :: posts[i].writer != Some(id)
    ensures PostsBy(posts, id) == 0
    decreases |posts|
  {
    if posts != [] {
      NoReplies(posts[..|posts| - 1], id);
    }
  }

  lemma InitInv(s: State)
    requires Init(s)
    ensures Inv(s)
  {
    forall id | |s.sessions| <= id
      ensures PostsBy(s.posts, id) == 0
    {
      NoReplies(s.posts, id);
    }
  }

  /** A session's view of its reply survives any append by another. */
  lemma ReplySurvives(posts: seq<Post>, p: Post, x: Session, id: nat)
    requires ReplyAgrees(posts, x, id) && p.writer != Some(id)
    ensures ReplyAgrees(posts + [p], x, id)
  {
    if x.polledAt <= |posts| {
      assert (posts + [p])[..x.polledAt] == posts[..x.polledAt];
    }
  }

  // ----- a dispatch step keeps its own session in order

  /** How one step moves a goroutine between the zones the scheduler knows of. */
  predicate Follows(s: State, x: Session, c: Choice, pc: Pc) {
    && (InRunning(pc) <==> (InRunning(x.pc) && x.pc != Ending(Unwinding)) || (x.pc == Admission(Admitting) && !s.closed))
    && (InSlot(pc) <==> (InSlot(x.pc) && x.pc != Ending(Releasing)) || (x.pc == Admission(Selecting) && c.slot))
    && (Live(pc) <==> x.pc != Ending(Leaving))
    && (Waits(pc) <==> x.pc == Admission(Selecting) && c.slot)
    && (OnClosed(pc) ==> x.pc == Admission(DropOnClosed) || (x.pc == Admission(Admitting) && s.closed))
    && (OnCtx(pc) ==> x.pc == Admission(DropOnCtx) || (x.pc == Admission(Selecting) && !c.slot))
    && !pc.Starting?
  }

  lemma AdmitFollows(s: State, x: Session, c: Choice)
    requires x.pc.Admission?
    ensures Follows(s, x, c, Admit(s, x, x.pc.admit, c).pc)
  {
    var pc := Admit(s, x, x.pc.admit, c).pc;
    assert pc == match x.pc.admit
                 case Selecting => Admission(if c.slot then Admitting else DropOnCtx)
                 case DropOnCtx => Admission(FinishOnCtx)
                 case FinishOnCtx => Ending(Leaving)
                 case Admitting => if s.closed then Admission(DropOnClosed) else Executing(Marking)
                 case DropOnClosed => Admission(FinishOnClosed)
                 case FinishOnClosed => Ending(Releasing);
    hide Admit;
  }

  lemma AdmitRow(s: State, x: Session, c: Choice)
    requires RowAgrees(x) && x.pc.Admission?
    ensures RowAgrees(Admit(s, x, x.pc.admit, c))
  {
    match x.pc.admit
    case FinishOnCtx =>
    case FinishOnClosed =>
    case _ =>
  }

  lemma ExecuteStays(s: State, x: Session, c: Choice)
    requires x.pc.Executing?
    ensures
      var pc := Execute(s, x, x.pc.exec, c).pc;
      pc.Executing? || pc == Replying(Resolving) || Finishes(pc) || pc == Ending(Unwinding)
  {
    match x.pc.exec { case Marking => case MarkFailed => case Prompting => case InRunner => case _ => }
  }

  lemma ExecuteFollows(s: State, x: Session, c: Choice)
    requires x.pc.Executing?
    ensures Follows(s, x, c, Execute(s, x, x.pc.exec, c).pc)
  {
    ExecuteStays(s, x, c);
    hide Execute;
  }

  lemma ExecuteRow(s: State, x: Session, c: Choice)
    requires RowAgrees(x) && x.pc.Executing?
    ensures RowAgrees(Execute(s, x, x.pc.exec, c))
  {
    match x.pc.exec
    case Marking =>
    case MarkFailed =>
    case Prompting =>
    case _ =>
  }

  lemma EndFollows(s: State, x: Session, c: Choice)
    requires x.pc.Ending? && Live(x.pc)
    ensures Follows(s, x, c, End(x, x.pc.end).pc)
  {
    assert End(x, x.pc.end).pc.Ending?;
  }

  lemma EndRow(x: Session)
    requires RowAgrees(x) && x.pc.Ending?
    ensures RowAgrees(End(x, x.pc.end))
  {
    match x.pc.end
    case Finishing(_) =>
    case _ =>
  }

  /** A step of resolveReply stays in resolveReply or decides how to finish. */
  lemma ResolveStays(s: State, x: Session, c: Choice)
    requires x.pc.Replying?
    ensures
      var pc := Resolve(s, x, x.pc.reply, c).pc;
      pc.Replying? || (Finishes(pc) && Terminal(pc.end.outcome))
  {
    hide AgentPosts, CtxCancelled, SaysNothing, Reply;
    match x.pc.reply
    case Resolving =>
    case Polling(_) =>
    case Checking(_, _) =>
    case Polled(_, _) =>
    case Posting =>
    case Appending =>
    case Linking(_) =>
  }

  /** It leaves the rest of the row alone. */
  lemma ResolveFrame(s: State, x: Session, c: Choice)
    requires x.pc.Replying?
    ensures
      var y := Resolve(s, x, x.pc.reply, c);
      y == x.(pc := y.pc, reply := y.reply, polledAt := y.polledAt, linkFailed := y.linkFailed)
  {
    hide AgentPosts, CtxCancelled, SaysNothing, Reply;
    match x.pc.reply
    case Resolving =>
    case Polling(_) =>
    case Checking(_, _) =>
    case Polled(_, _) =>
    case Posting =>
    case Appending =>
    case Linking(_) =>
  }

  lemma ResolveStep(s: State, x: Session, c: Choice)
    requires RowAgrees(x) && x.pc.Replying?
    ensures Follows(s, x, c, Resolve(s, x, x.pc.reply, c).pc)
    ensures RowAgrees(Resolve(s, x, x.pc.reply, c))
  {
    hide AgentPosts;
    var y := Resolve(s, x, x.pc.reply, c);
    ResolveStays(s, x, c);
    ResolveFrame(s, x, c);
    assert y.pc.Replying? && (y.pc.reply.Polling? || y.pc.reply.Checking?) ==> y.pc.reply.polls <= GRACE_POLLS;
    hide Resolve;
  }

  lemma MovedStep(s: State, x: Session, c: Choice)
    requires RowAgrees(x) && Live(x.pc)
    ensures Follows(s, x, c, Moved(s, x, c).pc)
    ensures RowAgrees(Moved(s, x, c))
  {
    hide Admit, Execute, Resolve, End, RowAgrees, Follows;
    match x.pc
    case Admission(_) => AdmitFollows(s, x, c); AdmitRow(s, x, c);
    case Executing(_) => ExecuteFollows(s, x, c); ExecuteRow(s, x, c);
    case Replying(_) => ResolveStep(s, x, c);
    case Ending(_) => EndFollows(s, x, c); EndRow(x);
  }

  lemma DispatchScheduled(s: State, id: nat, c: Choice)
    requires CanDispatch(s, id, c) && RowAgrees(s.sessions[id]) && Scheduled(s, id)
    requires s.ctxDone ==> s.closed
    ensures Scheduled(Dispatched(s, id, c), id)
  {
    MovedStep(s, s.sessions[id], c);
    hide Moved, RowAgrees;
  }

  lemma AppendReply(s: State, x: Session, id: nat)
    requires RowAgrees(x) && ReplyAgrees(s.posts, x, id) && x.pc == Replying(Appending)
    ensures ReplyAgrees(s.posts + [ReplyOf(x, id)], x.(pc := Replying(Linking(|s.posts| + 1))), id)
  {
    if x.polledAt <= |s.posts| {
      assert (s.posts + [ReplyOf(x, id)])[..x.polledAt] == s.posts[..x.polledAt];
    }
    hide AgentPosts, PostsBy;
  }

  lemma ResolvedReply(s: State, x: Session, id: nat, c: Choice)
    requires RowAgrees(x) && ReplyAgrees(s.posts, x, id) && x.pc.Replying?
    requires x.pc.reply.Appending? ==> c.fail
    ensures ReplyAgrees(s.posts, Resolve(s, x, x.pc.reply, c), id)
  {
    assert s.posts[..|s.posts|] == s.posts;
    ResolveFrame(s, x, c);
    hide AgentPosts, PostsBy, CtxCancelled, SaysNothing, Reply, RowAgrees;
    match x.pc.reply
    case Resolving =>
    case Polling(_) =>
    case Checking(_, _) =>
    case Polled(_, _) =>
    case Posting =>
    case Appending =>
    case Linking(_) =>
  }

  /** Outside resolveReply a step leaves the reply and the session's identity alone. */
  predicate Keeps(x: Session, y: Session) {
    && y == x.(pc := y.pc, status := y.status, output := y.output, marked := y.marked, runs := y.runs,
               finishedQueued := y.finishedQueued)
    && (x.pc != Executing(InRunner) ==> y.output == x.output)
    && (x.runs == 1 ==> y.runs == 1 || x.pc == Executing(Prompting)) && (x.pc.Ending? ==> y.pc.Ending?)
    && (y.pc.Replying? ==> y.pc.reply.Resolving?)
  }

  lemma AdmitKeeps(s: State, x: Session, c: Choice)
    requires x.pc.Admission?
    ensures Keeps(x, Admit(s, x, x.pc.admit, c))
  {
    match x.pc.admit
    case Selecting =>
    case _ =>
  }

  lemma ExecuteKeeps(s: State, x: Session, c: Choice)
    requires x.pc.Executing?
    ensures Keeps(x, Execute(s, x, x.pc.exec, c))
  {
    match x.pc.exec
    case Marking =>
    case _ =>
  }

  lemma EndKeeps(x: Session)
    requires x.pc.Ending?
    ensures Keeps(x, End(x, x.pc.end))
  {
    match x.pc.end { case Finishing(_) => case Unwinding => case Releasing => case Leaving => case Gone => }
  }

  lemma OthersStay(s: State, x: Session, c: Choice)
    requires !x.pc.Replying?
    ensures Keeps(x, Moved(s, x, c))
  {
    hide Admit, Execute, End;
    match x.pc
    case Starting(_) =>
    case Admission(_) => AdmitKeeps(s, x, c); hide Keeps;
    case Executing(_) => ExecuteKeeps(s, x, c); hide Keeps;
    case Ending(_) => EndKeeps(x); hide Keeps;
  }

  lemma OtherReply(s: State, x: Session, id: nat, c: Choice)
    requires RowAgrees(x) && ReplyAgrees(s.posts, x, id) && Live(x.pc) && !x.pc.Replying?
    ensures ReplyAgrees(s.posts, Moved(s, x, c), id)
  {
    OthersStay(s, x, c);
    hide AgentPosts, PostsBy, Moved;
  }

  lemma DispatchReply(s: State, id: nat, c: Choice)
    requires CanDispatch(s, id, c) && SessionInv(s, id)
    ensures ReplyAgrees(Dispatched(s, id, c).posts, Moved(s, s.sessions[id], c), id)
  {
    var x := s.sessions[id];
    if x.pc == Replying(Appending) && !c.fail {
      AppendReply(s, x, id);
    } else if x.pc.Replying? {
      ResolvedReply(s, x, id, c);
    } else {
      OtherReply(s, x, id, c);
    }
    hide ReplyAgrees, RowAgrees;
  }

  /** What a dispatch step leaves alone. */
  lemma DispatchFrame(s: State, id: nat, c: Choice)
    requires CanDispatch(s, id, c)
    ensures
      var s', x := Dispatched(s, id, c), s.sessions[id];
      && s'.sessions == s.sessions[id := Moved(s, x, c)]
      && (forall other: nat | other != id ::
            (other in s'.queued <==> other in s.queued) && (other in s'.running <==> other in s.running))
      && s'.queued <= s.queued && s'.running <= s.running + {id}
      && s'.closed == s.closed && s'.ctxDone == s.ctxDone && s'.shutdown == s.shutdown
      && s'.cancels == s.cancels
      && (s'.posts == s.posts || s'.posts == s.posts + [ReplyOf(x, id)])
  {
    hide Moved;
  }

  lemma OwnFrame(s: State, id: nat, c: Choice)
    requires CanDispatch(s, id, c)
    ensures
      var s' := Apply(s, Dispatch(id, c));
      |s'.sessions| == |s.sessions| && s'.sessions[id] == Moved(s, s.sessions[id], c)
  {
    DispatchFrame(s, id, c);
    hide Dispatched, Moved;
  }

  lemma MovedKeepsKey(s: State, x: Session, c: Choice)
    ensures Moved(s, x, c).trigger == x.trigger && Moved(s, x, c).agent == x.agent
  {
    if x.pc.Replying? {
      ResolveFrame(s, x, c);
      hide Resolve;
    } else {
      OthersStay(s, x, c);
      hide Moved;
    }
  }

  /** The semaphore and the WaitGroup move with the goroutine's position. */
  lemma DispatchCounts(s: State, id: nat, c: Choice)
    requires CanDispatch(s, id, c) && Counted(s) && RowAgrees(s.sessions[id])
    ensures Counted(Dispatched(s, id, c))
  {
    var x := s.sessions[id];
    MovedStep(s, x, c);
    SumUpdate(s.sessions, id, Moved(s, x, c), LiveWeight);
    SumUpdate(s.sessions, id, Moved(s, x, c), SlotWeight);
    hide Moved, Sum, RowAgrees;
  }

  lemma DispatchKeepsInv(s: State, id: nat, c: Choice)
    requires Inv(s) && CanDispatch(s, id, c)
    ensures Inv(Dispatched(s, id, c))
  {
    var s', x := Dispatched(s, id, c), s.sessions[id];
    assert SessionInv(s, id);
    DispatchFrame(s, id, c);
    DispatchCounts(s, id, c);
    MovedStep(s, x, c);
    MovedKeepsKey(s, x, c);
    DispatchScheduled(s, id, c);
    DispatchReply(s, id, c);
    hide Dispatched, Moved, RowAgrees, ReplyAgrees, Counted, PostsBy;
    forall other | 0 <= other < |s'.sessions|
      ensures SessionInv(s', other)
    {
      assert SessionInv(s, other);
      if other != id {
        ReplySurvives(s.posts, ReplyOf(x, id), s.sessions[other], other);
      }
    }
    forall other | |s'.sessions| <= other
      ensures PostsBy(s'.posts, other) == 0
    {
    }
  }

  // ----- the other steps

  /** A step that rewrites session `id` and keeps it in order keeps everything in order. */
  lemma RewriteKeepsInv(s: State, s': State, id: nat, y: Session)
    requires Inv(s) && id < |s.sessions| && s'.sessions == s.sessions[id := y]
    requires s'.posts == s.posts && s'.running == s.running && s'.closed == s.closed && s'.ctxDone == s.ctxDone
    requires forall other: nat | other != id :: other in s'.queued <==> other in s.queued
    requires Unfinished(s'.shutdown) <= Unfinished(s.shutdown)
    requires s'.closed <==> !s'.shutdown.NotCalled?
    requires s'.ctxDone <==> s'.shutdown.FinishingQueued? || s'.shutdown.ShutDown?
    requires y.trigger == s.sessions[id].trigger && y.agent == s.sessions[id].agent
    requires SessionInv(s', id)
    requires s'.wg + LiveWeight(s.sessions[id]) == s.wg + LiveWeight(y)
    requires s'.sem == s.sem && SlotWeight(s.sessions[id]) == SlotWeight(y)
    ensures Inv(s')
  {
    SumUpdate(s.sessions, id, y, LiveWeight);
    SumUpdate(s.sessions, id, y, SlotWeight);
    hide RowAgrees, ReplyAgrees, Sum, LiveWeight, SlotWeight;
    forall other | 0 <= other < |s'.sessions|
      ensures SessionInv(s', other)
    {
      assert SessionInv(s, other);
    }
  }

  lemma NewInOrder(posts: seq<Post>, x: Session, id: nat)
    requires x == Session(x.thread, x.trigger, x.agent, x.mode, Starting(Created), Queued, None, false, "", false, 0, false,
                          false, 0, false)
    requires 1 <= x.trigger <= |posts| && PostsBy(posts, id) == 0
    ensures RowAgrees(x) && ReplyAgrees(posts, x, id)
  {
    hide AgentPosts, PostsBy;
  }

  lemma CreateKeepsInv(s: State, l: Label)
    requires Inv(s) && l.Create? && Enabled(s, l)
    ensures Inv(Apply(s, l))
  {
    var s', id := Apply(s, l), |s.sessions|;
    NewInOrder(s.posts, s'.sessions[id], id);
    hide RowAgrees, ReplyAgrees, Counted, PostsBy;
    forall other | 0 <= other < |s'.sessions|
      ensures SessionInv(s', other)
    {
      if other < id {
        assert SessionInv(s, other) && s'.sessions[other] == s.sessions[other];
      }
    }
  }

  lemma RegisterKeepsInv(s: State, id: nat)
    requires Inv(s) && Enabled(s, Register(id))
    ensures Inv(Registered(s, id))
  {
    var s' := Registered(s, id);
    var y := s'.sessions[id];
    assert SessionInv(s, id);
    hide PostsBy, AgentPosts, Counted;
    assert RowAgrees(y) && ReplyAgrees(s.posts, y, id) && Scheduled(s', id);
    hide RowAgrees, ReplyAgrees;
    RewriteKeepsInv(s, s', id, y);
  }

  lemma RefuseKeepsInv(s: State, id: nat)
    requires Inv(s) && Enabled(s, Refuse(id))
    ensures Inv(Apply(s, Refuse(id)))
  {
    var s' := Apply(s, Refuse(id));
    var y := s'.sessions[id];
    assert SessionInv(s, id);
    hide PostsBy, AgentPosts, Counted;
    assert RowAgrees(y) && ReplyAgrees(s.posts, y, id) && Scheduled(s', id);
    hide RowAgrees, ReplyAgrees;
    RewriteKeepsInv(s, s', id, y);
  }

  lemma CallKeepsInv(s: State, call: nat, id: nat)
    requires Inv(s) && call < |s.cancels| && s.cancels[call] == Calling(id) && id < |s.sessions|
    ensures Inv(Canceling(s, call))
  {
    var s' := Canceling(s, call);
    var y := s'.sessions[id];
    assert SessionInv(s, id);
    hide PostsBy, AgentPosts, Counted;
    assert RowAgrees(y) && ReplyAgrees(s.posts, y, id);
    hide RowAgrees, ReplyAgrees;
    RewriteKeepsInv(s, s', id, y);
  }

  lemma WriteKeepsInv(s: State, call: nat, id: nat)
    requires Inv(s) && call < |s.cancels| && s.cancels[call] == Writing(id) && id < |s.sessions|
    ensures Inv(Canceling(s, call))
  {
    var s' := Canceling(s, call);
    assert SessionInv(s, id);
    hide RowAgrees, ReplyAgrees, Counted;
    RewriteKeepsInv(s, s', id, s'.sessions[id]);
  }

  lemma CancelKeepsInv(s: State, call: nat)
    requires Inv(s) && Enabled(s, CancelStep(call))
    ensures Inv(Canceling(s, call))
  {
    var s', pc := Canceling(s, call), s.cancels[call];
    if pc.Calling? && pc.id < |s.sessions| {
      CallKeepsInv(s, call, pc.id);
    } else if pc.Writing? && pc.id < |s.sessions| {
      WriteKeepsInv(s, call, pc.id);
    } else {
      assert s' == s.(cancels := s'.cancels);
      hide RowAgrees, ReplyAgrees, Sum, Canceling;
      forall other | 0 <= other < |s'.sessions|
        ensures SessionInv(s', other)
      {
        assert SessionInv(s, other);
      }
    }
  }

  /** What a step that is not of its own goroutine makes of a session. */
  function Stepped(s: State, l: Label, id: nat): Session
    requires id < |s.sessions|
  {
    var x := s.sessions[id];
    match l
    case Register(i) =>
      if i != id then x else x.(pc := if s.closed then Starting(Refused) else Admission(Selecting))
    case Refuse(i) => if i != id then x else Finish(x, Canceled).(pc := Starting(Abandoned))
    case CancelStep(call) =>
      if call < |s.cancels| && s.cancels[call] == Calling(id) then x.(cancelled := true)
      else if call < |s.cancels| && s.cancels[call] == Writing(id) then Finish(x, Canceled).(byCancel := true)
      else x
    case ShutdownFinish(i) => if i != id then x else Finish(x, Canceled)
    case Restart => Reconciled(x)
    case _ => x
  }

  lemma StepFrame(s: State, l: Label, id: nat)
    requires Enabled(s, l) && id < |s.sessions| && (l.Dispatch? ==> l.id != id)
    ensures id < |Apply(s, l).sessions| && Apply(s, l).sessions[id] == Stepped(s, l, id)
  {
    match l
    case Dispatch(i, c) =>
      DispatchFrame(s, i, c);
      hide Dispatched;
    case CancelStep(call) =>
      hide Canceling, Finish;
    case _ =>
      hide Dispatched, Canceling, Finish, Reconciled;
  }

  lemma SessionsStay(s: State, l: Label)
    requires Enabled(s, l)
    ensures |s.sessions| <= |Apply(s, l).sessions|
  {
    hide Finish, Moved, Reconciled;
  }

  lemma NewIsFresh(s: State, l: Label, id: nat)
    requires Enabled(s, l) && |s.sessions| <= id < |Apply(s, l).sessions|
    ensures
      var y := Apply(s, l).sessions[id];
      y.pc == Starting(Created) && y.status.Queued? && y.reply.None?
  {
    hide Finish, Moved;
  }

  lemma ShutdownKeepsInv(s: State, l: Label)
    requires Inv(s) && Enabled(s, l)
    requires l.ShutdownClose? || l.ShutdownCancel? || l.ShutdownReturn? || l.CancelCall?
    ensures Inv(Apply(s, l))
  {
    var s' := Apply(s, l);
    hide RowAgrees, ReplyAgrees, Sum;
    forall other | 0 <= other < |s'.sessions|
      ensures SessionInv(s', other)
    {
      assert SessionInv(s, other);
    }
  }

  lemma ShutdownFinishKeepsInv(s: State, id: nat)
    requires Inv(s) && Enabled(s, ShutdownFinish(id))
    ensures Inv(Apply(s, ShutdownFinish(id)))
  {
    var s' := Apply(s, ShutdownFinish(id));
    assert SessionInv(s, id);
    assert Finish(s.sessions[id], Canceled).(byCancel := s.sessions[id].byCancel) == s'.sessions[id];
    hide RowAgrees, ReplyAgrees, Counted;
    RewriteKeepsInv(s, s', id, s'.sessions[id]);
  }

  lemma AppendKeepsInv(s: State, p: Post)
    requires Inv(s) && p.writer.None?
    ensures Inv(Apply(s, Append(p)))
  {
    var s' := Apply(s, Append(p));
    hide RowAgrees, ReplyAgrees, Counted, PostsBy;
    forall other | 0 <= other < |s'.sessions|
      ensures SessionInv(s', other)
    {
      assert SessionInv(s, other);
      ReplySurvives(s.posts, p, s.sessions[other], other);
    }
    forall other | |s'.sessions| <= other
      ensures PostsBy(s'.posts, other) == 0
    {
    }
  }

  lemma ReconciledInOrder(x: Session, posts: seq<Post>, id: nat)
    requires RowAgrees(x) && ReplyAgrees(posts, x, id)
    ensures RowAgrees(Reconciled(x)) && ReplyAgrees(posts, Reconciled(x), id)
  {
    hide AgentPosts, PostsBy;
  }

  lemma RestartCounts(s: State)
    ensures Counted(Restarted(s))
  {
    var s' := Restarted(s);
    assert forall other: nat | other < |s.sessions| :: s'.sessions[other].pc == Ending(Gone);
    SumOfZeros(s'.sessions, LiveWeight);
    SumOfZeros(s'.sessions, SlotWeight);
  }

  lemma RestartKeepsInv(s: State)
    requires Inv(s)
    ensures Inv(Restarted(s))
  {
    var s' := Restarted(s);
    RestartCounts(s);
    hide RowAgrees, ReplyAgrees, Sum, PostsBy, Counted;
    forall other | 0 <= other < |s'.sessions|
      ensures SessionInv(s', other)
    {
      assert SessionInv(s, other);
      ReconciledInOrder(s.sessions[other], s.posts, other);
    }
  }

  lemma StepKeepsInv(s: State, l: Label)
    requires Inv(s) && Enabled(s, l)
    ensures Inv(Apply(s, l))
  {
    hide Inv;
    match l
    case Create(_, _, _, _) => CreateKeepsInv(s, l);
    case Register(id) => RegisterKeepsInv(s, id);
    case Refuse(id) => RefuseKeepsInv(s, id);
    case Dispatch(id, c) => DispatchKeepsInv(s, id, c);
    case CancelStep(call) => CancelKeepsInv(s, call);
    case ShutdownFinish(id) => ShutdownFinishKeepsInv(s, id);
    case Append(p) => AppendKeepsInv(s, p);
    case Restart => RestartKeepsInv(s);
    case _ => ShutdownKeepsInv(s, l);
  }

  // ----- whole runs

  lemma {:induction false} StepsKeepInv(states: seq<State>, labels: seq<Label>)
    requires Steps(states, labels) && Inv(states[0])
    ensures Inv(states[|labels|])
    decreases |labels|
  {
    if labels != [] {
      var n := |labels| - 1;
      hide Inv, Apply, Enabled;
      assert Enabled(states[n], labels[n]) && states[n + 1] == Apply(states[n], labels[n]);
      StepsKeepInv(states[..n + 1], labels[..n]);
      StepKeepsInv(states[n], labels[n]);
    }
  }

  /** The invariant holds at the end of every run. */
  lemma RunKeepsInv(states: seq<State>, labels: seq<Label>)
    requires Run(states, labels)
    ensures Inv(states[|labels|])
  {
    InitInv(states[0]);
    StepsKeepInv(states, labels);
  }

  /** A run is a shorter run and one step more. */
  lemma RunSplits(states: seq<State>, labels: seq<Label>)
    requires Run(states, labels) && labels != []
    ensures
      var n := |labels| - 1;
      && |states| == |labels| + 1 && Run(states[..n + 1], labels[..n]) && Inv(states[n]) && Inv(states[n + 1])
      && Enabled(states[n], labels[n]) && states[n + 1] == Apply(states[n], labels[n])
  {
    hide Inv, Apply, Enabled, Init;
    var n := |labels| - 1;
    assert Enabled(states[n], labels[n]) && states[n + 1] == Apply(states[n], labels[n]);
    RunKeepsInv(states[..n + 1], labels[..n]);
    StepKeepsInv(states[n], labels[n]);
  }

  /** Steps are fewer steps and one more. */
  lemma StepsSplit(states: seq<State>, labels: seq<Label>)
    requires Steps(states, labels) && labels != []
    ensures
      var n := |labels| - 1;
      && |states| == |labels| + 1 && Steps(states[..n + 1], labels[..n])
      && Enabled(states[n], labels[n]) && states[n + 1] == Apply(states[n], labels[n])
      && states[..n + 1][0] == states[0] && states[..n + 1][n] == states[n]
  {
    hide Apply, Enabled;
    var n := |labels| - 1;
    assert Enabled(states[n], labels[n]) && states[n + 1] == Apply(states[n], labels[n]);
  }

  /** A run up to a step, the step, and what follows it. */
  lemma RunParts(states: seq<State>, labels: seq<Label>, i: nat)
    requires Run(states, labels) && i < |labels|
    ensures |states| == |labels| + 1 && Run(states[..i + 1], labels[..i]) && Steps(states[i + 1..], labels[i + 1..])
    ensures Enabled(states[i], labels[i]) && states[i + 1] == Apply(states[i], labels[i])
    ensures states[i + 1..][|labels[i + 1..]|] == states[|labels|]
  {
    hide Enabled, Apply, Init;
    assert Enabled(states[i], labels[i]) && states[i + 1] == Apply(states[i], labels[i]);
  }
}
