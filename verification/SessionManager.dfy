/**
 internal/session/manager.go as a step machine. A session is a row of
 agent_sessions together with the goroutine that drives it. A step is one section
 under the manager's mutex, one SQL statement, one channel operation, or the
 return of a foreign call; any goroutine that can move may move next. Start,
 Cancel and Shutdown may be called from anywhere, any number of times.
 */
module SessionManager {
  import opened Wrappers
  import opened Text

  const MAX_CONCURRENT_SESSIONS: nat := 4

  /** ReplyGracePeriod over ReplyGracePoll: the polls that can follow the first. */
  const GRACE_POLLS: nat := 2000 / 100

  // ----- rows and messages

  datatype Status = Queued | Running | Succeeded | Failed | Canceled

  predicate Terminal(st: Status) {
    st.Succeeded? || st.Failed? || st.Canceled?
  }

  datatype ReplyMode = Stdout | Cli | Auto

  /** A message; its id is its position in the table, from 1. `writer` is the session the daemon wrote it for. */
  datatype Post = Post(thread: nat, name: string, agent: bool, parent: nat, content: string,
                       writer: Option<nat>)

  /** CountAgentMessagesAfter: ids order a thread's messages as its seqs do. */
  function AgentPosts(posts: seq<Post>, thread: nat, name: string, trigger: nat): nat {
    if posts == [] then 0
    else
      var n := |posts| - 1;
      AgentPosts(posts[..n], thread, name, trigger)
      + if posts[n].thread == thread && posts[n].name == name && posts[n].agent && n + 1 > trigger then 1 else 0
  }

  /** How many messages the daemon wrote for session `id`. */
  function PostsBy(posts: seq<Post>, id: nat): nat {
    if posts == [] then 0
    else
      var n := |posts| - 1;
      PostsBy(posts[..n], id) + if posts[n].writer == Some(id) then 1 else 0
  }

  // ----- goroutines

  // Where the goroutine driving a session stands.

  /** Start, before the session has a goroutine of its own. */
  datatype StartPc = Created | Refused | Abandoned

  /** dispatch, up to run. */
  datatype AdmitPc = Selecting | DropOnCtx | FinishOnCtx | Admitting | DropOnClosed | FinishOnClosed

  /** run, up to resolveReply. */
  datatype ExecPc = Marking | MarkFailed | Prompting | InRunner | RunnerFailed

  /** resolveReply, agentPosted, postReply. */
  datatype ReplyPc =
    | Resolving
    | Polling(polls: nat)
    | Checking(polls: nat, erred: bool)
    | Polled(posted: bool, erred: bool)
    | Posting
    | Appending
    | Linking(message: nat)

  /** run's FinishSession, and dispatch's deferred calls. */
  datatype EndPc = Finishing(outcome: Status) | Unwinding | Releasing | Leaving | Gone

  datatype Pc =
    | Starting(start: StartPc)
    | Admission(admit: AdmitPc)
    | Executing(exec: ExecPc)
    | Replying(reply: ReplyPc)
    | Ending(end: EndPc)

  /**
   `cancelled` is the session's own run context; `output` is what its stdout events
   hold once the runner has returned. The rest, from `marked` on, is
   history: the row was set running; how often runner.Run was called; the row was
   finished while still queued; a Cancel call wrote the row; how many messages there
   were at the last poll; SetSessionReply failed.
   */
  datatype Session = Session(
    thread: nat, trigger: nat, agent: string, mode: ReplyMode,
    pc: Pc, status: Status, reply: Option<nat>, cancelled: bool, output: string,
    marked: bool, runs: nat, finishedQueued: bool, byCancel: bool, polledAt: nat, linkFailed: bool)

  /** One call of Cancel. */
  datatype CancelPc =
    | Reading(id: nat)
    | Looking(id: nat)
    | Calling(id: nat)
    | Writing(id: nat)
    | Returned

  /** The one call of Shutdown that runs; later calls do nothing. */
  datatype ShutdownPc = NotCalled | CancelingAll(snapshot: set<nat>) | FinishingQueued(left: set<nat>) | ShutDown

  datatype State = State(
    sessions: seq<Session>, posts: seq<Post>,
    queued: set<nat>, running: set<nat>, closed: bool, ctxDone: bool, sem: nat, wg: nat,
    shutdown: ShutdownPc, cancels: seq<CancelPc>)

  /** A fresh daemon over an empty session table. */
  predicate Init(s: State) {
    && s.sessions == [] && (forall i | 0 <= i < |s.posts| :: s.posts[i].writer.None?)
    && s.queued == {} && s.running == {} && !s.closed && !s.ctxDone && s.sem == 0 && s.wg == 0
    && s.shutdown == NotCalled && s.cancels == []
  }

  // ----- steps

  /** What the runner, the clock and the store decide for the goroutine that moves. */
  datatype Choice = Choice(slot: bool, fail: bool, deadline: bool, output: string)

  datatype Label =
    | Create(thread: nat, trigger: nat, agent: string, mode: ReplyMode)
    | Register(id: nat)
    | Refuse(id: nat)
    | Dispatch(id: nat, choice: Choice)
    | CancelCall(id: nat)
    | CancelStep(call: nat)
    | ShutdownClose
    | ShutdownCancel
    | ShutdownFinish(id: nat)
    | ShutdownReturn
    | Append(post: Post)
    | Restart

  /** FinishSession: the row takes a terminal status whatever it held. */
  function Finish(x: Session, st: Status): Session {
    x.(status := st, finishedQueued := x.finishedQueued || x.status.Queued?)
  }

  /** ReconcileSessions, on a row left by a daemon that is gone. */
  function Reconciled(x: Session): Session {
    (if Terminal(x.status) then x else Finish(x, Canceled)).(
    pc := Ending(Gone), linkFailed := x.linkFailed || (x.pc.Replying? && x.pc.reply.Linking?))
  }

  function Put(s: State, id: nat, x: Session): State
    requires id < |s.sessions|
  {
    s.(sessions := s.sessions[id := x])
  }

  /** ctx.Err() != nil in the run of session `x`. */
  predicate CtxCancelled(s: State, x: Session) {
    s.ctxDone || x.cancelled
  }

  predicate Fresh(s: State, trigger: nat, agent: string) {
    forall i | 0 <= i < |s.sessions| :: s.sessions[i].trigger != trigger || s.sessions[i].agent != agent
  }

  /** The goroutine between wg.Add and wg.Done. */
  predicate Live(pc: Pc) {
    !pc.Starting? && pc != Ending(Gone)
  }

  predicate CanDispatch(s: State, id: nat, c: Choice) {
    && id < |s.sessions| && Live(s.sessions[id].pc)
    && var pc := s.sessions[id].pc;
       && (pc == Admission(Selecting) ==> if c.slot then s.sem < MAX_CONCURRENT_SESSIONS else s.ctxDone)
       && (pc == Ending(Releasing) ==> s.sem > 0)           // else the receive would block
       && (pc == Ending(Leaving) ==> s.wg > 0)              // else wg.Done would panic
  }

  predicate Enabled(s: State, l: Label) {
    match l
    case Create(thread, trigger, agent, _) =>
      1 <= trigger <= |s.posts| && s.posts[trigger - 1].thread == thread && Fresh(s, trigger, agent)
    case Register(id) => id < |s.sessions| && s.sessions[id].pc == Starting(Created)
    case Refuse(id) => id < |s.sessions| && s.sessions[id].pc == Starting(Refused)
    case Dispatch(id, c) => CanDispatch(s, id, c)
    case CancelCall(_) => true
    case CancelStep(call) => call < |s.cancels| && !s.cancels[call].Returned?
    case ShutdownClose => s.shutdown.NotCalled?
    case ShutdownCancel => s.shutdown.CancelingAll?
    case ShutdownFinish(id) => s.shutdown.FinishingQueued? && id in s.shutdown.left && id < |s.sessions|
    case ShutdownReturn => s.shutdown == FinishingQueued({})
    case Append(post) => post.writer.None?
    case Restart => true
  }

  /** Start's section under the mutex. */
  function Registered(s: State, id: nat): State
    requires id < |s.sessions|
  {
    var x := s.sessions[id];
    if s.closed then Put(s, id, x.(pc := Starting(Refused)))
    else Put(s, id, x.(pc := Admission(Selecting))).(queued := s.queued + {id}, wg := s.wg + 1)
  }

  // dispatch, run and resolveReply, by what one step does to the goroutine's own session

  /** dispatch, up to run. */
  function Admit(s: State, x: Session, at: AdmitPc, c: Choice): Session {
    match at
    case Selecting => x.(pc := Admission(if c.slot then Admitting else DropOnCtx))
    case DropOnCtx => x.(pc := Admission(FinishOnCtx))
    case FinishOnCtx => Finish(x, Canceled).(pc := Ending(Leaving))
    case Admitting => x.(pc := if s.closed then Admission(DropOnClosed) else Executing(Marking))
    case DropOnClosed => x.(pc := Admission(FinishOnClosed))
    case FinishOnClosed => Finish(x, Canceled).(pc := Ending(Releasing))
  }

  /** run, up to resolveReply. */
  function Execute(s: State, x: Session, at: ExecPc, c: Choice): Session {
    match at
    case Marking =>
      if !c.fail && x.status.Queued? then x.(status := Running, marked := true, pc := Executing(Prompting))
      else x.(pc := Executing(MarkFailed))
    case MarkFailed => x.(pc := Ending(if !c.fail && !x.status.Queued? then Unwinding else Finishing(Failed)))
    case Prompting =>
      if c.fail then x.(pc := Ending(Finishing(Failed))) else x.(pc := Executing(InRunner), runs := x.runs + 1)
    case InRunner => x.(pc := if c.fail then Executing(RunnerFailed) else Replying(Resolving), output := c.output)
    case RunnerFailed => x.(pc := Ending(Finishing(if CtxCancelled(s, x) then Canceled else Failed)))
  }

  /** collectStdout, where the log can be read. */
  function Reply(x: Session): string {
    TrimSpace(x.output)
  }

  /** postReply appends no blank message. */
  predicate SaysNothing(x: Session) {
    TrimSpace(Reply(x)) == ""
  }

  /** resolveReply, agentPosted and postReply. */
  function Resolve(s: State, x: Session, at: ReplyPc, c: Choice): Session {
    match at
    case Resolving =>
      x.(pc := if CtxCancelled(s, x) then Ending(Finishing(Canceled))
      else Replying(if x.mode.Stdout? then Posting else Polling(0)))
    case Polling(k) =>
      if c.fail then x.(pc := Replying(Checking(k, true)))
      else if AgentPosts(s.posts, x.thread, x.agent, x.trigger) > 0 then x.(pc := Replying(Polled(true, false)))
      else x.(pc := Replying(Checking(k, false)), polledAt := |s.posts|)
    case Checking(k, erred) =>
      x.(pc := Replying(if CtxCancelled(s, x) || c.deadline || k >= GRACE_POLLS then Polled(false, erred)
      else Polling(k + 1)))
    case Polled(posted, erred) =>
      x.(pc :=
      if CtxCancelled(s, x) then Ending(Finishing(Canceled))
      else if erred then Ending(Finishing(Failed))
      else if posted then Ending(Finishing(Succeeded))
      else if x.mode.Cli? then Ending(Finishing(Failed))
      else Replying(Posting))
    case Posting =>
      x.(pc :=
      if CtxCancelled(s, x) then Ending(Finishing(Canceled))
      else if c.fail || SaysNothing(x) then Ending(Finishing(Succeeded))     // a log that cannot be read is empty
      else Replying(Appending))
    case Appending => x.(pc := if c.fail then Ending(Finishing(Failed)) else Replying(Linking(|s.posts| + 1)))
    case Linking(message) =>
      if c.fail then x.(pc := Ending(Finishing(Failed)), linkFailed := true)
      else x.(pc := Ending(Finishing(Succeeded)), reply := Some(message))
  }

  /** run's last write, and dispatch's deferred calls. */
  function End(x: Session, at: EndPc): Session {
    match at
    case Finishing(outcome) => Finish(x, outcome).(pc := Ending(Unwinding))
    case Unwinding => x.(pc := Ending(Releasing))
    case Releasing => x.(pc := Ending(Leaving))
    case Leaving => x.(pc := Ending(Gone))
    case Gone => x
  }

  function Moved(s: State, x: Session, c: Choice): Session {
    match x.pc
    case Starting(_) => x
    case Admission(at) => Admit(s, x, at, c)
    case Executing(at) => Execute(s, x, at, c)
    case Replying(at) => Resolve(s, x, at, c)
    case Ending(at) => End(x, at)
  }

  /** One step of the goroutine of session `id`, and what it does to the state it shares. */
  function Dispatched(s: State, id: nat, c: Choice): State
    requires CanDispatch(s, id, c)
  {
    var x := s.sessions[id];
    var admitted := x.pc == Admission(Admitting) && !s.closed;
    var dropped := x.pc == Admission(DropOnCtx) || x.pc == Admission(DropOnClosed);
    Put(s, id, Moved(s, x, c)).(
    queued := if admitted || dropped then s.queued - {id} else s.queued,
    running := if admitted then s.running + {id} else if x.pc == Ending(Unwinding) then s.running - {id} else s.running,
    sem := if x.pc == Admission(Selecting) && c.slot then s.sem + 1
    else if x.pc == Ending(Releasing) then s.sem - 1 else s.sem,
    wg := if x.pc == Ending(Leaving) then s.wg - 1 else s.wg,
    posts := if x.pc == Replying(Appending) && !c.fail then s.posts + [ReplyOf(x, id)] else s.posts)
  }

  /** The message the daemon appends on behalf of session `id`. */
  function ReplyOf(x: Session, id: nat): Post {
    Post(x.thread, x.agent, true, x.trigger, Reply(x), Some(id))
  }

  function Canceling(s: State, call: nat): State
    requires call < |s.cancels|
  {
    var pc := s.cancels[call];
    match pc
    case Reading(id) =>
      s.(cancels := s.cancels[call :=
      if id >= |s.sessions| || Terminal(s.sessions[id].status) then Returned else Looking(id)])
    case Looking(id) => s.(cancels := s.cancels[call := if id in s.running then Calling(id) else Writing(id)])
    case Calling(id) =>
      (if id < |s.sessions| then Put(s, id, s.sessions[id].(cancelled := true)) else s).(
      cancels := s.cancels[call := Returned])
    case Writing(id) =>
      (if id < |s.sessions| then Put(s, id, Finish(s.sessions[id], Canceled).(byCancel := true)) else s).(
      cancels := s.cancels[call := Returned])
    case Returned => s
  }

  /** The daemon stops dead and a new one starts over the same tables. */
  function Restarted(s: State): State {
    State(seq(|s.sessions|, i requires 0 <= i < |s.sessions| => Reconciled(s.sessions[i])), s.posts,
    {}, {}, false, false, 0, 0, NotCalled, [])
  }

  function Apply(s: State, l: Label): State
    requires Enabled(s, l)
  {
    match l
    case Create(thread, trigger, agent, mode) =>
      s.(sessions := s.sessions
      + [Session(thread, trigger, agent, mode, Starting(Created), Queued, None, false, "", false, 0, false, false,
                 0, false)])
    case Register(id) => Registered(s, id)
    case Refuse(id) => Put(s, id, Finish(s.sessions[id], Canceled).(pc := Starting(Abandoned)))
    case Dispatch(id, c) => Dispatched(s, id, c)
    case CancelCall(id) => s.(cancels := s.cancels + [Reading(id)])
    case CancelStep(call) => Canceling(s, call)
    case ShutdownClose => s.(closed := true, shutdown := CancelingAll(s.queued), queued := {})
    case ShutdownCancel => s.(ctxDone := true, shutdown := FinishingQueued(s.shutdown.snapshot))
    case ShutdownFinish(id) =>
      Put(s, id, Finish(s.sessions[id], Canceled)).(shutdown := FinishingQueued(s.shutdown.left - {id}))
    case ShutdownReturn => s.(shutdown := ShutDown)
    case Append(post) => s.(posts := s.posts + [post])
    case Restart => Restarted(s)
  }

  /** `states` is a run: it starts fresh and each state follows from the one before by its label. */
  ghost predicate Run(states: seq<State>, labels: seq<Label>) {
    && |states| == |labels| + 1
    && Init(states[0])
    && Steps(states, labels)
  }

  ghost predicate Steps(states: seq<State>, labels: seq<Label>) {
    && |states| == |labels| + 1
    && forall i | 0 <= i < |labels| :: Enabled(states[i], labels[i]) && states[i + 1] == Apply(states[i], labels[i])
  }
}
