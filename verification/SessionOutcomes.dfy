/** What the status of a session's row says about what has happened. */
module SessionOutcomes {
  import opened SessionManager
  import opened SessionInvariant

  predicate Succeeds(x: Session) {
    x.status.Succeeded? || x.pc == Ending(Finishing(Succeeded))
  }

  predicate SawPost(x: Session) {
    x.pc.Replying? && x.pc.reply.Polled? && x.pc.reply.posted
  }

  /** The row is, or is about to be, marked succeeded only after a run, and in cli mode only after the agent has posted. */
  predicate Earned(posts: seq<Post>, x: Session) {
    && (Succeeds(x) ==> x.runs == 1)
    && ((Succeeds(x) && x.mode.Cli?) || SawPost(x) ==> AgentPosts(posts, x.thread, x.agent, x.trigger) > 0)
  }

  ghost predicate AllEarned(s: State) {
    forall id | 0 <= id < |s.sessions| :: Earned(s.posts, s.sessions[id])
  }

  lemma AdmitEarns(s: State, x: Session, c: Choice)
    requires Earned(s.posts, x) && x.pc.Admission?
    ensures Earned(s.posts, Admit(s, x, x.pc.admit, c))
  {
    hide AgentPosts;
    match x.pc.admit { case Selecting => case DropOnCtx => case FinishOnCtx => case Admitting => case _ => }
  }

  lemma ExecuteEarns(s: State, x: Session, c: Choice)
    requires Earned(s.posts, x) && RowAgrees(x) && x.pc.Executing?
    ensures Earned(s.posts, Execute(s, x, x.pc.exec, c))
  {
    hide AgentPosts, CtxCancelled;
    match x.pc.exec { case Marking => case MarkFailed => case Prompting => case InRunner => case _ => }
  }

  lemma ResolveEarns(s: State, x: Session, id: nat, c: Choice)
    requires Earned(s.posts, x) && RowAgrees(x) && x.pc.Replying? && ReplyAgrees(s.posts, x, id)
    ensures Earned(s.posts, Resolve(s, x, x.pc.reply, c))
  {
    hide AgentPosts, PostsBy, CtxCancelled, SaysNothing, Reply;
    match x.pc.reply
    case Resolving =>
    case Polling(_) =>
    case Checking(_, _) =>
    case Polled(_, _) =>
    case Posting =>
    case Appending =>
    case Linking(_) =>
  }

  lemma EndEarns(posts: seq<Post>, x: Session)
    requires Earned(posts, x) && RowAgrees(x) && x.pc.Ending?
    ensures Earned(posts, End(x, x.pc.end))
  {
    hide AgentPosts;
    match x.pc.end
    case Finishing(_) =>
    case _ =>
  }

  lemma MovedEarns(s: State, x: Session, id: nat, c: Choice)
    requires Earned(s.posts, x) && RowAgrees(x) && ReplyAgrees(s.posts, x, id) && Live(x.pc)
    ensures Earned(s.posts, Moved(s, x, c))
  {
    hide Earned, RowAgrees, ReplyAgrees, Admit, Execute, Resolve, End;
    match x.pc
    case Admission(_) => AdmitEarns(s, x, c);
    case Executing(_) => ExecuteEarns(s, x, c);
    case Replying(_) => ResolveEarns(s, x, id, c);
    case Ending(_) => EndEarns(s.posts, x);
  }

  lemma DispatchEarns(s: State, id: nat, c: Choice)
    requires Inv(s) && AllEarned(s) && CanDispatch(s, id, c)
    ensures AllEarned(Dispatched(s, id, c))
  {
    var s' := Dispatched(s, id, c);
    assert SessionInv(s, id) && Earned(s.posts, s.sessions[id]);
    MovedEarns(s, s.sessions[id], id, c);
    DispatchFrame(s, id, c);
    hide Inv, Earned, Moved, Dispatched;
    forall other | 0 <= other < |s'.sessions|
      ensures Earned(s'.posts, s'.sessions[other])
    {
      assert Earned(s.posts, s'.sessions[other]);
    }
  }

  /** What other calls do to a session: they may finish its row, but not as succeeded. */
  predicate Harmless(x: Session, y: Session) {
    && y.thread == x.thread && y.trigger == x.trigger && y.agent == x.agent && y.mode == x.mode && y.runs == x.runs
    && (Succeeds(y) ==> Succeeds(x)) && (SawPost(y) ==> SawPost(x))
  }

  lemma OthersAreHarmless(s: State, l: Label, id: nat)
    requires Enabled(s, l) && !l.Dispatch? && id < |s.sessions|
    ensures id < |Apply(s, l).sessions| && Harmless(s.sessions[id], Apply(s, l).sessions[id])
  {
    StepFrame(s, l, id);
    hide Apply, Enabled;
    match l {
      case Register(_) => case Refuse(_) => case CancelStep(_) => case ShutdownFinish(_) => case Restart => case _ =>
    }
  }

  lemma OthersEarn(s: State, l: Label)
    requires AllEarned(s) && Enabled(s, l) && !l.Dispatch?
    ensures AllEarned(Apply(s, l))
  {
    var s' := Apply(s, l);
    hide Enabled, Earned, Dispatched, Finish, Canceling, Registered;
    forall id | 0 <= id < |s'.sessions|
      ensures Earned(s'.posts, s'.sessions[id])
    {
      if id < |s.sessions| {
        OthersAreHarmless(s, l, id);
        match l {
          case Append(post) =>
          case _ =>
        }
      } else {
      }
    }
  }

  lemma StepEarns(s: State, l: Label)
    requires Inv(s) && AllEarned(s) && Enabled(s, l)
    ensures AllEarned(Apply(s, l))
  {
    hide Inv, AllEarned, Dispatched;
    match l
    case Dispatch(id, c) => DispatchEarns(s, id, c);
    case _ => OthersEarn(s, l);
  }

  lemma {:induction false} RunEarns(states: seq<State>, labels: seq<Label>)
    requires Run(states, labels)
    ensures AllEarned(states[|labels|])
    decreases |labels|
  {
    if labels != [] {
      var n := |labels| - 1;
      hide Inv, AllEarned, Apply, Enabled, Init;
      RunKeepsInv(states[..n + 1], labels[..n]);
      RunEarns(states[..n + 1], labels[..n]);
      StepEarns(states[n], labels[n]);
    }
  }

  /**
   In every reachable state a session marked succeeded has been run, once; and if its
   agent was to reply by itself, the agent has posted in the thread after the trigger.
   */
  lemma SuccessIsEarned(states: seq<State>, labels: seq<Label>, id: nat)
    requires Run(states, labels) && id < |states[|labels|].sessions|
    requires states[|labels|].sessions[id].status.Succeeded?
    ensures
      var s, x := states[|labels|], states[|labels|].sessions[id];
      x.runs == 1 && (x.mode.Cli? ==> AgentPosts(s.posts, x.thread, x.agent, x.trigger) > 0)
  {
    RunEarns(states, labels);
    assert Earned(states[|labels|].posts, states[|labels|].sessions[id]);
  }
}
