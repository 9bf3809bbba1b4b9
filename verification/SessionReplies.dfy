/** What a session's reply says about the steps that led to it, in every run. */
module SessionReplies {
  import opened SessionManager
  import opened SessionInvariant
  import opened Wrappers

  // ----- the steps that matter

  /** The session's goroutine asks for its agent's messages. */
  predicate Polls(s: State, l: Label, id: nat) {
    l.Dispatch? && l.id == id && id < |s.sessions| && s.sessions[id].pc.Replying? && s.sessions[id].pc.reply.Polling?
  }

  /** It asks, is answered, and there is none after the trigger. */
  predicate PollsNone(s: State, l: Label, id: nat) {
    && Polls(s, l, id) && !l.choice.fail
    && var x := s.sessions[id];
       1 <= x.trigger <= |s.posts| && AgentPosts(s.posts, x.thread, x.agent, x.trigger) == 0
  }

  /** It appends the daemon's reply. */
  predicate WritesReply(s: State, l: Label, id: nat) {
    && l.Dispatch? && l.id == id && id < |s.sessions| && s.sessions[id].pc == Replying(Appending) && !l.choice.fail
  }

  /** The reply is written and its row is not told: SetSessionReply fails, or the daemon stops dead before it. */
  predicate LosesLink(s: State, l: Label, id: nat) {
    id < |s.sessions| && Links(s.sessions[id].pc) && (l.Restart? || (l.Dispatch? && l.id == id && l.choice.fail))
  }

  /** The agent has written in the thread after the trigger. */
  ghost predicate HasPosted(posts: seq<Post>, x: Session) {
    exists i | x.trigger <= i < |posts| ::
      posts[i].thread == x.thread && posts[i].name == x.agent && posts[i].agent
  }

  /** What the count of the agent's messages is asked for. */
  lemma {:induction false} HasPostedIff(posts: seq<Post>, x: Session)
    ensures AgentPosts(posts, x.thread, x.agent, x.trigger) > 0 <==> HasPosted(posts, x)
    decreases |posts|
  {
    if posts != [] {
      var n := |posts| - 1;
      HasPostedIff(posts[..n], x);
      if HasPosted(posts, x) {
        var i :| x.trigger <= i < |posts| && posts[i].thread == x.thread && posts[i].name == x.agent && posts[i].agent;
        assert i < n ==> posts[..n][i] == posts[i];
      }
      if HasPosted(posts[..n], x) {
        var i :| x.trigger <= i < n && posts[..n][i].thread == x.thread && posts[..n][i].name == x.agent && posts[..n][i].agent;
        assert posts[i] == posts[..n][i];
      }
    }
  }

  // ----- what one step can do

  /** A session is of one thread, trigger, agent and mode for good. */
  predicate SameSession(x: Session, y: Session) {
    y.thread == x.thread && y.trigger == x.trigger && y.agent == x.agent && y.mode == x.mode
  }

  lemma MovedIsSame(s: State, x: Session, c: Choice)
    ensures SameSession(x, Moved(s, x, c))
  {
    if x.pc.Replying? {
      ResolveFrame(s, x, c);
      hide Resolve;
    } else {
      OthersStay(s, x, c);
      hide Moved;
    }
  }

  /** A step of another goroutine or call moves this one's reply nowhere, unless it is a restart. */
  lemma OthersLeaveReply(s: State, l: Label, id: nat)
    requires Enabled(s, l) && id < |s.sessions| && (l.Dispatch? ==> l.id != id)
    ensures
      id < |Apply(s, l).sessions|
      && var x, y := s.sessions[id], Apply(s, l).sessions[id];
         && SameSession(x, y)
         && (l.Restart? ==> y.pc == Ending(Gone) && (y.linkFailed <==> x.linkFailed || Links(x.pc)))
         && (!l.Restart? ==> (x.pc.Replying? ==> y.pc == x.pc) && (y.pc.Replying? ==> y.pc == x.pc))
         && (!l.Restart? ==> y.linkFailed == x.linkFailed)
  {
    StepFrame(s, l, id);
    hide Apply;
  }

  lemma IdentityStays(s: State, l: Label, id: nat)
    requires Enabled(s, l) && id < |s.sessions|
    ensures id < |Apply(s, l).sessions| && SameSession(s.sessions[id], Apply(s, l).sessions[id])
  {
    if l.Dispatch? && l.id == id {
      MovedIsSame(s, s.sessions[id], l.choice);
      DispatchFrame(s, id, l.choice);
      hide Dispatched, Moved;
    } else {
      OthersLeaveReply(s, l, id);
      hide Apply;
    }
  }

  // ----- the last poll

  /** On the way from a poll that found nothing to the reply. */
  predicate Cleared(pc: Pc) {
    pc.Replying? && match pc.reply
                    case Checking(_, erred) => !erred
                    case Polled(posted, erred) => !posted && !erred
                    case Posting => true
                    case Appending => true
                    case _ => false
  }

  lemma ResolveClears(s: State, x: Session, c: Choice)
    requires x.pc.Replying? && x.mode.Auto? && Cleared(Resolve(s, x, x.pc.reply, c).pc)
    ensures
      if x.pc.reply.Polling? then !c.fail && AgentPosts(s.posts, x.thread, x.agent, x.trigger) == 0 else Cleared(x.pc)
  {
    hide AgentPosts, CtxCancelled, SaysNothing, Reply;
    match x.pc.reply
    case Resolving =>
    case Polling(_) =>
    case Checking(_, _) =>
    case Polled(_, _) =>
    case Posting =>
    case Appending =>
    case Linking(_) =>
  }

  lemma MovedClears(s: State, x: Session, id: nat, c: Choice)
    requires RowAgrees(x) && ReplyAgrees(s.posts, x, id) && x.mode.Auto? && Cleared(Moved(s, x, c).pc)
    ensures x.pc.Replying?
    ensures
      if x.pc.reply.Polling?
      then !c.fail && 1 <= x.trigger <= |s.posts| && AgentPosts(s.posts, x.thread, x.agent, x.trigger) == 0
      else Cleared(x.pc)
  {
    hide RowAgrees, AgentPosts, PostsBy, Resolve;
    if x.pc.Replying? {
      ResolveClears(s, x, c);
    } else {
      OthersStay(s, x, c);
      hide Moved;
    }
  }

  lemma OwnStepClears(s: State, id: nat, c: Choice)
    requires Inv(s) && CanDispatch(s, id, c) && s.sessions[id].mode.Auto?
    requires Cleared(Dispatched(s, id, c).sessions[id].pc)
    ensures
      var l := Dispatch(id, c);
      PollsNone(s, l, id) || (!Polls(s, l, id) && Cleared(s.sessions[id].pc))
  {
    assert SessionInv(s, id);
    DispatchFrame(s, id, c);
    hide Dispatched, Inv, Moved, Cleared, RowAgrees, ReplyAgrees, AgentPosts;
    MovedClears(s, s.sessions[id], id, c);
  }

  /** A session is cleared by a poll that finds nothing, and stays so by no other way. */
  lemma ClearedBy(s: State, l: Label, id: nat)
    requires Inv(s) && Enabled(s, l) && id < |Apply(s, l).sessions|
    requires Apply(s, l).sessions[id].mode.Auto? && Cleared(Apply(s, l).sessions[id].pc)
    ensures id < |s.sessions| && s.sessions[id].mode.Auto?
    ensures PollsNone(s, l, id) || (!Polls(s, l, id) && Cleared(s.sessions[id].pc))
  {
    if id >= |s.sessions| {
    } else {
      IdentityStays(s, l, id);
      if l.Dispatch? && l.id == id {
        OwnStepClears(s, id, l.choice);
      } else {
        OthersLeaveReply(s, l, id);
      }
    }
    hide Inv, Apply, Enabled;
  }

  /** Whoever is on the way to a reply in auto mode has polled, found nothing, and not polled since. */
  lemma {:induction false} LastPoll(states: seq<State>, labels: seq<Label>, id: nat) returns (j: nat)
    requires Run(states, labels) && id < |states[|labels|].sessions|
    requires states[|labels|].sessions[id].mode.Auto? && Cleared(states[|labels|].sessions[id].pc)
    ensures j < |labels| && PollsNone(states[j], labels[j], id)
    ensures forall k | j < k < |labels| :: !Polls(states[k], labels[k], id)
    decreases |labels|
  {
    hide *;
    if labels == [] {
      RunStarts(states, labels);
    }
    var n := |labels| - 1;
    RunSplits(states, labels);
    ClearedBy(states[n], labels[n], id);
    if PollsNone(states[n], labels[n], id) {
      j := n;
    } else {
      j := LastPoll(states[..n + 1], labels[..n], id);
    }
  }

  lemma RunStarts(states: seq<State>, labels: seq<Label>)
    requires Run(states, labels) && labels == []
    ensures states[|labels|].sessions == []
  {
  }

  // ----- the reply was written by a step

  lemma OnlyRepliesCount(s: State, l: Label, id: nat)
    requires Enabled(s, l) && PostsBy(Apply(s, l).posts, id) != PostsBy(s.posts, id)
    ensures WritesReply(s, l, id)
  {
    match l
    case Dispatch(other, c) =>
      hide Moved;
      hide PostsBy;
    case Append(post) =>
    case CancelStep(call) =>
      hide PostsBy, Finish;
    case _ =>
      hide PostsBy, Dispatched, Canceling;
  }

  lemma {:induction false} ReplyWasWritten(states: seq<State>, labels: seq<Label>, id: nat) returns (i: nat)
    requires Run(states, labels) && PostsBy(states[|labels|].posts, id) > 0
    ensures i < |labels| && WritesReply(states[i], labels[i], id)
    decreases |labels|
  {
    hide *;
    if labels == [] {
      NothingWritten(states, labels, id);
    }
    var n := |labels| - 1;
    RunSplits(states, labels);
    if PostsBy(states[n].posts, id) == PostsBy(states[n + 1].posts, id) {
      i := ReplyWasWritten(states[..n + 1], labels[..n], id);
    } else {
      OnlyRepliesCount(states[n], labels[n], id);
      i := n;
    }
  }

  lemma NothingWritten(states: seq<State>, labels: seq<Label>, id: nat)
    requires Run(states, labels) && labels == []
    ensures PostsBy(states[|labels|].posts, id) == 0
  {
    NoReplies(states[0].posts, id);
    hide PostsBy;
  }

  // ----- the link was lost by a step

  lemma LinkStep(s: State, l: Label, id: nat)
    requires Inv(s) && Enabled(s, l) && id < |Apply(s, l).sessions|
    ensures Apply(s, l).sessions[id].linkFailed <==>
            (id < |s.sessions| && s.sessions[id].linkFailed) || LosesLink(s, l, id)
  {
    if id < |s.sessions| {
      assert SessionInv(s, id);
      if l.Dispatch? && l.id == id {
        var x := s.sessions[id];
        DispatchFrame(s, id, l.choice);
        hide Dispatched, AgentPosts, PostsBy;
        if !x.pc.Replying? {
          OthersStay(s, x, l.choice);
          hide Moved;
        } else {
          ResolveLinks(s, x, l.choice);
          hide Resolve;
        }
      } else {
        OthersLeaveReply(s, l, id);
        hide Apply;
      }
    } else {
      hide Dispatched, Canceling;
    }
  }

  lemma ResolveLinks(s: State, x: Session, c: Choice)
    requires x.pc.Replying?
    ensures Resolve(s, x, x.pc.reply, c).linkFailed <==> x.linkFailed || (x.pc.reply.Linking? && c.fail)
  {
    hide AgentPosts, CtxCancelled, SaysNothing, Reply;
    match x.pc.reply
    case Resolving =>
    case Polling(_) =>
    case Checking(_, _) =>
    case Polled(_, _) =>
    case Posting =>
    case Appending =>
    case Linking(_) =>
  }

  /** Some step of the run lost the link to the session's reply. */
  predicate LostLink(states: seq<State>, labels: seq<Label>, id: nat)
    requires |states| == |labels| + 1
  {
    exists i | 0 <= i < |labels| :: LosesLink(states[i], labels[i], id)
  }

  lemma {:induction false} LinkHistory(states: seq<State>, labels: seq<Label>, id: nat)
    requires Run(states, labels)
    ensures
      if id < |states[|labels|].sessions| then states[|labels|].sessions[id].linkFailed <==> LostLink(states, labels, id)
      else !LostLink(states, labels, id)
    decreases |labels|
  {
    if labels == [] {
      hide LosesLink;
    } else {
      hide *;
      var n := |labels| - 1;
      RunSplits(states, labels);
      LinkHistory(states[..n + 1], labels[..n], id);
      LostLinkNext(states, labels, id);
      NoSessionNoLink(states[n], labels[n], id);
      if id < |states[n].sessions| {
        IdentityStays(states[n], labels[n], id);
      }
      if id < |states[n + 1].sessions| {
        LinkStep(states[n], labels[n], id);
      }
    }
  }

  lemma NoSessionNoLink(s: State, l: Label, id: nat)
    ensures id >= |s.sessions| ==> !LosesLink(s, l, id)
  {
  }

  lemma LostLinkNext(states: seq<State>, labels: seq<Label>, id: nat)
    requires |states| == |labels| + 1 && labels != []
    ensures
      var n := |labels| - 1;
      LostLink(states, labels, id) <==> LostLink(states[..n + 1], labels[..n], id) || LosesLink(states[n], labels[n], id)
  {
    hide LosesLink;
    var n := |labels| - 1;
    var states', labels' := states[..n + 1], labels[..n];
    if LostLink(states, labels, id) {
      var i :| 0 <= i < |labels| && LosesLink(states[i], labels[i], id);
      assert i < n ==> LosesLink(states'[i], labels'[i], id);
    }
    if LostLink(states', labels', id) {
      var i :| 0 <= i < |labels'| && LosesLink(states'[i], labels'[i], id);
      assert LosesLink(states[i], labels[i], id);
    }
  }

  // ----- the theorem

  /** The reply is written by step i; in auto mode after a poll that found nothing and was the last before it. */
  ghost predicate RepliesAt(states: seq<State>, labels: seq<Label>, id: nat, i: nat)
    requires i < |labels| < |states|
  {
    && WritesReply(states[i], labels[i], id)
    && (states[i].sessions[id].mode.Auto? ==>
          exists j | 0 <= j < i ::
            && PollsNone(states[j], labels[j], id)
            && forall k | j < k < i :: !Polls(states[k], labels[k], id))
  }

  lemma ReplyWasDue(states: seq<State>, labels: seq<Label>, id: nat) returns (i: nat)
    requires Run(states, labels) && PostsBy(states[|labels|].posts, id) > 0
    ensures i < |labels| < |states| && RepliesAt(states, labels, id, i)
  {
    i := ReplyWasWritten(states, labels, id);
    hide Inv, Apply, Enabled, Init, Polls, PollsNone;
    if states[i].sessions[id].mode.Auto? {
      var j := LastPoll(states[..i + 1], labels[..i], id);
      assert PollsNone(states[j], labels[j], id);
      forall k | j < k < i
        ensures !Polls(states[k], labels[k], id)
      {
        assert !Polls(states[..i + 1][k], labels[..i][k], id);
      }
    }
  }

  /**
   What a session's reply can be, at every moment of every run: at most one message
   written by the daemon, by a step of the session's own goroutine after its one run;
   none in cli mode; in auto mode only if the goroutine has polled before, and its last
   poll found no message of the agent's own after the trigger. Once the goroutine is
   past naming it, the row names that message, a child of the trigger and later than
   it, exactly when there is one and no step lost the link.
   */
  lemma ReplyResolution(states: seq<State>, labels: seq<Label>, id: nat)
    requires Run(states, labels) && id < |states[|labels|].sessions|
    ensures
      var s := states[|labels|];
      var x := s.sessions[id];
      && PostsBy(s.posts, id) <= 1
      && (PostsBy(s.posts, id) == 1 ==>
            x.runs == 1 && !x.mode.Cli? && exists i | 0 <= i < |labels| :: RepliesAt(states, labels, id, i))
      && (x.reply.Some? ==> x.trigger < x.reply.value <= |s.posts| &&
                            s.posts[x.reply.value - 1] == Post(x.thread, x.agent, true, x.trigger, Reply(x), Some(id)))
      && (!Links(x.pc) ==> (x.reply.Some? <==> PostsBy(s.posts, id) == 1 && !LostLink(states, labels, id)))
  {
    RunKeepsInv(states, labels);
    assert SessionInv(states[|labels|], id);
    LinkHistory(states, labels, id);
    hide Inv, Apply, Enabled, Init, RepliesAt, RowAgrees, Scheduled, PostsBy, LostLink, AgentPosts;
    if PostsBy(states[|labels|].posts, id) == 1 {
      var i := ReplyWasDue(states, labels, id);
    }
    assert RowAgrees(states[|labels|].sessions[id]);
  }
}
