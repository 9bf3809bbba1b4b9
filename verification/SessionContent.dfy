/** What a session's reply says: the text its runner wrote to stdout. */
module SessionContent {
  import opened SessionManager
  import opened SessionInvariant
  import opened SessionReplies
  import opened Wrappers
  import opened Text
  import Limiter
  import StreamWriter
  import Transcript

  /** The runner of session `id` has returned, and its stdout events hold the choice's output. */
  predicate Returns(s: State, l: Label, id: nat) {
    l.Dispatch? && l.id == id && id < |s.sessions| && s.sessions[id].pc == Executing(InRunner)
  }

  /** The session is in resolveReply, or beyond it with a reply. */
  predicate Heard(x: Session) {
    x.pc.Replying? || x.reply.Some?
  }

  lemma ExecuteHears(s: State, x: Session, c: Choice)
    requires x.pc.Executing?
    ensures
      var y := Execute(s, x, x.pc.exec, c);
      if x.pc.exec.InRunner? then y.output == c.output else !y.pc.Replying?
  {
    match x.pc.exec { case Marking => case MarkFailed => case Prompting => case InRunner => case RunnerFailed => }
  }

  /** A session is in resolveReply because its runner returned, and has a reply because it was there. */
  lemma MovedHears(s: State, x: Session, c: Choice)
    requires Heard(Moved(s, x, c))
    ensures
      var y := Moved(s, x, c);
      if x.pc == Executing(InRunner) then y.output == c.output else Heard(x) && y.output == x.output
  {
    if x.pc.Replying? {
      ResolveFrame(s, x, c);
    } else {
      OthersStay(s, x, c);
      if x.pc.Executing? {
        ExecuteHears(s, x, c);
      }
    }
    hide Admit, Execute, Resolve;
  }

  /** A step of another goroutine or call leaves what was heard. */
  lemma OthersHear(s: State, l: Label, id: nat)
    requires Enabled(s, l) && id < |s.sessions| && (l.Dispatch? ==> l.id != id)
    ensures
      && id < |Apply(s, l).sessions|
      && var x, y := s.sessions[id], Apply(s, l).sessions[id];
         y.output == x.output && (Heard(y) ==> Heard(x))
  {
    StepFrame(s, l, id);
    hide Apply;
  }

  lemma StepHears(s: State, l: Label, id: nat)
    requires Enabled(s, l) && id < |Apply(s, l).sessions| && Heard(Apply(s, l).sessions[id])
    ensures id < |s.sessions|
    ensures
      var x, y := s.sessions[id], Apply(s, l).sessions[id];
      if Returns(s, l, id) then y.output == l.choice.output else Heard(x) && y.output == x.output
  {
    hide Moved, Apply, Dispatched;
    if id >= |s.sessions| {
      NewIsFresh(s, l, id);
    } else if l.Dispatch? && l.id == id {
      OwnFrame(s, id, l.choice);
      MovedHears(s, s.sessions[id], l.choice);
    } else {
      OthersHear(s, l, id);
    }
  }

  /** What resolveReply reads is what the runner left, by the last step in which it returned. */
  lemma {:induction false} HeardFrom(states: seq<State>, labels: seq<Label>, id: nat) returns (i: nat)
    requires Run(states, labels) && id < |states[|labels|].sessions| && Heard(states[|labels|].sessions[id])
    ensures i < |labels| && Returns(states[i], labels[i], id)
    ensures states[|labels|].sessions[id].output == labels[i].choice.output
    decreases |labels|
  {
    hide *;
    if labels == [] {
      RunStarts(states, labels);
    }
    var n := |labels| - 1;
    RunSplits(states, labels);
    StepHears(states[n], labels[n], id);
    if Returns(states[n], labels[n], id) {
      i := n;
    } else {
      i := HeardFrom(states[..n + 1], labels[..n], id);
    }
  }

  // ----- and it says something

  /** On the way to a reply past the check for a blank one. */
  predicate Spoken(x: Session) {
    x.pc == Replying(Appending) || Links(x.pc) || x.reply.Some?
  }

  lemma ResolveSpeaks(s: State, x: Session, c: Choice)
    requires x.pc.Replying? && Spoken(Resolve(s, x, x.pc.reply, c))
    ensures Spoken(x) || !SaysNothing(x)
  {
    hide AgentPosts, CtxCancelled, SaysNothing, Reply;
    match x.pc.reply
    case Resolving =>
    case Polling(_) =>
    case Checking(_, _) =>
    case Polled(_, _) =>
    case Posting =>
    case _ =>
  }

  lemma MovedSpeaks(s: State, x: Session, id: nat, c: Choice)
    requires ReplyAgrees(s.posts, x, id) && (Spoken(x) ==> !SaysNothing(x)) && Spoken(Moved(s, x, c))
    ensures !SaysNothing(Moved(s, x, c))
  {
    MovedHears(s, x, c);
    if x.pc.Replying? {
      ResolveSpeaks(s, x, c);
    } else {
      OthersStay(s, x, c);
    }
    hide Moved, AgentPosts, PostsBy;
  }

  lemma StepSpeaks(s: State, l: Label, id: nat)
    requires Inv(s) && Enabled(s, l) && id < |Apply(s, l).sessions| && Spoken(Apply(s, l).sessions[id])
    requires id < |s.sessions| && Spoken(s.sessions[id]) ==> !SaysNothing(s.sessions[id])
    ensures !SaysNothing(Apply(s, l).sessions[id])
  {
    if id >= |s.sessions| {
      NewIsFresh(s, l, id);
    } else if l.Dispatch? && l.id == id {
      assert SessionInv(s, id);
      OwnFrame(s, id, l.choice);
      MovedSpeaks(s, s.sessions[id], id, l.choice);
      hide Moved, Spoken, SaysNothing;
    } else {
      StepFrame(s, l, id);
    }
    hide Inv, Apply, Enabled, ReplyAgrees;
  }

  lemma {:induction false} SpokenIsNotBlank(states: seq<State>, labels: seq<Label>, id: nat)
    requires Run(states, labels) && id < |states[|labels|].sessions| && Spoken(states[|labels|].sessions[id])
    ensures !SaysNothing(states[|labels|].sessions[id])
    decreases |labels|
  {
    hide *;
    if labels == [] {
      RunStarts(states, labels);
    }
    var n := |labels| - 1;
    RunSplits(states, labels);
    if id < |states[n].sessions| && Spoken(states[n].sessions[id]) {
      SpokenIsNotBlank(states[..n + 1], labels[..n], id);
    }
    StepSpeaks(states[n], labels[n], id);
  }

  /** The log the session's runner leaves is that of a run of the transcript machine, and of events of other kinds. */
  ghost predicate Leaves(states: seq<State>, labels: seq<Label>, id: nat,
                         drain: seq<StreamWriter.State>, drainLabels: seq<StreamWriter.Label>, later: seq<StreamWriter.Event>)
    requires Run(states, labels)
  {
    && StreamWriter.Run(drain, drainLabels) && drain[|drainLabels|].run == StreamWriter.Closed
    && (forall e | e in later :: !e.kind.Output?)
    && forall i | 0 <= i < |labels| && Returns(states[i], labels[i], id) ::
         labels[i].choice.output == StreamWriter.Logged(drain[|drainLabels|].w.log + later, StreamWriter.Stdout)
  }

  /**
   From the runner's pipe to the thread: for every interleaving of sessions and
   of drainers, and every chunking of reads, the message a session's row names as its
   reply is the trimmed elision of the bytes its runner wrote to stdout, and is not blank.
   */
  lemma ReplyIsOutput(states: seq<State>, labels: seq<Label>, id: nat,
                      drain: seq<StreamWriter.State>, drainLabels: seq<StreamWriter.Label>, later: seq<StreamWriter.Event>)
    requires Run(states, labels) && Leaves(states, labels, id, drain, drainLabels, later)
    requires id < |states[|labels|].sessions| && states[|labels|].sessions[id].reply.Some?
    ensures
      var s := states[|labels|];
      var m := s.sessions[id].reply.value;
      && 1 <= m <= |s.posts| && s.posts[m - 1].writer == Some(id)
      && s.posts[m - 1].content == TrimSpace(Limiter.Elide(StreamWriter.BytesRead(drainLabels, StreamWriter.Stdout)))
      && TrimSpace(s.posts[m - 1].content) != ""
  {
    var i := HeardFrom(states, labels, id);
    Transcript.ReplyDependsOnBytesOnly(drain, drainLabels, later);
    SpokenIsNotBlank(states, labels, id);
    RunKeepsInv(states, labels);
    assert SessionInv(states[|labels|], id);
    hide Run, StreamWriter.Run, TrimSpace, PostsBy, RowAgrees, Returns, Limiter.Elide;
  }
}
