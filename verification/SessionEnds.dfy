/** How a session ends that is left to itself, by the steps of the run that decided it. */
module SessionEnds {
  import opened SessionManager
  import opened SessionInvariant
  import opened SessionReplies
  import opened Wrappers
  import opened Text

  // ----- the steps that tell

  /** The session's goroutine takes the step, from this point. */
  predicate From(s: State, l: Label, id: nat, pc: Pc) {
    l.Dispatch? && l.id == id && id < |s.sessions| && s.sessions[id].pc == pc
  }

  /** MarkSessionRunning fails. */
  predicate MarkFails(s: State, l: Label, id: nat) {
    From(s, l, id, Executing(Marking)) && l.choice.fail
  }

  /** The prompt cannot be built. */
  predicate PromptFails(s: State, l: Label, id: nat) {
    From(s, l, id, Executing(Prompting)) && l.choice.fail
  }

  /** runner.Run returns an error. */
  predicate RunFails(s: State, l: Label, id: nat) {
    From(s, l, id, Executing(InRunner)) && l.choice.fail
  }

  predicate PollFails(s: State, l: Label, id: nat) {
    Polls(s, l, id) && l.choice.fail
  }

  ghost predicate FindsPost(s: State, l: Label, id: nat) {
    Polls(s, l, id) && !l.choice.fail && HasPosted(s.posts, s.sessions[id])
  }

  ghost predicate FindsNone(s: State, l: Label, id: nat) {
    Polls(s, l, id) && !l.choice.fail && !HasPosted(s.posts, s.sessions[id])
  }

  /** The log cannot be read, or holds nothing but white space. */
  predicate HasNothingToSay(s: State, l: Label, id: nat) {
    From(s, l, id, Replying(Posting)) && (l.choice.fail || TrimSpace(s.sessions[id].output) == "")
  }

  predicate AppendFails(s: State, l: Label, id: nat) {
    From(s, l, id, Replying(Appending)) && l.choice.fail
  }

  predicate LinkFails(s: State, l: Label, id: nat) {
    l.Dispatch? && l.id == id && id < |s.sessions| && Links(s.sessions[id].pc) && l.choice.fail
  }

  predicate LinksReply(s: State, l: Label, id: nat) {
    l.Dispatch? && l.id == id && id < |s.sessions| && Links(s.sessions[id].pc) && !l.choice.fail
  }

  /** The wait for the agent's message is over. */
  predicate TimesOut(s: State, l: Label, id: nat) {
    && l.Dispatch? && l.id == id && l.choice.deadline && id < |s.sessions|
    && s.sessions[id].pc.Replying? && s.sessions[id].pc.reply.Checking?
  }

  datatype Word =
    | Unmarked | Unprompted | RunFailed | PollFailed | PostFound | NoneFound | NothingSaid | Unappended | Unlinked | Linked

  /** What a step tells of how the session will end. */
  ghost function Tells(s: State, l: Label, id: nat): Option<Word> {
    if MarkFails(s, l, id) then Some(Unmarked)
    else if PromptFails(s, l, id) then Some(Unprompted)
    else if RunFails(s, l, id) then Some(RunFailed)
    else if PollFails(s, l, id) then Some(PollFailed)
    else if FindsPost(s, l, id) then Some(PostFound)
    else if FindsNone(s, l, id) then Some(NoneFound)
    else if HasNothingToSay(s, l, id) then Some(NothingSaid)
    else if AppendFails(s, l, id) then Some(Unappended)
    else if LinkFails(s, l, id) then Some(Unlinked)
    else if LinksReply(s, l, id) then Some(Linked)
    else None
  }

  /** The last word of a run, how often the session polled, and whether it timed out. */
  datatype Memory = Memory(word: Option<Word>, polls: nat, waited: bool)

  ghost function After(m: Memory, s: State, l: Label, id: nat): Memory {
    Memory(if Tells(s, l, id).Some? then Tells(s, l, id) else m.word,
           if Polls(s, l, id) then m.polls + 1 else m.polls,
           m.waited || TimesOut(s, l, id))
  }

  ghost function Remembered(states: seq<State>, labels: seq<Label>, id: nat): Memory
    requires |states| == |labels| + 1
  {
    if labels == [] then Memory(None, 0, false)
    else
      var n := |labels| - 1;
      After(Remembered(states[..n + 1], labels[..n], id), states[n], labels[n], id)
  }

  // ----- what the memory says of where the session is

  /** The outcome a last word stands for. */
  function Verdict(w: Word, mode: ReplyMode): Option<Status> {
    match w
    case Linked => Some(Succeeded)
    case PostFound => Some(Succeeded)
    case NothingSaid => Some(Succeeded)
    case NoneFound => if mode.Cli? then Some(Failed) else None
    case _ => Some(Failed)
  }

  /** The session stopped polling because its time was up. */
  predicate Patient(m: Memory) {
    m.waited || m.polls == GRACE_POLLS + 1
  }

  predicate Judged(x: Session, m: Memory, outcome: Status) {
    && m.word.Some? && Verdict(m.word.value, x.mode) == Some(outcome)
    && (m.word.value in {PollFailed, NoneFound} ==> Patient(m))
  }

  predicate ReplyFits(x: Session, at: ReplyPc, m: Memory) {
    match at
    case Resolving => m == Memory(None, 0, false)
    case Polling(k) =>
      !x.mode.Stdout? && m.polls == k && !m.waited && (if k == 0 then m.word.None? else m.word in {Some(PollFailed), Some(NoneFound)})
    case Checking(k, erred) =>
      !x.mode.Stdout? && m.polls == k + 1 && !m.waited && m.word == Some(if erred then PollFailed else NoneFound)
    case Polled(posted, erred) =>
      && !x.mode.Stdout? && (posted ==> !erred)
      && m.word == Some(if posted then PostFound else if erred then PollFailed else NoneFound)
      && (!posted ==> Patient(m))
    case _ => !x.mode.Cli? && if x.mode.Stdout? then m.word.None? else m.word == Some(NoneFound) && Patient(m)
  }

  predicate Fits(x: Session, m: Memory) {
    && (x.reply.Some? <==> m.word == Some(Linked))
    && match x.pc
       case Starting(at) => at.Created? && m == Memory(None, 0, false) && x.status.Queued?
       case Admission(at) => (at.Selecting? || at.Admitting?) && m == Memory(None, 0, false) && x.status.Queued?
       case Executing(at) => (
         match at
         case Marking => m == Memory(None, 0, false) && x.status.Queued?
         case MarkFailed => m == Memory(Some(Unmarked), 0, false) && x.status.Queued?
         case RunnerFailed => m == Memory(Some(RunFailed), 0, false)
         case _ => m == Memory(None, 0, false))
       case Replying(at) => ReplyFits(x, at, m)
       case Ending(at) => Judged(x, m, if at.Finishing? then at.outcome else x.status)
  }

  /** Nobody else writes the session's row, and nobody stops the session before it is over. */
  predicate LeftAlone(s: State, l: Label, id: nat)
    requires id < |s.sessions|
  {
    && l != ShutdownFinish(id)
    && (l.CancelStep? ==> l.call >= |s.cancels| || s.cancels[l.call] != Writing(id))
    && (RowDone(s.sessions[id].pc) || (!s.closed && !s.sessions[id].cancelled && !l.Restart?))
  }

  ghost predicate Undisturbed(states: seq<State>, labels: seq<Label>, id: nat)
    requires |states| == |labels| + 1
  {
    forall i | 0 <= i < |labels| && id < |states[i].sessions| :: LeftAlone(states[i], labels[i], id)
  }

  // ----- one step of its own

  lemma ExecuteTells(s: State, x: Session, id: nat, c: Choice, m: Memory)
    requires id < |s.sessions| && s.sessions[id] == x && x.pc.Executing? && Fits(x, m) && !CtxCancelled(s, x)
    ensures Fits(Execute(s, x, x.pc.exec, c), After(m, s, Dispatch(id, c), id))
  {
    hide HasPosted, SaysNothing, Reply, TrimSpace;
    match x.pc.exec { case Marking => case MarkFailed => case Prompting => case InRunner => case RunnerFailed => }
  }

  lemma PollTells(s: State, x: Session, id: nat, c: Choice, m: Memory)
    requires id < |s.sessions| && s.sessions[id] == x && x.pc.Replying? && x.pc.reply.Polling? && Fits(x, m)
    ensures Fits(Resolve(s, x, x.pc.reply, c), After(m, s, Dispatch(id, c), id))
  {
    HasPostedIff(s.posts, x);
    hide HasPosted, AgentPosts, TrimSpace;
  }

  lemma WaitTells(s: State, x: Session, id: nat, c: Choice, m: Memory)
    requires id < |s.sessions| && s.sessions[id] == x && x.pc.Replying? && RowAgrees(x) && Fits(x, m) && !CtxCancelled(s, x)
    requires x.pc.reply.Resolving? || x.pc.reply.Checking? || x.pc.reply.Polled?
    ensures Fits(Resolve(s, x, x.pc.reply, c), After(m, s, Dispatch(id, c), id))
  {
    hide HasPosted, TrimSpace;
    match x.pc.reply { case Resolving => case Checking(_, _) => case Polled(_, _) => }
  }

  lemma PostTells(s: State, x: Session, id: nat, c: Choice, m: Memory)
    requires id < |s.sessions| && s.sessions[id] == x && x.pc.Replying? && Fits(x, m) && !CtxCancelled(s, x)
    requires x.pc.reply.Posting? || x.pc.reply.Appending? || x.pc.reply.Linking?
    ensures Fits(Resolve(s, x, x.pc.reply, c), After(m, s, Dispatch(id, c), id))
  {
    TrimTwice(x.output);
    hide HasPosted, TrimSpace;
    match x.pc.reply { case Posting => case Appending => case Linking(_) => }
  }

  lemma EndingTellsNothing(s: State, id: nat, c: Choice, m: Memory)
    requires id < |s.sessions| && s.sessions[id].pc.Ending?
    ensures After(m, s, Dispatch(id, c), id) == m
  {
    hide HasPosted, TrimSpace;
  }

  lemma EndFits(x: Session, m: Memory)
    requires x.pc.Ending? && Fits(x, m)
    ensures Fits(End(x, x.pc.end), m)
  {
    hide Verdict, Patient, ReplyFits;
    match x.pc.end { case Finishing(_) => case Unwinding => case Releasing => case Leaving => case Gone => }
  }

  lemma AdmitTells(s: State, x: Session, id: nat, c: Choice, m: Memory)
    requires id < |s.sessions| && s.sessions[id] == x && x.pc.Admission? && Fits(x, m) && !s.closed
    requires CanDispatch(s, id, c) && !s.ctxDone
    ensures Fits(Admit(s, x, x.pc.admit, c), After(m, s, Dispatch(id, c), id))
  {
    hide HasPosted, TrimSpace;
    match x.pc.admit { case Selecting => case Admitting => case _ => }
  }

  lemma MovedTells(s: State, x: Session, id: nat, c: Choice, m: Memory)
    requires CanDispatch(s, id, c) && s.sessions[id] == x && RowAgrees(x) && Fits(x, m)
    requires RowDone(x.pc) || (!s.closed && !s.ctxDone && !x.cancelled)
    ensures Fits(Moved(s, x, c), After(m, s, Dispatch(id, c), id))
  {
    hide Admit, Execute, Resolve, End, RowAgrees, Fits, After;
    match x.pc
    case Admission(_) => AdmitTells(s, x, id, c, m);
    case Executing(_) => ExecuteTells(s, x, id, c, m);
    case Replying(at) =>
      match at {
        case Polling(_) => PollTells(s, x, id, c, m);
        case Posting => PostTells(s, x, id, c, m);
        case Appending => PostTells(s, x, id, c, m);
        case Linking(_) => PostTells(s, x, id, c, m);
        case _ => WaitTells(s, x, id, c, m);
      }
    case Ending(_) =>
      EndingTellsNothing(s, id, c, m);
      EndFits(x, m);
  }

  // ----- a step of another

  lemma OthersTellNothing(m: Memory, s: State, l: Label, id: nat)
    requires l.Dispatch? ==> l.id != id
    ensures After(m, s, l, id) == m
  {
    hide HasPosted, TrimSpace;
  }

  lemma SteppedFits(s: State, l: Label, id: nat, m: Memory)
    requires Enabled(s, l) && id < |s.sessions| && (l.Dispatch? ==> l.id != id)
    requires LeftAlone(s, l, id) && Fits(s.sessions[id], m)
    ensures Fits(Stepped(s, l, id), m)
  {
    match l {
      case Register(_) => case Refuse(_) => case CancelStep(_) => case ShutdownFinish(_) => case Restart => case _ =>
    }
  }

  lemma StepFits(s: State, l: Label, id: nat, m: Memory)
    requires Inv(s) && Enabled(s, l) && id < |s.sessions| && LeftAlone(s, l, id) && Fits(s.sessions[id], m)
    ensures id < |Apply(s, l).sessions| && Fits(Apply(s, l).sessions[id], After(m, s, l, id))
  {
    assert SessionInv(s, id) && (!s.closed ==> !s.ctxDone);
    if l.Dispatch? && l.id == id {
      OwnFrame(s, id, l.choice);
      MovedTells(s, s.sessions[id], id, l.choice, m);
      hide *;
    } else {
      hide *;
      StepFrame(s, l, id);
      SteppedFits(s, l, id, m);
      OthersTellNothing(m, s, l, id);
    }
  }

  lemma NewFits(s: State, l: Label, id: nat)
    requires Enabled(s, l) && |s.sessions| <= id < |Apply(s, l).sessions|
    ensures Fits(Apply(s, l).sessions[id], Memory(None, 0, false))
    ensures After(Memory(None, 0, false), s, l, id) == Memory(None, 0, false)
  {
    NewIsFresh(s, l, id);
    hide Apply, Enabled, HasPosted, TrimSpace;
  }

  lemma {:induction false} NothingRemembered(states: seq<State>, labels: seq<Label>, id: nat)
    requires Run(states, labels) && id >= |states[|labels|].sessions|
    ensures Remembered(states, labels, id) == Memory(None, 0, false)
    decreases |labels|
  {
    hide *;
    RememberedNext(states, labels, id);
    if labels != [] {
      var n := |labels| - 1;
      RunSplits(states, labels);
      SessionsStay(states[n], labels[n]);
      NothingRemembered(states[..n + 1], labels[..n], id);
      UntoldBefore(Memory(None, 0, false), states[n], labels[n], id);
    }
  }

  lemma RememberedNext(states: seq<State>, labels: seq<Label>, id: nat)
    requires Run(states, labels)
    ensures |states| == |labels| + 1
    ensures Remembered(states, labels, id) ==
            if labels == [] then Memory(None, 0, false)
            else
              var n := |labels| - 1;
              After(Remembered(states[..n + 1], labels[..n], id), states[n], labels[n], id)
  {
    hide After;
  }

  lemma UntoldBefore(m: Memory, s: State, l: Label, id: nat)
    requires id >= |s.sessions|
    ensures After(m, s, l, id) == m
  {
    hide HasPosted, TrimSpace;
  }

  lemma {:induction false} RunFits(states: seq<State>, labels: seq<Label>, id: nat)
    requires Run(states, labels) && id < |states[|labels|].sessions| && Undisturbed(states, labels, id)
    ensures Fits(states[|labels|].sessions[id], Remembered(states, labels, id))
    decreases |labels|
  {
    hide Inv, Apply, Enabled, Init, Fits, After, LeftAlone;
    if labels != [] {
      var n := |labels| - 1;
      RunSplits(states, labels);
      var earlier := Remembered(states[..n + 1], labels[..n], id);
      if id < |states[n].sessions| {
        assert LeftAlone(states[n], labels[n], id);
        RunFits(states[..n + 1], labels[..n], id);
        StepFits(states[n], labels[n], id, earlier);
      } else {
        NothingRemembered(states[..n + 1], labels[..n], id);
        NewFits(states[n], labels[n], id);
      }
    } else {
      RunStarts(states, labels);
    }
  }

  // ----- the theorem

  /** Where the last word was said. */
  lemma {:induction false} LastTelling(states: seq<State>, labels: seq<Label>, id: nat) returns (i: nat)
    requires |states| == |labels| + 1 && Remembered(states, labels, id).word.Some?
    ensures i < |labels| && Tells(states[i], labels[i], id) == Remembered(states, labels, id).word
    ensures forall k | i < k < |labels| :: Tells(states[k], labels[k], id).None?
    decreases |labels|
  {
    hide Tells, Polls, TimesOut;
    var n := |labels| - 1;
    if Tells(states[n], labels[n], id).Some? {
      i := n;
    } else {
      i := LastTelling(states[..n + 1], labels[..n], id);
    }
  }

  /** The steps of a run that poll for the session's agent. */
  ghost function PollSteps(states: seq<State>, labels: seq<Label>, id: nat): set<nat>
    requires |states| == |labels| + 1
  {
    set k | 0 <= k < |labels| && Polls(states[k], labels[k], id)
  }

  lemma {:induction false} PollsAreCounted(states: seq<State>, labels: seq<Label>, id: nat)
    requires |states| == |labels| + 1
    ensures |PollSteps(states, labels, id)| == Remembered(states, labels, id).polls
    decreases |labels|
  {
    hide Tells, Polls, TimesOut;
    if labels == [] {
      assert PollSteps(states, labels, id) == {};
    } else {
      var n := |labels| - 1;
      var earlier := PollSteps(states[..n + 1], labels[..n], id);
      PollsAreCounted(states[..n + 1], labels[..n], id);
      assert PollSteps(states, labels, id) == if Polls(states[n], labels[n], id) then earlier + {n} else earlier;
    }
  }

  lemma {:induction false} WaitedOut(states: seq<State>, labels: seq<Label>, id: nat)
    requires |states| == |labels| + 1 && Remembered(states, labels, id).waited
    ensures exists k | 0 <= k < |labels| :: TimesOut(states[k], labels[k], id)
    decreases |labels|
  {
    hide Tells, Polls, TimesOut;
    var n := |labels| - 1;
    if !TimesOut(states[n], labels[n], id) {
      WaitedOut(states[..n + 1], labels[..n], id);
      var k :| 0 <= k < n && TimesOut(states[..n + 1][k], labels[..n][k], id);
      assert TimesOut(states[k], labels[k], id);
    }
  }

  /** Each word is said by its step. */
  lemma WordsAreSaid(s: State, l: Label, id: nat)
    requires Tells(s, l, id).Some?
    ensures
      var w := Tells(s, l, id).value;
      && (w == Unmarked <==> MarkFails(s, l, id)) && (w == Unprompted <==> PromptFails(s, l, id))
      && (w == RunFailed <==> RunFails(s, l, id)) && (w == PollFailed <==> PollFails(s, l, id))
      && (w == PostFound <==> FindsPost(s, l, id)) && (w == NoneFound <==> FindsNone(s, l, id))
      && (w == NothingSaid <==> HasNothingToSay(s, l, id)) && (w == Unappended <==> AppendFails(s, l, id))
      && (w == Unlinked <==> LinkFails(s, l, id)) && (w == Linked <==> LinksReply(s, l, id))
  {
    hide HasPosted, TrimSpace;
  }

  /**
   The step decided how session x ended. It has succeeded if and only if by it the reply
   was linked, or a message of the agent was found, or there was nothing to say; and
   failed if and only if something failed by it, or nothing was found and the agent was
   to reply by itself.
   */
  ghost predicate EndsBy(x: Session, s: State, l: Label, id: nat) {
    && (x.status.Succeeded? <==> LinksReply(s, l, id) || FindsPost(s, l, id) || HasNothingToSay(s, l, id))
    && (x.status.Failed? <==>
        || MarkFails(s, l, id) || PromptFails(s, l, id) || RunFails(s, l, id) || PollFails(s, l, id)
        || AppendFails(s, l, id) || LinkFails(s, l, id) || (x.mode.Cli? && FindsNone(s, l, id)))
    && (x.status.Succeeded? || x.status.Failed?)
    && (x.reply.Some? <==> LinksReply(s, l, id))
  }

  /** The session's time to find a message was up: by the clock, or after 21 polls. */
  ghost predicate TimeWasUp(states: seq<State>, labels: seq<Label>, id: nat)
    requires |states| == |labels| + 1
  {
    || |PollSteps(states, labels, id)| == GRACE_POLLS + 1
    || exists k | 0 <= k < |labels| :: TimesOut(states[k], labels[k], id)
  }

  lemma EndsByWord(x: Session, m: Memory, s: State, l: Label, id: nat)
    requires Fits(x, m) && RowDone(x.pc) && Tells(s, l, id) == m.word
    ensures Tells(s, l, id).Some? && EndsBy(x, s, l, id)
    ensures PollFails(s, l, id) || FindsNone(s, l, id) ==> Patient(m)
  {
    assert Judged(x, m, x.status);
    WordsAreSaid(s, l, id);
    hide Fits, Tells, MarkFails, PromptFails, RunFails, PollFails, AppendFails, LinkFails, FindsNone, LinksReply, FindsPost,
         HasNothingToSay, Patient;
  }

  lemma PatientMeans(states: seq<State>, labels: seq<Label>, id: nat)
    requires |states| == |labels| + 1 && Patient(Remembered(states, labels, id))
    ensures TimeWasUp(states, labels, id)
  {
    PollsAreCounted(states, labels, id);
    hide Remembered, PollSteps, TimesOut;
    if Remembered(states, labels, id).waited {
      WaitedOut(states, labels, id);
    }
  }

  /**
   How a session ends that nobody stops: by the last step of the run that tells. It gives
   up looking for a message of its agent only when its time is up.
   */
  lemma EndsAsTold(states: seq<State>, labels: seq<Label>, id: nat) returns (i: nat)
    requires Run(states, labels) && id < |states[|labels|].sessions| && Undisturbed(states, labels, id)
    requires RowDone(states[|labels|].sessions[id].pc)
    ensures i < |labels| && Tells(states[i], labels[i], id).Some?
    ensures forall k | i < k < |labels| :: Tells(states[k], labels[k], id).None?
    ensures EndsBy(states[|labels|].sessions[id], states[i], labels[i], id)
    ensures PollFails(states[i], labels[i], id) || FindsNone(states[i], labels[i], id) ==> TimeWasUp(states, labels, id)
  {
    var x, m := states[|labels|].sessions[id], Remembered(states, labels, id);
    hide *;
    RunFits(states, labels, id);
    Fitted(x, m);
    i := LastTelling(states, labels, id);
    EndsByWord(x, m, states[i], labels[i], id);
    if Patient(m) {
      PatientMeans(states, labels, id);
    }
  }

  lemma Fitted(x: Session, m: Memory)
    requires Fits(x, m) && RowDone(x.pc)
    ensures m.word.Some?
  {
  }
}
