/** What a session's log holds, over every interleaving of its goroutines. */
module Transcript {
  import opened Text
  import opened StreamWriter
  import opened Wrappers
  import Limiter

  // ----- the invariant

  /** t is inside stream s's flush lock. */
  predicate Holds(st: State, t: Thread, s: Stream) {
    FlushOf(st, t).Some? && FlushOf(st, t).value.0 == s && !FlushOf(st, t).value.1.Locking?
  }

  ghost predicate LocksAgree(st: State) {
    forall s: Stream, t: Thread :: st.w.flushes.Get(s) == Some(t) <==> Holds(st, t, s)
  }

  /** What a flush has taken out of stream s's buffer and not yet logged. */
  function InFlight(st: State, s: Stream): string {
    match st.w.flushes.Get(s)
    case None => ""
    case Some(t) =>
      if Holds(st, t, s) && FlushOf(st, t).value.1.Appending? then FlushOf(st, t).value.1.payload else ""
  }

  /** What has left stream s's limiter and not yet entered the writer. */
  function Pending(st: State, s: Stream): string {
    if st.drain.Get(s).Writing? then st.drain.Get(s).out
    else if st.run.SealWrite? && st.run.s == s then st.run.out
    else ""
  }

  /** What stream s's limiter has let through. */
  function Released(st: State, s: Stream): string {
    if st.sealed.Get(s) then Limiter.Elide(st.pushed.Get(s)) else Limiter.Passed(st.pushed.Get(s))
  }

  predicate ConservedOn(st: State, s: Stream) {
    && Logged(st.w.log, s) + InFlight(st, s) + st.w.bufs.Get(s) == st.accepted.Get(s)
    && st.accepted.Get(s) + Pending(st, s) == Released(st, s)
  }

  predicate Conserved(st: State) {
    ConservedOn(st, Stdout) && ConservedOn(st, Stderr)
  }

  /** The order the session's goroutine goes through its stages. */
  function Stage(run: RunPc): nat {
    match run
    case Draining => 0
    case Sealing(s) => if s.Stdout? then 1 else 3
    case SealWrite(s, _) => if s.Stdout? then 2 else 4
    case SealFlush(s, _) => if s.Stdout? then 2 else 4
    case Closing => 5
    case Joining => 6
    case Rest(_) => 7
    case RestFlush(_, _, _) => 7
    case Finishing => 8
    case Closed => 9
  }

  ghost predicate StagesAgree(st: State) {
    && (Stage(st.run) > 0 ==> st.drain == Pair(Ended, Ended))
    && (st.sealed.Get(Stdout) <==> Stage(st.run) > 1)
    && (st.sealed.Get(Stderr) <==> Stage(st.run) > 3)
    && (st.stop <==> Stage(st.run) > 5)
    && (Stage(st.run) > 6 ==> st.tick.Stopped?)
    && (st.w.done <==> Stage(st.run) > 8)
  }

  /** closeAll's last round has already emptied stream s. */
  predicate Emptied(st: State, s: Stream) {
    match st.run
    case Rest(todo) => s !in todo
    case RestFlush(todo, s0, f) => if s == s0 then f.Appending? || f.Unlocking? else s !in todo
    case Finishing => true
    case Closed => true
    case _ => false
  }

  ghost predicate EmptiedAreEmpty(st: State) {
    && (st.run.RestFlush? ==> st.run.s !in st.run.todo)
    && (Emptied(st, Stdout) ==> st.w.bufs.stdout == "")
    && (Emptied(st, Stderr) ==> st.w.bufs.stderr == "")
  }

  ghost predicate ChunksNonEmpty(st: State) {
    && (st.drain.stdout.Writing? ==> st.drain.stdout.out != "")
    && (st.drain.stderr.Writing? ==> st.drain.stderr.out != "")
    && (st.run.SealWrite? ==> st.run.out != "")
  }

  ghost predicate Inv(st: State) {
    LocksAgree(st) && Conserved(st) && StagesAgree(st) && EmptiedAreEmpty(st) && ChunksNonEmpty(st)
  }

  lemma InitInv(st: State)
    requires Init(st)
    ensures Inv(st)
  {
    assert st.w.log[..0] == [];
    assert Logged(st.w.log, Stdout) == Logged(st.w.log, Stderr) == "";
  }

  // ----- every step keeps it

  /** A flush step moves its own thread only. */
  lemma FlushMovesOne(st: State, t: Thread)
    requires Enabled(st, Flushes(t))
    ensures
      var (s, f) := FlushOf(st, t).value;
      var st' := DoFlush(st, t);
      && FlushOf(st', t) == (match FlushNext(st.w, s, f) { case None => None case Some(g) => Some((s, g)) })
      && (forall u: Thread | u != t :: FlushOf(st', u) == FlushOf(st, u))
      && (forall r: Stream :: Pending(st', r) == Pending(st, r) && Released(st', r) == Released(st, r))
      && st'.accepted == st.accepted
  {
  }

  lemma FlushKeepsLocks(st: State, t: Thread)
    requires LocksAgree(st) && Enabled(st, Flushes(t))
    ensures LocksAgree(DoFlush(st, t))
  {
    FlushMovesOne(st, t);
    var st' := DoFlush(st, t);
    var (s, f) := FlushOf(st, t).value;
    assert st.w.flushes.Get(s) == Some(t) <==> Holds(st, t, s);
    forall r: Stream, u: Thread
      ensures st'.w.flushes.Get(r) == Some(u) <==> Holds(st', u, r)
    {
      assert st.w.flushes.Get(r) == Some(u) <==> Holds(st, u, r);
    }
  }

  /** What a flush step does to what is in flight on its own stream, and that it leaves the other alone. */
  lemma FlushInFlight(st: State, t: Thread, r: Stream)
    requires LocksAgree(st) && Enabled(st, Flushes(t))
    ensures
      var (s, f) := FlushOf(st, t).value;
      && InFlight(st, s) == (if f.Appending? then f.payload else "")
      && InFlight(DoFlush(st, t), s) == (if f.Taking? && !st.w.done then st.w.bufs.Get(s) else "")
      && (r != s ==> InFlight(DoFlush(st, t), r) == InFlight(st, r))
  {
    FlushMovesOne(st, t);
    var (s, f) := FlushOf(st, t).value;
    assert st.w.flushes.Get(s) == Some(t) <==> Holds(st, t, s);
    if r != s && st.w.flushes.Get(r).Some? {
      assert Holds(st, st.w.flushes.Get(r).value, r);
    }
  }

  /** A flush step moves bytes along, from buffer to payload to log, and loses none. */
  lemma FlushKeepsBytes(st: State, t: Thread, r: Stream)
    requires LocksAgree(st) && Enabled(st, Flushes(t))
    ensures
      var st' := DoFlush(st, t);
      Logged(st'.w.log, r) + InFlight(st', r) + st'.w.bufs.Get(r) ==
      Logged(st.w.log, r) + InFlight(st, r) + st.w.bufs.Get(r)
  {
    FlushInFlight(st, t, r);
    var (s, f) := FlushOf(st, t).value;
    if f.Appending? {
      LoggedAppend(st.w.log, Event(Output(s), f.payload), r);
    }
    hide InFlight, Logged, LocksAgree, DoFlush, FlushOf, Enabled;
    var st' := DoFlush(st, t);
    BytesMove(Logged(st.w.log, r), InFlight(st, r), st.w.bufs.Get(r), Logged(st'.w.log, r), InFlight(st', r),
              st'.w.bufs.Get(r));
  }

  /** Text that moves from its place to the empty one before it stays where it was in the whole. */
  lemma BytesMove(a: string, b: string, c: string, a': string, b': string, c': string)
    requires || (a' == a && b' == b && c' == c)
             || (a' == a && b == "" && b' == c && c' == "")
             || (a' == a + b && b' == "" && c' == c)
    ensures a' + b' + c' == a + b + c
  {
  }

  lemma FlushKeepsStages(st: State, t: Thread)
    requires Inv(st) && Enabled(st, Flushes(t))
    ensures
      var st' := DoFlush(st, t);
      StagesAgree(st') && EmptiedAreEmpty(st') && ChunksNonEmpty(st')
  {
  }

  lemma FlushKeepsInv(st: State, t: Thread)
    requires Inv(st) && Enabled(st, Flushes(t))
    ensures Inv(DoFlush(st, t))
  {
    FlushKeepsLocks(st, t);
    FlushKeepsStages(st, t);
    FlushMovesOne(st, t);
    FlushKeepsBytes(st, t, Stdout);
    FlushKeepsBytes(st, t, Stderr);
    hide InFlight, Logged, LocksAgree, Pending, Released, DoFlush;
  }

  /** A step that touches no flush in progress touches neither the locks nor what is in flight. */
  ghost predicate SameFlushes(st: State, st': State) {
    && st'.w.flushes == st.w.flushes && st'.w.log == st.w.log
    && forall t: Thread, s: Stream ::
         (Holds(st', t, s) <==> Holds(st, t, s)) && (Holds(st, t, s) ==> FlushOf(st', t) == FlushOf(st, t))
  }

  lemma SameFlushesKeep(st: State, st': State)
    requires LocksAgree(st) && SameFlushes(st, st')
    ensures LocksAgree(st')
    ensures forall s: Stream :: InFlight(st', s) == InFlight(st, s)
  {
    forall s: Stream, t: Thread
      ensures st'.w.flushes.Get(s) == Some(t) <==> Holds(st', t, s)
    {
      assert st.w.flushes.Get(s) == Some(t) <==> Holds(st, t, s);
    }
  }

  lemma ReadMoves(st: State, s: Stream, chunk: string)
    requires Inv(st) && Enabled(st, Read(s, chunk))
    ensures
      var st' := DoRead(st, s, chunk);
      SameFlushes(st, st') && StagesAgree(st') && EmptiedAreEmpty(st') && ChunksNonEmpty(st')
  {
    hide Conserved, LocksAgree;
  }

  /** A read adds to what its limiter released exactly what it leaves pending. */
  lemma ReadReleases(st: State, s: Stream, chunk: string, r: Stream)
    requires StagesAgree(st) && Enabled(st, Read(s, chunk))
    requires st.accepted.Get(r) + Pending(st, r) == Released(st, r)
    ensures
      var st' := DoRead(st, s, chunk);
      st'.accepted.Get(r) + Pending(st', r) == Released(st', r)
  {
    Limiter.PassedGrows(st.pushed.Get(s), chunk);
    hide Limiter.Passed, Limiter.Emission, Limiter.Elide;
    if r == s {
      assert Pending(st, s) == "";
    }
  }

  lemma ReadKeepsInv(st: State, s: Stream, chunk: string)
    requires Inv(st) && Enabled(st, Read(s, chunk))
    ensures Inv(DoRead(st, s, chunk))
  {
    var st' := DoRead(st, s, chunk);
    ReadMoves(st, s, chunk);
    SameFlushesKeep(st, st');
    assert InFlight(st', Stdout) == InFlight(st, Stdout) && InFlight(st', Stderr) == InFlight(st, Stderr);
    ReadReleases(st, s, chunk, Stdout);
    ReadReleases(st, s, chunk, Stderr);
    assert st'.w == st.w && st'.accepted == st.accepted;
    hide Logged, LocksAgree, SameFlushes, InFlight, Pending, Released, DoRead;
    hide StagesAgree, EmptiedAreEmpty, ChunksNonEmpty;
  }

  /** Offering a pending chunk to the writer turns it from pending into buffered. */
  lemma OfferKeepsBytes(st: State, s: Stream, st': State)
    requires Inv(st) && SameFlushes(st, st')
    requires st'.w == Accept(st.w, s, Pending(st, s)) && !st.w.done
    requires st'.accepted == st.accepted.Put(s, st.accepted.Get(s) + Pending(st, s))
    requires st'.pushed == st.pushed && st'.sealed == st.sealed
    requires Pending(st', s) == "" && forall r: Stream | r != s :: Pending(st', r) == Pending(st, r)
    ensures LocksAgree(st') && Conserved(st')
  {
    SameFlushesKeep(st, st');
    assert InFlight(st', Stdout) == InFlight(st, Stdout) && InFlight(st', Stderr) == InFlight(st, Stderr);
    var other := if s.Stdout? then Stderr else Stdout;
    assert Pending(st', other) == Pending(st, other);
    hide Limiter.Passed, Limiter.Elide, Logged, LocksAgree, SameFlushes, InFlight, Pending;
  }

  lemma WriteKeepsInv(st: State, s: Stream)
    requires Inv(st) && st.drain.Get(s).Writing?
    ensures Inv(DoWrite(st, s))
  {
    assert Stage(st.run) == 0;
    OfferKeepsBytes(st, s, DoWrite(st, s));
  }

  lemma SealMoves(st: State, s: Stream)
    requires Inv(st) && st.run == Sealing(s)
    ensures
      var st' := DoSeal(st, s);
      SameFlushes(st, st') && StagesAgree(st') && EmptiedAreEmpty(st') && ChunksNonEmpty(st')
  {
    hide Conserved, LocksAgree;
  }

  /** Sealing releases what completes the elision. */
  lemma SealReleases(st: State, s: Stream, r: Stream)
    requires StagesAgree(st) && st.run == Sealing(s)
    ensures Pending(st, r) == ""
    ensures Released(DoSeal(st, s), r) == Released(st, r) + Pending(DoSeal(st, s), r)
  {
    Limiter.SealingCompletes(st.pushed.Get(s));
    hide Limiter.Passed, Limiter.Sealing, Limiter.Elide;
  }

  lemma SealKeepsBytes(st: State, s: Stream, r: Stream)
    requires StagesAgree(st) && ConservedOn(st, r) && st.run == Sealing(s)
    requires InFlight(DoSeal(st, s), r) == InFlight(st, r)
    ensures ConservedOn(DoSeal(st, s), r)
  {
    SealReleases(st, s, r);
    var st' := DoSeal(st, s);
    assert st'.w == st.w && st'.accepted == st.accepted;
    hide StagesAgree, Pending, Released, InFlight, Logged, DoSeal;
    assert st.accepted.Get(r) + Pending(st, r) == st.accepted.Get(r);
  }

  lemma SealKeepsInv(st: State, s: Stream)
    requires Inv(st) && st.run == Sealing(s)
    ensures Inv(DoSeal(st, s))
  {
    var st' := DoSeal(st, s);
    SealMoves(st, s);
    SameFlushesKeep(st, st');
    assert ConservedOn(st, Stdout) && ConservedOn(st, Stderr) && StagesAgree(st);
    SealKeepsBytes(st, s, Stdout);
    SealKeepsBytes(st, s, Stderr);
    hide ConservedOn, LocksAgree, SameFlushes, StagesAgree, EmptiedAreEmpty, ChunksNonEmpty, DoSeal, InFlight;
  }

  lemma SealWriteMoves(st: State, s: Stream, out: string)
    requires Inv(st) && st.run == SealWrite(s, out)
    ensures
      var st' := DoSealWrite(st, s, out);
      && SameFlushes(st, st') && StagesAgree(st') && EmptiedAreEmpty(st') && ChunksNonEmpty(st') && !st.w.done
      && Pending(st, s) == out && Pending(st', s) == ""
      && forall r: Stream | r != s :: Pending(st', r) == Pending(st, r)
  {
    hide Conserved, LocksAgree;
  }

  lemma SealWriteKeepsInv(st: State, s: Stream, out: string)
    requires Inv(st) && st.run == SealWrite(s, out)
    ensures Inv(DoSealWrite(st, s, out))
  {
    SealWriteMoves(st, s, out);
    hide StagesAgree, EmptiedAreEmpty, ChunksNonEmpty, SameFlushes, LocksAgree, Conserved, Pending;
    OfferKeepsBytes(st, s, DoSealWrite(st, s, out));
  }

  /** The steps that only move a goroutine on. */
  predicate Moves(st: State, l: Label)
    requires Enabled(st, l)
  {
    && !l.Read? && !l.Write? && !l.Flushes?
    && (l.RunNext? ==> !st.run.Sealing? && !st.run.SealWrite?)
  }

  lemma MoveMoves(st: State, l: Label)
    requires Inv(st) && Enabled(st, l) && Moves(st, l)
    ensures
      var st' := Apply(st, l);
      && SameFlushes(st, st') && StagesAgree(st') && EmptiedAreEmpty(st') && ChunksNonEmpty(st')
      && st'.w.bufs == st.w.bufs && st'.accepted == st.accepted
      && st'.pushed == st.pushed && st'.sealed == st.sealed
      && Pending(st', Stdout) == Pending(st, Stdout) && Pending(st', Stderr) == Pending(st, Stderr)
  {
    hide Conserved, LocksAgree;
  }

  lemma MoveKeepsInv(st: State, l: Label)
    requires Inv(st) && Enabled(st, l) && Moves(st, l)
    ensures Inv(Apply(st, l))
  {
    var st' := Apply(st, l);
    MoveMoves(st, l);
    SameFlushesKeep(st, st');
    assert InFlight(st', Stdout) == InFlight(st, Stdout) && InFlight(st', Stderr) == InFlight(st, Stderr);
    hide Limiter.Passed, Limiter.Elide, Logged, LocksAgree, InFlight, Pending, Apply;
  }

  lemma StepKeepsInv(st: State, l: Label)
    requires Inv(st) && Enabled(st, l)
    ensures Inv(Apply(st, l))
  {
    match l
    case Read(s, chunk) => ReadKeepsInv(st, s, chunk);
    case Write(s) => WriteKeepsInv(st, s);
    case Flushes(t) => FlushKeepsInv(st, t);
    case RunNext =>
      match st.run {
        case Sealing(s) => SealKeepsInv(st, s);
        case SealWrite(s, out) => SealWriteKeepsInv(st, s, out);
        case _ => MoveKeepsInv(st, l);
      }
    case _ => MoveKeepsInv(st, l);
  }

  // ----- whole runs

  /** A run without its last step is a run. */
  lemma RunSplits(states: seq<State>, labels: seq<Label>)
    requires Run(states, labels) && labels != []
    ensures
      var n := |labels| - 1;
      && Run(states[..n + 1], labels[..n]) && states[..n + 1][n] == states[n]
      && Enabled(states[n], labels[n]) && states[n + 1] == Apply(states[n], labels[n])
  {
    hide Apply, Enabled, Init;
    var n := |labels| - 1;
    assert Enabled(states[n], labels[n]) && states[n + 1] == Apply(states[n], labels[n]);
  }

  lemma {:induction false} RunKeepsInv(states: seq<State>, labels: seq<Label>)
    requires Run(states, labels)
    ensures Inv(states[|labels|])
    decreases |labels|
  {
    if labels == [] {
      InitInv(states[0]);
    } else {
      var n := |labels| - 1;
      hide Inv, Apply, Enabled, Run;
      RunSplits(states, labels);
      RunKeepsInv(states[..n + 1], labels[..n]);
      StepKeepsInv(states[n], labels[n]);
    }
  }

  lemma {:induction false} RunPushesReads(states: seq<State>, labels: seq<Label>, s: Stream)
    requires Run(states, labels)
    ensures states[|labels|].pushed.Get(s) == BytesRead(labels, s)
    decreases |labels|
  {
    if labels != [] {
      var n := |labels| - 1;
      hide Apply, Enabled, Run;
      RunSplits(states, labels);
      RunPushesReads(states[..n + 1], labels[..n], s);
      PushedOnlyByReads(states[n], labels[n]);
    }
  }

  lemma PushedOnlyByReads(st: State, l: Label)
    requires Enabled(st, l)
    ensures
      var st' := Apply(st, l);
      if l.Read? then st'.pushed == st.pushed.Put(l.s, st.pushed.Get(l.s) + l.chunk) else st'.pushed == st.pushed
  {
  }

  /** Once closed, nothing is buffered or in flight: the log holds everything the writer took. */
  lemma ClosedIsDrained(st: State, s: Stream)
    requires Inv(st) && st.run == Closed
    ensures Logged(st.w.log, s) == Limiter.Elide(st.pushed.Get(s))
  {
    forall t: Thread
      ensures !Holds(st, t, s)
    {
      match t { case Drainer(r) => case Ticker => case Runner => }
    }
    assert forall t: Thread :: st.w.flushes.Get(s) == Some(t) <==> Holds(st, t, s);
    assert st.w.flushes.Get(s).None?;
    assert InFlight(st, s) == "" && Pending(st, s) == "" && st.w.bufs.Get(s) == "" && ConservedOn(st, s);
    hide Logged, Limiter.Elide;
  }

  /**
   Whatever the sizes of the reads and whichever of ticker, threshold and close
   flushed first, a closed session's log holds, per stream, the elision of the
   bytes read from that stream.
   */
  lemma TranscriptIsElision(states: seq<State>, labels: seq<Label>, s: Stream)
    requires Run(states, labels) && states[|labels|].run == Closed
    ensures Logged(states[|labels|].w.log, s) == Limiter.Elide(BytesRead(labels, s))
  {
    RunKeepsInv(states, labels);
    RunPushesReads(states, labels, s);
    ClosedIsDrained(states[|labels|], s);
  }

  /** The reply collectStdout reads back from such a log, later events included. */
  lemma ReplyDependsOnBytesOnly(states: seq<State>, labels: seq<Label>, later: seq<Event>)
    requires Run(states, labels) && states[|labels|].run == Closed
    requires forall e | e in later :: !e.kind.Output?
    ensures TrimSpace(Logged(states[|labels|].w.log + later, Stdout)) ==
            TrimSpace(Limiter.Elide(BytesRead(labels, Stdout)))
  {
    TranscriptIsElision(states, labels, Stdout);
    LaterEventsAddNothing(states[|labels|].w.log, later, Stdout);
  }

  lemma {:induction false} LaterEventsAddNothing(log: seq<Event>, later: seq<Event>, s: Stream)
    requires forall e | e in later :: !e.kind.Output?
    ensures Logged(log + later, s) == Logged(log, s)
    decreases |later|
  {
    if later == [] {
      assert log + later == log;
    } else {
      var n := |later| - 1;
      LaterEventsAddNothing(log, later[..n], s);
      LoggedAppend(log + later[..n], later[n], s);
      assert log + later == log + later[..n] + [later[n]];
    }
  }

  /** A step logs at most one event more. */
  lemma StepLogs(st: State, l: Label, s: Stream)
    requires Enabled(st, l)
    ensures Logged(st.w.log, s) <= Logged(Apply(st, l).w.log, s)
  {
    var log := Apply(st, l).w.log;
    if log != st.w.log {
      assert l.Flushes? && |log| == |st.w.log| + 1 && log[..|st.w.log|] == st.w.log;
    }
    hide Apply, Enabled;
  }

  lemma {:induction false} LogGrows(states: seq<State>, labels: seq<Label>, i: nat, s: Stream)
    requires Steps(states, labels) && i <= |labels|
    ensures Logged(states[i].w.log, s) <= Logged(states[|labels|].w.log, s)
    decreases |labels|
  {
    if i < |labels| {
      var n := |labels| - 1;
      hide Enabled, Apply, Logged;
      assert Enabled(states[n], labels[n]) && states[n + 1] == Apply(states[n], labels[n]);
      LogGrows(states[..n + 1], labels[..n], i, s);
      StepLogs(states[n], labels[n], s);
    }
  }

  /** At every moment of a run, what is already logged is a prefix of what the log will hold when all is closed. */
  lemma LogIsAlwaysAPrefix(states: seq<State>, labels: seq<Label>, i: nat, s: Stream)
    requires Run(states, labels) && i <= |labels|
    ensures Logged(states[i].w.log, s) <= Limiter.Elide(BytesRead(labels, s))
  {
    RunKeepsInv(states, labels);
    RunPushesReads(states, labels, s);
    ReleasedIsAPrefix(states[|labels|], s);
    LogGrows(states, labels, i, s);
    hide Enabled, Apply, Init, Logged, Limiter.Elide, BytesRead;
  }

  lemma ReleasedIsAPrefix(st: State, s: Stream)
    ensures Released(st, s) <= Limiter.Elide(st.pushed.Get(s))
  {
    Limiter.SealingCompletes(st.pushed.Get(s));
    hide Limiter.Elide, Limiter.Passed, Limiter.Sealing;
  }

  // ----- the size of one event

  /** A write just filled stream s's buffer and its own flush has yet to empty it. */
  predicate Due(st: State, s: Stream) {
    var full := (f: Flush) => f.Locking? || f.Taking?;
    || (st.drain.Get(s).DrainFlush? && full(st.drain.Get(s).f))
    || (st.run.SealFlush? && st.run.s == s && full(st.run.f))
  }

  ghost predicate BoundedOn(st: State, s: Stream) {
    var limit := STREAM_FLUSH_BYTES + st.widest.Get(s);
    && (forall e | e in st.w.log && e.kind == Output(s) :: |e.content| < limit)
    && |InFlight(st, s)| < limit
    && |st.w.bufs.Get(s)| < limit
    && (Due(st, s) || |st.w.bufs.Get(s)| < STREAM_FLUSH_BYTES)
  }

  /** A flush that is due stays due until it takes the buffer. */
  lemma FlushStaysDue(st: State, t: Thread, r: Stream)
    requires Enabled(st, Flushes(t)) && Due(st, r)
    ensures Due(DoFlush(st, t), r) || (FlushOf(st, t).value.0 == r && FlushOf(st, t).value.1.Taking?)
    ensures DoFlush(st, t).widest == st.widest
  {
    hide FlushWriter;
  }

  lemma FlushKeepsBound(st: State, t: Thread, r: Stream)
    requires Inv(st) && Enabled(st, Flushes(t)) && BoundedOn(st, r)
    ensures BoundedOn(DoFlush(st, t), r)
  {
    FlushInFlight(st, t, r);
    assert DoFlush(st, t).widest == st.widest by {
      hide Inv, BoundedOn, FlushWriter;
    }
    if Due(st, r) {
      FlushStaysDue(st, t, r);
    }
    hide Inv, InFlight, DoFlush, FlushOf, Enabled, Due;
  }

  lemma OfferKeepsBound(st: State, s: Stream, st': State, r: Stream)
    requires LocksAgree(st) && SameFlushes(st, st') && BoundedOn(st, r) && !Due(st, s)
    requires st'.w == Accept(st.w, s, Pending(st, s)) && !st.w.done
    requires st'.widest == Offer(st, s, Pending(st, s)).widest
    requires Due(st', s) <==> Over(st.w, s, Pending(st, s))
    requires r != s ==> Due(st', r) == Due(st, r)
    ensures BoundedOn(st', r)
  {
    SameFlushesKeep(st, st');
    assert InFlight(st', r) == InFlight(st, r);
    hide InFlight, LocksAgree, SameFlushes, Due, Pending;
  }

  lemma WriteKeepsBound(st: State, s: Stream, r: Stream)
    requires Inv(st) && st.drain.Get(s).Writing? && BoundedOn(st, r)
    ensures BoundedOn(DoWrite(st, s), r)
  {
    assert Stage(st.run) == 0;
    hide BoundedOn, Conserved;
    OfferKeepsBound(st, s, DoWrite(st, s), r);
  }

  lemma SealWriteKeepsBound(st: State, s: Stream, out: string, r: Stream)
    requires Inv(st) && st.run == SealWrite(s, out) && BoundedOn(st, r)
    ensures BoundedOn(DoSealWrite(st, s, out), r)
  {
    hide BoundedOn, Conserved;
    OfferKeepsBound(st, s, DoSealWrite(st, s, out), r);
  }

  lemma OthersKeepBound(st: State, st': State, r: Stream)
    requires LocksAgree(st) && SameFlushes(st, st') && BoundedOn(st, r)
    requires st'.w.bufs == st.w.bufs && st'.widest == st.widest && (Due(st, r) ==> Due(st', r))
    ensures BoundedOn(st', r)
  {
    SameFlushesKeep(st, st');
    assert InFlight(st', r) == InFlight(st, r);
    hide InFlight, LocksAgree, SameFlushes, Due;
  }

  lemma StepKeepsBound(st: State, l: Label, r: Stream)
    requires Inv(st) && Enabled(st, l) && BoundedOn(st, r)
    ensures BoundedOn(Apply(st, l), r)
  {
    match l
    case Flushes(t) => FlushKeepsBound(st, t, r);
    case Write(s) => WriteKeepsBound(st, s, r);
    case Read(s, chunk) =>
      ReadMoves(st, s, chunk);
      hide Inv, SameFlushes, BoundedOn;
      OthersKeepBound(st, DoRead(st, s, chunk), r);
    case RunNext =>
      match st.run {
        case Sealing(s) =>
          SealMoves(st, s);
          hide Inv, SameFlushes, BoundedOn;
          OthersKeepBound(st, DoSeal(st, s), r);
        case SealWrite(s, out) => SealWriteKeepsBound(st, s, out, r);
        case _ => MoveKeepsBound(st, l, r);
      }
    case _ => MoveKeepsBound(st, l, r);
  }

  lemma MoveKeepsBound(st: State, l: Label, r: Stream)
    requires Inv(st) && Enabled(st, l) && Moves(st, l) && BoundedOn(st, r)
    ensures BoundedOn(Apply(st, l), r)
  {
    MoveMoves(st, l);
    hide Inv, SameFlushes, BoundedOn, Apply;
    OthersKeepBound(st, Apply(st, l), r);
  }

  lemma {:induction false} EventsStayBounded(states: seq<State>, labels: seq<Label>, s: Stream)
    requires Run(states, labels)
    ensures BoundedOn(states[|labels|], s)
    decreases |labels|
  {
    if labels != [] {
      var n := |labels| - 1;
      hide Inv, Apply, Enabled, Run, BoundedOn;
      RunSplits(states, labels);
      RunKeepsInv(states[..n + 1], labels[..n]);
      EventsStayBounded(states[..n + 1], labels[..n], s);
      StepKeepsBound(states[n], labels[n], s);
    }
  }

  /** The longest single read of stream s over a run. */
  function LongestRead(labels: seq<Label>, s: Stream): nat {
    if labels == [] then 0
    else
      var last := labels[|labels| - 1];
      var longest := LongestRead(labels[..|labels| - 1], s);
      if last.Read? && last.s == s && |last.chunk| > longest then |last.chunk| else longest
  }

  /** The most a write can bring: a read's worth, or the marker and a tail. */
  function WidestWrite(longest: nat): nat {
    var sealing := |Limiter.ELISION_MARKER| + Limiter.TAIL_BYTES;
    if longest >= sealing then longest else sealing
  }

  /** What was written to stream s, and what is about to be, came from reads no longer than this, or from sealing. */
  predicate Narrow(st: State, s: Stream, longest: nat) {
    && st.widest.Get(s) <= WidestWrite(longest)
    && (st.drain.Get(s).Writing? ==> |st.drain.Get(s).out| <= longest)
    && (st.run.SealWrite? && st.run.s == s ==> |st.run.out| <= WidestWrite(0))
  }

  lemma EmissionIsShort(before: string, b: string)
    ensures |Limiter.Emission(before, b)| <= |b|
    ensures |Limiter.Sealing(before)| <= WidestWrite(0)
  {
  }

  lemma NarrowFlush(st: State, t: Thread, s: Stream, longest: nat)
    requires Enabled(st, Flushes(t)) && Narrow(st, s, longest)
    ensures Narrow(DoFlush(st, t), s, longest)
  {
  }

  lemma NarrowStays(st: State, l: Label, s: Stream, longest: nat)
    requires Enabled(st, l) && Narrow(st, s, longest)
    requires l.Read? && l.s == s ==> |l.chunk| <= longest
    ensures Narrow(Apply(st, l), s, longest)
  {
    match l
    case Read(r, chunk) =>
      EmissionIsShort(st.pushed.Get(r), chunk);
      hide Limiter.Emission, Limiter.Sealing, DoFlush, DoWrite;
    case Flushes(t) =>
      NarrowFlush(st, t, s, longest);
      hide DoFlush;
    case RunNext =>
      if st.run.Sealing? {
        EmissionIsShort(st.pushed.Get(st.run.s), "");
      }
      hide Limiter.Emission, Limiter.Sealing, DoFlush, DoWrite;
    case _ =>
      hide Limiter.Emission, Limiter.Sealing, DoFlush;
  }

  lemma {:induction false} WritesAreNarrow(states: seq<State>, labels: seq<Label>, s: Stream)
    requires Run(states, labels)
    ensures Narrow(states[|labels|], s, LongestRead(labels, s))
    decreases |labels|
  {
    if labels != [] {
      var n := |labels| - 1;
      hide Apply, Enabled, Run, Narrow;
      RunSplits(states, labels);
      WritesAreNarrow(states[..n + 1], labels[..n], s);
      NarrowStays(states[n], labels[n], s, LongestRead(labels, s));
    }
  }

  /**
   Each stream has one writer at a time, so a buffer is emptied before it is written
   again: over any run, no event of a stream reaches STREAM_FLUSH_BYTES plus the longest
   write, which is the longest read of the run, or the marker and a tail.
   */
  lemma EventsAreShort(states: seq<State>, labels: seq<Label>, s: Stream, e: Event)
    requires Run(states, labels) && e in states[|labels|].w.log && e.kind == Output(s)
    ensures |e.content| < STREAM_FLUSH_BYTES + WidestWrite(LongestRead(labels, s))
  {
    EventsStayBounded(states, labels, s);
    WritesAreNarrow(states, labels, s);
    hide Run, LongestRead;
  }

  // ----- no deadlock

  /**
   Once the child's pipes are at their ends the session can always go on to close
   its writer: some goroutine can move, without a new read or a tick of the clock.
   */
  lemma NeverStuck(st: State)
    requires Inv(st) && st.run != Closed
    requires !st.drain.stdout.Reading? && !st.drain.stderr.Reading?
    ensures exists l: Label :: Enabled(st, l) && !l.Read? && !l.TickFires?
  {
    if s: Stream, t: Thread :| st.w.flushes.Get(s) == Some(t) {
      assert Holds(st, t, s);
      assert Enabled(st, Flushes(t));
    } else {
      assert st.w.flushes.Get(Stdout).None? && st.w.flushes.Get(Stderr).None?;
      if t: Thread :| FlushOf(st, t).Some? {
        assert Enabled(st, Flushes(t));
      } else if st.run.Draining? {
        assert FlushOf(st, Drainer(Stdout)).None? && FlushOf(st, Drainer(Stderr)).None?;
        assert Enabled(st, RunNext) || Enabled(st, Write(Stdout)) || Enabled(st, Write(Stderr));
      } else if st.run.Joining? {
        assert FlushOf(st, Ticker).None?;
        match st.tick
        case Waiting => assert Enabled(st, TickStops);
        case Ticking(todo) =>
          if todo == {} {
            assert Enabled(st, TickRests);
          } else {
            var s :| s in todo;
            assert Enabled(st, TickPicks(s));
          }
        case Stopped => assert Enabled(st, RunNext);
        case TickFlush(_, _, _) =>
      } else {
        assert FlushOf(st, Runner).None?;
        if st.run.Rest? && st.run.todo != {} {
          var s :| s in st.run.todo;
          assert Enabled(st, RunPicks(s));
        } else {
          assert Enabled(st, RunNext);
        }
      }
    }
  }

  // ----- the end is reached

  function FlushRank(f: Flush): nat {
    match f
    case Locking => 4
    case Taking => 3
    case Appending(_) => 2
    case Unlocking => 1
  }

  function DrainRank(pc: DrainPc): nat {
    match pc
    case Reading => 1
    case Writing(_) => 6
    case DrainFlush(f) => 1 + FlushRank(f)
    case Ended => 0
  }

  function TickRank(pc: TickPc): nat {
    match pc
    case Waiting => 1
    case Ticking(todo) => 2 + 5 * |todo|
    case TickFlush(todo, _, f) => 2 + 5 * |todo| + FlushRank(f)
    case Stopped => 0
  }

  function RunRank(pc: RunPc): nat {
    match pc
    case Draining => 27
    case Sealing(s) => if s.Stdout? then 26 else 20
    case SealWrite(s, _) => if s.Stdout? then 25 else 19
    case SealFlush(s, f) => (if s.Stdout? then 20 else 14) + FlushRank(f)
    case Closing => 14
    case Joining => 13
    case Rest(todo) => 2 + 5 * |todo|
    case RestFlush(todo, _, f) => 2 + 5 * |todo| + FlushRank(f)
    case Finishing => 1
    case Closed => 0
  }

  /** A bound on the steps still to come, but for reads and ticks. */
  function Rank(st: State): nat {
    DrainRank(st.drain.stdout) + DrainRank(st.drain.stderr) + TickRank(st.tick) + RunRank(st.run)
  }

  /** What a step costs: a read brings one write, a tick one round of flushes, any other step goes down. */
  function Cost(l: Label): int {
    if l.Read? then 5 else if l.TickFires? then 11 else -1
  }

  lemma FlushRanks(st: State, t: Thread)
    requires Enabled(st, Flushes(t))
    ensures Rank(DoFlush(st, t)) < Rank(st)
  {
  }

  lemma RunRanks(st: State)
    requires Enabled(st, RunNext)
    ensures
      var st' := Apply(st, RunNext);
      st'.drain == st.drain && st'.tick == st.tick && RunRank(st'.run) < RunRank(st.run)
  {
    hide Limiter.Sealing, Accept, Over, FlushOf, CanFlush;
    match st.run {
      case Draining => case Sealing(_) => case SealWrite(_, _) => case SealFlush(_, _) => case Closing =>
      case Joining => case Rest(_) => case RestFlush(_, _, _) => case Finishing => case Closed =>
    }
  }

  lemma TickRanks(st: State, l: Label)
    requires Enabled(st, l) && (l.TickFires? || l.TickPicks? || l.TickRests? || l.TickStops?)
    ensures
      var st' := Apply(st, l);
      st'.drain == st.drain && st'.run == st.run && TickRank(st'.tick) <= TickRank(st.tick) + Cost(l)
  {
    assert |BOTH| == 2;
  }

  lemma StepRanks(st: State, l: Label)
    requires Enabled(st, l)
    ensures Rank(Apply(st, l)) <= Rank(st) + Cost(l)
  {
    match l
    case Flushes(t) =>
      FlushRanks(st, t);
      hide Rank, DoFlush;
    case Read(_, _) =>
      hide Limiter.Emission, RunRank, TickRank;
    case RunNext =>
      RunRanks(st);
      hide RunRank, TickRank, DrainRank, Apply, Enabled;
    case Write(_) =>
      hide Accept, Over, RunRank, TickRank;
    case Eof(_) =>
      hide RunRank, TickRank;
    case RunPicks(_) =>
      hide DrainRank, TickRank;
    case _ =>
      TickRanks(st, l);
      hide DrainRank, RunRank, TickRank, Apply, Enabled;
  }

  function ReadCount(labels: seq<Label>): nat {
    if labels == [] then 0
    else ReadCount(labels[..|labels| - 1]) + if labels[|labels| - 1].Read? then 1 else 0
  }

  function TickCount(labels: seq<Label>): nat {
    if labels == [] then 0
    else TickCount(labels[..|labels| - 1]) + if labels[|labels| - 1].TickFires? then 1 else 0
  }

  /**
   Over any steps, all but reads and ticks are at most as many as the rank at the start
   and what the reads and ticks among them bring: with finitely many of those, everything
   comes to an end.
   */
  lemma {:induction false} OthersAreBounded(states: seq<State>, labels: seq<Label>)
    requires Steps(states, labels)
    ensures
      var others := |labels| - ReadCount(labels) - TickCount(labels);
      others + Rank(states[|labels|]) <= Rank(states[0]) + 5 * ReadCount(labels) + 11 * TickCount(labels)
    decreases |labels|
  {
    if labels != [] {
      var n := |labels| - 1;
      hide Apply, Enabled, Rank;
      assert Enabled(states[n], labels[n]) && states[n + 1] == Apply(states[n], labels[n]);
      OthersAreBounded(states[..n + 1], labels[..n]);
      StepRanks(states[n], labels[n]);
    }
  }

  lemma StepsCons(st: State, l: Label, later: seq<State>, laterLabels: seq<Label>)
    requires Enabled(st, l) && Steps(later, laterLabels) && later[0] == Apply(st, l)
    ensures Steps([st] + later, [l] + laterLabels)
    ensures ([st] + later)[|[l] + laterLabels|] == later[|laterLabels|]
  {
    hide Enabled, Apply;
    var states, labels := [st] + later, [l] + laterLabels;
    forall i | 0 <= i < |labels|
      ensures Enabled(states[i], labels[i]) && states[i + 1] == Apply(states[i], labels[i])
    {
      if i > 0 {
        assert states[i] == later[i - 1] && labels[i] == laterLabels[i - 1];
      }
    }
  }

  lemma SomethingMoves(st: State) returns (l: Label)
    requires Inv(st) && st.run != Closed
    ensures Enabled(st, l) && !l.Read? && !l.TickFires?
  {
    if st.drain.stdout.Reading? {
      l := Eof(Stdout);
    } else if st.drain.stderr.Reading? {
      l := Eof(Stderr);
    } else {
      NeverStuck(st);
      l :| Enabled(st, l) && !l.Read? && !l.TickFires?;
    }
  }

  /** From any state closeAll can be brought to its end, in no more steps than its rank, once the pipes end. */
  lemma {:induction false} CloseCompletes(st: State) returns (states: seq<State>, labels: seq<Label>)
    requires Inv(st)
    ensures Steps(states, labels) && states[0] == st && states[|labels|].run == Closed
    ensures |labels| <= Rank(st) && forall l | l in labels :: !l.Read? && !l.TickFires?
    decreases Rank(st)
  {
    hide Inv, Enabled, Apply, Rank;
    if st.run == Closed {
      states, labels := [st], [];
    } else {
      var l := SomethingMoves(st);
      StepKeepsInv(st, l);
      StepRanks(st, l);
      var later, laterLabels := CloseCompletes(Apply(st, l));
      StepsCons(st, l, later, laterLabels);
      states, labels := [st] + later, [l] + laterLabels;
    }
  }
}
