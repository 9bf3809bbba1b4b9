/** What the ticker and the threshold of the stream writer are for: text that does not wait long, in events that are not small. */
module Ticks {
  import opened StreamWriter
  import opened Transcript
  import opened Wrappers
  import Limiter

  // ----- a tick leaves nothing older than itself unlogged

  /** The ticker is in a round, and where it has been, what was accepted by `acc` is logged, or in its hands. */
  predicate Caught(st: State, s: Stream, acc: string) {
    && acc <= st.accepted.Get(s)
    && match st.tick
       case Ticking(todo) => s !in todo ==> acc <= Logged(st.w.log, s)
       case TickFlush(todo, r, f) =>
         if r != s then s !in todo ==> acc <= Logged(st.w.log, s)
         else
           && s !in todo
           && (f.Appending? ==> acc <= Logged(st.w.log, s) + f.payload)
           && (f.Unlocking? ==> acc <= Logged(st.w.log, s))
       case _ => false
  }

  lemma AcceptedGrows(st: State, l: Label, s: Stream)
    requires Enabled(st, l)
    ensures st.accepted.Get(s) <= Apply(st, l).accepted.Get(s)
  {
    hide Limiter.Emission, Limiter.Sealing, FlushWriter, Over;
  }

  lemma TickerLogs(st: State, s: Stream)
    requires Enabled(st, Flushes(Ticker)) && st.tick.TickFlush? && st.tick.s == s && !st.w.done
    ensures
      var st', f, buf := DoFlush(st, Ticker), st.tick.f, st.w.bufs.Get(s);
      && st'.accepted == st.accepted
      && st'.tick == (match f
                      case Locking => st.tick.(f := Taking)
                      case Taking => st.tick.(f := if buf == "" then Unlocking else Appending(buf))
                      case Appending(_) => st.tick.(f := Unlocking)
                      case Unlocking => Ticking(st.tick.todo))
      && Logged(st'.w.log, s) == Logged(st.w.log, s) + if f.Appending? then f.payload else ""
  {
    if st.tick.f.Appending? {
      LoggedAppend(st.w.log, Event(Output(s), st.tick.f.payload), s);
    }
    hide Logged;
  }

  /** When the ticker takes the buffer, that and the log are all that was accepted. */
  lemma TickerTakesAll(st: State, s: Stream)
    requires Inv(st) && Enabled(st, Flushes(Ticker)) && st.tick.TickFlush? && st.tick.s == s
    ensures !st.w.done && (st.tick.f.Taking? ==> Logged(st.w.log, s) + st.w.bufs.Get(s) == st.accepted.Get(s))
  {
    FlushInFlight(st, Ticker, s);
    assert ConservedOn(st, s);
    hide InFlight, Logged, LocksAgree, Pending, Released, EmptiedAreEmpty, ChunksNonEmpty, DoFlush;
  }

  /** The ticker's own flush of stream s. */
  lemma TickerFlushes(st: State, s: Stream, acc: string)
    requires Inv(st) && Enabled(st, Flushes(Ticker)) && Caught(st, s, acc) && st.tick.TickFlush? && st.tick.s == s
    ensures Caught(DoFlush(st, Ticker), s, acc)
  {
    TickerTakesAll(st, s);
    TickerLogs(st, s);
    hide Inv, Enabled, DoFlush, Logged;
  }

  /** Only a flush that has taken something logs. */
  lemma LogsByFlush(st: State, l: Label)
    requires Enabled(st, l)
    ensures
      Apply(st, l).w.log == st.w.log
      || (l.Flushes? && FlushOf(st, l.t).Some? && FlushOf(st, l.t).value.1.Appending?
          && Apply(st, l).w.log ==
             st.w.log + [Event(Output(FlushOf(st, l.t).value.0), FlushOf(st, l.t).value.1.payload)])
  {
    hide Limiter.Emission, Limiter.Sealing, Over;
  }

  lemma OneHolder(st: State, t: Thread, u: Thread, s: Stream)
    requires LocksAgree(st) && Holds(st, t, s) && Holds(st, u, s)
    ensures t == u
  {
    assert st.w.flushes.Get(s) == Some(t) && st.w.flushes.Get(s) == Some(u);
  }

  /** While the ticker holds what it took, nobody else logs to the stream. */
  lemma OthersWait(st: State, l: Label, s: Stream)
    requires LocksAgree(st) && Enabled(st, l) && l != Flushes(Ticker)
    requires st.tick.TickFlush? && st.tick.s == s && st.tick.f.Appending?
    ensures Logged(Apply(st, l).w.log, s) == Logged(st.w.log, s)
  {
    LogsByFlush(st, l);
    hide LocksAgree, Enabled, Apply, Logged;
    if Apply(st, l).w.log != st.w.log {
      var (r, f) := FlushOf(st, l.t).value;
      if r == s {
        OneHolder(st, l.t, Ticker, s);
      }
      LoggedAppend(st.w.log, Event(Output(r), f.payload), s);
    }
  }

  /** Any other step finds the ticker in its round and leaves it there, with no less logged. */
  lemma OthersCatch(st: State, l: Label, s: Stream, acc: string)
    requires LocksAgree(st) && Enabled(st, l) && Caught(st, s, acc) && !l.TickRests?
    requires !(l == Flushes(Ticker) && st.tick.TickFlush? && st.tick.s == s)
    ensures Caught(Apply(st, l), s, acc)
  {
    StepLogs(st, l, s);
    AcceptedGrows(st, l, s);
    TickerPlace(st, l, s);
    if st.tick.TickFlush? && st.tick.s == s && st.tick.f.Appending? {
      OthersWait(st, l, s);
    }
    hide Enabled, Apply, Logged, LocksAgree;
  }

  /** Where the ticker is after a step that is not of its own flush of s. */
  lemma TickerPlace(st: State, l: Label, s: Stream)
    requires Enabled(st, l) && (st.tick.Ticking? || st.tick.TickFlush?) && !l.TickRests?
    requires !(l == Flushes(Ticker) && st.tick.TickFlush? && st.tick.s == s)
    ensures
      var was, now := st.tick, Apply(st, l).tick;
      || now == was
      || (was.TickFlush? && was.s != s && now == Ticking(was.todo))
      || (was.TickFlush? && was.s != s && now.TickFlush? && now.s == was.s && now.todo == was.todo)
      || (was.Ticking? && l.TickPicks? && now == TickFlush(was.todo - {l.s}, l.s, Locking))
  {
    hide Limiter.Emission, Limiter.Sealing, FlushWriter, Over, Accept;
  }

  lemma StepCatches(st: State, l: Label, s: Stream, acc: string)
    requires Inv(st) && Enabled(st, l) && Caught(st, s, acc) && !l.TickRests?
    ensures Caught(Apply(st, l), s, acc)
  {
    if l == Flushes(Ticker) && st.tick.TickFlush? && st.tick.s == s {
      TickerFlushes(st, s, acc);
    } else {
      OthersCatch(st, l, s, acc);
    }
    hide Inv, Enabled, Caught, DoFlush;
  }

  lemma {:induction false} RoundCatches(states: seq<State>, labels: seq<Label>, s: Stream, acc: string)
    requires Steps(states, labels) && Inv(states[0]) && Caught(states[0], s, acc)
    requires forall l | l in labels :: !l.TickRests?
    ensures Inv(states[|labels|]) && Caught(states[|labels|], s, acc)
    decreases |labels|
  {
    if labels != [] {
      var n := |labels| - 1;
      assert Enabled(states[n], labels[n]) && states[n + 1] == Apply(states[n], labels[n]);
      hide Inv, Enabled, Apply, Caught;
      RoundCatches(states[..n + 1], labels[..n], s, acc);
      StepCatches(states[n], labels[n], s, acc);
      StepKeepsInv(states[n], labels[n]);
    }
  }

  lemma TickStarts(st: State, l: Label, s: Stream)
    requires Enabled(st, l) && l.TickFires?
    ensures Caught(Apply(st, l), s, st.accepted.Get(s))
  {
  }

  lemma RoundIsOver(st: State, l: Label, s: Stream, acc: string)
    requires Enabled(st, l) && l.TickRests? && Caught(st, s, acc)
    ensures acc <= Logged(st.w.log, s)
  {
  }

  /** A stretch of a run: from after step a to before step b. */
  lemma Stretch(states: seq<State>, labels: seq<Label>, a: nat, b: nat)
    requires Run(states, labels) && a < b < |labels|
    ensures |states| == |labels| + 1 && Run(states[..a + 1], labels[..a]) && Steps(states[a + 1..b + 1], labels[a + 1..b])
    ensures Enabled(states[a], labels[a]) && states[a + 1] == Apply(states[a], labels[a]) && Enabled(states[b], labels[b])
  {
    hide Enabled, Apply, Init;
    assert Enabled(states[a], labels[a]) && states[a + 1] == Apply(states[a], labels[a]);
    assert Enabled(states[b], labels[b]);
  }

  /** When the round that a tick starts is over, all that was accepted before the tick is in the log. */
  lemma TickLogsAll(states: seq<State>, labels: seq<Label>, a: nat, b: nat, s: Stream)
    requires Run(states, labels) && a < b < |labels| && labels[a].TickFires? && labels[b].TickRests?
    requires forall k | a < k < b :: !labels[k].TickRests?
    ensures |states| == |labels| + 1 && states[a].accepted.Get(s) <= Logged(states[b].w.log, s)
  {
    hide *;
    Stretch(states, labels, a, b);
    var acc, round := states[a].accepted.Get(s), labels[a + 1..b];
    TickStarts(states[a], labels[a], s);
    RunKeepsInv(states[..a + 1], labels[..a]);
    StepKeepsInv(states[a], labels[a]);
    forall l | l in round
      ensures !l.TickRests?
    {
      var k :| 0 <= k < |round| && round[k] == l;
      assert labels[a + 1 + k] == l;
    }
    RoundCatches(states[a + 1..b + 1], round, s, acc);
    assert states[a + 1..b + 1][|round|] == states[b];
    RoundIsOver(states[b], labels[b], s, acc);
  }

  // ----- small events are few

  /** The events of a stream that are smaller than the threshold. */
  function SmallEvents(log: seq<Event>, s: Stream): nat {
    if log == [] then 0
    else
      var last := log[|log| - 1];
      SmallEvents(log[..|log| - 1], s) + if last.kind == Output(s) && |last.content| < STREAM_FLUSH_BYTES then 1 else 0
  }

  lemma SmallAppend(log: seq<Event>, e: Event, s: Stream)
    ensures SmallEvents(log + [e], s) ==
            SmallEvents(log, s) + if e.kind == Output(s) && |e.content| < STREAM_FLUSH_BYTES then 1 else 0
  {
    assert (log + [e])[..|log|] == log;
  }

  /** A flush of the stream that a tick, or the end, calls for. */
  predicate Picks(l: Label, s: Stream) {
    l == TickPicks(s) || l == RunPicks(s)
  }

  function PickCount(labels: seq<Label>, s: Stream): nat {
    if labels == [] then 0
    else PickCount(labels[..|labels| - 1], s) + if Picks(labels[|labels| - 1], s) then 1 else 0
  }

  /** A flush that a full buffer called for finds it full, or finds it empty. */
  predicate FullOrEmpty(buf: string, f: Flush) {
    match f
    case Locking => buf == "" || |buf| >= STREAM_FLUSH_BYTES
    case Taking => buf == "" || |buf| >= STREAM_FLUSH_BYTES
    case Appending(payload) => |payload| >= STREAM_FLUSH_BYTES
    case Unlocking => true
  }

  predicate Worthwhile(st: State, s: Stream) {
    && (st.drain.Get(s).DrainFlush? ==> FullOrEmpty(st.w.bufs.Get(s), st.drain.Get(s).f))
    && (st.run.SealFlush? && st.run.s == s ==> FullOrEmpty(st.w.bufs.Get(s), st.run.f))
  }

  /** The flushes of the stream under way that may yet log a small event. */
  function Owed(st: State, s: Stream): nat {
    (if st.tick.TickFlush? && st.tick.s == s && !st.tick.f.Unlocking? then 1 else 0)
    + (if st.run.RestFlush? && st.run.s == s && !st.run.f.Unlocking? then 1 else 0)
  }

  lemma FlushKeepsWorth(st: State, t: Thread, s: Stream)
    requires Enabled(st, Flushes(t)) && Worthwhile(st, s)
    ensures Worthwhile(DoFlush(st, t), s)
  {
    match t
    case Drainer(_) =>
    case Ticker =>
    case Runner =>
  }

  /** Thread t is in a flush that a tick or the end called for. */
  predicate CalledFor(st: State, t: Thread) {
    t.Ticker? || (t.Runner? && st.run.RestFlush?)
  }

  lemma FlushOwes(st: State, t: Thread, s: Stream)
    requires Enabled(st, Flushes(t))
    ensures
      var (r, f) := FlushOf(st, t).value;
      var spared := if f.Appending? && r == s && CalledFor(st, t) then 1 else 0;
      Owed(DoFlush(st, t), s) + spared <= Owed(st, s)
  {
    hide FlushWriter;
    match t
    case Drainer(_) =>
    case Ticker =>
    case Runner =>
  }

  lemma OthersAreLarge(st: State, t: Thread, s: Stream)
    requires FlushOf(st, t).Some? && FlushOf(st, t).value.0 == s && FlushOf(st, t).value.1.Appending?
    requires Worthwhile(st, s) && !CalledFor(st, t)
    ensures |FlushOf(st, t).value.1.payload| >= STREAM_FLUSH_BYTES
  {
  }

  lemma FlushLogs(st: State, t: Thread, s: Stream)
    requires Enabled(st, Flushes(t)) && Worthwhile(st, s)
    ensures
      var (r, f) := FlushOf(st, t).value;
      var spared := if f.Appending? && r == s && CalledFor(st, t) then 1 else 0;
      SmallEvents(DoFlush(st, t).w.log, s) <= SmallEvents(st.w.log, s) + spared
  {
    LogsByFlush(st, Flushes(t));
    var (r, f) := FlushOf(st, t).value;
    if f.Appending? {
      SmallAppend(st.w.log, Event(Output(r), f.payload), s);
      if r == s && !CalledFor(st, t) {
        OthersAreLarge(st, t, s);
      }
    }
    hide SmallEvents, DoFlush, FlushOf, Worthwhile, CalledFor;
  }

  /** A flush step of thread t. */
  lemma FlushIsWorthwhile(st: State, t: Thread, s: Stream)
    requires Enabled(st, Flushes(t)) && Worthwhile(st, s)
    ensures Worthwhile(DoFlush(st, t), s)
    ensures SmallEvents(DoFlush(st, t).w.log, s) + Owed(DoFlush(st, t), s) <= SmallEvents(st.w.log, s) + Owed(st, s)
  {
    FlushKeepsWorth(st, t, s);
    FlushOwes(st, t, s);
    FlushLogs(st, t, s);
    hide SmallEvents, Owed, DoFlush, Worthwhile;
  }

  lemma StepIsWorthwhile(st: State, l: Label, s: Stream)
    requires StagesAgree(st) && Enabled(st, l) && Worthwhile(st, s)
    ensures Worthwhile(Apply(st, l), s)
    ensures SmallEvents(Apply(st, l).w.log, s) + Owed(Apply(st, l), s) <=
            SmallEvents(st.w.log, s) + Owed(st, s) + if Picks(l, s) then 1 else 0
  {
    hide SmallEvents, Limiter.Emission, Limiter.Sealing;
    match l
    case Flushes(t) => FlushIsWorthwhile(st, t, s); hide DoFlush, Worthwhile, Owed;
    case Write(_) =>
    case RunNext =>
    case _ =>
  }

  /**
   What coalescing is for: a stream has no more events below the threshold than it had
   flushes that a tick or the end called for. All others are at least that large.
   */
  lemma {:induction false} SmallEventsAreFew(states: seq<State>, labels: seq<Label>, s: Stream)
    requires Run(states, labels)
    ensures Worthwhile(states[|labels|], s)
    ensures SmallEvents(states[|labels|].w.log, s) + Owed(states[|labels|], s) <= PickCount(labels, s)
    decreases |labels|
  {
    if labels == [] {
      assert states[0].w.log[..0] == [];
    } else {
      var n := |labels| - 1;
      RunSplits(states, labels);
      RunKeepsInv(states[..n + 1], labels[..n]);
      hide Run, Enabled, Apply, Worthwhile, Owed, SmallEvents, LocksAgree, Conserved, EmptiedAreEmpty, ChunksNonEmpty;
      SmallEventsAreFew(states[..n + 1], labels[..n], s);
      StepIsWorthwhile(states[n], labels[n], s);
    }
  }
}
