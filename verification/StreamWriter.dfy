/**
 internal/session/stream.go with the goroutines of internal/runner/exec.go that
 drive it. Two drainers read the child's pipes through their limiters into the
 writer, a ticker flushes on a timer, and the goroutine running the session seals
 the limiters and closes the writer. A step is one mutex section, one append to the
 session's event log, or one read; any goroutine that can move may move next.
 */
module StreamWriter {
  import opened Text
  import opened Wrappers
  import Limiter

  const STREAM_FLUSH_BYTES: nat := 8 * 1024

  datatype Stream = Stdout | Stderr

  /** One value for each of the two streams. */
  datatype Pair<T> = Pair(stdout: T, stderr: T) {
    function Get(s: Stream): T {
      if s.Stdout? then stdout else stderr
    }

    function Put(s: Stream, v: T): Pair<T> {
      if s.Stdout? then this.(stdout := v) else this.(stderr := v)
    }
  }

  // ----- the event log of one session

  datatype Kind = Prompt | Output(stream: Stream) | Exit | Error

  datatype Event = Event(kind: Kind, content: string)

  /** The content logged for stream `s`, in log order. */
  function Logged(log: seq<Event>, s: Stream): string {
    if log == [] then ""
    else
      var last := log[|log| - 1];
      Logged(log[..|log| - 1], s) + if last.kind == Output(s) then last.content else ""
  }

  lemma LoggedAppend(log: seq<Event>, e: Event, s: Stream)
    ensures Logged(log + [e], s) == Logged(log, s) + if e.kind == Output(s) then e.content else ""
  {
    assert (log + [e])[..|log|] == log;
  }

  /** collectStdout: the reply a session's log holds; none if the log cannot be read. */
  method CollectStdout(rows: Option<seq<Event>>) returns (reply: string)
    ensures reply == if rows.None? then "" else TrimSpace(Logged(rows.value, Stdout))
  {
    if rows.None? {
      return "";
    }
    var log, b := rows.value, "";
    for i := 0 to |log|
      invariant b == Logged(log[..i], Stdout)
    {
      LoggedAppend(log[..i], log[i], Stdout);
      assert log[..i] + [log[i]] == log[..i + 1];
      if log[i].kind == Output(Stdout) {
        b := b + log[i].content;
      }
    }
    assert log[..|log|] == log;
    reply := TrimSpace(b);
  }

  // ----- the writer and its critical sections

  datatype Thread = Drainer(stream: Stream) | Ticker | Runner

  /** `flushes` holds, for each stream, the owner of its flush lock. */
  datatype Writer = Writer(bufs: Pair<string>, flushes: Pair<Option<Thread>>, done: bool, log: seq<Event>)

  /** write, under the writer's mutex. */
  function Accept(w: Writer, s: Stream, b: string): Writer {
    if w.done then w else w.(bufs := w.bufs.Put(s, w.bufs.Get(s) + b))
  }

  /** Whether that write must be followed by a flush. */
  predicate Over(w: Writer, s: Stream, b: string) {
    !w.done && |w.bufs.Get(s) + b| >= STREAM_FLUSH_BYTES
  }

  /** flush, cut where another goroutine can run. */
  datatype Flush = Locking | Taking | Appending(payload: string) | Unlocking

  predicate CanFlush(w: Writer, s: Stream, f: Flush) {
    f.Locking? ==> w.flushes.Get(s).None?
  }

  function FlushWriter(w: Writer, t: Thread, s: Stream, f: Flush): Writer {
    match f
    case Locking => w.(flushes := w.flushes.Put(s, Some(t)))
    case Taking => if w.done then w else w.(bufs := w.bufs.Put(s, ""))
    case Appending(payload) => w.(log := w.log + [Event(Output(s), payload)])
    case Unlocking => w.(flushes := w.flushes.Put(s, None))
  }

  /** Where the flush stands after its next step; None once it has returned. */
  function FlushNext(w: Writer, s: Stream, f: Flush): Option<Flush> {
    match f
    case Locking => Some(Taking)
    case Taking => Some(if w.done || w.bufs.Get(s) == "" then Unlocking else Appending(w.bufs.Get(s)))
    case Appending(_) => Some(Unlocking)
    case Unlocking => None
  }

  // ----- the goroutines

  datatype DrainPc =
    | Reading
    | Writing(out: string)
    | DrainFlush(f: Flush)
    | Ended

  datatype TickPc =
    | Waiting
    | Ticking(todo: set<Stream>)
    | TickFlush(todo: set<Stream>, s: Stream, f: Flush)
    | Stopped

  datatype RunPc =
    | Draining                                          // the child runs
    | Sealing(s: Stream)
    | SealWrite(s: Stream, out: string)
    | SealFlush(s: Stream, f: Flush)
    | Closing                                           // closeAll: close(stop)
    | Joining                                           // closeAll: wg.Wait
    | Rest(todo: set<Stream>)                           // closeAll: flushAll
    | RestFlush(todo: set<Stream>, s: Stream, f: Flush)
    | Finishing                                         // closeAll: done = true
    | Closed

  /**
   `pushed`, `accepted` and `widest` are history: the bytes read from each pipe,
   the bytes the writer took, and the longest single write it took.
   */
  datatype State = State(
    w: Writer, stop: bool,
    drain: Pair<DrainPc>, tick: TickPc, run: RunPc,
    sealed: Pair<bool>, pushed: Pair<string>, accepted: Pair<string>, widest: Pair<nat>)

  const BOTH: set<Stream> := {Stdout, Stderr}

  predicate Init(st: State) {
    && st.w.bufs == Pair("", "") && st.w.flushes == Pair(None, None) && !st.w.done
    && |st.w.log| == 1 && st.w.log[0].kind == Prompt
    && !st.stop && st.drain == Pair(Reading, Reading) && st.tick == Waiting && st.run == Draining
    && st.sealed == Pair(false, false)
    && st.pushed == Pair("", "") && st.accepted == Pair("", "") && st.widest == Pair(0, 0)
  }

  /** The flush thread `t` is in the middle of, and its stream. */
  function FlushOf(st: State, t: Thread): Option<(Stream, Flush)> {
    match t
    case Drainer(s) => if st.drain.Get(s).DrainFlush? then Some((s, st.drain.Get(s).f)) else None
    case Ticker => if st.tick.TickFlush? then Some((st.tick.s, st.tick.f)) else None
    case Runner =>
      if st.run.SealFlush? || st.run.RestFlush? then Some((st.run.s, st.run.f)) else None
  }

  function AfterSeal(s: Stream): RunPc {
    if s.Stdout? then Sealing(Stderr) else Closing
  }

  /** `st` with thread `t` at the point of its flush given by `next`. */
  function SetFlush(st: State, t: Thread, next: Option<Flush>): State
    requires FlushOf(st, t).Some?
  {
    match t
    case Drainer(s) => st.(drain := st.drain.Put(s, if next.Some? then DrainFlush(next.value) else Reading))
    case Ticker => st.(tick := if next.Some? then st.tick.(f := next.value) else Ticking(st.tick.todo))
    case Runner =>
      if next.Some? then st.(run := st.run.(f := next.value))
      else st.(run := if st.run.SealFlush? then AfterSeal(st.run.s) else Rest(st.run.todo))
  }

  datatype Label =
    | Read(s: Stream, chunk: string)   // a drainer's read returns bytes, its limiter takes them
    | Eof(s: Stream)                   // a drainer's read fails
    | Write(s: Stream)                 // a drainer enters write
    | Flushes(t: Thread)               // t takes one step of its flush
    | TickFires
    | TickPicks(s: Stream)             // flushAll's next stream, in any order
    | TickRests
    | TickStops
    | RunPicks(s: Stream)
    | RunNext

  predicate Enabled(st: State, l: Label) {
    match l
    case Read(s, chunk) => st.drain.Get(s).Reading? && chunk != ""
    case Eof(s) => st.drain.Get(s).Reading?
    case Write(s) => st.drain.Get(s).Writing?
    case Flushes(t) =>
      FlushOf(st, t).Some? && CanFlush(st.w, FlushOf(st, t).value.0, FlushOf(st, t).value.1)
    case TickFires => st.tick.Waiting?
    case TickPicks(s) => st.tick.Ticking? && s in st.tick.todo
    case TickRests => st.tick == Ticking({})
    case TickStops => st.tick.Waiting? && st.stop
    case RunPicks(s) => st.run.Rest? && s in st.run.todo
    case RunNext =>
      match st.run
      case Draining => st.drain == Pair(Ended, Ended)
      case Joining => st.tick.Stopped?
      case Rest(todo) => todo == {}
      case SealFlush(_, _) => false
      case RestFlush(_, _, _) => false
      case Closed => false
      case _ => true
  }

  /** `st` after the writer was offered `b` on stream `s`. */
  function Offer(st: State, s: Stream, b: string): State {
    if st.w.done then st
    else st.(
      w := Accept(st.w, s, b),
      accepted := st.accepted.Put(s, st.accepted.Get(s) + b),
      widest := st.widest.Put(s, if |b| > st.widest.Get(s) then |b| else st.widest.Get(s)))
  }

  function DoRead(st: State, s: Stream, chunk: string): State {
    var out := Limiter.Emission(st.pushed.Get(s), chunk);
    st.(pushed := st.pushed.Put(s, st.pushed.Get(s) + chunk),
    drain := st.drain.Put(s, if out == "" then Reading else Writing(out)))
  }

  function DoWrite(st: State, s: Stream): State
    requires st.drain.Get(s).Writing?
  {
    var out := st.drain.Get(s).out;
    Offer(st, s, out).(drain := st.drain.Put(s, if Over(st.w, s, out) then DrainFlush(Locking) else Reading))
  }

  function DoFlush(st: State, t: Thread): State
    requires FlushOf(st, t).Some?
  {
    var (s, f) := FlushOf(st, t).value;
    SetFlush(st, t, FlushNext(st.w, s, f)).(w := FlushWriter(st.w, t, s, f))
  }

  function DoSeal(st: State, s: Stream): State {
    var out := Limiter.Sealing(st.pushed.Get(s));
    st.(sealed := st.sealed.Put(s, true), run := if out == "" then AfterSeal(s) else SealWrite(s, out))
  }

  function DoSealWrite(st: State, s: Stream, out: string): State {
    Offer(st, s, out).(run := if Over(st.w, s, out) then SealFlush(s, Locking) else AfterSeal(s))
  }

  function Apply(st: State, l: Label): State
    requires Enabled(st, l)
  {
    match l
    case Read(s, chunk) => DoRead(st, s, chunk)
    case Eof(s) => st.(drain := st.drain.Put(s, Ended))
    case Write(s) => DoWrite(st, s)
    case Flushes(t) => DoFlush(st, t)
    case TickFires => st.(tick := Ticking(BOTH))
    case TickPicks(s) => st.(tick := TickFlush(st.tick.todo - {s}, s, Locking))
    case TickRests => st.(tick := Waiting)
    case TickStops => st.(tick := Stopped)
    case RunPicks(s) => st.(run := RestFlush(st.run.todo - {s}, s, Locking))
    case RunNext =>
      match st.run
      case Draining => st.(run := Sealing(Stdout))
      case Sealing(s) => DoSeal(st, s)
      case SealWrite(s, out) => DoSealWrite(st, s, out)
      case Closing => st.(stop := true, run := Joining)
      case Joining => st.(run := Rest(BOTH))
      case Rest(_) => st.(run := Finishing)
      case Finishing => st.(w := st.w.(done := true), run := Closed)
  }

  /** `states` is a run: it starts fresh and each state follows from the one before by its label. */
  ghost predicate Run(states: seq<State>, labels: seq<Label>) {
    Steps(states, labels) && Init(states[0])
  }

  ghost predicate Steps(states: seq<State>, labels: seq<Label>) {
    && |states| == |labels| + 1
    && forall i | 0 <= i < |labels| :: Enabled(states[i], labels[i]) && states[i + 1] == Apply(states[i], labels[i])
  }

  /** The bytes read from stream `s` over a run. */
  function BytesRead(labels: seq<Label>, s: Stream): string {
    if labels == [] then ""
    else
      var last := labels[|labels| - 1];
      BytesRead(labels[..|labels| - 1], s) + if last.Read? && last.s == s then last.chunk else ""
  }
}
