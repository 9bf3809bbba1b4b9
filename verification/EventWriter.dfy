/**
 internal/session/stream.go as it runs: the fields of streamWriter and the sections of
 code that change them. Each method is a step, or a few, of the machine, taken on the
 fields in place: `system` is the state of the machine they are steps of.
 */
module EventWriter {
  import opened StreamWriter
  import opened Transcript
  import opened Wrappers
  import Limiter

  class EventWriter {
    var bufs: Pair<string>
    var done: bool
    /** The session's rows of agent_session_events. */
    var log: seq<Event>
    ghost var system: State

    /** The fields are the machine's, and the machine is in order. */
    ghost predicate Valid()
      reads this
    {
      Inv(system) && bufs == system.w.bufs && done == system.w.done && log == system.w.log
    }

    /** newStreamWriter, right after the prompt was logged. */
    constructor (prompt: string)
      ensures Valid() && Init(system) && log == [Event(Prompt, prompt)]
    {
      bufs, done, log := Pair("", ""), false, [Event(Prompt, prompt)];
      system := State(Writer(Pair("", ""), Pair(None, None), false, [Event(Prompt, prompt)]), false,
                      Pair(Reading, Reading), Waiting, Draining,
                      Pair(false, false), Pair("", ""), Pair("", ""), Pair(0, 0));
      new;
      InitInv(system);
    }

    ghost method Step(l: Label)
      requires Inv(system) && Enabled(system, l)
      modifies `system
      ensures Inv(system) && system == Apply(old(system), l)
    {
      hide Inv, Enabled, Apply;
      StepKeepsInv(system, l);
      system := Apply(system, l);
    }

    /** write's section, entered with `b` by a drainer or while sealing: whether a flush must follow. */
    method Write(s: Stream, b: string, ghost l: Label) returns (over: bool)
      requires Valid() && Enabled(system, l)
      requires || (l == Label.Write(s) && system.drain.Get(s) == Writing(b))
               || (l == RunNext && system.run == SealWrite(s, b))
      modifies this
      ensures Valid() && system == Apply(old(system), l)
      ensures over == Over(old(system.w), s, b)
    {
      hide Inv;
      Step(l);
      if done {
        return false;
      }
      var buf := bufs.Get(s) + b;
      bufs := bufs.Put(s, buf);
      over := |buf| >= STREAM_FLUSH_BYTES;
    }

    /** flush's section under the writer's mutex: what it takes out of the buffer, if anything. */
    method Take(s: Stream, ghost t: Thread) returns (payload: string)
      requires Valid() && FlushOf(system, t) == Some((s, Taking))
      modifies this
      ensures Valid() && system == Apply(old(system), Flushes(t))
      ensures payload == if done then "" else old(bufs).Get(s)
      ensures FlushOf(system, t) == Some((s, if payload == "" then Unlocking else Appending(payload)))
    {
      hide Inv;
      Step(Flushes(t));
      payload := bufs.Get(s);
      if done || payload == "" {
        return "";
      }
      bufs := bufs.Put(s, "");
    }

    /** flush's append to the session's log. */
    method Append(s: Stream, payload: string, ghost t: Thread)
      requires Valid() && FlushOf(system, t) == Some((s, Appending(payload)))
      modifies this
      ensures Valid() && system == Apply(old(system), Flushes(t))
      ensures log == old(log) + [Event(Output(s), payload)]
    {
      hide Inv;
      Step(Flushes(t));
      log := log + [Event(Output(s), payload)];
    }

    /**
     flush, by thread t that finds its lock free and is not interrupted: the buffer
     becomes one event, unless it is empty.
     */
    method Flush(s: Stream, ghost t: Thread)
      requires Valid() && FlushOf(system, t) == Some((s, Locking)) && system.w.flushes.Get(s).None?
      modifies this
      ensures Valid() && done == old(done)
      ensures !done ==> bufs == old(bufs).Put(s, "")
      ensures log ==
              old(log) + if done || old(bufs).Get(s) == "" then [] else [Event(Output(s), old(bufs).Get(s))]
      ensures system == SetFlush(old(system), t, None).(w := old(system.w).(bufs := bufs, log := log))
    {
      hide Inv;
      Step(Flushes(t));
      var payload := Take(s, t);
      if payload != "" {
        Append(s, payload, t);
      }
      Step(Flushes(t));
    }

    /** flushAll, as closeAll calls it, uninterrupted. */
    method FlushAll()
      requires Valid() && system.run == Rest(BOTH) && system.w.flushes == Pair(None, None)
      modifies this
      ensures Valid() && done == old(done)
      ensures system.w.flushes == Pair(None, None)
      ensures system == old(system).(run := Rest({}), w := system.w)
    {
      hide Inv;
      Step(RunPicks(Stdout));
      Flush(Stdout, Runner);
      Step(RunPicks(Stderr));
      Flush(Stderr, Runner);
      assert BOTH - {Stdout} - {Stderr} == {};
    }

    /**
     closeAll, uninterrupted, with the ticker idle. Everything the writer ever took is
     then in the log, in order, stream by stream, and nothing more can get in.
     */
    method CloseAll()
      requires Valid() && system.run == Closing && system.tick == Waiting && system.w.flushes == Pair(None, None)
      modifies this
      ensures Valid() && system.run == Closed && done && bufs == Pair("", "")
      ensures Logged(log, Stdout) == system.accepted.stdout == Limiter.Elide(old(system.pushed.stdout))
      ensures Logged(log, Stderr) == system.accepted.stderr == Limiter.Elide(old(system.pushed.stderr))
    {
      hide Inv, Limiter.Elide, Logged;
      Step(RunNext);
      Step(TickStops);
      Step(RunNext);
      FlushAll();
      Step(RunNext);
      Step(RunNext);
      done := true;
      AllIsLogged(system);
    }
  }

  /** Once all is closed the buffers are empty and the log holds what the writer accepted. */
  lemma AllIsLogged(st: State)
    requires Inv(st) && st.run == Closed
    ensures st.w.bufs == Pair("", "")
    ensures Logged(st.w.log, Stdout) == st.accepted.stdout == Limiter.Elide(st.pushed.stdout)
    ensures Logged(st.w.log, Stderr) == st.accepted.stderr == Limiter.Elide(st.pushed.stderr)
  {
    ClosedIsDrained(st, Stdout);
    ClosedIsDrained(st, Stderr);
    hide LocksAgree, Limiter.Elide, Logged;
    assert Emptied(st, Stdout) && Emptied(st, Stderr);
    assert ConservedOn(st, Stdout) && ConservedOn(st, Stderr);
  }
}
