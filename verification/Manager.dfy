/**
 internal/session/manager.go as it runs: the fields of Manager and the sections of
 code that change them under its mutex, on its semaphore and on its WaitGroup. Each
 method is one step of the machine, taken on the fields in place: `system` is the
 state of the machine it is a step of, rows and goroutines included.
 */
module Manager {
  import opened SessionManager
  import opened SessionInvariant

  class Manager {
    var queued: set<nat>
    /** The keys of the map to cancel functions. */
    var running: set<nat>
    var closed: bool
    var ctxDone: bool
    /** How many slots of the semaphore are taken. */
    var slots: nat
    /** The WaitGroup's counter. */
    var live: nat
    ghost var system: State

    /** The fields are the machine's, and the machine is in order. */
    ghost predicate Valid()
      reads this
    {
      && Inv(system)
      && queued == system.queued && running == system.running && closed == system.closed && ctxDone == system.ctxDone
      && slots == system.sem && live == system.wg
    }

    /** NewManager, over the messages there are. */
    constructor (ghost posts: seq<Post>)
      requires forall i | 0 <= i < |posts| :: posts[i].writer.None?
      ensures Valid() && Init(system) && system.posts == posts
    {
      queued, running, closed, ctxDone, slots, live := {}, {}, false, false, 0, 0;
      system := State([], posts, {}, {}, false, false, 0, 0, NotCalled, []);
      new;
      InitInv(system);
    }

    ghost method Step(l: Label)
      requires Inv(system) && Enabled(system, l)
      modifies `system
      ensures Inv(system) && system == Apply(old(system), l)
    {
      hide Inv, Enabled, Apply;
      StepKeepsInv(system, l);
      system := Apply(system, l);
    }

    /** Start's section: whether to launch the goroutine. */
    method Register(id: nat) returns (launch: bool)
      requires Valid() && Enabled(system, Label.Register(id))
      modifies this
      ensures Valid() && system == Apply(old(system), Label.Register(id))
      ensures launch == !closed == (system.sessions[id].pc == Admission(Selecting))
    {
      hide Inv;
      Step(Label.Register(id));
      if closed {
        return false;
      }
      queued := queued + {id};
      live := live + 1;
      return true;
    }

    /** dispatch's select, where a slot is free. */
    method TakeSlot(id: nat)
      requires Valid() && Enabled(system, Dispatch(id, SLOT)) && system.sessions[id].pc == Admission(Selecting)
      modifies this
      ensures Valid() && system == Apply(old(system), Dispatch(id, SLOT))
    {
      hide Inv;
      Step(Dispatch(id, SLOT));
      slots := slots + 1;
    }

    /** dispatch's section: whether to go on to run. */
    method Admit(id: nat, ghost c: Choice) returns (go: bool)
      requires Valid() && Enabled(system, Dispatch(id, c)) && system.sessions[id].pc == Admission(Admitting)
      modifies this
      ensures Valid() && system == Apply(old(system), Dispatch(id, c))
      ensures go == !closed == (system.sessions[id].pc == Executing(Marking))
    {
      hide Inv;
      Step(Dispatch(id, c));
      if closed {
        return false;
      }
      queued := queued - {id};
      running := running + {id};
      return true;
    }

    method DropQueued(id: nat, ghost c: Choice)
      requires Valid() && Enabled(system, Dispatch(id, c))
      requires system.sessions[id].pc == Admission(DropOnCtx) || system.sessions[id].pc == Admission(DropOnClosed)
      modifies this
      ensures Valid() && system == Apply(old(system), Dispatch(id, c))
    {
      hide Inv;
      Step(Dispatch(id, c));
      queued := queued - {id};
    }

    /** dispatch's deferred calls, last first: leave the running map, free the slot, tell the WaitGroup. */
    method Unwind(id: nat, ghost c: Choice)
      requires Valid() && Enabled(system, Dispatch(id, c)) && system.sessions[id].pc == Ending(Unwinding)
      modifies this
      ensures Valid() && system == Apply(old(system), Dispatch(id, c))
    {
      hide Inv;
      Step(Dispatch(id, c));
      running := running - {id};
    }

    method FreeSlot(id: nat, ghost c: Choice)
      requires Valid() && Enabled(system, Dispatch(id, c)) && system.sessions[id].pc == Ending(Releasing)
      modifies this
      ensures Valid() && system == Apply(old(system), Dispatch(id, c))
    {
      hide Inv;
      Step(Dispatch(id, c));
      slots := slots - 1;
    }

    method Leave(id: nat, ghost c: Choice)
      requires Valid() && Enabled(system, Dispatch(id, c)) && system.sessions[id].pc == Ending(Leaving)
      modifies this
      ensures Valid() && system == Apply(old(system), Dispatch(id, c))
    {
      hide Inv;
      Step(Dispatch(id, c));
      live := live - 1;
    }

    /** Cancel's section: whether it found a cancel function to call. */
    method LookUp(ghost call: nat, id: nat) returns (found: bool)
      requires Valid() && Enabled(system, CancelStep(call)) && system.cancels[call] == Looking(id)
      modifies this
      ensures Valid() && system == Apply(old(system), CancelStep(call))
      ensures system.cancels[call] == if found then Calling(id) else Writing(id)
    {
      hide Inv;
      Step(CancelStep(call));
      return id in running;
    }

    /** Shutdown's section: it closes the manager and takes the queue away. */
    method Close() returns (snapshot: seq<nat>)
      requires Valid() && Enabled(system, ShutdownClose)
      modifies this
      ensures Valid() && system == Apply(old(system), ShutdownClose)
      ensures closed && queued == {}
      ensures (forall id :: id in snapshot <==> id in old(queued))
      ensures forall i, j | 0 <= i < j < |snapshot| :: snapshot[i] != snapshot[j]
    {
      hide Inv;
      Step(ShutdownClose);
      closed := true;
      snapshot := [];
      var rest := queued;
      while rest != {}
        invariant rest <= queued
        invariant forall id :: id in snapshot <==> id in queued - rest
        invariant forall i, j | 0 <= i < j < |snapshot| :: snapshot[i] != snapshot[j]
      {
        var id :| id in rest;
        assert id !in snapshot;
        snapshot := snapshot + [id];
        rest := rest - {id};
      }
      queued := {};
    }

    /** Shutdown cancels the manager's context. */
    method CancelContext()
      requires Valid() && Enabled(system, ShutdownCancel)
      modifies this
      ensures Valid() && system == Apply(old(system), ShutdownCancel)
    {
      hide Inv;
      Step(ShutdownCancel);
      ctxDone := true;
    }

    /**
     Shutdown, run without interruption: it closes the manager, cancels its context and
     finishes the rows that were queued. It waits for nothing: no goroutine has moved,
     and no other row has changed. A second call does nothing.
     */
    method Shutdown()
      requires Valid() && (system.shutdown.NotCalled? || system.shutdown.ShutDown?)
      modifies this
      ensures Valid() && system.shutdown.ShutDown? && closed && ctxDone && queued == {}
      ensures running == old(running) && slots == old(slots) && live == old(live)
      ensures |system.sessions| == |old(system.sessions)|
      ensures forall i | 0 <= i < |system.sessions| ::
                system.sessions[i] ==
                if i in old(queued) then Finish(old(system.sessions)[i], Canceled) else old(system.sessions)[i]
    {
      hide Inv, Finish;
      GlobalFacts(system);
      if !closed {
        ghost var before := system;
        var snapshot := Close();
        CancelContext();
        for i := 0 to |snapshot|
          invariant Valid() && closed && ctxDone && queued == {}
          invariant running == old(running) && slots == old(slots) && live == old(live)
          invariant system.shutdown.FinishingQueued? && forall id :: id in system.shutdown.left <==> id in snapshot[i..]
          invariant |system.sessions| == |before.sessions|
          invariant forall k | 0 <= k < |system.sessions| ::
                      system.sessions[k] ==
                      if k in snapshot[..i] then Finish(before.sessions[k], Canceled) else before.sessions[k]
        {
          var id := snapshot[i];
          assert id in snapshot && id in before.queued;
          FinishOne(snapshot, i);
          Step(ShutdownFinish(id));
        }
        Step(ShutdownReturn);
      }
    }
  }

  lemma GlobalFacts(s: State)
    requires Inv(s)
    ensures s.closed <==> !s.shutdown.NotCalled?
    ensures s.ctxDone <==> s.shutdown.FinishingQueued? || s.shutdown.ShutDown?
    ensures forall id | id in s.queued :: id < |s.sessions| && !s.closed
  {
    forall id | id in s.queued
      ensures !s.closed
    {
      assert SessionInv(s, id);
    }
  }

  lemma FinishOne(snapshot: seq<nat>, i: nat)
    requires i < |snapshot| && forall j, k | 0 <= j < k < |snapshot| :: snapshot[j] != snapshot[k]
    ensures forall id :: id in snapshot[i + 1..] <==> id in snapshot[i..] && id != snapshot[i]
    ensures forall id :: id in snapshot[..i + 1] <==> id in snapshot[..i] || id == snapshot[i]
  {
    assert snapshot[i..] == [snapshot[i]] + snapshot[i + 1..];
    assert snapshot[..i + 1] == snapshot[..i] + [snapshot[i]];
  }

  // ----- the polling loop

  /** What one query for the agent's messages brings. */
  datatype Count = Counted(n: nat) | CountFailed

  predicate Found(c: Count) {
    c.Counted? && c.n > 0
  }

  /**
   agentPosted. `counts` and `stops` are what its k-th query and its k-th look at the
   context and the clock bring; the clock stops it after GRACE_POLLS sleeps at the
   latest. It stops at the first query that finds something, or at the first stop; it
   reports a failure only if its very last query failed.
   */
  method AgentPosted(counts: seq<Count>, stops: seq<bool>) returns (posted: bool, failed: bool, polls: nat)
    requires |counts| == |stops| == GRACE_POLLS + 1 && stops[GRACE_POLLS]
    ensures polls < |counts| && forall k | 0 <= k < polls :: !stops[k] && !Found(counts[k])
    ensures posted <==> Found(counts[polls])
    ensures failed <==> counts[polls].CountFailed?
    ensures !posted ==> stops[polls]
  {
    polls := 0;
    while true
      invariant polls < |counts| && forall k | 0 <= k < polls :: !stops[k] && !Found(counts[k])
      decreases |counts| - polls
    {
      var failing := counts[polls].CountFailed?;
      if !failing && counts[polls].n > 0 {
        return true, false, polls;
      }
      if stops[polls] {
        return false, failing, polls;
      }
      polls := polls + 1;
    }
  }

  const SLOT := Choice(true, false, false, "")
}
