/** What every history of appends keeps, and what a batch append assigns. */
module ThreadLog {
  import opened Wrappers
  import opened Text
  import opened Store
  import Names

  // ----- the invariant

  /** How many messages of a thread there are. */
  function CountIn(messages: seq<Message>, thread: nat): nat {
    if messages == [] then 0
    else
      var n := |messages| - 1;
      CountIn(messages[..n], thread) + if messages[n].thread == thread then 1 else 0
  }

  predicate StampOk(clock: Clock, createdAt: string) {
    createdAt != "" && clock.isTime(createdAt)
  }

  /** Row i obeys the schema, numbers on from its thread, and answers an earlier message of it. */
  predicate MessageOk(db: Tables, clock: Clock, i: nat)
    requires i < |db.messages|
  {
    var m := db.messages[i];
    && 1 <= m.thread <= db.threads
    && m.seqNo == CountIn(db.messages[..i], m.thread) + 1
    && m.parent <= i
    && (m.parent > 0 ==> db.messages[m.parent - 1].thread == m.thread)
    && Names.Legal(m.name) && AuthorTypeOk(m.authorType) && RoleOk(m.role) && !SqlBlank(m.content)
    && StampOk(clock, m.createdAt)
  }

  predicate ReactionOk(db: Tables, clock: Clock, i: nat)
    requires i < |db.reactions|
  {
    var r := db.reactions[i];
    && 1 <= r.message <= |db.messages|
    && !SqlBlank(r.emoji) && Names.Legal(r.name) && AuthorTypeOk(r.authorType)
    && StampOk(clock, r.createdAt)
  }

  predicate Wf(db: Tables, clock: Clock) {
    && (forall i | 0 <= i < |db.messages| :: MessageOk(db, clock, i))
    && (forall i | 0 <= i < |db.reactions| :: ReactionOk(db, clock, i))
    && (forall i, j | 0 <= i < j < |db.reactions| :: !SameReaction(db.reactions[i], db.reactions[j]))
  }

  /** The columns that are unique together. */
  predicate SameReaction(a: Reaction, b: Reaction) {
    a.message == b.message && a.emoji == b.emoji && a.name == b.name
  }

  lemma CountAppend(messages: seq<Message>, m: Message, thread: nat)
    ensures CountIn(messages + [m], thread) == CountIn(messages, thread) + if m.thread == thread then 1 else 0
  {
    assert (messages + [m])[..|messages|] == messages;
  }

  lemma {:induction false} CountGrows(messages: seq<Message>, i: nat, j: nat, thread: nat)
    requires i <= j <= |messages|
    ensures CountIn(messages[..i], thread) <= CountIn(messages[..j], thread)
    ensures i < j && messages[i].thread == thread ==> CountIn(messages[..i], thread) < CountIn(messages[..j], thread)
    decreases j - i
  {
    if i < j {
      assert messages[..j][..j - 1] == messages[..j - 1];
      CountGrows(messages, i, j - 1, thread);
    }
  }

  /** The greatest seq of a thread is its number of messages. */
  lemma {:induction false} LastSeqCounts(db: Tables, clock: Clock, thread: nat, n: nat)
    requires Wf(db, clock) && n <= |db.messages|
    ensures LastSeq(db.messages[..n], thread) == CountIn(db.messages[..n], thread)
    decreases n
  {
    if n > 0 {
      assert db.messages[..n][..n - 1] == db.messages[..n - 1];
      LastSeqCounts(db, clock, thread, n - 1);
      assert MessageOk(db, clock, n - 1);
    }
  }

  /** A thread's seqs are exactly 1 to its number of messages, each taken once. */
  lemma {:induction false} SeqsAreDense(db: Tables, clock: Clock, thread: nat, n: nat, seqNo: nat)
    requires Wf(db, clock) && n <= |db.messages| && 1 <= seqNo <= CountIn(db.messages[..n], thread)
    ensures exists i | 0 <= i < n :: db.messages[i].thread == thread && db.messages[i].seqNo == seqNo
    decreases n
  {
    assert db.messages[..n][..n - 1] == db.messages[..n - 1];
    assert MessageOk(db, clock, n - 1);
    if seqNo <= CountIn(db.messages[..n - 1], thread) {
      SeqsAreDense(db, clock, thread, n - 1, seqNo);
    }
  }

  lemma SeqsAreUnique(db: Tables, clock: Clock, i: nat, j: nat)
    requires Wf(db, clock) && i < j < |db.messages| && db.messages[i].thread == db.messages[j].thread
    ensures 1 <= db.messages[i].seqNo < db.messages[j].seqNo <= CountIn(db.messages, db.messages[i].thread)
  {
    assert MessageOk(db, clock, i) && MessageOk(db, clock, j);
    CountGrows(db.messages, i, j, db.messages[i].thread);
    CountGrows(db.messages, j, |db.messages|, db.messages[i].thread);
    assert db.messages[..|db.messages|] == db.messages;
  }

  /** Looking a message up by its thread and seq finds it. */
  lemma IdBySeqFinds(db: Tables, clock: Clock, i: nat)
    requires Wf(db, clock) && i < |db.messages|
    ensures IdBySeq(db.messages, db.messages[i].thread, db.messages[i].seqNo) == i + 1
  {
    var m := db.messages[i];
    var id := IdBySeq(db.messages, m.thread, m.seqNo);
    assert m in db.messages;
    if id - 1 < i {
      SeqsAreUnique(db, clock, id - 1, i);
    } else if id - 1 > i {
      SeqsAreUnique(db, clock, i, id - 1);
    }
  }

  lemma NextIsCount(db: Tables, clock: Clock, thread: nat)
    requires Wf(db, clock)
    ensures NextSeq(db, thread) == CountIn(db.messages, thread) + 1
  {
    LastSeqCounts(db, clock, thread, |db.messages|);
    assert db.messages[..|db.messages|] == db.messages;
  }

  /** A thread has one message of each seq. */
  lemma OneOfSeq(db: Tables, clock: Clock, x: nat, y: nat)
    requires Wf(db, clock) && 1 <= x <= |db.messages| && 1 <= y <= |db.messages|
    requires db.messages[x - 1].thread == db.messages[y - 1].thread && db.messages[x - 1].seqNo == db.messages[y - 1].seqNo
    ensures x == y
  {
    IdBySeqFinds(db, clock, x - 1);
    IdBySeqFinds(db, clock, y - 1);
  }

  // ----- parents form a forest

  /** The message at the end of the chain of parents. */
  function Root(db: Tables, clock: Clock, id: nat): nat
    requires Wf(db, clock) && 1 <= id <= |db.messages|
    decreases id
  {
    assert MessageOk(db, clock, id - 1);
    var parent := db.messages[id - 1].parent;
    if parent == 0 then id else Root(db, clock, parent)
  }

  /** From any message the parents lead, with ever smaller seqs, to a message of the same thread that answers none. */
  lemma {:induction false} RootIsRoot(db: Tables, clock: Clock, id: nat)
    requires Wf(db, clock) && 1 <= id <= |db.messages|
    ensures 1 <= Root(db, clock, id) <= id
    ensures db.messages[Root(db, clock, id) - 1].parent == 0
    ensures db.messages[Root(db, clock, id) - 1].thread == db.messages[id - 1].thread
    ensures db.messages[Root(db, clock, id) - 1].seqNo <= db.messages[id - 1].seqNo
    ensures
      var parent := db.messages[id - 1].parent;
      parent != 0 ==> parent < id && db.messages[parent - 1].seqNo < db.messages[id - 1].seqNo
    decreases id
  {
    assert MessageOk(db, clock, id - 1);
    var parent := db.messages[id - 1].parent;
    if parent != 0 {
      RootIsRoot(db, clock, parent);
      SeqsAreUnique(db, clock, parent - 1, id - 1);
    }
  }

  // ----- one append

  /** `after` is `before` with one message more, and nothing else. */
  predicate OneMore(before: Tables, after: Tables, m: Message) {
    after == before.(messages := before.messages + [m])
  }

  lemma MessageStaysOk(db: Tables, clock: Clock, m: Message, i: nat)
    requires i < |db.messages| && MessageOk(db, clock, i)
    ensures MessageOk(db.(messages := db.messages + [m]), clock, i)
  {
    assert (db.messages + [m])[..i] == db.messages[..i];
  }

  lemma AddedMessageKeepsWf(db: Tables, clock: Clock, m: Message)
    requires Wf(db, clock) && 1 <= m.thread <= db.threads && m.seqNo == CountIn(db.messages, m.thread) + 1
    requires m.parent <= |db.messages| && (m.parent > 0 ==> db.messages[m.parent - 1].thread == m.thread)
    requires Names.Legal(m.name) && AuthorTypeOk(m.authorType) && RoleOk(m.role) && !SqlBlank(m.content)
    requires StampOk(clock, m.createdAt)
    ensures Wf(db.(messages := db.messages + [m]), clock)
  {
    var db' := db.(messages := db.messages + [m]);
    forall i | 0 <= i < |db'.messages|
      ensures MessageOk(db', clock, i)
    {
      if i < |db.messages| {
        MessageStaysOk(db, clock, m, i);
      } else {
        assert db'.messages[..i] == db.messages;
      }
    }
    forall i | 0 <= i < |db'.reactions|
      ensures ReactionOk(db', clock, i)
    {
      assert ReactionOk(db, clock, i);
    }
  }

  /** What a successful append adds: the thread's next seq, the given parent, and a legal row. */
  lemma AppendAdds(db: Tables, clock: Clock, thread: nat, name: string, authorType: string, role: string,
                   content: string, createdAt: string, parentId: int)
    requires Wf(db, clock) && GoodClock(clock)
    requires AppendMessage(db, clock, thread, name, authorType, role, content, createdAt, parentId).Ok?
    ensures
      var a := AppendMessage(db, clock, thread, name, authorType, role, content, createdAt, parentId).value;
      && Wf(a.db, clock) && a.seqNo == CountIn(db.messages, thread) + 1 && a.id == |db.messages| + 1
      && 0 <= parentId <= |db.messages| && (parentId > 0 ==> db.messages[parentId - 1].thread == thread)
      && OneMore(db, a.db, Message(thread, a.seqNo, parentId, name, authorType, role, content, Stamp(clock, createdAt)))
  {
    var a := AppendMessage(db, clock, thread, name, authorType, role, content, createdAt, parentId).value;
    LastSeqCounts(db, clock, thread, |db.messages|);
    assert db.messages[..|db.messages|] == db.messages;
    AddedMessageKeepsWf(db, clock, a.db.messages[|db.messages|]);
  }

  /** What an append needs of its caller, and all it needs: the database never finds a conflict. */
  lemma AppendSucceedsIff(db: Tables, clock: Clock, thread: nat, name: string, authorType: string, role: string,
                          content: string, createdAt: string, parentId: int)
    requires Wf(db, clock)
    ensures AppendMessage(db, clock, thread, name, authorType, role, content, createdAt, parentId).Ok? <==>
            && Names.Legal(name) && authorType in {"human", "agent"} && role in {"user", "assistant", "system"}
            && !SqlBlank(content)
            && (createdAt != "" ==> clock.isTime(createdAt)) && 1 <= thread <= db.threads
            && 0 <= parentId <= |db.messages| && (parentId > 0 ==> db.messages[parentId - 1].thread == thread)
  {
    LastSeqCounts(db, clock, thread, |db.messages|);
    assert db.messages[..|db.messages|] == db.messages;
    forall i | 0 <= i < |db.messages| && db.messages[i].thread == thread
      ensures db.messages[i].seqNo < NextSeq(db, thread)
    {
      assert MessageOk(db, clock, i);
      CountGrows(db.messages, i, |db.messages|, thread);
    }
    if Names.Legal(name) {
      assert name[0] != ' ';
    }
  }

  /** What a successful reaction adds. */
  lemma ReactAdds(db: Tables, clock: Clock, message: nat, emoji: string, name: string, authorType: string,
                  createdAt: string)
    requires Wf(db, clock) && GoodClock(clock)
    requires AddReaction(db, clock, message, emoji, name, authorType, createdAt).Ok?
    ensures
      var r := AddReaction(db, clock, message, emoji, name, authorType, createdAt).value;
      && Wf(r.db, clock) && r.message == message && r.id == |db.reactions| + 1 && 1 <= message <= |db.messages|
      && r.db == db.(reactions := db.reactions + [Reaction(message, emoji, name, authorType, Stamp(clock, createdAt))])
  {
    var db' := AddReaction(db, clock, message, emoji, name, authorType, createdAt).value.db;
    forall i | 0 <= i < |db'.messages|
      ensures MessageOk(db', clock, i)
    {
      assert MessageOk(db, clock, i);
    }
    forall i | 0 <= i < |db'.reactions|
      ensures ReactionOk(db', clock, i)
    {
      assert i < |db.reactions| ==> ReactionOk(db, clock, i);
    }
    forall i, j | 0 <= i < j < |db'.reactions|
      ensures !SameReaction(db'.reactions[i], db'.reactions[j])
    {
      if j == |db.reactions| {
        assert db.reactions[i] in db.reactions;
      }
    }
  }

  /** What a reaction needs, and all it needs; one that is there already is a conflict. */
  lemma ReactSucceedsIff(db: Tables, clock: Clock, message: nat, emoji: string, name: string, authorType: string,
                         createdAt: string)
    requires Wf(db, clock)
    ensures
      var r := AddReaction(db, clock, message, emoji, name, authorType, createdAt);
      var valid :=
        && Names.Legal(name) && authorType in {"human", "agent"} && !SqlBlank(emoji)
        && (createdAt != "" ==> clock.isTime(createdAt));
      var known := 1 <= message <= |db.messages|;
      var there := exists i | 0 <= i < |db.reactions| ::
                     SameReaction(db.reactions[i], Reaction(message, emoji, name, authorType, createdAt));
      && (r.Ok? <==> valid && known && !there)
      && (r == Err(Conflict) <==> valid && there)
      && (r == Err(NotFound) <==> valid && !known)
  {
    if Names.Legal(name) {
      assert name[0] != ' ';
    }
    hide Names.Legal;
    forall i | 0 <= i < |db.reactions|
      ensures 1 <= db.reactions[i].message <= |db.messages| && db.reactions[i] in db.reactions
    {
      assert ReactionOk(db, clock, i);
    }
    hide Wf;
  }

  // ----- a batch

  /** The message event `e` asks to answer, by its seq in the destination thread; 0 for none. */
  function Target(predicted: map<int, nat>, e: AppendEvent): int {
    Mapped(predicted, if IsMessage(e) then e.parentSeq else e.messageSeq)
  }

  /** What event i of a batch must have come to, given the tables before and after. */
  predicate Placed(before: Tables, after: Tables, clock: Clock, thread: nat, predicted: map<int, nat>,
                   events: seq<AppendEvent>, results: seq<AppendResult>, i: nat)
    requires i < |events| && i < |results|
  {
    var e, r := events[i], results[i];
    var target := Target(predicted, e);
    && r.sourceSeq == e.sourceSeq
    && if IsMessage(e) then
         && r.seqNo == CountIn(before.messages, thread) + MessageCount(events[..i]) + 1
         && r.messageId == |before.messages| + MessageCount(events[..i]) + 1 <= |after.messages|
         && r.reactionId == 0
         && var m := after.messages[r.messageId - 1];
            && m == Message(thread, r.seqNo, m.parent, e.name, e.authorType, e.role, e.content, Stamp(clock, e.createdAt))
            && Answers(after, thread, m.parent, target) && (target == 0 <==> m.parent == 0) && m.parent < r.messageId
       else
         && r.seqNo == 0
         && r.reactionId == |before.reactions| + (i - MessageCount(events[..i])) + 1 <= |after.reactions|
         && after.reactions[r.reactionId - 1] ==
            Reaction(r.messageId, e.emoji, e.name, e.authorType, Stamp(clock, e.createdAt))
         && r.messageId > 0 && Answers(after, thread, r.messageId, target)
  }

  /** Message `id`, if any, is the one of the thread with seq `target`. */
  predicate Answers(db: Tables, thread: nat, id: nat, target: int) {
    id > 0 ==> id <= |db.messages| && db.messages[id - 1].thread == thread && db.messages[id - 1].seqNo == target
  }

  /** After a batch, or a part of it: what was there is untouched, and every event is placed. */
  ghost predicate AllPlaced(before: Tables, after: Tables, clock: Clock, thread: nat, predicted: map<int, nat>,
                            events: seq<AppendEvent>, results: seq<AppendResult>) {
    && Wf(after, clock) && after.threads == before.threads
    && before.messages <= after.messages && before.reactions <= after.reactions
    && |after.messages| == |before.messages| + MessageCount(events)
    && |after.reactions| == |before.reactions| + |events| - MessageCount(events)
    && (forall t: nat :: CountIn(after.messages, t) ==
          CountIn(before.messages, t) + if t == thread then MessageCount(events) else 0)
    && |results| == |events|
    && forall i | 0 <= i < |events| :: Placed(before, after, clock, thread, predicted, events, results, i)
  }

  /** A placed event stays placed while the tables grow. */
  lemma StaysPlaced(before: Tables, mid: Tables, after: Tables, clock: Clock, thread: nat, predicted: map<int, nat>,
                    events: seq<AppendEvent>, results: seq<AppendResult>, e: AppendEvent, r: AppendResult, i: nat)
    requires i < |events| == |results|
    requires Placed(before, mid, clock, thread, predicted, events, results, i)
    requires mid.messages <= after.messages && mid.reactions <= after.reactions
    ensures Placed(before, after, clock, thread, predicted, events + [e], results + [r], i)
  {
    assert (events + [e])[..i] == events[..i];
  }

  /** How the tables grow by one event. */
  ghost predicate GrowsBy(mid: Tables, after: Tables, clock: Clock, thread: nat, e: AppendEvent) {
    && Wf(after, clock) && after.threads == mid.threads && mid.messages <= after.messages && mid.reactions <= after.reactions
    && (forall t: nat :: CountIn(after.messages, t) == CountIn(mid.messages, t) + if IsMessage(e) && t == thread then 1 else 0)
    && |after.messages| == |mid.messages| + (if IsMessage(e) then 1 else 0)
    && |after.reactions| == |mid.reactions| + (if IsMessage(e) then 0 else 1)
  }

  /** One event, as its result and the tables show it. */
  ghost predicate Shows(mid: Tables, after: Tables, clock: Clock, thread: nat, predicted: map<int, nat>, e: AppendEvent,
                        r: AppendResult) {
    var target := Target(predicted, e);
    && r.sourceSeq == e.sourceSeq
    && if IsMessage(e) then
         && r.seqNo == CountIn(mid.messages, thread) + 1 && r.messageId == |mid.messages| + 1 == |after.messages|
         && r.reactionId == 0
         && var m := after.messages[r.messageId - 1];
            && m == Message(thread, r.seqNo, m.parent, e.name, e.authorType, e.role, e.content, Stamp(clock, e.createdAt))
            && Answers(after, thread, m.parent, target) && (target == 0 <==> m.parent == 0) && m.parent < r.messageId
       else
         && r.seqNo == 0 && r.reactionId == |mid.reactions| + 1 == |after.reactions|
         && after.reactions[r.reactionId - 1] ==
            Reaction(r.messageId, e.emoji, e.name, e.authorType, Stamp(clock, e.createdAt))
         && r.messageId > 0 && Answers(after, thread, r.messageId, target)
  }

  lemma MessageAppends(mid: Tables, clock: Clock, thread: nat, predicted: map<int, nat>, e: AppendEvent)
    requires Wf(mid, clock) && GoodClock(clock) && IsMessage(e) && AppendOne(mid, clock, thread, predicted, e).Ok?
    ensures
      var (after, r) := AppendOne(mid, clock, thread, predicted, e).value;
      GrowsBy(mid, after, clock, thread, e) && Shows(mid, after, clock, thread, predicted, e, r)
  {
    var target := Mapped(predicted, e.parentSeq);
    var parentId := if target == 0 then 0 else IdBySeq(mid.messages, thread, target);
    AppendAdds(mid, clock, thread, e.name, e.authorType, e.role, e.content, e.createdAt, parentId);
    hide AppendMessage, Wf, Mapped;
    var (after, _) := AppendOne(mid, clock, thread, predicted, e).value;
    forall t: nat
      ensures CountIn(after.messages, t) == CountIn(mid.messages, t) + if t == thread then 1 else 0
    {
      CountAppend(mid.messages, after.messages[|mid.messages|], t);
    }
    hide CountIn;
  }

  lemma ReactionAppends(mid: Tables, clock: Clock, thread: nat, predicted: map<int, nat>, e: AppendEvent)
    requires Wf(mid, clock) && GoodClock(clock) && !IsMessage(e) && AppendOne(mid, clock, thread, predicted, e).Ok?
    ensures
      var (after, r) := AppendOne(mid, clock, thread, predicted, e).value;
      GrowsBy(mid, after, clock, thread, e) && Shows(mid, after, clock, thread, predicted, e, r)
  {
    ReactAdds(mid, clock, IdBySeq(mid.messages, thread, Mapped(predicted, e.messageSeq)), e.emoji, e.name, e.authorType,
              e.createdAt);
    hide AddReaction, Wf, Mapped, CountIn;
  }

  lemma CountWith(events: seq<AppendEvent>, e: AppendEvent)
    ensures MessageCount(events + [e]) == MessageCount(events) + if IsMessage(e) then 1 else 0
    ensures (events + [e])[..|events|] == events
  {
    assert (events + [e])[..|events|] == events;
  }

  lemma OnePlaced(before: Tables, mid: Tables, clock: Clock, thread: nat, predicted: map<int, nat>,
                  events: seq<AppendEvent>, results: seq<AppendResult>, e: AppendEvent)
    requires GoodClock(clock) && AllPlaced(before, mid, clock, thread, predicted, events, results)
    requires AppendOne(mid, clock, thread, predicted, e).Ok?
    ensures
      var (after, r) := AppendOne(mid, clock, thread, predicted, e).value;
      AllPlaced(before, after, clock, thread, predicted, events + [e], results + [r])
  {
    hide AppendOne, Wf, CountIn, MessageCount, Mapped, Target, Answers, Placed;
    var (after, r) := AppendOne(mid, clock, thread, predicted, e).value;
    if IsMessage(e) {
      MessageAppends(mid, clock, thread, predicted, e);
    } else {
      ReactionAppends(mid, clock, thread, predicted, e);
    }
    CountWith(events, e);
    LastPlaced(before, mid, after, clock, thread, predicted, events, results, e, r);
    forall i | 0 <= i < |events|
      ensures Placed(before, after, clock, thread, predicted, events + [e], results + [r], i)
    {
      StaysPlaced(before, mid, after, clock, thread, predicted, events, results, e, r, i);
    }
    hide Shows;
  }

  lemma LastPlaced(before: Tables, mid: Tables, after: Tables, clock: Clock, thread: nat, predicted: map<int, nat>,
                   events: seq<AppendEvent>, results: seq<AppendResult>, e: AppendEvent, r: AppendResult)
    requires AllPlaced(before, mid, clock, thread, predicted, events, results)
    requires Shows(mid, after, clock, thread, predicted, e, r)
    ensures Placed(before, after, clock, thread, predicted, events + [e], results + [r], |events|)
  {
    hide Wf, CountIn, MessageCount, Mapped, Target, Answers;
    CountWith(events, e);
  }

  lemma NothingPlaced(db: Tables, clock: Clock, thread: nat, predicted: map<int, nat>, events: seq<AppendEvent>)
    requires Wf(db, clock) && events == []
    ensures AppendEvents(db, clock, thread, predicted, events) == Ok((db, []))
    ensures AllPlaced(db, db, clock, thread, predicted, events, [])
  {
    hide Wf, CountIn, Placed;
  }

  lemma {:induction false} EventsArePlaced(db: Tables, clock: Clock, thread: nat, predicted: map<int, nat>,
                                           events: seq<AppendEvent>)
    requires Wf(db, clock) && GoodClock(clock)
    requires AppendEvents(db, clock, thread, predicted, events).Ok?
    ensures
      var (after, results) := AppendEvents(db, clock, thread, predicted, events).value;
      AllPlaced(db, after, clock, thread, predicted, events, results)
    decreases |events|
  {
    hide *;
    if events == [] {
      NothingPlaced(db, clock, thread, predicted, events);
    } else {
      var n := |events| - 1;
      NextEvent(db, clock, thread, predicted, events, n);
      assert events[..n + 1] == events;
      EventsArePlaced(db, clock, thread, predicted, events[..n]);
      var (mid, results) := AppendEvents(db, clock, thread, predicted, events[..n]).value;
      OnePlaced(db, mid, clock, thread, predicted, events[..n], results, events[n]);
      assert events == events[..n] + [events[n]];
    }
  }

  /** How a batch goes on by one event. */
  lemma NextEvent(db: Tables, clock: Clock, thread: nat, predicted: map<int, nat>, events: seq<AppendEvent>, i: nat)
    requires i <= |events|
    ensures i == 0 ==> AppendEvents(db, clock, thread, predicted, events[..i]) == Ok((db, []))
    ensures i < |events| ==>
              var earlier := AppendEvents(db, clock, thread, predicted, events[..i]);
              AppendEvents(db, clock, thread, predicted, events[..i + 1]) ==
              if earlier.Err? then earlier
              else
                match AppendOne(earlier.value.0, clock, thread, predicted, events[i])
                case Ok(done) => Ok((done.0, earlier.value.1 + [done.1]))
                case Err(error) => Err(error)
  {
    hide AppendOne;
    if i < |events| {
      assert events[..i + 1][..i] == events[..i];
    }
  }

  lemma {:induction false} CountOfPrefix(events: seq<AppendEvent>, i: nat)
    requires i < |events|
    ensures MessageCount(events[..i]) + (if IsMessage(events[i]) then 1 else 0) <= MessageCount(events)
    decreases |events|
  {
    var n := |events| - 1;
    if i < n {
      assert events[..n][..i] == events[..i];
      CountOfPrefix(events[..n], i);
    }
  }

  /** validateBatchResults, the client's check of what the daemon answers. */
  predicate ValidResults(events: seq<AppendEvent>, results: seq<AppendResult>) {
    && |results| == |events|
    && forall i | 0 <= i < |results| ::
         && results[i].messageId > 0
         && if IsReaction(events[i]) then results[i].reactionId > 0 else results[i].seqNo > 0
  }

  /**
   A batch that succeeds leaves the tables in order with everything that was there
   untouched. Each message has the thread's next seq plus the messages before it,
   which is what the map predicted for its source seq; each event answers the message
   the map says it does; and the client accepts the results.
   */
  lemma BatchIsExact(db: Tables, clock: Clock, thread: nat, events: seq<AppendEvent>)
    requires Wf(db, clock) && GoodClock(clock) && AppendBatch(db, clock, thread, events).Ok?
    ensures
      var (after, results) := AppendBatch(db, clock, thread, events).value;
      && Sorted(events)
      && var predicted := Predicted(events, NextSeq(db, thread));
         && AllPlaced(db, after, clock, thread, predicted, events, results)
         && ValidResults(events, results)
         && forall i | 0 <= i < |events| && Numbered(events[i]) ::
              events[i].sourceSeq in predicted && results[i].seqNo == predicted[events[i].sourceSeq]
  {
    hide AppendEvents, Wf, Predicted, Placed, NextSeq, ValidEvent;
    var (after, results) := AppendBatch(db, clock, thread, events).value;
    var predicted := Predicted(events, NextSeq(db, thread));
    EventsArePlaced(db, clock, thread, predicted, events);
    forall i | 0 <= i < |events|
      ensures results[i].messageId > 0
      ensures if IsReaction(events[i]) then results[i].reactionId > 0 else results[i].seqNo > 0
      ensures Numbered(events[i]) ==>
                events[i].sourceSeq in predicted && results[i].seqNo == predicted[events[i].sourceSeq]
    {
      assert ValidEvent(clock, events[i]);
      PlacedResult(db, after, clock, thread, events, results, i);
    }
  }

  lemma PlacedResult(db: Tables, after: Tables, clock: Clock, thread: nat, events: seq<AppendEvent>,
                     results: seq<AppendResult>, i: nat)
    requires Wf(db, clock) && Sorted(events) && i < |events| == |results| && ValidEvent(clock, events[i])
    requires Placed(db, after, clock, thread, Predicted(events, NextSeq(db, thread)), events, results, i)
    ensures results[i].messageId > 0
    ensures if IsReaction(events[i]) then results[i].reactionId > 0 else results[i].seqNo > 0
    ensures
      var predicted := Predicted(events, NextSeq(db, thread));
      Numbered(events[i]) ==> events[i].sourceSeq in predicted && results[i].seqNo == predicted[events[i].sourceSeq]
  {
    LastSeqCounts(db, clock, thread, |db.messages|);
    assert db.messages[..|db.messages|] == db.messages;
    CountOfPrefix(events, i);
    hide Wf, CountIn, LastSeq, MessageCount;
  }

  // ----- histories

  datatype Op =
    | Post(thread: nat, name: string, authorType: string, role: string, content: string, createdAt: string, parentId: int)
    | ReplyBySeq(thread: nat, parentSeq: int, name: string, authorType: string, role: string, content: string, createdAt: string)
    | React(message: nat, emoji: string, name: string, authorType: string)
    | ReactBySeq(thread: nat, messageSeq: int, emoji: string, name: string, authorType: string)
    | Batch(thread: nat, events: seq<AppendEvent>)

  /** The tables after a call, unchanged where it fails. */
  function Do(db: Tables, clock: Clock, op: Op): Tables {
    match op
    case Post(thread, name, authorType, role, content, createdAt, parentId) => (
      var r := AppendMessage(db, clock, thread, name, authorType, role, content, createdAt, parentId);
      if r.Ok? then r.value.db else db)
    case ReplyBySeq(thread, parentSeq, name, authorType, role, content, createdAt) => (
      var r := AppendMessageByParentSeq(db, clock, thread, parentSeq, name, authorType, role, content, createdAt);
      if r.Ok? then r.value.db else db)
    case React(message, emoji, name, authorType) => (
      var r := AddReaction(db, clock, message, emoji, name, authorType, "");
      if r.Ok? then r.value.db else db)
    case ReactBySeq(thread, messageSeq, emoji, name, authorType) => (
      var r := AddReactionBySeq(db, clock, thread, messageSeq, emoji, name, authorType, "");
      if r.Ok? then r.value.db else db)
    case Batch(thread, events) => (
      var r := AppendBatch(db, clock, thread, events);
      if r.Ok? then r.value.0 else db)
  }

  function DoAll(db: Tables, clock: Clock, ops: seq<Op>): Tables {
    if ops == [] then db else Do(DoAll(db, clock, ops[..|ops| - 1]), clock, ops[|ops| - 1])
  }

  lemma DoKeepsWf(db: Tables, clock: Clock, op: Op)
    requires Wf(db, clock) && GoodClock(clock)
    ensures Wf(Do(db, clock, op), clock) && Do(db, clock, op).threads == db.threads
    ensures db.messages <= Do(db, clock, op).messages && db.reactions <= Do(db, clock, op).reactions
  {
    hide Wf;
    match op
    case Post(thread, name, authorType, role, content, createdAt, parentId) =>
      if AppendMessage(db, clock, thread, name, authorType, role, content, createdAt, parentId).Ok? {
        AppendAdds(db, clock, thread, name, authorType, role, content, createdAt, parentId);
      }
      hide AppendMessage;
    case ReplyBySeq(thread, parentSeq, name, authorType, role, content, createdAt) =>
      var parentId := if parentSeq <= 0 then 0 else IdBySeq(db.messages, thread, parentSeq);
      if AppendMessage(db, clock, thread, name, authorType, role, content, createdAt, parentId).Ok? {
        AppendAdds(db, clock, thread, name, authorType, role, content, createdAt, parentId);
      }
      hide AppendMessage;
    case React(message, emoji, name, authorType) =>
      if AddReaction(db, clock, message, emoji, name, authorType, "").Ok? {
        ReactAdds(db, clock, message, emoji, name, authorType, "");
      }
      hide AddReaction;
    case ReactBySeq(thread, messageSeq, emoji, name, authorType) =>
      var message := IdBySeq(db.messages, thread, messageSeq);
      if AddReaction(db, clock, message, emoji, name, authorType, "").Ok? {
        ReactAdds(db, clock, message, emoji, name, authorType, "");
      }
      hide AddReaction;
    case Batch(thread, events) =>
      if AppendBatch(db, clock, thread, events).Ok? {
        BatchIsExact(db, clock, thread, events);
      }
      hide AppendBatch;
  }

  /** Whatever calls are made, from empty tables on, the threads stay in order and the tables only grow. */
  lemma {:induction false} HistoryKeepsWf(threads: nat, clock: Clock, ops: seq<Op>, i: nat)
    requires GoodClock(clock) && i <= |ops|
    ensures
      var db := DoAll(Tables(threads, [], []), clock, ops);
      && Wf(db, clock) && db.threads == threads
      && DoAll(Tables(threads, [], []), clock, ops[..i]).messages <= db.messages
      && DoAll(Tables(threads, [], []), clock, ops[..i]).reactions <= db.reactions
    decreases |ops|
  {
    var start, n := Tables(threads, [], []), |ops| - 1;
    if ops == [] {
      assert ops[..i] == ops;
    } else {
      hide *;
      DoAllStep(start, clock, ops);
      if i == |ops| {
        assert ops[..i] == ops;
        HistoryKeepsWf(threads, clock, ops[..n], n);
      } else {
        assert ops[..n][..i] == ops[..i];
        HistoryKeepsWf(threads, clock, ops[..n], i);
      }
      DoKeepsWf(DoAll(start, clock, ops[..n]), clock, ops[n]);
    }
  }

  lemma DoAllStep(db: Tables, clock: Clock, ops: seq<Op>)
    requires ops != []
    ensures DoAll(db, clock, ops) == Do(DoAll(db, clock, ops[..|ops| - 1]), clock, ops[|ops| - 1])
  {
    hide Do;
  }
}
