/** Exactly when a batch succeeds, told from its events and the tables before it alone. */
module BatchSuccess {
  import opened Text
  import opened Store
  import opened ThreadLog
  import Names

  /** How many messages the thread holds when event i is reached. */
  function Room(db: Tables, thread: nat, events: seq<AppendEvent>, i: nat): nat
    requires i <= |events|
  {
    CountIn(db.messages, thread) + MessageCount(events[..i])
  }

  /** A reaction of this kind to the thread's message with this seq is in the tables. */
  predicate AlreadyThere(db: Tables, thread: nat, target: int, emoji: string, name: string) {
    exists i | 0 <= i < |db.reactions| ::
      && db.reactions[i].emoji == emoji && db.reactions[i].name == name
      && 1 <= db.reactions[i].message <= |db.messages|
      && db.messages[db.reactions[i].message - 1].thread == thread
      && db.messages[db.reactions[i].message - 1].seqNo == target
  }

  /** Event j reacts as event i does, to the same message. */
  predicate SameReact(predicted: map<int, nat>, events: seq<AppendEvent>, j: nat, i: nat)
    requires j < |events| && i < |events|
  {
    && !IsMessage(events[j]) && Target(predicted, events[j]) == Target(predicted, events[i])
    && events[j].emoji == events[i].emoji && events[j].name == events[i].name
  }

  /** Event i can be appended: its fields obey the rules, what it answers is there by then, and it repeats no reaction. */
  predicate Fits(db: Tables, clock: Clock, thread: nat, predicted: map<int, nat>, events: seq<AppendEvent>, i: nat)
    requires i < |events|
  {
    var e := events[i];
    var target := Target(predicted, e);
    && Names.Legal(e.name) && AuthorTypeOk(e.authorType) && (e.createdAt != "" ==> clock.isTime(e.createdAt))
    && if IsMessage(e) then
         && RoleOk(e.role) && !SqlBlank(e.content) && 1 <= thread <= db.threads
         && 0 <= target <= Room(db, thread, events, i)
       else
         && !SqlBlank(e.emoji) && 1 <= target <= Room(db, thread, events, i)
         && !AlreadyThere(db, thread, target, e.emoji, e.name)
         && forall j | 0 <= j < i :: !SameReact(predicted, events, j, i)
  }

  // ----- one event

  /** A seq is found exactly if it is one of the thread's. */
  lemma FoundIff(db: Tables, clock: Clock, thread: nat, seqNo: int)
    requires Wf(db, clock)
    ensures IdBySeq(db.messages, thread, seqNo) > 0 <==> 1 <= seqNo <= CountIn(db.messages, thread)
  {
    hide Names.Legal;
    assert db.messages[..|db.messages|] == db.messages;
    var id := IdBySeq(db.messages, thread, seqNo);
    if id > 0 {
      assert MessageOk(db, clock, id - 1);
      CountGrows(db.messages, id - 1, |db.messages|, thread);
    }
    if 1 <= seqNo <= CountIn(db.messages, thread) {
      SeqsAreDense(db, clock, thread, |db.messages|, seqNo);
      var i :| 0 <= i < |db.messages| && db.messages[i].thread == thread && db.messages[i].seqNo == seqNo;
      IdBySeqFinds(db, clock, i);
    }
  }

  lemma MessageFits(before: Tables, mid: Tables, clock: Clock, thread: nat, predicted: map<int, nat>,
                    events: seq<AppendEvent>, i: nat)
    requires Wf(mid, clock) && i < |events| && IsMessage(events[i]) && mid.threads == before.threads
    requires CountIn(mid.messages, thread) == Room(before, thread, events, i)
    ensures AppendOne(mid, clock, thread, predicted, events[i]).Ok? <==> Fits(before, clock, thread, predicted, events, i)
  {
    var e := events[i];
    var target := Target(predicted, e);
    FoundIff(mid, clock, thread, target);
    var parent := if target <= 0 then 0 else IdBySeq(mid.messages, thread, target);
    AppendSucceedsIff(mid, clock, thread, e.name, e.authorType, e.role, e.content, e.createdAt, parent);
    hide Wf, CountIn, Names.Legal, SqlBlank, AppendMessage, Room;
  }

  /** The m-th reaction event of a batch. */
  lemma {:induction false} ReactionEventAt(events: seq<AppendEvent>, m: nat) returns (j: nat)
    requires m < |events| - MessageCount(events)
    ensures j < |events| && !IsMessage(events[j]) && j - MessageCount(events[..j]) == m
    decreases |events|
  {
    var n := |events| - 1;
    if m < n - MessageCount(events[..n]) {
      j := ReactionEventAt(events[..n], m);
      assert events[..n][..j] == events[..j];
    } else {
      j := n;
    }
  }

  /** A reaction found in the tables in the middle of a batch was there before, or came with an earlier event. */
  lemma ThereOrEarlier(before: Tables, mid: Tables, clock: Clock, thread: nat, predicted: map<int, nat>,
                       events: seq<AppendEvent>, results: seq<AppendResult>, i: nat, k: nat)
    requires Wf(before, clock) && i < |events| && !IsMessage(events[i])
    requires AllPlaced(before, mid, clock, thread, predicted, events[..i], results)
    requires
      var id := IdBySeq(mid.messages, thread, Target(predicted, events[i]));
      && id > 0 && k < |mid.reactions| && mid.reactions[k].message == id
      && mid.reactions[k].emoji == events[i].emoji && mid.reactions[k].name == events[i].name
    ensures AlreadyThere(before, thread, Target(predicted, events[i]), events[i].emoji, events[i].name)
            || exists j | 0 <= j < i :: SameReact(predicted, events, j, i)
  {
    hide Names.Legal, Target, MessageCount, CountIn;
    if k < |before.reactions| {
      assert ReactionOk(before, clock, k);
      hide Wf, AllPlaced;
    } else {
      var j := ReactionEventAt(events[..i], k - |before.reactions|);
      assert Placed(before, mid, clock, thread, predicted, events[..i], results, j);
      assert events[..i][..j] == events[..j];
      hide Wf, AllPlaced;
      assert SameReact(predicted, events, j, i);
    }
  }

  lemma OldStillThere(before: Tables, mid: Tables, clock: Clock, thread: nat, target: int, emoji: string, name: string)
    requires Wf(mid, clock) && before.messages <= mid.messages && before.reactions <= mid.reactions
    requires AlreadyThere(before, thread, target, emoji, name)
    ensures exists k | 0 <= k < |mid.reactions| ::
              && mid.reactions[k].message == IdBySeq(mid.messages, thread, target)
              && mid.reactions[k].emoji == emoji && mid.reactions[k].name == name
  {
    var k :| 0 <= k < |before.reactions| && before.reactions[k].emoji == emoji && before.reactions[k].name == name
             && 1 <= before.reactions[k].message <= |before.messages|
             && before.messages[before.reactions[k].message - 1].thread == thread
             && before.messages[before.reactions[k].message - 1].seqNo == target;
    IdBySeqFinds(mid, clock, before.reactions[k].message - 1);
    hide Wf, IdBySeq;
    assert mid.reactions[k] == before.reactions[k];
  }

  lemma EarlierIsThere(before: Tables, mid: Tables, clock: Clock, thread: nat, predicted: map<int, nat>,
                       events: seq<AppendEvent>, results: seq<AppendResult>, i: nat, j: nat)
    requires i < |events| && j < i && SameReact(predicted, events, j, i)
    requires AllPlaced(before, mid, clock, thread, predicted, events[..i], results)
    ensures exists k | 0 <= k < |mid.reactions| ::
              && mid.reactions[k].message == IdBySeq(mid.messages, thread, Target(predicted, events[i]))
              && mid.reactions[k].emoji == events[i].emoji && mid.reactions[k].name == events[i].name
  {
    hide Names.Legal, Target, MessageCount, CountIn;
    assert Placed(before, mid, clock, thread, predicted, events[..i], results, j);
    assert events[..i][..j] == events[..j];
    IdBySeqFinds(mid, clock, results[j].messageId - 1);
    hide Wf, AllPlaced, IdBySeq;
    assert mid.reactions[results[j].reactionId - 1].message == results[j].messageId;
  }

  lemma ReactionFits(before: Tables, mid: Tables, clock: Clock, thread: nat, predicted: map<int, nat>,
                     events: seq<AppendEvent>, results: seq<AppendResult>, i: nat)
    requires Wf(before, clock) && i < |events| && !IsMessage(events[i])
    requires AllPlaced(before, mid, clock, thread, predicted, events[..i], results)
    requires CountIn(mid.messages, thread) == Room(before, thread, events, i)
    ensures AppendOne(mid, clock, thread, predicted, events[i]).Ok? <==> Fits(before, clock, thread, predicted, events, i)
  {
    var e := events[i];
    var target := Target(predicted, e);
    var id := IdBySeq(mid.messages, thread, target);
    assert Wf(mid, clock) && before.messages <= mid.messages && before.reactions <= mid.reactions;
    FoundIff(mid, clock, thread, target);
    ReactSucceedsIff(mid, clock, id, e.emoji, e.name, e.authorType, e.createdAt);
    hide Wf, AllPlaced, CountIn, Names.Legal, SqlBlank, AddReaction, Room, AlreadyThere, SameReact, IdBySeq;
    if id > 0 {
      if k: nat :| k < |mid.reactions| && SameReaction(mid.reactions[k],
                                                       Reaction(id, e.emoji, e.name, e.authorType, e.createdAt)) {
        ThereOrEarlier(before, mid, clock, thread, predicted, events, results, i, k);
      }
      if AlreadyThere(before, thread, target, e.emoji, e.name) {
        OldStillThere(before, mid, clock, thread, target, e.emoji, e.name);
      }
      if j: nat :| j < i && SameReact(predicted, events, j, i) {
        EarlierIsThere(before, mid, clock, thread, predicted, events, results, i, j);
      }
    }
  }

  // ----- the batch

  lemma {:induction false} EventsSucceedIff(db: Tables, clock: Clock, thread: nat, predicted: map<int, nat>,
                                            events: seq<AppendEvent>, n: nat)
    requires Wf(db, clock) && GoodClock(clock) && n <= |events|
    ensures AppendEvents(db, clock, thread, predicted, events[..n]).Ok? <==>
            forall i | 0 <= i < n :: Fits(db, clock, thread, predicted, events, i)
    decreases n
  {
    hide *;
    if n == 0 {
      NextEvent(db, clock, thread, predicted, events, 0);
    } else {
      EventsSucceedIff(db, clock, thread, predicted, events, n - 1);
      NextEvent(db, clock, thread, predicted, events, n - 1);
      if AppendEvents(db, clock, thread, predicted, events[..n - 1]).Ok? {
        var (mid, results) := AppendEvents(db, clock, thread, predicted, events[..n - 1]).value;
        EventsArePlaced(db, clock, thread, predicted, events[..n - 1]);
        OneFits(db, mid, clock, thread, predicted, events, results, n - 1);
      }
    }
  }

  lemma OneFits(before: Tables, mid: Tables, clock: Clock, thread: nat, predicted: map<int, nat>,
                events: seq<AppendEvent>, results: seq<AppendResult>, i: nat)
    requires Wf(before, clock) && i < |events|
    requires AllPlaced(before, mid, clock, thread, predicted, events[..i], results)
    ensures AppendOne(mid, clock, thread, predicted, events[i]).Ok? <==> Fits(before, clock, thread, predicted, events, i)
  {
    assert CountIn(mid.messages, thread) == Room(before, thread, events, i) && Wf(mid, clock)
           && mid.threads == before.threads;
    hide *;
    if IsMessage(events[i]) {
      MessageFits(before, mid, clock, thread, predicted, events, i);
    } else {
      ReactionFits(before, mid, clock, thread, predicted, events, results, i);
    }
  }

  /**
   A batch succeeds exactly if its events are well formed, its source seqs strictly
   ascend, and each event fits: what it answers, by the seq the map gives it or its own,
   is a message of the thread by then, and it is no reaction that is there already or
   comes twice.
   */
  lemma BatchSucceedsIff(db: Tables, clock: Clock, thread: nat, events: seq<AppendEvent>)
    requires Wf(db, clock) && GoodClock(clock)
    ensures AppendBatch(db, clock, thread, events).Ok? <==>
            && (forall i | 0 <= i < |events| :: ValidEvent(clock, events[i])) && Sorted(events)
            && forall i | 0 <= i < |events| ::
                 Fits(db, clock, thread, Predicted(events, NextSeq(db, thread)), events, i)
  {
    hide Wf, Fits, ValidEvent, AppendEvents, NextSeq, Predicted;
    if Sorted(events) {
      EventsSucceedIff(db, clock, thread, Predicted(events, NextSeq(db, thread)), events, |events|);
      assert events[..|events|] == events;
    }
  }
}
