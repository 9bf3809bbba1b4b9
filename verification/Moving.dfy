/** Importing an export: what the batch appends, event by event. */
module Moving {
  import opened Text
  import opened Store
  import opened ThreadLog
  import opened Listing
  import opened Ordering
  import opened Seqs
  import opened Jsonl
  import opened Portable
  import Names

  // ----- moving a thread

  /** Thread `from` of `src`, to be appended to thread `dest` of `dst`. */
  datatype Transfer = Transfer(src: Tables, from: nat, dst: Tables, dest: nat)

  predicate Ready(t: Transfer, clock: Clock) {
    Wf(t.src, clock) && Wf(t.dst, clock) && GoodClock(clock) && 1 <= t.dest <= t.dst.threads
  }

  /** How far seqs move. */
  function Offset(t: Transfer): nat {
    CountIn(t.dst.messages, t.dest)
  }

  function Sources(t: Transfer): seq<nat> {
    InThread(t.src.messages, t.from)
  }

  function MovedMessage(t: Transfer, id: nat): Message {
    if 1 <= id <= |t.src.messages| then
      var m := t.src.messages[id - 1];
      Message(t.dest, Offset(t) + m.seqNo, if m.parent == 0 then 0 else |t.dst.messages| + SeqOf(t.src.messages, m.parent),
              m.name, m.authorType, m.role, m.content, m.createdAt)
    else Message(0, 0, 0, "", "", "", "", "")
  }

  function MovedReaction(t: Transfer, id: nat): Reaction {
    if 1 <= id <= |t.src.reactions| then
      var r := t.src.reactions[id - 1];
      Reaction(|t.dst.messages| + SeqOf(t.src.messages, r.message), r.emoji, r.name, r.authorType, r.createdAt)
    else Reaction(0, "", "", "", "")
  }

  function MovedMessageOf(t: Transfer): nat -> Message {
    (id: nat) => MovedMessage(t, id)
  }

  function MovedReactionOf(t: Transfer): nat -> Reaction {
    (id: nat) => MovedReaction(t, id)
  }

  /** The destination with the first i messages and the first j reactions moved. */
  function Moved(t: Transfer, i: nat, j: nat): Tables
    requires i <= |Sources(t)| && j <= |ListReactions(t.src, t.from)|
  {
    t.dst.(
    messages := t.dst.messages + Map(Sources(t)[..i], MovedMessageOf(t)),
    reactions := t.dst.reactions + Map(ListReactions(t.src, t.from)[..j], MovedReactionOf(t)))
  }

  /** What the batch predicts: seq q of the source becomes Offset + q. */
  ghost predicate Shifts(t: Transfer, predicted: map<int, nat>) {
    && (forall q: int :: q in predicted <==> 1 <= q <= |Sources(t)|)
    && (forall q | q in predicted :: predicted[q] == Offset(t) + q)
  }

  // ----- one message

  lemma SourceAt(t: Transfer, clock: Clock, i: nat)
    requires Ready(t, clock) && i < |Sources(t)|
    ensures
      var id := Sources(t)[i];
      && 1 <= id <= |t.src.messages|
      && var m := t.src.messages[id - 1];
         && m.thread == t.from && m.seqNo == i + 1 && MessageOk(t.src, clock, id - 1)
         && 0 <= SeqOf(t.src.messages, m.parent) <= i && (m.parent == 0 <==> SeqOf(t.src.messages, m.parent) == 0)
  {
    hide InThread;
    WholeThread(t.src, clock, t.from);
    var id := Sources(t)[i];
    RootIsRoot(t.src, clock, id);
    var parent := t.src.messages[id - 1].parent;
    if parent > 0 {
      assert MessageOk(t.src, clock, parent - 1);
    }
  }

  lemma MovedRow(t: Transfer, clock: Clock, i: nat, j: nat, q: nat)
    requires Ready(t, clock) && 1 <= q <= i <= |Sources(t)| && j <= |ListReactions(t.src, t.from)|
    ensures |Moved(t, i, j).messages| == |t.dst.messages| + i
    ensures Moved(t, i, j).messages[|t.dst.messages| + q - 1].thread == t.dest
    ensures Moved(t, i, j).messages[|t.dst.messages| + q - 1].seqNo == Offset(t) + q
  {
    SourceAt(t, clock, q - 1);
    hide Sources, ListReactions, Wf, MessageOk, Moved, Offset;
  }

  /** Where a moved message is found. */
  lemma FindsMoved(t: Transfer, clock: Clock, i: nat, j: nat, q: nat)
    requires Ready(t, clock) && 1 <= q <= i <= |Sources(t)| && j <= |ListReactions(t.src, t.from)|
    requires Wf(Moved(t, i, j), clock)
    ensures IdBySeq(Moved(t, i, j).messages, t.dest, Offset(t) + q) == |t.dst.messages| + q
  {
    hide *;
    MovedRow(t, clock, i, j, q);
    IdBySeqFinds(Moved(t, i, j), clock, |t.dst.messages| + q - 1);
  }

  lemma MovedNone(t: Transfer)
    ensures Moved(t, 0, 0) == t.dst
  {
    hide Sources, ListReactions;
  }

  lemma MovedLength(t: Transfer, i: nat)
    requires i <= |Sources(t)|
    ensures |Moved(t, i, 0).messages| == |t.dst.messages| + i
  {
    hide Sources, ListReactions;
  }

  lemma {:induction false} CountMoved(t: Transfer, clock: Clock, i: nat)
    requires Ready(t, clock) && i <= |Sources(t)|
    ensures CountIn(Moved(t, i, 0).messages, t.dest) == Offset(t) + i
    decreases i
  {
    hide InThread, ListReactions, Wf, MessageOk, CountIn;
    if i > 0 {
      CountMoved(t, clock, i - 1);
      SourceAt(t, clock, i - 1);
      var m := MovedMessage(t, Sources(t)[i - 1]);
      MapConcat(Sources(t)[..i - 1], [Sources(t)[i - 1]], MovedMessageOf(t));
      assert Sources(t)[..i] == Sources(t)[..i - 1] + [Sources(t)[i - 1]];
      assert Moved(t, i, 0).messages == Moved(t, i - 1, 0).messages + [m];
      CountAppend(Moved(t, i - 1, 0).messages, m, t.dest);
    } else {
      assert Moved(t, 0, 0).messages == t.dst.messages;
    }
  }

  lemma MovedNext(t: Transfer, i: nat)
    requires i < |Sources(t)|
    ensures Moved(t, i + 1, 0) ==
            Moved(t, i, 0).(messages := Moved(t, i, 0).messages + [MovedMessage(t, Sources(t)[i])])
  {
    hide Sources, ListReactions, MovedMessage;
    var ids := Sources(t);
    assert ids[..i + 1] == ids[..i] + [ids[i]];
    MapConcat(ids[..i], [ids[i]], MovedMessageOf(t));
    assert Map([ids[i]], MovedMessageOf(t)) == [MovedMessage(t, ids[i])];
  }

  function MessageEvent(t: Transfer, i: nat): AppendEvent
    requires i < |Sources(t)|
  {
    ToEvent(MessageLine(t.src, Sources(t)[i]), true, false)
  }

  /** The id, in the destination, of the moved message with source seq `parentSeq`. */
  function NewParent(t: Transfer, parentSeq: int): int {
    if parentSeq == 0 then 0 else |t.dst.messages| + parentSeq
  }

  lemma MessageEventFields(t: Transfer, clock: Clock, i: nat)
    requires Ready(t, clock) && i < |Sources(t)|
    ensures
      var e := MessageEvent(t, i);
      && IsMessage(e) && Names.Legal(e.name) && AuthorTypeOk(e.authorType) && RoleOk(e.role) && !SqlBlank(e.content)
      && StampOk(clock, e.createdAt) && e.sourceSeq == i + 1 && 0 <= e.parentSeq <= i
      && MovedMessage(t, Sources(t)[i]) == Message(t.dest, Offset(t) + i + 1, NewParent(t, e.parentSeq), e.name,
                                                   e.authorType, e.role, e.content, e.createdAt)
  {
    SourceAt(t, clock, i);
    hide Wf, Sources, SeqOf, Offset, Names.Legal, RoleOk, SqlBlank, Ready, StampOk;
  }

  /** What a message event names as its parent is found: nothing for 0, else the moved parent. */
  predicate TargetFound(db: Tables, thread: nat, target: int, parent: int) {
    if target == 0 then parent == 0 else target > 0 && IdBySeq(db.messages, thread, target) == parent > 0
  }

  lemma ParentFound(t: Transfer, clock: Clock, predicted: map<int, nat>, i: nat, j: nat, parentSeq: nat)
    requires Ready(t, clock) && parentSeq <= i <= |Sources(t)| && j <= |ListReactions(t.src, t.from)|
    requires Wf(Moved(t, i, j), clock) && Shifts(t, predicted)
    ensures TargetFound(Moved(t, i, j), t.dest, Mapped(predicted, parentSeq), NewParent(t, parentSeq))
  {
    ShiftedTarget(t, predicted, parentSeq);
    hide Moved, Wf, IdBySeq, Ready, Sources, ListReactions, Offset, Mapped, Shifts;
    if parentSeq > 0 {
      FindsMoved(t, clock, i, j, parentSeq);
    }
  }

  lemma ShiftedTarget(t: Transfer, predicted: map<int, nat>, seqNo: nat)
    requires Shifts(t, predicted) && seqNo <= |Sources(t)|
    ensures Mapped(predicted, seqNo) == if seqNo == 0 then 0 else Offset(t) + seqNo
  {
    hide Sources, Offset;
  }

  /** A message event whose target is found appends one message that answers it. */
  lemma MessageEventAppends(db: Tables, clock: Clock, thread: nat, predicted: map<int, nat>, e: AppendEvent, parent: nat)
    requires Wf(db, clock) && GoodClock(clock) && 1 <= thread <= db.threads && IsMessage(e)
    requires Names.Legal(e.name) && AuthorTypeOk(e.authorType) && RoleOk(e.role) && !SqlBlank(e.content)
    requires StampOk(clock, e.createdAt) && TargetFound(db, thread, Mapped(predicted, e.parentSeq), parent)
    ensures
      var r := AppendOne(db, clock, thread, predicted, e);
      && r.Ok?
      && r.value.0 == db.(messages := db.messages + [Message(thread, CountIn(db.messages, thread) + 1, parent, e.name,
                                                             e.authorType, e.role, e.content, e.createdAt)])
      && Wf(r.value.0, clock)
  {
    hide Wf, CountIn, IdBySeq, Names.Legal, SqlBlank;
    AppendSucceedsIff(db, clock, thread, e.name, e.authorType, e.role, e.content, e.createdAt, parent);
    AppendAdds(db, clock, thread, e.name, e.authorType, e.role, e.content, e.createdAt, parent);
    hide AppendMessage;
  }

  lemma StillReady(t: Transfer, clock: Clock, i: nat, j: nat)
    requires Ready(t, clock) && i <= |Sources(t)| && j <= |ListReactions(t.src, t.from)|
    ensures GoodClock(clock) && 1 <= t.dest <= Moved(t, i, j).threads
  {
    hide Sources, ListReactions, Wf;
  }

  /** Appending the i-th message moves it. */
  lemma MovesMessage(t: Transfer, clock: Clock, predicted: map<int, nat>, i: nat)
    requires Ready(t, clock) && i < |Sources(t)| && Wf(Moved(t, i, 0), clock) && Shifts(t, predicted)
    ensures
      var r := AppendOne(Moved(t, i, 0), clock, t.dest, predicted, MessageEvent(t, i));
      r.Ok? && r.value.0 == Moved(t, i + 1, 0) && Wf(Moved(t, i + 1, 0), clock)
  {
    hide *;
    StillReady(t, clock, i, 0);
    var e := MessageEvent(t, i);
    MessageEventFields(t, clock, i);
    CountMoved(t, clock, i);
    MovedNext(t, i);
    ParentFound(t, clock, predicted, i, 0, e.parentSeq);
    MessageEventAppends(Moved(t, i, 0), clock, t.dest, predicted, e, NewParent(t, e.parentSeq));
  }

  // ----- one reaction

  function ReactionEvent(t: Transfer, j: nat): AppendEvent
    requires j < |ListReactions(t.src, t.from)|
  {
    ToEvent(ReactionLine(t.src, ListReactions(t.src, t.from)[j]), true, false)
  }

  /** A message's seq lies within its thread. */
  lemma SeqInThread(db: Tables, clock: Clock, id: nat)
    requires Wf(db, clock) && 1 <= id <= |db.messages|
    ensures 1 <= db.messages[id - 1].seqNo <= |InThread(db.messages, db.messages[id - 1].thread)|
  {
    var thread := db.messages[id - 1].thread;
    assert MessageOk(db, clock, id - 1);
    WholeThread(db, clock, thread);
    CountGrows(db.messages, id - 1, |db.messages|, thread);
    assert db.messages[..|db.messages|] == db.messages;
  }

  /** A listed reaction of the source, and its message. */
  lemma ReactionAt(t: Transfer, clock: Clock, j: nat)
    requires Ready(t, clock) && j < |ListReactions(t.src, t.from)|
    ensures
      var id := ListReactions(t.src, t.from)[j];
      && 1 <= id <= |t.src.reactions|
      && var r := t.src.reactions[id - 1];
         && ReactionOk(t.src, clock, id - 1) && t.src.messages[r.message - 1].thread == t.from
         && 1 <= SeqOf(t.src.messages, r.message) <= |Sources(t)|
  {
    hide ListReactions, InThread, MessageOk, StampOk, Names.Legal, Ascending;
    var id := ListReactions(t.src, t.from)[j];
    assert ReactsIn(t.src.messages, t.src.reactions, t.from, id) by {
      ReactionsListed(t.src, t.from);
    }
    assert ReactionOk(t.src, clock, id - 1);
    SeqInThread(t.src, clock, t.src.reactions[id - 1].message);
    hide Wf, Ready;
  }

  lemma ReactionEventFields(t: Transfer, clock: Clock, j: nat)
    requires Ready(t, clock) && j < |ListReactions(t.src, t.from)|
    ensures
      var e := ReactionEvent(t, j);
      && IsReaction(e) && Names.Legal(e.name) && AuthorTypeOk(e.authorType) && !SqlBlank(e.emoji)
      && StampOk(clock, e.createdAt) && e.sourceSeq == 0 && 1 <= e.messageSeq <= |Sources(t)|
      && MovedReaction(t, ListReactions(t.src, t.from)[j]) ==
         Reaction(NewParent(t, e.messageSeq), e.emoji, e.name, e.authorType, e.createdAt)
  {
    ReactionAt(t, clock, j);
    hide Wf, InThread, ListReactions, Offset, Names.Legal, SqlBlank, Ready, StampOk, SeqOf;
  }

  /** Different reactions of the source move to different messages, or differ in more than that. */
  lemma ReactionsStayApart(t: Transfer, clock: Clock, x: nat, j: nat)
    requires Ready(t, clock) && x < j < |ListReactions(t.src, t.from)|
    ensures
      var ids := ListReactions(t.src, t.from);
      !SameReaction(MovedReaction(t, ids[x]), MovedReaction(t, ids[j]))
  {
    assert Wf(t.src, clock);
    hide Ready, Wf, ListReactions, ReactionOk, Offset;
    var ids := ListReactions(t.src, t.from);
    assert ids[x] != ids[j] by {
      ReactionsListed(t.src, t.from);
    }
    ReactionAt(t, clock, x);
    ReactionAt(t, clock, j);
    DifferentReactions(t.src, clock, ids[x], ids[j]);
  }

  /** Two reactions of a thread differ in their message's seq, their emoji or their author. */
  lemma DifferentReactions(db: Tables, clock: Clock, x: nat, y: nat)
    requires Wf(db, clock) && 1 <= x <= |db.reactions| && 1 <= y <= |db.reactions| && x != y
    requires 1 <= db.reactions[x - 1].message <= |db.messages| && 1 <= db.reactions[y - 1].message <= |db.messages|
    requires db.messages[db.reactions[x - 1].message - 1].thread == db.messages[db.reactions[y - 1].message - 1].thread
    ensures
      var a, b := db.reactions[x - 1], db.reactions[y - 1];
      SeqOf(db.messages, a.message) != SeqOf(db.messages, b.message) || a.emoji != b.emoji || a.name != b.name
  {
    var a, b := db.reactions[x - 1], db.reactions[y - 1];
    assert !SameReaction(a, b);
    if a.message < b.message {
      SeqsAreUnique(db, clock, a.message - 1, b.message - 1);
    } else if b.message < a.message {
      SeqsAreUnique(db, clock, b.message - 1, a.message - 1);
    }
    hide Wf;
  }

  lemma MovedReactionIsNew(t: Transfer, clock: Clock, j: nat, r: Reaction)
    requires Ready(t, clock) && j < |ListReactions(t.src, t.from)| && r in Moved(t, |Sources(t)|, j).reactions
    ensures !SameReaction(r, MovedReaction(t, ListReactions(t.src, t.from)[j]))
  {
    var ids := ListReactions(t.src, t.from);
    ReactionEventFields(t, clock, j);
    if r in t.dst.reactions {
      var i :| 0 <= i < |t.dst.reactions| && t.dst.reactions[i] == r;
      assert ReactionOk(t.dst, clock, i);
    } else {
      var x :| 0 <= x < j && MovedReaction(t, ids[..j][x]) == r;
      ReactionsStayApart(t, clock, x, j);
    }
    hide Wf, ListReactions, Sources, MovedReaction, Ready;
  }

  /** A reaction event whose target is found, and which is new, appends one reaction to it. */
  lemma ReactionEventAppends(db: Tables, clock: Clock, thread: nat, predicted: map<int, nat>, e: AppendEvent, message: nat)
    requires Wf(db, clock) && GoodClock(clock) && IsReaction(e)
    requires Names.Legal(e.name) && AuthorTypeOk(e.authorType) && !SqlBlank(e.emoji) && StampOk(clock, e.createdAt)
    requires message > 0 && TargetFound(db, thread, Mapped(predicted, e.messageSeq), message)
    requires forall r | r in db.reactions :: !SameReaction(r, Reaction(message, e.emoji, e.name, e.authorType, e.createdAt))
    ensures
      var r := AppendOne(db, clock, thread, predicted, e);
      && r.Ok?
      && r.value.0 ==
         db.(reactions := db.reactions + [Reaction(message, e.emoji, e.name, e.authorType, e.createdAt)])
      && Wf(r.value.0, clock)
  {
    hide Wf;
    assert e.name[0] != ' ';
    hide Names.Legal;
    assert AddReaction(db, clock, message, e.emoji, e.name, e.authorType, e.createdAt).Ok?;
    ReactAdds(db, clock, message, e.emoji, e.name, e.authorType, e.createdAt);
    hide AddReaction;
  }

  lemma MovedNextReaction(t: Transfer, j: nat)
    requires j < |ListReactions(t.src, t.from)|
    ensures
      var n, ids := |Sources(t)|, ListReactions(t.src, t.from);
      Moved(t, n, j + 1) == Moved(t, n, j).(reactions := Moved(t, n, j).reactions + [MovedReaction(t, ids[j])])
  {
    hide Sources, ListReactions, MovedReaction;
    var ids := ListReactions(t.src, t.from);
    assert ids[..j + 1] == ids[..j] + [ids[j]];
    MapConcat(ids[..j], [ids[j]], MovedReactionOf(t));
    assert Map([ids[j]], MovedReactionOf(t)) == [MovedReaction(t, ids[j])];
  }

  /** Appending the j-th reaction, once all the messages are there, moves it. */
  lemma MovesReaction(t: Transfer, clock: Clock, predicted: map<int, nat>, j: nat)
    requires Ready(t, clock) && j < |ListReactions(t.src, t.from)| && Shifts(t, predicted)
    requires Wf(Moved(t, |Sources(t)|, j), clock)
    ensures
      var r := AppendOne(Moved(t, |Sources(t)|, j), clock, t.dest, predicted, ReactionEvent(t, j));
      r.Ok? && r.value.0 == Moved(t, |Sources(t)|, j + 1) && Wf(Moved(t, |Sources(t)|, j + 1), clock)
  {
    assert GoodClock(clock);
    var n, e, added := |Sources(t)|, ReactionEvent(t, j), MovedReaction(t, ListReactions(t.src, t.from)[j]);
    ReactionEventFields(t, clock, j);
    assert NewParent(t, e.messageSeq) > 0;
    hide *;
    MovedNextReaction(t, j);
    ParentFound(t, clock, predicted, n, j, e.messageSeq);
    forall r | r in Moved(t, n, j).reactions
      ensures !SameReaction(r, added)
    {
      MovedReactionIsNew(t, clock, j, r);
    }
    ReactionEventAppends(Moved(t, n, j), clock, t.dest, predicted, e, NewParent(t, e.messageSeq));
  }

  // ----- the whole batch

  function Events(t: Transfer): seq<AppendEvent> {
    Map(Exported(t.src, t.from), EventOf(true, false))
  }

  /** A dump without its first `cut` messages. */
  function CutLines(t: Transfer, cut: nat): seq<Line>
    requires cut <= |Sources(t)|
  {
    Map(Sources(t)[cut..], MessageLineOf(t.src)) + ReactionLines(t.src, t.from)
  }

  function CutEvents(t: Transfer, cut: nat): seq<AppendEvent>
    requires cut <= |Sources(t)|
  {
    Map(CutLines(t, cut), EventOf(true, false))
  }

  /** How many messages are left. */
  function Left(t: Transfer, cut: nat): nat
    requires cut <= |Sources(t)|
  {
    |Sources(t)| - cut
  }

  lemma CutEventAt(t: Transfer, cut: nat, i: nat)
    requires cut <= |Sources(t)| && i < |CutEvents(t, cut)|
    ensures |CutEvents(t, cut)| == Left(t, cut) + |ListReactions(t.src, t.from)|
    ensures i < Left(t, cut) ==> CutEvents(t, cut)[i] == MessageEvent(t, cut + i)
    ensures i >= Left(t, cut) ==> CutEvents(t, cut)[i] == ReactionEvent(t, i - Left(t, cut))
  {
    hide Sources, ListReactions, MessageLine, ReactionLine, ToEvent;
  }

  lemma {:induction false} CountOfCut(t: Transfer, clock: Clock, cut: nat, i: nat)
    requires Ready(t, clock) && cut <= |Sources(t)| && i <= |CutEvents(t, cut)|
    ensures MessageCount(CutEvents(t, cut)[..i]) == if i <= Left(t, cut) then i else Left(t, cut)
    decreases i
  {
    hide Ready, Sources, ListReactions, CutEvents, MessageEvent, ReactionEvent;
    if i > 0 {
      CountOfCut(t, clock, cut, i - 1);
      CutEventAt(t, cut, i - 1);
      if i <= Left(t, cut) {
        MessageEventFields(t, clock, cut + i - 1);
      } else {
        ReactionEventFields(t, clock, i - 1 - Left(t, cut));
      }
      assert CutEvents(t, cut)[..i][..i - 1] == CutEvents(t, cut)[..i - 1];
    }
  }

  lemma CutEventIsNumbered(t: Transfer, clock: Clock, cut: nat, i: nat)
    requires Ready(t, clock) && cut <= |Sources(t)| && i < |CutEvents(t, cut)|
    ensures Numbered(CutEvents(t, cut)[i]) <==> i < Left(t, cut)
    ensures i < Left(t, cut) ==> CutEvents(t, cut)[i].sourceSeq == cut + i + 1
    ensures ValidEvent(clock, CutEvents(t, cut)[i])
  {
    hide Ready, Sources, ListReactions, CutEvents, MessageEvent, ReactionEvent, Names.Legal, Text.SqlBlank, RoleOk,
         AuthorTypeOk, MovedMessage, MovedReaction;
    CutEventAt(t, cut, i);
    if i < Left(t, cut) {
      MessageEventFields(t, clock, cut + i);
    } else {
      ReactionEventFields(t, clock, i - Left(t, cut));
    }
  }

  /** The whole export is the one that leaves nothing out. */
  lemma EventsAreUncut(t: Transfer, clock: Clock)
    requires Ready(t, clock)
    ensures Events(t) == CutEvents(t, 0)
  {
    assert Wf(t.src, clock);
    hide InThread, ListReactions, ListMessages, MessageLine, ReactionLine, Wf, Ready, ToEvent;
    ListIsThread(t.src, clock, t.from);
  }

  /** The destination after the first i events. */
  function Stage(t: Transfer, i: nat): Tables
    requires i <= |Sources(t)| + |ListReactions(t.src, t.from)|
  {
    if i <= |Sources(t)| then Moved(t, i, 0) else Moved(t, |Sources(t)|, i - |Sources(t)|)
  }

  lemma NextStage(t: Transfer, clock: Clock, predicted: map<int, nat>, i: nat)
    requires Ready(t, clock) && Shifts(t, predicted) && i < |Sources(t)| + |ListReactions(t.src, t.from)| == |Events(t)|
    requires Wf(Stage(t, i), clock)
    ensures
      var r := AppendOne(Stage(t, i), clock, t.dest, predicted, Events(t)[i]);
      r.Ok? && r.value.0 == Stage(t, i + 1) && Wf(Stage(t, i + 1), clock)
  {
    hide Ready, Shifts, Sources, ListReactions, Events, Moved, Wf, AppendOne;
    EventsAreUncut(t, clock);
    CutEventAt(t, 0, i);
    if i < |Sources(t)| {
      MovesMessage(t, clock, predicted, i);
    } else {
      MovesReaction(t, clock, predicted, i - |Sources(t)|);
    }
  }

  lemma {:induction false} EventsMove(t: Transfer, clock: Clock, predicted: map<int, nat>, i: nat)
    requires Ready(t, clock) && Shifts(t, predicted) && i <= |Sources(t)| + |ListReactions(t.src, t.from)| == |Events(t)|
    ensures Wf(Stage(t, i), clock)
    ensures
      var r := AppendEvents(t.dst, clock, t.dest, predicted, Events(t)[..i]);
      r.Ok? && r.value.0 == Stage(t, i)
    decreases i
  {
    if i == 0 {
      hide Sources, ListReactions, Events, Wf;
      assert Stage(t, 0) == t.dst;
    } else {
      hide Ready, Shifts, Sources, ListReactions, Events, Stage, Wf, AppendOne;
      EventsMove(t, clock, predicted, i - 1);
      NextStage(t, clock, predicted, i - 1);
      assert Events(t)[..i][..i - 1] == Events(t)[..i - 1];
    }
  }

  /** What the map holds when the numbered events come first, numbered on from `base`. */
  lemma PredictedInOrder(events: seq<AppendEvent>, n: nat, base: nat, next: nat)
    requires n <= |events|
    requires forall i | 0 <= i < |events| :: Numbered(events[i]) <==> i < n
    requires forall i | 0 <= i < n :: events[i].sourceSeq == base + i + 1 && MessageCount(events[..i]) == i
    ensures Sorted(events)
    ensures forall q: int :: q in Predicted(events, next) <==> base < q <= base + n
    ensures forall q | q in Predicted(events, next) :: Predicted(events, next)[q] == next + q - base - 1
  {
    hide Numbered, MessageCount;
    var predicted := Predicted(events, next);
    forall q: int
      ensures q in predicted <==> base < q <= base + n
      ensures q in predicted ==> predicted[q] == next + q - base - 1
    {
      if base < q <= base + n {
        assert events[q - base - 1].sourceSeq == q;
      }
    }
  }

  lemma NextAfterOffset(t: Transfer, clock: Clock)
    requires Ready(t, clock)
    ensures NextSeq(t.dst, t.dest) == Offset(t) + 1
  {
    NextIsCount(t.dst, clock, t.dest);
    hide Wf, NextSeq, CountIn;
  }

  /** An export without its first `cut` messages is accepted, and its map shifts the others. */
  lemma PredictsCut(t: Transfer, clock: Clock, cut: nat)
    requires Ready(t, clock) && cut <= |Sources(t)|
    ensures Sorted(CutEvents(t, cut)) && forall i | 0 <= i < |CutEvents(t, cut)| :: ValidEvent(clock, CutEvents(t, cut)[i])
    ensures
      var predicted := Predicted(CutEvents(t, cut), NextSeq(t.dst, t.dest));
      && (forall q: int :: q in predicted <==> cut < q <= |Sources(t)|)
      && (forall q | q in predicted :: predicted[q] == Offset(t) + q - cut)
    ensures |CutEvents(t, cut)| == Left(t, cut) + |ListReactions(t.src, t.from)|
  {
    NextAfterOffset(t, clock);
    var events := CutEvents(t, cut);
    assert |events| == Left(t, cut) + |ListReactions(t.src, t.from)|;
    hide Ready, Sources, ListReactions, CutEvents, ValidEvent, Numbered, MessageCount, NextSeq, Offset, Predicted, Sorted;
    forall i | 0 <= i < |events|
      ensures Numbered(events[i]) <==> i < Left(t, cut)
      ensures i < Left(t, cut) ==> events[i].sourceSeq == cut + i + 1 && MessageCount(events[..i]) == i
      ensures ValidEvent(clock, events[i])
    {
      CutEventIsNumbered(t, clock, cut, i);
      CountOfCut(t, clock, cut, i);
    }
    PredictedInOrder(events, Left(t, cut), cut, NextSeq(t.dst, t.dest));
  }

  lemma PredictsShift(t: Transfer, clock: Clock)
    requires Ready(t, clock)
    ensures Sorted(Events(t)) && Shifts(t, Predicted(Events(t), NextSeq(t.dst, t.dest)))
    ensures forall i | 0 <= i < |Events(t)| :: ValidEvent(clock, Events(t)[i])
    ensures |Events(t)| == |Sources(t)| + |ListReactions(t.src, t.from)|
  {
    hide Ready, Sources, ListReactions, Events, CutEvents, ValidEvent, NextSeq, Offset, Predicted, Sorted;
    EventsAreUncut(t, clock);
    PredictsCut(t, clock, 0);
  }

  /** Importing an export into a thread that exists succeeds, and moves the rows. */
  lemma ImportMoves(t: Transfer, clock: Clock)
    requires Ready(t, clock)
    ensures
      var r := AppendBatch(t.dst, clock, t.dest, Events(t));
      && r.Ok? && r.value.0 == Moved(t, |Sources(t)|, |ListReactions(t.src, t.from)|)
      && Wf(r.value.0, clock) && ValidResults(Events(t), r.value.1)
  {
    hide *;
    ReadyMeans(t, clock);
    PredictsShift(t, clock);
    EventsMove(t, clock, Predicted(Events(t), NextSeq(t.dst, t.dest)), |Events(t)|);
    LastStage(t);
    assert Events(t)[..|Events(t)|] == Events(t);
    BatchIsEvents(t.dst, clock, t.dest, Events(t));
    BatchIsExact(t.dst, clock, t.dest, Events(t));
  }

  lemma ReadyMeans(t: Transfer, clock: Clock)
    requires Ready(t, clock)
    ensures Wf(t.dst, clock) && GoodClock(clock)
  {
    hide Wf;
  }

  lemma LastStage(t: Transfer)
    ensures
      var n, p := |Sources(t)|, |ListReactions(t.src, t.from)|;
      Stage(t, n + p) == Moved(t, n, p)
  {
    hide Sources, ListReactions, Moved;
  }

  lemma BatchIsEvents(db: Tables, clock: Clock, thread: nat, events: seq<AppendEvent>)
    requires Sorted(events) && forall i | 0 <= i < |events| :: ValidEvent(clock, events[i])
    ensures AppendBatch(db, clock, thread, events) ==
            AppendEvents(db, clock, thread, Predicted(events, NextSeq(db, thread)), events)
  {
    hide ValidEvent, Sorted, Predicted, NextSeq, AppendEvents;
  }
}
