/**
 internal/store/store.go over its three tables. A table is the sequence of its rows
 and a row's id is its position, from 1: nothing is ever deleted. One connection
 serves all calls, so a transaction is a step on all the tables at once, or nothing.
 */
module Store {
  import opened Ints
  import opened Wrappers
  import opened Text
  import Names

  /** `parent` is a message id, 0 for none. */
  datatype Message = Message(
    thread: nat, seqNo: nat, parent: nat,
    name: string, authorType: string, role: string, content: string, createdAt: string)

  datatype Reaction = Reaction(message: nat, emoji: string, name: string, authorType: string, createdAt: string)

  /** Thread ids are 1..threads. */
  datatype Tables = Tables(threads: nat, messages: seq<Message>, reactions: seq<Reaction>)

  /** time.Parse(time.RFC3339, _), and the timestamp the database fills in by default. */
  datatype Clock = Clock(isTime: string -> bool, now: string)

  predicate GoodClock(clock: Clock) {
    clock.now != "" && clock.isTime(clock.now)
  }

  // ----- the constraints of the schema

  predicate AuthorTypeOk(authorType: string) {
    authorType == "human" || authorType == "agent"
  }

  predicate RoleOk(role: string) {
    role == "user" || role == "assistant" || role == "system"
  }

  function InsertMessage(db: Tables, thread: nat, seqNo: nat, parent: int, name: string, authorType: string,
                         role: string, content: string, createdAt: string): Result<Tables> {
    if SqlBlank(name) || !AuthorTypeOk(authorType) || !RoleOk(role) || SqlBlank(content) then Err(Invalid)
    else if exists m | m in db.messages :: m.thread == thread && m.seqNo == seqNo then Err(Conflict)
    else if !(1 <= thread <= db.threads && 0 <= parent <= |db.messages|) then Err(NotFound)
    else
      Ok(db.(messages := db.messages + [Message(thread, seqNo, parent, name, authorType, role, content, createdAt)]))
  }

  function InsertReaction(db: Tables, message: nat, emoji: string, name: string, authorType: string,
                          createdAt: string): Result<Tables> {
    if SqlBlank(emoji) || SqlBlank(name) || !AuthorTypeOk(authorType) then Err(Invalid)
    else if exists r | r in db.reactions :: r.message == message && r.emoji == emoji && r.name == name then Err(Conflict)
    else if !(1 <= message <= |db.messages|) then Err(NotFound)
    else Ok(db.(reactions := db.reactions + [Reaction(message, emoji, name, authorType, createdAt)]))
  }

  // ----- queries

  /** GetLastMessageSeq, 0 where it finds no row. */
  function LastSeq(messages: seq<Message>, thread: nat): nat {
    if messages == [] then 0
    else
      var n := |messages| - 1;
      var last := LastSeq(messages[..n], thread);
      if messages[n].thread == thread then Max(last, messages[n].seqNo) else last
  }

  function NextSeq(db: Tables, thread: nat): nat {
    LastSeq(db.messages, thread) + 1
  }

  /** GetMessageIDByThreadSeq, 0 where it finds no row. */
  function IdBySeq(messages: seq<Message>, thread: nat, seqNo: int): (id: nat)
    ensures id <= |messages|
    ensures id > 0 ==> messages[id - 1].thread == thread && messages[id - 1].seqNo == seqNo
    ensures id == 0 ==> forall m | m in messages :: m.thread != thread || m.seqNo != seqNo
  {
    if messages == [] then 0
    else
      var n := |messages| - 1;
      if messages[n].thread == thread && messages[n].seqNo == seqNo then n + 1
      else IdBySeq(messages[..n], thread, seqNo)
  }

  // ----- appends

  /** The tables after one append, and the assigned seq and message id. */
  datatype Appended = Appended(db: Tables, seqNo: nat, id: nat)

  /** The tables after one reaction, its message's id and its own. */
  datatype Reacted = Reacted(db: Tables, message: nat, id: nat)

  /** createdAt as given, or the database's default. */
  function Stamp(clock: Clock, createdAt: string): string {
    if createdAt != "" then createdAt else clock.now
  }

  function AppendMessage(db: Tables, clock: Clock, thread: nat, name: string, authorType: string, role: string,
                         content: string, createdAt: string, parentId: int): Result<Appended> {
    if !Names.Legal(name) then Err(Invalid)
    else if parentId > |db.messages| then Err(NotFound)
    else if parentId > 0 && db.messages[parentId - 1].thread != thread then Err(Invalid)
    else if createdAt != "" && !clock.isTime(createdAt) then Err(Invalid)
    else
      var seqNo := NextSeq(db, thread);
      var db' :- InsertMessage(db, thread, seqNo, parentId, name, authorType, role, content, Stamp(clock, createdAt));
      Ok(Appended(db', seqNo, |db'.messages|))
  }

  function AppendMessageByParentSeq(db: Tables, clock: Clock, thread: nat, parentSeq: int, name: string,
                                    authorType: string, role: string, content: string, createdAt: string): Result<Appended> {
    if parentSeq < 0 then Err(Invalid)
    else if parentSeq == 0 then AppendMessage(db, clock, thread, name, authorType, role, content, createdAt, 0)
    else
      var parentId := IdBySeq(db.messages, thread, parentSeq);
      if parentId == 0 then Err(NotFound)
      else AppendMessage(db, clock, thread, name, authorType, role, content, createdAt, parentId)
  }

  function AddReaction(db: Tables, clock: Clock, messageId: nat, emoji: string, name: string, authorType: string,
                       createdAt: string): Result<Reacted> {
    if !Names.Legal(name) then Err(Invalid)
    else if createdAt != "" && !clock.isTime(createdAt) then Err(Invalid)
    else
      var db' :- InsertReaction(db, messageId, emoji, name, authorType, Stamp(clock, createdAt));
      Ok(Reacted(db', messageId, |db'.reactions|))
  }

  function AddReactionBySeq(db: Tables, clock: Clock, thread: nat, messageSeq: int, emoji: string, name: string,
                            authorType: string, createdAt: string): Result<Reacted> {
    var messageId := IdBySeq(db.messages, thread, messageSeq);
    if messageId == 0 then Err(NotFound)
    else AddReaction(db, clock, messageId, emoji, name, authorType, createdAt)
  }

  // ----- batches

  datatype AppendEvent = AppendEvent(
    kind: string, sourceSeq: int, parentSeq: int, messageSeq: int,
    name: string, authorType: string, role: string, content: string, emoji: string, createdAt: string)

  datatype AppendResult = AppendResult(sourceSeq: int, seqNo: nat, messageId: nat, reactionId: nat)

  predicate IsMessage(e: AppendEvent) {
    e.kind == "message"
  }

  predicate IsReaction(e: AppendEvent) {
    e.kind == "reaction"
  }

  /** validateAppendEvent */
  predicate ValidEvent(clock: Clock, e: AppendEvent) {
    && e.sourceSeq >= 0
    && (IsMessage(e) || IsReaction(e))
    && (IsMessage(e) ==> e.parentSeq >= 0)
    && (IsReaction(e) ==> e.messageSeq > 0)
    && (e.createdAt != "" ==> clock.isTime(e.createdAt))
  }

  /** How many messages a batch holds. */
  function MessageCount(events: seq<AppendEvent>): (count: nat)
    ensures count <= |events|
  {
    if events == [] then 0
    else MessageCount(events[..|events| - 1]) + if IsMessage(events[|events| - 1]) then 1 else 0
  }

  /** A message that other events can refer to. */
  predicate Numbered(e: AppendEvent) {
    IsMessage(e) && e.sourceSeq != 0
  }

  /** Source seqs strictly ascend. */
  predicate Sorted(events: seq<AppendEvent>) {
    forall i, j | 0 <= i < j < |events| && Numbered(events[i]) && Numbered(events[j]) ::
      events[i].sourceSeq < events[j].sourceSeq
  }

  /** The seq each numbered message will get if the batch's first message gets `next`. */
  function Predicted(events: seq<AppendEvent>, next: nat): map<int, nat>
    requires Sorted(events)
  {
    map i | 0 <= i < |events| && Numbered(events[i]) :: events[i].sourceSeq := next + MessageCount(events[..i])
  }

  function Mapped(predicted: map<int, nat>, seqNo: int): int {
    if seqNo in predicted then predicted[seqNo] else seqNo
  }

  function AppendOne(db: Tables, clock: Clock, thread: nat, predicted: map<int, nat>, e: AppendEvent)
    : Result<(Tables, AppendResult)>
  {
    if IsMessage(e) then
      var a :- AppendMessageByParentSeq(db, clock, thread, Mapped(predicted, e.parentSeq), e.name, e.authorType, e.role,
                                        e.content, e.createdAt);
      Ok((a.db, AppendResult(e.sourceSeq, a.seqNo, a.id, 0)))
    else
      var r :- AddReactionBySeq(db, clock, thread, Mapped(predicted, e.messageSeq), e.emoji, e.name, e.authorType,
                                e.createdAt);
      Ok((r.db, AppendResult(e.sourceSeq, 0, r.message, r.id)))
  }

  function AppendEvents(db: Tables, clock: Clock, thread: nat, predicted: map<int, nat>, events: seq<AppendEvent>)
    : Result<(Tables, seq<AppendResult>)>
  {
    if events == [] then Ok((db, []))
    else
      var n := |events| - 1;
      var (db1, results) :- AppendEvents(db, clock, thread, predicted, events[..n]);
      var (db2, result) :- AppendOne(db1, clock, thread, predicted, events[n]);
      Ok((db2, results + [result]))
  }

  function AppendBatch(db: Tables, clock: Clock, thread: nat, events: seq<AppendEvent>)
    : Result<(Tables, seq<AppendResult>)>
  {
    if exists i | 0 <= i < |events| :: !ValidEvent(clock, events[i]) then Err(Invalid)
    else if !Sorted(events) then Err(Invalid)
    else AppendEvents(db, clock, thread, Predicted(events, NextSeq(db, thread)), events)
  }
}
