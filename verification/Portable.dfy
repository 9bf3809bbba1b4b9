/**
 Export and import of a thread: dumpThreadMessages and the import command of
 cmd/flf/main.go, appendThreadEvents of internal/apiserver/server.go.
 */
module Portable {
  import opened Wrappers
  import opened Text
  import opened Store
  import opened ThreadLog
  import opened Listing
  import opened Jsonl
  import opened Seqs
  import Names

  // ----- export

  function MessageLine(db: Tables, id: nat): Line {
    if 1 <= id <= |db.messages| then
      var m := db.messages[id - 1];
      Line("message", m.seqNo, SeqOf(db.messages, m.parent), 0, m.role, m.name, m.authorType, m.content, "", m.createdAt,
           Some(map[]))
    else Line("message", 0, 0, 0, "", "", "", "", "", "", Some(map[]))
  }

  function ReactionLine(db: Tables, id: nat): Line {
    if 1 <= id <= |db.reactions| then
      var r := db.reactions[id - 1];
      Line("reaction", 0, 0, SeqOf(db.messages, r.message), "", r.name, r.authorType, "", r.emoji, r.createdAt,
           Some(map[]))
    else Line("reaction", 0, 0, 0, "", "", "", "", "", "", Some(map[]))
  }

  function MessageLineOf(db: Tables): nat -> Line {
    (id: nat) => MessageLine(db, id)
  }

  function ReactionLineOf(db: Tables): nat -> Line {
    (id: nat) => ReactionLine(db, id)
  }

  function MessageLines(db: Tables, thread: nat): seq<Line> {
    Map(ListMessages(db, thread, 0), MessageLineOf(db))
  }

  function ReactionLines(db: Tables, thread: nat): seq<Line> {
    Map(ListReactions(db, thread), ReactionLineOf(db))
  }

  /** The lines of a whole thread: its messages in seq order, then its reactions. */
  function Exported(db: Tables, thread: nat): seq<Line> {
    MessageLines(db, thread) + ReactionLines(db, thread)
  }

  // ----- import

  /** The event a line becomes, sent by an agent or not, as an import or live. */
  function ToEvent(l: Line, isImport: bool, isAgent: bool): AppendEvent {
    var authorType :=
      if isImport && !isAgent then (if l.authorType == "" then "human" else l.authorType)
      else if isAgent then "agent" else "human";
    AppendEvent(l.kind, if isImport then l.seqNo else 0, l.parentSeq, l.messageSeq, l.name, authorType, l.role, l.content,
                l.emoji, l.timestamp)
  }

  function EventOf(isImport: bool, isAgent: bool): Line -> AppendEvent {
    (l: Line) => ToEvent(l, isImport, isAgent)
  }

  /** appendThreadEvents: the lines of a request become the events of one batch. */
  function Append(db: Tables, clock: Clock, thread: nat, objects: seq<Object>, isImport: bool, isAgent: bool)
    : Result<(Tables, seq<AppendResult>)>
  {
    if !(1 <= |objects| <= MAX_BATCH_EVENTS) then Err(Invalid)
    else
      var lines :- Parsed(Map(objects, AsJson()));
      AppendBatch(db, clock, thread, Map(lines, EventOf(isImport, isAgent)))
  }

  const MAX_BATCH_EVENTS := 1000

  function AsJson(): Object -> Raw {
    (o: Object) => Json(o)
  }

  function Marshalled(): Line -> Object {
    (l: Line) => Marshal(l)
  }

  /** The import command: it reads a file, and sends its lines. */
  function Import(db: Tables, clock: Clock, thread: nat, file: seq<Raw>): Result<(Tables, seq<AppendResult>)> {
    var lines :- Parsed(file);
    Append(db, clock, thread, Map(lines, Marshalled()), true, false)
  }

  /** An import is the batch of its lines as they were parsed: sending them changes nothing. */
  lemma ImportIsBatch(db: Tables, clock: Clock, thread: nat, lines: seq<Line>, file: seq<Raw>)
    requires Parsed(file) == Ok(lines)
    ensures Import(db, clock, thread, file) ==
            if 1 <= |lines| <= MAX_BATCH_EVENTS
            then AppendBatch(db, clock, thread, Map(lines, EventOf(true, false)))
            else Err(Invalid)
  {
    ParsedAreNormal(file);
    hide Marshal, Normal, AppendBatch, Parsed;
    FileRoundTrip(lines, Map(Map(lines, Marshalled()), AsJson()));
  }

  /** The tables have grown, and every row that was added has the given author type. */
  predicate AddedBy(before: Tables, after: Tables, authorType: string) {
    && before.messages <= after.messages && before.reactions <= after.reactions
    && (forall i | |before.messages| <= i < |after.messages| :: after.messages[i].authorType == authorType)
    && (forall i | |before.reactions| <= i < |after.reactions| :: after.reactions[i].authorType == authorType)
  }

  lemma OneAddedBy(db: Tables, clock: Clock, thread: nat, predicted: map<int, nat>, e: AppendEvent)
    requires Wf(db, clock) && GoodClock(clock) && AppendOne(db, clock, thread, predicted, e).Ok?
    ensures AddedBy(db, AppendOne(db, clock, thread, predicted, e).value.0, e.authorType)
    ensures Wf(AppendOne(db, clock, thread, predicted, e).value.0, clock)
  {
    if IsMessage(e) {
      MessageAppends(db, clock, thread, predicted, e);
    } else {
      ReactionAppends(db, clock, thread, predicted, e);
    }
    hide AppendOne, Wf, CountIn, Answers, Target;
  }

  lemma {:induction false} AllAddedBy(db: Tables, clock: Clock, thread: nat, predicted: map<int, nat>,
                                      events: seq<AppendEvent>, authorType: string)
    requires Wf(db, clock) && GoodClock(clock) && AppendEvents(db, clock, thread, predicted, events).Ok?
    requires forall i | 0 <= i < |events| :: events[i].authorType == authorType
    ensures AddedBy(db, AppendEvents(db, clock, thread, predicted, events).value.0, authorType)
    ensures Wf(AppendEvents(db, clock, thread, predicted, events).value.0, clock)
    decreases |events|
  {
    if events != [] {
      hide Wf, AppendOne, AddedBy;
      var n := |events| - 1;
      AllAddedBy(db, clock, thread, predicted, events[..n], authorType);
      var mid := AppendEvents(db, clock, thread, predicted, events[..n]).value.0;
      OneAddedBy(mid, clock, thread, predicted, events[n]);
    }
  }

  /**
   Lines do not say who sent them: only in an import by a human does a line's author
   type count. Whatever an agent sends is an agent's, and what a human sends live is a
   human's.
   */
  lemma AuthorsAreGiven(db: Tables, clock: Clock, thread: nat, objects: seq<Object>, isImport: bool, isAgent: bool)
    requires Wf(db, clock) && GoodClock(clock) && (isAgent || !isImport)
    ensures
      var r := Append(db, clock, thread, objects, isImport, isAgent);
      r.Ok? ==> AddedBy(db, r.value.0, if isAgent then "agent" else "human")
  {
    hide Parsed, AppendEvents, Wf;
    if Append(db, clock, thread, objects, isImport, isAgent).Ok? {
      var events := Map(Parsed(Map(objects, AsJson())).value, EventOf(isImport, isAgent));
      AllAddedBy(db, clock, thread, Predicted(events, NextSeq(db, thread)), events,
                 if isAgent then "agent" else "human");
    }
  }

  // ----- the client's side of an export

  /** validateMessages: what the client asks of a message it is sent. */
  predicate MessageShown(m: Message) {
    m.thread > 0 && m.seqNo > 0 && !Blank(m.name) && !Blank(m.content) && AuthorTypeOk(m.authorType)
  }

  /** validateReactions */
  predicate ReactionShown(db: Tables, r: Reaction) {
    r.message > 0 && SeqOf(db.messages, r.message) > 0 && !Blank(r.emoji) && !Blank(r.name)
  }

  predicate MessagesShown(db: Tables, ids: seq<nat>) {
    forall id | id in ids :: 1 <= id <= |db.messages| && MessageShown(db.messages[id - 1])
  }

  predicate ReactionsShown(db: Tables, ids: seq<nat>) {
    forall id | id in ids :: 1 <= id <= |db.reactions| && ReactionShown(db, db.reactions[id - 1])
  }

  /** GET messages, with the query threadMessagesURL builds. */
  function Fetched(db: Tables, thread: nat, lastN: int, afterSeq: int): seq<nat> {
    if afterSeq >= 0 then ListMessagesAfter(db, thread, afterSeq) else ListMessages(db, thread, lastN)
  }

  /** A legal name is never blank. */
  lemma LegalIsNotBlank(name: string)
    requires Names.Legal(name)
    ensures !Blank(name)
  {
    assert LeadingSpace(name) == 0 && TrailingSpace(name) == 0;
  }

  /**
   When the messages of a thread can be exported: exactly when no content is made of
   white space alone. The schema is laxer, as its trim() strips only spaces.
   */
  lemma MessagesExportIff(db: Tables, clock: Clock, thread: nat)
    requires Wf(db, clock)
    ensures MessagesShown(db, ListMessages(db, thread, 0)) <==>
            forall i | 0 <= i < |db.messages| && db.messages[i].thread == thread :: !Blank(db.messages[i].content)
  {
    ListIsThread(db, clock, thread);
    forall i | 0 <= i < |db.messages| && db.messages[i].thread == thread
      ensures i + 1 in InThread(db.messages, thread)
      ensures MessageShown(db.messages[i]) <==> !Blank(db.messages[i].content)
    {
      InThreadHas(db.messages, thread, i + 1);
      assert MessageOk(db, clock, i);
      LegalIsNotBlank(db.messages[i].name);
    }
    forall id | id in InThread(db.messages, thread)
      ensures 1 <= id <= |db.messages| && db.messages[id - 1].thread == thread
    {
      InThreadHas(db.messages, thread, id);
    }
    hide Wf, InThread, ListMessages, MessageShown, MessageOk;
  }

  /** When its reactions can be: exactly when no emoji is. */
  lemma ReactionsExportIff(db: Tables, clock: Clock, thread: nat)
    requires Wf(db, clock)
    ensures ReactionsShown(db, ListReactions(db, thread)) <==>
            forall i | 0 <= i < |db.reactions| && ReactsIn(db.messages, db.reactions, thread, i + 1) ::
              !Blank(db.reactions[i].emoji)
  {
    forall i | 0 <= i < |db.reactions| && ReactsIn(db.messages, db.reactions, thread, i + 1)
      ensures i + 1 in ListReactions(db, thread)
      ensures ReactionShown(db, db.reactions[i]) <==> !Blank(db.reactions[i].emoji)
    {
      ListReactionsHas(db, thread, i + 1);
      assert ReactionOk(db, clock, i) && MessageOk(db, clock, db.reactions[i].message - 1);
      LegalIsNotBlank(db.reactions[i].name);
    }
    forall id | id in ListReactions(db, thread)
      ensures ReactsIn(db.messages, db.reactions, thread, id)
    {
      ListReactionsHas(db, thread, id);
    }
    hide Wf, ListReactions, ReactionShown, ReactionOk, MessageOk;
  }

  /** A batch takes a message that nobody can export again: its content is one tab. */
  lemma TabBlocksExport(db: Tables, clock: Clock, thread: nat, name: string)
    requires Wf(db, clock) && GoodClock(clock) && 1 <= thread <= db.threads && Names.Legal(name)
    ensures
      var r := Append(db, clock, thread, [Marshal(TabLine(name))], false, false);
      r.Ok? && Wf(r.value.0, clock) && !MessagesShown(r.value.0, ListMessages(r.value.0, thread, 0))
  {
    var l := TabLine(name);
    LegalIsNotBlank(name);
    FileRoundTrip([l], Map([Marshal(l)], AsJson()));
    hide Marshal, Names.Legal, Parsed, AppendBatch, Wf, MessagesShown, ListMessages;
    TabAppends(db, clock, thread, name);
    var events := Map([l], EventOf(false, false));
    assert events == [ToEvent(l, false, false)];
    var after := AppendBatch(db, clock, thread, events).value.0;
    MessagesExportIff(after, clock, thread);
    assert after.messages[|db.messages|].content == "\t";
  }

  /** A line with a tab for its content. */
  function TabLine(name: string): Line {
    Line("message", 0, 0, 0, "user", name, "human", "\t", "", "", Some(map[]))
  }

  lemma TabAppends(db: Tables, clock: Clock, thread: nat, name: string)
    requires Wf(db, clock) && GoodClock(clock) && 1 <= thread <= db.threads && Names.Legal(name)
    ensures
      var r := AppendBatch(db, clock, thread, [ToEvent(TabLine(name), false, false)]);
      && r.Ok? && Wf(r.value.0, clock) && |r.value.0.messages| == |db.messages| + 1
      && r.value.0.messages[|db.messages|].thread == thread && r.value.0.messages[|db.messages|].content == "\t"
      && Blank("\t")
  {
    BlankNotSqlBlank();
    AppendSucceedsIff(db, clock, thread, name, "human", "user", "\t", "", 0);
    AppendAdds(db, clock, thread, name, "human", "user", "\t", "", 0);
    hide Wf, AppendMessage, Names.Legal, NextSeq, SqlBlank, Blank;
    var e := ToEvent(TabLine(name), false, false);
    var events := [e];
    var predicted := Predicted(events, NextSeq(db, thread));
    assert predicted == map[];
    assert AppendOne(db, clock, thread, predicted, e).Ok?;
    assert events[..0] == [];
    assert AppendEvents(db, clock, thread, predicted, events[..0]) == Ok((db, []));
  }

  // ----- dumping a thread

  /** What the map from ids to seqs must hold for a row's parent: its seq, and nothing for 0. */
  ghost predicate Knows(seqById: map<nat, nat>, db: Tables, ids: seq<nat>) {
    && (forall id | id in seqById :: 1 <= id <= |db.messages| && seqById[id] == SeqOf(db.messages, id))
    && (forall id | id in ids :: id in seqById)
  }

  lemma KnowsMore(seqById: map<nat, nat>, db: Tables, more: Tables, ids: seq<nat>)
    requires Knows(seqById, db, ids) && db.messages <= more.messages
    ensures Knows(seqById, more, ids)
  {
  }

  method RecordSeqs(db: Tables, ids: seq<nat>, known: map<nat, nat>, ghost earlier: seq<nat>)
    returns (seqById: map<nat, nat>)
    requires Knows(known, db, earlier) && forall id | id in ids :: 1 <= id <= |db.messages|
    ensures Knows(seqById, db, earlier + ids)
  {
    seqById := known;
    for i := 0 to |ids|
      invariant Knows(seqById, db, earlier + ids[..i])
    {
      assert ids[i] in ids;
      seqById := seqById[ids[i] := SeqOf(db.messages, ids[i])];
      assert ids[..i + 1] == ids[..i] + [ids[i]];
    }
    assert ids[..|ids|] == ids;
  }

  /** A map read where its key may be missing. */
  function Lookup(seqById: map<nat, nat>, id: nat): nat {
    if id in seqById then seqById[id] else 0
  }

  /** Whatever is fetched is of the thread. */
  lemma FetchedInThread(db: Tables, clock: Clock, thread: nat, lastN: int, afterSeq: int, id: nat)
    requires Wf(db, clock) && id in Fetched(db, thread, lastN, afterSeq)
    ensures 1 <= id <= |db.messages| && db.messages[id - 1].thread == thread
  {
    if afterSeq >= 0 {
      ListAfterIsDrop(db, clock, thread, afterSeq);
    } else if lastN > 0 {
      LastNIsSuffix(db, clock, thread, lastN);
    } else {
      ListIsThread(db, clock, thread);
    }
    hide ListMessages, ListMessagesAfter, InThread, Wf;
    assert id in InThread(db.messages, thread);
    InThreadHas(db.messages, thread, id);
  }

  /** Nothing is cut from the thread unless the second request is made. */
  lemma FetchedIsThread(db: Tables, clock: Clock, thread: nat, lastN: int, afterSeq: int)
    requires Wf(db, clock) && afterSeq <= 0 && lastN <= 0
    ensures Fetched(db, thread, lastN, afterSeq) == InThread(db.messages, thread)
  {
    ListIsThread(db, clock, thread);
    if afterSeq == 0 {
      ListAfterIsDrop(db, clock, thread, 0);
    }
  }

  /** Once a map knows the thread, it gives each message's parent's seq. */
  lemma ParentKnown(db: Tables, known: Tables, clock: Clock, thread: nat, seqById: map<nat, nat>, id: nat)
    requires Wf(db, clock) && db.messages <= known.messages && 1 <= id <= |db.messages|
    requires db.messages[id - 1].thread == thread && Knows(seqById, known, InThread(known.messages, thread))
    ensures Lookup(seqById, db.messages[id - 1].parent) == SeqOf(db.messages, db.messages[id - 1].parent)
  {
    assert MessageOk(db, clock, id - 1);
    InThreadHas(known.messages, thread, db.messages[id - 1].parent);
    hide Wf, InThread;
  }

  /**
   dumpThreadMessages. Its three requests are answered from three states of the
   tables, each grown from the one before. The client refuses to go on where a check
   of a response fails; otherwise every line names its message's seq and its parent's,
   also where the thread is cut to its last messages or to those after a cursor.
   */
  method DumpThreadMessages(first: Tables, second: Tables, third: Tables, ghost clock: Clock, thread: nat, lastN: int,
                            afterSeq: int) returns (r: Result<seq<Line>>)
    requires Wf(first, clock) && Wf(second, clock) && first.messages <= second.messages
    ensures r.Ok? <==>
            && MessagesShown(first, Fetched(first, thread, lastN, afterSeq))
            && (afterSeq > 0 || lastN > 0 ==> MessagesShown(second, ListMessages(second, thread, 0)))
            && ReactionsShown(third, ListReactions(third, thread))
    ensures r.Ok? ==>
              r.value == Map(Fetched(first, thread, lastN, afterSeq), MessageLineOf(first)) + ReactionLines(third, thread)
  {
    hide Wf, Fetched, ListMessages, ListReactions, InThread, MessageShown, SeqOf;
    var ids := Fetched(first, thread, lastN, afterSeq);
    if !MessagesShown(first, ids) {
      return Err(Invalid);
    }
    var seqById := RecordSeqs(first, ids, map[], []);
    ghost var known := first;
    if afterSeq > 0 || lastN > 0 {
      var all := ListMessages(second, thread, 0);
      if !MessagesShown(second, all) {
        return Err(Invalid);
      }
      KnowsMore(seqById, first, second, ids);
      seqById := RecordSeqs(second, all, seqById, ids);
      known := second;
      ListIsThread(second, clock, thread);
    } else {
      FetchedIsThread(first, clock, thread, lastN, afterSeq);
    }
    assert Knows(seqById, known, InThread(known.messages, thread));
    var lines: seq<Line> := [];
    for i := 0 to |ids|
      invariant |lines| == i && forall j | 0 <= j < i :: lines[j] == MessageLine(first, ids[j])
    {
      FetchedInThread(first, clock, thread, lastN, afterSeq, ids[i]);
      var m := first.messages[ids[i] - 1];
      ParentKnown(first, known, clock, thread, seqById, ids[i]);
      lines := lines + [Line("message", m.seqNo, Lookup(seqById, m.parent), 0, m.role, m.name, m.authorType, m.content, "",
                             m.createdAt, Some(map[]))];
    }
    var reactions := ListReactions(third, thread);
    if !ReactionsShown(third, reactions) {
      return Err(Invalid);
    }
    for i := 0 to |reactions|
      invariant lines == Map(ids, MessageLineOf(first)) + Map(reactions[..i], ReactionLineOf(third))
    {
      assert reactions[i] in reactions;
      var reaction := third.reactions[reactions[i] - 1];
      var messageSeq := SeqOf(third.messages, reaction.message);
      if messageSeq == 0 {
        messageSeq := Lookup(seqById, reaction.message);
      }
      lines := lines + [Line("reaction", 0, 0, messageSeq, "", reaction.name, reaction.authorType, "", reaction.emoji,
                             reaction.createdAt, Some(map[]))];
      assert reactions[..i + 1] == reactions[..i] + [reactions[i]];
    }
    assert reactions[..|reactions|] == reactions;
    return Ok(lines);
  }
}
