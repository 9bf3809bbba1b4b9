/** Importing an export: what the destination exports afterwards. */
module MovedExport {
  import opened Wrappers
  import opened Store
  import opened ThreadLog
  import opened Listing
  import opened Ordering
  import opened Jsonl
  import opened Seqs
  import opened Portable
  import opened Moving
  import opened Text
  import Names

  // ----- what the destination exports afterwards

  /** A line whose seqs are k further on. */
  function ShiftLine(l: Line, k: nat): Line {
    if l.kind == "message"
    then l.(seqNo := l.seqNo + k, parentSeq := if l.parentSeq == 0 then 0 else l.parentSeq + k)
    else l.(messageSeq := l.messageSeq + k)
  }

  function Shift(k: nat): Line -> Line {
    (l: Line) => ShiftLine(l, k)
  }

  /** The n ids that follow `start`. */
  function IdsAfter(start: nat, n: nat): (ids: seq<nat>)
    ensures |ids| == n && forall i | 0 <= i < n :: ids[i] == start + i + 1
  {
    seq(n, i => start + i + 1)
  }

  /** The moved messages come after those of the destination thread, and in no other thread. */
  lemma {:induction false} InThreadMoved(t: Transfer, clock: Clock, i: nat, thread: nat)
    requires Ready(t, clock) && i <= |Sources(t)|
    ensures InThread(Moved(t, i, 0).messages, thread) ==
            InThread(t.dst.messages, thread) + if thread == t.dest then IdsAfter(|t.dst.messages|, i) else []
    decreases i
  {
    hide *;
    var start := |t.dst.messages|;
    if i == 0 {
      MovedNone(t);
      assert IdsAfter(start, 0) == [];
    } else {
      InThreadMoved(t, clock, i - 1, thread);
      MessageEventFields(t, clock, i - 1);
      MovedNext(t, i - 1);
      MovedLength(t, i - 1);
      InThreadAppend(Moved(t, i - 1, 0).messages, MovedMessage(t, Sources(t)[i - 1]), thread);
      assert IdsAfter(start, i) == IdsAfter(start, i - 1) + [start + i];
    }
  }

  function After(t: Transfer): Tables {
    Moved(t, |Sources(t)|, |ListReactions(t.src, t.from)|)
  }

  /** A message that was there is exported as it was. */
  lemma OldMessageLine(t: Transfer, clock: Clock, id: nat)
    requires Ready(t, clock) && 1 <= id <= |t.dst.messages|
    ensures MessageLine(After(t), id) == MessageLine(t.dst, id)
  {
    assert MessageOk(t.dst, clock, id - 1);
    hide Sources, ListReactions, Wf, Ready;
  }

  /** A moved message is exported as it was, with its seqs shifted. */
  lemma NewMessageLine(t: Transfer, clock: Clock, i: nat)
    requires Ready(t, clock) && i < |Sources(t)|
    ensures MessageLine(After(t), |t.dst.messages| + i + 1) == ShiftLine(MessageLine(t.src, Sources(t)[i]), Offset(t))
  {
    var n, p := |Sources(t)|, |ListReactions(t.src, t.from)|;
    MessageEventFields(t, clock, i);
    var e := MessageEvent(t, i);
    if e.parentSeq > 0 {
      MovedRow(t, clock, n, p, e.parentSeq);
    }
    hide Sources, ListReactions, Wf, Ready, MovedMessage, Moved;
  }

  /** The messages that were in a thread are exported as they were. */
  lemma OldMessageLines(t: Transfer, clock: Clock, thread: nat)
    requires Ready(t, clock)
    ensures Map(InThread(t.dst.messages, thread), MessageLineOf(After(t))) == MessageLines(t.dst, thread)
  {
    ListIsThread(t.dst, clock, thread);
    WholeThread(t.dst, clock, thread);
    hide Ready, InThread, ListReactions, ListMessages, Wf, MessageLine, After;
    var ids := InThread(t.dst.messages, thread);
    forall id | id in ids
      ensures MessageLine(After(t), id) == MessageLine(t.dst, id)
    {
      OldMessageLine(t, clock, id);
    }
    MapAgrees(ids, MessageLineOf(After(t)), MessageLineOf(t.dst));
  }

  lemma NewMessageLines(t: Transfer, clock: Clock)
    requires Ready(t, clock)
    ensures Map(IdsAfter(|t.dst.messages|, |Sources(t)|), MessageLineOf(After(t))) ==
            Map(MessageLines(t.src, t.from), Shift(Offset(t)))
  {
    ListIsThread(t.src, clock, t.from);
    hide Ready, InThread, ListReactions, ListMessages, Wf, MessageLine, ShiftLine, Offset, After;
    var ids := IdsAfter(|t.dst.messages|, |Sources(t)|);
    forall i | 0 <= i < |Sources(t)|
      ensures MessageLine(After(t), ids[i]) == ShiftLine(MessageLine(t.src, Sources(t)[i]), Offset(t))
    {
      NewMessageLine(t, clock, i);
    }
  }

  lemma MessagesAfter(t: Transfer, clock: Clock, thread: nat)
    requires Ready(t, clock) && Wf(After(t), clock)
    ensures MessageLines(After(t), thread) ==
            MessageLines(t.dst, thread) +
            if thread == t.dest then Map(MessageLines(t.src, t.from), Shift(Offset(t))) else []
  {
    ListIsThread(After(t), clock, thread);
    InThreadMoved(t, clock, |Sources(t)|, thread);
    assert After(t).messages == Moved(t, |Sources(t)|, 0).messages;
    OldMessageLines(t, clock, thread);
    NewMessageLines(t, clock);
    MapConcat(InThread(t.dst.messages, thread), IdsAfter(|t.dst.messages|, |Sources(t)|), MessageLineOf(After(t)));
    hide Ready, Sources, InThread, ListMessages, Wf, Moved, MessageLine, ShiftLine, Offset, After, IdsAfter, Map;
  }

  lemma {:induction false} ReactionsInMore(messages: seq<Message>, more: seq<Message>, reactions: seq<Reaction>, thread: nat)
    requires messages <= more && forall r | r in reactions :: r.message <= |messages|
    ensures ReactionsIn(more, reactions, thread) == ReactionsIn(messages, reactions, thread)
    decreases |reactions|
  {
    if reactions != [] {
      var n := |reactions| - 1;
      assert reactions[n] in reactions;
      ReactionsInMore(messages, more, reactions[..n], thread);
    }
  }

  lemma ReactionsInAppend(messages: seq<Message>, reactions: seq<Reaction>, r: Reaction, thread: nat)
    ensures ReactionsIn(messages, reactions + [r], thread) ==
            ReactionsIn(messages, reactions, thread)
            + if 1 <= r.message <= |messages| && messages[r.message - 1].thread == thread then [|reactions| + 1] else []
  {
    assert (reactions + [r])[..|reactions|] == reactions;
  }

  lemma MovedSizes(t: Transfer, j: nat)
    requires j <= |ListReactions(t.src, t.from)|
    ensures Moved(t, |Sources(t)|, j).messages == After(t).messages
    ensures |Moved(t, |Sources(t)|, j).reactions| == |t.dst.reactions| + j
    ensures t.dst.messages <= After(t).messages
    ensures j == 0 ==> Moved(t, |Sources(t)|, j).reactions == t.dst.reactions
    ensures j == |ListReactions(t.src, t.from)| ==> Moved(t, |Sources(t)|, j) == After(t)
  {
    hide Sources, ListReactions;
  }

  lemma OldReactionsStay(t: Transfer, clock: Clock, thread: nat)
    requires Ready(t, clock)
    ensures ReactionsIn(After(t).messages, t.dst.reactions, thread) == ReactionsIn(t.dst.messages, t.dst.reactions, thread)
  {
    MovedSizes(t, 0);
    forall r | r in t.dst.reactions
      ensures r.message <= |t.dst.messages|
    {
      var i :| 0 <= i < |t.dst.reactions| && t.dst.reactions[i] == r;
      assert ReactionOk(t.dst, clock, i);
    }
    hide After, Sources, ListReactions, Wf, Ready;
    ReactionsInMore(t.dst.messages, After(t).messages, t.dst.reactions, thread);
  }

  /** The message of a moved reaction is in the destination thread. */
  lemma MovedTarget(t: Transfer, clock: Clock, j: nat)
    requires Ready(t, clock) && j < |ListReactions(t.src, t.from)|
    ensures
      var m := MovedReaction(t, ListReactions(t.src, t.from)[j]).message;
      && 1 <= m <= |After(t).messages| && After(t).messages[m - 1].thread == t.dest
      && SeqOf(After(t).messages, m) == Offset(t) + ReactionEvent(t, j).messageSeq
  {
    var q := ReactionEvent(t, j).messageSeq;
    ReactionEventFields(t, clock, j);
    assert NewParent(t, q) == |t.dst.messages| + q;
    MovedRow(t, clock, |Sources(t)|, |ListReactions(t.src, t.from)|, q);
    hide Ready, Sources, ListReactions, Moved, Offset, MovedReaction, ReactionEvent;
  }

  /** The moved reactions come after those of the destination thread, and in no other thread. */
  lemma {:induction false} ReactionsInMoved(t: Transfer, clock: Clock, j: nat, thread: nat)
    requires Ready(t, clock) && j <= |ListReactions(t.src, t.from)|
    ensures ReactionsIn(After(t).messages, Moved(t, |Sources(t)|, j).reactions, thread) ==
            ReactionsIn(t.dst.messages, t.dst.reactions, thread)
            + if thread == t.dest then IdsAfter(|t.dst.reactions|, j) else []
    decreases j
  {
    hide *;
    var start := |t.dst.reactions|;
    if j == 0 {
      MovedSizes(t, 0);
      OldReactionsStay(t, clock, thread);
      assert IdsAfter(start, 0) == [];
    } else {
      ReactionsInMoved(t, clock, j - 1, thread);
      MovedSizes(t, j - 1);
      MovedTarget(t, clock, j - 1);
      MovedNextReaction(t, j - 1);
      ReactionsInAppend(After(t).messages, Moved(t, |Sources(t)|, j - 1).reactions,
                        MovedReaction(t, ListReactions(t.src, t.from)[j - 1]), thread);
      assert IdsAfter(start, j) == IdsAfter(start, j - 1) + [start + j];
    }
  }

  /** A reaction that was there keeps its place in the order, and its line. */
  lemma OldReaction(t: Transfer, clock: Clock, id: nat)
    requires Ready(t, clock) && 1 <= id <= |t.dst.reactions|
    ensures KeyOf(After(t), id) == KeyOf(t.dst, id) && ReactionLine(After(t), id) == ReactionLine(t.dst, id)
  {
    assert ReactionOk(t.dst, clock, id - 1);
    hide Sources, ListReactions, Wf, Ready;
  }

  lemma OldReactionSeq(t: Transfer, clock: Clock, id: nat)
    requires Ready(t, clock) && ReactsIn(t.dst.messages, t.dst.reactions, t.dest, id)
    ensures KeyOf(t.dst, id).seqNo <= Offset(t)
  {
    SeqInThread(t.dst, clock, t.dst.reactions[id - 1].message);
    WholeThread(t.dst, clock, t.dest);
    hide Wf, Ready, InThread;
  }

  /** A moved reaction: its place in the order, and its line. */
  lemma NewReaction(t: Transfer, clock: Clock, j: nat)
    requires Ready(t, clock) && j < |ListReactions(t.src, t.from)|
    ensures
      var prior, added := ListReactions(t.src, t.from)[j], |t.dst.reactions| + j + 1;
      && KeyOf(After(t), added) == SortKey(Offset(t) + KeyOf(t.src, prior).seqNo, KeyOf(t.src, prior).createdAt, added)
      && ReactionLine(After(t), added) == ShiftLine(ReactionLine(t.src, prior), Offset(t))
      && KeyOf(t.src, prior).seqNo > 0
  {
    ReactionAt(t, clock, j);
    MovedTarget(t, clock, j);
    hide Ready, Sources, ListReactions, Moved, After, Offset, Wf, ReactionOk;
  }

  /** The listing of a thread that reactions were not moved to stays as it is. */
  lemma OldListing(t: Transfer, clock: Clock, thread: nat)
    requires Ready(t, clock)
    ensures SortBy(ReactionsIn(t.dst.messages, t.dst.reactions, thread), ByKey(After(t))) == ListReactions(t.dst, thread)
  {
    var ids := ReactionsIn(t.dst.messages, t.dst.reactions, thread);
    hide Ready, After, ReactionsIn, SortBy, KeyLe, KeyOf;
    forall id | id in ids
      ensures KeyOf(After(t), id) == KeyOf(t.dst, id)
    {
      var k :| 0 <= k < |ids| && ids[k] == id;
      ReactionIdAt(t.dst.messages, t.dst.reactions, thread, k);
      OldReaction(t, clock, id);
    }
    SortCongruence(ids, ByKey(After(t)), ByKey(t.dst));
  }

  /** Keys that differ by a shift of the seq and by ids that ascend are ordered alike. */
  lemma KeysShift(a: SortKey, b: SortKey, k: nat, idA: nat, idB: nat)
    requires KeyLe(a, b) && idA < idB
    ensures KeyLe(SortKey(k + a.seqNo, a.createdAt, idA), SortKey(k + b.seqNo, b.createdAt, idB))
  {
    hide TextLe;
  }

  lemma ListedInOrder(db: Tables, thread: nat, i: nat, j: nat)
    requires i < j < |ListReactions(db, thread)|
    ensures KeyLe(KeyOf(db, ListReactions(db, thread)[i]), KeyOf(db, ListReactions(db, thread)[j]))
  {
    ReactionsListed(db, thread);
    hide ListReactions, KeyLe, KeyOf, ReactsIn;
    assert ByKey(db)(ListReactions(db, thread)[i], ListReactions(db, thread)[j]);
  }

  lemma NewInOrder(t: Transfer, clock: Clock, i: nat, j: nat)
    requires Ready(t, clock) && i < j < |ListReactions(t.src, t.from)|
    ensures KeyLe(KeyOf(After(t), |t.dst.reactions| + i + 1), KeyOf(After(t), |t.dst.reactions| + j + 1))
  {
    hide *;
    var ids := ListReactions(t.src, t.from);
    NewReaction(t, clock, i);
    NewReaction(t, clock, j);
    ListedInOrder(t.src, t.from, i, j);
    KeysShift(KeyOf(t.src, ids[i]), KeyOf(t.src, ids[j]), Offset(t), |t.dst.reactions| + i + 1, |t.dst.reactions| + j + 1);
  }

  /** The moved reactions come in the order they were exported in. */
  lemma NewAscend(t: Transfer, clock: Clock)
    requires Ready(t, clock)
    ensures Ascending(IdsAfter(|t.dst.reactions|, |ListReactions(t.src, t.from)|), ByKey(After(t)))
  {
    hide Ready, After, ListReactions, KeyOf, KeyLe, IdsAfter;
    var ids := IdsAfter(|t.dst.reactions|, |ListReactions(t.src, t.from)|);
    forall i, j | 0 <= i < j < |ids|
      ensures KeyLe(KeyOf(After(t), ids[i]), KeyOf(After(t), ids[j]))
    {
      NewInOrder(t, clock, i, j);
    }
  }

  lemma NewAfterOld(t: Transfer, clock: Clock, prior: nat, j: nat)
    requires Ready(t, clock) && j < |ListReactions(t.src, t.from)|
    requires ReactsIn(t.dst.messages, t.dst.reactions, t.dest, prior)
    ensures ByKey(After(t))(prior, |t.dst.reactions| + j + 1)
  {
    OldReaction(t, clock, prior);
    OldReactionSeq(t, clock, prior);
    NewReaction(t, clock, j);
    hide Ready, After, ListReactions, Offset, KeyOf;
  }

  /** Sorting the old reactions of the destination with the moved ones leaves the moved ones at the end. */
  lemma SortMerged(t: Transfer, clock: Clock)
    requires Ready(t, clock)
    ensures
      var prior := ReactionsIn(t.dst.messages, t.dst.reactions, t.dest);
      var added := IdsAfter(|t.dst.reactions|, |ListReactions(t.src, t.from)|);
      SortBy(prior + added, ByKey(After(t))) == SortBy(prior, ByKey(After(t))) + added
  {
    var prior := ReactionsIn(t.dst.messages, t.dst.reactions, t.dest);
    var added := IdsAfter(|t.dst.reactions|, |ListReactions(t.src, t.from)|);
    hide *;
    NewAscend(t, clock);
    forall x, y | x in prior && y in added
      ensures ByKey(After(t))(x, y)
    {
      var k :| 0 <= k < |prior| && prior[k] == x;
      ReactionIdAt(t.dst.messages, t.dst.reactions, t.dest, k);
      NewAfterOld(t, clock, x, y - |t.dst.reactions| - 1);
    }
    SortAppend(prior, added, ByKey(After(t)));
  }

  lemma ListingSorts(db: Tables, thread: nat)
    ensures ListReactions(db, thread) == SortBy(ReactionsIn(db.messages, db.reactions, thread), ByKey(db))
  {
  }

  lemma ListingAfter(t: Transfer, clock: Clock, thread: nat)
    requires Ready(t, clock)
    ensures ListReactions(After(t), thread) ==
            ListReactions(t.dst, thread)
            + if thread == t.dest then IdsAfter(|t.dst.reactions|, |ListReactions(t.src, t.from)|) else []
  {
    hide *;
    ListingSorts(After(t), thread);
    var p := |ListReactions(t.src, t.from)|;
    ReactionsInMoved(t, clock, p, thread);
    MovedSizes(t, p);
    OldListing(t, clock, thread);
    SortMerged(t, clock);
    var prior: seq<nat> := ReactionsIn(t.dst.messages, t.dst.reactions, thread);
    assert prior + [] == prior;
  }

  lemma OldReactionLines(t: Transfer, clock: Clock, thread: nat)
    requires Ready(t, clock)
    ensures Map(ListReactions(t.dst, thread), ReactionLineOf(After(t))) == ReactionLines(t.dst, thread)
  {
    var ids := ListReactions(t.dst, thread);
    ReactionsListed(t.dst, thread);
    hide Ready, After, ListReactions, ReactionLine;
    forall id | id in ids
      ensures ReactionLine(After(t), id) == ReactionLine(t.dst, id)
    {
      var k :| 0 <= k < |ids| && ids[k] == id;
      assert ReactsIn(t.dst.messages, t.dst.reactions, thread, ids[k]);
      OldReaction(t, clock, id);
    }
    MapAgrees(ids, ReactionLineOf(After(t)), ReactionLineOf(t.dst));
  }

  lemma NewReactionLines(t: Transfer, clock: Clock)
    requires Ready(t, clock)
    ensures Map(IdsAfter(|t.dst.reactions|, |ListReactions(t.src, t.from)|), ReactionLineOf(After(t))) ==
            Map(ReactionLines(t.src, t.from), Shift(Offset(t)))
  {
    var prior, added := ListReactions(t.src, t.from), IdsAfter(|t.dst.reactions|, |ListReactions(t.src, t.from)|);
    hide Ready, ListReactions, ReactionLine, ShiftLine, Offset, After;
    forall j | 0 <= j < |prior|
      ensures ReactionLine(After(t), added[j]) == ShiftLine(ReactionLine(t.src, prior[j]), Offset(t))
    {
      NewReaction(t, clock, j);
    }
  }

  lemma ReactionsAfter(t: Transfer, clock: Clock, thread: nat)
    requires Ready(t, clock)
    ensures ReactionLines(After(t), thread) ==
            ReactionLines(t.dst, thread) +
            if thread == t.dest then Map(ReactionLines(t.src, t.from), Shift(Offset(t))) else []
  {
    ListingAfter(t, clock, thread);
    OldReactionLines(t, clock, thread);
    NewReactionLines(t, clock);
    var prior, added := ListReactions(t.dst, thread), IdsAfter(|t.dst.reactions|, |ListReactions(t.src, t.from)|);
    MapConcat(prior, added, ReactionLineOf(After(t)));
    hide Ready, ListReactions, ReactionLine, ShiftLine, Offset, After, IdsAfter, Map;
  }

  lemma ExportAfter(t: Transfer, clock: Clock, thread: nat)
    requires Ready(t, clock) && Wf(After(t), clock)
    ensures Exported(After(t), thread) ==
            if thread != t.dest then Exported(t.dst, thread)
            else MessageLines(t.dst, t.dest) + Map(MessageLines(t.src, t.from), Shift(Offset(t)))
                 + ReactionLines(t.dst, t.dest) + Map(ReactionLines(t.src, t.from), Shift(Offset(t)))
  {
    ExportedParts(After(t), thread);
    ExportedParts(t.dst, thread);
    hide *;
    MessagesAfter(t, clock, thread);
    ReactionsAfter(t, clock, thread);
    var a, c := MessageLines(t.dst, thread), ReactionLines(t.dst, thread);
    if thread == t.dest {
      FourInARow(a, Map(MessageLines(t.src, t.from), Shift(Offset(t))), c, Map(ReactionLines(t.src, t.from), Shift(Offset(t))));
    } else {
      assert a + [] == a && c + [] == c;
    }
  }

  lemma ExportedParts(db: Tables, thread: nat)
    ensures Exported(db, thread) == MessageLines(db, thread) + ReactionLines(db, thread)
  {
    hide MessageLines, ReactionLines;
  }

  lemma FourInARow<T>(a: seq<T>, b: seq<T>, c: seq<T>, d: seq<T>)
    ensures (a + b) + (c + d) == a + b + c + d
  {
  }

  // ----- the round trip

  /** The lines of an export that the client let through read back as they are. */
  lemma ExportedNormal(db: Tables, clock: Clock, thread: nat)
    requires Wf(db, clock)
    requires MessagesShown(db, ListMessages(db, thread, 0)) && ReactionsShown(db, ListReactions(db, thread))
    ensures forall l | l in Exported(db, thread) :: Normal(l)
  {
    hide ListMessages, ListReactions, Blank, Names.Legal;
    forall l | l in MessageLines(db, thread)
      ensures Normal(l)
    {
      var i :| 0 <= i < |ListMessages(db, thread, 0)| && l == MessageLine(db, ListMessages(db, thread, 0)[i]);
      var id := ListMessages(db, thread, 0)[i];
      assert id in ListMessages(db, thread, 0);
      assert MessageOk(db, clock, id - 1);
      hide Wf;
    }
    forall l | l in ReactionLines(db, thread)
      ensures Normal(l)
    {
      var i :| 0 <= i < |ListReactions(db, thread)| && l == ReactionLine(db, ListReactions(db, thread)[i]);
      var id := ListReactions(db, thread)[i];
      assert id in ListReactions(db, thread);
      assert ReactionOk(db, clock, id - 1);
      hide Wf;
    }
  }

  /** A file written by EncodeLines. */
  predicate Encodes(file: seq<Raw>, lines: seq<Line>) {
    |file| == |lines| && forall i | 0 <= i < |lines| :: file[i] == Json(Marshal(lines[i]))
  }

  lemma ReadsBack(lines: seq<Line>, file: seq<Raw>)
    requires Encodes(file, lines) && forall l | l in lines :: Normal(l)
    ensures Parsed(file) == Ok(lines)
  {
    hide Marshal, Normal, Parsed;
    FileRoundTrip(lines, file);
  }

  /**
   Import undoes export, up to a shift. A thread's export can be imported into any
   thread if and only if it has 1 to 1000 lines. Afterwards the destination exports its
   own messages, then the source's with every seq and parent moved on by the number of
   messages it had, its own reactions, then the source's in their order, all else
   unchanged; and every other thread exports what it did.
   */
  lemma ImportOfExport(t: Transfer, clock: Clock, file: seq<Raw>, other: nat)
    requires Ready(t, clock) && other != t.dest
    requires MessagesShown(t.src, ListMessages(t.src, t.from, 0)) && ReactionsShown(t.src, ListReactions(t.src, t.from))
    requires Encodes(file, Exported(t.src, t.from))
    ensures
      var r := Import(t.dst, clock, t.dest, file);
      && (r.Ok? <==> 1 <= |Exported(t.src, t.from)| <= MAX_BATCH_EVENTS)
      && (r.Ok? ==>
            && Wf(r.value.0, clock) && ValidResults(Events(t), r.value.1)
            && Exported(r.value.0, t.dest) ==
               MessageLines(t.dst, t.dest) + Map(MessageLines(t.src, t.from), Shift(Offset(t)))
               + ReactionLines(t.dst, t.dest) + Map(ReactionLines(t.src, t.from), Shift(Offset(t)))
            && Exported(r.value.0, other) == Exported(t.dst, other))
  {
    assert After(t) == Moved(t, |Sources(t)|, |ListReactions(t.src, t.from)|);
    assert Wf(t.src, clock) && Events(t) == Map(Exported(t.src, t.from), EventOf(true, false));
    hide *;
    ExportedNormal(t.src, clock, t.from);
    ReadsBack(Exported(t.src, t.from), file);
    ImportIsBatch(t.dst, clock, t.dest, Exported(t.src, t.from), file);
    ImportMoves(t, clock);
    ExportAfter(t, clock, t.dest);
    ExportAfter(t, clock, other);
  }
}
