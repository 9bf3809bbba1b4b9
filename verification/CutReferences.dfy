/** What the references of a cut export come to, and when they are kept. */
module CutReferences {
  import opened Wrappers
  import opened Store
  import opened ThreadLog
  import opened BatchSuccess
  import opened Listing
  import opened Jsonl
  import opened Portable
  import opened Moving
  import opened MovedExport
  import opened CutImport
  import opened Seqs
  import Text
  import Names

  // ----- copies

  /** The id, in the destination, of the copy of source message k. */
  function Copy(t: Transfer, cut: nat, k: nat): nat
    requires cut <= k
  {
    |t.dst.messages| + (k - cut) + 1
  }

  /** Message `id` of the source has a copy, and it is message `to` of the destination. */
  ghost predicate IsCopyOf(t: Transfer, cut: nat, id: nat, to: nat) {
    exists k | cut <= k < |Sources(t)| :: Sources(t)[k] == id && to == Copy(t, cut, k)
  }

  /** What source message i answered, its copy answers a copy of. */
  ghost predicate KeepsParent(t: Transfer, cut: nat, after: Tables, i: nat)
    requires cut <= i < |Sources(t)|
  {
    && 1 <= Sources(t)[i] <= |t.src.messages| && Copy(t, cut, i) <= |after.messages|
    && var x, y := t.src.messages[Sources(t)[i] - 1], after.messages[Copy(t, cut, i) - 1];
       if x.parent == 0 then y.parent == 0 else IsCopyOf(t, cut, x.parent, y.parent)
  }

  /** What source reaction j was to, its copy is to a copy of. */
  ghost predicate KeepsTarget(t: Transfer, cut: nat, after: Tables, j: nat)
    requires j < |ListReactions(t.src, t.from)|
  {
    var id := ListReactions(t.src, t.from)[j];
    && 1 <= id <= |t.src.reactions| && |t.dst.reactions| + j < |after.reactions|
    && IsCopyOf(t, cut, t.src.reactions[id - 1].message, after.reactions[|t.dst.reactions| + j].message)
  }

  /** A reference reaches the copy of its target exactly if the target is not cut. */
  lemma ReachesCopyIff(t: Transfer, clock: Clock, cut: nat, after: Tables, id: nat, to: nat)
    requires Ready(t, clock) && cut <= |Sources(t)| && Wf(after, clock)
    requires forall i | cut <= i < |Sources(t)| :: MessageArrives(t, cut, after, i)
    requires 1 <= id <= |t.src.messages| && t.src.messages[id - 1].thread == t.from
    requires 1 <= SeqOf(t.src.messages, id) <= |Sources(t)|
    requires to > 0 && Answers(after, t.dest, to, NewSeq(t, cut, SeqOf(t.src.messages, id)))
    ensures IsCopyOf(t, cut, id, to) <==> SeqOf(t.src.messages, id) > cut
  {
    var q := SeqOf(t.src.messages, id);
    assert Wf(t.src, clock);
    SourceAt(t, clock, q - 1);
    hide Ready, Wf, Sources, Offset, MessageOk;
    OneOfSeq(t.src, clock, Sources(t)[q - 1], id);
    if q > cut {
      assert MessageArrives(t, cut, after, q - 1);
      OneOfSeq(after, clock, Copy(t, cut, q - 1), to);
    } else if IsCopyOf(t, cut, id, to) {
      var k :| cut <= k < |Sources(t)| && Sources(t)[k] == id && to == Copy(t, cut, k);
      SourceAt(t, clock, k);
    }
  }

  lemma ParentKeptIff(t: Transfer, clock: Clock, cut: nat, after: Tables, i: nat)
    requires Ready(t, clock) && cut <= i < |Sources(t)| && Wf(after, clock)
    requires forall k | cut <= k < |Sources(t)| :: MessageArrives(t, cut, after, k)
    ensures KeepsParent(t, cut, after, i) <==>
            MessageEvent(t, i).parentSeq == 0 || MessageEvent(t, i).parentSeq > cut
  {
    SourceAt(t, clock, i);
    assert MessageArrives(t, cut, after, i);
    var x, y := t.src.messages[Sources(t)[i] - 1], after.messages[Copy(t, cut, i) - 1];
    assert MessageEvent(t, i).parentSeq == SeqOf(t.src.messages, x.parent);
    hide Ready, Wf, Sources, Offset, MessageEvent, IsCopyOf;
    if x.parent > 0 {
      ReachesCopyIff(t, clock, cut, after, x.parent, y.parent);
    }
  }

  lemma TargetKeptIff(t: Transfer, clock: Clock, cut: nat, after: Tables, j: nat)
    requires Ready(t, clock) && cut <= |Sources(t)| && j < |ListReactions(t.src, t.from)| && Wf(after, clock)
    requires forall k | cut <= k < |Sources(t)| :: MessageArrives(t, cut, after, k)
    requires ReactionArrives(t, cut, after, j)
    ensures KeepsTarget(t, cut, after, j) <==> ReactionEvent(t, j).messageSeq > cut
  {
    ReactionAt(t, clock, j);
    var id := ListReactions(t.src, t.from)[j];
    assert ReactionEvent(t, j).messageSeq == SeqOf(t.src.messages, t.src.reactions[id - 1].message);
    hide Ready, Wf, Sources, ListReactions, Offset, ReactionEvent, IsCopyOf, MessageArrives;
    ReachesCopyIff(t, clock, cut, after, t.src.reactions[id - 1].message,
                   after.reactions[|t.dst.reactions| + j].message);
  }

  /** No line of the export refers to a message it leaves out. */
  ghost predicate RefersToNoneCut(t: Transfer, cut: nat)
    requires cut <= |Sources(t)|
  {
    && (forall i | cut <= i < |Sources(t)| :: MessageEvent(t, i).parentSeq == 0 || MessageEvent(t, i).parentSeq > cut)
    && (forall j | 0 <= j < |ListReactions(t.src, t.from)| :: ReactionEvent(t, j).messageSeq > cut)
  }

  /** The tables a cut export leaves: in order, with all that was there, and as many messages more as were left. */
  lemma CutLeavesOrder(t: Transfer, clock: Clock, cut: nat)
    requires Ready(t, clock) && cut <= |Sources(t)| && AppendBatch(t.dst, clock, t.dest, CutEvents(t, cut)).Ok?
    ensures
      var after := AppendBatch(t.dst, clock, t.dest, CutEvents(t, cut)).value.0;
      && Wf(after, clock) && t.dst.messages <= after.messages
      && CountIn(after.messages, t.dest) == Offset(t) + Left(t, cut)
  {
    var events := CutEvents(t, cut);
    BatchIsExact(t.dst, clock, t.dest, events);
    PredictsCut(t, clock, cut);
    CountOfCut(t, clock, cut, |events|);
    assert events[..|events|] == events;
    hide Wf, AppendBatch, CutEvents, Sources, ListReactions, CountIn, MessageCount, Placed, ValidResults, Predicted;
  }

  /**
   When importing a cut export goes through, every message answers and every reaction
   is to the copy of what it answered or was to in the source exactly if no line of the
   export refers to a message that was cut.
   */
  lemma CutKeepsReferencesIff(t: Transfer, clock: Clock, cut: nat)
    requires Ready(t, clock) && cut <= |Sources(t)| && AppendBatch(t.dst, clock, t.dest, CutEvents(t, cut)).Ok?
    ensures
      var after := AppendBatch(t.dst, clock, t.dest, CutEvents(t, cut)).value.0;
      && (forall i | cut <= i < |Sources(t)| :: KeepsParent(t, cut, after, i))
      && (forall j | 0 <= j < |ListReactions(t.src, t.from)| :: KeepsTarget(t, cut, after, j))
      <==> RefersToNoneCut(t, cut)
  {
    hide Ready, Wf, Sources, ListReactions, CutEvents, MessageArrives, ReactionArrives, KeepsParent, KeepsTarget,
         AppendBatch, MessageEvent, ReactionEvent;
    CutLeavesOrder(t, clock, cut);
    CutArrives(t, clock, cut);
    var after := AppendBatch(t.dst, clock, t.dest, CutEvents(t, cut)).value.0;
    forall i | cut <= i < |Sources(t)|
      ensures KeepsParent(t, cut, after, i) <==>
              MessageEvent(t, i).parentSeq == 0 || MessageEvent(t, i).parentSeq > cut
    {
      ParentKeptIff(t, clock, cut, after, i);
    }
    forall j | 0 <= j < |ListReactions(t.src, t.from)|
      ensures KeepsTarget(t, cut, after, j) <==> ReactionEvent(t, j).messageSeq > cut
    {
      TargetKeptIff(t, clock, cut, after, j);
    }
  }

  // ----- onto a thread of just as many messages as were cut

  lemma OntoAsMany(t: Transfer, clock: Clock, cut: nat, j: nat, k: nat)
    requires Ready(t, clock) && k < j < |ListReactions(t.src, t.from)| && Offset(t) == cut
    ensures !Collide(t, cut, k, j)
  {
    ReactionsStayApart(t, clock, k, j);
    ReactionEventFields(t, clock, k);
    ReactionEventFields(t, clock, j);
    hide Ready, Offset, ListReactions, ReactionEvent, MovedReaction, Sources, Names.Legal;
  }

  /** The destination has none of the source's reactions, by the seqs they have there. */
  ghost predicate NoneThere(t: Transfer) {
    forall j | 0 <= j < |ListReactions(t.src, t.from)| ::
      var e := ReactionEvent(t, j);
      !AlreadyThere(t.dst, t.dest, e.messageSeq, e.emoji, e.name)
  }

  /** What the destination lacks is what fits. */
  lemma FitsOntoAsManyIff(t: Transfer, clock: Clock, cut: nat)
    requires Ready(t, clock) && cut <= |Sources(t)| && Offset(t) == cut
    ensures CutFits(t, cut) <==> NoneThere(t)
  {
    hide Ready, Offset, ListReactions, ReactionEvent, Sources, MessageEvent, AlreadyThere, Collide, Names.Legal;
    forall i | cut <= i < |Sources(t)|
      ensures ParentFits(t, cut, i)
    {
      MessageEventFields(t, clock, i);
    }
    forall j | 0 <= j < |ListReactions(t.src, t.from)|
      ensures ReactionFitsIn(t, cut, j) <==>
              var e := ReactionEvent(t, j);
              !AlreadyThere(t.dst, t.dest, e.messageSeq, e.emoji, e.name)
    {
      ReactionEventFields(t, clock, j);
      forall k | 0 <= k < j
        ensures !Collide(t, cut, k, j)
      {
        OntoAsMany(t, clock, cut, j, k);
      }
    }
  }

  /** A line exported, cut from its thread and imported there reads as it did. */
  lemma MessageReadsBack(t: Transfer, clock: Clock, cut: nat, after: Tables, i: nat)
    requires Ready(t, clock) && cut <= i < |Sources(t)| && Offset(t) == cut && Wf(after, clock)
    requires MessageArrives(t, cut, after, i)
    ensures MessageLine(after, Copy(t, cut, i)) == MessageLine(t.src, Sources(t)[i])
  {
    SourceAt(t, clock, i);
    hide Ready, Wf, Sources, Offset, Names.Legal;
  }

  lemma ReactionReadsBack(t: Transfer, clock: Clock, cut: nat, after: Tables, j: nat)
    requires Ready(t, clock) && cut <= |Sources(t)| && Offset(t) == cut && j < |ListReactions(t.src, t.from)|
    requires ReactionArrives(t, cut, after, j)
    ensures ReactionLine(after, |t.dst.reactions| + j + 1) == ReactionLine(t.src, ListReactions(t.src, t.from)[j])
  {
    ReactionAt(t, clock, j);
    hide Ready, Wf, Sources, ListReactions, Offset, Names.Legal;
  }

  /** The thread, once its new messages have arrived: the old ones, then the copies. */
  lemma ThreadAfterCut(t: Transfer, clock: Clock, cut: nat, after: Tables)
    requires Wf(t.dst, clock) && Wf(after, clock) && t.dst.messages <= after.messages && cut <= |Sources(t)|
    requires CountIn(after.messages, t.dest) == Offset(t) + Left(t, cut)
    requires forall k | cut <= k < |Sources(t)| :: MessageArrives(t, cut, after, k)
    ensures
      var ids := InThread(after.messages, t.dest);
      && |ids| == Offset(t) + Left(t, cut) && ids[..Offset(t)] == InThread(t.dst.messages, t.dest)
      && forall q | Offset(t) <= q < |ids| :: ids[q] == Copy(t, cut, q - Offset(t) + cut)
  {
    WholeThread(t.dst, clock, t.dest);
    WholeThread(after, clock, t.dest);
    InThreadGrows(t.dst.messages, after.messages, t.dest);
    hide Wf, InThread, Sources, CountIn, MessageEvent, NewSeq, Answers;
    var ids := InThread(after.messages, t.dest);
    forall q | Offset(t) <= q < |ids|
      ensures ids[q] == Copy(t, cut, q - Offset(t) + cut)
    {
      assert MessageArrives(t, cut, after, q - Offset(t) + cut);
      OneOfSeq(after, clock, ids[q], Copy(t, cut, q - Offset(t) + cut));
    }
  }

  lemma OldReadsBack(db: Tables, after: Tables, clock: Clock, id: nat)
    requires Wf(db, clock) && db.messages <= after.messages && 1 <= id <= |db.messages|
    ensures MessageLine(after, id) == MessageLine(db, id)
  {
    assert MessageOk(db, clock, id - 1);
    hide Wf;
  }

  lemma LinesOfThread(db: Tables, clock: Clock, thread: nat)
    requires Wf(db, clock)
    ensures
      var ids, lines := InThread(db.messages, thread), MessageLines(db, thread);
      |lines| == |ids| && forall q | 0 <= q < |ids| :: lines[q] == MessageLine(db, ids[q]) && 1 <= ids[q] <= |db.messages|
  {
    ListIsThread(db, clock, thread);
    WholeThread(db, clock, thread);
    hide Wf, InThread, ListMessages, CountIn, SeqOf, MessageLine;
  }

  lemma SizesAfterCut(t: Transfer, clock: Clock, cut: nat, after: Tables)
    requires Ready(t, clock) && Wf(after, clock) && t.dst.messages <= after.messages && cut <= |Sources(t)|
    requires CountIn(after.messages, t.dest) == Offset(t) + Left(t, cut) && Offset(t) == cut
    requires forall k | cut <= k < |Sources(t)| :: MessageArrives(t, cut, after, k)
    ensures |MessageLines(t.src, t.from)| == |MessageLines(after, t.dest)| == |Sources(t)|
    ensures |MessageLines(t.dst, t.dest)| == cut
  {
    ThreadAfterCut(t, clock, cut, after);
    LinesOfThread(t.src, clock, t.from);
    LinesOfThread(t.dst, clock, t.dest);
    LinesOfThread(after, clock, t.dest);
    hide InThread, CountIn, MessageLines, MessageLine, MessageArrives, Wf;
  }

  lemma LineAfterCut(t: Transfer, clock: Clock, cut: nat, after: Tables, q: nat)
    requires Ready(t, clock) && Wf(after, clock) && t.dst.messages <= after.messages && cut <= |Sources(t)|
    requires CountIn(after.messages, t.dest) == Offset(t) + Left(t, cut) && Offset(t) == cut
    requires forall k | cut <= k < |Sources(t)| :: MessageArrives(t, cut, after, k)
    requires q < |Sources(t)| == |MessageLines(after, t.dest)| == |MessageLines(t.src, t.from)|
    requires |MessageLines(t.dst, t.dest)| == cut
    ensures MessageLines(after, t.dest)[q] ==
            if q < cut then MessageLines(t.dst, t.dest)[q] else MessageLines(t.src, t.from)[q]
  {
    assert Wf(t.src, clock) && Wf(t.dst, clock);
    assert Sources(t) == InThread(t.src.messages, t.from);
    hide *;
    ThreadAfterCut(t, clock, cut, after);
    LinesOfThread(t.src, clock, t.from);
    LinesOfThread(t.dst, clock, t.dest);
    LinesOfThread(after, clock, t.dest);
    var ids := InThread(after.messages, t.dest);
    if q < cut {
      assert ids[..cut][q] == ids[q];
      OldReadsBack(t.dst, after, clock, ids[q]);
    } else {
      assert q - Offset(t) + cut == q;
      MessageReadsBack(t, clock, cut, after, q);
    }
  }

  lemma LinesAfterCut(t: Transfer, clock: Clock, cut: nat, after: Tables)
    requires Ready(t, clock) && Wf(after, clock) && t.dst.messages <= after.messages && cut <= |Sources(t)|
    requires CountIn(after.messages, t.dest) == Offset(t) + Left(t, cut) && Offset(t) == cut
    requires forall k | cut <= k < |Sources(t)| :: MessageArrives(t, cut, after, k)
    ensures |MessageLines(t.src, t.from)| == |Sources(t)|
    ensures MessageLines(after, t.dest) == MessageLines(t.dst, t.dest) + MessageLines(t.src, t.from)[cut..]
  {
    hide *;
    SizesAfterCut(t, clock, cut, after);
    forall q | 0 <= q < |Sources(t)|
      ensures MessageLines(after, t.dest)[q] ==
              if q < cut then MessageLines(t.dst, t.dest)[q] else MessageLines(t.src, t.from)[q]
    {
      LineAfterCut(t, clock, cut, after, q);
    }
    AppendAt(MessageLines(after, t.dest), MessageLines(t.dst, t.dest), MessageLines(t.src, t.from), cut);
  }

  lemma AppendAt<T>(all: seq<T>, xs: seq<T>, ys: seq<T>, n: nat)
    requires |xs| == n <= |ys| == |all|
    requires forall q | 0 <= q < n :: all[q] == xs[q]
    requires forall q | n <= q < |all| :: all[q] == ys[q]
    ensures all == xs + ys[n..]
  {
  }

  lemma CaughtUp(t: Transfer, clock: Clock, cut: nat)
    requires Ready(t, clock) && cut <= |Sources(t)| && Offset(t) == cut
    requires AppendBatch(t.dst, clock, t.dest, CutEvents(t, cut)).Ok? && CutFits(t, cut)
    ensures
      var after := AppendBatch(t.dst, clock, t.dest, CutEvents(t, cut)).value.0;
      && |MessageLines(t.src, t.from)| == |Sources(t)|
      && MessageLines(after, t.dest) == MessageLines(t.dst, t.dest) + MessageLines(t.src, t.from)[cut..]
      && forall j | 0 <= j < |ListReactions(t.src, t.from)| ::
           ReactionLine(after, |t.dst.reactions| + j + 1) == ReactionLine(t.src, ListReactions(t.src, t.from)[j])
  {
    hide *;
    CutImportIff(t, clock, cut);
    CutLeavesOrder(t, clock, cut);
    var after := AppendBatch(t.dst, clock, t.dest, CutEvents(t, cut)).value.0;
    LinesAfterCut(t, clock, cut, after);
    forall j | 0 <= j < |ListReactions(t.src, t.from)|
      ensures ReactionLine(after, |t.dst.reactions| + j + 1) == ReactionLine(t.src, ListReactions(t.src, t.from)[j])
    {
      ReactionReadsBack(t, clock, cut, after, j);
    }
  }

  /**
   A thread caught up: where the destination has just as many messages as were cut, the
   export can be imported exactly if the destination has none of its reactions yet, and
   it then lists its own messages and the exported ones, line by line as the source does.
   If its own were the source's first, it lists the source's thread.
   */
  lemma CutCatchesUp(t: Transfer, clock: Clock, cut: nat)
    requires Ready(t, clock) && cut <= |Sources(t)| && Offset(t) == cut
    ensures
      var r := AppendBatch(t.dst, clock, t.dest, CutEvents(t, cut));
      && (r.Ok? <==> NoneThere(t))
      && |MessageLines(t.src, t.from)| == |Sources(t)|
      && (r.Ok? ==>
            && MessageLines(r.value.0, t.dest) == MessageLines(t.dst, t.dest) + MessageLines(t.src, t.from)[cut..]
            && (MessageLines(t.dst, t.dest) == MessageLines(t.src, t.from)[..cut] ==>
                  MessageLines(r.value.0, t.dest) == MessageLines(t.src, t.from))
            && forall j | 0 <= j < |ListReactions(t.src, t.from)| ::
                 ReactionLine(r.value.0, |t.dst.reactions| + j + 1) ==
                 ReactionLine(t.src, ListReactions(t.src, t.from)[j]))
  {
    assert Wf(t.src, clock) && Sources(t) == InThread(t.src.messages, t.from);
    hide *;
    FitsOntoAsManyIff(t, clock, cut);
    CutImportIff(t, clock, cut);
    LinesOfThread(t.src, clock, t.from);
    if CutFits(t, cut) {
      CaughtUp(t, clock, cut);
      WholeAgain(MessageLines(t.src, t.from), cut);
    }
  }

  lemma WholeAgain<T>(xs: seq<T>, n: nat)
    requires n <= |xs|
    ensures xs[..n] + xs[n..] == xs
  {
  }

  // ----- a reply under the wrong message

  function Said(seqNo: nat, parent: nat, content: string, clock: Clock): Message {
    Message(1, seqNo, parent, "al", "human", "user", content, clock.now)
  }

  /** "a" and a reply "b" to it; without "a", for a thread that holds "c". */
  function LastReply(clock: Clock): Transfer {
    Transfer(Tables(1, [Said(1, 0, "a", clock), Said(2, 1, "b", clock)], []), 1,
             Tables(1, [Said(1, 0, "c", clock)], []), 1)
  }

  lemma LastReplyReady(clock: Clock)
    requires GoodClock(clock)
    ensures
      var t := LastReply(clock);
      Ready(t, clock) && Sources(t) == [1, 2] && ListReactions(t.src, 1) == [] && Offset(t) == 1
  {
    var t := LastReply(clock);
    var messages := t.src.messages;
    assert messages[..1] == [messages[0]] && messages[..0] == [] && t.dst.messages[..0] == [];
    assert [messages[0]][..0] == [];
    assert CountIn(messages[..1], 1) == 1 && CountIn(messages[..0], 1) == 0 && CountIn(t.dst.messages[..0], 1) == 0;
    assert InThread(messages[..1], 1) == [1];
    assert Names.Legal("al");
    assert !Text.SqlBlank("a") && !Text.SqlBlank("b") && !Text.SqlBlank("c") by {
      assert "a"[0] != ' ' && "b"[0] != ' ' && "c"[0] != ' ';
    }
    assert MessageOk(t.src, clock, 0) && MessageOk(t.src, clock, 1) && MessageOk(t.dst, clock, 0);
  }

  /** The last message of a thread, a reply, imported alone into another: it then answers what that one starts with. */
  lemma CutHangsReplyElsewhere(clock: Clock)
    requires GoodClock(clock)
    ensures
      var t := LastReply(clock);
      var r := AppendBatch(t.dst, clock, 1, CutEvents(t, 1));
      && r.Ok? && |r.value.0.messages| >= 2
      && r.value.0.messages[0] == Said(1, 0, "c", clock) && r.value.0.messages[1] == Said(2, 1, "b", clock)
  {
    var t := LastReply(clock);
    LastReplyReady(clock);
    var e := MessageEvent(t, 1);
    assert e.parentSeq == 1 && e.content == "b";
    CutImportIff(t, clock, 1);
    hide Ready, Sources, ListReactions, AppendBatch, CutEvents, Offset;
    assert ParentFits(t, 1, 1);
    var after := AppendBatch(t.dst, clock, 1, CutEvents(t, 1)).value.0;
    assert MessageArrives(t, 1, after, 1);
    CutLeavesOrder(t, clock, 1);
    OneOfSeq(after, clock, after.messages[1].parent, 1);
  }

  // ----- a dump, from the file on

  /** The lines a dump writes, where nothing is appended between its requests. */
  function Dumped(db: Tables, thread: nat, lastN: int, afterSeq: int): seq<Line> {
    Map(Fetched(db, thread, lastN, afterSeq), MessageLineOf(db)) + ReactionLines(db, thread)
  }

  lemma DumpedIsCut(t: Transfer, clock: Clock, lastN: int, afterSeq: int)
    requires Wf(t.src, clock)
    ensures
      var cut := Cut(|Sources(t)|, lastN, afterSeq);
      && Dumped(t.src, t.from, lastN, afterSeq) == CutLines(t, cut)
      && forall l | l in CutLines(t, cut) :: l in Exported(t.src, t.from)
  {
    FetchedIsCut(t.src, clock, t.from, lastN, afterSeq);
    ListIsThread(t.src, clock, t.from);
    hide Wf, InThread, Fetched, ListMessages, ListReactions, MessageLine, ReactionLines, Cut;
    var cut := Cut(|Sources(t)|, lastN, afterSeq);
    forall l | l in Map(Sources(t)[cut..], MessageLineOf(t.src))
      ensures l in MessageLines(t.src, t.from)
    {
      var k :| 0 <= k < |Sources(t)[cut..]| && l == MessageLine(t.src, Sources(t)[cut..][k]);
      assert MessageLines(t.src, t.from)[cut + k] == l;
    }
  }

  /**
   A dump with last or after-seq, from file to tables: it can be imported exactly if it
   has 1 to 1000 lines and its references fit; its messages and reactions then arrive,
   and all of them keep what they refer to exactly if no line refers to one left out.
   */
  lemma DumpImportIff(t: Transfer, clock: Clock, lastN: int, afterSeq: int, file: seq<Raw>)
    requires Ready(t, clock) && Encodes(file, Dumped(t.src, t.from, lastN, afterSeq))
    requires MessagesShown(t.src, ListMessages(t.src, t.from, 0)) && ReactionsShown(t.src, ListReactions(t.src, t.from))
    ensures
      var cut := Cut(|Sources(t)|, lastN, afterSeq);
      var r := Import(t.dst, clock, t.dest, file);
      && (r.Ok? <==> 1 <= |file| <= MAX_BATCH_EVENTS && CutFits(t, cut))
      && (r.Ok? ==>
            && (forall i | cut <= i < |Sources(t)| :: MessageArrives(t, cut, r.value.0, i))
            && (forall j | 0 <= j < |ListReactions(t.src, t.from)| :: ReactionArrives(t, cut, r.value.0, j))
            && (RefersToNoneCut(t, cut) <==>
                && (forall i | cut <= i < |Sources(t)| :: KeepsParent(t, cut, r.value.0, i))
                && (forall j | 0 <= j < |ListReactions(t.src, t.from)| :: KeepsTarget(t, cut, r.value.0, j))))
  {
    var cut, lines := Cut(|Sources(t)|, lastN, afterSeq), Dumped(t.src, t.from, lastN, afterSeq);
    assert Wf(t.src, clock) && |file| == |lines| && CutEvents(t, cut) == Map(CutLines(t, cut), EventOf(true, false));
    hide *;
    DumpedIsCut(t, clock, lastN, afterSeq);
    ExportedNormal(t.src, clock, t.from);
    ReadsBack(lines, file);
    ImportIsBatch(t.dst, clock, t.dest, lines, file);
    CutImportIff(t, clock, cut);
    if CutFits(t, cut) {
      CutKeepsReferencesIff(t, clock, cut);
    }
  }
}
