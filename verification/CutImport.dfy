/** Importing an export that was cut to its last messages, or to those after a cursor. */
module CutImport {
  import opened Store
  import opened ThreadLog
  import opened BatchSuccess
  import opened Listing
  import opened Portable
  import opened Moving
  import Text
  import Names

  // ----- what a cut export holds

  /** How many messages of a thread of n a dump with these options leaves out. */
  function Cut(n: nat, lastN: int, afterSeq: int): (cut: nat)
    ensures cut <= n
  {
    if afterSeq >= 0 then (if afterSeq <= n then afterSeq else n)
    else if 0 < lastN <= n then n - lastN
    else 0
  }

  /** A dump gives the thread without its first messages. */
  lemma FetchedIsCut(db: Tables, clock: Clock, thread: nat, lastN: int, afterSeq: int)
    requires Wf(db, clock)
    ensures
      var ids := InThread(db.messages, thread);
      Fetched(db, thread, lastN, afterSeq) == ids[Cut(|ids|, lastN, afterSeq)..]
  {
    if afterSeq >= 0 {
      ListAfterIsDrop(db, clock, thread, afterSeq);
    } else if lastN > 0 {
      LastNIsSuffix(db, clock, thread, lastN);
    } else {
      ListIsThread(db, clock, thread);
    }
    hide InThread, ListMessages, ListMessagesAfter, Wf;
  }

  // ----- what a reference becomes

  /** The destination seq a reference to source seq r comes to: a cut message's is taken as it stands. */
  function NewSeq(t: Transfer, cut: nat, r: int): int {
    if r > cut then Offset(t) + r - cut else r
  }

  // ----- when it can be imported

  /** The parent of source message i is not cut, or its seq is one the destination has by then. */
  predicate ParentFits(t: Transfer, cut: nat, i: nat)
    requires cut <= i < |Sources(t)|
  {
    var p := MessageEvent(t, i).parentSeq;
    p > cut || p <= Offset(t) + i - cut
  }

  /** The same for reaction j, which must not repeat one of the destination's or an earlier one. */
  predicate ReactionFitsIn(t: Transfer, cut: nat, j: nat)
    requires cut <= |Sources(t)| && j < |ListReactions(t.src, t.from)|
  {
    var e := ReactionEvent(t, j);
    var target := NewSeq(t, cut, e.messageSeq);
    && (e.messageSeq > cut || e.messageSeq <= Offset(t) + Left(t, cut))
    && !AlreadyThere(t.dst, t.dest, target, e.emoji, e.name)
    && forall k | 0 <= k < j :: !Collide(t, cut, k, j)
  }

  function Prediction(t: Transfer, cut: nat): map<int, nat>
    requires cut <= |Sources(t)| && Sorted(CutEvents(t, cut))
  {
    Predicted(CutEvents(t, cut), NextSeq(t.dst, t.dest))
  }

  lemma CutMapped(t: Transfer, clock: Clock, cut: nat, r: int)
    requires Ready(t, clock) && cut <= |Sources(t)| && r <= |Sources(t)|
    ensures Sorted(CutEvents(t, cut)) && Mapped(Prediction(t, cut), r) == NewSeq(t, cut, r)
    ensures |CutEvents(t, cut)| == Left(t, cut) + |ListReactions(t.src, t.from)|
  {
    hide Ready, Sources, ListReactions, CutEvents, ValidEvent, NextSeq, Offset, Predicted, Sorted;
    PredictsCut(t, clock, cut);
  }

  /** Event i of the cut export, for a message that is left. */
  lemma CutMessage(t: Transfer, clock: Clock, cut: nat, i: nat)
    requires Ready(t, clock) && cut <= |Sources(t)| && i < Left(t, cut)
    ensures
      var events, e := CutEvents(t, cut), MessageEvent(t, cut + i);
      && i < |events| && events[i] == e && IsMessage(e) && !IsReaction(e) && MessageCount(events[..i]) == i
      && Sorted(events) && Target(Prediction(t, cut), e) == NewSeq(t, cut, e.parentSeq) && 0 <= e.parentSeq <= cut + i
      && Names.Legal(e.name) && AuthorTypeOk(e.authorType) && RoleOk(e.role) && !Text.SqlBlank(e.content)
      && StampOk(clock, e.createdAt) && e.sourceSeq == cut + i + 1
  {
    hide Ready, Sources, ListReactions, CutEvents, MessageEvent, Prediction, Sorted, Mapped, MessageCount, NewSeq,
         Names.Legal, Text.SqlBlank, StampOk, RoleOk, AuthorTypeOk, MovedMessage;
    MessageEventFields(t, clock, cut + i);
    CutMapped(t, clock, cut, MessageEvent(t, cut + i).parentSeq);
    CutEventAt(t, cut, i);
    CountOfCut(t, clock, cut, i);
  }

  /** Event Left + j, for reaction j. */
  lemma CutReaction(t: Transfer, clock: Clock, cut: nat, j: nat)
    requires Ready(t, clock) && cut <= |Sources(t)| && j < |ListReactions(t.src, t.from)|
    ensures
      var events, e, i := CutEvents(t, cut), ReactionEvent(t, j), Left(t, cut) + j;
      && i < |events| && events[i] == e && !IsMessage(e) && IsReaction(e) && MessageCount(events[..i]) == Left(t, cut)
      && Sorted(events) && Target(Prediction(t, cut), e) == NewSeq(t, cut, e.messageSeq)
      && 1 <= e.messageSeq <= |Sources(t)|
      && Names.Legal(e.name) && AuthorTypeOk(e.authorType) && !Text.SqlBlank(e.emoji) && StampOk(clock, e.createdAt)
  {
    hide Ready, Sources, ListReactions, CutEvents, ReactionEvent, Prediction, Sorted, Mapped, MessageCount, NewSeq,
         Names.Legal, Text.SqlBlank, StampOk, AuthorTypeOk, MovedReaction, Left;
    ReactionEventFields(t, clock, j);
    CutMapped(t, clock, cut, ReactionEvent(t, j).messageSeq);
    CutEventAt(t, cut, Left(t, cut) + j);
    CountOfCut(t, clock, cut, Left(t, cut) + j);
  }

  lemma MessageFitsIff(t: Transfer, clock: Clock, cut: nat, i: nat)
    requires Ready(t, clock) && cut <= |Sources(t)| && i < Left(t, cut)
    requires Sorted(CutEvents(t, cut)) && i < |CutEvents(t, cut)|
    ensures Fits(t.dst, clock, t.dest, Prediction(t, cut), CutEvents(t, cut), i) <==> ParentFits(t, cut, cut + i)
  {
    assert 1 <= t.dest <= t.dst.threads;
    CutMessage(t, clock, cut, i);
    hide Ready, Sources, CutEvents, MessageEvent, Prediction, Sorted, Target, Names.Legal, RoleOk, AuthorTypeOk,
         Text.SqlBlank, MessageCount, CountIn;
  }

  /** Reactions k and j come to the same message, as the same reaction. */
  predicate Collide(t: Transfer, cut: nat, k: nat, j: nat)
    requires k < |ListReactions(t.src, t.from)| && j < |ListReactions(t.src, t.from)|
  {
    var e, f := ReactionEvent(t, j), ReactionEvent(t, k);
    NewSeq(t, cut, f.messageSeq) == NewSeq(t, cut, e.messageSeq) && f.emoji == e.emoji && f.name == e.name
  }

  lemma SameReactIff(t: Transfer, clock: Clock, cut: nat, k: nat, j: nat)
    requires Ready(t, clock) && cut <= |Sources(t)| && k < j < |ListReactions(t.src, t.from)|
    requires Sorted(CutEvents(t, cut)) && |CutEvents(t, cut)| == Left(t, cut) + |ListReactions(t.src, t.from)|
    ensures SameReact(Prediction(t, cut), CutEvents(t, cut), Left(t, cut) + k, Left(t, cut) + j) <==> Collide(t, cut, k, j)
  {
    CutReaction(t, clock, cut, k);
    CutReaction(t, clock, cut, j);
    hide Ready, Sources, ListReactions, CutEvents, ReactionEvent, Prediction, Sorted, Target, NewSeq, MessageCount, Left,
         Names.Legal, Text.SqlBlank, StampOk, IsMessage, IsReaction;
  }

  lemma MessageIsNoReact(t: Transfer, clock: Clock, cut: nat, i: nat, j: nat)
    requires Ready(t, clock) && cut <= |Sources(t)| && i < Left(t, cut) && j < |CutEvents(t, cut)|
    requires Sorted(CutEvents(t, cut)) && i < |CutEvents(t, cut)|
    ensures !SameReact(Prediction(t, cut), CutEvents(t, cut), i, j)
  {
    CutMessage(t, clock, cut, i);
    hide Ready, Sources, CutEvents, MessageEvent, Prediction, Sorted, Target, MessageCount, Names.Legal, Text.SqlBlank;
  }

  /** Of the events before reaction j, those that come to the same reaction are the reactions that collide with it. */
  lemma RepeatsIff(t: Transfer, clock: Clock, cut: nat, j: nat)
    requires Ready(t, clock) && cut <= |Sources(t)| && j < |ListReactions(t.src, t.from)|
    requires Sorted(CutEvents(t, cut)) && |CutEvents(t, cut)| == Left(t, cut) + |ListReactions(t.src, t.from)|
    ensures
      var i := Left(t, cut) + j;
      (forall k | 0 <= k < i :: !SameReact(Prediction(t, cut), CutEvents(t, cut), k, i)) <==>
      forall k | 0 <= k < j :: !Collide(t, cut, k, j)
  {
    hide *;
    var i, events, predicted := Left(t, cut) + j, CutEvents(t, cut), Prediction(t, cut);
    forall k | 0 <= k < Left(t, cut)
      ensures !SameReact(predicted, events, k, i)
    {
      MessageIsNoReact(t, clock, cut, k, i);
    }
    forall k | 0 <= k < j
      ensures SameReact(predicted, events, Left(t, cut) + k, i) <==> Collide(t, cut, k, j)
    {
      SameReactIff(t, clock, cut, k, j);
    }
    if forall k | 0 <= k < j :: !Collide(t, cut, k, j) {
      forall k | 0 <= k < i
        ensures !SameReact(predicted, events, k, i)
      {
        if k >= Left(t, cut) {
          assert !Collide(t, cut, k - Left(t, cut), j);
          assert Left(t, cut) + (k - Left(t, cut)) == k;
        }
      }
    } else {
      var k :| 0 <= k < j && Collide(t, cut, k, j);
      assert SameReact(predicted, events, Left(t, cut) + k, i);
    }
  }

  lemma ReactionFitsIff(t: Transfer, clock: Clock, cut: nat, j: nat)
    requires Ready(t, clock) && cut <= |Sources(t)| && j < |ListReactions(t.src, t.from)|
    requires Sorted(CutEvents(t, cut)) && |CutEvents(t, cut)| == Left(t, cut) + |ListReactions(t.src, t.from)|
    ensures Fits(t.dst, clock, t.dest, Prediction(t, cut), CutEvents(t, cut), Left(t, cut) + j) <==>
            ReactionFitsIn(t, cut, j)
  {
    CutReaction(t, clock, cut, j);
    RepeatsIff(t, clock, cut, j);
    hide Ready, Sources, ListReactions, CutEvents, ReactionEvent, Prediction, Sorted, Target, Names.Legal, Text.SqlBlank,
         MessageCount, CountIn, AlreadyThere, SameReact, Collide, AuthorTypeOk, Left;
  }

  /** Every reference of the export finds a message. */
  ghost predicate CutFits(t: Transfer, cut: nat)
    requires cut <= |Sources(t)|
  {
    && (forall i | cut <= i < |Sources(t)| :: ParentFits(t, cut, i))
    && (forall j | 0 <= j < |ListReactions(t.src, t.from)| :: ReactionFitsIn(t, cut, j))
  }

  lemma AllFitIff(t: Transfer, clock: Clock, cut: nat)
    requires Ready(t, clock) && cut <= |Sources(t)|
    requires Sorted(CutEvents(t, cut)) && |CutEvents(t, cut)| == Left(t, cut) + |ListReactions(t.src, t.from)|
    ensures
      (forall i | 0 <= i < |CutEvents(t, cut)| :: Fits(t.dst, clock, t.dest, Prediction(t, cut), CutEvents(t, cut), i))
      <==> CutFits(t, cut)
  {
    hide Ready, Sources, ListReactions, CutEvents, Prediction, Sorted, Fits, ParentFits, ReactionFitsIn;
    var events, predicted := CutEvents(t, cut), Prediction(t, cut);
    forall i | cut <= i < |Sources(t)|
      ensures Fits(t.dst, clock, t.dest, predicted, events, i - cut) <==> ParentFits(t, cut, i)
    {
      MessageFitsIff(t, clock, cut, i - cut);
    }
    forall j | 0 <= j < |ListReactions(t.src, t.from)|
      ensures Fits(t.dst, clock, t.dest, predicted, events, Left(t, cut) + j) <==> ReactionFitsIn(t, cut, j)
    {
      ReactionFitsIff(t, clock, cut, j);
    }
    if CutFits(t, cut) {
      forall i | 0 <= i < |events|
        ensures Fits(t.dst, clock, t.dest, predicted, events, i)
      {
        if i < Left(t, cut) {
          assert ParentFits(t, cut, cut + i);
          assert cut + i - cut == i;
        } else {
          assert ReactionFitsIn(t, cut, i - Left(t, cut));
          assert Left(t, cut) + (i - Left(t, cut)) == i;
        }
      }
    }
  }

  // ----- what it becomes

  /** Row `at` is the message of event e, numbered seqNo: the fields are e's, and it answers the one with seq `target`. */
  predicate MessageIs(after: Tables, at: nat, thread: nat, seqNo: nat, e: AppendEvent, target: int) {
    && at < |after.messages|
    && var m := after.messages[at];
       && m == Message(thread, seqNo, m.parent, e.name, e.authorType, e.role, e.content, e.createdAt)
       && Answers(after, thread, m.parent, target) && (m.parent == 0 <==> target == 0)
  }

  predicate ReactionIs(after: Tables, at: nat, thread: nat, e: AppendEvent, target: int) {
    && at < |after.reactions|
    && var r := after.reactions[at];
       && r == Reaction(r.message, e.emoji, e.name, e.authorType, e.createdAt)
       && r.message > 0 && Answers(after, thread, r.message, target)
  }

  /** Source message i has arrived. */
  predicate MessageArrives(t: Transfer, cut: nat, after: Tables, i: nat)
    requires cut <= i < |Sources(t)|
  {
    var e := MessageEvent(t, i);
    MessageIs(after, |t.dst.messages| + (i - cut), t.dest, Offset(t) + (i - cut) + 1, e, NewSeq(t, cut, e.parentSeq))
  }

  predicate ReactionArrives(t: Transfer, cut: nat, after: Tables, j: nat)
    requires cut <= |Sources(t)| && j < |ListReactions(t.src, t.from)|
  {
    var e := ReactionEvent(t, j);
    ReactionIs(after, |t.dst.reactions| + j, t.dest, e, NewSeq(t, cut, e.messageSeq))
  }

  lemma CutArrives(t: Transfer, clock: Clock, cut: nat)
    requires Ready(t, clock) && cut <= |Sources(t)| && AppendBatch(t.dst, clock, t.dest, CutEvents(t, cut)).Ok?
    ensures
      var after := AppendBatch(t.dst, clock, t.dest, CutEvents(t, cut)).value.0;
      && (forall i | cut <= i < |Sources(t)| :: MessageArrives(t, cut, after, i))
      && (forall j | 0 <= j < |ListReactions(t.src, t.from)| :: ReactionArrives(t, cut, after, j))
  {
    assert Wf(t.dst, clock) && GoodClock(clock);
    PredictsCut(t, clock, cut);
    hide Ready, Wf, Sources, ListReactions, CutEvents, Sorted, Predicted, Placed, MessageArrives, ReactionArrives;
    BatchIsExact(t.dst, clock, t.dest, CutEvents(t, cut));
    var (after, results) := AppendBatch(t.dst, clock, t.dest, CutEvents(t, cut)).value;
    hide AppendBatch;
    forall i | cut <= i < |Sources(t)|
      ensures MessageArrives(t, cut, after, i)
    {
      MessagePlacedArrives(t, clock, cut, after, results, i);
    }
    forall j | 0 <= j < |ListReactions(t.src, t.from)|
      ensures ReactionArrives(t, cut, after, j)
    {
      ReactionPlacedArrives(t, clock, cut, after, results, j);
    }
  }

  lemma PlacedMessageRow(before: Tables, after: Tables, clock: Clock, thread: nat, predicted: map<int, nat>,
                         events: seq<AppendEvent>, results: seq<AppendResult>, i: nat)
    requires i < |events| == |results| && Placed(before, after, clock, thread, predicted, events, results, i)
    requires IsMessage(events[i]) && events[i].createdAt != ""
    ensures
      var count := MessageCount(events[..i]);
      MessageIs(after, |before.messages| + count, thread, CountIn(before.messages, thread) + count + 1, events[i],
                Target(predicted, events[i]))
  {
    hide Answers, Target, CountIn, MessageCount;
  }

  lemma PlacedReactionRow(before: Tables, after: Tables, clock: Clock, thread: nat, predicted: map<int, nat>,
                          events: seq<AppendEvent>, results: seq<AppendResult>, i: nat, j: nat)
    requires i < |events| == |results| && Placed(before, after, clock, thread, predicted, events, results, i)
    requires !IsMessage(events[i]) && events[i].createdAt != "" && i == MessageCount(events[..i]) + j
    ensures ReactionIs(after, |before.reactions| + j, thread, events[i], Target(predicted, events[i]))
  {
    hide Answers, Target, CountIn, MessageCount;
  }

  lemma MessagePlacedArrives(t: Transfer, clock: Clock, cut: nat, after: Tables, results: seq<AppendResult>, i: nat)
    requires Ready(t, clock) && cut <= i < |Sources(t)| && Sorted(CutEvents(t, cut))
    requires i - cut < |CutEvents(t, cut)| == |results|
    requires Placed(t.dst, after, clock, t.dest, Prediction(t, cut), CutEvents(t, cut), results, i - cut)
    ensures MessageArrives(t, cut, after, i)
  {
    hide Ready, Sources, CutEvents, MessageEvent, Prediction, Sorted, Target, MessageCount, Names.Legal, Text.SqlBlank,
         RoleOk, AuthorTypeOk, CountIn, Placed, MessageIs, NewSeq, IsMessage, IsReaction, ListReactions;
    CutMessage(t, clock, cut, i - cut);
    assert cut + (i - cut) == i;
    PlacedMessageRow(t.dst, after, clock, t.dest, Prediction(t, cut), CutEvents(t, cut), results, i - cut);
  }

  lemma ReactionPlacedArrives(t: Transfer, clock: Clock, cut: nat, after: Tables, results: seq<AppendResult>, j: nat)
    requires Ready(t, clock) && cut <= |Sources(t)| && j < |ListReactions(t.src, t.from)| && Sorted(CutEvents(t, cut))
    requires Left(t, cut) + j < |CutEvents(t, cut)| == |results|
    requires Placed(t.dst, after, clock, t.dest, Prediction(t, cut), CutEvents(t, cut), results, Left(t, cut) + j)
    ensures ReactionArrives(t, cut, after, j)
  {
    hide Ready, Sources, ListReactions, CutEvents, ReactionEvent, Prediction, Sorted, Target, MessageCount, Names.Legal,
         Text.SqlBlank, AuthorTypeOk, CountIn, Left, Placed, ReactionIs, NewSeq, IsMessage, IsReaction;
    CutReaction(t, clock, cut, j);
    PlacedReactionRow(t.dst, after, clock, t.dest, Prediction(t, cut), CutEvents(t, cut), results, Left(t, cut) + j, j);
  }

  /**
   An export that leaves out its first `cut` messages can be imported exactly if no
   reference to one of those points past what the destination has by then, and no
   reaction comes to repeat another. A message's parent is then the destination's
   message with the shifted seq, where the parent was not cut, and otherwise whatever
   message of the destination has the seq the parent had in the source; and a
   reaction's message likewise.
   */
  lemma CutImportIff(t: Transfer, clock: Clock, cut: nat)
    requires Ready(t, clock) && cut <= |Sources(t)|
    ensures AppendBatch(t.dst, clock, t.dest, CutEvents(t, cut)).Ok? <==> CutFits(t, cut)
    ensures CutFits(t, cut) ==>
              var after := AppendBatch(t.dst, clock, t.dest, CutEvents(t, cut)).value.0;
              && (forall i | cut <= i < |Sources(t)| :: MessageArrives(t, cut, after, i))
              && (forall j | 0 <= j < |ListReactions(t.src, t.from)| :: ReactionArrives(t, cut, after, j))
  {
    hide Ready, Wf, Sources, ListReactions, CutEvents, Sorted, Predicted, Fits, ValidEvent, CutFits, AppendBatch,
         MessageArrives, ReactionArrives, NextSeq, Left;
    ReadyMeans(t, clock);
    PredictsCut(t, clock, cut);
    assert Prediction(t, cut) == Predicted(CutEvents(t, cut), NextSeq(t.dst, t.dest));
    AllFitIff(t, clock, cut);
    BatchSucceedsIff(t.dst, clock, t.dest, CutEvents(t, cut));
    if CutFits(t, cut) {
      CutArrives(t, clock, cut);
    }
  }
}
