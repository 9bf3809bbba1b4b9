/** What the batch endpoint stores, told from the fields of the objects it was sent. */
module Requests {
  import opened Wrappers
  import opened Text
  import opened Store
  import opened ThreadLog
  import opened Jsonl
  import opened Seqs
  import opened Portable

  // ----- the fields of an object

  /** The text under `key`: none where the key is missing or null. */
  predicate Says(o: Object, key: Key, s: string) {
    if key !in o || o[key] == Null then s == "" else o[key] == Value.Text(s)
  }

  /** The number under `key`: 0 where the key is missing or null. */
  predicate Counts(o: Object, key: Key, n: int) {
    if key !in o || o[key] == Null then n == 0 else o[key] == Number(n)
  }

  predicate Reacts(o: Object) {
    Says(o, Type, "reaction")
  }

  /** An author stands in for a name that is missing or empty. */
  predicate NamedBy(o: Object, name: string) {
    if Says(o, Name, "") then Says(o, Author, name) else Says(o, Name, name)
  }

  /** Only a human's import says who wrote a line, and says a human did where it does not say. */
  predicate Signs(o: Object, isImport: bool, isAgent: bool, authorType: string) {
    if isAgent then authorType == "agent"
    else if isImport then (if Says(o, AuthorType, "") then authorType == "human" else Says(o, AuthorType, authorType))
    else authorType == "human"
  }

  /** The row's time is the object's, or that of the append where it has none. */
  predicate Stamps(o: Object, clock: Clock, createdAt: string) {
    if Says(o, Timestamp, "") then createdAt == clock.now else Says(o, Timestamp, createdAt)
  }

  /** A message that other lines of an import can refer to by this seq. */
  predicate Numbers(o: Object, n: int) {
    !Reacts(o) && n != 0 && Counts(o, Seq, n)
  }

  // ----- rows

  /** How many of the objects are messages. */
  function Messages(objects: seq<Object>): (count: nat)
    ensures count <= |objects|
  {
    if objects == [] then 0
    else Messages(objects[..|objects| - 1]) + if Reacts(objects[|objects| - 1]) then 0 else 1
  }

  /** The id of the row of object k, a message. */
  function RowOf(before: Tables, objects: seq<Object>, k: nat): nat
    requires k < |objects|
  {
    |before.messages| + Messages(objects[..k]) + 1
  }

  /**
   What `n` refers to in a request is message `id`: in an import the row of the object
   with that seq, if there is one, and else the message of the thread with that seq.
   */
  ghost predicate Points(before: Tables, after: Tables, thread: nat, objects: seq<Object>, isImport: bool, n: int, id: nat) {
    if n == 0 then id == 0
    else if isImport && exists k | 0 <= k < |objects| :: Numbers(objects[k], n)
    then exists k | 0 <= k < |objects| :: Numbers(objects[k], n) && id == RowOf(before, objects, k)
    else 1 <= id <= |after.messages| && after.messages[id - 1].thread == thread && after.messages[id - 1].seqNo == n
  }

  ghost predicate MessageStored(before: Tables, after: Tables, clock: Clock, thread: nat, objects: seq<Object>,
                                isImport: bool, isAgent: bool, i: nat)
    requires i < |objects|
  {
    var o, id := objects[i], RowOf(before, objects, i);
    && id <= |after.messages|
    && var m := after.messages[id - 1];
       && m.thread == thread && m.seqNo == CountIn(before.messages, thread) + Messages(objects[..i]) + 1
       && NamedBy(o, m.name) && Says(o, Role, m.role) && Says(o, Content, m.content)
       && Signs(o, isImport, isAgent, m.authorType) && Stamps(o, clock, m.createdAt)
       && exists n :: Counts(o, ParentSeq, n) && Points(before, after, thread, objects, isImport, n, m.parent)
  }

  ghost predicate ReactionStored(before: Tables, after: Tables, clock: Clock, thread: nat, objects: seq<Object>,
                                 isImport: bool, isAgent: bool, i: nat)
    requires i < |objects|
  {
    var o, at := objects[i], |before.reactions| + i - Messages(objects[..i]);
    && at < |after.reactions|
    && var r := after.reactions[at];
       && NamedBy(o, r.name) && Says(o, Emoji, r.emoji)
       && Signs(o, isImport, isAgent, r.authorType) && Stamps(o, clock, r.createdAt)
       && exists n :: n > 0 && Counts(o, MessageSeq, n) && Points(before, after, thread, objects, isImport, n, r.message)
  }

  /** The answer names the rows of object i. */
  ghost predicate Answered(before: Tables, after: Tables, objects: seq<Object>, results: seq<AppendResult>, i: nat)
    requires i < |objects|
  {
    && i < |results|
    && var r := results[i];
       if Reacts(objects[i]) then
         && r.reactionId == |before.reactions| + i - Messages(objects[..i]) + 1 <= |after.reactions|
         && r.messageId == after.reactions[r.reactionId - 1].message && r.seqNo == 0
       else
         && r.messageId == RowOf(before, objects, i) <= |after.messages|
         && r.seqNo == after.messages[r.messageId - 1].seqNo && r.reactionId == 0
  }

  /** All of it, and nothing else: what was there is untouched. */
  ghost predicate Stored(before: Tables, after: Tables, clock: Clock, thread: nat, objects: seq<Object>, isImport: bool,
                         isAgent: bool, results: seq<AppendResult>) {
    && after.threads == before.threads && before.messages <= after.messages && before.reactions <= after.reactions
    && |after.messages| == |before.messages| + Messages(objects)
    && |after.reactions| == |before.reactions| + |objects| - Messages(objects)
    && |results| == |objects|
    && forall i | 0 <= i < |objects| :: OneStored(before, after, clock, thread, objects, isImport, isAgent, results, i)
  }

  ghost predicate OneStored(before: Tables, after: Tables, clock: Clock, thread: nat, objects: seq<Object>, isImport: bool,
                            isAgent: bool, results: seq<AppendResult>, i: nat)
    requires i < |objects|
  {
    && (if Reacts(objects[i]) then ReactionStored(before, after, clock, thread, objects, isImport, isAgent, i)
        else MessageStored(before, after, clock, thread, objects, isImport, isAgent, i))
    && Answered(before, after, objects, results, i)
  }

  // ----- an object and its event

  /** The event's fields are the object's. */
  ghost predicate Carries(o: Object, e: AppendEvent, isImport: bool, isAgent: bool) {
    && (Reacts(o) <==> IsReaction(e)) && (Reacts(o) || IsMessage(e))
    && NamedBy(o, e.name) && Says(o, Role, e.role) && Says(o, Content, e.content) && Says(o, Emoji, e.emoji)
    && Says(o, Timestamp, e.createdAt) && Signs(o, isImport, isAgent, e.authorType)
    && Counts(o, ParentSeq, e.parentSeq) && Counts(o, MessageSeq, e.messageSeq)
    && (if isImport then Counts(o, Seq, e.sourceSeq) else e.sourceSeq == 0)
  }

  lemma ParseCarries(o: Object, isImport: bool, isAgent: bool)
    requires Parse(o).Ok?
    ensures Carries(o, ToEvent(Parse(o).value, isImport, isAgent), isImport, isAgent)
  {
    hide Blank;
  }

  predicate TextOrNothing(o: Object, key: Key) {
    key in o ==> o[key].Null? || o[key].Text?
  }

  predicate NumberOrNothing(o: Object, key: Key) {
    key in o ==> o[key].Null? || o[key].Number?
  }

  /** Every field that is there, and not null, is of its type. */
  predicate WellTyped(o: Object) {
    && TextOrNothing(o, Type) && TextOrNothing(o, Role) && TextOrNothing(o, Name) && TextOrNothing(o, AuthorType)
    && TextOrNothing(o, Content) && TextOrNothing(o, Emoji) && TextOrNothing(o, Timestamp) && TextOrNothing(o, Author)
    && NumberOrNothing(o, Seq) && NumberOrNothing(o, ParentSeq) && NumberOrNothing(o, MessageSeq)
    && (Metadata in o ==> o[Metadata].Null? || o[Metadata].Members?)
  }

  lemma TextThere(o: Object, key: Key)
    ensures TextOrNothing(o, key) <==> GetText(o, key).Ok?
    ensures GetText(o, key).Ok? ==> forall s :: Says(o, key, s) <==> s == GetText(o, key).value
  {
  }

  lemma NumberThere(o: Object, key: Key)
    ensures NumberOrNothing(o, key) <==> GetNumber(o, key).Ok?
    ensures GetNumber(o, key).Ok? ==> forall n :: Counts(o, key, n) <==> n == GetNumber(o, key).value
  {
  }

  lemma FieldsThere(o: Object)
    ensures WellTyped(o) <==>
            && (forall key | key in {Type, Role, Name, AuthorType, Content, Emoji, Timestamp, Author} :: GetText(o, key).Ok?)
            && (forall key | key in {Seq, ParentSeq, MessageSeq} :: GetNumber(o, key).Ok?) && GetMembers(o, Metadata).Ok?
  {
    forall key
      ensures TextOrNothing(o, key) <==> GetText(o, key).Ok?
      ensures NumberOrNothing(o, key) <==> GetNumber(o, key).Ok?
    {
      TextThere(o, key);
      NumberThere(o, key);
    }
    hide TextOrNothing, NumberOrNothing, GetText, GetNumber;
  }

  /**
   Exactly when an object is a line: it is well typed and named, and a message says
   something in a role, or a reaction reacts to something.
   */
  lemma ParsesIff(o: Object)
    ensures Parse(o).Ok? <==>
            && WellTyped(o) && (exists name :: NamedBy(o, name) && !Blank(name))
            && (|| ((Says(o, Type, "") || Says(o, Type, "message")) && !Says(o, Role, "") && !Says(o, Content, ""))
                || (Reacts(o) && (exists n :: n > 0 && Counts(o, MessageSeq, n))
                    && exists emoji :: Says(o, Emoji, emoji) && !Blank(emoji)))
  {
    FieldsThere(o);
    forall key
      ensures GetText(o, key).Ok? ==> forall s :: Says(o, key, s) <==> s == GetText(o, key).value
    {
      TextThere(o, key);
    }
    NumberThere(o, MessageSeq);
    hide Blank, GetText, GetNumber, GetMembers, Says, Counts, WellTyped;
    if WellTyped(o) {
      var name := if GetText(o, Name).value == "" then GetText(o, Author).value else GetText(o, Name).value;
      assert NamedBy(o, name) && forall s | NamedBy(o, s) :: s == name;
      assert Counts(o, MessageSeq, GetNumber(o, MessageSeq).value);
      assert Says(o, Emoji, GetText(o, Emoji).value);
    }
  }

  lemma {:induction false} ParsedEach(objects: seq<Object>)
    requires Parsed(Map(objects, AsJson())).Ok?
    ensures
      var lines := Parsed(Map(objects, AsJson())).value;
      |lines| == |objects| && forall i | 0 <= i < |objects| :: Parse(objects[i]) == Ok(lines[i])
    decreases |objects|
  {
    hide Parse, Parsed;
    var raws := Map(objects, AsJson());
    if objects == [] {
      NothingParsed(raws);
    } else {
      var n := |objects| - 1;
      ParsedNext(raws, objects[n]);
      assert raws[..n] == Map(objects[..n], AsJson());
      ParsedEach(objects[..n]);
    }
  }

  /** The events of a request that parses. */
  function EventsOf(objects: seq<Object>, isImport: bool, isAgent: bool): seq<AppendEvent>
    requires Parsed(Map(objects, AsJson())).Ok?
  {
    Map(Parsed(Map(objects, AsJson())).value, EventOf(isImport, isAgent))
  }

  lemma EventsCarry(objects: seq<Object>, isImport: bool, isAgent: bool)
    requires Parsed(Map(objects, AsJson())).Ok?
    ensures
      var events := EventsOf(objects, isImport, isAgent);
      |events| == |objects| && forall i | 0 <= i < |objects| :: Carries(objects[i], events[i], isImport, isAgent)
  {
    ParsedEach(objects);
    hide Parse, Parsed, ToEvent, Carries;
    forall i | 0 <= i < |objects|
      ensures Carries(objects[i], EventsOf(objects, isImport, isAgent)[i], isImport, isAgent)
    {
      ParseCarries(objects[i], isImport, isAgent);
    }
  }

  lemma {:induction false} SameCount(objects: seq<Object>, events: seq<AppendEvent>, isImport: bool, isAgent: bool)
    requires |events| == |objects| && forall i | 0 <= i < |objects| :: Carries(objects[i], events[i], isImport, isAgent)
    ensures MessageCount(events) == Messages(objects)
    decreases |objects|
  {
    if objects != [] {
      var n := |objects| - 1;
      SameCount(objects[..n], events[..n], isImport, isAgent);
      assert Carries(objects[n], events[n], isImport, isAgent);
      hide Says, Counts, Signs, NamedBy;
    }
  }

  /** One number is under a key. */
  lemma OneNumber(o: Object, key: Key, m: int, n: int)
    requires Counts(o, key, m) && Counts(o, key, n)
    ensures m == n
  {
  }

  /** An object numbers what its event does. */
  lemma NumbersIff(o: Object, e: AppendEvent, isImport: bool, isAgent: bool, n: int)
    requires Carries(o, e, isImport, isAgent)
    ensures isImport ==> (Numbers(o, n) <==> Numbered(e) && e.sourceSeq == n && n != 0)
    ensures !isImport ==> !Numbered(e)
  {
    if isImport && Numbers(o, n) {
      OneNumber(o, Seq, n, e.sourceSeq);
    }
    hide Says, Counts, Signs, NamedBy;
  }

  /** The row of a numbered message has the seq the map predicts for its number. */
  lemma NumberedRow(before: Tables, after: Tables, clock: Clock, thread: nat, objects: seq<Object>,
                    events: seq<AppendEvent>, results: seq<AppendResult>, isImport: bool, isAgent: bool, k: nat)
    requires Wf(before, clock) && k < |events| == |objects| == |results| && Sorted(events) && Numbered(events[k])
    requires forall i | 0 <= i < |objects| :: Carries(objects[i], events[i], isImport, isAgent)
    requires Placed(before, after, clock, thread, Predicted(events, NextSeq(before, thread)), events, results, k)
    ensures
      var id := RowOf(before, objects, k);
      && id <= |after.messages| && after.messages[id - 1].thread == thread
      && after.messages[id - 1].seqNo == NextSeq(before, thread) + MessageCount(events[..k])
  {
    hide Wf, Carries, Sorted, Predicted, MessageCount, Messages, CountIn, Answers, Target, NextSeq;
    NextIsCount(before, clock, thread);
    SameCount(objects[..k], events[..k], isImport, isAgent);
  }

  /** Where a number in the map comes from. */
  lemma PredictedFrom(events: seq<AppendEvent>, next: nat, n: int) returns (k: nat)
    requires Sorted(events) && n in Predicted(events, next)
    ensures k < |events| && Numbered(events[k]) && events[k].sourceSeq == n
    ensures Predicted(events, next)[n] == next + MessageCount(events[..k])
  {
    k :| 0 <= k < |events| && Numbered(events[k]) && events[k].sourceSeq == n
         && Predicted(events, next)[n] == next + MessageCount(events[..k]);
  }

  /** What the map sends a number to, said of the objects. */
  lemma TargetPoints(before: Tables, after: Tables, clock: Clock, thread: nat, objects: seq<Object>,
                     events: seq<AppendEvent>, results: seq<AppendResult>, isImport: bool, isAgent: bool, n: int, id: nat)
    requires Wf(before, clock) && Wf(after, clock) && |events| == |objects| == |results| && Sorted(events)
    requires forall i | 0 <= i < |objects| :: Carries(objects[i], events[i], isImport, isAgent)
    requires forall i | 0 <= i < |events| ::
               Placed(before, after, clock, thread, Predicted(events, NextSeq(before, thread)), events, results, i)
    requires n == 0 <==> id == 0
    requires Answers(after, thread, id, Mapped(Predicted(events, NextSeq(before, thread)), n))
    ensures Points(before, after, thread, objects, isImport, n, id)
  {
    hide *;
    var next := NextSeq(before, thread);
    if n != 0 && n in Predicted(events, next) {
      var k := PredictedFrom(events, next, n);
      NumbersIff(objects[k], events[k], isImport, isAgent, n);
      NumberedRow(before, after, clock, thread, objects, events, results, isImport, isAgent, k);
      PointsToRow(before, after, clock, thread, objects, isImport, n, id, k, Predicted(events, next)[n], Predicted(events, next));
    } else {
      if n != 0 {
        NoneNumbers(objects, events, isImport, isAgent, next, n);
      }
      PointsBySeq(before, after, thread, objects, isImport, n, id, Predicted(events, next));
    }
  }

  lemma PointsToRow(before: Tables, after: Tables, clock: Clock, thread: nat, objects: seq<Object>, isImport: bool,
                    n: int, id: nat, k: nat, seqNo: nat, predicted: map<int, nat>)
    requires Wf(after, clock) && isImport && n != 0 && id != 0 && k < |objects| && Numbers(objects[k], n)
    requires n in predicted && predicted[n] == seqNo && Answers(after, thread, id, Mapped(predicted, n))
    requires RowOf(before, objects, k) <= |after.messages|
    requires after.messages[RowOf(before, objects, k) - 1].thread == thread
    requires after.messages[RowOf(before, objects, k) - 1].seqNo == seqNo
    ensures Points(before, after, thread, objects, isImport, n, id)
  {
    OneOfSeq(after, clock, id, RowOf(before, objects, k));
    hide Wf, Numbers, Messages;
  }

  lemma PointsBySeq(before: Tables, after: Tables, thread: nat, objects: seq<Object>, isImport: bool, n: int, id: nat,
                    predicted: map<int, nat>)
    requires n == 0 <==> id == 0
    requires n != 0 ==> n !in predicted && (isImport ==> forall k | 0 <= k < |objects| :: !Numbers(objects[k], n))
    requires Answers(after, thread, id, Mapped(predicted, n))
    ensures Points(before, after, thread, objects, isImport, n, id)
  {
    hide Numbers;
  }

  lemma AllPredicted(events: seq<AppendEvent>, next: nat)
    requires Sorted(events)
    ensures forall k | 0 <= k < |events| && Numbered(events[k]) :: events[k].sourceSeq in Predicted(events, next)
  {
  }

  /** No object has the number of an event that is not in the map. */
  lemma NoneNumbers(objects: seq<Object>, events: seq<AppendEvent>, isImport: bool, isAgent: bool, next: nat, n: int)
    requires |events| == |objects| && Sorted(events) && n !in Predicted(events, next)
    requires forall i | 0 <= i < |objects| :: Carries(objects[i], events[i], isImport, isAgent)
    ensures isImport ==> forall k | 0 <= k < |objects| :: !Numbers(objects[k], n)
  {
    AllPredicted(events, next);
    hide Carries, Numbers, Numbered, Sorted, Predicted;
    forall k | 0 <= k < |objects|
      ensures isImport ==> !Numbers(objects[k], n)
    {
      NumbersIff(objects[k], events[k], isImport, isAgent, n);
    }
  }

  lemma ZeroIff(events: seq<AppendEvent>, next: nat, n: int)
    requires Sorted(events) && next > 0
    ensures Mapped(Predicted(events, next), n) == 0 <==> n == 0
  {
    hide MessageCount;
  }

  // ----- the rows of a request

  /** The events of a request that went through, and where each is. */
  ghost predicate Done(before: Tables, after: Tables, clock: Clock, thread: nat, objects: seq<Object>,
                       events: seq<AppendEvent>, results: seq<AppendResult>, isImport: bool, isAgent: bool) {
    && Wf(before, clock) && Wf(after, clock) && |events| == |objects| == |results| && Sorted(events)
    && (forall i | 0 <= i < |objects| ::
          Carries(objects[i], events[i], isImport, isAgent) && ValidEvent(clock, events[i]))
    && forall i | 0 <= i < |events| ::
         Placed(before, after, clock, thread, Predicted(events, NextSeq(before, thread)), events, results, i)
  }

  /** What Placed says, without the map. */
  lemma EventPoints(before: Tables, after: Tables, clock: Clock, thread: nat, objects: seq<Object>,
                    events: seq<AppendEvent>, results: seq<AppendResult>, isImport: bool, isAgent: bool, i: nat)
    requires Done(before, after, clock, thread, objects, events, results, isImport, isAgent) && i < |objects|
    ensures MessageCount(events[..i]) == Messages(objects[..i])
    ensures
      var e, r := events[i], results[i];
      if IsMessage(e) then
        && 0 < r.messageId <= |after.messages|
        && Points(before, after, thread, objects, isImport, e.parentSeq, after.messages[r.messageId - 1].parent)
      else Points(before, after, thread, objects, isImport, e.messageSeq, r.messageId)
  {
    var e, r := events[i], results[i];
    assert Placed(before, after, clock, thread, Predicted(events, NextSeq(before, thread)), events, results, i);
    var n, id := if IsMessage(e) then e.parentSeq else e.messageSeq,
                 if IsMessage(e) then after.messages[r.messageId - 1].parent else r.messageId;
    assert ValidEvent(clock, e);
    ZeroIff(events, NextSeq(before, thread), n);
    SameCount(objects[..i], events[..i], isImport, isAgent);
    hide Wf, Carries, Predicted, Sorted, NextSeq, MessageCount, Messages, CountIn, Mapped, Points, Answers, ValidEvent;
    TargetPoints(before, after, clock, thread, objects, events, results, isImport, isAgent, n, id);
  }

  lemma MessageIsStored(before: Tables, after: Tables, clock: Clock, thread: nat, objects: seq<Object>,
                        events: seq<AppendEvent>, results: seq<AppendResult>, predicted: map<int, nat>, isImport: bool,
                        isAgent: bool, i: nat)
    requires i < |objects| == |events| == |results| && IsMessage(events[i])
    requires Placed(before, after, clock, thread, predicted, events, results, i)
    requires Carries(objects[i], events[i], isImport, isAgent) && MessageCount(events[..i]) == Messages(objects[..i])
    requires 0 < results[i].messageId <= |after.messages|
    requires Points(before, after, thread, objects, isImport, events[i].parentSeq,
                    after.messages[results[i].messageId - 1].parent)
    ensures MessageStored(before, after, clock, thread, objects, isImport, isAgent, i)
    ensures !Reacts(objects[i]) && Answered(before, after, objects, results, i)
  {
    hide MessageCount, Messages, CountIn, Points, Says, Counts, NamedBy, Signs, Target, Answers;
    assert Stamps(objects[i], clock, Stamp(clock, events[i].createdAt)) by {
      StampStamps(objects[i], clock, events[i].createdAt);
    }
  }

  lemma StampStamps(o: Object, clock: Clock, createdAt: string)
    requires Says(o, Timestamp, createdAt)
    ensures Stamps(o, clock, Stamp(clock, createdAt))
  {
  }

  lemma ReactionIsStored(before: Tables, after: Tables, clock: Clock, thread: nat, objects: seq<Object>,
                         events: seq<AppendEvent>, results: seq<AppendResult>, predicted: map<int, nat>, isImport: bool,
                         isAgent: bool, i: nat)
    requires i < |objects| == |events| == |results| && IsReaction(events[i]) && events[i].messageSeq > 0
    requires Placed(before, after, clock, thread, predicted, events, results, i)
    requires Carries(objects[i], events[i], isImport, isAgent) && MessageCount(events[..i]) == Messages(objects[..i])
    requires Points(before, after, thread, objects, isImport, events[i].messageSeq, results[i].messageId)
    ensures ReactionStored(before, after, clock, thread, objects, isImport, isAgent, i)
    ensures Reacts(objects[i]) && Answered(before, after, objects, results, i)
  {
    hide MessageCount, Messages, CountIn, Points, Says, Counts, NamedBy, Signs, Target, Answers;
    assert Stamps(objects[i], clock, Stamp(clock, events[i].createdAt)) by {
      StampStamps(objects[i], clock, events[i].createdAt);
    }
  }

  lemma ObjectStored(before: Tables, after: Tables, clock: Clock, thread: nat, objects: seq<Object>,
                     events: seq<AppendEvent>, results: seq<AppendResult>, isImport: bool, isAgent: bool, i: nat)
    requires Done(before, after, clock, thread, objects, events, results, isImport, isAgent) && i < |objects|
    ensures OneStored(before, after, clock, thread, objects, isImport, isAgent, results, i)
  {
    var predicted := Predicted(events, NextSeq(before, thread));
    assert Placed(before, after, clock, thread, predicted, events, results, i);
    assert Carries(objects[i], events[i], isImport, isAgent) && ValidEvent(clock, events[i]);
    assert IsMessage(events[i]) || (IsReaction(events[i]) && events[i].messageSeq > 0 && !IsMessage(events[i]));
    assert |objects| == |events| == |results|;
    hide Done, Wf, Predicted, NextSeq, Sorted, Placed, Carries, ValidEvent, IsMessage, IsReaction, ReactionStored, MessageStored,
         Answered, Reacts, MessageCount, Messages, Points;
    EventPoints(before, after, clock, thread, objects, events, results, isImport, isAgent, i);
    if IsMessage(events[i]) {
      MessageIsStored(before, after, clock, thread, objects, events, results, predicted, isImport, isAgent, i);
    } else {
      ReactionIsStored(before, after, clock, thread, objects, events, results, predicted, isImport, isAgent, i);
    }
  }

  /** A request that goes through is a batch. */
  lemma RequestIsBatch(db: Tables, clock: Clock, thread: nat, objects: seq<Object>, isImport: bool, isAgent: bool)
    requires Append(db, clock, thread, objects, isImport, isAgent).Ok?
    ensures Parsed(Map(objects, AsJson())).Ok?
    ensures
      var events := EventsOf(objects, isImport, isAgent);
      && Append(db, clock, thread, objects, isImport, isAgent) == AppendBatch(db, clock, thread, events)
      && forall i | 0 <= i < |events| :: ValidEvent(clock, events[i])
  {
    hide Parsed, AppendEvents, ValidEvent, Sorted;
  }

  lemma BatchIsDone(db: Tables, after: Tables, clock: Clock, thread: nat, objects: seq<Object>, events: seq<AppendEvent>,
                    results: seq<AppendResult>, isImport: bool, isAgent: bool)
    requires Wf(db, clock) && Sorted(events) && |events| == |objects|
    requires forall i | 0 <= i < |objects| :: Carries(objects[i], events[i], isImport, isAgent)
    requires forall i | 0 <= i < |events| :: ValidEvent(clock, events[i])
    requires AllPlaced(db, after, clock, thread, Predicted(events, NextSeq(db, thread)), events, results)
    ensures Done(db, after, clock, thread, objects, events, results, isImport, isAgent)
    ensures after.threads == db.threads && db.messages <= after.messages && db.reactions <= after.reactions
    ensures |after.messages| == |db.messages| + Messages(objects)
    ensures |after.reactions| == |db.reactions| + |objects| - Messages(objects)
  {
    SameCount(objects, events, isImport, isAgent);
    hide Wf, Carries, Predicted, NextSeq, MessageCount, Messages, CountIn, Placed, ValidEvent, Sorted;
  }

  /**
   What a request leaves, by the fields of its objects. Each message becomes the thread's
   next row with its own name, role, content and time, and answers the message with the
   seq it names, or none for 0; each reaction is to the message with the seq it names.
   Only in an import can those be seqs of the request itself, and then they are.
   */
  lemma RequestIsStored(db: Tables, clock: Clock, thread: nat, objects: seq<Object>, isImport: bool, isAgent: bool)
    requires Wf(db, clock) && GoodClock(clock) && Append(db, clock, thread, objects, isImport, isAgent).Ok?
    ensures
      var (after, results) := Append(db, clock, thread, objects, isImport, isAgent).value;
      Stored(db, after, clock, thread, objects, isImport, isAgent, results)
  {
    hide *;
    RequestIsBatch(db, clock, thread, objects, isImport, isAgent);
    EventsCarry(objects, isImport, isAgent);
    var (after, results) := Append(db, clock, thread, objects, isImport, isAgent).value;
    var events := EventsOf(objects, isImport, isAgent);
    BatchIsExact(db, clock, thread, events);
    BatchIsDone(db, after, clock, thread, objects, events, results, isImport, isAgent);
    DoneIsStored(db, after, clock, thread, objects, events, results, isImport, isAgent);
  }

  lemma DoneIsStored(before: Tables, after: Tables, clock: Clock, thread: nat, objects: seq<Object>,
                     events: seq<AppendEvent>, results: seq<AppendResult>, isImport: bool, isAgent: bool)
    requires Done(before, after, clock, thread, objects, events, results, isImport, isAgent)
    requires after.threads == before.threads && before.messages <= after.messages && before.reactions <= after.reactions
    requires |after.messages| == |before.messages| + Messages(objects)
    requires |after.reactions| == |before.reactions| + |objects| - Messages(objects)
    ensures Stored(before, after, clock, thread, objects, isImport, isAgent, results)
  {
    assert |results| == |objects|;
    hide Done, Messages, OneStored;
    forall i | 0 <= i < |objects|
      ensures OneStored(before, after, clock, thread, objects, isImport, isAgent, results, i)
    {
      ObjectStored(before, after, clock, thread, objects, events, results, isImport, isAgent, i);
    }
  }
}
