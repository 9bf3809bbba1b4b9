/**
 internal/store/store.go as it runs: one object holds the tables, a call changes them
 in place, and a transaction works on a copy that replaces them when it commits.
 */
module Database {
  import opened Wrappers
  import opened Store
  import opened ThreadLog
  import Names

  /** A failed prefix of a batch is a failed batch. */
  lemma {:induction false} FailureStays(db: Tables, clock: Clock, thread: nat, predicted: map<int, nat>,
                                        events: seq<AppendEvent>, i: nat)
    requires i <= |events| && AppendEvents(db, clock, thread, predicted, events[..i]).Err?
    ensures AppendEvents(db, clock, thread, predicted, events).Err?
    ensures AppendEvents(db, clock, thread, predicted, events).error ==
            AppendEvents(db, clock, thread, predicted, events[..i]).error
    decreases |events|
  {
    if i == |events| {
      assert events[..i] == events;
    } else {
      assert events[..|events| - 1][..i] == events[..i];
      FailureStays(db, clock, thread, predicted, events[..|events| - 1], i);
    }
  }

  /** The messages among the first i events. */
  function Before(events: seq<AppendEvent>, i: nat): nat
    requires i <= |events|
  {
    MessageCount(events[..i])
  }

  lemma CountNext(events: seq<AppendEvent>, i: nat)
    requires i < |events|
    ensures Before(events, i + 1) == Before(events, i) + if IsMessage(events[i]) then 1 else 0
  {
    assert events[..i + 1][..i] == events[..i];
  }

  /** The map as its loop builds it, after i events. */
  ghost predicate Maps(mapped: map<int, nat>, events: seq<AppendEvent>, next: nat, i: nat)
    requires i <= |events|
  {
    && (forall q | q in mapped :: exists j | 0 <= j < i :: Numbered(events[j]) && events[j].sourceSeq == q)
    && (forall j | 0 <= j < i && Numbered(events[j]) ::
          events[j].sourceSeq in mapped && mapped[events[j].sourceSeq] == next + Before(events, j))
  }

  lemma MapsNone(events: seq<AppendEvent>, next: nat)
    ensures Maps(map[], events, next, 0) && Ascends(events, 0, 0) && Before(events, 0) == 0
  {
  }

  lemma MapsAll(mapped: map<int, nat>, events: seq<AppendEvent>, next: nat)
    requires Sorted(events) && Maps(mapped, events, next, |events|)
    ensures mapped == Predicted(events, next)
  {
    hide Numbered, MessageCount;
    var predicted := Predicted(events, next);
    forall q: int
      ensures q in mapped <==> q in predicted
      ensures q in mapped ==> mapped[q] == predicted[q]
    {
      if q in mapped {
        var j :| 0 <= j < |events| && Numbered(events[j]) && events[j].sourceSeq == q;
        assert events[j].sourceSeq in predicted;
      }
    }
  }

  /** The first i events ascend, up to `last`. */
  ghost predicate Ascends(events: seq<AppendEvent>, i: nat, last: int)
    requires i <= |events|
  {
    && (forall j, k | 0 <= j < k < i && Numbered(events[j]) && Numbered(events[k]) ::
          events[j].sourceSeq < events[k].sourceSeq)
    && (forall j | 0 <= j < i && Numbered(events[j]) :: events[j].sourceSeq <= last)
    && (last == 0 || exists j | 0 <= j < i :: Numbered(events[j]) && events[j].sourceSeq == last)
  }

  lemma MapsNext(mapped: map<int, nat>, events: seq<AppendEvent>, next: nat, i: nat)
    requires i < |events| && Maps(mapped, events, next, i)
    ensures !Numbered(events[i]) ==> Maps(mapped, events, next, i + 1)
    ensures Numbered(events[i]) && events[i].sourceSeq !in mapped ==>
              Maps(mapped[events[i].sourceSeq := next + Before(events, i)], events, next, i + 1)
  {
    hide Before, Numbered;
  }

  /** Where the loop stops, the events do not ascend. */
  lemma StopsRightly(mapped: map<int, nat>, events: seq<AppendEvent>, next: nat, i: nat, last: int)
    requires i < |events| && Maps(mapped, events, next, i) && Ascends(events, i, last) && Numbered(events[i])
    requires events[i].sourceSeq in mapped || (events[i].sourceSeq < last && last != 0)
    ensures !Sorted(events)
  {
    hide Before, Numbered;
  }

  lemma AscendsNext(mapped: map<int, nat>, events: seq<AppendEvent>, next: nat, i: nat, last: int)
    requires i < |events| && Maps(mapped, events, next, i) && Ascends(events, i, last)
    requires Numbered(events[i]) ==> events[i].sourceSeq !in mapped && events[i].sourceSeq >= last
    ensures Numbered(events[i]) ==> Ascends(events, i + 1, events[i].sourceSeq)
    ensures !Numbered(events[i]) ==> Ascends(events, i + 1, last)
  {
    hide Before, Numbered;
    if Numbered(events[i]) {
      forall j | 0 <= j < i && Numbered(events[j])
        ensures events[j].sourceSeq < events[i].sourceSeq
      {
        assert events[j].sourceSeq in mapped;
      }
    }
  }

  /** buildSourceSequenceMap: it fails exactly where the source seqs do not strictly ascend. */
  method BuildSourceSequenceMap(events: seq<AppendEvent>, nextSeq: nat) returns (r: Result<map<int, nat>>)
    requires forall i | 0 <= i < |events| :: events[i].sourceSeq >= 0
    ensures r == if Sorted(events) then Ok(Predicted(events, nextSeq)) else Err(Invalid)
  {
    hide *;
    var mapped: map<int, nat> := map[];
    var next, last := nextSeq, 0;
    MapsNone(events, nextSeq);
    for i := 0 to |events|
      invariant next == nextSeq + Before(events, i)
      invariant Maps(mapped, events, nextSeq, i)
      invariant Ascends(events, i, last)
    {
      CountNext(events, i);
      MapsNext(mapped, events, nextSeq, i);
      if Numbered(events[i]) {
        if events[i].sourceSeq in mapped || events[i].sourceSeq < last {
          StopsRightly(mapped, events, nextSeq, i, last);
          return Err(Invalid);
        }
        AscendsNext(mapped, events, nextSeq, i, last);
        mapped := mapped[events[i].sourceSeq := next];
        last := events[i].sourceSeq;
      } else {
        AscendsNext(mapped, events, nextSeq, i, last);
      }
      if IsMessage(events[i]) {
        next := next + 1;
      }
    }
    AscendsIsSorted(events, last);
    MapsAll(mapped, events, nextSeq);
    return Ok(mapped);
  }

  lemma AscendsIsSorted(events: seq<AppendEvent>, last: int)
    requires Ascends(events, |events|, last)
    ensures Sorted(events)
  {
  }

  class Database {
    var threads: nat
    var messages: seq<Message>
    var reactions: seq<Reaction>

    function View(): Tables
      reads this
    {
      Tables(threads, messages, reactions)
    }

    constructor (threadCount: nat)
      ensures View() == Tables(threadCount, [], [])
    {
      threads, messages, reactions := threadCount, [], [];
    }

    /** BEGIN: a transaction sees the tables as they are. */
    constructor Begin(source: Database)
      ensures View() == source.View()
    {
      threads, messages, reactions := source.threads, source.messages, source.reactions;
    }

    /** COMMIT */
    method Commit(tx: Database)
      modifies this
      ensures View() == old(tx.View())
    {
      threads, messages, reactions := tx.threads, tx.messages, tx.reactions;
    }

    method AppendMessage(clock: Clock, thread: nat, name: string, authorType: string, role: string, content: string,
                         createdAt: string, parentId: int) returns (r: Result<(nat, nat)>)
      modifies this
      ensures
        var spec := Store.AppendMessage(old(View()), clock, thread, name, authorType, role, content, createdAt, parentId);
        match spec
        case Ok(a) => r == Ok((a.seqNo, a.id)) && View() == a.db
        case Err(e) => r == Err(e) && View() == old(View())
    {
      if !Names.Legal(name) {
        return Err(Invalid);
      }
      var seqNo := NextSeq(View(), thread);
      if parentId > 0 {
        if parentId > |messages| {
          return Err(NotFound);
        }
        if messages[parentId - 1].thread != thread {
          return Err(Invalid);
        }
      }
      if createdAt != "" && !clock.isTime(createdAt) {
        return Err(Invalid);
      }
      var inserted := InsertMessage(View(), thread, seqNo, parentId, name, authorType, role, content,
                                    Stamp(clock, createdAt));
      if inserted.Err? {
        return Err(inserted.error);
      }
      messages := inserted.value.messages;
      return Ok((seqNo, |messages|));
    }

    method AppendMessageByParentSeq(clock: Clock, thread: nat, parentSeq: int, name: string, authorType: string,
                                    role: string, content: string, createdAt: string) returns (r: Result<(nat, nat)>)
      modifies this
      ensures
        var spec := Store.AppendMessageByParentSeq(old(View()), clock, thread, parentSeq, name, authorType, role, content,
                                                   createdAt);
        match spec
        case Ok(a) => r == Ok((a.seqNo, a.id)) && View() == a.db
        case Err(e) => r == Err(e) && View() == old(View())
    {
      if parentSeq < 0 {
        return Err(Invalid);
      }
      var parentId := 0;
      if parentSeq > 0 {
        parentId := IdBySeq(messages, thread, parentSeq);
        if parentId == 0 {
          return Err(NotFound);
        }
      }
      r := AppendMessage(clock, thread, name, authorType, role, content, createdAt, parentId);
    }

    method AddReaction(clock: Clock, messageId: nat, emoji: string, name: string, authorType: string, createdAt: string)
      returns (r: Result<(nat, nat)>)
      modifies this
      ensures
        var spec := Store.AddReaction(old(View()), clock, messageId, emoji, name, authorType, createdAt);
        match spec
        case Ok(a) => r == Ok((a.message, a.id)) && View() == a.db
        case Err(e) => r == Err(e) && View() == old(View())
    {
      if !Names.Legal(name) {
        return Err(Invalid);
      }
      if createdAt != "" && !clock.isTime(createdAt) {
        return Err(Invalid);
      }
      var inserted := InsertReaction(View(), messageId, emoji, name, authorType, Stamp(clock, createdAt));
      if inserted.Err? {
        return Err(inserted.error);
      }
      reactions := inserted.value.reactions;
      return Ok((messageId, |reactions|));
    }

    method AddReactionBySeq(clock: Clock, thread: nat, messageSeq: int, emoji: string, name: string, authorType: string,
                            createdAt: string) returns (r: Result<(nat, nat)>)
      modifies this
      ensures
        var spec := Store.AddReactionBySeq(old(View()), clock, thread, messageSeq, emoji, name, authorType, createdAt);
        match spec
        case Ok(a) => r == Ok((a.message, a.id)) && View() == a.db
        case Err(e) => r == Err(e) && View() == old(View())
    {
      var messageId := IdBySeq(messages, thread, messageSeq);
      if messageId == 0 {
        return Err(NotFound);
      }
      r := AddReaction(clock, messageId, emoji, name, authorType, createdAt);
    }

    /** One event of a batch, inside its transaction. */
    method AppendOne(clock: Clock, thread: nat, sourceSeqs: map<int, nat>, e: AppendEvent) returns (r: Result<AppendResult>)
      requires IsMessage(e) || IsReaction(e)
      modifies this
      ensures
        match Store.AppendOne(old(View()), clock, thread, sourceSeqs, e)
        case Ok(done) => r == Ok(done.1) && View() == done.0
        case Err(error) => r == Err(error) && View() == old(View())
    {
      if IsMessage(e) {
        var parentSeq := e.parentSeq;
        if parentSeq in sourceSeqs {
          parentSeq := sourceSeqs[parentSeq];
        }
        var added := AppendMessageByParentSeq(clock, thread, parentSeq, e.name, e.authorType, e.role, e.content,
                                              e.createdAt);
        if added.Err? {
          return Err(added.error);
        }
        return Ok(AppendResult(e.sourceSeq, added.value.0, added.value.1, 0));
      } else {
        var messageSeq := e.messageSeq;
        if messageSeq in sourceSeqs {
          messageSeq := sourceSeqs[messageSeq];
        }
        var added := AddReactionBySeq(clock, thread, messageSeq, e.emoji, e.name, e.authorType, e.createdAt);
        if added.Err? {
          return Err(added.error);
        }
        return Ok(AppendResult(e.sourceSeq, 0, added.value.0, added.value.1));
      }
    }

    /**
     AppendBatch: all its events, or none. Where it succeeds, what BatchIsExact says of
     the results and the new tables holds; where it fails, the tables are untouched.
     */
    method AppendBatch(clock: Clock, thread: nat, events: seq<AppendEvent>) returns (r: Result<seq<AppendResult>>)
      modifies this
      ensures
        match Store.AppendBatch(old(View()), clock, thread, events)
        case Ok(done) => r == Ok(done.1) && View() == done.0
        case Err(error) => r == Err(error) && View() == old(View())
    {
      hide Store.AppendOne, AppendEvents, Sorted, Predicted, NextSeq;
      var tx := new Database.Begin(this);
      ghost var before := View();
      for i := 0 to |events|
        invariant forall j | 0 <= j < i :: ValidEvent(clock, events[j])
      {
        if !ValidEvent(clock, events[i]) {
          return Err(Invalid);
        }
      }
      var nextSeq := NextSeq(tx.View(), thread);
      var built := BuildSourceSequenceMap(events, nextSeq);
      if built.Err? {
        return Err(Invalid);
      }
      var sourceSeqs := built.value;
      var results: seq<AppendResult> := [];
      NextEvent(before, clock, thread, sourceSeqs, events, 0);
      for i := 0 to |events|
        invariant View() == before && fresh(tx)
        invariant AppendEvents(before, clock, thread, sourceSeqs, events[..i]) == Ok((tx.View(), results))
      {
        NextEvent(before, clock, thread, sourceSeqs, events, i);
        var result := tx.AppendOne(clock, thread, sourceSeqs, events[i]);
        if result.Err? {
          FailureStays(before, clock, thread, sourceSeqs, events, i + 1);
          return Err(result.error);
        }
        results := results + [result.value];
      }
      assert events[..|events|] == events;
      Commit(tx);
      return Ok(results);
    }
  }

  /** validateBatchResults, the client's check of the daemon's answer. */
  method ValidateBatchResults(events: seq<AppendEvent>, results: seq<AppendResult>) returns (ok: bool)
    ensures ok <==> ValidResults(events, results)
    ensures ok <==>
            && |results| == |events|
            && forall i | 0 <= i < |results| ::
                 && results[i].messageId > 0
                 && if IsReaction(events[i]) then results[i].reactionId > 0 else results[i].seqNo > 0
  {
    if |results| != |events| {
      return false;
    }
    for i := 0 to |results|
      invariant ValidResults(events[..i], results[..i])
    {
      if results[i].messageId == 0 {
        return false;
      }
      if IsReaction(events[i]) {
        if results[i].reactionId == 0 {
          return false;
        }
        continue;
      }
      if results[i].seqNo == 0 {
        return false;
      }
    }
    return true;
  }
}
