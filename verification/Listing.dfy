/** internal/store/store.go: reading a thread, whole, from its end, or from a cursor. */
module Listing {
  import opened Store
  import opened ThreadLog
  import opened Ordering
  import Names

  // ----- queries

  /** The ids of a thread's messages, in table order. */
  function InThread(messages: seq<Message>, thread: nat): seq<nat> {
    if messages == [] then []
    else
      var n := |messages| - 1;
      InThread(messages[..n], thread) + if messages[n].thread == thread then [n + 1] else []
  }

  function SeqOf(messages: seq<Message>, id: nat): nat {
    if 1 <= id <= |messages| then messages[id - 1].seqNo else 0
  }

  function BySeq(messages: seq<Message>): (nat, nat) -> bool {
    (a: nat, b: nat) => SeqOf(messages, a) <= SeqOf(messages, b)
  }

  function BySeqDescending(messages: seq<Message>): (nat, nat) -> bool {
    (a: nat, b: nat) => SeqOf(messages, a) >= SeqOf(messages, b)
  }

  /** ListMessages: the ids of the rows it returns, all of them or the last `lastN`. */
  function ListMessages(db: Tables, thread: nat, lastN: int): seq<nat> {
    var ids := InThread(db.messages, thread);
    if lastN > 0 then
      var newest := SortBy(ids, BySeqDescending(db.messages));
      SortBy(newest[..if lastN <= |newest| then lastN else |newest|], BySeq(db.messages))
    else SortBy(ids, BySeq(db.messages))
  }

  function After(messages: seq<Message>, ids: seq<nat>, afterSeq: int): seq<nat> {
    if ids == [] then []
    else
      var n := |ids| - 1;
      After(messages, ids[..n], afterSeq) + if SeqOf(messages, ids[n]) > afterSeq then [ids[n]] else []
  }

  /** ListMessagesAfter */
  function ListMessagesAfter(db: Tables, thread: nat, afterSeq: int): seq<nat> {
    SortBy(After(db.messages, InThread(db.messages, thread), afterSeq), BySeq(db.messages))
  }

  /** The ids of the reactions to a thread's messages, in table order. */
  function ReactionsIn(messages: seq<Message>, reactions: seq<Reaction>, thread: nat): seq<nat> {
    if reactions == [] then []
    else
      var n := |reactions| - 1;
      var m := reactions[n].message;
      ReactionsIn(messages, reactions[..n], thread)
      + if 1 <= m <= |messages| && messages[m - 1].thread == thread then [n + 1] else []
  }

  /** What ListReactions orders by: the message's seq, then the timestamp, then the id. */
  datatype SortKey = SortKey(seqNo: nat, createdAt: string, id: nat)

  function KeyOf(db: Tables, id: nat): SortKey {
    if 1 <= id <= |db.reactions|
    then SortKey(SeqOf(db.messages, db.reactions[id - 1].message), db.reactions[id - 1].createdAt, id)
    else SortKey(0, "", id)
  }

  predicate KeyLe(a: SortKey, b: SortKey) {
    || a.seqNo < b.seqNo
    || (a.seqNo == b.seqNo && if a.createdAt != b.createdAt then TextLe(a.createdAt, b.createdAt) else a.id <= b.id)
  }

  function ByKey(db: Tables): (nat, nat) -> bool {
    (a: nat, b: nat) => KeyLe(KeyOf(db, a), KeyOf(db, b))
  }

  function ListReactions(db: Tables, thread: nat): seq<nat> {
    SortBy(ReactionsIn(db.messages, db.reactions, thread), ByKey(db))
  }

  // ----- a thread in table order is in seq order

  /** The k-th message of a thread has seq k + 1. */
  lemma {:induction false} ThreadInOrder(db: Tables, clock: Clock, thread: nat, n: nat)
    requires Wf(db, clock) && n <= |db.messages|
    ensures InOrder(db, thread, n)
    decreases n
  {
    if n > 0 {
      assert db.messages[..n][..n - 1] == db.messages[..n - 1];
      ThreadInOrder(db, clock, thread, n - 1);
      assert MessageOk(db, clock, n - 1);
      hide Wf, Names.Legal;
    }
  }

  /** The first n messages hold the thread's in order, the k-th with seq k + 1. */
  ghost predicate InOrder(db: Tables, thread: nat, n: nat)
    requires n <= |db.messages|
  {
    var ids := InThread(db.messages[..n], thread);
    && |ids| == CountIn(db.messages[..n], thread)
    && (forall k | 0 <= k < |ids| ::
          1 <= ids[k] <= n && db.messages[ids[k] - 1].thread == thread && db.messages[ids[k] - 1].seqNo == k + 1)
    && (forall i, j | 0 <= i < j < |ids| :: ids[i] < ids[j])
  }

  lemma WholeThread(db: Tables, clock: Clock, thread: nat)
    requires Wf(db, clock)
    ensures
      var ids := InThread(db.messages, thread);
      && |ids| == CountIn(db.messages, thread)
      && (forall k | 0 <= k < |ids| ::
            1 <= ids[k] <= |db.messages| && db.messages[ids[k] - 1].thread == thread && SeqOf(db.messages, ids[k]) == k + 1)
      && (forall i, j | 0 <= i < j < |ids| :: ids[i] < ids[j])
  {
    ThreadInOrder(db, clock, thread, |db.messages|);
    assert db.messages[..|db.messages|] == db.messages;
  }

  lemma {:induction false} InThreadGrows(messages: seq<Message>, more: seq<Message>, thread: nat)
    requires messages <= more
    ensures InThread(messages, thread) <= InThread(more, thread)
    decreases |more|
  {
    if |messages| < |more| {
      InThreadGrows(messages, more[..|more| - 1], thread);
    } else {
      assert messages == more;
    }
  }

  lemma {:induction false} InThreadHas(messages: seq<Message>, thread: nat, id: nat)
    ensures id in InThread(messages, thread) <==> 1 <= id <= |messages| && messages[id - 1].thread == thread
    decreases |messages|
  {
    if messages != [] {
      InThreadHas(messages[..|messages| - 1], thread, id);
    }
  }

  lemma InThreadAppend(messages: seq<Message>, m: Message, thread: nat)
    ensures InThread(messages + [m], thread) ==
            InThread(messages, thread) + if m.thread == thread then [|messages| + 1] else []
  {
    assert (messages + [m])[..|messages|] == messages;
  }

  /** All of a thread is the thread. */
  lemma ListIsThread(db: Tables, clock: Clock, thread: nat)
    requires Wf(db, clock)
    ensures ListMessages(db, thread, 0) == InThread(db.messages, thread)
  {
    WholeThread(db, clock, thread);
    SortOfAscending(InThread(db.messages, thread), BySeq(db.messages));
  }

  function Reversed<T>(xs: seq<T>): (r: seq<T>)
    ensures |r| == |xs|
  {
    if xs == [] then [] else [xs[|xs| - 1]] + Reversed(xs[..|xs| - 1])
  }

  lemma {:induction false} ReversedAt<T>(xs: seq<T>, i: nat)
    requires i < |xs|
    ensures Reversed(xs)[i] == xs[|xs| - 1 - i]
    decreases |xs|
  {
    if i > 0 {
      ReversedAt(xs[..|xs| - 1], i - 1);
    }
  }

  lemma {:induction false} InsertFirst<T>(xs: seq<T>, x: T, le: (T, T) -> bool)
    requires forall y | y in xs :: !le(y, x)
    ensures Insert(xs, x, le) == [x] + xs
    decreases |xs|
  {
    if xs != [] {
      InsertFirst(xs[..|xs| - 1], x, le);
      assert [x] + xs == [x] + xs[..|xs| - 1] + [xs[|xs| - 1]];
    }
  }

  lemma LastGoesFirst<T>(xs: seq<T>, le: (T, T) -> bool)
    requires xs != [] && forall i, j | 0 <= i < j < |xs| :: !le(xs[i], xs[j])
    ensures
      var n := |xs| - 1;
      Insert(Reversed(xs[..n]), xs[n], le) == [xs[n]] + Reversed(xs[..n])
  {
    hide Insert, Reversed;
    var n := |xs| - 1;
    forall y | y in Reversed(xs[..n])
      ensures !le(y, xs[n])
    {
      var i :| 0 <= i < n && Reversed(xs[..n])[i] == y;
      ReversedAt(xs[..n], i);
      assert y == xs[n - 1 - i];
    }
    InsertFirst(Reversed(xs[..n]), xs[n], le);
  }

  /** Sorting what is strictly out of order turns it round. */
  lemma {:induction false} SortReverses<T>(xs: seq<T>, le: (T, T) -> bool)
    requires forall i, j | 0 <= i < j < |xs| :: !le(xs[i], xs[j])
    ensures SortBy(xs, le) == Reversed(xs)
    decreases |xs|
  {
    if xs != [] {
      hide Insert;
      SortReverses(xs[..|xs| - 1], le);
      LastGoesFirst(xs, le);
    }
  }

  lemma {:induction false} ReversedCons<T>(x: T, xs: seq<T>)
    ensures Reversed([x] + xs) == Reversed(xs) + [x]
    decreases |xs|
  {
    if xs != [] {
      var n := |xs| - 1;
      assert ([x] + xs)[..n + 1] == [x] + xs[..n];
      ReversedCons(x, xs[..n]);
    }
  }

  /** The n that come last, taken newest first and turned round, are the suffix. */
  lemma {:induction false} SuffixByReversal<T>(ids: seq<T>, n: nat)
    requires n <= |ids|
    ensures Reversed(Reversed(ids)[..n]) == ids[|ids| - n..]
    decreases n
  {
    if n > 0 {
      var last, init := ids[|ids| - 1], ids[..|ids| - 1];
      assert Reversed(ids)[..n] == [last] + Reversed(init)[..n - 1];
      ReversedCons(last, Reversed(init)[..n - 1]);
      SuffixByReversal(init, n - 1);
    }
  }

  /** The last N of a thread, in order, for every N: its suffix of that length, or all of it. */
  lemma LastNIsSuffix(db: Tables, clock: Clock, thread: nat, lastN: int)
    requires Wf(db, clock) && lastN > 0
    ensures
      var ids := InThread(db.messages, thread);
      ListMessages(db, thread, lastN) == ids[if lastN <= |ids| then |ids| - lastN else 0..]
  {
    hide Reversed, SortBy, InThread, Wf;
    var ids := InThread(db.messages, thread);
    var n := if lastN <= |ids| then lastN else |ids|;
    WholeThread(db, clock, thread);
    hide SeqOf;
    SortReverses(ids, BySeqDescending(db.messages));
    NewestFirst(db.messages, ids, n);
    SortReverses(Reversed(ids)[..n], BySeq(db.messages));
    SuffixByReversal(ids, n);
  }

  lemma NewestFirst(messages: seq<Message>, ids: seq<nat>, n: nat)
    requires n <= |ids| && forall k | 0 <= k < |ids| :: SeqOf(messages, ids[k]) == k + 1
    ensures forall i, j | 0 <= i < j < n :: !BySeq(messages)(Reversed(ids)[..n][i], Reversed(ids)[..n][j])
  {
    hide Reversed, SeqOf;
    forall i, j | 0 <= i < j < n
      ensures !BySeq(messages)(Reversed(ids)[..n][i], Reversed(ids)[..n][j])
    {
      ReversedAt(ids, i);
      ReversedAt(ids, j);
    }
  }

  lemma {:induction false} AfterIsDrop(messages: seq<Message>, ids: seq<nat>, n: nat, afterSeq: nat)
    requires n <= |ids| && forall k | 0 <= k < |ids| :: SeqOf(messages, ids[k]) == k + 1
    ensures After(messages, ids[..n], afterSeq) == if afterSeq <= n then ids[afterSeq..n] else []
    decreases n
  {
    if n > 0 {
      hide SeqOf;
      assert ids[..n][..n - 1] == ids[..n - 1];
      AfterIsDrop(messages, ids, n - 1, afterSeq);
    }
  }

  /** What follows a cursor is the thread without its first messages, as many as the cursor says. */
  lemma ListAfterIsDrop(db: Tables, clock: Clock, thread: nat, afterSeq: nat)
    requires Wf(db, clock)
    ensures
      var ids := InThread(db.messages, thread);
      ListMessagesAfter(db, thread, afterSeq) == if afterSeq <= |ids| then ids[afterSeq..] else []
  {
    hide Wf, InThread, After, SeqOf, CountIn, SortBy;
    var ids := InThread(db.messages, thread);
    WholeThread(db, clock, thread);
    AfterIsDrop(db.messages, ids, |ids|, afterSeq);
    assert ids[..|ids|] == ids;
    SortOfAscending(After(db.messages, ids, afterSeq), BySeq(db.messages));
  }

  // ----- reading by cursor while others append

  /** A reader of one thread: the seq it has read up to, and the ids it was given. */
  datatype Reader = Reader(cursor: nat, seen: seq<nat>)

  datatype Act = Write(op: Op) | Poll

  datatype World = World(db: Tables, reader: Reader)

  function Step(w: World, clock: Clock, thread: nat, act: Act): World {
    match act
    case Write(op) => w.(db := Do(w.db, clock, op))
    case Poll =>
      var ids := ListMessagesAfter(w.db, thread, w.reader.cursor);
      if ids == [] then w
      else w.(reader := Reader(SeqOf(w.db.messages, ids[|ids| - 1]), w.reader.seen + ids))
  }

  function Steps(w: World, clock: Clock, thread: nat, acts: seq<Act>): World {
    if acts == [] then w else Step(Steps(w, clock, thread, acts[..|acts| - 1]), clock, thread, acts[|acts| - 1])
  }

  /** The reader has been given the thread up to its cursor, each message once and in order. */
  predicate UpToDate(w: World, clock: Clock, thread: nat) {
    && Wf(w.db, clock)
    && w.reader.cursor <= |InThread(w.db.messages, thread)|
    && w.reader.seen == InThread(w.db.messages, thread)[..w.reader.cursor]
  }

  lemma WriteKeepsReader(w: World, clock: Clock, thread: nat, op: Op)
    requires UpToDate(w, clock, thread) && GoodClock(clock)
    ensures UpToDate(Step(w, clock, thread, Write(op)), clock, thread)
  {
    DoKeepsWf(w.db, clock, op);
    hide Wf, Do, InThread;
    InThreadGrows(w.db.messages, Do(w.db, clock, op).messages, thread);
  }

  lemma PollKeepsReader(w: World, clock: Clock, thread: nat)
    requires UpToDate(w, clock, thread)
    ensures UpToDate(Step(w, clock, thread, Poll), clock, thread)
    ensures Step(w, clock, thread, Poll).reader.seen == InThread(w.db.messages, thread)
  {
    hide Wf, InThread, ListMessagesAfter, SeqOf, CountIn;
    ListAfterIsDrop(w.db, clock, thread, w.reader.cursor);
    WholeThread(w.db, clock, thread);
  }

  lemma StepKeepsReader(w: World, clock: Clock, thread: nat, act: Act)
    requires UpToDate(w, clock, thread) && GoodClock(clock)
    ensures UpToDate(Step(w, clock, thread, act), clock, thread)
    ensures act.Poll? ==> Step(w, clock, thread, act).reader.seen == InThread(w.db.messages, thread)
  {
    assert act.Poll? ==> Step(w, clock, thread, act).db == w.db by {
      hide ListMessagesAfter;
    }
    hide *;
    match act
    case Write(op) => WriteKeepsReader(w, clock, thread, op);
    case Poll => PollKeepsReader(w, clock, thread);
  }

  /**
   However appends of any kind and polls alternate, what a reader has been given is
   the thread up to its cursor, without loss or repetition, and right after a poll it
   is the whole thread.
   */
  lemma {:induction false} CursorReads(db: Tables, clock: Clock, thread: nat, acts: seq<Act>)
    requires Wf(db, clock) && GoodClock(clock)
    ensures
      var w := Steps(World(db, Reader(0, [])), clock, thread, acts);
      && UpToDate(w, clock, thread)
      && (acts != [] && acts[|acts| - 1].Poll? ==> w.reader.seen == InThread(w.db.messages, thread))
    decreases |acts|
  {
    if acts != [] {
      var n := |acts| - 1;
      CursorReads(db, clock, thread, acts[..n]);
      StepKeepsReader(Steps(World(db, Reader(0, [])), clock, thread, acts[..n]), clock, thread, acts[n]);
    }
  }

  // ----- reactions in order

  lemma KeysAreOrdered(db: Tables)
    ensures TotalOrder(ByKey(db))
  {
    var le := ByKey(db);
    forall a, b
      ensures le(a, b) || le(b, a)
    {
      TextLeTotal(KeyOf(db, a).createdAt, KeyOf(db, b).createdAt);
    }
    forall a, b, c | le(a, b) && le(b, c)
      ensures le(a, c)
    {
      KeyLeTransitive(KeyOf(db, a), KeyOf(db, b), KeyOf(db, c));
    }
  }

  lemma KeyLeTransitive(a: SortKey, b: SortKey, c: SortKey)
    requires KeyLe(a, b) && KeyLe(b, c)
    ensures KeyLe(a, c)
  {
    if a.seqNo == b.seqNo == c.seqNo {
      if TextLe(a.createdAt, b.createdAt) && TextLe(b.createdAt, c.createdAt) {
        TextLeTransitive(a.createdAt, b.createdAt, c.createdAt);
      }
      TextLeTotal(a.createdAt, b.createdAt);
      TextLeTotal(b.createdAt, c.createdAt);
    }
  }

  /** Reaction `id` is to a message of the thread. */
  predicate ReactsIn(messages: seq<Message>, reactions: seq<Reaction>, thread: nat, id: nat) {
    && 1 <= id <= |reactions| && 1 <= reactions[id - 1].message <= |messages|
    && messages[reactions[id - 1].message - 1].thread == thread
  }

  lemma {:induction false} ReactionsInHas(messages: seq<Message>, reactions: seq<Reaction>, thread: nat, id: nat)
    ensures id in ReactionsIn(messages, reactions, thread) <==> ReactsIn(messages, reactions, thread, id)
    decreases |reactions|
  {
    if reactions != [] {
      ReactionsInHas(messages, reactions[..|reactions| - 1], thread, id);
    }
  }

  lemma {:induction false} ReactionIdAt(messages: seq<Message>, reactions: seq<Reaction>, thread: nat, k: nat)
    requires k < |ReactionsIn(messages, reactions, thread)|
    ensures ReactsIn(messages, reactions, thread, ReactionsIn(messages, reactions, thread)[k])
    decreases |reactions|
  {
    var n := |reactions| - 1;
    if k < |ReactionsIn(messages, reactions[..n], thread)| {
      ReactionIdAt(messages, reactions[..n], thread, k);
    }
  }

  lemma {:induction false} ReactionIdsAscend(messages: seq<Message>, reactions: seq<Reaction>, thread: nat, i: nat, j: nat)
    requires i < j < |ReactionsIn(messages, reactions, thread)|
    ensures ReactionsIn(messages, reactions, thread)[i] < ReactionsIn(messages, reactions, thread)[j]
    decreases |reactions|
  {
    var n := |reactions| - 1;
    if j < |ReactionsIn(messages, reactions[..n], thread)| {
      ReactionIdsAscend(messages, reactions[..n], thread, i, j);
    } else {
      ReactionIdAt(messages, reactions[..n], thread, i);
    }
  }

  lemma NoRepeats(xs: seq<nat>, ys: seq<nat>)
    requires multiset(xs) == multiset(ys) && forall i, j | 0 <= i < j < |xs| :: xs[i] < xs[j]
    ensures forall i, j | 0 <= i < j < |ys| :: ys[i] != ys[j]
  {
    forall i, j | 0 <= i < j < |ys|
      ensures ys[i] != ys[j]
    {
      if ys[i] == ys[j] {
        var v := ys[i];
        assert ys == ys[..i] + [v] + ys[i + 1..j] + [v] + ys[j + 1..];
        assert multiset(ys)[v] >= 2;
        OnceEach(xs, v);
      }
    }
  }

  lemma {:induction false} OnceEach(xs: seq<nat>, v: nat)
    requires forall i, j | 0 <= i < j < |xs| :: xs[i] < xs[j]
    ensures multiset(xs)[v] <= 1
    decreases |xs|
  {
    if xs != [] {
      var n := |xs| - 1;
      OnceEach(xs[..n], v);
      assert xs == xs[..n] + [xs[n]];
      if xs[n] == v {
        assert v !in xs[..n];
      }
    }
  }

  /** The listing of a thread's reactions: each once, in the order it promises. */
  lemma ReactionsListed(db: Tables, thread: nat)
    ensures
      var ids := ListReactions(db, thread);
      && (forall k | 0 <= k < |ids| :: ReactsIn(db.messages, db.reactions, thread, ids[k]))
      && Ascending(ids, ByKey(db))
      && (forall i, j | 0 <= i < j < |ids| :: ids[i] != ids[j])
      && multiset(ids) == multiset(ReactionsIn(db.messages, db.reactions, thread))
  {
    hide ReactsIn, ReactionsIn, ByKey;
    var table, ids := ReactionsIn(db.messages, db.reactions, thread), ListReactions(db, thread);
    KeysAreOrdered(db);
    SortSorts(table, ByKey(db));
    SortElements(table, ByKey(db));
    forall i, j | 0 <= i < j < |table|
      ensures table[i] < table[j]
    {
      ReactionIdsAscend(db.messages, db.reactions, thread, i, j);
    }
    NoRepeats(table, ids);
    forall k | 0 <= k < |ids|
      ensures ReactsIn(db.messages, db.reactions, thread, ids[k])
    {
      assert ids[k] in multiset(ids) && ids[k] in table;
      var i :| 0 <= i < |table| && table[i] == ids[k];
      ReactionIdAt(db.messages, db.reactions, thread, i);
    }
  }

  /** A thread's reactions are listed, and no others. */
  lemma ListReactionsHas(db: Tables, thread: nat, id: nat)
    ensures id in ListReactions(db, thread) <==> ReactsIn(db.messages, db.reactions, thread, id)
  {
    hide ReactsIn, ReactionsIn, ByKey, SortBy;
    var table, ids := ReactionsIn(db.messages, db.reactions, thread), ListReactions(db, thread);
    SortElements(table, ByKey(db));
    assert id in ids <==> id in multiset(ids);
    assert id in table <==> id in multiset(table);
    ReactionsInHas(db.messages, db.reactions, thread, id);
  }

  /** Text a sorts before text b by bytes: it is the start of b, or smaller at the first byte where they differ. */
  ghost predicate Before(a: string, b: string) {
    || (|a| < |b| && b[..|a|] == a)
    || exists k | 0 <= k < |a| && k < |b| :: a[..k] == b[..k] && a[k] < b[k]
  }

  lemma {:induction false} LessIsBefore(a: string, b: string)
    requires TextLe(a, b) && a != b
    ensures Before(a, b)
    decreases |a|
  {
    if a != "" && a[0] == b[0] {
      assert a == [a[0]] + a[1..] && b == [b[0]] + b[1..];
      LessIsBefore(a[1..], b[1..]);
      if k :| 0 <= k < |a[1..]| && k < |b[1..]| && a[1..][..k] == b[1..][..k] && a[1..][k] < b[1..][k] {
        assert a[..k + 1] == [a[0]] + a[1..][..k] && b[..k + 1] == [b[0]] + b[1..][..k];
        assert a[k + 1] < b[k + 1];
      } else {
        assert b[..|a|] == [b[0]] + b[1..][..|a| - 1];
      }
    } else if a != "" {
      assert a[..0] == b[..0] && a[0] < b[0];
    }
  }

  /**
   Of two reactions of a listing the one to the earlier message comes first; of two to
   one message, the older; else the one stored first.
   */
  lemma ReactionsInOrder(db: Tables, thread: nat, i: nat, j: nat)
    requires i < j < |ListReactions(db, thread)|
    ensures
      var x, y := ListReactions(db, thread)[i], ListReactions(db, thread)[j];
      && 1 <= x <= |db.reactions| && 1 <= y <= |db.reactions|
      && var a, b := db.reactions[x - 1], db.reactions[y - 1];
         var m, n := SeqOf(db.messages, a.message), SeqOf(db.messages, b.message);
         || m < n
         || (m == n && Before(a.createdAt, b.createdAt))
         || (m == n && a.createdAt == b.createdAt && x < y)
  {
    var ids := ListReactions(db, thread);
    ReactionsListed(db, thread);
    hide ListReactions, TextLe, Before;
    assert ReactsIn(db.messages, db.reactions, thread, ids[i]) && ReactsIn(db.messages, db.reactions, thread, ids[j]);
    assert KeyLe(KeyOf(db, ids[i]), KeyOf(db, ids[j]));
    hide SeqOf;
    var a, b := db.reactions[ids[i] - 1].createdAt, db.reactions[ids[j] - 1].createdAt;
    if TextLe(a, b) && a != b {
      LessIsBefore(a, b);
    }
  }
}
