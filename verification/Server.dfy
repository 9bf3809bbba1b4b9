/** The batch endpoint of internal/apiserver/server.go and the import command that calls it, run on a database. */
module Server {
  import opened Wrappers
  import opened Store
  import opened ThreadLog
  import opened Jsonl
  import opened Seqs
  import opened Portable
  import Requests
  import opened Database

  /**
   appendThreadEvents. A request that is refused leaves the database as it was; one that
   goes through leaves what its objects say, on tables in order.
   */
  method AppendThreadEvents(db: Database, clock: Clock, thread: nat, objects: seq<Object>, isImport: bool, isAgent: bool)
    returns (r: Result<seq<AppendResult>>)
    modifies db
    ensures
      match Append(old(db.View()), clock, thread, objects, isImport, isAgent)
      case Ok(done) => r == Ok(done.1) && db.View() == done.0
      case Err(error) => r == Err(error) && db.View() == old(db.View())
    ensures r.Ok? && Wf(old(db.View()), clock) && GoodClock(clock) ==>
              Requests.Stored(old(db.View()), db.View(), clock, thread, objects, isImport, isAgent, r.value)
  {
    hide Parse, Parsed, ToEvent, Store.AppendBatch, Requests.Stored, Wf;
    ghost var before := db.View();
    if |objects| == 0 {
      return Err(Invalid);
    }
    if |objects| > MAX_BATCH_EVENTS {
      return Err(Invalid);
    }
    var events: seq<AppendEvent> := [];
    ghost var lines: seq<Line> := [];
    ghost var raws := Map(objects, AsJson());
    NothingParsed(raws[..0]);
    for i := 0 to |objects|
      invariant db.View() == old(db.View())
      invariant Parsed(raws[..i]) == Ok(lines)
      invariant events == Map(lines, EventOf(isImport, isAgent))
    {
      assert raws[..i + 1][..i] == raws[..i];
      ParsedNext(raws[..i + 1], objects[i]);
      var line := Parse(objects[i]);
      if line.Err? {
        ParsedPrefix(raws, i + 1);
        return Err(line.error);
      }
      events := events + [ToEvent(line.value, isImport, isAgent)];
      lines := lines + [line.value];
    }
    assert raws[..|raws|] == raws;
    r := db.AppendBatch(clock, thread, events);
    if Append(before, clock, thread, objects, isImport, isAgent).Ok? && Wf(before, clock) && GoodClock(clock) {
      Requests.RequestIsStored(before, clock, thread, objects, isImport, isAgent);
    }
  }

  /**
   The import command: it parses a file, sends its lines, and checks what comes back. On
   tables in order the check never fails.
   */
  method ThreadImport(db: Database, clock: Clock, thread: nat, file: seq<Raw>) returns (r: Result<seq<AppendResult>>)
    modifies db
    ensures
      match Import(old(db.View()), clock, thread, file)
      case Ok(done) =>
        && db.View() == done.0 && (r.Ok? ==> r == Ok(done.1))
        && (Wf(old(db.View()), clock) && GoodClock(clock) ==> r.Ok?)
      case Err(error) => r == Err(error) && db.View() == old(db.View())
  {
    hide Parsed, Append, Marshal, AppendBatch, Wf, ValidResults;
    ghost var before := db.View();
    var lines := ParseLines(file);
    if lines.Err? {
      return Err(lines.error);
    }
    var objects: seq<Object> := [];
    for i := 0 to |lines.value|
      invariant objects == Map(lines.value[..i], Marshalled())
    {
      objects := objects + [Marshal(lines.value[i])];
    }
    assert lines.value[..|lines.value|] == lines.value;
    r := AppendThreadEvents(db, clock, thread, objects, true, false);
    if r.Err? {
      return;
    }
    var events := Map(lines.value, EventOf(true, false));
    ImportIsBatch(before, clock, thread, lines.value, file);
    if Wf(before, clock) && GoodClock(clock) {
      BatchIsExact(before, clock, thread, events);
    }
    var ok := ValidateBatchResults(events, r.value);
    if !ok {
      return Err(Invalid);
    }
  }
}
