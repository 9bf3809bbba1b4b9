/**
 internal/jsonl/jsonl.go at the level of fields: a JSON object is a map from keys to
 values, and what encoding/json does with the struct tags is written out.
 */
module Jsonl {
  import opened Wrappers
  import opened Text

  datatype Key =
    | Type | Seq | ParentSeq | MessageSeq | Role | Name | AuthorType | Content | Emoji | Timestamp | Metadata
    | Author
    | Unknown(text: string)

  /** `Other` is a boolean, an array or a number that is no 64-bit integer, which no field takes. */
  datatype Value = Null | Number(n: int) | Text(s: string) | Members(members: map<string, string>) | Other

  type Object = map<Key, Value>

  /** `metadata` is None for a nil map; its values are their JSON text. */
  datatype Line = Line(
    kind: string, seqNo: int, parentSeq: int, messageSeq: int, role: string, name: string, authorType: string,
    content: string, emoji: string, timestamp: string, metadata: Option<map<string, string>>)

  // ----- writing

  /** A field tagged omitempty. */
  function OmitText(s: string): Option<Value> {
    if s == "" then None else Some(Text(s))
  }

  function OmitNumber(n: int): Option<Value> {
    if n == 0 then None else Some(Number(n))
  }

  function OmitMembers(members: Option<map<string, string>>): Option<Value> {
    if members.None? || members.value == map[] then None else Some(Members(members.value))
  }

  /** What a field is written as, if it is written. */
  function Written(l: Line, key: Key): Option<Value> {
    match key
    case Type => OmitText(l.kind)
    case Seq => OmitNumber(l.seqNo)
    case ParentSeq => OmitNumber(l.parentSeq)
    case MessageSeq => OmitNumber(l.messageSeq)
    case Role => OmitText(l.role)
    case Name => Some(Text(l.name))
    case AuthorType => OmitText(l.authorType)
    case Content => OmitText(l.content)
    case Emoji => OmitText(l.emoji)
    case Timestamp => Some(Text(l.timestamp))
    case Metadata => OmitMembers(l.metadata)
    case Author => None
    case Unknown(_) => None
  }

  const FIELDS: set<Key> :=
    {Type, Seq, ParentSeq, MessageSeq, Role, Name, AuthorType, Content, Emoji, Timestamp, Metadata}

  /** MarshalLine */
  function Marshal(l: Line): Object {
    map key | key in FIELDS && Written(l, key).Some? :: Written(l, key).value
  }

  // ----- reading

  function GetText(o: Object, key: Key): Result<string> {
    if key !in o || o[key].Null? then Ok("")
    else if o[key].Text? then Ok(o[key].s)
    else Err(Invalid)
  }

  function GetNumber(o: Object, key: Key): Result<int> {
    if key !in o || o[key].Null? then Ok(0)
    else if o[key].Number? then Ok(o[key].n)
    else Err(Invalid)
  }

  function GetMembers(o: Object, key: Key): Result<Option<map<string, string>>> {
    if key !in o || o[key].Null? then Ok(None)
    else if o[key].Members? then Ok(Some(o[key].members))
    else Err(Invalid)
  }

  function Normalize(l: Line): Result<Line> {
    var kind := if l.kind == "" then "message" else l.kind;
    if kind == "message" && (l.role == "" || l.content == "") then Err(Invalid)
    else if kind == "reaction" && (l.messageSeq <= 0 || Blank(l.emoji)) then Err(Invalid)
    else if kind != "message" && kind != "reaction" then Err(Invalid)
    else if Blank(l.name) then Err(Invalid)
    else
      Ok(l.(kind := kind,
            metadata := if l.metadata.None? then Some(map[]) else l.metadata,
            authorType := if l.authorType == "" then "human" else l.authorType))
  }

  /** ParseLine, of a line that is a JSON object. */
  function Parse(o: Object): Result<Line> {
    var kind :- GetText(o, Type);
    var seqNo :- GetNumber(o, Seq);
    var parentSeq :- GetNumber(o, ParentSeq);
    var messageSeq :- GetNumber(o, MessageSeq);
    var role :- GetText(o, Role);
    var name :- GetText(o, Name);
    var authorType :- GetText(o, AuthorType);
    var content :- GetText(o, Content);
    var emoji :- GetText(o, Emoji);
    var timestamp :- GetText(o, Timestamp);
    var metadata :- GetMembers(o, Metadata);
    var author :- GetText(o, Author);
    Normalize(Line(kind, seqNo, parentSeq, messageSeq, role, if name == "" then author else name, authorType, content,
                   emoji, timestamp, metadata))
  }

  // ----- what comes back

  /** A line that reads back as itself: what Normalize refuses or fills in is there already. */
  predicate Normal(l: Line) {
    && (l.kind == "message" || l.kind == "reaction")
    && (l.kind == "message" ==> l.role != "" && l.content != "")
    && (l.kind == "reaction" ==> l.messageSeq > 0 && !Blank(l.emoji))
    && !Blank(l.name) && l.authorType != "" && l.metadata.Some?
  }

  /** Normalize reaches a fixed point at once, and the normal lines are the fixed points. */
  lemma NormalizeSettles(l: Line)
    ensures Normalize(l) == Ok(l) <==> Normal(l)
    ensures Normalize(l).Ok? ==> Normal(Normalize(l).value) && Normalize(Normalize(l).value) == Normalize(l)
  {
  }

  /** What a key of a marshalled line holds. */
  lemma MarshalledFields(l: Line)
    ensures
      var o := Marshal(l);
      && GetText(o, Type) == Ok(l.kind) && GetNumber(o, Seq) == Ok(l.seqNo) && GetNumber(o, ParentSeq) == Ok(l.parentSeq)
      && GetNumber(o, MessageSeq) == Ok(l.messageSeq) && GetText(o, Role) == Ok(l.role) && GetText(o, Name) == Ok(l.name)
      && GetText(o, AuthorType) == Ok(l.authorType) && GetText(o, Content) == Ok(l.content)
      && GetText(o, Emoji) == Ok(l.emoji) && GetText(o, Timestamp) == Ok(l.timestamp)
      && GetMembers(o, Metadata) == (if l.metadata == Some(map[]) then Ok(None) else Ok(l.metadata))
      && GetText(o, Author) == Ok("")
  {
  }

  /** Writing a line and reading it back is normalizing it: no field is lost to omitempty, or moved to another. */
  lemma ParseMarshal(l: Line)
    ensures Parse(Marshal(l)) == Normalize(l)
  {
    MarshalledFields(l);
    hide Marshal, GetText, GetNumber, GetMembers;
  }

  /** `author` stands in for a name that is missing, null or empty. */
  lemma AuthorStandsIn(o: Object, author: string)
    requires GetText(o, Author) == Ok(author) && GetText(o, Name) == Ok("")
    ensures Parse(o) == Parse(o[Name := Text(author)])
  {
    hide Normalize, GetText, GetNumber, GetMembers;
    SameElsewhere(o, o[Name := Text(author)], Name);
    TextPut(o, Name, author);
  }

  /** Beside any other name it is ignored. */
  lemma AuthorIsIgnored(o: Object, author: string)
    requires GetText(o, Author).Ok? && GetText(o, Name) != Ok("")
    ensures Parse(o[Author := Text(author)]) == Parse(o)
  {
    hide Normalize, GetText, GetNumber, GetMembers;
    SameElsewhere(o, o[Author := Text(author)], Author);
    TextPut(o, Author, author);
  }

  lemma TextPut(o: Object, key: Key, s: string)
    ensures GetText(o[key := Text(s)], key) == Ok(s)
  {
  }

  /** Objects that differ in one key read the same elsewhere. */
  lemma SameElsewhere(o: Object, p: Object, key: Key)
    requires forall k | k != key :: (k in o <==> k in p) && (k in o ==> o[k] == p[k])
    ensures forall k | k != key :: GetText(p, k) == GetText(o, k) && GetNumber(p, k) == GetNumber(o, k)
    ensures forall k | k != key :: GetMembers(p, k) == GetMembers(o, k)
  {
  }

  // ----- files

  /** A line of a file: empty, a JSON object, or anything else. */
  datatype Raw = Empty | Json(fields: Object) | Junk

  /** All the lines of a file, without its empty ones, or nothing. */
  function Parsed(data: seq<Raw>): Result<seq<Line>> {
    if data == [] then Ok([])
    else
      var earlier :- Parsed(data[..|data| - 1]);
      match data[|data| - 1]
      case Empty => Ok(earlier)
      case Junk => Err(Invalid)
      case Json(fields) =>
        var l :- Parse(fields);
        Ok(earlier + [l])
  }

  lemma {:induction false} ParsedPrefix(data: seq<Raw>, i: nat)
    requires i <= |data| && Parsed(data[..i]).Err?
    ensures Parsed(data) == Parsed(data[..i])
    decreases |data|
  {
    if i == |data| {
      assert data[..i] == data;
    } else {
      assert data[..|data| - 1][..i] == data[..i];
      ParsedPrefix(data[..|data| - 1], i);
    }
  }

  method ParseLines(data: seq<Raw>) returns (r: Result<seq<Line>>)
    ensures r == Parsed(data)
  {
    var out: seq<Line> := [];
    for i := 0 to |data|
      invariant Parsed(data[..i]) == Ok(out)
    {
      assert data[..i + 1][..i] == data[..i];
      match data[i]
      case Empty =>
      case Junk =>
        ParsedPrefix(data, i + 1);
        return Err(Invalid);
      case Json(fields) =>
        var l := Parse(fields);
        if l.Err? {
          ParsedPrefix(data, i + 1);
          return Err(l.error);
        }
        out := out + [l.value];
    }
    assert data[..|data|] == data;
    return Ok(out);
  }

  method EncodeLines(lines: seq<Line>) returns (data: seq<Raw>)
    ensures |data| == |lines|
    ensures forall i | 0 <= i < |lines| :: data[i] == Json(Marshal(lines[i]))
  {
    data := [];
    for i := 0 to |lines|
      invariant |data| == i
      invariant forall j | 0 <= j < i :: data[j] == Json(Marshal(lines[j]))
    {
      data := data + [Json(Marshal(lines[i]))];
    }
  }

  /** An empty line anywhere in a file makes no difference. */
  lemma {:induction false} EmptyLinesAreSkipped(data: seq<Raw>, later: seq<Raw>)
    ensures Parsed(data + [Empty] + later) == Parsed(data + later)
    decreases |later|
  {
    hide Parse;
    if later == [] {
      assert data + [Empty] + later == data + [Empty] && data + later == data;
      assert (data + [Empty])[..|data|] == data;
      hide *;
      ParsedEmpty(data);
    } else {
      var n := |later| - 1;
      EmptyLinesAreSkipped(data, later[..n]);
      assert (data + [Empty] + later)[..|data| + 1 + n] == data + [Empty] + later[..n];
      assert (data + later)[..|data| + n] == data + later[..n];
    }
  }

  lemma ParsedEmpty(data: seq<Raw>)
    ensures Parsed(data + [Empty]) == Parsed(data)
  {
    assert (data + [Empty])[..|data|] == data;
    hide Parse;
  }

  /** Whatever parses is normal. */
  lemma {:induction false} ParsedAreNormal(data: seq<Raw>)
    ensures Parsed(data).Ok? ==> forall l | l in Parsed(data).value :: Normal(l)
    decreases |data|
  {
    if data != [] {
      hide Normal;
      ParsedAreNormal(data[..|data| - 1]);
      match data[|data| - 1]
      case Json(fields) =>
      case _ =>
    }
  }

  /** What a file of marshalled lines parses to: the lines, if and only if every one is normal. */
  lemma {:induction false} FileRoundTrip(lines: seq<Line>, data: seq<Raw>)
    requires |data| == |lines| && forall i | 0 <= i < |lines| :: data[i] == Json(Marshal(lines[i]))
    ensures Parsed(data) == Ok(lines) <==> forall l | l in lines :: Normal(l)
    ensures Parsed(data).Ok? ==> |Parsed(data).value| == |lines|
    decreases |lines|
  {
    hide *;
    if lines == [] {
      NothingParsed(data);
    } else {
      var n := |lines| - 1;
      FileRoundTrip(lines[..n], data[..n]);
      ParsedNext(data, Marshal(lines[n]));
      ParseMarshal(lines[n]);
      NormalizeSettles(lines[n]);
      assert lines == lines[..n] + [lines[n]];
    }
  }

  lemma NothingParsed(data: seq<Raw>)
    requires data == []
    ensures Parsed(data) == Ok([])
  {
  }

  /** How parsing goes on by one object. */
  lemma ParsedNext(data: seq<Raw>, fields: Object)
    requires data != [] && data[|data| - 1] == Json(fields)
    ensures
      var earlier, l := Parsed(data[..|data| - 1]), Parse(fields);
      Parsed(data) ==
      if earlier.Err? then earlier else if l.Err? then Err(l.error) else Ok(earlier.value + [l.value])
  {
    hide Parse;
  }
}
