/** internal/mentions: the leading run of @names in a message, and the request after it. */
module Mentions {
  import opened Names
  import opened Text

  // ----- scanName

  /** How many bytes of `s` from `pos` on belong to the name run that started at 0. */
  function NameRun(s: string, pos: nat := 0): (end: nat)
    requires pos <= |s|
    ensures pos <= end <= |s|
    ensures forall i | pos <= i < end :: IsNameByte(s[i], i)
    ensures end < |s| ==> !IsNameByte(s[end], end)
    decreases |s| - pos
  {
    if pos < |s| && IsNameByte(s[pos], pos) then NameRun(s, pos + 1) else pos
  }

  /** The width scanName reports: 0 unless a whole name token starts `s`. */
  function TokenWidth(s: string): nat {
    var end := NameRun(s);
    if end > MAX_NAME || (end < |s| && IsNameContinuation(s[end])) then 0 else end
  }

  method ScanName(s: string) returns (token: string, width: nat)
    ensures width == TokenWidth(s) <= |s|
    ensures token == s[..width]
  {
    var end := 0;
    while end < |s| && IsNameByte(s[end], end)
      invariant end <= |s|
      invariant NameRun(s) == NameRun(s, end)
    {
      end := end + 1;
    }
    if end > MAX_NAME {
      return "", 0;
    }
    if end < |s| && IsNameContinuation(s[end]) {
      return "", 0;
    }
    return s[..end], end;
  }

  // ----- Parse

  /** strings.TrimLeft(s, " \t\n\r") */
  function SkipBlanks(s: string): (r: string)
    ensures |r| <= |s|
    ensures r != "" ==> r[0] !in " \t\n\r"
  {
    if s != "" && s[0] in " \t\n\r" then SkipBlanks(s[1..]) else s
  }

  /** strings.TrimRight(s, ".") */
  function TrimDots(s: string): (r: string)
    ensures r <= s
    ensures r != "" ==> r[|r| - 1] != '.'
  {
    if s != "" && s[|s| - 1] == '.' then TrimDots(s[..|s| - 1]) else s
  }

  predicate OpensWithMention(s: string) {
    s != "" && s[0] == '@' && TokenWidth(s[1..]) > 0
  }

  /** The names found so far, with one more unless it is empty or known. */
  function Note(found: seq<string>, name: string): seq<string> {
    if name != "" && name !in found then found + [name] else found
  }

  /** The names still to be found at the front of `rest` after `found`, and what is left. */
  function Leading(rest: string, found: seq<string>): (r: (seq<string>, string))
    ensures |r.1| <= |rest|
    decreases |rest|
  {
    var trimmed := SkipBlanks(rest);
    if !OpensWithMention(trimmed) then (found, rest)
    else
      var width := TokenWidth(trimmed[1..]);
      var name := TrimDots(trimmed[1..1 + width]);
      Leading(trimmed[1 + width..], Note(found, name))
  }

  lemma {:induction false} LeadingStep(rest: string, found: seq<string>)
    ensures
      var trimmed := SkipBlanks(rest);
      Leading(rest, found) ==
      if OpensWithMention(trimmed) then
        var width := TokenWidth(trimmed[1..]);
        Leading(trimmed[1 + width..], Note(found, TrimDots(trimmed[1..1 + width])))
      else (found, rest)
  {
  }

  function Mentioned(content: string): (seq<string>, string) {
    var (found, rest) := Leading(content, []);
    if found == [] then ([], "") else (found, TrimSpace(rest))
  }

  method Parse(content: string) returns (found: seq<string>, request: string)
    ensures (found, request) == Mentioned(content)
  {
    hide Leading, NameRun, TokenWidth, SkipBlanks, TrimDots, TrimSpace;
    var rest := content;
    var seen: set<string> := {};
    found := [];
    while true
      invariant forall name :: name in seen <==> name in found
      invariant Leading(content, []) == Leading(rest, found)
      decreases |rest|
    {
      LeadingStep(rest, found);
      var trimmed := SkipBlanks(rest);
      if trimmed == "" || trimmed[0] != '@' {
        break;
      }
      var token, width := ScanName(trimmed[1..]);
      if width == 0 {
        break;
      }
      assert token == trimmed[1..1 + width];
      var name := TrimDots(token);
      if name != "" && name !in seen {
        seen := seen + {name};
        found := found + [name];
      }
      rest := trimmed[1 + width..];
    }
    if |found| == 0 {
      return [], "";
    }
    return found, TrimSpace(rest);
  }

  // ----- the scanner and the rule agree

  predicate Distinct(names: seq<string>) {
    forall i, j | 0 <= i < j < |names| :: names[i] != names[j]
  }

  lemma {:induction false} DotsOnly(s: string)
    requires TrimDots(s) == ""
    ensures forall i | 0 <= i < |s| :: s[i] == '.'
    decreases |s|
  {
    if s != "" {
      DotsOnly(s[..|s| - 1]);
    }
  }

  /** A token without its trailing dots is a name the rule accepts. */
  lemma TokenIsLegal(s: string)
    requires TokenWidth(s) > 0
    ensures Legal(TrimDots(s[..TokenWidth(s)]))
  {
    var token := s[..TokenWidth(s)];
    assert IsNameByte(s[0], 0) && token[0] == s[0];
    var name := TrimDots(token);
    if name == "" {
      DotsOnly(token);
    }
    assert name != "" && forall i | 0 <= i < |name| :: name[i] == token[i] == s[i] && IsNameByte(s[i], i);
    assert IsNameByte(s[|name| - 1], |name| - 1);
  }

  lemma {:induction false} LeadingIsSound(rest: string, found: seq<string>)
    requires Distinct(found) && forall name | name in found :: Legal(name)
    ensures Distinct(Leading(rest, found).0)
    ensures forall name | name in Leading(rest, found).0 :: Legal(name)
    decreases |rest|
  {
    hide NameRun, TrimDots, SkipBlanks, IsNameByte, IsNameContinuation, Legal;
    var trimmed := SkipBlanks(rest);
    if OpensWithMention(trimmed) {
      var width := TokenWidth(trimmed[1..]);
      var name := TrimDots(trimmed[1..1 + width]);
      assert trimmed[1..1 + width] == trimmed[1..][..width];
      TokenIsLegal(trimmed[1..]);
      LeadingIsSound(trimmed[1 + width..], Note(found, name));
    }
  }

  /** Every name Parse returns obeys the name rule, and none is returned twice. */
  lemma MentionedAreLegal(content: string)
    ensures Distinct(Mentioned(content).0)
    ensures forall name | name in Mentioned(content).0 :: Legal(name)
  {
    LeadingIsSound(content, []);
  }

  lemma {:induction false} LeadingGrows(rest: string, found: seq<string>)
    ensures |found| <= |Leading(rest, found).0|
    decreases |rest|
  {
    var trimmed := SkipBlanks(rest);
    if OpensWithMention(trimmed) {
      var width := TokenWidth(trimmed[1..]);
      LeadingGrows(trimmed[1 + width..], Note(found, TrimDots(trimmed[1..1 + width])));
    }
  }

  /** Nothing is parsed exactly when the text, past its blanks, opens with no mention. */
  lemma {:induction false} MentionedNothingIff(content: string)
    ensures Mentioned(content).0 == [] <==> !OpensWithMention(SkipBlanks(content))
  {
    var trimmed := SkipBlanks(content);
    if OpensWithMention(trimmed) {
      var width := TokenWidth(trimmed[1..]);
      assert trimmed[1..1 + width] == trimmed[1..][..width];
      TokenIsLegal(trimmed[1..]);
      LeadingGrows(trimmed[1 + width..], Note([], TrimDots(trimmed[1..1 + width])));
    }
  }

  // ----- round trip

  /** Each name written as a mention and a space, then the request. */
  function Compose(names: seq<string>, request: string): string {
    if names == [] then request else "@" + names[0] + " " + Compose(names[1..], request)
  }

  lemma NameRunIs(s: string, pos: nat, end: nat)
    requires pos <= end <= |s|
    requires forall i | pos <= i < end :: IsNameByte(s[i], i)
    requires end < |s| ==> !IsNameByte(s[end], end)
    ensures NameRun(s, pos) == end
    decreases end - pos
  {
  }

  /** A legal name followed by a byte that is no part of any name scans as itself. */
  lemma NameScansAsItself(name: string, after: string)
    requires Legal(name)
    requires after != "" ==> !IsNameByte(after[0], |name|) && !IsNameContinuation(after[0])
    ensures TokenWidth(name + after) == |name|
    ensures TrimDots(name) == name
  {
    var s := name + after;
    NameRunIs(s, 0, |name|);
  }

  lemma SkipOneBlank(s: string)
    ensures SkipBlanks(" " + s) == SkipBlanks(s)
    ensures s != "" && s[0] == '@' ==> SkipBlanks(s) == s
  {
    assert (" " + s)[1..] == s;
  }

  /** Text that opens with a mention, read with a blank before it and without. */
  lemma ReadsMention(text: string, found: seq<string>)
    requires OpensWithMention(text)
    ensures
      var width := TokenWidth(text[1..]);
      && Leading(text, found) == Leading(text[1 + width..], Note(found, TrimDots(text[1..1 + width])))
      && Leading(" " + text, found) == Leading(text, found)
  {
    hide Leading, NameRun, TokenWidth, TrimDots, SkipBlanks, Note;
    SkipOneBlank(text);
    LeadingStep(text, found);
    LeadingStep(" " + text, found);
  }

  /** Reading "@name" and going on after it. */
  lemma {:induction false} FirstMention(name: string, after: string, found: seq<string>)
    requires Legal(name)
    requires after != "" ==> !IsNameByte(after[0], |name|) && !IsNameContinuation(after[0])
    ensures Leading("@" + (name + after), found) == Leading(" " + ("@" + (name + after)), found)
    ensures Leading("@" + (name + after), found) == Leading(after, Note(found, name))
  {
    assert name != "";
    hide Leading, NameRun, TokenWidth, TrimDots, Note, Legal, IsNameByte, IsNameContinuation;
    var text := "@" + (name + after);
    NameScansAsItself(name, after);
    assert text[1..] == name + after;
    assert text[1..1 + |name|] == name;
    assert text[1 + |name|..] == after;
    ReadsMention(text, found);
  }

  lemma {:induction false} NextOfCompose(names: seq<string>, request: string, found: seq<string>)
    requires names != [] && Legal(names[0]) && names[0] !in found
    ensures
      Leading(" " + Compose(names, request), found) == Leading(Compose(names, request), found) ==
      Leading(" " + Compose(names[1..], request), found + [names[0]])
  {
    var after := " " + Compose(names[1..], request);
    assert Compose(names, request) == "@" + (names[0] + after);
    FirstMention(names[0], after, found);
  }

  lemma {:induction false} LeadingOfCompose(names: seq<string>, request: string, found: seq<string>)
    requires Distinct(names)
    requires forall name | name in names :: Legal(name) && name !in found
    ensures Leading(" " + Compose(names, request), found) == Leading(" " + request, found + names)
    decreases |names|
  {
    hide Leading;
    if names == [] {
      assert found + names == found;
    } else {
      NextOfCompose(names, request, found);
      forall other | other in names[1..]
        ensures Legal(other) && other !in found + [names[0]]
      {
        assert other in names;
      }
      LeadingOfCompose(names[1..], request, found + [names[0]]);
      assert (found + [names[0]]) + names[1..] == found + names;
    }
  }

  /** Reading a request that opens with a mention always consumes some of it. */
  lemma LeadingConsumes(request: string, found: seq<string>)
    requires OpensWithMention(request)
    ensures |Leading(" " + request, found).1| < |request|
  {
    SkipOneBlank(request);
    assert SkipBlanks(request) == request;
  }

  /**
   Names and a trimmed request, written as mentions and text, parse back to
   themselves exactly when the request does not itself open with a mention.
   */
  lemma {:induction false} MentionRoundTrip(names: seq<string>, request: string)
    requires names != [] && Distinct(names)
    requires forall name | name in names :: Legal(name)
    requires TrimSpace(request) == request
    ensures Mentioned(Compose(names, request)) == (names, request) <==> !OpensWithMention(request)
  {
    assert [] + names == names;
    LeadingOfCompose(names, request, []);
    NextOfCompose(names, request, []);
    if OpensWithMention(request) {
      LeadingConsumes(request, names);
    } else {
      PlainRequest(request, names);
    }
  }

  lemma {:induction false} PlainRequest(request: string, found: seq<string>)
    requires TrimSpace(request) == request && !OpensWithMention(request)
    ensures Leading(" " + request, found) == (found, " " + request)
    ensures TrimSpace(" " + request) == request
  {
    SkipOneBlank(request);
    assert SkipBlanks(request) == request;
    LeadingStep(" " + request, found);
    assert (" " + request)[1..] == request;
    assert TrimLeft(" " + request) == TrimLeft(request) == request;
  }

  /** A request that does open with a mention is not preserved: it is read as one more name. */
  lemma RoundTripNeedsItsCondition()
    ensures Mentioned(Compose(["al"], "@bo hi")) != (["al"], "@bo hi")
  {
    var request := "@bo hi";
    BoOpens();
    assert LeadingSpace(request) == 0 && TrailingSpace(request) == 0;
    assert ["al"][0] == "al" && Legal("al");
    hide TrimSpace, Legal, OpensWithMention, Mentioned, Compose;
    MentionRoundTrip(["al"], request);
  }

  lemma BoOpens()
    ensures OpensWithMention("@bo hi")
  {
    assert "@bo hi"[1..] == "bo" + " hi";
    NameScansAsItself("bo", " hi");
  }

  // ----- what is no mention

  /** A run of name bytes that is too long is none either. */
  lemma LongNameIsProse(name: string, rest: string)
    requires |name| > MAX_NAME && IsLetter(name[0]) && forall i | 0 <= i < |name| :: IsLetter(name[i]) || name[i] == '.'
    requires rest != "" ==> !IsNameByte(rest[0], |name|)
    ensures Mentioned("@" + (name + rest)) == ([], "")
  {
    var text, s := "@" + (name + rest), name + rest;
    assert text[1..] == s;
    NameRunIs(s, 0, |name|);
    assert SkipBlanks(text) == text;
    LeadingStep(text, []);
    hide Leading, NameRun;
  }

  /** A run of name bytes that is not too long is a token. */
  lemma TokenScans(token: string, after: string)
    requires 0 < |token| <= MAX_NAME && forall i | 0 <= i < |token| :: IsNameByte(token[i], i)
    requires after != "" ==> !IsNameByte(after[0], |token|) && !IsNameContinuation(after[0])
    ensures TokenWidth(token + after) == |token|
  {
    NameRunIs(token + after, 0, |token|);
    hide NameRun;
  }

  /** The dots that end a sentence are no part of the name before them. */
  lemma LastDotsAreDropped(name: string, dots: string, after: string, found: seq<string>)
    requires Legal(name) && |name| + |dots| <= MAX_NAME && forall i | 0 <= i < |dots| :: dots[i] == '.'
    requires after != "" ==> !IsNameByte(after[0], |name| + |dots|) && !IsNameContinuation(after[0])
    ensures Leading("@" + (name + dots + after), found) == Leading(after, Note(found, name))
  {
    assert name != "" && IsNameByte(name[0], 0);
    forall i | 0 <= i < |name + dots|
      ensures IsNameByte((name + dots)[i], i)
    {
      if i < |name| {
        assert IsLetter(name[i]) || name[i] == '.';
      }
    }
    hide *;
    TokenScans(name + dots, after);
    DotsTrim(name, dots);
    ReadsToken("@" + (name + dots + after), name + dots, after, found);
  }

  lemma ReadsToken(text: string, token: string, after: string, found: seq<string>)
    requires text == "@" + (token + after) && TokenWidth(token + after) == |token| > 0
    ensures Leading(text, found) == Leading(after, Note(found, TrimDots(token)))
  {
    assert text[1..] == token + after;
    assert OpensWithMention(text);
    hide *;
    assert text[1..1 + |token|] == token && text[1 + |token|..] == after;
    ReadsMention(text, found);
  }

  lemma {:induction false} DotsTrim(name: string, dots: string)
    requires Legal(name) && forall i | 0 <= i < |dots| :: dots[i] == '.'
    ensures TrimDots(name + dots) == name
    decreases |dots|
  {
    if dots == "" {
      assert name + dots == name;
    } else {
      var n := |dots| - 1;
      assert (name + dots)[..|name| + n] == name + dots[..n];
      DotsTrim(name, dots[..n]);
    }
  }

  /** A name that goes on in letters, digits, dashes or underscores is none: such a text is all request. */
  lemma LooserNameIsProse(name: string, c: char, rest: string)
    requires name != "" && IsLetter(name[0]) && forall i | 0 <= i < |name| :: IsLetter(name[i]) || name[i] == '.'
    requires c in "0123456789-_"
    ensures Mentioned("@" + (name + ([c] + rest))) == ([], "")
  {
    var text, s := "@" + (name + ([c] + rest)), name + ([c] + rest);
    assert text[1..] == s;
    NameRunIs(s, 0, |name|);
    assert s[|name|] == c;
    assert SkipBlanks(text) == text;
    LeadingStep(text, []);
    hide Leading, NameRun;
  }

  /** Blanks, tabs and line ends before a mention, or before the request, do not matter. */
  lemma {:induction false} BlanksDoNotMatter(blanks: string, s: string, found: seq<string>)
    requires forall i | 0 <= i < |blanks| :: blanks[i] in " \t\n\r"
    ensures SkipBlanks(blanks + s) == SkipBlanks(s)
    ensures OpensWithMention(SkipBlanks(s)) ==> Leading(blanks + s, found) == Leading(s, found)
    decreases |blanks|
  {
    if blanks == "" {
      assert blanks + s == s;
    } else {
      assert (blanks + s)[1..] == blanks[1..] + s;
      BlanksDoNotMatter(blanks[1..], s, found);
      LeadingStep(blanks + s, found);
      LeadingStep(s, found);
      hide Leading, NameRun, TokenWidth, TrimDots, Note;
    }
  }

  /** Nor is any other character skipped. */
  lemma OnlyBlanksAreSkipped(c: char, s: string)
    requires c !in " \t\n\r"
    ensures SkipBlanks([c] + s) == [c] + s
  {
  }
}
