/**
 Go strings and the few library operations the modelled code applies to them.
 A Go string is a sequence of bytes; here it is a Dafny `string` holding one
 char per byte, so lengths, indices and byte comparisons are Go's own.
 */
module Text {

  /** The concatenation of `parts`, as a Go strings.Builder leaves it. */
  function Flatten(parts: seq<string>): string {
    if parts == [] then "" else Flatten(parts[..|parts| - 1]) + parts[|parts| - 1]
  }

  lemma FlattenNext(parts: seq<string>, i: nat)
    requires i < |parts|
    ensures Flatten(parts[..i + 1]) == Flatten(parts[..i]) + parts[i]
  {
    assert parts[..i + 1][..i] == parts[..i];
  }

  // unicode.IsSpace, by the length of the rune's UTF-8 encoding.

  predicate IsSpace1(a: char) {
    '\t' <= a <= '\r' || a == ' '
  }

  predicate IsSpace2(a: char, b: char) {
    // U+0085, U+00A0
    a as int == 0xC2 && (b as int == 0x85 || b as int == 0xA0)
  }

  predicate IsSpace3(a: char, b: char, c: char) {
    // U+1680; U+2000..U+200A, U+2028, U+2029, U+202F; U+205F; U+3000
    || (a as int == 0xE1 && b as int == 0x9A && c as int == 0x80)
    || (a as int == 0xE2 && b as int == 0x80
        && (0x80 <= c as int <= 0x8A || c as int in {0xA8, 0xA9, 0xAF}))
    || (a as int == 0xE2 && b as int == 0x81 && c as int == 0x9F)
    || (a as int == 0xE3 && b as int == 0x80 && c as int == 0x80)
  }

  /** The width of the white-space rune `s` starts with, 0 if it starts with none. */
  function LeadingSpace(s: string): (w: nat)
    ensures w <= |s|
  {
    if |s| >= 1 && IsSpace1(s[0]) then 1
    else if |s| >= 2 && IsSpace2(s[0], s[1]) then 2
    else if |s| >= 3 && IsSpace3(s[0], s[1], s[2]) then 3
    else 0
  }

  /** The width of the white-space rune `s` ends with, 0 if it ends with none. */
  function TrailingSpace(s: string): (w: nat)
    ensures w <= |s|
  {
    var n := |s|;
    if n >= 1 && IsSpace1(s[n - 1]) then 1
    else if n >= 2 && IsSpace2(s[n - 2], s[n - 1]) then 2
    else if n >= 3 && IsSpace3(s[n - 3], s[n - 2], s[n - 1]) then 3
    else 0
  }

  function TrimLeft(s: string): (r: string)
    ensures |r| <= |s|
    ensures LeadingSpace(r) == 0
  {
    var w := LeadingSpace(s);
    if w == 0 then s else TrimLeft(s[w..])
  }

  function TrimRight(s: string): (r: string)
    ensures |r| <= |s|
    ensures TrailingSpace(r) == 0
  {
    var w := TrailingSpace(s);
    if w == 0 then s else TrimRight(s[..|s| - w])
  }

  /** strings.TrimSpace */
  function TrimSpace(s: string): (r: string)
    ensures |r| <= |s|
  {
    TrimRight(TrimLeft(s))
  }

  predicate Blank(s: string) {
    TrimSpace(s) == ""
  }

  /** What SQLite's trim() leaves: it strips spaces only. */
  predicate SqlBlank(s: string) {
    forall i | 0 <= i < |s| :: s[i] == ' '
  }

  /** The database refuses no more text than TrimSpace calls blank. */
  lemma {:induction false} SqlBlankIsBlank(s: string)
    requires SqlBlank(s)
    ensures Blank(s)
    decreases |s|
  {
    if s != "" {
      SqlBlankIsBlank(s[1..]);
    }
  }

  /** ... but it admits text that TrimSpace calls blank: a tab, a newline. */
  lemma BlankNotSqlBlank()
    ensures Blank("\t") && !SqlBlank("\t")
  {
    assert TrimLeft("\t") == TrimLeft("\t"[1..]) == "";
    assert "\t"[0] != ' ';
  }

  // ----- what TrimSpace strips

  /** The UTF-8 encoding of one rune, section 3 of RFC 3629. */
  function Encode(r: char): (bytes: string)
    ensures r as int < 0x80 ==> bytes == [r]
    ensures r as int >= 0x80 ==> bytes != "" && forall i | 0 <= i < |bytes| :: 0x80 <= bytes[i] as int < 0x100
  {
    var n := r as int;
    if n < 0x80 then [r]
    else if n < 0x800 then [(0xC0 + n / 0x40) as char, (0x80 + n % 0x40) as char]
    else if n < 0x10000 then
      [(0xE0 + n / 0x1000) as char, (0x80 + n / 0x40 % 0x40) as char, (0x80 + n % 0x40) as char]
    else
      [(0xF0 + n / 0x40000) as char, (0x80 + n / 0x1000 % 0x40) as char,
       (0x80 + n / 0x40 % 0x40) as char, (0x80 + n % 0x40) as char]
  }

  /** The runes unicode.IsSpace is true of. */
  predicate White(r: char) {
    var n := r as int;
    n in {0x09, 0x0A, 0x0B, 0x0C, 0x0D, 0x20, 0x85, 0xA0, 0x1680, 0x2028, 0x2029, 0x202F, 0x205F, 0x3000} || 0x2000 <= n <= 0x200A
  }

  predicate AllWhite(runes: string) {
    forall i | 0 <= i < |runes| :: White(runes[i])
  }

  function EncodeAll(runes: string): string {
    if runes == "" then "" else Encode(runes[0]) + EncodeAll(runes[1..])
  }

  lemma ThreeBytes(a: char, b: char, c: char) returns (r: char)
    requires IsSpace3(a, b, c)
    ensures White(r) && Encode(r) == [a, b, c]
  {
    var n := (a as int - 0xE0) * 0x1000 + (b as int - 0x80) * 0x40 + (c as int - 0x80);
    assert n in {0x1680, 0x2028, 0x2029, 0x202F, 0x205F, 0x3000} || 0x2000 <= n <= 0x200A;
    r := n as char;
  }

  /** What LeadingSpace finds is a white-space rune. */
  lemma LeadingIsWhite(s: string) returns (r: char)
    requires LeadingSpace(s) > 0
    ensures White(r) && Encode(r) == s[..LeadingSpace(s)]
  {
    var w := LeadingSpace(s);
    if w == 1 {
      r := s[0];
    } else if w == 2 {
      r := s[1];
    } else {
      r := ThreeBytes(s[0], s[1], s[2]);
      hide Encode, White;
    }
  }

  lemma TrailingIsWhite(s: string) returns (r: char)
    requires TrailingSpace(s) > 0
    ensures White(r) && Encode(r) == s[|s| - TrailingSpace(s)..]
  {
    var w, n := TrailingSpace(s), |s|;
    if w == 1 {
      r := s[n - 1];
    } else if w == 2 {
      r := s[n - 1];
    } else {
      r := ThreeBytes(s[n - 3], s[n - 2], s[n - 1]);
      hide Encode, White;
    }
  }

  /** And every white-space rune is found. */
  lemma WhiteIsSpace(r: char, s: string)
    requires White(r)
    ensures LeadingSpace(Encode(r) + s) == |Encode(r)| > 0
    ensures TrailingSpace(s + Encode(r)) == |Encode(r)|
  {
  }

  lemma {:induction false} EncodeConcat(a: string, b: string)
    ensures EncodeAll(a + b) == EncodeAll(a) + EncodeAll(b)
    decreases |a|
  {
    if a == "" {
      assert a + b == b;
    } else {
      assert (a + b)[1..] == a[1..] + b;
      EncodeConcat(a[1..], b);
    }
  }

  lemma EncodeOne(r: char)
    ensures EncodeAll([r]) == Encode(r)
  {
    assert [r][1..] == "";
  }

  lemma OneMoreLeft(s: string, w: nat, r: char, runes: string, t: string)
    requires w <= |s| && Encode(r) == s[..w] && s[w..] == EncodeAll(runes) + t
    ensures s == EncodeAll([r] + runes) + t
  {
    EncodeOne(r);
    EncodeConcat([r], runes);
    hide Encode, EncodeAll;
    assert s == s[..w] + s[w..];
  }

  lemma OneMoreRight(s: string, w: nat, r: char, runes: string, t: string)
    requires w <= |s| && Encode(r) == s[|s| - w..] && s[..|s| - w] == t + EncodeAll(runes)
    ensures s == t + EncodeAll(runes + [r])
  {
    EncodeOne(r);
    EncodeConcat(runes, [r]);
    hide Encode, EncodeAll;
    assert s == s[..|s| - w] + s[|s| - w..];
  }

  lemma {:induction false} TrimLeftStrips(s: string) returns (runes: string)
    ensures AllWhite(runes) && s == EncodeAll(runes) + TrimLeft(s)
    decreases |s|
  {
    hide LeadingSpace, White, Encode;
    var w := LeadingSpace(s);
    if w == 0 {
      runes := "";
    } else {
      var r := LeadingIsWhite(s);
      var later := TrimLeftStrips(s[w..]);
      OneMoreLeft(s, w, r, later, TrimLeft(s));
      runes := [r] + later;
      hide TrimLeft, EncodeAll;
    }
  }

  lemma {:induction false} TrimRightStrips(s: string) returns (runes: string)
    ensures AllWhite(runes) && s == TrimRight(s) + EncodeAll(runes)
    decreases |s|
  {
    hide TrailingSpace, White, Encode;
    var w := TrailingSpace(s);
    if w == 0 {
      runes := "";
    } else {
      var r := TrailingIsWhite(s);
      var earlier := TrimRightStrips(s[..|s| - w]);
      OneMoreRight(s, w, r, earlier, TrimRight(s));
      runes := earlier + [r];
      hide TrimRight, EncodeAll;
    }
  }

  lemma {:induction false} TrimRightIsPrefix(s: string)
    ensures TrimRight(s) <= s
    decreases |s|
  {
    if TrailingSpace(s) > 0 {
      TrimRightIsPrefix(s[..|s| - TrailingSpace(s)]);
    }
  }

  lemma TrimmedEnds(s: string)
    ensures LeadingSpace(TrimSpace(s)) == 0 && TrailingSpace(TrimSpace(s)) == 0
  {
    TrimRightIsPrefix(TrimLeft(s));
    hide TrimLeft, TrimRight;
  }

  lemma TrimTwice(s: string)
    ensures TrimSpace(TrimSpace(s)) == TrimSpace(s)
  {
    TrimmedEnds(s);
  }

  lemma NoWhiteEnds(t: string)
    requires LeadingSpace(t) == 0 && TrailingSpace(t) == 0
    ensures forall r, rest | White(r) :: t != Encode(r) + rest && t != rest + Encode(r)
  {
    hide *;
    forall r, rest | White(r)
      ensures t != Encode(r) + rest && t != rest + Encode(r)
    {
      WhiteIsSpace(r, rest);
    }
  }

  /**
   TrimSpace takes white-space runes from both ends and nothing else, and leaves none
   there.
   */
  lemma TrimSpaceStrips(s: string) returns (left: string, right: string)
    ensures AllWhite(left) && AllWhite(right)
    ensures s == EncodeAll(left) + TrimSpace(s) + EncodeAll(right)
    ensures forall r, rest | White(r) :: TrimSpace(s) != Encode(r) + rest && TrimSpace(s) != rest + Encode(r)
  {
    left := TrimLeftStrips(s);
    right := TrimRightStrips(TrimLeft(s));
    TrimmedEnds(s);
    NoWhiteEnds(TrimSpace(s));
    hide Encode, White, EncodeAll, LeadingSpace, TrailingSpace, TrimLeft, TrimRight;
  }
}
