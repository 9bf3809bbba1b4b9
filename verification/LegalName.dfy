/** cmd/flf: the author name derived from an OS username. */
module LegalName {
  import opened Ints
  import opened Names
  import opened Text
  import Mentions

  /**
   The walk over `user` from a partial name: letters are kept, and the first
   other character after a letter becomes one dot. It stops at MAX_NAME bytes.
   */
  function Walk(user: string, out: string, afterLetter: bool): string {
    if user == "" || |out| >= MAX_NAME then out
    else if IsLetter(user[0]) then Walk(user[1..], out + [user[0]], true)
    else if afterLetter then Walk(user[1..], out + ".", false)
    else Walk(user[1..], out, false)
  }

  function Derived(user: string): string {
    var out := Mentions.TrimDots(Walk(user, "", false));
    if out == "" then "unknown" else out
  }

  method Derive(user: string) returns (name: string)
    ensures name == Derived(user)
  {
    var b, afterLetter := "", false;
    for i := 0 to |user|
      invariant Walk(user, "", false) == Walk(user[i..], b, afterLetter)
    {
      if |b| >= MAX_NAME {
        break;
      }
      if IsLetter(user[i]) {
        b, afterLetter := b + [user[i]], true;
      } else if afterLetter {
        b, afterLetter := b + ".", false;
      }
    }
    name := Mentions.TrimDots(b);
    if name == "" {
      name := "unknown";
    }
  }

  /** Letters with single dots between them: what a walk may have built so far. */
  predicate SingleDotted(s: string) {
    && |s| <= MAX_NAME
    && (s != "" ==> IsLetter(s[0]))
    && (forall i | 0 <= i < |s| :: IsLetter(s[i]) || s[i] == '.')
    && (forall i | 0 < i < |s| :: s[i] == '.' ==> s[i - 1] != '.')
  }

  lemma {:induction false} WalkKeepsSingleDots(user: string, out: string, afterLetter: bool)
    requires SingleDotted(out)
    requires afterLetter <==> out != "" && out[|out| - 1] != '.'
    ensures SingleDotted(Walk(user, out, afterLetter))
    decreases |user|
  {
    if user != "" && |out| < MAX_NAME {
      if IsLetter(user[0]) {
        WalkKeepsSingleDots(user[1..], out + [user[0]], true);
      } else if afterLetter {
        WalkKeepsSingleDots(user[1..], out + ".", false);
      } else {
        WalkKeepsSingleDots(user[1..], out, false);
      }
    }
  }

  /** For every username the derived name is one the rule accepts, dots single. */
  lemma DerivedIsLegal(user: string)
    ensures Legal(Derived(user)) && SingleDotted(Derived(user))
  {
    WalkKeepsSingleDots(user, "", false);
    var out := Mentions.TrimDots(Walk(user, "", false));
    assert forall i | 0 <= i < |out| :: out[i] == Walk(user, "", false)[i];
  }

  lemma {:induction false} WalkCopies(name: string, i: nat)
    requires SingleDotted(name) && i <= |name|
    ensures Walk(name[i..], name[..i], i > 0 && name[i - 1] != '.') == name
    decreases |name| - i
  {
    if i < |name| {
      assert name[i..][1..] == name[i + 1..];
      assert name[..i] + [name[i]] == name[..i + 1];
      WalkCopies(name, i + 1);
    }
  }

  /** The derivation leaves a name alone exactly when the name is legal with no two dots in a row. */
  lemma FixedPointIff(name: string)
    ensures Derived(name) == name <==> Legal(name) && SingleDotted(name)
  {
    DerivedIsLegal(name);
    if Legal(name) && SingleDotted(name) {
      WalkCopies(name, 0);
      assert name[0..] == name && name[..0] == "";
      assert Mentions.TrimDots(name) == name;
    }
  }

  /** Deriving a second time changes nothing. */
  lemma DerivedIsIdempotent(user: string)
    ensures Derived(Derived(user)) == Derived(user)
  {
    DerivedIsLegal(user);
    FixedPointIff(Derived(user));
  }

  /** A mention of a derived name parses back to exactly that name. */
  lemma DerivedIsMentionable(user: string)
    ensures Mentions.Mentioned("@" + Derived(user)) == ([Derived(user)], "")
  {
    var name := Derived(user);
    DerivedIsLegal(user);
    Mentions.FirstMention(name, "", []);
    assert name + "" == name;
    assert [] + [name] == [name];
  }

  // ----- what a name is made of

  /** How many letters `s` starts with. */
  function RunLength(s: string): (n: nat)
    ensures n <= |s|
    ensures forall i | 0 <= i < n :: IsLetter(s[i])
    ensures n < |s| ==> !IsLetter(s[n])
  {
    if s != "" && IsLetter(s[0]) then 1 + RunLength(s[1..]) else 0
  }

  /** The longest runs of letters in `user`, in order. */
  function LetterRuns(user: string): seq<string> {
    if user == "" then []
    else if !IsLetter(user[0]) then LetterRuns(user[1..])
    else [user[..RunLength(user)]] + LetterRuns(user[RunLength(user)..])
  }

  /** With a dot between each two. */
  function Dotted(runs: seq<string>): string {
    if runs == [] then ""
    else if |runs| == 1 then runs[0]
    else runs[0] + "." + Dotted(runs[1..])
  }

  function Capped(s: string): string {
    s[..Min(|s|, MAX_NAME)]
  }

  /** A walk takes the letters of a run one by one, as far as there is room. */
  lemma {:induction false} WalkTakesRun(run: string, rest: string, out: string, afterLetter: bool)
    requires |out| < MAX_NAME && run != "" && forall i | 0 <= i < |run| :: IsLetter(run[i])
    ensures Walk(run + rest, out, afterLetter) ==
            if |out| + |run| >= MAX_NAME then (out + run)[..MAX_NAME] else Walk(rest, out + run, true)
    decreases |run|
  {
    var more := out + [run[0]];
    assert (run + rest)[1..] == run[1..] + rest;
    assert Walk(run + rest, out, afterLetter) == Walk(run[1..] + rest, more, true);
    assert out + run == more + run[1..];
    if |more| == MAX_NAME {
      assert (out + run)[..MAX_NAME] == more;
    } else if |run| == 1 {
      assert run[1..] + rest == rest && out + run == more;
    } else {
      WalkTakesRun(run[1..], rest, more, true);
    }
  }

  lemma TrimOneDot(s: string)
    ensures Mentions.TrimDots(s + ".") == Mentions.TrimDots(s)
  {
    assert (s + ".")[..|s|] == s;
  }

  lemma {:induction false} WalkDotsRuns(user: string, out: string)
    requires |out| <= MAX_NAME
    ensures Mentions.TrimDots(Walk(user, out, false)) == Mentions.TrimDots(Capped(out + Dotted(LetterRuns(user))))
    decreases |user|
  {
    if user == "" || |out| >= MAX_NAME {
      assert Capped(out + Dotted(LetterRuns(user))) == out;
    } else if !IsLetter(user[0]) {
      WalkDotsRuns(user[1..], out);
    } else {
      var n := RunLength(user);
      var run, rest := user[..n], user[n..];
      assert user == run + rest;
      WalkTakesRun(run, rest, out, false);
      RunThenRest(run, rest, out);
      if |out| + n < MAX_NAME && rest != "" {
        WalkDotsRuns(rest[1..], out + run + ".");
      }
    }
  }

  /** The dotted runs of a run and what follows it. */
  lemma RunThenRest(run: string, rest: string, out: string)
    requires run != "" && (rest != "" ==> !IsLetter(rest[0]))
    ensures
      var whole := out + Dotted([run] + LetterRuns(rest));
      && (|out| + |run| >= MAX_NAME ==> Capped(whole) == (out + run)[..MAX_NAME])
      && (|out| + |run| < MAX_NAME && rest == "" ==> Capped(whole) == out + run)
      && (|out| + |run| < MAX_NAME && rest != "" ==>
            Mentions.TrimDots(Capped(whole)) ==
            Mentions.TrimDots(Capped(out + run + "." + Dotted(LetterRuns(rest[1..])))))
  {
    hide *;
    var later, base := LetterRuns(rest), out + run;
    LaterRuns(rest);
    DottedNext(run, later);
    NoRuns();
    if later == [] {
      CappedAt(base, "");
      CappedAt(base + ".", "");
      TrimOneDot(base);
      assert base + "." + "" == base + ".";
    } else {
      var tail := "." + Dotted(later);
      assert out + (run + "." + Dotted(later)) == base + tail && base + "." + Dotted(later) == base + tail;
      CappedAt(base, tail);
    }
  }

  lemma LaterRuns(rest: string)
    ensures rest == "" ==> LetterRuns(rest) == []
    ensures rest != "" && !IsLetter(rest[0]) ==> LetterRuns(rest) == LetterRuns(rest[1..])
  {
  }

  lemma CappedAt(s: string, more: string)
    ensures |s| >= MAX_NAME ==> Capped(s + more) == s[..MAX_NAME]
    ensures |s| <= MAX_NAME ==> Capped(s) == s
    ensures s + "" == s
  {
  }

  lemma NoRuns()
    ensures Dotted([]) == ""
  {
  }

  lemma DottedNext(run: string, later: seq<string>)
    ensures Dotted([run] + later) == if later == [] then run else run + "." + Dotted(later)
  {
    assert ([run] + later)[1..] == later;
  }

  /** The derived name is the letter runs of the user name with a dot between each two, cut to size, without a last dot. */
  lemma DerivedIsRuns(user: string)
    ensures
      var out := Mentions.TrimDots(Capped(Dotted(LetterRuns(user))));
      Derived(user) == if out == "" then "unknown" else out
  {
    WalkDotsRuns(user, "");
    assert "" + Dotted(LetterRuns(user)) == Dotted(LetterRuns(user));
  }

  lemma {:induction false} RunsOf(a: string, s: string)
    requires forall i | 0 <= i < |a| :: IsLetter(a[i])
    requires s != "" ==> !IsLetter(s[0])
    ensures RunLength(a + s) == |a|
    ensures a != "" ==> LetterRuns(a + s) == [a] + LetterRuns(s)
    decreases |a|
  {
    if a == "" {
      assert a + s == s;
    } else {
      assert (a + s)[1..] == a[1..] + s;
      RunsOf(a[1..], s);
      assert (a + s)[..|a|] == a && (a + s)[|a|..] == s;
    }
  }

  lemma {:induction false} RunsSkip(s: string, b: string)
    requires forall i | 0 <= i < |s| :: !IsLetter(s[i])
    ensures LetterRuns(s + b) == LetterRuns(b)
    decreases |s|
  {
    if s == "" {
      assert s + b == b;
    } else {
      assert (s + b)[1..] == s[1..] + b;
      RunsSkip(s[1..], b);
    }
  }

  /** Whatever stands between two words becomes one dot, and whatever stands around them nothing. */
  lemma SeparatorIsOneDot(before: string, a: string, s: string, b: string, after: string)
    requires a != "" && forall i | 0 <= i < |a| :: IsLetter(a[i])
    requires b != "" && forall i | 0 <= i < |b| :: IsLetter(b[i])
    requires s != "" && forall i | 0 <= i < |s| :: !IsLetter(s[i])
    requires forall i | 0 <= i < |before| :: !IsLetter(before[i])
    requires forall i | 0 <= i < |after| :: !IsLetter(after[i])
    requires |a| + 1 + |b| <= MAX_NAME
    ensures Derived(before + (a + (s + (b + after)))) == a + "." + b
  {
    var user := before + (a + (s + (b + after)));
    RunsSkip(before, a + (s + (b + after)));
    RunsOf(a, s + (b + after));
    RunsSkip(s, b + after);
    RunsOf(b, after);
    RunsSkip(after, "");
    assert after + "" == after;
    assert LetterRuns(user) == [a, b];
    assert [a, b][1..] == [b];
    DerivedIsRuns(user);
    assert Capped(a + "." + b) == a + "." + b;
  }

  // ----- one character is one decision, whichever way a character is encoded

  lemma {:induction false} WalkSkips(bytes: string, rest: string, out: string)
    requires forall i | 0 <= i < |bytes| :: bytes[i] as int >= 0x80
    ensures Walk(bytes + rest, out, false) == Walk(rest, out, false)
    decreases |bytes|
  {
    if bytes == "" {
      assert bytes + rest == rest;
    } else {
      assert (bytes + rest)[1..] == bytes[1..] + rest;
      WalkSkips(bytes[1..], rest, out);
    }
  }

  lemma {:induction false} WalkOfEncoding(runes: string, out: string, afterLetter: bool)
    ensures Walk(EncodeAll(runes), out, afterLetter) == Walk(runes, out, afterLetter)
    decreases |runes|
  {
    if runes != "" && |out| < MAX_NAME {
      var bytes, rest := Encode(runes[0]), EncodeAll(runes[1..]);
      assert (bytes + rest)[1..] == bytes[1..] + rest;
      if runes[0] as int < 0x80 {
        assert bytes[1..] + rest == rest;
      } else if afterLetter {
        WalkSkips(bytes[1..], rest, out + ".");
      } else {
        WalkSkips(bytes[1..], rest, out);
      }
      WalkOfEncoding(runes[1..], if IsLetter(runes[0]) then out + [runes[0]]
                                 else if afterLetter then out + "." else out, IsLetter(runes[0]));
    }
  }

  /** Walking a username's UTF-8 bytes derives the name that walking its runes derives. */
  lemma BytesAgreeWithRunes(runes: string)
    ensures Derived(EncodeAll(runes)) == Derived(runes)
  {
    WalkOfEncoding(runes, "", false);
  }
}
