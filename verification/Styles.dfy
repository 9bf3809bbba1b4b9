/** The controls of composed lines: which of them come before each cell. */
module Styles {
  import opened Ints
  import opened Screen

  // ----- controls

  /** The zero-width controls of a line, in order. */
  function ControlsOf(line: Line): Line {
    if line == [] then []
    else if line[0].width == 0 then [line[0]] + ControlsOf(line[1..])
    else ControlsOf(line[1..])
  }

  lemma {:induction false} ControlsConcat(a: Line, b: Line)
    ensures ControlsOf(a + b) == ControlsOf(a) + ControlsOf(b)
    decreases |a|
  {
    if a == [] {
      assert a + b == b;
    } else {
      assert (a + b)[1..] == a[1..] + b;
      ControlsConcat(a[1..], b);
    }
  }

  lemma {:induction false} PrefixFromKeepsControls(rest: Line, maxWidth: nat, width: nat, truncated: bool)
    ensures
      var p := PrefixFrom(rest, maxWidth, width, truncated);
      ControlsOf(p.content + p.controls) == ControlsOf(rest) && (truncated ==> p.content == [])
    decreases |rest|
  {
    if rest != [] {
      var t, later := rest[0], rest[1..];
      var p := PrefixFrom(rest, maxWidth, width, truncated);
      var fits := t.width != 0 && !truncated && width + t.width <= maxWidth;
      var w := if fits then width + t.width else width;
      var cut := truncated || (t.width != 0 && !fits);
      PrefixFromKeepsControls(later, maxWidth, w, cut);
      var q := PrefixFrom(later, maxWidth, w, cut);
      if p.content + p.controls != q.content + q.controls {
        assert p.content + p.controls == [t] + (q.content + q.controls);
      }
    }
  }

  /** A prefix that is cut short still carries every control of its line, in order. */
  lemma PrefixKeepsControls(line: Line, maxWidth: nat)
    requires maxWidth > 0
    ensures
      var p := PrefixOf(line, maxWidth);
      ControlsOf(p.content + p.controls) == ControlsOf(line)
  {
    PrefixFromKeepsControls(line, maxWidth, 0, false);
  }

  lemma {:induction false} SuffixFromKeepsControls(rest: Line, skipWidth: nat, carried: Line, used: nat)
    requires Controls(carried)
    ensures
      var s := SuffixFrom(rest, skipWidth, carried, used);
      if s.rest == [] then s.controls == []
      else ControlsOf(s.controls + s.rest) == carried + ControlsOf(rest)
    decreases |rest|
  {
    if rest != [] {
      if used >= skipWidth {
        ControlsConcat(carried, rest);
        ControlsOfControls(carried);
      } else {
        var t := rest[0];
        var more := if t.width == 0 then carried + [t] else carried;
        SuffixFromKeepsControls(rest[1..], skipWidth, more, used + t.width);
        assert t.width == 0 ==> more + ControlsOf(rest[1..]) == carried + ([t] + ControlsOf(rest[1..]));
      }
    }
  }

  lemma {:induction false} ControlsOfControls(line: Line)
    requires Controls(line)
    ensures ControlsOf(line) == line
    decreases |line|
  {
    if line != [] {
      ControlsOfControls(line[1..]);
    }
  }

  /** Something is left after the cut exactly when all but the last token is as wide as what is skipped. */
  lemma {:induction false} SuffixLeavesIff(rest: Line, skipWidth: nat, carried: Line, used: nat)
    requires rest != []
    ensures SuffixFrom(rest, skipWidth, carried, used).rest != [] <==> used + LineWidth(rest[..|rest| - 1]) >= skipWidth
    decreases |rest|
  {
    var t := rest[0];
    if |rest| > 1 {
      assert rest[..|rest| - 1] == [t] + rest[1..][..|rest| - 2];
      if used < skipWidth {
        SuffixLeavesIff(rest[1..], skipWidth, if t.width == 0 then carried + [t] else carried, used + t.width);
      }
    }
  }

  /**
   Suffix promises to replay the controls met before the cut. It does, exactly when the
   line has no control to lose or is cut before its last token: a line that ends at the
   cut or before it loses them all.
   */
  lemma SuffixKeepsControlsIff(line: Line, skipWidth: nat)
    ensures
      var s := SuffixOf(line, skipWidth);
      ControlsOf(s.controls + s.rest) == ControlsOf(line) <==>
      ControlsOf(line) == [] || LineWidth(line[..|line| - 1]) >= skipWidth
  {
    var s := SuffixOf(line, skipWidth);
    if line != [] && skipWidth > 0 {
      SuffixFromKeepsControls(line, skipWidth, [], 0);
      SuffixLeavesIff(line, skipWidth, [], 0);
      assert [] + ControlsOf(line) == ControlsOf(line);
    } else {
      assert s.controls + s.rest == line;
    }
  }

  /** A line that ends where it is cut: a style, one cell of text, and the style is gone. */
  lemma SuffixLosesControl(style: Token, text: Token)
    requires style.width == 0 && text.width == 1
    ensures
      var line := [style, text];
      var s := SuffixOf(line, 1);
      s.controls + s.rest == [] && ControlsOf(line) == [style]
  {
    var line := [style, text];
    assert line[1..] == [text] && [text][1..] == [];
    assert SuffixFrom([], 1, [style], 1).rest == [];
    assert SuffixFrom([text], 1, [style], 0) == Suffix([], [], 1);
    assert SuffixFrom(line, 1, [], 0) == SuffixFrom([text], 1, [style], 0) by {
      assert [] + [style] == [style];
    }
    assert ControlsOf([text]) == [];
  }

  // ----- the controls in force at a cell

  /** The controls that come before cell i, in order; all of them past the line's end. */
  function ControlsBefore(line: Line, i: nat): Line {
    if line == [] then []
    else if line[0].width == 0 then [line[0]] + ControlsBefore(line[1..], i)
    else if i < line[0].width then []
    else ControlsBefore(line[1..], i - line[0].width)
  }

  lemma {:induction false} AllBefore(line: Line, i: nat)
    requires i >= LineWidth(line)
    ensures ControlsBefore(line, i) == ControlsOf(line)
    decreases |line|
  {
    if line != [] {
      AllBefore(line[1..], if line[0].width == 0 then i else i - line[0].width);
    }
  }

  lemma {:induction false} BeforeConcat(a: Line, b: Line, i: nat)
    ensures ControlsBefore(a + b, i) ==
            if i < LineWidth(a) then ControlsBefore(a, i) else ControlsOf(a) + ControlsBefore(b, i - LineWidth(a))
    decreases |a|
  {
    if a == [] {
      assert a + b == b;
    } else {
      assert (a + b)[1..] == a[1..] + b;
      if a[0].width == 0 {
        BeforeConcat(a[1..], b, i);
      } else if i >= a[0].width {
        BeforeConcat(a[1..], b, i - a[0].width);
      }
    }
  }

  lemma {:induction false} WidthConcat(a: Line, b: Line)
    ensures LineWidth(a + b) == LineWidth(a) + LineWidth(b)
    decreases |a|
  {
    if a == [] {
      assert a + b == b;
    } else {
      assert (a + b)[1..] == a[1..] + b;
      WidthConcat(a[1..], b);
    }
  }

  lemma {:induction false} SpacesAreBare(n: nat)
    ensures LineWidth(Spaces(n)) == n && ControlsOf(Spaces(n)) == []
    decreases n
  {
    if n > 0 {
      assert Spaces(n)[1..] == Spaces(n - 1);
      SpacesAreBare(n - 1);
    }
  }

  lemma {:induction false} ControlsAreThin(line: Line)
    requires Controls(line)
    ensures LineWidth(line) == 0 && ControlsOf(line) == line
    decreases |line|
  {
    if line != [] {
      ControlsAreThin(line[1..]);
    }
  }

  /** Spaces hold no control. */
  lemma {:induction false} BareBefore(n: nat, i: nat)
    ensures ControlsBefore(Spaces(n), i) == []
    decreases n
  {
    if n > 0 && i > 0 {
      assert Spaces(n)[1..] == Spaces(n - 1);
      BareBefore(n - 1, i - 1);
    }
  }

  // ----- a prefix

  lemma {:induction false} PrefixFromStyles(rest: Line, maxWidth: nat, width: nat, i: nat)
    requires width <= maxWidth && width + i < maxWidth
    ensures
      var p := PrefixFrom(rest, maxWidth, width, false);
      && width <= p.width && LineWidth(p.content) == p.width - width
      && ControlsBefore(rest, i) ==
         if width + i < p.width then ControlsBefore(p.content, i) else ControlsOf(p.content)
    decreases |rest|
  {
    if rest != [] {
      var t, later := rest[0], rest[1..];
      var p := PrefixFrom(rest, maxWidth, width, false);
      if width + t.width <= maxWidth {
        var q := PrefixFrom(later, maxWidth, width + t.width, false);
        assert p.content == [t] + q.content && p.content[1..] == q.content;
        if t.width <= i {
          PrefixFromStyles(later, maxWidth, width + t.width, i - t.width);
        } else {
          PrefixFromWidth(later, maxWidth, width + t.width);
        }
      } else {
        TruncatedPrefix(later, maxWidth, width);
      }
    }
  }

  lemma {:induction false} PrefixFromWidth(rest: Line, maxWidth: nat, width: nat)
    requires width <= maxWidth
    ensures
      var p := PrefixFrom(rest, maxWidth, width, false);
      width <= p.width <= maxWidth && LineWidth(p.content) == p.width - width && Controls(p.controls)
    decreases |rest|
  {
    if rest != [] {
      var t, later := rest[0], rest[1..];
      var p := PrefixFrom(rest, maxWidth, width, false);
      if width + t.width <= maxWidth {
        var q := PrefixFrom(later, maxWidth, width + t.width, false);
        assert p.content == [t] + q.content && p.content[1..] == q.content;
        PrefixFromWidth(later, maxWidth, width + t.width);
      } else {
        TruncatedPrefix(later, maxWidth, width);
      }
    }
  }

  lemma PartsStyles(content: Line, blanks: nat, controls: Line)
    requires Controls(controls)
    ensures
      var line := content + Spaces(blanks) + controls;
      LineWidth(line) == LineWidth(content) + blanks && ControlsOf(line) == ControlsOf(content + controls)
  {
    hide LineWidth, Spaces, ControlsOf;
    SpacesAreBare(blanks);
    ControlsAreThin(controls);
    WidthConcat(content + Spaces(blanks), controls);
    WidthConcat(content, Spaces(blanks));
    ControlsConcat(content + Spaces(blanks), controls);
    ControlsConcat(content, Spaces(blanks));
    ControlsConcat(content, controls);
  }

  lemma PartsBefore(content: Line, blanks: nat, controls: Line, i: nat)
    requires i < LineWidth(content) + blanks
    ensures ControlsBefore(content + Spaces(blanks) + controls, i) ==
            if i < LineWidth(content) then ControlsBefore(content, i) else ControlsOf(content)
  {
    hide LineWidth, Spaces, ControlsOf, ControlsBefore;
    SpacesAreBare(blanks);
    WidthConcat(content, Spaces(blanks));
    BeforeConcat(content + Spaces(blanks), controls, i);
    BeforeConcat(content, Spaces(blanks), i);
    if i >= LineWidth(content) {
      BareBefore(blanks, i - LineWidth(content));
    }
  }

  lemma PrefixParted(line: Line, n: nat)
    ensures
      var p := PrefixOf(line, n);
      && p.width <= n && LineWidth(p.content) == p.width && Controls(p.controls)
      && Fitted(line, n) == p.content + Spaces(n - p.width) + p.controls
      && ControlsOf(p.content + p.controls) == if n > 0 then ControlsOf(line) else []
  {
    if line != [] && n > 0 {
      PrefixFromWidth(line, n, 0);
      PrefixKeepsControls(line, n);
    }
  }

  /** A fitted line holds all the controls of the line. */
  lemma FittedSizes(line: Line, n: nat)
    ensures LineWidth(Fitted(line, n)) == n
    ensures ControlsOf(Fitted(line, n)) == if n > 0 then ControlsOf(line) else []
  {
    hide *;
    PrefixParted(line, n);
    PartsStyles(PrefixOf(line, n).content, n - PrefixOf(line, n).width, PrefixOf(line, n).controls);
  }

  /** It has them before the cells they come before. */
  lemma FittedBefore(line: Line, n: nat, i: nat)
    requires i < n
    ensures ControlsBefore(Fitted(line, n), i) == ControlsBefore(line, i)
  {
    hide *;
    var p := PrefixOf(line, n);
    PrefixParted(line, n);
    PartsBefore(p.content, n - p.width, p.controls, i);
    PrefixStyles(line, n, i);
  }

  lemma PrefixStyles(line: Line, n: nat, i: nat)
    requires i < n
    ensures
      var p := PrefixOf(line, n);
      ControlsBefore(line, i) == if i < p.width then ControlsBefore(p.content, i) else ControlsOf(p.content)
  {
    if line != [] {
      PrefixFromStyles(line, n, 0, i);
    }
  }

  // ----- a suffix

  /** Something is left of a line that is cut at n. */
  predicate Leaves(line: Line, n: int) {
    n <= 0 || (line != [] && LineWidth(line[..|line| - 1]) >= n)
  }

  lemma {:induction false} SuffixFromStyles(rest: Line, skipWidth: nat, carried: Line, used: nat, k: nat)
    requires used < skipWidth && SuffixFrom(rest, skipWidth, carried, used).rest != []
    ensures
      var s := SuffixFrom(rest, skipWidth, carried, used);
      && s.skipped >= skipWidth
      && carried + ControlsBefore(rest, skipWidth - used + k) ==
         if k < s.skipped - skipWidth then s.controls
         else s.controls + ControlsBefore(s.rest, k - (s.skipped - skipWidth))
    decreases |rest|
  {
    var t, later := rest[0], rest[1..];
    if t.width == 0 {
      SuffixFromStyles(later, skipWidth, carried + [t], used, k);
      assert carried + ([t] + ControlsBefore(later, skipWidth - used + k)) ==
             carried + [t] + ControlsBefore(later, skipWidth - used + k);
    } else if used + t.width < skipWidth {
      SuffixFromStyles(later, skipWidth, carried, used + t.width, k);
    } else {
      assert SuffixFrom(rest, skipWidth, carried, used) == Suffix(carried, later, used + t.width);
    }
  }

  /** The controls before cell i of a line that is cut at n: none where nothing is left of it. */
  function Carried(line: Line, n: int, i: nat): Line {
    if Leaves(line, n) then ControlsBefore(line, i) else []
  }

  /** What a line cut at n holds of controls, in all. */
  function Kept(line: Line, n: int): Line {
    if Leaves(line, n) then ControlsOf(line) else []
  }

  lemma SuffixParted(line: Line, n: nat)
    ensures
      var s := SuffixOf(line, n);
      && Clipped(line, n) == s.controls + Spaces(Max(0, s.skipped - n)) + s.rest && Controls(s.controls)
      && (if Leaves(line, n) then n > 0 ==> s.rest != [] && s.skipped >= n else s.rest == [] && s.controls == [])
      && ControlsOf(s.controls + s.rest) == Kept(line, n)
  {
    SuffixCells(line, n);
    if line != [] && n > 0 {
      SuffixLeavesIff(line, n, [], 0);
      SuffixFromKeepsControls(line, n, [], 0);
      assert [] + ControlsOf(line) == ControlsOf(line);
      if Leaves(line, n) {
        SuffixFromStyles(line, n, [], 0, 0);
      }
    } else {
      assert [] + line == line;
    }
  }

  lemma SuffixStyles(line: Line, n: nat, k: nat)
    requires n > 0 && Leaves(line, n)
    ensures
      var s := SuffixOf(line, n);
      && s.skipped >= n
      && ControlsBefore(line, n + k) ==
         if k < s.skipped - n then s.controls else s.controls + ControlsBefore(s.rest, k - (s.skipped - n))
  {
    SuffixLeavesIff(line, n, [], 0);
    SuffixFromStyles(line, n, [], 0, k);
    assert [] + ControlsBefore(line, n + k) == ControlsBefore(line, n + k);
  }

  lemma TailBefore(controls: Line, blanks: nat, rest: Line, k: nat)
    requires Controls(controls)
    ensures ControlsBefore(controls + Spaces(blanks) + rest, k) ==
            if k < blanks then controls else controls + ControlsBefore(rest, k - blanks)
  {
    hide LineWidth, Spaces, ControlsOf, ControlsBefore;
    SpacesAreBare(blanks);
    ControlsAreThin(controls);
    WidthConcat(controls, Spaces(blanks));
    ControlsConcat(controls, Spaces(blanks));
    BeforeConcat(controls + Spaces(blanks), rest, k);
    BeforeConcat(controls, Spaces(blanks), k);
    BareBefore(blanks, k);
    assert controls + [] == controls;
  }

  lemma TailControls(controls: Line, blanks: nat, rest: Line)
    ensures ControlsOf(controls + Spaces(blanks) + rest) == ControlsOf(controls + rest)
  {
    hide ControlsOf, Spaces;
    SpacesAreBare(blanks);
    ControlsConcat(controls + Spaces(blanks), rest);
    ControlsConcat(controls, Spaces(blanks));
    ControlsConcat(controls, rest);
  }

  /** A clipped line has the controls before each of its cells that the line has, unless nothing is left of it. */
  lemma ClippedStyles(line: Line, n: nat, k: nat)
    ensures ControlsBefore(Clipped(line, n), k) == Carried(line, n, n + k)
    ensures ControlsOf(Clipped(line, n)) == Kept(line, n)
  {
    hide ControlsBefore, ControlsOf, Spaces, Clipped, LineWidth;
    var s := SuffixOf(line, n);
    SuffixParted(line, n);
    TailControls(s.controls, Max(0, s.skipped - n), s.rest);
    NothingBefore();
    if n == 0 {
      assert Clipped(line, 0) == line by {
        ClippedAtStart(line);
      }
    } else {
      TailBefore(s.controls, Max(0, s.skipped - n), s.rest, k);
      if Leaves(line, n) {
        SuffixStyles(line, n, k);
      }
    }
  }

  lemma ClippedAtStart(line: Line)
    ensures Clipped(line, 0) == line
  {
    assert [] + Spaces(0) + line == line;
  }

  lemma NothingBefore()
    ensures ControlsOf([]) == [] && forall k :: ControlsBefore([], k) == []
  {
  }

  // ----- a splice

  /**
   The controls in force at cell i of a splice into [lo, hi). Left of it they are the
   background's own. In it the background's are all there, unless it starts the line, and
   then the replacement's; and right of it the background's again, those it has before i.
   */
  function StyleAt(background: Line, panel: Line, column: int, lo: nat, hi: nat, i: nat): Line
    requires column <= lo
  {
    var under := if lo > 0 then ControlsOf(background) else [];
    if i < lo then ControlsBefore(background, i)
    else if i < hi then under + Carried(panel, lo - column, i - column)
    else under + Kept(panel, lo - column) + Carried(background, hi, i)
  }

  lemma ThreeParts(a: Line, b: Line, c: Line, m: nat, n: nat, xs: Line, ys: Line, i: nat)
    requires LineWidth(a) == m && LineWidth(b) == n && ControlsOf(a) == xs && ControlsOf(b) == ys
    ensures i < m ==> ControlsBefore(a + b + c, i) == ControlsBefore(a, i)
    ensures m <= i < m + n ==> ControlsBefore(a + b + c, i) == xs + ControlsBefore(b, i - m)
    ensures m + n <= i ==> ControlsBefore(a + b + c, i) == xs + ys + ControlsBefore(c, i - (m + n))
  {
    hide ControlsBefore, ControlsOf, LineWidth;
    WidthConcat(a, b);
    ControlsConcat(a, b);
    BeforeConcat(a + b, c, i);
    BeforeConcat(a, b, i);
  }

  /** The three parts of a splice, in order, put before each cell the controls StyleAt says. */
  lemma PartsStyled(background: Line, panel: Line, column: int, clip: nat, lo: nat, hi: nat, i: nat)
    requires column + clip == lo < hi
    ensures ControlsBefore(Fitted(background, lo) + Fitted(Clipped(panel, clip), hi - lo) + Clipped(background, hi), i) ==
            StyleAt(background, panel, column, lo, hi, i)
  {
    hide *;
    var left, mid, right := Fitted(background, lo), Fitted(Clipped(panel, clip), hi - lo), Clipped(background, hi);
    var under := if lo > 0 then ControlsOf(background) else [];
    FittedSizes(background, lo);
    FittedSizes(Clipped(panel, clip), hi - lo);
    ClippedStyles(panel, clip, 0);
    ThreeParts(left, mid, right, lo, hi - lo, under, Kept(panel, clip), i);
    StyledAt(background, panel, column, lo, hi, i);
    if i < lo {
      FittedBefore(background, lo, i);
    } else if i < hi {
      FittedBefore(Clipped(panel, clip), hi - lo, i - lo);
      ClippedStyles(panel, clip, i - lo);
      assert clip + (i - lo) == i - column && lo - column == clip;
    } else {
      ClippedStyles(background, hi, i - hi);
      assert lo + (hi - lo) == hi && hi + (i - hi) == i && lo - column == clip;
    }
  }

  /** Splice puts before each cell the controls StyleAt says, in that order. */
  lemma SpliceStyles(background: Line, replacement: Line, column: int, width: int, i: nat)
    requires width > 0 && column + width > 0
    ensures ControlsBefore(Splice(background, replacement, column, width), i) ==
            StyleAt(background, replacement, column, Max(0, column), column + width, i)
  {
    hide *;
    SpliceParts(background, replacement, column, width);
    PartsStyled(background, replacement, column, Max(0, -column), Max(0, column), column + width, i);
  }

  lemma SpliceParts(background: Line, replacement: Line, column: int, width: int)
    requires width > 0 && column + width > 0
    ensures
      var leftClip, start, end := Max(0, -column), Max(0, column), column + width;
      && 0 <= leftClip && 0 <= start < end && column + leftClip == start
      && Splice(background, replacement, column, width) ==
         Fitted(background, start) + Fitted(Clipped(replacement, leftClip), end - start) + Clipped(background, end)
  {
    hide Fitted, Clipped;
  }

  lemma StyledAt(background: Line, panel: Line, column: int, lo: nat, hi: nat, i: nat)
    requires column <= lo
    ensures i < lo ==> StyleAt(background, panel, column, lo, hi, i) == ControlsBefore(background, i)
    ensures lo <= i < hi ==>
              StyleAt(background, panel, column, lo, hi, i) ==
              (if lo > 0 then ControlsOf(background) else []) + Carried(panel, lo - column, i - column)
    ensures i >= lo && i >= hi ==>
              StyleAt(background, panel, column, lo, hi, i) ==
              (if lo > 0 then ControlsOf(background) else []) + Kept(panel, lo - column) + Carried(background, hi, i)
  {
  }
}
