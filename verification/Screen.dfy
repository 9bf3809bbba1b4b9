/**
 internal/tui/screen: composing rendered terminal lines. A line is the sequence of
 tokens the decoder splits it into: graphemes, each some cells wide, and zero-width
 controls. Decoding and the widths it reports are taken as given.
 */
module Screen {
  import opened Ints

  datatype Token = Token(width: nat, text: string)

  type Line = seq<Token>

  const SPACE: Token := Token(1, " ")

  /** strings.Repeat(" ", n) */
  function Spaces(n: nat): Line {
    seq(n, _ => SPACE)
  }

  // ----- what a terminal shows

  /** One cell: the grapheme it belongs to, and which of its cells it is. */
  datatype Cell = Cell(token: Token, offset: nat)

  const BLANK: Cell := Cell(SPACE, 0)

  function TokenCells(t: Token): seq<Cell> {
    seq(t.width, k requires 0 <= k => Cell(t, k))
  }

  function Cells(line: Line): seq<Cell> {
    if line == [] then [] else TokenCells(line[0]) + Cells(line[1..])
  }

  lemma {:induction false} CellsConcat(a: Line, b: Line)
    ensures Cells(a + b) == Cells(a) + Cells(b)
    decreases |a|
  {
    if a == [] {
      assert a + b == b;
    } else {
      assert (a + b)[1..] == a[1..] + b;
      CellsConcat(a[1..], b);
    }
  }

  lemma {:induction false} CellsOfSpaces(n: nat)
    ensures Cells(Spaces(n)) == seq(n, _ => BLANK)
    decreases n
  {
    if n > 0 {
      assert Spaces(n)[1..] == Spaces(n - 1);
      CellsOfSpaces(n - 1);
    }
  }

  predicate Controls(line: Line) {
    forall t | t in line :: t.width == 0
  }

  lemma {:induction false} ControlsShowNothing(line: Line)
    requires Controls(line)
    ensures Cells(line) == []
    decreases |line|
  {
    if line != [] {
      ControlsShowNothing(line[1..]);
    }
  }

  /** ansi.StringWidth of one line */
  function LineWidth(line: Line): nat {
    if line == [] then 0 else line[0].width + LineWidth(line[1..])
  }

  lemma WidthCountsCells(line: Line)
    ensures |Cells(line)| == LineWidth(line)
  {
  }

  /** The grapheme that covers cell i lies within [lo, hi). */
  predicate Within(cells: seq<Cell>, i: int, lo: int, hi: int) {
    && 0 <= i < |cells|
    && lo <= i - cells[i].offset
    && i - cells[i].offset + cells[i].token.width <= hi
  }

  /** Every grapheme is shown whole. */
  predicate Whole(cells: seq<Cell>) {
    forall i | 0 <= i < |cells| :: Within(cells, i, 0, |cells|)
  }

  lemma {:induction false} LinesAreWhole(line: Line)
    ensures Whole(Cells(line))
    decreases |line|
  {
    if line != [] {
      LinesAreWhole(line[1..]);
      var head, tail := TokenCells(line[0]), Cells(line[1..]);
      forall i | 0 <= i < |head + tail|
        ensures Within(head + tail, i, 0, |head + tail|)
      {
        if i >= |head| {
          assert Within(tail, i - |head|, 0, |tail|);
        }
      }
    }
  }

  /** Cell i as it shows through a window: blank where its grapheme is cut by an edge, or there is none. */
  function Through(cells: seq<Cell>, i: int, lo: int, hi: int): Cell {
    if Within(cells, i, lo, hi) then cells[i] else BLANK
  }

  /** The cells seen through the window [lo, hi). */
  function Window(cells: seq<Cell>, lo: int, hi: int): (r: seq<Cell>)
    requires lo <= hi
    ensures |r| == hi - lo
  {
    seq(hi - lo, k requires 0 <= k => Through(cells, lo + k, lo, hi))
  }

  /**
   The specification of a splice, on cells alone: `panel`, its first cell at
   `column`, shows through [lo, hi), and the background shows on either side.
   */
  function Composite(background: seq<Cell>, panel: seq<Cell>, column: int, lo: nat, hi: nat): seq<Cell>
    requires lo <= hi
  {
    Window(background, 0, lo) + Window(panel, lo - column, hi - column)
    + Window(background, hi, Max(hi, |background|))
  }

  // ----- prefixParts

  /** What is kept of a line, the controls that follow it, and the width kept. */
  datatype Prefix = Prefix(content: Line, controls: Line, width: nat)

  function PrefixFrom(rest: Line, maxWidth: nat, width: nat, truncated: bool): Prefix {
    if rest == [] then Prefix([], [], width)
    else
      var t, later := rest[0], rest[1..];
      if t.width == 0 then
        var p := PrefixFrom(later, maxWidth, width, truncated);
        if truncated then p.(controls := [t] + p.controls) else p.(content := [t] + p.content)
      else if !truncated && width + t.width <= maxWidth then
        var p := PrefixFrom(later, maxWidth, width + t.width, false);
        p.(content := [t] + p.content)
      else PrefixFrom(later, maxWidth, width, true)
  }

  function PrefixOf(line: Line, maxWidth: int): Prefix {
    if line == [] || maxWidth <= 0 then Prefix([], [], 0) else PrefixFrom(line, maxWidth, 0, false)
  }

  /** How a prefix goes on by one token. */
  lemma PrefixNext(line: Line, offset: nat, maxWidth: nat, width: nat, truncated: bool)
    requires offset < |line|
    ensures
      var t := line[offset];
      var fits := t.width != 0 && !truncated && width + t.width <= maxWidth;
      var later := PrefixFrom(line[offset + 1..], maxWidth, if fits then width + t.width else width,
                              truncated || (t.width != 0 && !fits));
      PrefixFrom(line[offset..], maxWidth, width, truncated) ==
      if t.width == 0 && truncated then later.(controls := [t] + later.controls)
      else if t.width == 0 || fits then later.(content := [t] + later.content)
      else later
  {
    assert line[offset..][1..] == line[offset + 1..];
  }

  method PrefixParts(line: Line, maxWidth: int) returns (content: Line, trailingControls: Line, width: nat)
    ensures Prefix(content, trailingControls, width) == PrefixOf(line, maxWidth)
  {
    content, trailingControls, width := [], [], 0;
    if line == [] || maxWidth <= 0 {
      return;
    }
    var truncated := false;
    assert line[0..] == line;
    hide PrefixFrom;
    for offset := 0 to |line|
      invariant var p := PrefixFrom(line[offset..], maxWidth, width, truncated);
                PrefixOf(line, maxWidth) == Prefix(content + p.content, trailingControls + p.controls, p.width)
    {
      var t := line[offset];
      PrefixNext(line, offset, maxWidth, width, truncated);
      if t.width == 0 && truncated {
        trailingControls := trailingControls + [t];
      } else if t.width == 0 {
        content := content + [t];
      } else if !truncated && width + t.width <= maxWidth {
        content := content + [t];
        width := width + t.width;
      } else {
        truncated := true;
      }
    }
  }

  // ----- suffixParts

  /** The controls met before the cut, what follows it, and the width skipped. */
  datatype Suffix = Suffix(controls: Line, rest: Line, skipped: nat)

  function SuffixFrom(rest: Line, skipWidth: nat, carried: Line, used: nat): Suffix {
    if rest == [] then Suffix([], [], used)
    else if used >= skipWidth then Suffix(carried, rest, used)
    else
      var t := rest[0];
      SuffixFrom(rest[1..], skipWidth, if t.width == 0 then carried + [t] else carried, used + t.width)
  }

  function SuffixOf(line: Line, skipWidth: int): Suffix {
    if line == [] || skipWidth <= 0 then Suffix([], line, 0) else SuffixFrom(line, skipWidth, [], 0)
  }

  method SuffixParts(line: Line, skipWidth: int) returns (controls: Line, suffix: Line, skippedWidth: nat)
    ensures Suffix(controls, suffix, skippedWidth) == SuffixOf(line, skipWidth)
  {
    if line == [] || skipWidth <= 0 {
      return [], line, 0;
    }
    var carried: Line, used: nat, offset := [], 0, 0;
    while offset < |line| && used < skipWidth
      invariant offset <= |line|
      invariant SuffixOf(line, skipWidth) == SuffixFrom(line[offset..], skipWidth, carried, used)
    {
      var t := line[offset];
      if t.width == 0 {
        carried := carried + [t];
      }
      used := used + t.width;
      offset := offset + 1;
    }
    if offset >= |line| {
      return [], [], used;
    }
    return carried, line[offset..], used;
  }

  // ----- Splice

  function Splice(background: Line, replacement: Line, column: int, replaceWidth: int): Line {
    if replaceWidth <= 0 || column + replaceWidth <= 0 then background
    else
      var leftClip, start := Max(0, -column), Max(0, column);
      var visibleWidth := replaceWidth - leftClip;
      Fitted(background, start) + Fitted(Clipped(replacement, leftClip), visibleWidth)
      + Clipped(background, column + replaceWidth)
  }

  /** The prefix of a line that fits `n` cells, padded to them, then the controls of the rest. */
  function Fitted(line: Line, n: int): Line {
    var p := PrefixOf(line, n);
    p.content + Spaces(Max(0, n - p.width)) + p.controls
  }

  /** A line without its first `n` cells, blanks standing for the rest of a grapheme that is cut. */
  function Clipped(line: Line, n: int): Line {
    var s := SuffixOf(line, n);
    s.controls + Spaces(Max(0, s.skipped - n)) + s.rest
  }

  // ----- the parts as windows

  /** Past the cut only controls are kept. */
  lemma {:induction false} TruncatedPrefix(rest: Line, maxWidth: nat, width: nat)
    ensures
      var p := PrefixFrom(rest, maxWidth, width, true);
      Controls(p.controls) && p.content == [] && p.width == width
    decreases |rest|
  {
    if rest != [] {
      TruncatedPrefix(rest[1..], maxWidth, width);
    }
  }

  lemma {:induction false} PrefixFromCells(rest: Line, maxWidth: nat, width: nat)
    requires width <= maxWidth
    ensures
      var p, cells := PrefixFrom(rest, maxWidth, width, false), Cells(rest);
      && Controls(p.controls) && width <= p.width <= maxWidth
      && p.width - width <= |cells| && Cells(p.content) == cells[..p.width - width]
      && forall i | p.width - width <= i < |cells| && width + i < maxWidth ::
           cells[i].offset == i - (p.width - width) && p.width + cells[i].token.width > maxWidth
    decreases |rest|
  {
    if rest != [] {
      var t, later := rest[0], rest[1..];
      var p := PrefixFrom(rest, maxWidth, width, false);
      if width + t.width <= maxWidth {
        PrefixFromCells(later, maxWidth, width + t.width);
        var q := PrefixFrom(later, maxWidth, width + t.width, false);
        assert p.content == [t] + q.content && p.content[1..] == q.content;
        hide PrefixFrom;
      } else {
        TruncatedPrefix(later, maxWidth, width);
      }
    }
  }

  /** A prefix padded to its width shows what is seen through a window at the line's start. */
  lemma PrefixIsWindow(line: Line, n: nat)
    ensures
      var p := PrefixOf(line, n);
      p.width <= n && Controls(p.controls)
      && Cells(p.content) + seq(n - p.width, _ => BLANK) == Window(Cells(line), 0, n)
  {
    var p, cells := PrefixOf(line, n), Cells(line);
    LinesAreWhole(line);
    LinesAreWhole(p.content);
    if line != [] && n > 0 {
      PrefixFromCells(line, n, 0);
    }
    var padded := Cells(p.content) + seq(n - p.width, _ => BLANK);
    forall i | 0 <= i < n
      ensures padded[i] == Through(cells, i, 0, n)
    {
      if i < p.width {
        assert Cells(p.content)[i] == cells[i];
        assert Within(Cells(p.content), i, 0, p.width);
      }
    }
  }

  lemma {:induction false} SuffixFromCells(rest: Line, skipWidth: nat, carried: Line, used: nat)
    requires Controls(carried)
    ensures
      var s := SuffixFrom(rest, skipWidth, carried, used);
      && Controls(s.controls)
      && used <= s.skipped <= used + |Cells(rest)|
      && Cells(s.rest) == Cells(rest)[s.skipped - used..]
      && (s.skipped < skipWidth ==> s.skipped == used + |Cells(rest)|)
      && forall i | 0 <= i < s.skipped - used && used < skipWidth :: used + i - Cells(rest)[i].offset < skipWidth
    decreases |rest|
  {
    if rest != [] && used < skipWidth {
      var t, later := rest[0], rest[1..];
      var more := if t.width == 0 then carried + [t] else carried;
      SuffixFromCells(later, skipWidth, more, used + t.width);
      OffsetsBefore(t, Cells(later), used, SuffixFrom(later, skipWidth, more, used + t.width).skipped, skipWidth);
    }
  }

  /** What holds of the offsets before a cut holds with a token put in front that starts before it. */
  lemma OffsetsBefore(t: Token, later: seq<Cell>, used: nat, skipped: nat, skipWidth: nat)
    requires used < skipWidth && used + t.width <= skipped <= used + t.width + |later|
    requires used + t.width < skipWidth ==>
               forall i | 0 <= i < skipped - (used + t.width) :: used + t.width + i - later[i].offset < skipWidth
    requires used + t.width >= skipWidth ==> skipped == used + t.width
    ensures
      var cells := TokenCells(t) + later;
      forall i | 0 <= i < skipped - used :: used + i - cells[i].offset < skipWidth
  {
    var cells := TokenCells(t) + later;
    forall i | 0 <= i < skipped - used
      ensures used + i - cells[i].offset < skipWidth
    {
      if i >= t.width {
        assert cells[i] == later[i - t.width];
      }
    }
  }

  lemma SuffixCells(line: Line, n: nat)
    ensures
      var s, cells := SuffixOf(line, n), Cells(line);
      && Controls(s.controls)
      && s.skipped <= |cells| && Cells(s.rest) == cells[s.skipped..]
      && (s.skipped < n ==> s.skipped == |cells|)
      && (forall i | n <= i < s.skipped :: i - cells[i].offset < n)
      && (forall i | Max(n, s.skipped) <= i < |cells| :: Within(cells, i, n, |cells|))
  {
    var s, cells := SuffixOf(line, n), Cells(line);
    if line != [] && n > 0 {
      SuffixFromCells(line, n, [], 0);
    }
    LinesAreWhole(s.rest);
    hide Cells, SuffixOf, SuffixFrom, Controls, Whole;
    RestIsWithin(cells, s.rest, s.skipped, n);
  }

  lemma RestIsWithin(cells: seq<Cell>, rest: Line, skipped: nat, n: nat)
    requires skipped <= |cells| && Cells(rest) == cells[skipped..] && Whole(Cells(rest))
    requires skipped < n ==> skipped == |cells|
    ensures forall i | Max(n, skipped) <= i < |cells| :: Within(cells, i, n, |cells|)
  {
    hide Cells;
    forall i | Max(n, skipped) <= i < |cells|
      ensures Within(cells, i, n, |cells|)
    {
      assert cells[i] == Cells(rest)[i - skipped];
      assert Within(Cells(rest), i - skipped, 0, |Cells(rest)|);
    }
  }

  lemma PaddedTail(cells: seq<Cell>, n: nat, skipped: nat)
    requires skipped <= |cells| && (skipped < n ==> skipped == |cells|)
    requires forall i | n <= i < skipped :: i - cells[i].offset < n
    requires forall i | Max(n, skipped) <= i < |cells| :: Within(cells, i, n, |cells|)
    ensures seq(Max(0, skipped - n), _ => BLANK) + cells[skipped..] == Window(cells, n, Max(n, |cells|))
  {
    var padded := seq(Max(0, skipped - n), _ => BLANK) + cells[skipped..];
    var window := Window(cells, n, Max(n, |cells|));
    assert |padded| == |window|;
    forall k | 0 <= k < |window|
      ensures padded[k] == window[k]
    {
      assert window[k] == Through(cells, n + k, n, Max(n, |cells|));
      if n + k < skipped {
        assert n + k - cells[n + k].offset < n;
      } else {
        assert Within(cells, n + k, n, |cells|);
      }
    }
  }

  /** What is left after a cut, padded to the cut, shows what is seen through a window to the line's end. */
  lemma SuffixIsWindow(line: Line, n: nat)
    ensures
      var s := SuffixOf(line, n);
      Controls(s.controls)
      && Cells(Spaces(Max(0, s.skipped - n)) + s.rest) == Window(Cells(line), n, Max(n, |Cells(line)|))
  {
    var s, cells := SuffixOf(line, n), Cells(line);
    SuffixCells(line, n);
    var blanks := Max(0, s.skipped - n);
    CellsOfSpaces(blanks);
    CellsConcat(Spaces(blanks), s.rest);
    PaddedTail(cells, n, s.skipped);
  }

  /** Clipping twice is looking through the smaller window. */
  lemma WindowOfWindow(cells: seq<Cell>, lo: nat, width: nat)
    requires Whole(cells)
    ensures Window(Window(cells, lo, Max(lo, |cells|)), 0, width) == Window(cells, lo, lo + width)
  {
    var outer := Window(cells, lo, Max(lo, |cells|));
    forall k | 0 <= k < width
      ensures Through(outer, k, 0, width) == Through(cells, lo + k, lo, lo + width)
    {
      if lo + k < |cells| {
        assert Within(cells, lo + k, 0, |cells|);
        assert outer[k] == Through(cells, lo + k, lo, |cells|);
      }
    }
  }

  // ----- Splice refines overwriting cells

  lemma FittedIsWindow(line: Line, n: nat)
    ensures PrefixOf(line, n).width <= n
    ensures Cells(Fitted(line, n)) == Window(Cells(line), 0, n)
  {
    hide Cells, Window, PrefixOf, Controls;
    PrefixIsWindow(line, n);
    var p := PrefixOf(line, n);
    var blanks := Spaces(n - p.width);
    CellsConcat(p.content + blanks, p.controls);
    CellsConcat(p.content, blanks);
    CellsOfSpaces(n - p.width);
    ControlsShowNothing(p.controls);
  }

  lemma ControlsFirst(controls: Line, blanks: Line, rest: Line)
    requires Controls(controls)
    ensures Cells(controls + blanks + rest) == Cells(blanks + rest)
  {
    hide Cells;
    assert controls + blanks + rest == controls + (blanks + rest);
    CellsConcat(controls, blanks + rest);
    ControlsShowNothing(controls);
  }

  lemma ClippedIsWindow(line: Line, n: nat)
    ensures Cells(Clipped(line, n)) == Window(Cells(line), n, Max(n, |Cells(line)|))
  {
    var s := SuffixOf(line, n);
    var blanks := Spaces(Max(0, s.skipped - n));
    assert Clipped(line, n) == s.controls + blanks + s.rest;
    hide *;
    SuffixIsWindow(line, n);
    ControlsFirst(s.controls, blanks, s.rest);
  }

  /**
   What Splice builds shows, cell by cell, the replacement inside the interval and
   the background outside it, blank where an edge cuts a grapheme or text runs out.
   */
  lemma SpliceIsComposite(background: Line, replacement: Line, column: int, width: int)
    requires width > 0 && column + width > 0
    ensures Cells(Splice(background, replacement, column, width)) ==
            Composite(Cells(background), Cells(replacement), column, Max(0, column), column + width)
  {
    var leftClip, start, end := Max(0, -column), Max(0, column), column + width;
    var clipped := Clipped(replacement, leftClip);
    hide Fitted, Clipped, Cells, Window;
    assert start - column == leftClip && end - start == width - leftClip;
    FittedIsWindow(background, start);
    ClippedIsWindow(replacement, leftClip);
    FittedIsWindow(clipped, end - start);
    LinesAreWhole(replacement);
    WindowOfWindow(Cells(replacement), leftClip, end - start);
    ClippedIsWindow(background, end);
    CellsConcat(Fitted(background, start) + Fitted(clipped, end - start), Clipped(background, end));
    CellsConcat(Fitted(background, start), Fitted(clipped, end - start));
  }

  /** A spliced line is as wide as the background, or as the interval's end if that is further. */
  lemma SpliceWidth(background: Line, replacement: Line, column: int, width: int)
    requires width > 0 && column + width > 0
    ensures LineWidth(Splice(background, replacement, column, width)) == Max(LineWidth(background), column + width)
  {
    SpliceIsComposite(background, replacement, column, width);
    WidthCountsCells(background);
    WidthCountsCells(Splice(background, replacement, column, width));
  }

  /** An interval is outside the line: empty, or off its left edge. */
  predicate Outside(column: int, width: int) {
    width <= 0 || column + width <= 0
  }

  /** Such an interval changes nothing. */
  lemma SpliceOutside(background: Line, replacement: Line, column: int, width: int)
    requires Outside(column, width)
    ensures Splice(background, replacement, column, width) == background
  {
  }

  // ----- the algebra of splices

  lemma CompositeAt(background: seq<Cell>, panel: seq<Cell>, column: int, lo: nat, hi: nat, i: nat)
    requires lo <= hi && i < Max(hi, |background|)
    ensures |Composite(background, panel, column, lo, hi)| == Max(hi, |background|)
    ensures Composite(background, panel, column, lo, hi)[i] ==
            if i < lo then Through(background, i, 0, lo)
            else if i < hi then Through(panel, i - column, lo - column, hi - column)
            else Through(background, i, hi, |background|)
  {
  }

  /** A composite of whole graphemes shows whole graphemes. */
  lemma CompositeIsWhole(background: seq<Cell>, panel: seq<Cell>, column: int, lo: nat, hi: nat)
    requires lo <= hi
    ensures Whole(Composite(background, panel, column, lo, hi))
  {
    var c := Composite(background, panel, column, lo, hi);
    forall i | 0 <= i < |c|
      ensures Within(c, i, 0, |c|)
    {
      CompositeAt(background, panel, column, lo, hi, i);
      hide Composite;
    }
  }

  /** Composites into disjoint intervals can be made in either order. */
  lemma CompositesCommute(background: seq<Cell>,
                          p1: seq<Cell>, c1: int, lo1: nat, hi1: nat,
                          p2: seq<Cell>, c2: int, lo2: nat, hi2: nat)
    requires Whole(background) && lo1 < hi1 <= lo2 < hi2
    ensures Composite(Composite(background, p1, c1, lo1, hi1), p2, c2, lo2, hi2) ==
            Composite(Composite(background, p2, c2, lo2, hi2), p1, c1, lo1, hi1)
  {
    var b1, b2 := Composite(background, p1, c1, lo1, hi1), Composite(background, p2, c2, lo2, hi2);
    var b12, b21 := Composite(b1, p2, c2, lo2, hi2), Composite(b2, p1, c1, lo1, hi1);
    var n := Max(hi2, |background|);
    CompositeAt(background, p1, c1, lo1, hi1, 0);
    CompositeAt(background, p2, c2, lo2, hi2, 0);
    CompositeAt(b1, p2, c2, lo2, hi2, 0);
    CompositeAt(b2, p1, c1, lo1, hi1, 0);
    assert |b12| == |b21| == n;
    forall i | 0 <= i < n
      ensures b12[i] == b21[i]
    {
      CompositeAt(b1, p2, c2, lo2, hi2, i);
      CompositeAt(b2, p1, c1, lo1, hi1, i);
      CompositeAt(background, p2, c2, lo2, hi2, i);
      if i < |b1| {
        CompositeAt(background, p1, c1, lo1, hi1, i);
      }
      if i < |background| {
        assert Within(background, i, 0, |background|);
      }
      hide Composite;
    }
  }

  /** A composite hides an earlier one into the same interval; repeating it changes nothing. */
  lemma CompositeAbsorbs(background: seq<Cell>, p1: seq<Cell>, c1: int, p2: seq<Cell>, c2: int, lo: nat, hi: nat)
    requires lo <= hi
    ensures Composite(Composite(background, p1, c1, lo, hi), p2, c2, lo, hi) == Composite(background, p2, c2, lo, hi)
  {
    var b1, b2 := Composite(background, p1, c1, lo, hi), Composite(background, p2, c2, lo, hi);
    var b12 := Composite(b1, p2, c2, lo, hi);
    forall i | 0 <= i < Max(hi, |background|)
      ensures |b12| == |b2| && b12[i] == b2[i]
    {
      CompositeAt(background, p1, c1, lo, hi, i);
      CompositeAt(background, p2, c2, lo, hi, i);
      CompositeAt(b1, p2, c2, lo, hi, i);
      hide Composite;
    }
    assert |b12| == |b2|;
  }

  lemma InsideSplicesCommute(background: Line, r1: Line, col1: int, w1: int, r2: Line, col2: int, w2: int)
    requires !Outside(col1, w1) && w2 > 0 && col1 + w1 <= col2
    ensures Cells(Splice(Splice(background, r1, col1, w1), r2, col2, w2)) ==
            Cells(Splice(Splice(background, r2, col2, w2), r1, col1, w1))
  {
    hide Splice, Composite, Cells;
    SpliceIsComposite(background, r1, col1, w1);
    SpliceIsComposite(background, r2, col2, w2);
    SpliceIsComposite(Splice(background, r1, col1, w1), r2, col2, w2);
    SpliceIsComposite(Splice(background, r2, col2, w2), r1, col1, w1);
    LinesAreWhole(background);
    CompositesCommute(Cells(background), Cells(r1), col1, Max(0, col1), col1 + w1, Cells(r2), col2, col2, col2 + w2);
  }

  /** On lines: splices into disjoint intervals show the same cells in either order. */
  lemma SplicesCommute(background: Line, r1: Line, col1: int, w1: int, r2: Line, col2: int, w2: int)
    requires col1 + w1 <= col2
    ensures Cells(Splice(Splice(background, r1, col1, w1), r2, col2, w2)) ==
            Cells(Splice(Splice(background, r2, col2, w2), r1, col1, w1))
  {
    hide Splice, Composite, Cells;
    if Outside(col1, w1) {
      SpliceOutside(background, r1, col1, w1);
      SpliceOutside(Splice(background, r2, col2, w2), r1, col1, w1);
    } else if w2 <= 0 {
      SpliceOutside(background, r2, col2, w2);
      SpliceOutside(Splice(background, r1, col1, w1), r2, col2, w2);
    } else {
      InsideSplicesCommute(background, r1, col1, w1, r2, col2, w2);
    }
  }

  /** On lines: splicing into an interval hides an earlier splice into it. */
  lemma SpliceAbsorbs(background: Line, r1: Line, r2: Line, column: int, width: int)
    ensures Cells(Splice(Splice(background, r1, column, width), r2, column, width)) ==
            Cells(Splice(background, r2, column, width))
  {
    if Outside(column, width) {
      SpliceOutside(background, r1, column, width);
    } else {
      var lo, hi := Max(0, column), column + width;
      SpliceIsComposite(background, r1, column, width);
      SpliceIsComposite(background, r2, column, width);
      SpliceIsComposite(Splice(background, r1, column, width), r2, column, width);
      CompositeAbsorbs(Cells(background), Cells(r1), column, Cells(r2), column, lo, hi);
      hide Splice, Composite, Cells;
    }
  }
}
