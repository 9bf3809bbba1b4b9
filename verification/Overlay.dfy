/** internal/tui/screen, OverlayAt: a panel over a screen of lines. */
module Overlay {
  import opened Ints
  import opened Screen
  import opened Styles

  /** A screen is its lines; a Go string split at newlines has at least one. */
  type Lines = lines: seq<Line> | |lines| > 0 witness [[]]

  /** Width: the widest line. */
  function Width(lines: seq<Line>): (w: nat)
    ensures forall i | 0 <= i < |lines| :: LineWidth(lines[i]) <= w
    ensures lines != [] ==> exists i | 0 <= i < |lines| :: LineWidth(lines[i]) == w
  {
    if lines == [] then 0 else Max(LineWidth(lines[|lines| - 1]), Width(lines[..|lines| - 1]))
  }

  /** `background` with empty rows below until there are `height`. */
  function Padded(background: seq<Line>, height: int): seq<Line> {
    background + seq(Max(0, height - |background|), _ => [])
  }

  /** The columns of the viewport the panel shows in. */
  datatype Span = Span(start: int, end: int)

  function Visible(panel: Lines, width: int, column: int): Span {
    Span(Max(0, column), Min(width, column + Width(panel)))
  }

  /** They are the columns of the viewport that some row of the panel reaches. */
  lemma VisibleIff(panel: Lines, width: int, column: int, c: int)
    ensures
      var span := Visible(panel, width, column);
      span.start <= c < span.end <==>
      0 <= c < width && exists i | 0 <= i < |panel| :: column <= c < column + LineWidth(panel[i])
  {
    hide LineWidth;
  }

  /** Row y of the screen has a panel row on it. */
  predicate Covered(panel: Lines, height: int, row: int, y: int) {
    0 <= y < height && 0 <= y - row < |panel|
  }

  /** A row of the screen shows its panel row, first cell at `column`, through the span, and each cell in its own style. */
  ghost predicate Overlaid(shown: Line, background: Line, panelLine: Line, column: int, span: Span) {
    && 0 <= span.start < span.end && column <= span.start
    && (forall i: nat :: ControlsBefore(shown, i) == StyleAt(background, panelLine, column, span.start, span.end, i))
    && Cells(shown) == Composite(Cells(background), Cells(panelLine), column, span.start, span.end)
  }

  method OverlayAt(background: Lines, panel: Lines, width: int, height: int, row: int, column: int)
    returns (screen: seq<Line>)
    ensures panel == [[]] || width <= 0 || height <= 0 ==> screen == background
    ensures panel != [[]] && width > 0 && height > 0 ==>
              var span := Visible(panel, width, column);
              && |screen| == Max(|background|, height)
              && forall y | 0 <= y < |screen| ::
                   var under := if y < |background| then background[y] else [];
                   if span.start < span.end && 0 <= y < height && 0 <= y - row < |panel|
                   then Overlaid(screen[y], under, panel[y - row], column, span) else screen[y] == under
  {
    hide Splice, Clipped, Overlaid, Width, Cells, Composite;
    if panel == [[]] || width <= 0 || height <= 0 {
      return background;
    }
    ghost var rows := Padded(background, height);
    var backgroundLines := new Line[Max(|background|, height)](i requires 0 <= i =>
      if i < |background| then background[i] else []);
    assert backgroundLines[..] == rows;
    var span := Visible(panel, width, column);
    if span.end <= span.start {
      return backgroundLines[..];
    }
    var leftClip := span.start - column;
    var visibleWidth := span.end - span.start;
    for panelRow := 0 to |panel|
      invariant forall y | 0 <= y < |rows| ::
          if Covered(panel, height, row, y) && y - row < panelRow
          then Overlaid(backgroundLines[y], rows[y], panel[y - row], column, span) else backgroundLines[y] == rows[y]
    {
      var backgroundRow := row + panelRow;
      if 0 <= backgroundRow < height {
        var visibleLine := Clipped(panel[panelRow], leftClip);
        ClippedPanelRow(rows[backgroundRow], panel[panelRow], column, span);
        backgroundLines[backgroundRow] :=
          Splice(backgroundLines[backgroundRow], visibleLine, span.start, visibleWidth);
      }
    }
    return backgroundLines[..];
  }

  /** Clipping a panel row at the viewport and splicing what is left composes the row as it stands. */
  lemma ClippedPanelRow(background: Line, panelLine: Line, column: int, span: Span)
    requires 0 <= span.start < span.end && column <= span.start
    ensures Overlaid(Splice(background, Clipped(panelLine, span.start - column), span.start, span.end - span.start),
                     background, panelLine, column, span)
  {
    hide Splice, Clipped, Cells, Window, ControlsBefore, StyleAt;
    var clip := span.start - column;
    var shown := Splice(background, Clipped(panelLine, clip), span.start, span.end - span.start);
    SpliceIsComposite(background, Clipped(panelLine, clip), span.start, span.end - span.start);
    ClippedIsWindow(panelLine, clip);
    LinesAreWhole(panelLine);
    WindowOfWindow(Cells(panelLine), clip, span.end - span.start);
    forall i: nat
      ensures ControlsBefore(shown, i) == StyleAt(background, panelLine, column, span.start, span.end, i)
    {
      SpliceStyles(background, Clipped(panelLine, clip), span.start, span.end - span.start, i);
      ClippedPanelStyle(background, panelLine, column, span, i);
    }
  }

  lemma ClippedPanelStyle(background: Line, panelLine: Line, column: int, span: Span, i: nat)
    requires 0 <= span.start < span.end && column <= span.start
    ensures StyleAt(background, Clipped(panelLine, span.start - column), span.start, span.start, span.end, i) ==
            StyleAt(background, panelLine, column, span.start, span.end, i)
  {
    var clip := span.start - column;
    ClippedStyles(panelLine, clip, if i >= span.start then i - span.start else 0);
    hide Clipped, ControlsBefore, ControlsOf, LineWidth;
  }

  /**
   Outside the panel's visible rectangle a cell changes only where it belongs to a
   wide grapheme cut by the rectangle's edge, and then it becomes blank.
   */
  lemma OverlayLeavesTheRest(background: seq<Cell>, panel: seq<Cell>, column: int, lo: nat, hi: nat, i: nat)
    requires Whole(background) && lo <= hi && i < |background| && (i < lo || hi <= i)
    ensures i < |Composite(background, panel, column, lo, hi)|
    ensures
      var start, end := i - background[i].offset, i - background[i].offset + background[i].token.width;
      Composite(background, panel, column, lo, hi)[i] ==
      if (i < lo && lo < end) || (hi <= i && start < hi) then BLANK else background[i]
  {
    CompositeAt(background, panel, column, lo, hi, i);
    assert Within(background, i, 0, |background|);
  }
}
