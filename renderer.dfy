/** `render_status_to_image`: the layout of the status lines on the 1-bit image.
    The image is modelled by the sequence of `draw.text` calls made on it, not by
    pixels. The width the bold font gives a text (`bold_font.getbbox(t)[2]`) is
    the parameter `labelWidth`. */
module Renderer {
  import opened Wrappers
  import opened Strings
  import Report

  datatype Font = Bold | Regular

  /** One `draw.text((x, y), text, font=...)` call. */
  datatype DrawText = DrawText(x: int, y: int, text: string, font: Font)

  /** The image created by `Image.new("1", (width, height), 255)` and the text drawn
      onto it, in drawing order. */
  datatype Image = Image(width: int, height: int, texts: seq<DrawText>)

  /** Every line starts 5 pixels from the left edge. */
  const LeftMargin := 5

  /** The vertical distance between two status lines. */
  function LinePitch(fontSize: int): int {
    fontSize + 2
  }

  /** How far line `i` lies below the first: `i` pitches, added up the way the
      cursor is advanced. */
  function RowOffset(i: nat, pitch: int): int {
    if i == 0 then 0 else RowOffset(i - 1, pitch) + pitch
  }

  /** Line `i` lies `i * pitch` pixels below the first. */
  lemma {:induction false} RowOffsetIsProduct(i: nat, pitch: int)
    ensures RowOffset(i, pitch) == i * pitch
  {
    if i > 0 {
      RowOffsetIsProduct(i - 1, pitch);
    }
  }

  /** `cmds` draws a line that contains a colon: the bold text is the part before
      the first colon followed by ": ", and right of it, in the regular font, the
      rest of the line after that colon, stripped. */
  ghost predicate DrawsSplit(line: string, cmds: seq<DrawText>, labelWidth: string -> int) {
    && |cmds| == 2
    && var labelText := cmds[0].text;
    && 2 <= |labelText| && labelText[|labelText| - 2..] == ": "
    && var name := labelText[..|labelText| - 2];
    && ':' !in name && |name| < |line| && line[..|name| + 1] == name + ":"
    && cmds[0].x == LeftMargin && cmds[0].font == Bold
    && cmds[1].x == LeftMargin + labelWidth(labelText) && cmds[1].font == Regular
    && cmds[1].text == Strip(line[|name| + 1..])
  }

  /** The `draw.text` calls for one status line drawn at height `y`. */
  function LineCommands(line: string, y: int, labelWidth: string -> int): (cmds: seq<DrawText>)
    ensures |cmds| == (if ':' in line then 2 else 1)
    ensures forall j :: 0 <= j < |cmds| ==> cmds[j].y == y
  {
    match IndexOf(line, ':')
    case None => [DrawText(LeftMargin, y, line, Regular)]
    case Some(c) =>
      var labelText := line[..c] + ": ";
      [DrawText(LeftMargin, y, labelText, Bold),
       DrawText(LeftMargin + labelWidth(labelText), y, Strip(line[c + 1..]), Regular)]
  }

  /** A line without a colon is drawn whole, in the regular font, at x = 5; a line
      with one is drawn as a bold label and a regular value as `DrawsSplit` says. */
  lemma LineCommandsMeaning(line: string, y: int, labelWidth: string -> int)
    ensures ':' !in line ==> LineCommands(line, y, labelWidth) == [DrawText(LeftMargin, y, line, Regular)]
    ensures ':' in line ==> DrawsSplit(line, LineCommands(line, y, labelWidth), labelWidth)
  {
    if ':' in line {
      var c := IndexOf(line, ':').value;
      var labelText := line[..c] + ": ";
      assert labelText[..|labelText| - 2] == line[..c];
    }
  }

  /** The line drawer `render_status_to_image` uses, as a function value. */
  function DrawLine(labelWidth: string -> int): (string, int) -> seq<DrawText> {
    (line, y) => LineCommands(line, y, labelWidth)
  }

  /** The calls for `status` when `drawLine` draws each line, the first at height `y`
      and each further line `pitch` lower. */
  function Rows(status: seq<string>, y: int, pitch: int, drawLine: (string, int) -> seq<DrawText>): seq<DrawText> {
    if status == [] then []
    else drawLine(status[0], y) + Rows(status[1..], y + pitch, pitch, drawLine)
  }

  /** All `draw.text` calls `render_status_to_image` makes for `status`. */
  function Layout(status: seq<string>, fontSize: int, labelWidth: string -> int): seq<DrawText> {
    Rows(status, 0, LinePitch(fontSize), DrawLine(labelWidth))
  }

  /** `render_status_to_image`: walk the lines with a vertical cursor that starts at 0
      and moves down `fontSize + 2` after each line; split a line at its first colon
      into a bold label and a regular value, or draw it whole in the regular font. */
  method RenderStatusToImage(status: seq<string>, width: int, height: int, fontSize: int, labelWidth: string -> int)
    returns (image: Image)
    ensures image == Image(width, height, Layout(status, fontSize, labelWidth))
  {
    var texts: seq<DrawText> := [];
    var y := 0;
    for i := 0 to |status|
      invariant y == RowOffset(i, LinePitch(fontSize))
      invariant texts + Rows(status[i..], RowOffset(i, LinePitch(fontSize)), LinePitch(fontSize), DrawLine(labelWidth))
             == Layout(status, fontSize, labelWidth)
    {
      ghost var before := texts;
      texts := texts + LineCommands(status[i], y, labelWidth);
      LayoutStep(status, i, before, fontSize, labelWidth);
      y := y + fontSize + 2;
    }
    image := Image(width, height, texts);
  }

  /** `Rows` from line `i` on is line `i` followed by the lines after it. */
  lemma RowsCons(status: seq<string>, i: nat, y: int, pitch: int, drawLine: (string, int) -> seq<DrawText>)
    requires i < |status|
    ensures Rows(status[i..], y, pitch, drawLine) == drawLine(status[i], y) + Rows(status[i + 1..], y + pitch, pitch, drawLine)
  {
    assert status[i..][1..] == status[i + 1..];
  }

  /** Appending line `i`'s calls at cursor `RowOffset(i)` keeps the calls made so far
      plus those still to come equal to the whole layout. */
  lemma LayoutStep(status: seq<string>, i: nat, texts: seq<DrawText>, fontSize: int, labelWidth: string -> int)
    requires i < |status|
    requires texts + Rows(status[i..], RowOffset(i, LinePitch(fontSize)), LinePitch(fontSize), DrawLine(labelWidth))
          == Layout(status, fontSize, labelWidth)
    ensures (texts + LineCommands(status[i], RowOffset(i, LinePitch(fontSize)), labelWidth))
          + Rows(status[i + 1..], RowOffset(i + 1, LinePitch(fontSize)), LinePitch(fontSize), DrawLine(labelWidth))
         == Layout(status, fontSize, labelWidth)
  {
    var p, draw := LinePitch(fontSize), DrawLine(labelWidth);
    var y := RowOffset(i, p);
    RowsCons(status, i, y, p, draw);
    var line := LineCommands(status[i], y, labelWidth);
    var rest := Rows(status[i + 1..], y + p, p, draw);
    assert draw(status[i], y) == line;
    assert texts + (line + rest) == (texts + line) + rest;
  }

  /** In `Rows`, line `i` is drawn `RowOffset(i)` below `y`, after the calls for the
      lines before it and before the calls for the lines after it. */
  lemma {:induction false} RowsSplit(status: seq<string>, i: nat, y: int, pitch: int, drawLine: (string, int) -> seq<DrawText>)
    requires i < |status|
    ensures Rows(status, y, pitch, drawLine)
         == Rows(status[..i], y, pitch, drawLine)
          + drawLine(status[i], y + RowOffset(i, pitch))
          + Rows(status[i + 1..], y + RowOffset(i + 1, pitch), pitch, drawLine)
  {
    if i == 0 {
      assert status[..0] == [];
    } else {
      var rest := status[1..];
      RowsSplit(rest, i - 1, y + pitch, pitch, drawLine);
      assert rest[..i - 1] == status[..i][1..];
      assert rest[i - 1] == status[i];
      assert rest[i..] == status[i + 1..];
      var before := Rows(status[..i][1..], y + pitch, pitch, drawLine);
      var here := drawLine(status[i], y + RowOffset(i, pitch));
      var after := Rows(status[i + 1..], y + RowOffset(i + 1, pitch), pitch, drawLine);
      var first := drawLine(status[0], y);
      assert Rows(rest, y + pitch, pitch, drawLine) == before + here + after;
      assert Rows(status[..i], y, pitch, drawLine) == first + before;
      assert first + (before + here + after) == (first + before) + here + after;
    }
  }

  /** Line `i` is drawn right after the calls for the lines before it, and every
      call for it is at height `i * (fontSize + 2)`. */
  lemma LineDrawnAt(status: seq<string>, i: nat, fontSize: int, labelWidth: string -> int)
    requires i < |status|
    ensures var start := |Layout(status[..i], fontSize, labelWidth)|;
            var line := LineCommands(status[i], i * (fontSize + 2), labelWidth);
            && start + |line| <= |Layout(status, fontSize, labelWidth)|
            && Layout(status, fontSize, labelWidth)[start..start + |line|] == line
            && forall j :: 0 <= j < |line| ==> line[j].y == i * (fontSize + 2)
  {
    RowsSplit(status, i, 0, LinePitch(fontSize), DrawLine(labelWidth));
    RowOffsetIsProduct(i, LinePitch(fontSize));
  }

  /** Each line's first call is exactly `fontSize + 2` pixels below the previous line's. */
  lemma NextLineOnePitchLower(status: seq<string>, i: nat, fontSize: int, labelWidth: string -> int)
    requires i + 1 < |status|
    ensures var all := Layout(status, fontSize, labelWidth);
            var here := |Layout(status[..i], fontSize, labelWidth)|;
            var next := |Layout(status[..i + 1], fontSize, labelWidth)|;
            here < next < |all| && all[next].y == all[here].y + fontSize + 2
  {
    var p, draw := LinePitch(fontSize), DrawLine(labelWidth);
    RowsSplit(status, i, 0, p, draw);
    RowsSplit(status, i + 1, 0, p, draw);
    RowsSplit(status[..i + 1], i, 0, p, draw);
    assert status[..i + 1][..i] == status[..i];
    assert status[..i + 1][i + 1..] == [];
    var all := Layout(status, fontSize, labelWidth);
    var here := |Layout(status[..i], fontSize, labelWidth)|;
    var line := LineCommands(status[i], RowOffset(i, p), labelWidth);
    var next := |Layout(status[..i + 1], fontSize, labelWidth)|;
    var nextLine := LineCommands(status[i + 1], RowOffset(i + 1, p), labelWidth);
    assert all[here] == line[0];
    assert all[next] == nextLine[0];
  }

  /** A line "name:rest" with no colon in `name` is split at that colon whatever
      `rest` holds: the bold text is `name + ": "` (so it ends in exactly one colon and
      one space), and the value is `rest` stripped, later colons included. */
  lemma SplitAtFirstColon(name: string, rest: string, y: int, labelWidth: string -> int)
    requires ':' !in name
    ensures LineCommands(name + ":" + rest, y, labelWidth)
         == [DrawText(LeftMargin, y, name + ": ", Bold),
             DrawText(LeftMargin + labelWidth(name + ": "), y, Strip(rest), Regular)]
  {
    var line := name + ":" + rest;
    assert line[|name|] == ':';
    assert line[..|name|] == name;
    assert line[|name| + 1..] == rest;
  }

  /** Lines that all contain a colon are drawn with two calls each. */
  lemma {:induction false} RowsOfLabelledLines(status: seq<string>, y: int, fontSize: int, labelWidth: string -> int)
    requires forall k :: 0 <= k < |status| ==> ':' in status[k]
    ensures |Rows(status, y, LinePitch(fontSize), DrawLine(labelWidth))| == 2 * |status|
  {
    if status != [] {
      RowsOfLabelledLines(status[1..], y + LinePitch(fontSize), fontSize, labelWidth);
    }
  }

  /** A line that starts with `name + ": "` is drawn as the bold `name + ": "` and
      the rest of the line after it, stripped. */
  lemma LabelledLineCommands(line: string, name: string, y: int, labelWidth: string -> int)
    requires Report.LabelledLine(line, name)
    ensures LineCommands(line, y, labelWidth)
         == [DrawText(LeftMargin, y, name + ": ", Bold),
             DrawText(LeftMargin + labelWidth(name + ": "), y, Strip(line[|name| + 2..]), Regular)]
  {
    var tail := line[|name| + 2..];
    assert line == name + ":" + (" " + tail);
    SplitAtFirstColon(name, " " + tail, y, labelWidth);
    StripAfterSpace(" ", tail);
  }

  /** When every line has a colon, line `k` is drawn by calls `2 * k` and `2 * k + 1`
      of the layout, at height `k * (fontSize + 2)`. */
  lemma PairOfCallsPerLine(lines: seq<string>, fontSize: int, labelWidth: string -> int, k: nat)
    requires k < |lines|
    requires forall j :: 0 <= j < |lines| ==> ':' in lines[j]
    ensures var cmds := Layout(lines, fontSize, labelWidth);
            var line := LineCommands(lines[k], k * (fontSize + 2), labelWidth);
            && |cmds| == 2 * |lines| && |line| == 2
            && cmds[2 * k] == line[0] && cmds[2 * k + 1] == line[1]
  {
    var cmds := Layout(lines, fontSize, labelWidth);
    var line := LineCommands(lines[k], k * (fontSize + 2), labelWidth);
    RowsOfLabelledLines(lines, 0, fontSize, labelWidth);
    RowsOfLabelledLines(lines[..k], 0, fontSize, labelWidth);
    LineDrawnAt(lines, k, fontSize, labelWidth);
    assert cmds[2 * k..2 * k + 2] == line;
  }

  /** Lines that each start with their own label and ": " are drawn with two calls
      each; for line `k` the bold label `names[k] + ": "` at `(5, k * (fontSize + 2))`,
      then the stripped value right of the label's width on the same row. */
  lemma RenderedLabelledLines(lines: seq<string>, names: seq<string>, fontSize: int, labelWidth: string -> int, k: nat)
    requires |names| == |lines| && k < |lines|
    requires forall j :: 0 <= j < |lines| ==> Report.LabelledLine(lines[j], names[j])
    ensures var cmds := Layout(lines, fontSize, labelWidth);
            var labelText := names[k] + ": ";
            && |labelText| <= |lines[k]|
            && |cmds| == 2 * |lines|
            && cmds[2 * k] == DrawText(LeftMargin, k * (fontSize + 2), labelText, Bold)
            && cmds[2 * k + 1] == DrawText(LeftMargin + labelWidth(labelText), k * (fontSize + 2),
                                           Strip(lines[k][|labelText|..]), Regular)
  {
    assert Report.LabelledLine(lines[k], names[k]);
    forall j | 0 <= j < |lines| ensures ':' in lines[j] {
      assert Report.LabelledLine(lines[j], names[j]);
      assert lines[j][|names[j]|] == ':';
    }
    PairOfCallsPerLine(lines, fontSize, labelWidth, k);
    LabelledLineCommands(lines[k], names[k], k * (fontSize + 2), labelWidth);
  }

  /** Rendering the eight-line report (`display_status`) gives sixteen calls: for line
      `k` the bold label `Labels[k] + ": "` at `(5, k * (fontSize + 2))`, then the
      stripped value right of the label's width on the same row. */
  lemma RenderedReport(f: Report.StatusFields, fontSize: int, labelWidth: string -> int, k: nat)
    requires k < 8
    ensures var lines := Report.StatusLines(f);
            var cmds := Layout(lines, fontSize, labelWidth);
            var labelText := Report.Labels[k] + ": ";
            && |cmds| == 16
            && cmds[2 * k] == DrawText(LeftMargin, k * (fontSize + 2), labelText, Bold)
            && cmds[2 * k + 1] == DrawText(LeftMargin + labelWidth(labelText), k * (fontSize + 2),
                                           Strip(lines[k][|labelText|..]), Regular)
  {
    RenderedLabelledLines(Report.StatusLines(f), Report.Labels, fontSize, labelWidth, k);
  }
}
