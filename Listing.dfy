/** The `--list` table of `pirep_cli/cli.py` (lines 41-80): the lines the listing
    prints, returned as a sequence instead of being printed. The box-drawing
    characters and the ANSI colour codes are opaque constants. */
module Listing {
  import opened Text

  const BoxWidth: nat := 78

  const H: char := '\U{2500}'
  const V: char := '\U{2502}'
  const TL: char := '\U{250C}'
  const TR: char := '\U{2510}'
  const BL: char := '\U{2514}'
  const BR: char := '\U{2518}'
  const LT: char := '\U{251C}'
  const RT: char := '\U{2524}'

  /** Bold yellow on, and attributes off. */
  const Highlighted: string := "\U{1B}[1;33m"
  const Reset: string := "\U{1B}[0m"

  const NoPireps: string := "No PIREPs found in the database."

  // ---------------------------------------------------------------------
  // Rows
  // ---------------------------------------------------------------------

  /** A horizontal rule between the corner or junction characters `l` and `r`. */
  function Rule(l: char, r: char): (row: string)
  {
    [l] + Repeat(H, BoxWidth) + [r]
  }

  function Top(): (r: string) { Rule(TL, TR) }

  function Separator(): (r: string) { Rule(LT, RT) }

  function Bottom(): (r: string) { Rule(BL, BR) }

  function TitleRow(): (r: string)
  {
    [V] + " " + Center("PIREP LIST", BoxWidth) + " " + [V]
  }

  /** `PIREP n:` padded to the box width between the colour codes. */
  function LabelRow(n: nat): (r: string)
  {
    [V] + " " + Highlighted + PadRight("PIREP " + NatToString(n) + ":", BoxWidth) + Reset + " " + [V]
  }

  /** One wrapped piece of a report line, padded to the box width. */
  function BodyRow(piece: string): (r: string)
  {
    [V] + " " + PadRight(piece, BoxWidth) + " " + [V]
  }

  /** A line with a colon has the text up to and including its first colon wrapped
      in the colour codes; any other line is kept as it is. */
  function Highlight(line: string): (r: string)
  {
    if ':' in line then
      var k := FirstIndex(line, ':');
      Highlighted + line[..k] + ":" + Reset + line[k + 1..]
    else line
  }

  function BodyRows(pieces: seq<string>): (r: seq<string>)
  {
    if pieces == [] then [] else BodyRows(pieces[..|pieces| - 1]) + [BodyRow(pieces[|pieces| - 1])]
  }

  /** The rows printed for one line of a report: its highlighted form cut into
      pieces of the box width. */
  function LineRows(line: string): (r: seq<string>)
  {
    BodyRows(Chunks(Highlight(line), BoxWidth))
  }

  function RowsOfLines(lines: seq<string>): (r: seq<string>)
  {
    if lines == [] then [] else RowsOfLines(lines[..|lines| - 1]) + LineRows(lines[|lines| - 1])
  }

  /** The rows printed for one report: each of its newline-separated lines in turn. */
  function ReportRows(report: string): (r: seq<string>)
  {
    RowsOfLines(SplitOn(report, '\n'))
  }

  // ---------------------------------------------------------------------
  // The table
  // ---------------------------------------------------------------------

  /** Report `i` (from 0): its label, numbered from 1, its rows, and a separator
      unless it is the last report. */
  function Block(reports: seq<string>, i: nat): (r: seq<string>)
    requires i < |reports|
  {
    [LabelRow(i + 1)] + ReportRows(reports[i]) + (if i + 1 < |reports| then [Separator()] else [])
  }

  /** The concatenation of a sequence of blocks of rows. */
  function Flatten<T>(xss: seq<seq<T>>): (r: seq<T>)
  {
    if xss == [] then [] else Flatten(xss[..|xss| - 1]) + xss[|xss| - 1]
  }

  function BlockList(reports: seq<string>): (r: seq<seq<string>>)
  {
    seq(|reports|, i requires 0 <= i < |reports| => Block(reports, i))
  }

  /** The blocks of the first `k` reports. */
  function Blocks(reports: seq<string>, k: nat): (r: seq<string>)
    requires k <= |reports|
  {
    Flatten(BlockList(reports)[..k])
  }

  function Header(): (r: seq<string>)
  {
    [Top(), TitleRow(), Separator()]
  }

  function Table(reports: seq<string>): (r: seq<string>)
  {
    Header() + Blocks(reports, |reports|) + [Bottom()]
  }

  /** Everything the listing branch prints for the reports `list_pireps` returned. */
  function ListOutput(reports: seq<string>): (r: seq<string>)
  {
    if reports == [] then [NoPireps] else Table(reports)
  }

  /** The line at which the block of report `i` starts. */
  function Start(reports: seq<string>, i: nat): (r: nat)
    requires i <= |reports|
  {
    |Header()| + |Blocks(reports, i)|
  }

  // ---------------------------------------------------------------------
  // Properties of the rows
  // ---------------------------------------------------------------------

  /** The rules are the box width plus two corners wide; the title and body rows
      add a space and a bar on each side, so they are two characters wider than
      the rules. The title is centred with 34 spaces on each side. */
  lemma RowWidths(piece: string)
    requires |piece| <= BoxWidth
    ensures |Top()| == |Separator()| == |Bottom()| == BoxWidth + 2
    ensures |TitleRow()| == BoxWidth + 4
    ensures TitleRow()[2..36] == Repeat(' ', 34) && TitleRow()[36..46] == "PIREP LIST"
    ensures TitleRow()[46..80] == Repeat(' ', 34)
    ensures |BodyRow(piece)| == BoxWidth + 4
    ensures BodyRow(piece)[2..2 + |piece|] == piece
    ensures forall j :: 2 + |piece| <= j < BoxWidth + 2 ==> BodyRow(piece)[j] == ' '
  {
    PadRightShape(piece, BoxWidth);
    var c := Center("PIREP LIST", BoxWidth);
    assert c == Repeat(' ', 34) + "PIREP LIST" + Repeat(' ', 34);
    assert TitleRow() == [V] + " " + c + " " + [V];
    var b := BodyRow(piece);
    var p := PadRight(piece, BoxWidth);
    assert b[2..2 + |piece|] == p[..|piece|];
  }

  /** The label of report `n` reads `PIREP n:`, and reading its digits back gives `n`. */
  lemma LabelText(n: nat)
    ensures var text := "PIREP " + NatToString(n) + ":";
      && LabelRow(n)[2 + |Highlighted|..2 + |Highlighted| + |text|] == text
      && AllDigits(text[6..|text| - 1])
      && DecimalValue(text[6..|text| - 1]) == n
  {
    var text := "PIREP " + NatToString(n) + ":";
    assert text[6..|text| - 1] == NatToString(n);
    DecimalOfNatToString(n);
    PadRightShape(text, BoxWidth);
    var row := LabelRow(n);
    var pre := [V] + " " + Highlighted;
    assert row == pre + PadRight(text, BoxWidth) + (Reset + " " + [V]);
    assert row[|pre|..|pre| + |text|] == PadRight(text, BoxWidth)[..|text|];
  }

  /** A line without a colon is printed as it is. */
  lemma HighlightNoColon(line: string)
    requires ':' !in line
    ensures Highlight(line) == line
  {
  }

  /** A line `field + ":" + rest` whose field has no colon is printed with
      `field:` between the colour codes and `rest` after them. */
  lemma HighlightSplit(line: string, field: string, rest: string)
    requires ':' !in field
    requires line == field + ":" + rest
    ensures Highlight(line) == Highlighted + field + ":" + Reset + rest
  {
    assert line[|field|] == ':';
    var k := FirstIndex(line, ':');
    assert forall j :: 0 <= j < k ==> line[..k][j] == line[j];
    assert forall j :: 0 <= j < |field| ==> line[j] == field[j];
    assert k == |field|;
    assert line[..k] == field;
    assert line[k + 1..] == rest;
  }

  /** A line with a colon splits at its first colon, as `line.split(':', 1)` does. */
  lemma HighlightHasSplit(line: string)
    requires ':' in line
    ensures var k := FirstIndex(line, ':');
      ':' !in line[..k] && line == line[..k] + ":" + line[k + 1..]
  {
    var k := FirstIndex(line, ':');
    assert line == line[..k] + [line[k]] + line[k + 1..];
  }

  lemma {:induction false} BodyRowsAt(pieces: seq<string>)
    ensures |BodyRows(pieces)| == |pieces|
    ensures forall i :: 0 <= i < |pieces| ==> BodyRows(pieces)[i] == BodyRow(pieces[i])
  {
    if pieces != [] {
      BodyRowsAt(pieces[..|pieces| - 1]);
    }
  }

  /** The rows of a line are the body rows of consecutive pieces that together
      spell the highlighted line, each piece at most the box width and every piece
      but the last exactly the box width. An empty line prints no row. */
  lemma LineRowsShape(line: string)
    ensures var pieces := Chunks(Highlight(line), BoxWidth);
      && |LineRows(line)| == |pieces|
      && (forall i :: 0 <= i < |pieces| ==> LineRows(line)[i] == BodyRow(pieces[i]))
      && Concat(pieces) == Highlight(line)
      && (forall i :: 0 <= i < |pieces| ==> 0 < |pieces[i]| <= BoxWidth)
      && (forall i :: 0 <= i < |pieces| - 1 ==> |pieces[i]| == BoxWidth)
      && (line == "" <==> LineRows(line) == [])
  {
    var pieces := Chunks(Highlight(line), BoxWidth);
    BodyRowsAt(pieces);
    ChunksConcat(Highlight(line), BoxWidth);
    ChunksWidths(Highlight(line), BoxWidth);
    if ':' in line {
      assert |Highlight(line)| > 0;
    }
  }

  /** A report without a newline is printed as one line. */
  lemma ReportRowsSingleLine(report: string)
    requires '\n' !in report
    ensures ReportRows(report) == LineRows(report)
  {
    SplitOnJoin(report, '\n');
    assert RowsOfLines([report]) == RowsOfLines([]) + LineRows(report);
  }

  // ---------------------------------------------------------------------
  // Properties of the table
  // ---------------------------------------------------------------------

  /** With no reports only the message is printed; otherwise the table opens with
      the top rule, the title and a separator, and closes with the bottom rule. */
  lemma TableFrame(reports: seq<string>)
    ensures reports == [] ==> ListOutput(reports) == [NoPireps]
    ensures reports != [] ==>
      var out := ListOutput(reports);
      && |out| == 4 + |Blocks(reports, |reports|)|
      && out[..3] == [Top(), TitleRow(), Separator()]
      && out[|out| - 1] == Bottom()
  {
  }

  lemma PrefixOfAppend<T>(a: seq<T>, b: seq<T>, n: nat)
    requires n <= |a|
    ensures (a + b)[..n] == a[..n]
  {
  }

  lemma {:induction false} FlattenPrefix<T>(xss: seq<seq<T>>, i: nat, k: nat)
    requires i < k <= |xss|
    ensures |Flatten(xss[..i])| + |xss[i]| <= |Flatten(xss[..k])|
    ensures Flatten(xss[..k])[..|Flatten(xss[..i])| + |xss[i]|] == Flatten(xss[..i]) + xss[i]
    decreases k
  {
    var n := |Flatten(xss[..i])| + |xss[i]|;
    assert xss[..k][..k - 1] == xss[..k - 1];
    if k > i + 1 {
      FlattenPrefix(xss, i, k - 1);
      PrefixOfAppend(Flatten(xss[..k - 1]), xss[k - 1], n);
    } else {
      assert Flatten(xss[..k])[..n] == Flatten(xss[..k]);
    }
  }

  lemma BlocksStep(reports: seq<string>, k: nat)
    requires k < |reports|
    ensures Blocks(reports, k + 1) == Blocks(reports, k) + Block(reports, k)
  {
    var xs := BlockList(reports);
    assert xs[..k + 1][..k] == xs[..k];
  }

  lemma SliceInside<T>(head: seq<T>, all: seq<T>, tail: seq<T>, pre: seq<T>, b: seq<T>)
    requires |pre| + |b| <= |all| && all[..|pre| + |b|] == pre + b
    ensures |head| + |pre| + |b| <= |head + all + tail|
    ensures (head + all + tail)[|head| + |pre|..|head| + |pre| + |b|] == b
  {
    var out := head + all + tail;
    forall j | 0 <= j < |b| ensures out[|head| + |pre| + j] == b[j] {
      assert out[|head| + |pre| + j] == all[|pre| + j];
      assert all[..|pre| + |b|][|pre| + j] == b[j];
    }
  }

  /** Report `i` is printed from line `Start(reports, i)` on as its block. */
  lemma BlockAt(reports: seq<string>, i: nat)
    requires i < |reports|
    ensures var out := Table(reports);
      var s := Start(reports, i);
      s + |Block(reports, i)| < |out| && out[s..s + |Block(reports, i)|] == Block(reports, i)
  {
    var xs := BlockList(reports);
    FlattenPrefix(xs, i, |reports|);
    assert xs[..|reports|] == xs;
    SliceInside(Header(), Blocks(reports, |reports|), [Bottom()], Blocks(reports, i), Block(reports, i));
  }

  lemma BlockParts<T>(out: seq<T>, s: nat, x: T, rows: seq<T>, tail: seq<T>)
    requires s + 1 + |rows| + |tail| <= |out|
    requires out[s..s + 1 + |rows| + |tail|] == [x] + rows + tail
    ensures out[s] == x
    ensures out[s + 1..s + 1 + |rows|] == rows
    ensures tail != [] ==> out[s + 1 + |rows|] == tail[0]
    ensures out[s + |rows| + |tail|] == ([x] + rows + tail)[|rows| + |tail|]
  {
    var b := [x] + rows + tail;
    assert out[s] == b[0];
    forall j | 0 <= j < |rows| ensures out[s + 1 + j] == rows[j] {
      assert out[s + 1 + j] == b[1 + j];
    }
    if tail != [] {
      assert out[s + 1 + |rows|] == b[1 + |rows|];
    }
    assert out[s + |rows| + |tail|] == b[|rows| + |tail|];
  }

  /** Report `i` is announced by its label `PIREP i+1:` and followed by its rows,
      and then by a separator when another report follows. */
  lemma LabelAndRows(reports: seq<string>, i: nat)
    requires i < |reports|
    ensures var out := Table(reports);
      var s := Start(reports, i);
      var rows := ReportRows(reports[i]);
      && s + 1 + |rows| < |out|
      && out[s] == LabelRow(i + 1)
      && out[s + 1..s + 1 + |rows|] == rows
      && (i + 1 < |reports| ==> out[s + 1 + |rows|] == Separator())
  {
    BlockAt(reports, i);
    var tail: seq<string> := if i + 1 < |reports| then [Separator()] else [];
    assert Block(reports, i) == [LabelRow(i + 1)] + ReportRows(reports[i]) + tail;
    BlockParts(Table(reports), Start(reports, i), LabelRow(i + 1), ReportRows(reports[i]), tail);
  }

  /** The rows of the last report are followed by the bottom rule. */
  lemma LastBeforeBottom(reports: seq<string>)
    requires |reports| > 0
    ensures var i := |reports| - 1;
      var out := Table(reports);
      Start(reports, i) + 1 + |ReportRows(reports[i])| == |out| - 1
  {
    BlocksStep(reports, |reports| - 1);
  }

  /** Every label but the first follows the separator that closes the report before. */
  lemma SeparatorBeforeLabel(reports: seq<string>, i: nat)
    requires 0 < i < |reports|
    ensures 0 < Start(reports, i) < |Table(reports)|
    ensures Table(reports)[Start(reports, i) - 1] == Separator()
  {
    var p := Block(reports, i - 1);
    BlockAt(reports, i - 1);
    var rows := ReportRows(reports[i - 1]);
    assert p == [LabelRow(i)] + rows + [Separator()];
    BlockParts(Table(reports), Start(reports, i - 1), LabelRow(i), rows, [Separator()]);
    BlocksStep(reports, i - 1);
  }

  /** Report `i` is announced by its label `PIREP i+1:` and followed by its rows;
      after them comes a separator when another report follows and the bottom rule
      after the last one. Every label but the first follows a separator. */
  lemma ReportPlacement(reports: seq<string>, i: nat)
    requires i < |reports|
    ensures var out := Table(reports);
      var s := Start(reports, i);
      var rows := ReportRows(reports[i]);
      && s + 1 + |rows| < |out|
      && out[s] == LabelRow(i + 1)
      && out[s + 1..s + 1 + |rows|] == rows
      && out[s + 1 + |rows|] == (if i + 1 < |reports| then Separator() else Bottom())
      && (i > 0 ==> out[s - 1] == Separator())
  {
    LabelAndRows(reports, i);
    if i + 1 == |reports| {
      LastBeforeBottom(reports);
    }
    if i > 0 {
      SeparatorBeforeLabel(reports, i);
    }
  }

  // ---------------------------------------------------------------------
  // The listing as a program
  // ---------------------------------------------------------------------

  /** The innermost loop: one body row per wrapped piece of a line. */
  method RenderLine(line: string) returns (rows: seq<string>)
    ensures rows == LineRows(line)
  {
    var content := Highlight(line);
    var pieces := Chunks(content, BoxWidth);
    rows := [];
    for c := 0 to |pieces|
      invariant rows == BodyRows(pieces[..c])
    {
      assert pieces[..c + 1][..c] == pieces[..c];
      rows := rows + [BodyRow(pieces[c])];
    }
    assert pieces[..|pieces|] == pieces;
  }

  /** The loop over the lines of one report. */
  method RenderReport(report: string) returns (rows: seq<string>)
    ensures rows == ReportRows(report)
  {
    var lines := SplitOn(report, '\n');
    rows := [];
    for j := 0 to |lines|
      invariant rows == RowsOfLines(lines[..j])
    {
      assert lines[..j + 1][..j] == lines[..j];
      var lineRows := RenderLine(lines[j]);
      rows := rows + lineRows;
    }
    assert lines[..|lines|] == lines;
  }

  /** The listing branch of `main`: the message for an empty list, or the table. */
  method Render(reports: seq<string>) returns (out: seq<string>)
    ensures out == ListOutput(reports)
  {
    if reports == [] {
      return [NoPireps];
    }
    out := [Top(), TitleRow(), Separator()];
    for idx := 0 to |reports|
      invariant out == Header() + Blocks(reports, idx)
    {
      var rows := RenderReport(reports[idx]);
      var block := [LabelRow(idx + 1)] + rows;
      if idx + 1 < |reports| {
        block := block + [Separator()];
      }
      assert block == Block(reports, idx);
      BlocksStep(reports, idx);
      out := out + block;
    }
    out := out + [Bottom()];
  }
}
