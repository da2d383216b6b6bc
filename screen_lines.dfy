/**
 * Character cells and the lines of the screen image, with the edits the
 * screen applies to a single line (erase, insert, delete cells) and to a
 * range of lines (scroll the lines of a region up or down).
 *
 * A line may be shorter than the screen width (cells past its end read as
 * blank) or longer (a narrower resize does not truncate lines).
 */
module ImageLines {

  /** A character colour: its colour space and the colour code within it. */
  datatype Color = Color(space: int, code: int)

  /** A default-constructed colour (no colour space). */
  const UndefinedColor: Color := Color(0, 0)
  /** The default foreground and background colours. */
  const DefaultForeground: Color := Color(1, 0)
  const DefaultBackground: Color := Color(1, 1)

  /** Rendition flags of a cell; `Extended` marks a cell whose character is an extended-character index. */
  datatype RenditionFlag = Bold | Faint | Italic | Underline | Blink | Reverse | Conceal | Overline | Strikeout | Extended

  /** One character cell of the image. */
  datatype Cell = Cell(character: nat, foreground: Color, background: Color, rendition: set<RenditionFlag>)

  type Line = seq<Cell>

  const SPACE: nat := 32

  /** A blank cell in the given colours, without rendition flags. */
  function Blank(foreground: Color, background: Color): (c: Cell)
    ensures c.character == SPACE && c.rendition == {}
  {
    Cell(SPACE, foreground, background, {})
  }

  function Repeat<T>(x: T, n: nat): (r: seq<T>)
    ensures |r| == n && forall i :: 0 <= i < n ==> r[i] == x
  {
    seq(n, _ => x)
  }

  function MaxNat(a: nat, b: nat): nat
  {
    if a <= b then b else a
  }

  function MinNat(a: nat, b: nat): nat
  {
    if a <= b then a else b
  }

  /** `line` extended with blanks to at least `n` cells (a line grows when a cell past its end is written). */
  function Padded(line: Line, n: nat, blank: Cell): (r: Line)
    ensures |r| == MaxNat(|line|, n)
    ensures forall i :: 0 <= i < |line| ==> r[i] == line[i]
    ensures forall i :: |line| <= i < |r| ==> r[i] == blank
  {
    if |line| >= n then line else line + Repeat(blank, n - |line|)
  }

  /** Cells `from .. to` (inclusive) of `line` overwritten with `c`. */
  function Fill(line: Line, from: nat, to: nat, c: Cell): (r: Line)
    requires from <= to
    ensures |r| == MaxNat(|line|, to + 1)
    ensures forall i :: from <= i <= to ==> r[i] == c
    ensures forall i :: 0 <= i < |r| && !(from <= i <= to) ==> r[i] == Padded(line, to + 1, c)[i]
  {
    var p := Padded(line, to + 1, c);
    seq(|p|, i requires 0 <= i < |p| => if from <= i <= to then c else p[i])
  }

  /**
   * `n` blank cells inserted at column `x`; the cells from `x` on move right
   * and whatever passes the screen width `columns` is dropped, also on a
   * line that was already longer than the screen.
   */
  function InsertCells(line: Line, x: nat, n: nat, columns: nat, blank: Cell): (r: Line)
    requires x <= columns
    ensures |r| == MinNat(MaxNat(|line|, x) + n, columns)
    ensures forall i :: 0 <= i < x ==> r[i] == Padded(line, x, blank)[i]
    ensures forall i :: x <= i < x + n && i < |r| ==> r[i] == blank
    ensures forall i :: x + n <= i < |r| ==> r[i] == Padded(line, x, blank)[i - n]
  {
    var p := Padded(line, x, blank);
    var inserted := p[..x] + Repeat(blank, n) + p[x..];
    if |inserted| > columns then inserted[..columns] else inserted
  }

  /**
   * `n` cells deleted at column `x` (at most as many as the line has from
   * `x` on); the cells after them move left and blanks fill the end, so the
   * line keeps its length. Nothing happens when `x` is past the line's end.
   */
  function DeleteCells(line: Line, x: nat, n: nat, blank: Cell): (r: Line)
    ensures |r| == |line|
    ensures forall i :: 0 <= i < x && i < |line| ==> r[i] == line[i]
    ensures forall i :: x <= i && i + n < |line| ==> r[i] == line[i + n]
    ensures forall i :: x <= i < |line| && |line| <= i + n ==> r[i] == blank
  {
    if x >= |line| then line
    else
      var k := MinNat(n, |line| - x);
      line[..x] + line[x + k..] + Repeat(blank, k)
  }

  /**
   * Inserting `n` blanks at `x` and then deleting `n` cells at `x` gives
   * back the original cells, except those the insertion pushed past the
   * screen width.
   */
  lemma InsertThenDelete(line: Line, x: nat, n: nat, columns: nat, blank: Cell, i: nat)
    requires x <= columns && i < |Padded(line, x, blank)| && i + n < columns
    ensures var r := DeleteCells(InsertCells(line, x, n, columns, blank), x, n, blank);
            i < |r| && r[i] == Padded(line, x, blank)[i]
  {
  }

  /** Deleting cells never changes the line's length, and only cells from `x` on change. */
  lemma DeleteCellsLocal(line: Line, x: nat, n: nat, blank: Cell)
    ensures DeleteCells(line, x, n, blank)[..MinNat(x, |line|)] == line[..MinNat(x, |line|)]
  {
  }

  // ---------------------------------------------------------------------
  // Regions of lines
  // ---------------------------------------------------------------------

  /**
   * The lines `from .. bottom` move up by `n`: line `i + n` becomes line `i`,
   * the `n` lines at the bottom of the region become `blankLine`, and the
   * lines outside the region stay.
   */
  function ScrollRegionUp(ls: seq<Line>, from: nat, bottom: nat, n: nat, blankLine: Line): (r: seq<Line>)
    requires from <= bottom < |ls| && 1 <= n <= bottom + 1 - from
    ensures |r| == |ls|
    ensures forall i :: from <= i <= bottom - n ==> r[i] == ls[i + n]
    ensures forall i :: bottom - n < i <= bottom ==> r[i] == blankLine
    ensures forall i :: 0 <= i < |ls| && !(from <= i <= bottom) ==> r[i] == ls[i]
  {
    ls[..from] + ls[from + n..bottom + 1] + Repeat(blankLine, n) + ls[bottom + 1..]
  }

  /**
   * The lines `from .. bottom` move down by `n`: line `i - n` becomes line
   * `i`, the `n` lines at the top of the region become `blankLine`, the
   * lines pushed past `bottom` are dropped, and the lines outside stay.
   */
  function ScrollRegionDown(ls: seq<Line>, from: nat, bottom: nat, n: nat, blankLine: Line): (r: seq<Line>)
    requires from <= bottom < |ls| && 1 <= n <= bottom + 1 - from
    ensures |r| == |ls|
    ensures forall i :: from + n <= i <= bottom ==> r[i] == ls[i - n]
    ensures forall i :: from <= i < from + n ==> r[i] == blankLine
    ensures forall i :: 0 <= i < |ls| && !(from <= i <= bottom) ==> r[i] == ls[i]
  {
    ls[..from] + Repeat(blankLine, n) + ls[from..bottom + 1 - n] + ls[bottom + 1..]
  }

  /** Scrolling a region up and then down by the same amount restores the lines that stayed in it. */
  lemma ScrollUpThenDown(ls: seq<Line>, from: nat, bottom: nat, n: nat, blankLine: Line)
    requires from <= bottom < |ls| && 1 <= n <= bottom + 1 - from
    ensures var r := ScrollRegionDown(ScrollRegionUp(ls, from, bottom, n, blankLine), from, bottom, n, blankLine);
            |r| == |ls|
            && (forall i :: from + n <= i <= bottom ==> r[i] == ls[i])
            && (forall i :: from <= i < from + n ==> r[i] == blankLine)
            && (forall i :: 0 <= i < |ls| && !(from <= i <= bottom) ==> r[i] == ls[i])
  {
  }

  /** The lines of a region that scroll off its top, in order. */
  function ScrolledOff(ls: seq<Line>, from: nat, n: nat): (r: seq<Line>)
    requires from + n <= |ls|
    ensures |r| == n && forall i :: 0 <= i < n ==> r[i] == ls[from + i]
  {
    ls[from..from + n]
  }

  // ---------------------------------------------------------------------
  // Extended characters
  // ---------------------------------------------------------------------

  /** The characters of the cells flagged Extended in the first `count` lines. */
  function ExtendedChars(ls: seq<Line>, count: nat): set<nat>
    requires count <= |ls|
  {
    set i, j | 0 <= i < count && 0 <= j < |ls[i]| && Extended in ls[i][j].rendition :: ls[i][j].character
  }

  /** The extended characters of `count` lines are those of `count - 1` lines plus those of the last one. */
  lemma ExtendedCharsStep(ls: seq<Line>, count: nat)
    requires 0 < count <= |ls|
    ensures ExtendedChars(ls, count) == ExtendedChars(ls, count - 1) + ExtendedCharsOfLine(ls[count - 1], |ls[count - 1]|)
  {
    var a := ExtendedChars(ls, count);
    var b := ExtendedChars(ls, count - 1) + ExtendedCharsOfLine(ls[count - 1], |ls[count - 1]|);
    forall c | c in a
      ensures c in b
    {
      var i, j :| 0 <= i < count && 0 <= j < |ls[i]| && Extended in ls[i][j].rendition && c == ls[i][j].character;
      if i < count - 1 {
        assert c in ExtendedChars(ls, count - 1);
      } else {
        assert c in ExtendedCharsOfLine(ls[count - 1], |ls[count - 1]|);
      }
    }
    forall c | c in b
      ensures c in a
    {
      if c in ExtendedChars(ls, count - 1) {
        var i, j :| 0 <= i < count - 1 && 0 <= j < |ls[i]| && Extended in ls[i][j].rendition && c == ls[i][j].character;
        assert c in a;
      } else {
        var j :| 0 <= j < |ls[count - 1]| && Extended in ls[count - 1][j].rendition && c == ls[count - 1][j].character;
        assert c in a;
      }
    }
  }

  /** The characters of the cells flagged Extended among the first `count` cells of a line. */
  function ExtendedCharsOfLine(line: Line, count: nat): set<nat>
    requires count <= |line|
  {
    set j | 0 <= j < count && Extended in line[j].rendition :: line[j].character
  }

  /** One more cell of a line adds its character exactly when it is flagged Extended. */
  lemma ExtendedCharsOfLineStep(line: Line, count: nat)
    requires count < |line|
    ensures ExtendedCharsOfLine(line, count + 1)
         == ExtendedCharsOfLine(line, count) + (if Extended in line[count].rendition then {line[count].character} else {})
  {
    var a := ExtendedCharsOfLine(line, count + 1);
    var b := ExtendedCharsOfLine(line, count) + (if Extended in line[count].rendition then {line[count].character} else {});
    forall c | c in a
      ensures c in b
    {
      var j :| 0 <= j < count + 1 && Extended in line[j].rendition && c == line[j].character;
      if j < count {
        assert c in ExtendedCharsOfLine(line, count);
      }
    }
    forall c | c in b
      ensures c in a
    {
      if c in ExtendedCharsOfLine(line, count) {
        var j :| 0 <= j < count && Extended in line[j].rendition && c == line[j].character;
        assert c in a;
      } else {
        assert c == line[count].character && Extended in line[count].rendition;
        assert c in a;
      }
    }
  }
}
