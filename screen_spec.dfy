/**
 * The screen of a terminal as a value: the character image, the cursor,
 * the scrolling margins, the eight mode flags with their saved copies, the
 * single saved-cursor slot, the tab stops and the selection, together with
 * one transition function per operation the screen offers.
 *
 * Coordinates are 0-based: columns `0 .. columns - 1`, lines
 * `0 .. lines - 1`. The cursor column may equal `columns` after a character
 * was written into the last column (a wrap is pending).
 */
module ScreenSpec {
  import opened ImageLines

  const MODE_Origin: int := 0
  const MODE_Wrap: int := 1
  const MODE_Insert: int := 2
  const MODE_Screen: int := 3
  const MODE_Cursor: int := 4
  const MODE_NewLine: int := 5
  const MODE_AppScreen: int := 6
  const MODE_SelectCursor: int := 7
  const MODES_SCREEN: int := 8

  /** The largest count argument an operation acts on. */
  const MAX_SCREEN_ARGUMENT: int := 40960

  /** Default tab stops are every this many columns. */
  const TAB_WIDTH: int := 8

  /** The character written by `helpAlign`. */
  const LETTER_E: nat := 69

  /** The snapshot taken by `saveCursor`. */
  datatype SavedState = SavedState(
    cursorColumn: int,
    cursorLine: int,
    originMode: bool,
    rendition: set<RenditionFlag>,
    foreground: Color,
    background: Color)

  const InitialSavedState: SavedState := SavedState(0, 0, false, {}, UndefinedColor, UndefinedColor)

  /** The saved copies of the modes on a new screen: all off. */
  const InitialSavedModes: seq<bool> := [false, false, false, false, false, false, false, false]

  datatype ScreenState = ScreenState(
    lines: int,
    columns: int,
    screenLines: seq<Line>,
    history: seq<Line>,
    cuX: int,
    cuY: int,
    foreground: Color,
    background: Color,
    rendition: set<RenditionFlag>,
    topMargin: int,
    bottomMargin: int,
    modes: seq<bool>,
    savedModes: seq<bool>,
    tabStops: seq<bool>,
    selBegin: int,
    selTopLeft: int,
    selBottomRight: int,
    blockSelection: bool,
    saved: SavedState,
    lastDrawnChar: nat)

  predicate IsMode(m: int)
  {
    0 <= m < MODES_SCREEN
  }

  /** The invariant every operation keeps. */
  predicate Valid(s: ScreenState)
  {
    && 1 <= s.lines && 1 <= s.columns
    && |s.screenLines| == s.lines
    && 0 <= s.cuX <= s.columns && 0 <= s.cuY < s.lines
    && 0 <= s.topMargin <= s.bottomMargin < s.lines
    && |s.modes| == MODES_SCREEN && |s.savedModes| == MODES_SCREEN
    && |s.tabStops| == s.columns
    && 0 <= s.saved.cursorColumn && 0 <= s.saved.cursorLine
  }

  function MinI(a: int, b: int): int
  {
    if a <= b then a else b
  }

  function MaxI(a: int, b: int): int
  {
    if a <= b then b else a
  }

  function Clamp(x: int, lo: int, hi: int): (r: int)
    requires lo <= hi
    ensures lo <= r <= hi
    ensures lo <= x <= hi ==> r == x
    ensures x < lo ==> r == lo
    ensures hi < x ==> r == hi
  {
    if x < lo then lo else if hi < x then hi else x
  }

  /** A count argument as the operations use it: 0 (or less) acts as 1, and it is bounded by MAX_SCREEN_ARGUMENT. */
  function Arg(n: int): (r: int)
    ensures 1 <= r <= MAX_SCREEN_ARGUMENT
    ensures n <= 1 ==> r == 1
    ensures 1 <= n <= MAX_SCREEN_ARGUMENT ==> r == n
  {
    Clamp(n, 1, MAX_SCREEN_ARGUMENT)
  }

  function GetMode(s: ScreenState, m: int): bool
    requires Valid(s) && IsMode(m)
  {
    s.modes[m]
  }

  /** A blank cell in the current colours. */
  function CurrentBlank(s: ScreenState): Cell
  {
    Blank(s.foreground, s.background)
  }

  /** A cleared line: a full screen width of blanks in the current colours. */
  function BlankLine(s: ScreenState): (r: Line)
    requires 0 <= s.columns
    ensures |r| == s.columns && forall i :: 0 <= i < |r| ==> r[i] == CurrentBlank(s)
  {
    Repeat(CurrentBlank(s), s.columns)
  }

  /** The cell a line grows with when a cell past its end is written. */
  const DefaultCell: Cell := Blank(DefaultForeground, DefaultBackground)

  function SetLine(s: ScreenState, y: int, line: Line): (r: ScreenState)
    requires 0 <= y < |s.screenLines|
    ensures |r.screenLines| == |s.screenLines| && r.screenLines[y] == line
    ensures forall j :: 0 <= j < |s.screenLines| && j != y ==> r.screenLines[j] == s.screenLines[j]
    ensures r == s.(screenLines := r.screenLines)
  {
    s.(screenLines := s.screenLines[y := line])
  }

  // ---------------------------------------------------------------------
  // Cursor movement
  // ---------------------------------------------------------------------

  /** The line `cursorUp` stops at: the top margin, or the first line when the cursor is above the region. */
  function UpStop(s: ScreenState): int
  {
    if s.cuY < s.topMargin then 0 else s.topMargin
  }

  /** The line `cursorDown` stops at: the bottom margin, or the last line when the cursor is below the region. */
  function DownStop(s: ScreenState): int
  {
    if s.cuY > s.bottomMargin then s.lines - 1 else s.bottomMargin
  }

  /** The cursor column brought back into the screen (cancels a pending wrap). */
  function ClampedX(s: ScreenState): (x: int)
    requires Valid(s)
    ensures 0 <= x < s.columns && x <= s.cuX
    ensures s.cuX < s.columns ==> x == s.cuX
  {
    MinI(s.cuX, s.columns - 1)
  }

  function CursorUp(s: ScreenState, n: int): (r: ScreenState)
    requires Valid(s)
    ensures Valid(r) && r == s.(cuX := r.cuX, cuY := r.cuY)
    ensures r.cuX == ClampedX(s)
    ensures UpStop(s) <= r.cuY <= s.cuY
    ensures s.topMargin <= s.cuY ==> s.topMargin <= r.cuY
    ensures r.cuY == s.cuY - Arg(n) || r.cuY == UpStop(s)
  {
    s.(cuX := ClampedX(s), cuY := MaxI(UpStop(s), s.cuY - Arg(n)))
  }

  function CursorDown(s: ScreenState, n: int): (r: ScreenState)
    requires Valid(s)
    ensures Valid(r) && r == s.(cuX := r.cuX, cuY := r.cuY)
    ensures r.cuX == ClampedX(s)
    ensures s.cuY <= r.cuY <= DownStop(s)
    ensures s.cuY <= s.bottomMargin ==> r.cuY <= s.bottomMargin
    ensures r.cuY == s.cuY + Arg(n) || r.cuY == DownStop(s)
  {
    s.(cuX := ClampedX(s), cuY := MinI(DownStop(s), s.cuY + Arg(n)))
  }

  function CursorLeft(s: ScreenState, n: int): (r: ScreenState)
    requires Valid(s)
    ensures Valid(r) && r == s.(cuX := r.cuX)
    ensures 0 <= r.cuX <= ClampedX(s)
    ensures r.cuX == ClampedX(s) - Arg(n) || r.cuX == 0
  {
    s.(cuX := MaxI(0, ClampedX(s) - Arg(n)))
  }

  function CursorRight(s: ScreenState, n: int): (r: ScreenState)
    requires Valid(s)
    ensures Valid(r) && r == s.(cuX := r.cuX)
    ensures ClampedX(s) <= r.cuX < s.columns
    ensures r.cuX == s.cuX + Arg(n) || r.cuX == s.columns - 1
  {
    s.(cuX := MinI(s.columns - 1, s.cuX + Arg(n)))
  }

  function CursorNextLine(s: ScreenState, n: int): (r: ScreenState)
    requires Valid(s)
    ensures Valid(r) && r == s.(cuX := r.cuX, cuY := r.cuY)
    ensures r.cuX == 0
    ensures r.cuY == CursorDown(s, n).cuY
  {
    s.(cuX := 0, cuY := MinI(DownStop(s), s.cuY + Arg(n)))
  }

  function CursorPreviousLine(s: ScreenState, n: int): (r: ScreenState)
    requires Valid(s)
    ensures Valid(r) && r == s.(cuX := r.cuX, cuY := r.cuY)
    ensures r.cuX == 0
    ensures r.cuY == CursorUp(s, n).cuY
  {
    s.(cuX := 0, cuY := MaxI(UpStop(s), s.cuY - Arg(n)))
  }

  function SetCursorX(s: ScreenState, x: int): (r: ScreenState)
    requires Valid(s)
    ensures Valid(r) && r == s.(cuX := r.cuX)
    ensures 0 <= x < s.columns ==> r.cuX == x
    ensures x < 0 ==> r.cuX == 0
    ensures s.columns <= x ==> r.cuX == s.columns - 1
  {
    s.(cuX := Clamp(x, 0, s.columns - 1))
  }

  /** In origin mode the line is counted from the top margin. */
  function SetCursorY(s: ScreenState, y: int): (r: ScreenState)
    requires Valid(s)
    ensures Valid(r) && r == s.(cuY := r.cuY)
    ensures !GetMode(s, MODE_Origin) && 0 <= y < s.lines ==> r.cuY == y
    ensures GetMode(s, MODE_Origin) && 0 <= y + s.topMargin < s.lines ==> r.cuY == y + s.topMargin
    ensures 0 <= r.cuY < s.lines
  {
    s.(cuY := Clamp(y + (if s.modes[MODE_Origin] then s.topMargin else 0), 0, s.lines - 1))
  }

  function SetCursorYX(s: ScreenState, y: int, x: int): (r: ScreenState)
    requires Valid(s)
    ensures Valid(r) && r == s.(cuX := r.cuX, cuY := r.cuY)
    ensures !GetMode(s, MODE_Origin) && 0 <= y < s.lines && 0 <= x < s.columns ==> r.cuX == x && r.cuY == y
  {
    SetCursorX(SetCursorY(s, y), x)
  }

  /**
   * New scrolling margins take effect only when `0 <= top < bot < lines`;
   * the cursor then goes home (to the top margin in origin mode).
   */
  function SetMargins(s: ScreenState, top: int, bot: int): (r: ScreenState)
    requires Valid(s)
    ensures Valid(r)
    ensures 0 <= top < bot < s.lines ==>
      r == s.(topMargin := top, bottomMargin := bot, cuX := 0, cuY := if GetMode(s, MODE_Origin) then top else 0)
    ensures !(0 <= top < bot < s.lines) ==> r == s
  {
    if 0 <= top < bot < s.lines then
      s.(topMargin := top, bottomMargin := bot, cuX := 0, cuY := if s.modes[MODE_Origin] then top else 0)
    else s
  }

  function SetDefaultMargins(s: ScreenState): (r: ScreenState)
    requires Valid(s)
    ensures Valid(r) && r == s.(topMargin := r.topMargin, bottomMargin := r.bottomMargin)
    ensures r.topMargin == 0 && r.bottomMargin == s.lines - 1
  {
    s.(topMargin := 0, bottomMargin := s.lines - 1)
  }

  // ---------------------------------------------------------------------
  // Scrolling
  // ---------------------------------------------------------------------

  /** How many lines a scroll of `n` at line `from` actually moves: at most the lines from `from` to the bottom margin. */
  function ScrollCount(s: ScreenState, from: int, n: int): (k: int)
    requires Valid(s) && 0 <= from <= s.bottomMargin && 1 <= n
    ensures 1 <= k <= n && from + k <= s.bottomMargin + 1
  {
    MinI(n, s.bottomMargin + 1 - from)
  }

  /** Lines `from .. bottomMargin` scroll up by `n` (no history); nothing happens below the bottom margin. */
  function ScrollUpFrom(s: ScreenState, from: int, n: int): (r: ScreenState)
    requires Valid(s) && 0 <= from && 1 <= n
    ensures Valid(r) && r == s.(screenLines := r.screenLines)
    ensures from > s.bottomMargin ==> r == s
    ensures from <= s.bottomMargin ==>
      r.screenLines == ScrollRegionUp(s.screenLines, from, s.bottomMargin, ScrollCount(s, from, n), BlankLine(s))
  {
    if from > s.bottomMargin then s
    else s.(screenLines := ScrollRegionUp(s.screenLines, from, s.bottomMargin, ScrollCount(s, from, n), BlankLine(s)))
  }

  /** Lines `from .. bottomMargin` scroll down by `n`; the lines pushed past the bottom margin are dropped. */
  function ScrollDownFrom(s: ScreenState, from: int, n: int): (r: ScreenState)
    requires Valid(s) && 0 <= from && 1 <= n
    ensures Valid(r) && r == s.(screenLines := r.screenLines)
    ensures from > s.bottomMargin ==> r == s
    ensures from <= s.bottomMargin ==>
      r.screenLines == ScrollRegionDown(s.screenLines, from, s.bottomMargin, ScrollCount(s, from, n), BlankLine(s))
  {
    if from > s.bottomMargin then s
    else s.(screenLines := ScrollRegionDown(s.screenLines, from, s.bottomMargin, ScrollCount(s, from, n), BlankLine(s)))
  }

  /**
   * The scrolling region scrolls up by `n` lines. When the region starts at
   * the top of the screen the lines scrolled off it go to the history.
   */
  function ScrollUp(s: ScreenState, n: int): (r: ScreenState)
    requires Valid(s)
    ensures Valid(r) && r == s.(screenLines := r.screenLines, history := r.history)
    ensures var k := ScrollCount(s, s.topMargin, Arg(n));
      && r.screenLines == ScrollRegionUp(s.screenLines, s.topMargin, s.bottomMargin, k, BlankLine(s))
      && r.history == s.history + (if s.topMargin == 0 then ScrolledOff(s.screenLines, 0, k) else [])
  {
    var k := ScrollCount(s, s.topMargin, Arg(n));
    var pushed := if s.topMargin == 0 then s.(history := s.history + ScrolledOff(s.screenLines, 0, k)) else s;
    ScrollUpFrom(pushed, s.topMargin, Arg(n))
  }

  /** The scrolling region scrolls down by `n` lines. */
  function ScrollDown(s: ScreenState, n: int): (r: ScreenState)
    requires Valid(s)
    ensures Valid(r) && r == s.(screenLines := r.screenLines)
    ensures r.screenLines
         == ScrollRegionDown(s.screenLines, s.topMargin, s.bottomMargin, ScrollCount(s, s.topMargin, Arg(n)), BlankLine(s))
  {
    ScrollDownFrom(s, s.topMargin, Arg(n))
  }

  /**
   * The cursor moves down one line; on the bottom margin the region
   * scrolls up one line instead (its top line goes to the history when the
   * region starts at the top of the screen).
   */
  function Index(s: ScreenState): (r: ScreenState)
    requires Valid(s)
    ensures Valid(r) && r == s.(cuY := r.cuY, screenLines := r.screenLines, history := r.history)
    ensures s.cuY == s.bottomMargin ==>
      && r.cuY == s.cuY
      && r.screenLines == ScrollRegionUp(s.screenLines, s.topMargin, s.bottomMargin, 1, BlankLine(s))
      && r.history == s.history + (if s.topMargin == 0 then [s.screenLines[0]] else [])
    ensures s.cuY != s.bottomMargin ==>
      && r.cuY == MinI(s.cuY + 1, s.lines - 1)
      && r.screenLines == s.screenLines && r.history == s.history
  {
    if s.cuY == s.bottomMargin then ScrollUp(s, 1)
    else if s.cuY < s.lines - 1 then s.(cuY := s.cuY + 1)
    else s
  }

  /**
   * The cursor moves up one line; on the top margin the region scrolls
   * down one line instead (its bottom line is dropped).
   */
  function ReverseIndex(s: ScreenState): (r: ScreenState)
    requires Valid(s)
    ensures Valid(r) && r == s.(cuY := r.cuY, screenLines := r.screenLines)
    ensures s.cuY == s.topMargin ==>
      && r.cuY == s.cuY
      && r.screenLines == ScrollRegionDown(s.screenLines, s.topMargin, s.bottomMargin, 1, BlankLine(s))
    ensures s.cuY != s.topMargin ==>
      && r.cuY == MaxI(s.cuY - 1, 0)
      && r.screenLines == s.screenLines
  {
    if s.cuY == s.topMargin then ScrollDown(s, 1)
    else if s.cuY > 0 then s.(cuY := s.cuY - 1)
    else s
  }

  function ToStartOfLine(s: ScreenState): (r: ScreenState)
    requires Valid(s)
    ensures Valid(r) && r == SetCursorX(s, 0)
  {
    s.(cuX := 0)
  }

  /** Return followed by index. */
  function NextLine(s: ScreenState): (r: ScreenState)
    requires Valid(s)
    ensures Valid(r) && r.cuX == 0
    ensures r == Index(s).(cuX := 0)
  {
    Index(ToStartOfLine(s))
  }

  /** `nextLine` in new-line mode, `index` otherwise. */
  function NewLine(s: ScreenState): (r: ScreenState)
    requires Valid(s)
    ensures Valid(r) && r == s.(cuX := r.cuX, cuY := r.cuY, screenLines := r.screenLines, history := r.history)
    ensures r.cuY == Index(s).cuY && r.screenLines == Index(s).screenLines && r.history == Index(s).history
    ensures r.cuX == (if GetMode(s, MODE_NewLine) then 0 else s.cuX)
  {
    if s.modes[MODE_NewLine] then NextLine(s) else Index(s)
  }

  /** The cursor moves one column left and the cell it lands on is erased. */
  function Backspace(s: ScreenState): (r: ScreenState)
    requires Valid(s)
    ensures Valid(r) && r == s.(cuX := r.cuX, screenLines := r.screenLines)
    ensures r.cuX == CursorLeft(s, 1).cuX
    ensures |r.screenLines[s.cuY]| == MaxNat(|s.screenLines[s.cuY]|, r.cuX + 1)
    ensures r.screenLines[s.cuY][r.cuX] == CurrentBlank(s)
    ensures forall i :: 0 <= i < |s.screenLines[s.cuY]| && i != r.cuX ==> r.screenLines[s.cuY][i] == s.screenLines[s.cuY][i]
    ensures forall j :: 0 <= j < s.lines && j != s.cuY ==> r.screenLines[j] == s.screenLines[j]
  {
    var x := MaxI(0, ClampedX(s) - 1);
    SetLine(s, s.cuY, Fill(s.screenLines[s.cuY], x, x, CurrentBlank(s))).(cuX := x)
  }

  // ---------------------------------------------------------------------
  // Tab stops
  // ---------------------------------------------------------------------

  /** Tab stops every TAB_WIDTH columns, not at column 0. */
  function DefaultTabStops(columns: int): (r: seq<bool>)
    requires 0 <= columns
    ensures |r| == columns
    ensures forall i :: 0 <= i < columns ==> (r[i] <==> i % TAB_WIDTH == 0 && i != 0)
  {
    seq(columns, i => i % TAB_WIDTH == 0 && i != 0)
  }

  /** The first column from `x` on that holds a tab stop, or the last column. */
  function NextTabStop(stops: seq<bool>, x: int): (r: int)
    requires 0 <= x < |stops|
    ensures x <= r < |stops|
    ensures r == |stops| - 1 || stops[r]
    ensures forall k :: x <= k < r ==> !stops[k]
    decreases |stops| - x
  {
    if x == |stops| - 1 || stops[x] then x else NextTabStop(stops, x + 1)
  }

  /** The last column up to `x` that holds a tab stop, or column 0. */
  function PreviousTabStop(stops: seq<bool>, x: int): (r: int)
    requires 0 <= x < |stops|
    ensures 0 <= r <= x
    ensures r == 0 || stops[r]
    ensures forall k :: r < k <= x ==> !stops[k]
  {
    if x == 0 || stops[x] then x else PreviousTabStop(stops, x - 1)
  }

  /** One tab: right one column, then on to the next tab stop (or the last column). */
  function TabOnce(s: ScreenState): (r: ScreenState)
    requires Valid(s)
    ensures Valid(r) && r == s.(cuX := r.cuX)
    ensures s.cuX <= r.cuX
    ensures s.cuX < s.columns ==> r.cuX < s.columns
  {
    if s.cuX < s.columns - 1 then s.(cuX := NextTabStop(s.tabStops, s.cuX + 1)) else s
  }

  function Tabs(s: ScreenState, k: nat): (r: ScreenState)
    requires Valid(s)
    ensures Valid(r) && r == s.(cuX := r.cuX)
    ensures s.cuX <= r.cuX
    ensures s.cuX < s.columns ==> r.cuX < s.columns
    decreases k
  {
    if k == 0 then s else TabOnce(Tabs(s, k - 1))
  }

  /** The cursor moves `n` tab stops right, stopping at the last column. */
  function Tab(s: ScreenState, n: int): (r: ScreenState)
    requires Valid(s)
    ensures Valid(r) && r == s.(cuX := r.cuX)
    ensures s.cuX <= r.cuX
    ensures s.cuX < s.columns ==> r.cuX < s.columns
  {
    Tabs(s, Arg(n))
  }

  /** One backtab: left one column, then on to the previous tab stop (or column 0). */
  function BacktabOnce(s: ScreenState): (r: ScreenState)
    requires Valid(s)
    ensures Valid(r) && r == s.(cuX := r.cuX)
    ensures r.cuX <= s.cuX
  {
    if s.cuX > 0 then s.(cuX := PreviousTabStop(s.tabStops, MaxI(0, ClampedX(s) - 1))) else s
  }

  function Backtabs(s: ScreenState, k: nat): (r: ScreenState)
    requires Valid(s)
    ensures Valid(r) && r == s.(cuX := r.cuX)
    ensures r.cuX <= s.cuX
    decreases k
  {
    if k == 0 then s else BacktabOnce(Backtabs(s, k - 1))
  }

  /** The cursor moves `n` tab stops left, stopping at column 0. */
  function Backtab(s: ScreenState, n: int): (r: ScreenState)
    requires Valid(s)
    ensures Valid(r) && r == s.(cuX := r.cuX)
    ensures r.cuX <= s.cuX
  {
    Backtabs(s, Arg(n))
  }

  /** Once `i` tabs reach the last column (or past it), further tabs do not move the cursor. */
  lemma {:induction false} TabsStayAtLastColumn(s: ScreenState, i: nat, j: nat)
    requires Valid(s) && i <= j && Tabs(s, i).cuX >= s.columns - 1
    ensures Tabs(s, j) == Tabs(s, i)
    decreases j
  {
    if j > i {
      TabsStayAtLastColumn(s, i, j - 1);
    }
  }

  /** Once `i` backtabs reach column 0, further backtabs do not move the cursor. */
  lemma {:induction false} BacktabsStayAtFirstColumn(s: ScreenState, i: nat, j: nat)
    requires Valid(s) && i <= j && Backtabs(s, i).cuX == 0
    ensures Backtabs(s, j) == Backtabs(s, i)
    decreases j
  {
    if j > i {
      BacktabsStayAtFirstColumn(s, i, j - 1);
    }
  }

  function ClearTabStops(s: ScreenState): (r: ScreenState)
    requires Valid(s)
    ensures Valid(r) && r == s.(tabStops := r.tabStops)
    ensures forall i :: 0 <= i < s.columns ==> !r.tabStops[i]
  {
    s.(tabStops := Repeat(false, s.columns))
  }

  /** Sets or removes the tab stop at the cursor column (nothing happens while a wrap is pending). */
  function ChangeTabStop(s: ScreenState, set_: bool): (r: ScreenState)
    requires Valid(s)
    ensures Valid(r) && r == s.(tabStops := r.tabStops)
    ensures s.cuX < s.columns ==> r.tabStops[s.cuX] == set_
    ensures forall i :: 0 <= i < s.columns && i != s.cuX ==> r.tabStops[i] == s.tabStops[i]
  {
    if s.cuX < s.columns then s.(tabStops := s.tabStops[s.cuX := set_]) else s
  }

  // ---------------------------------------------------------------------
  // Editing
  // ---------------------------------------------------------------------

  /** `n` cells from the cursor on become blanks (up to the last column); the cursor stays. */
  function EraseChars(s: ScreenState, n: int): (r: ScreenState)
    requires Valid(s)
    ensures Valid(r) && r == s.(screenLines := r.screenLines)
    ensures forall j :: 0 <= j < s.lines && j != s.cuY ==> r.screenLines[j] == s.screenLines[j]
    ensures s.cuX < s.columns ==> |r.screenLines[s.cuY]| == MaxNat(|s.screenLines[s.cuY]|, MinI(s.cuX + Arg(n), s.columns))
    ensures s.cuX >= s.columns ==> r == s
    ensures forall i :: s.cuX <= i < s.cuX + Arg(n) && i < s.columns ==> r.screenLines[s.cuY][i] == CurrentBlank(s)
    ensures forall i :: 0 <= i < |s.screenLines[s.cuY]| && !(s.cuX <= i < s.cuX + Arg(n) && i < s.columns) ==>
      r.screenLines[s.cuY][i] == s.screenLines[s.cuY][i]
  {
    if s.cuX >= s.columns then s
    else SetLine(s, s.cuY, Fill(s.screenLines[s.cuY], s.cuX, MinI(s.cuX + Arg(n) - 1, s.columns - 1), CurrentBlank(s)))
  }

  /**
   * `n` cells at the cursor are deleted: the rest of the line moves left and
   * blanks fill its end; the line keeps its length and the cursor stays.
   */
  function DeleteChars(s: ScreenState, n: int): (r: ScreenState)
    requires Valid(s)
    ensures Valid(r) && r == s.(screenLines := r.screenLines)
    ensures forall j :: 0 <= j < s.lines && j != s.cuY ==> r.screenLines[j] == s.screenLines[j]
    ensures var old_ := s.screenLines[s.cuY]; var new_ := r.screenLines[s.cuY];
      && |new_| == |old_|
      && (forall i :: 0 <= i < s.cuX && i < |old_| ==> new_[i] == old_[i])
      && (forall i :: s.cuX <= i && i + Arg(n) < |old_| ==> new_[i] == old_[i + Arg(n)])
      && (forall i :: s.cuX <= i < |old_| && |old_| <= i + Arg(n) ==> new_[i] == CurrentBlank(s))
  {
    SetLine(s, s.cuY, DeleteCells(s.screenLines[s.cuY], s.cuX, Arg(n), CurrentBlank(s)))
  }

  /**
   * `n` blanks are inserted at the cursor: the rest of the line moves right
   * and what passes the last column is dropped, so the line is never wider
   * than the screen afterwards; the cursor stays.
   */
  function InsertChars(s: ScreenState, n: int): (r: ScreenState)
    requires Valid(s)
    ensures Valid(r) && r == s.(screenLines := r.screenLines)
    ensures forall j :: 0 <= j < s.lines && j != s.cuY ==> r.screenLines[j] == s.screenLines[j]
    ensures var old_ := s.screenLines[s.cuY]; var new_ := r.screenLines[s.cuY];
      && |new_| == MinI(MaxI(|old_|, s.cuX) + Arg(n), s.columns)
      && (forall i :: 0 <= i < s.cuX && i < |old_| ==> new_[i] == old_[i])
      && (forall i :: s.cuX <= i < s.cuX + Arg(n) && i < |new_| ==> new_[i] == DefaultCell)
      && (forall i :: s.cuX + Arg(n) <= i < |new_| && i - Arg(n) < |old_| ==> new_[i] == old_[i - Arg(n)])
      && |new_| <= s.columns
  {
    SetLine(s, s.cuY, InsertCells(s.screenLines[s.cuY], s.cuX, Arg(n), s.columns, DefaultCell))
  }

  /**
   * `n` lines from the cursor line are removed: the lines below it up to the
   * bottom margin move up and blanks fill the bottom of the region. The
   * cursor stays. Nothing happens below the bottom margin.
   */
  function DeleteLines(s: ScreenState, n: int): (r: ScreenState)
    requires Valid(s)
    ensures Valid(r) && r == s.(screenLines := r.screenLines)
    ensures s.cuY <= s.bottomMargin ==>
      r.screenLines == ScrollRegionUp(s.screenLines, s.cuY, s.bottomMargin, ScrollCount(s, s.cuY, Arg(n)), BlankLine(s))
    ensures s.cuY > s.bottomMargin ==> r == s
  {
    ScrollUpFrom(s, s.cuY, Arg(n))
  }

  /**
   * `n` blank lines are inserted at the cursor line: the lines from it move
   * down and those pushed past the bottom margin are dropped. The cursor
   * stays. Nothing happens below the bottom margin.
   */
  function InsertLines(s: ScreenState, n: int): (r: ScreenState)
    requires Valid(s)
    ensures Valid(r) && r == s.(screenLines := r.screenLines)
    ensures s.cuY <= s.bottomMargin ==>
      r.screenLines == ScrollRegionDown(s.screenLines, s.cuY, s.bottomMargin, ScrollCount(s, s.cuY, Arg(n)), BlankLine(s))
    ensures s.cuY > s.bottomMargin ==> r == s
  {
    ScrollDownFrom(s, s.cuY, Arg(n))
  }

  // ---------------------------------------------------------------------
  // Clearing
  // ---------------------------------------------------------------------

  /** Lines `from .. to - 1` replaced by cleared lines. */
  function ClearLines(s: ScreenState, from: int, to: int): (r: ScreenState)
    requires Valid(s)
    ensures Valid(r) && r == s.(screenLines := r.screenLines)
    ensures forall j :: 0 <= j < s.lines ==> r.screenLines[j] == if from <= j < to then BlankLine(s) else s.screenLines[j]
  {
    s.(screenLines := seq(s.lines, j requires 0 <= j < s.lines => if from <= j < to then BlankLine(s) else s.screenLines[j]))
  }

  function ClearToEndOfLine(s: ScreenState): (r: ScreenState)
    requires Valid(s)
    ensures Valid(r) && r == s.(screenLines := r.screenLines)
    ensures forall j :: 0 <= j < s.lines && j != s.cuY ==> r.screenLines[j] == s.screenLines[j]
    ensures s.cuX < s.columns ==> |r.screenLines[s.cuY]| == MaxNat(|s.screenLines[s.cuY]|, s.columns)
    ensures s.cuX >= s.columns ==> r == s
    ensures forall i :: s.cuX <= i < s.columns ==> r.screenLines[s.cuY][i] == CurrentBlank(s)
    ensures forall i :: 0 <= i < |s.screenLines[s.cuY]| && !(s.cuX <= i < s.columns) ==>
      r.screenLines[s.cuY][i] == s.screenLines[s.cuY][i]
  {
    if s.cuX >= s.columns then s
    else SetLine(s, s.cuY, Fill(s.screenLines[s.cuY], s.cuX, s.columns - 1, CurrentBlank(s)))
  }

  function ClearToBeginOfLine(s: ScreenState): (r: ScreenState)
    requires Valid(s)
    ensures Valid(r) && r == s.(screenLines := r.screenLines)
    ensures forall j :: 0 <= j < s.lines && j != s.cuY ==> r.screenLines[j] == s.screenLines[j]
    ensures |r.screenLines[s.cuY]| == MaxNat(|s.screenLines[s.cuY]|, ClampedX(s) + 1)
    ensures forall i :: 0 <= i <= ClampedX(s) ==> r.screenLines[s.cuY][i] == CurrentBlank(s)
    ensures forall i :: ClampedX(s) < i < |s.screenLines[s.cuY]| ==> r.screenLines[s.cuY][i] == s.screenLines[s.cuY][i]
  {
    SetLine(s, s.cuY, Fill(s.screenLines[s.cuY], 0, ClampedX(s), CurrentBlank(s)))
  }

  function ClearEntireLine(s: ScreenState): (r: ScreenState)
    requires Valid(s)
    ensures Valid(r) && r == s.(screenLines := r.screenLines)
    ensures forall j :: 0 <= j < s.lines && j != s.cuY ==> r.screenLines[j] == s.screenLines[j]
    ensures r.screenLines[s.cuY] == BlankLine(s)
  {
    SetLine(s, s.cuY, BlankLine(s))
  }

  function ClearToEndOfScreen(s: ScreenState): (r: ScreenState)
    requires Valid(s)
    ensures Valid(r) && r == s.(screenLines := r.screenLines)
    ensures forall j :: 0 <= j < s.cuY ==> r.screenLines[j] == s.screenLines[j]
    ensures forall j :: s.cuY < j < s.lines ==> r.screenLines[j] == BlankLine(s)
    ensures r.screenLines[s.cuY] == ClearToEndOfLine(s).screenLines[s.cuY]
  {
    ClearLines(ClearToEndOfLine(s), s.cuY + 1, s.lines)
  }

  function ClearToBeginOfScreen(s: ScreenState): (r: ScreenState)
    requires Valid(s)
    ensures Valid(r) && r == s.(screenLines := r.screenLines)
    ensures forall j :: 0 <= j < s.cuY ==> r.screenLines[j] == BlankLine(s)
    ensures forall j :: s.cuY < j < s.lines ==> r.screenLines[j] == s.screenLines[j]
    ensures r.screenLines[s.cuY] == ClearToBeginOfLine(s).screenLines[s.cuY]
  {
    ClearLines(ClearToBeginOfLine(s), 0, s.cuY)
  }

  /** The whole screen goes to the history, then every line is cleared. */
  function ClearEntireScreen(s: ScreenState): (r: ScreenState)
    requires Valid(s)
    ensures Valid(r) && r == s.(screenLines := r.screenLines, history := r.history)
    ensures r.history == s.history + s.screenLines
    ensures forall j :: 0 <= j < s.lines ==> r.screenLines[j] == BlankLine(s)
  {
    ClearLines(s.(history := s.history + s.screenLines), 0, s.lines)
  }

  /** Every cell of the screen becomes the letter E. */
  function HelpAlign(s: ScreenState): (r: ScreenState)
    requires Valid(s)
    ensures Valid(r) && r == s.(screenLines := r.screenLines)
    ensures forall j :: 0 <= j < s.lines ==> |r.screenLines[j]| == s.columns
    ensures forall j, i :: 0 <= j < s.lines && 0 <= i < s.columns ==> r.screenLines[j][i].character == LETTER_E
  {
    var e := Repeat(Cell(LETTER_E, s.foreground, s.background, {}), s.columns);
    s.(screenLines := Repeat(e, s.lines))
  }

  // ---------------------------------------------------------------------
  // Modes
  // ---------------------------------------------------------------------

  function SetMode(s: ScreenState, m: int): (r: ScreenState)
    requires Valid(s) && IsMode(m)
    ensures Valid(r) && r == s.(modes := r.modes)
    ensures GetMode(r, m)
    ensures forall k :: IsMode(k) && k != m ==> GetMode(r, k) == GetMode(s, k)
  {
    s.(modes := s.modes[m := true])
  }

  function ResetMode(s: ScreenState, m: int): (r: ScreenState)
    requires Valid(s) && IsMode(m)
    ensures Valid(r) && r == s.(modes := r.modes)
    ensures !GetMode(r, m)
    ensures forall k :: IsMode(k) && k != m ==> GetMode(r, k) == GetMode(s, k)
  {
    s.(modes := s.modes[m := false])
  }

  /** Saves mode `m` alone; the saved copies of the other modes stay. */
  function SaveMode(s: ScreenState, m: int): (r: ScreenState)
    requires Valid(s) && IsMode(m)
    ensures Valid(r) && r == s.(savedModes := r.savedModes)
    ensures r.savedModes[m] == GetMode(s, m)
    ensures forall k :: IsMode(k) && k != m ==> r.savedModes[k] == s.savedModes[k]
  {
    s.(savedModes := s.savedModes[m := s.modes[m]])
  }

  /** Restores mode `m` alone from its saved copy. */
  function RestoreMode(s: ScreenState, m: int): (r: ScreenState)
    requires Valid(s) && IsMode(m)
    ensures Valid(r) && r == s.(modes := r.modes)
    ensures GetMode(r, m) == s.savedModes[m]
    ensures forall k :: IsMode(k) && k != m ==> GetMode(r, k) == GetMode(s, k)
  {
    s.(modes := s.modes[m := s.savedModes[m]])
  }

  // ---------------------------------------------------------------------
  // Saved cursor and rendition
  // ---------------------------------------------------------------------

  /** Overwrites the single saved-cursor slot with the cursor position, origin mode, rendition and colours. */
  function SaveCursor(s: ScreenState): (r: ScreenState)
    requires Valid(s)
    ensures Valid(r) && r == s.(saved := r.saved)
    ensures r.saved.cursorColumn == s.cuX && r.saved.cursorLine == s.cuY
    ensures r.saved.originMode == GetMode(s, MODE_Origin)
    ensures r.saved.rendition == s.rendition && r.saved.foreground == s.foreground && r.saved.background == s.background
  {
    s.(saved := SavedState(s.cuX, s.cuY, s.modes[MODE_Origin], s.rendition, s.foreground, s.background))
  }

  /** Restores position (brought inside the screen), origin mode, rendition and colours from the saved slot. */
  function RestoreCursor(s: ScreenState): (r: ScreenState)
    requires Valid(s)
    ensures Valid(r) && r == s.(cuX := r.cuX, cuY := r.cuY, modes := r.modes, rendition := r.rendition, foreground := r.foreground, background := r.background)
    ensures r.cuX == MinI(s.saved.cursorColumn, s.columns - 1) && r.cuY == MinI(s.saved.cursorLine, s.lines - 1)
    ensures GetMode(r, MODE_Origin) == s.saved.originMode
    ensures forall k :: IsMode(k) && k != MODE_Origin ==> GetMode(r, k) == GetMode(s, k)
    ensures r.rendition == s.saved.rendition && r.foreground == s.saved.foreground && r.background == s.saved.background
  {
    s.(cuX := MinI(s.saved.cursorColumn, s.columns - 1), cuY := MinI(s.saved.cursorLine, s.lines - 1),
       modes := s.modes[MODE_Origin := s.saved.originMode],
       rendition := s.saved.rendition, foreground := s.saved.foreground, background := s.saved.background)
  }

  function SetRendition(s: ScreenState, flags: set<RenditionFlag>): (r: ScreenState)
    requires Valid(s)
    ensures Valid(r) && r == s.(rendition := r.rendition)
    ensures flags <= r.rendition && s.rendition <= r.rendition && r.rendition <= s.rendition + flags
  {
    s.(rendition := s.rendition + flags)
  }

  function ResetRendition(s: ScreenState, flags: set<RenditionFlag>): (r: ScreenState)
    requires Valid(s)
    ensures Valid(r) && r == s.(rendition := r.rendition)
    ensures r.rendition !! flags && r.rendition <= s.rendition && s.rendition <= r.rendition + flags
  {
    s.(rendition := s.rendition - flags)
  }

  function SetForeColor(s: ScreenState, space: int, color: int): (r: ScreenState)
    requires Valid(s)
    ensures Valid(r) && r == s.(foreground := r.foreground)
    ensures r.foreground.space == space && r.foreground.code == color
  {
    s.(foreground := Color(space, color))
  }

  function SetBackColor(s: ScreenState, space: int, color: int): (r: ScreenState)
    requires Valid(s)
    ensures Valid(r) && r == s.(background := r.background)
    ensures r.background.space == space && r.background.code == color
  {
    s.(background := Color(space, color))
  }

  function SetDefaultRendition(s: ScreenState): (r: ScreenState)
    requires Valid(s)
    ensures Valid(r) && r == s.(rendition := r.rendition, foreground := r.foreground, background := r.background)
    ensures r.rendition == {} && r.foreground == DefaultForeground && r.background == DefaultBackground
  {
    s.(rendition := {}, foreground := DefaultForeground, background := DefaultBackground)
  }

  // ---------------------------------------------------------------------
  // Selection
  // ---------------------------------------------------------------------

  /**
   * The linear address of column `x` on line `y`, lines numbered across
   * history and screen; an address of a cell within the width splits back
   * into its column and line.
   */
  function Loc(s: ScreenState, x: int, y: int): (r: int)
    ensures 0 <= x < s.columns ==> r / s.columns == y && r % s.columns == x
  {
    if 0 <= x < s.columns then LocDivMod(x, y, s.columns); y * s.columns + x
    else y * s.columns + x
  }

  /** A linear address splits back into its column and line. */
  lemma LocDivMod(x: int, y: int, c: int)
    requires 0 <= x < c
    ensures (y * c + x) / c == y && (y * c + x) % c == x
  {
    var a := y * c + x;
    var q := a / c;
    var r := a % c;
    assert q * c + r == y * c + x;
    if q > y {
      MulLe(1, q - y, c);
      assert false;
    } else if q < y {
      MulLe(1, y - q, c);
      assert false;
    }
  }

  /** Linear addresses order cells by line, then by column. */
  lemma LocOrder(x1: int, y1: int, x2: int, y2: int, c: int)
    requires 0 <= x1 < c && 0 <= x2 < c
    ensures y1 * c + x1 <= y2 * c + x2 <==> y1 < y2 || (y1 == y2 && x1 <= x2)
  {
    if y1 < y2 {
      MulLe(y1 + 1, y2, c);
      assert (y1 + 1) * c == y1 * c + c;
    } else if y1 > y2 {
      MulLe(y2 + 1, y1, c);
      assert (y2 + 1) * c == y2 * c + c;
    }
  }

  function HasSelection(s: ScreenState): bool
  {
    s.selTopLeft >= 0 && s.selBottomRight >= 0
  }

  function ClearSelection(s: ScreenState): (r: ScreenState)
    requires Valid(s)
    ensures Valid(r) && r == s.(selBegin := r.selBegin, selTopLeft := r.selTopLeft, selBottomRight := r.selBottomRight)
    ensures !HasSelection(r) && r.selBegin == -1
  {
    s.(selBegin := -1, selTopLeft := -1, selBottomRight := -1)
  }

  function SetSelectionStart(s: ScreenState, x: int, y: int, blockMode: bool): (r: ScreenState)
    requires Valid(s)
    ensures Valid(r)
    ensures r == s.(selBegin := r.selBegin, selTopLeft := r.selTopLeft, selBottomRight := r.selBottomRight, blockSelection := r.blockSelection)
    ensures r.selBegin == r.selTopLeft == r.selBottomRight == Loc(s, x, y) && r.blockSelection == blockMode
  {
    var begin := Loc(s, x, y);
    s.(selBegin := begin, selTopLeft := begin, selBottomRight := begin, blockSelection := blockMode)
  }

  /**
   * Extends the selection from its start to `(x, y)`, ordered so that the
   * top-left address is the smaller; in block mode the two corners take the
   * smaller and the larger column. Nothing happens without a start.
   */
  function SetSelectionEnd(s: ScreenState, x: int, y: int): (r: ScreenState)
    requires Valid(s)
    ensures Valid(r) && r == s.(selTopLeft := r.selTopLeft, selBottomRight := r.selBottomRight)
    ensures s.selBegin == -1 ==> r == s
    ensures s.selBegin != -1 && !s.blockSelection ==>
      && r.selTopLeft == MinI(s.selBegin, Loc(s, x, y))
      && r.selBottomRight == MaxI(s.selBegin, Loc(s, x, y))
    ensures s.selBegin != -1 ==> r.selTopLeft <= r.selBottomRight
  {
    if s.selBegin == -1 then s
    else
      var end := Loc(s, x, y);
      var tl := MinI(s.selBegin, end);
      var br := MaxI(s.selBegin, end);
      if !s.blockSelection then s.(selTopLeft := tl, selBottomRight := br)
      else
        BlockCornersOrdered(s, tl, br);
        var c := s.columns;
        s.(selTopLeft := Loc(s, MinI(tl % c, br % c), tl / c),
           selBottomRight := Loc(s, MaxI(tl % c, br % c), br / c))
  }

  lemma BlockCornersOrdered(s: ScreenState, tl: int, br: int)
    requires Valid(s) && tl <= br
    ensures Loc(s, MinI(tl % s.columns, br % s.columns), tl / s.columns) <= Loc(s, MaxI(tl % s.columns, br % s.columns), br / s.columns)
  {
    var c := s.columns;
    assert tl / c <= br / c by { DivMonotone(tl, br, c); }
    MulLe(tl / c, br / c, c);
  }

  lemma DivMonotone(a: int, b: int, c: int)
    requires a <= b && 0 < c
    ensures a / c <= b / c
  {
    if a / c > b / c {
      MulLe(b / c + 1, a / c, c);
      assert false;
    }
  }

  lemma MulLe(a: int, b: int, c: int)
    requires a <= b && 0 <= c
    ensures a * c <= b * c
  {
    assert b * c - a * c == (b - a) * c;
  }

  /** Whether the cell at column `x`, line `y` (across history and screen) is selected. */
  function IsSelected(s: ScreenState, x: int, y: int): bool
    requires Valid(s)
  {
    var inColumns := !s.blockSelection || (s.selTopLeft % s.columns <= x <= s.selBottomRight % s.columns);
    var pos := Loc(s, x, y);
    s.selTopLeft <= pos <= s.selBottomRight && inColumns
  }

  /** The start of the selection as (column, line), or the cursor position (across history and screen) without one. */
  function GetSelectionStart(s: ScreenState): (r: (int, int))
    requires Valid(s)
    ensures s.selTopLeft != -1 ==> Loc(s, r.0, r.1) == s.selTopLeft && 0 <= r.0 < s.columns
    ensures s.selTopLeft == -1 ==> r == (s.cuX, s.cuY + |s.history|)
  {
    if s.selTopLeft != -1 then (s.selTopLeft % s.columns, s.selTopLeft / s.columns)
    else (s.cuX, s.cuY + |s.history|)
  }

  /** The end of the selection as (column, line), or the cursor position (across history and screen) without one. */
  function GetSelectionEnd(s: ScreenState): (r: (int, int))
    requires Valid(s)
    ensures s.selBottomRight != -1 ==> Loc(s, r.0, r.1) == s.selBottomRight && 0 <= r.0 < s.columns
    ensures s.selBottomRight == -1 ==> r == (s.cuX, s.cuY + |s.history|)
  {
    if s.selBottomRight != -1 then (s.selBottomRight % s.columns, s.selBottomRight / s.columns)
    else (s.cuX, s.cuY + |s.history|)
  }

  /**
   * Clears the selection when the screen addresses `from .. to` (counted
   * from the top of the screen, not of the history) overlap it.
   */
  function CheckSelection(s: ScreenState, from: int, to: int): (r: ScreenState)
    requires Valid(s)
    ensures Valid(r) && r == s.(selBegin := r.selBegin, selTopLeft := r.selTopLeft, selBottomRight := r.selBottomRight)
    ensures r == s || r == ClearSelection(s)
  {
    if s.selBegin == -1 then s
    else
      var offset := |s.history| * s.columns;
      if s.selBottomRight >= from + offset && s.selTopLeft <= to + offset then ClearSelection(s) else s
  }

  // ---------------------------------------------------------------------
  // Writing characters
  // ---------------------------------------------------------------------

  /**
   * Where the next character goes: at the cursor, or, when a wrap is
   * pending, at the start of the next line (wrap mode) or in the last
   * column (otherwise).
   */
  function WrapForWrite(s: ScreenState): (r: ScreenState)
    requires Valid(s)
    ensures Valid(r) && r.cuX < r.columns
    ensures r.lines == s.lines && r.columns == s.columns && r.modes == s.modes && r.saved == s.saved
    ensures r.savedModes == s.savedModes && r.lastDrawnChar == s.lastDrawnChar
    ensures s.cuX < s.columns ==> r == s
  {
    if s.cuX < s.columns then s
    else if s.modes[MODE_Wrap] then NextLine(s)
    else s.(cuX := s.columns - 1)
  }

  /** The cell a character written now gets: the character in the current colours and rendition. */
  function CurrentCell(s: ScreenState, c: nat): Cell
  {
    Cell(c, s.foreground, s.background, s.rendition)
  }

  /** In insert mode the rest of the line moves right by one cell to make room. */
  function InsertForWrite(s: ScreenState): (r: ScreenState)
    requires Valid(s) && s.cuX < s.columns
    ensures Valid(r) && r == s.(screenLines := r.screenLines)
    ensures !GetMode(s, MODE_Insert) ==> r == s
    ensures GetMode(s, MODE_Insert) ==> r == InsertChars(s, 1)
  {
    if s.modes[MODE_Insert] then InsertChars(s, 1) else s
  }

  /** Character `c` written into the cell under the cursor (the line grows if needed), the cursor moving past it. */
  function PutChar(s: ScreenState, c: nat): (r: ScreenState)
    requires Valid(s) && s.cuX < s.columns
    ensures Valid(r) && r == s.(screenLines := r.screenLines, cuX := r.cuX, lastDrawnChar := r.lastDrawnChar)
    ensures r.cuX == s.cuX + 1 && r.lastDrawnChar == c
    ensures |r.screenLines[s.cuY]| == MaxNat(|s.screenLines[s.cuY]|, s.cuX + 1)
    ensures r.screenLines[s.cuY][s.cuX] == CurrentCell(s, c)
    ensures forall i :: 0 <= i < |s.screenLines[s.cuY]| && i != s.cuX ==> r.screenLines[s.cuY][i] == s.screenLines[s.cuY][i]
    ensures forall j :: 0 <= j < s.lines && j != s.cuY ==> r.screenLines[j] == s.screenLines[j]
  {
    var line := Padded(s.screenLines[s.cuY], s.cuX + 1, DefaultCell);
    SetLine(s, s.cuY, line[s.cuX := CurrentCell(s, c)]).(lastDrawnChar := c, cuX := s.cuX + 1)
  }

  /**
   * Writes character `c` (one column wide) at the write position, shifting
   * the rest of the line right first in insert mode, and moves the cursor
   * past it. A selection covering the written cell is cleared.
   */
  function DisplayCharacter(s: ScreenState, c: nat): (r: ScreenState)
    requires Valid(s)
    ensures Valid(r) && r.lastDrawnChar == c && r.lines == s.lines && r.columns == s.columns
    ensures var w := WrapForWrite(s);
      && r.cuY == w.cuY && r.cuX == w.cuX + 1
      && w.cuX < |r.screenLines[w.cuY]|
      && r.screenLines[w.cuY][w.cuX] == CurrentCell(s, c)
      && (forall j :: 0 <= j < s.lines && j != w.cuY ==> r.screenLines[j] == w.screenLines[j])
    ensures var w := WrapForWrite(s); !GetMode(s, MODE_Insert) ==>
      |w.screenLines[w.cuY]| <= |r.screenLines[w.cuY]| &&
      forall i :: 0 <= i < |w.screenLines[w.cuY]| && i != w.cuX ==> r.screenLines[w.cuY][i] == w.screenLines[w.cuY][i]
    ensures r.modes == s.modes && r.savedModes == s.savedModes && r.saved == s.saved
    ensures r.rendition == s.rendition && r.foreground == s.foreground && r.background == s.background
    ensures r.tabStops == s.tabStops && r.topMargin == s.topMargin && r.bottomMargin == s.bottomMargin
  {
    var w := WrapForWrite(s);
    var ins := InsertForWrite(w);
    var pos := Loc(ins, ins.cuX, ins.cuY);
    PutChar(CheckSelection(ins, pos, pos), c)
  }

  /** `k` copies of `c` written one after the other. */
  function DisplayRepeated(s: ScreenState, c: nat, k: nat): (r: ScreenState)
    requires Valid(s)
    ensures Valid(r) && r.lines == s.lines && r.columns == s.columns
    ensures r.modes == s.modes && r.savedModes == s.savedModes && r.saved == s.saved
    ensures r.rendition == s.rendition && r.foreground == s.foreground && r.background == s.background
    ensures k == 0 ==> r.lastDrawnChar == s.lastDrawnChar
    ensures k > 0 ==> r.lastDrawnChar == c
    decreases k
  {
    if k == 0 then s else DisplayCharacter(DisplayRepeated(s, c, k - 1), c)
  }

  /** The last written character, written `n` more times. */
  function RepeatChars(s: ScreenState, n: int): (r: ScreenState)
    requires Valid(s)
    ensures Valid(r) && r.lastDrawnChar == s.lastDrawnChar && r.lines == s.lines && r.columns == s.columns
    ensures r.modes == s.modes && r.savedModes == s.savedModes && r.saved == s.saved
    ensures r.rendition == s.rendition && r.foreground == s.foreground && r.background == s.background
  {
    DisplayRepeated(s, s.lastDrawnChar, Arg(n))
  }

  // ---------------------------------------------------------------------
  // Reset and resize
  // ---------------------------------------------------------------------

  /** The mode flags a reset establishes; the application-screen and select-cursor modes keep their value. */
  function ResetModes(modes: seq<bool>): (r: seq<bool>)
    requires |modes| == MODES_SCREEN
    ensures |r| == MODES_SCREEN
    ensures r[MODE_Wrap] && !r[MODE_Origin] && !r[MODE_Insert] && r[MODE_Cursor] && !r[MODE_Screen] && !r[MODE_NewLine]
    ensures r[MODE_AppScreen] == modes[MODE_AppScreen] && r[MODE_SelectCursor] == modes[MODE_SelectCursor]
  {
    modes[MODE_Wrap := true][MODE_Origin := false][MODE_Insert := false]
         [MODE_Cursor := true][MODE_Screen := false][MODE_NewLine := false]
  }

  /**
   * Resets modes, margins, rendition and colours, tab stops and the
   * selection, and keeps the cursor, the saved cursor, the saved modes and
   * the screen lines.
   */
  function SoftReset(s: ScreenState): (r: ScreenState)
    requires Valid(s)
    ensures Valid(r) && r.lines == s.lines && r.columns == s.columns
    ensures GetMode(r, MODE_Wrap) && !GetMode(r, MODE_Origin) && !GetMode(r, MODE_Insert)
    ensures GetMode(r, MODE_Cursor) && !GetMode(r, MODE_Screen) && !GetMode(r, MODE_NewLine)
    ensures GetMode(r, MODE_AppScreen) == GetMode(s, MODE_AppScreen) && GetMode(r, MODE_SelectCursor) == GetMode(s, MODE_SelectCursor)
    ensures r.rendition == SetDefaultRendition(s).rendition
    ensures r.foreground == SetDefaultRendition(s).foreground && r.background == SetDefaultRendition(s).background
    ensures r.topMargin == 0 && r.bottomMargin == s.lines - 1
    ensures r.tabStops == DefaultTabStops(s.columns)
    ensures !HasSelection(r)
    ensures r.cuX == s.cuX && r.cuY == s.cuY && r.saved == s.saved && r.savedModes == s.savedModes
    ensures r.screenLines == s.screenLines && r.history == s.history
  {
    s.(modes := ResetModes(s.modes), topMargin := 0, bottomMargin := s.lines - 1,
       rendition := {}, foreground := DefaultForeground, background := DefaultBackground,
       tabStops := DefaultTabStops(s.columns),
       selBegin := -1, selTopLeft := -1, selBottomRight := -1)
  }

  /**
   * A soft reset (DECSTR) keeps the lines, the cursor and the saved state.
   * A hard reset (RIS, not `softReset`) clears the screen into the history,
   * homes the cursor and returns the saved cursor and the saved modes to
   * their initial values, besides doing everything a soft reset does.
   */
  function Reset(s: ScreenState, softReset: bool): (r: ScreenState)
    requires Valid(s)
    ensures Valid(r) && r.lines == s.lines && r.columns == s.columns
    ensures softReset ==> r == SoftReset(s)
    ensures softReset ==> r.screenLines == s.screenLines && r.history == s.history
    ensures softReset ==> r.cuX == s.cuX && r.cuY == s.cuY && r.saved == s.saved && r.savedModes == s.savedModes
    ensures !softReset ==> r.history == s.history + s.screenLines
                           && forall j :: 0 <= j < s.lines ==> r.screenLines[j] == BlankLine(s)
    ensures !softReset ==> r.cuX == 0 && r.cuY == 0 && r.saved == InitialSavedState && r.savedModes == InitialSavedModes
    ensures !softReset ==> r.modes == SoftReset(s).modes && r.tabStops == SoftReset(s).tabStops
                           && r.topMargin == 0 && r.bottomMargin == s.lines - 1 && !HasSelection(r)
                           && r.rendition == {} && r.foreground == DefaultForeground && r.background == DefaultBackground
  {
    if softReset then SoftReset(s)
    else ForgetSavedState(SoftReset(ClearEntireScreen(s)))
  }

  /** The part of a hard reset that returns the cursor and the saved state to those of a new screen. */
  function ForgetSavedState(s: ScreenState): (r: ScreenState)
    requires Valid(s)
    ensures Valid(r)
  {
    s.(cuX := 0, cuY := 0, saved := InitialSavedState, savedModes := InitialSavedModes)
  }

  /** How many top lines a resize to `newLines` moves into the history so the cursor line stays on screen. */
  function ResizeShift(s: ScreenState, newLines: int): (k: int)
    requires Valid(s) && 1 <= newLines
    ensures 0 <= k <= s.cuY && s.cuY - k < newLines
    ensures s.cuY < newLines ==> k == 0
  {
    if s.cuY > newLines - 1 then s.cuY - (newLines - 1) else 0
  }

  /** `ls` cut or extended (with empty lines) to exactly `n` lines. */
  function FitLines(ls: seq<Line>, n: nat): (r: seq<Line>)
    ensures |r| == n
    ensures forall j :: 0 <= j < n && j < |ls| ==> r[j] == ls[j]
    ensures forall j :: |ls| <= j < n ==> r[j] == []
  {
    if |ls| >= n then ls[..n] else ls + Repeat([], n - |ls|)
  }

  /** The height part of a resize: the lines above the cursor that no longer fit go to the history. */
  function ResizeLines(s: ScreenState, newLines: int): (r: ScreenState)
    requires Valid(s) && 1 <= newLines
    ensures Valid(r) && r.lines == newLines && r.columns == s.columns
    ensures var k := ResizeShift(s, newLines);
      && r.history == s.history + s.screenLines[..k]
      && r.cuY == s.cuY - k && r.cuX == s.cuX
      && (forall j :: 0 <= j < newLines && j + k < s.lines ==> r.screenLines[j] == s.screenLines[j + k])
    ensures r.topMargin == 0 && r.bottomMargin == newLines - 1
  {
    var k := ResizeShift(s, newLines);
    s.(lines := newLines,
       history := s.history + s.screenLines[..k],
       screenLines := FitLines(s.screenLines[k..], newLines),
       cuY := s.cuY - k,
       topMargin := 0, bottomMargin := newLines - 1)
  }

  /** The width part of a resize: lines keep their cells, tab stops are reset and the selection is cleared. */
  function ResizeColumns(s: ScreenState, newColumns: int): (r: ScreenState)
    requires Valid(s) && 1 <= newColumns
    ensures Valid(r) && r.lines == s.lines && r.columns == newColumns
    ensures r.screenLines == s.screenLines && r.history == s.history
    ensures r.cuX == MinI(s.cuX, newColumns - 1) && r.cuY == s.cuY
    ensures r.tabStops == DefaultTabStops(newColumns) && !HasSelection(r)
  {
    s.(columns := newColumns, cuX := MinI(s.cuX, newColumns - 1),
       tabStops := DefaultTabStops(newColumns),
       selBegin := -1, selTopLeft := -1, selBottomRight := -1)
  }

  /**
   * The screen takes the new size. Lines are never cut short when the width
   * shrinks; when the height shrinks below the cursor line, the top lines go
   * to the history. Margins cover the new height, tab stops are reset and
   * the selection is cleared.
   */
  function ResizeImage(s: ScreenState, newLines: int, newColumns: int): (r: ScreenState)
    requires Valid(s) && 1 <= newLines && 1 <= newColumns
    ensures Valid(r) && r.lines == newLines && r.columns == newColumns
    ensures r.topMargin == 0 && r.bottomMargin == newLines - 1
    ensures !HasSelection(r)
    ensures r.tabStops == DefaultTabStops(newColumns)
    ensures var k := ResizeShift(s, newLines);
      && r.history == s.history + s.screenLines[..k]
      && r.cuY == s.cuY - k
      && (forall j :: 0 <= j < newLines && j + k < s.lines ==> r.screenLines[j] == s.screenLines[j + k])
      && (forall j :: 0 <= j < newLines && s.lines <= j + k ==> r.screenLines[j] == [])
    ensures r.cuX == MinI(s.cuX, newColumns - 1)
    ensures r.modes == s.modes && r.savedModes == s.savedModes && r.saved == s.saved
  {
    ResizeColumns(ResizeLines(s, newLines), newColumns)
  }
}
