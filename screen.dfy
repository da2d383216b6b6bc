/**
 * The terminal screen as an object whose operations update its fields in
 * place: the cursor, the margins, the current and saved mode flags, the
 * saved-cursor slot, the tab stops, the selection addresses and the vector
 * of screen lines. The two mode-flag arrays are embedded in the object and
 * never shared, so they are fields holding sequences of length
 * MODES_SCREEN.
 *
 * `View()` reads the object as a `ScreenState` value, and every operation
 * is proved to leave the object in the state the matching function of
 * `ScreenSpec` computes from the old one; the properties of those functions
 * are proved in `ScreenSpec` and `ScreenProperties`.
 */
module ScreenGrid {
  import opened ImageLines
  import S = ScreenSpec

  class Screen {
    var lines: int
    var columns: int
    var screenLines: seq<Line>
    /** The lines that left the top of the screen, oldest first. */
    var history: seq<Line>
    var cuX: int
    var cuY: int
    var currentForeground: Color
    var currentBackground: Color
    var currentRendition: set<RenditionFlag>
    var topMargin: int
    var bottomMargin: int
    var currentModes: seq<bool>
    var savedModes: seq<bool>
    var tabStops: seq<bool>
    var selBegin: int
    var selTopLeft: int
    var selBottomRight: int
    var blockSelectionMode: bool
    var savedState: S.SavedState
    var lastDrawnChar: nat

    /** The state of this screen as a value. */
    function View(): S.ScreenState
      reads this
    {
      S.ScreenState(lines, columns, screenLines, history, cuX, cuY,
                    currentForeground, currentBackground, currentRendition,
                    topMargin, bottomMargin, currentModes, savedModes, tabStops,
                    selBegin, selTopLeft, selBottomRight, blockSelectionMode, savedState, lastDrawnChar)
    }

    predicate Valid()
      reads this
    {
      S.Valid(View())
    }

    /** A screen of `l` lines of `c` columns: empty lines, cursor home, no selection, modes as after a reset. */
    constructor (l: int, c: int)
      requires 1 <= l && 1 <= c
      ensures Valid()
      ensures lines == l && columns == c && screenLines == Repeat([], l) && history == []
      ensures cuX == 0 && cuY == 0 && topMargin == 0 && bottomMargin == l - 1
      ensures tabStops == S.DefaultTabStops(c) && !S.HasSelection(View())
      ensures S.GetMode(View(), S.MODE_Wrap) && S.GetMode(View(), S.MODE_Cursor)
      ensures forall m :: S.IsMode(m) && m != S.MODE_Wrap && m != S.MODE_Cursor ==> !S.GetMode(View(), m)
      ensures savedState == S.InitialSavedState && savedModes == S.InitialSavedModes
      ensures currentRendition == {} && currentForeground == DefaultForeground && currentBackground == DefaultBackground
    {
      lines := l;
      columns := c;
      screenLines := Repeat([], l);
      history := [];
      cuX, cuY := 0, 0;
      currentForeground, currentBackground, currentRendition := DefaultForeground, DefaultBackground, {};
      topMargin, bottomMargin := 0, l - 1;
      var modes := seq(S.MODES_SCREEN, m => m == S.MODE_Wrap || m == S.MODE_Cursor);
      currentModes := modes;
      savedModes := S.InitialSavedModes;
      tabStops := S.DefaultTabStops(c);
      selBegin, selTopLeft, selBottomRight := -1, -1, -1;
      blockSelectionMode := false;
      savedState := S.InitialSavedState;
      lastDrawnChar := 0;
    }

    // -------------------------------------------------------------------
    // Cursor movement
    // -------------------------------------------------------------------

    method CursorUp(n: int)
      requires Valid()
      modifies this
      ensures Valid() && View() == S.CursorUp(old(View()), n)
    {
      var stop := if cuY < topMargin then 0 else topMargin;
      cuX := S.MinI(cuX, columns - 1);
      cuY := S.MaxI(stop, cuY - S.Arg(n));
    }

    method CursorDown(n: int)
      requires Valid()
      modifies this
      ensures Valid() && View() == S.CursorDown(old(View()), n)
    {
      var stop := if cuY > bottomMargin then lines - 1 else bottomMargin;
      cuX := S.MinI(cuX, columns - 1);
      cuY := S.MinI(stop, cuY + S.Arg(n));
    }

    method CursorLeft(n: int)
      requires Valid()
      modifies this
      ensures Valid() && View() == S.CursorLeft(old(View()), n)
    {
      cuX := S.MinI(cuX, columns - 1);
      cuX := S.MaxI(0, cuX - S.Arg(n));
    }

    method CursorRight(n: int)
      requires Valid()
      modifies this
      ensures Valid() && View() == S.CursorRight(old(View()), n)
    {
      cuX := S.MinI(columns - 1, cuX + S.Arg(n));
    }

    method CursorNextLine(n: int)
      requires Valid()
      modifies this
      ensures Valid() && View() == S.CursorNextLine(old(View()), n)
    {
      var stop := if cuY > bottomMargin then lines - 1 else bottomMargin;
      cuX := 0;
      cuY := S.MinI(stop, cuY + S.Arg(n));
    }

    method CursorPreviousLine(n: int)
      requires Valid()
      modifies this
      ensures Valid() && View() == S.CursorPreviousLine(old(View()), n)
    {
      var stop := if cuY < topMargin then 0 else topMargin;
      cuX := 0;
      cuY := S.MaxI(stop, cuY - S.Arg(n));
    }

    method SetCursorX(x: int)
      requires Valid()
      modifies this
      ensures Valid() && View() == S.SetCursorX(old(View()), x)
    {
      cuX := S.Clamp(x, 0, columns - 1);
    }

    method SetCursorY(y: int)
      requires Valid()
      modifies this
      ensures Valid() && View() == S.SetCursorY(old(View()), y)
    {
      var offset := if currentModes[S.MODE_Origin] then topMargin else 0;
      cuY := S.Clamp(y + offset, 0, lines - 1);
    }

    method SetCursorYX(y: int, x: int)
      requires Valid()
      modifies this
      ensures Valid() && View() == S.SetCursorYX(old(View()), y, x)
    {
      SetCursorY(y);
      SetCursorX(x);
    }

    method SetMargins(top: int, bot: int)
      requires Valid()
      modifies this
      ensures Valid() && View() == S.SetMargins(old(View()), top, bot)
    {
      if 0 <= top < bot < lines {
        topMargin, bottomMargin := top, bot;
        cuX := 0;
        cuY := if currentModes[S.MODE_Origin] then top else 0;
      }
    }

    method SetDefaultMargins()
      requires Valid()
      modifies this
      ensures Valid() && View() == S.SetDefaultMargins(old(View()))
    {
      topMargin, bottomMargin := 0, lines - 1;
    }

    // -------------------------------------------------------------------
    // Scrolling and line movement
    // -------------------------------------------------------------------

    method ScrollUp(n: int)
      requires Valid()
      modifies this
      ensures Valid() && View() == S.ScrollUp(old(View()), n)
    {
      var k := S.ScrollCount(View(), topMargin, S.Arg(n));
      var blank := S.BlankLine(View());
      if topMargin == 0 {
        history := history + ScrolledOff(screenLines, 0, k);
      }
      screenLines := ScrollRegionUp(screenLines, topMargin, bottomMargin, k, blank);
    }

    method ScrollDown(n: int)
      requires Valid()
      modifies this
      ensures Valid() && View() == S.ScrollDown(old(View()), n)
    {
      var k := S.ScrollCount(View(), topMargin, S.Arg(n));
      screenLines := ScrollRegionDown(screenLines, topMargin, bottomMargin, k, S.BlankLine(View()));
    }

    method Index()
      requires Valid()
      modifies this
      ensures Valid() && View() == S.Index(old(View()))
    {
      if cuY == bottomMargin {
        ScrollUp(1);
      } else if cuY < lines - 1 {
        cuY := cuY + 1;
      }
    }

    method ReverseIndex()
      requires Valid()
      modifies this
      ensures Valid() && View() == S.ReverseIndex(old(View()))
    {
      if cuY == topMargin {
        ScrollDown(1);
      } else if cuY > 0 {
        cuY := cuY - 1;
      }
    }

    method ToStartOfLine()
      requires Valid()
      modifies this
      ensures Valid() && View() == S.ToStartOfLine(old(View()))
    {
      cuX := 0;
    }

    method NextLine()
      requires Valid()
      modifies this
      ensures Valid() && View() == S.NextLine(old(View()))
    {
      ToStartOfLine();
      Index();
    }

    method NewLine()
      requires Valid()
      modifies this
      ensures Valid() && View() == S.NewLine(old(View()))
    {
      if currentModes[S.MODE_NewLine] {
        ToStartOfLine();
      }
      Index();
    }

    method Backspace()
      requires Valid()
      modifies this
      ensures Valid() && View() == S.Backspace(old(View()))
    {
      var blank := S.CurrentBlank(View());
      cuX := S.MaxI(0, S.MinI(cuX, columns - 1) - 1);
      screenLines := screenLines[cuY := Fill(screenLines[cuY], cuX, cuX, blank)];
    }

    /** One tab: one column right, then on to the next tab stop or the last column. */
    method TabOnce()
      requires Valid()
      modifies this
      ensures Valid() && View() == S.TabOnce(old(View()))
    {
      if cuX < columns - 1 {
        var start := cuX + 1;
        cuX := start;
        while cuX < columns - 1 && !tabStops[cuX]
          invariant View() == old(View()).(cuX := cuX)
          invariant start <= cuX <= S.NextTabStop(tabStops, start)
          decreases columns - cuX
        {
          cuX := cuX + 1;
        }
      }
    }

    /** Moves the cursor `n` tab stops right, ending at the last column at most. */
    method Tab(n: int)
      requires Valid()
      modifies this
      ensures Valid() && View() == S.Tab(old(View()), n)
    {
      var count := S.Arg(n);
      var i := 0;
      while i < count && cuX < columns - 1
        invariant Valid() && 0 <= i <= count
        invariant View() == S.Tabs(old(View()), i)
        decreases count - i
      {
        TabOnce();
        i := i + 1;
      }
      if i < count {
        S.TabsStayAtLastColumn(old(View()), i, count);
      }
    }

    /** One backtab: one column left, then on to the previous tab stop or column 0. */
    method BacktabOnce()
      requires Valid()
      modifies this
      ensures Valid() && View() == S.BacktabOnce(old(View()))
    {
      if cuX > 0 {
        var start := S.MaxI(0, S.MinI(cuX, columns - 1) - 1);
        cuX := start;
        while cuX > 0 && !tabStops[cuX]
          invariant View() == old(View()).(cuX := cuX)
          invariant S.PreviousTabStop(tabStops, start) <= cuX <= start
          decreases cuX
        {
          cuX := cuX - 1;
        }
      }
    }

    /** Moves the cursor `n` tab stops left, ending at column 0 at most. */
    method Backtab(n: int)
      requires Valid()
      modifies this
      ensures Valid() && View() == S.Backtab(old(View()), n)
    {
      var count := S.Arg(n);
      var i := 0;
      while i < count && cuX > 0
        invariant Valid() && 0 <= i <= count
        invariant View() == S.Backtabs(old(View()), i)
        decreases count - i
      {
        BacktabOnce();
        i := i + 1;
      }
      if i < count {
        S.BacktabsStayAtFirstColumn(old(View()), i, count);
      }
    }

    // -------------------------------------------------------------------
    // Editing
    // -------------------------------------------------------------------

    method EraseChars(n: int)
      requires Valid()
      modifies this
      ensures Valid() && View() == S.EraseChars(old(View()), n)
    {
      if cuX < columns {
        var last := S.MinI(cuX + S.Arg(n) - 1, columns - 1);
        screenLines := screenLines[cuY := Fill(screenLines[cuY], cuX, last, S.CurrentBlank(View()))];
      }
    }

    method DeleteChars(n: int)
      requires Valid()
      modifies this
      ensures Valid() && View() == S.DeleteChars(old(View()), n)
    {
      screenLines := screenLines[cuY := DeleteCells(screenLines[cuY], cuX, S.Arg(n), S.CurrentBlank(View()))];
    }

    method InsertChars(n: int)
      requires Valid()
      modifies this
      ensures Valid() && View() == S.InsertChars(old(View()), n)
    {
      screenLines := screenLines[cuY := InsertCells(screenLines[cuY], cuX, S.Arg(n), columns, S.DefaultCell)];
    }

    method DeleteLines(n: int)
      requires Valid()
      modifies this
      ensures Valid() && View() == S.DeleteLines(old(View()), n)
    {
      if cuY <= bottomMargin {
        var k := S.ScrollCount(View(), cuY, S.Arg(n));
        screenLines := ScrollRegionUp(screenLines, cuY, bottomMargin, k, S.BlankLine(View()));
      }
    }

    method InsertLines(n: int)
      requires Valid()
      modifies this
      ensures Valid() && View() == S.InsertLines(old(View()), n)
    {
      if cuY <= bottomMargin {
        var k := S.ScrollCount(View(), cuY, S.Arg(n));
        screenLines := ScrollRegionDown(screenLines, cuY, bottomMargin, k, S.BlankLine(View()));
      }
    }

    method ClearTabStops()
      requires Valid()
      modifies this
      ensures Valid() && View() == S.ClearTabStops(old(View()))
    {
      tabStops := Repeat(false, columns);
    }

    method ChangeTabStop(set_: bool)
      requires Valid()
      modifies this
      ensures Valid() && View() == S.ChangeTabStop(old(View()), set_)
    {
      if cuX < columns {
        tabStops := tabStops[cuX := set_];
      }
    }

    // -------------------------------------------------------------------
    // Modes
    // -------------------------------------------------------------------

    method SetMode(m: int)
      requires Valid() && S.IsMode(m)
      modifies this
      ensures Valid() && View() == S.SetMode(old(View()), m)
    {
      currentModes := currentModes[m := true];
    }

    method ResetMode(m: int)
      requires Valid() && S.IsMode(m)
      modifies this
      ensures Valid() && View() == S.ResetMode(old(View()), m)
    {
      currentModes := currentModes[m := false];
    }

    method SaveMode(m: int)
      requires Valid() && S.IsMode(m)
      modifies this
      ensures Valid() && View() == S.SaveMode(old(View()), m)
    {
      savedModes := savedModes[m := currentModes[m]];
    }

    method RestoreMode(m: int)
      requires Valid() && S.IsMode(m)
      modifies this
      ensures Valid() && View() == S.RestoreMode(old(View()), m)
    {
      currentModes := currentModes[m := savedModes[m]];
    }

    /** Whether mode `m` is set: a query that changes nothing. */
    method GetMode(m: int) returns (r: bool)
      requires Valid() && S.IsMode(m)
      ensures r == S.GetMode(View(), m)
    {
      r := currentModes[m];
    }

    // -------------------------------------------------------------------
    // Saved cursor and rendition
    // -------------------------------------------------------------------

    method SaveCursor()
      requires Valid()
      modifies this
      ensures Valid() && View() == S.SaveCursor(old(View()))
    {
      savedState := S.SavedState(cuX, cuY, currentModes[S.MODE_Origin], currentRendition, currentForeground, currentBackground);
    }

    method RestoreCursor()
      requires Valid()
      modifies this
      ensures Valid() && View() == S.RestoreCursor(old(View()))
    {
      RestoreCursorPosition();
      currentModes := currentModes[S.MODE_Origin := savedState.originMode];
      RestoreSavedRendition();
    }

    /** The saved cursor position, clamped to the screen. */
    method RestoreCursorPosition()
      requires Valid()
      modifies this
      ensures Valid()
      ensures View() == old(View()).(cuX := S.MinI(old(savedState).cursorColumn, old(columns) - 1),
                                     cuY := S.MinI(old(savedState).cursorLine, old(lines) - 1))
    {
      cuX := S.MinI(savedState.cursorColumn, columns - 1);
      cuY := S.MinI(savedState.cursorLine, lines - 1);
    }

    /** The saved rendition and colours. */
    method RestoreSavedRendition()
      requires Valid()
      modifies this
      ensures Valid()
      ensures View() == old(View()).(rendition := old(savedState).rendition, foreground := old(savedState).foreground,
                                     background := old(savedState).background)
    {
      currentRendition := savedState.rendition;
      currentForeground := savedState.foreground;
      currentBackground := savedState.background;
    }

    method SetRendition(flags: set<RenditionFlag>)
      requires Valid()
      modifies this
      ensures Valid() && View() == S.SetRendition(old(View()), flags)
    {
      currentRendition := currentRendition + flags;
    }

    method ResetRendition(flags: set<RenditionFlag>)
      requires Valid()
      modifies this
      ensures Valid() && View() == S.ResetRendition(old(View()), flags)
    {
      currentRendition := currentRendition - flags;
    }

    method SetForeColor(space: int, color: int)
      requires Valid()
      modifies this
      ensures Valid() && View() == S.SetForeColor(old(View()), space, color)
    {
      currentForeground := Color(space, color);
    }

    method SetBackColor(space: int, color: int)
      requires Valid()
      modifies this
      ensures Valid() && View() == S.SetBackColor(old(View()), space, color)
    {
      currentBackground := Color(space, color);
    }

    method SetDefaultRendition()
      requires Valid()
      modifies this
      ensures Valid() && View() == S.SetDefaultRendition(old(View()))
    {
      currentRendition := {};
      currentForeground := DefaultForeground;
      currentBackground := DefaultBackground;
    }

    // -------------------------------------------------------------------
    // Clearing
    // -------------------------------------------------------------------

    method ClearToEndOfLine()
      requires Valid()
      modifies this
      ensures Valid() && View() == S.ClearToEndOfLine(old(View()))
    {
      if cuX < columns {
        screenLines := screenLines[cuY := Fill(screenLines[cuY], cuX, columns - 1, S.CurrentBlank(View()))];
      }
    }

    method ClearToBeginOfLine()
      requires Valid()
      modifies this
      ensures Valid() && View() == S.ClearToBeginOfLine(old(View()))
    {
      screenLines := screenLines[cuY := Fill(screenLines[cuY], 0, S.MinI(cuX, columns - 1), S.CurrentBlank(View()))];
    }

    method ClearEntireLine()
      requires Valid()
      modifies this
      ensures Valid() && View() == S.ClearEntireLine(old(View()))
    {
      screenLines := screenLines[cuY := S.BlankLine(View())];
    }

    /** Lines `from .. to - 1` become cleared lines. */
    method ClearLines(from: int, to: int)
      requires Valid()
      modifies this
      ensures Valid() && View() == S.ClearLines(old(View()), from, to)
    {
      var blank := S.BlankLine(View());
      screenLines := seq(lines, j requires 0 <= j < lines && |screenLines| == lines reads this =>
                           if from <= j < to then blank else screenLines[j]);
    }

    method ClearToEndOfScreen()
      requires Valid()
      modifies this
      ensures Valid() && View() == S.ClearToEndOfScreen(old(View()))
    {
      ClearToEndOfLine();
      ClearLines(cuY + 1, lines);
    }

    method ClearToBeginOfScreen()
      requires Valid()
      modifies this
      ensures Valid() && View() == S.ClearToBeginOfScreen(old(View()))
    {
      ClearToBeginOfLine();
      ClearLines(0, cuY);
    }

    method ClearEntireScreen()
      requires Valid()
      modifies this
      ensures Valid() && View() == S.ClearEntireScreen(old(View()))
    {
      history := history + screenLines;
      ClearLines(0, lines);
    }

    method HelpAlign()
      requires Valid()
      modifies this
      ensures Valid() && View() == S.HelpAlign(old(View()))
    {
      var e := Repeat(Cell(S.LETTER_E, currentForeground, currentBackground, {}), columns);
      screenLines := Repeat(e, lines);
    }

    // -------------------------------------------------------------------
    // Selection
    // -------------------------------------------------------------------

    method ClearSelection()
      requires Valid()
      modifies this
      ensures Valid() && View() == S.ClearSelection(old(View()))
    {
      selBegin, selTopLeft, selBottomRight := -1, -1, -1;
    }

    /** Whether a selection exists: a query that changes nothing. */
    method HasSelection() returns (r: bool)
      requires Valid()
      ensures r == S.HasSelection(View())
    {
      r := selTopLeft >= 0 && selBottomRight >= 0;
    }

    method SetSelectionStart(x: int, y: int, blockMode: bool)
      requires Valid()
      modifies this
      ensures Valid() && View() == S.SetSelectionStart(old(View()), x, y, blockMode)
    {
      selBegin := y * columns + x;
      selTopLeft, selBottomRight := selBegin, selBegin;
      blockSelectionMode := blockMode;
    }

    method SetSelectionEnd(x: int, y: int)
      requires Valid()
      modifies this
      ensures Valid() && View() == S.SetSelectionEnd(old(View()), x, y)
    {
      if selBegin == -1 {
        return;
      }
      var end := y * columns + x;
      var tl := S.MinI(selBegin, end);
      var br := S.MaxI(selBegin, end);
      if blockSelectionMode {
        var c := columns;
        selTopLeft := tl / c * c + S.MinI(tl % c, br % c);
        selBottomRight := br / c * c + S.MaxI(tl % c, br % c);
      } else {
        selTopLeft, selBottomRight := tl, br;
      }
    }

    method CheckSelection(from: int, to: int)
      requires Valid()
      modifies this
      ensures Valid() && View() == S.CheckSelection(old(View()), from, to)
    {
      if selBegin == -1 {
        return;
      }
      var offset := |history| * columns;
      if selBottomRight >= from + offset && selTopLeft <= to + offset {
        ClearSelection();
      }
    }

    // -------------------------------------------------------------------
    // Writing characters
    // -------------------------------------------------------------------

    /** The write position: a pending wrap moves to the next line (wrap mode) or back to the last column. */
    method WrapForWrite()
      requires Valid()
      modifies this
      ensures Valid() && View() == S.WrapForWrite(old(View()))
    {
      if cuX >= columns {
        if currentModes[S.MODE_Wrap] {
          NextLine();
        } else {
          cuX := columns - 1;
        }
      }
    }

    /** The character in the current colours and rendition goes into the cell under the cursor. */
    method PutChar(c: nat)
      requires Valid() && cuX < columns
      modifies this
      ensures Valid() && View() == S.PutChar(old(View()), c)
    {
      var line := Padded(screenLines[cuY], cuX + 1, S.DefaultCell);
      screenLines := screenLines[cuY := line[cuX := Cell(c, currentForeground, currentBackground, currentRendition)]];
      lastDrawnChar := c;
      cuX := cuX + 1;
    }

    method DisplayCharacter(c: nat)
      requires Valid()
      modifies this
      ensures Valid() && View() == S.DisplayCharacter(old(View()), c)
    {
      WrapForWrite();
      if currentModes[S.MODE_Insert] {
        InsertChars(1);
      }
      var pos := cuY * columns + cuX;
      CheckSelection(pos, pos);
      PutChar(c);
    }

    /** Writes the last written character `n` more times. */
    method RepeatChars(n: int)
      requires Valid()
      modifies this
      ensures Valid() && View() == S.RepeatChars(old(View()), n)
    {
      ghost var s0 := View();
      var c := lastDrawnChar;
      var count := S.Arg(n);
      var i := 0;
      while i < count
        invariant 0 <= i <= count
        invariant View() == S.DisplayRepeated(s0, c, i)
        decreases count - i
      {
        DisplayAgain(s0, c, i);
        i := i + 1;
      }
    }

    /** One more write of `c` after `i` of them. */
    method DisplayAgain(ghost s0: S.ScreenState, c: nat, i: nat)
      requires S.Valid(s0) && View() == S.DisplayRepeated(s0, c, i)
      modifies this
      ensures View() == S.DisplayRepeated(s0, c, i + 1)
    {
      DisplayCharacter(c);
    }

    // -------------------------------------------------------------------
    // Reset and resize
    // -------------------------------------------------------------------

    method Reset(softReset: bool)
      requires Valid()
      modifies this
      ensures Valid() && View() == S.Reset(old(View()), softReset)
    {
      if !softReset {
        ClearEntireScreen();
      }
      SoftReset();
      if !softReset {
        ForgetSavedState();
      }
    }

    /** A hard reset homes the cursor and forgets the saved cursor and the saved modes. */
    method ForgetSavedState()
      requires Valid()
      modifies this
      ensures Valid() && View() == S.ForgetSavedState(old(View()))
    {
      cuX, cuY := 0, 0;
      savedState := S.InitialSavedState;
      savedModes := S.InitialSavedModes;
    }

    /** The part of a reset that does not touch the screen lines. */
    method SoftReset()
      requires Valid()
      modifies this
      ensures Valid() && View() == S.SoftReset(old(View()))
    {
      ResetModes();
      SetDefaultMargins();
      SetDefaultRendition();
      InitTabStops();
      ClearSelection();
    }

    /** The modes a reset sets: wrap and cursor mode on; origin, insert, screen and new-line mode off. */
    method ResetModes()
      requires Valid()
      modifies this
      ensures Valid() && View() == old(View()).(modes := S.ResetModes(old(currentModes)))
    {
      currentModes := S.ResetModes(currentModes);
    }

    /** A tab stop every eight columns. */
    method InitTabStops()
      requires Valid()
      modifies this
      ensures Valid() && View() == old(View()).(tabStops := S.DefaultTabStops(old(columns)))
    {
      tabStops := S.DefaultTabStops(columns);
    }

    method ResizeImage(newLines: int, newColumns: int)
      requires Valid() && 1 <= newLines && 1 <= newColumns
      modifies this
      ensures Valid() && View() == S.ResizeImage(old(View()), newLines, newColumns)
    {
      ResizeLines(newLines);
      ResizeColumns(newColumns);
    }

    /** The new height: the lines above the cursor that no longer fit move into the history. */
    method ResizeLines(newLines: int)
      requires Valid() && 1 <= newLines
      modifies this
      ensures Valid() && View() == S.ResizeLines(old(View()), newLines)
    {
      var k := if cuY > newLines - 1 then cuY - (newLines - 1) else 0;
      MoveIntoHistory(k);
      FitHeight(newLines);
    }

    /** The top `k` lines move into the history and the cursor moves up with the rest. */
    method MoveIntoHistory(k: nat)
      requires k <= cuY < |screenLines|
      modifies this
      ensures View() == old(View()).(history := old(history) + old(screenLines)[..k],
                                     screenLines := old(screenLines)[k..], cuY := old(cuY) - k)
    {
      history, screenLines, cuY := history + screenLines[..k], screenLines[k..], cuY - k;
    }

    /**
     * The screen becomes `newLines` high: lines past it are dropped, missing
     * ones are empty and the margins span the new height.
     */
    method FitHeight(newLines: int)
      requires 1 <= newLines
      modifies this
      ensures View() == old(View()).(lines := newLines, screenLines := S.FitLines(old(screenLines), newLines),
                                     topMargin := 0, bottomMargin := newLines - 1)
    {
      lines, screenLines, topMargin, bottomMargin := newLines, S.FitLines(screenLines, newLines), 0, newLines - 1;
    }

    /** The new width: no line is cut, tab stops go back to the defaults and the selection is cleared. */
    method ResizeColumns(newColumns: int)
      requires Valid() && 1 <= newColumns
      modifies this
      ensures Valid() && View() == S.ResizeColumns(old(View()), newColumns)
    {
      SetWidth(newColumns);
      ClearSelection();
    }

    /** The screen becomes `newColumns` wide: the cursor is kept inside it and the tab stops are the defaults. */
    method SetWidth(newColumns: int)
      requires Valid() && 1 <= newColumns
      modifies this
      ensures Valid()
      ensures View() == old(View()).(columns := newColumns, cuX := S.MinI(old(cuX), newColumns - 1),
                                     tabStops := S.DefaultTabStops(newColumns))
    {
      columns, cuX, tabStops := newColumns, S.MinI(cuX, newColumns - 1), S.DefaultTabStops(newColumns);
    }

    // -------------------------------------------------------------------
    // Extended characters
    // -------------------------------------------------------------------

    /** The characters of all cells on the screen flagged Extended. */
    method UsedExtendedChars() returns (result: set<nat>)
      requires Valid()
      ensures result == ExtendedChars(screenLines, lines)
      ensures forall i, j :: 0 <= i < lines && 0 <= j < |screenLines[i]| && Extended in screenLines[i][j].rendition ==>
                screenLines[i][j].character in result
      ensures forall c :: c in result ==>
                exists i, j :: 0 <= i < lines && 0 <= j < |screenLines[i]| && Extended in screenLines[i][j].rendition &&
                  screenLines[i][j].character == c
    {
      result := {};
      var i := 0;
      while i < lines
        invariant 0 <= i <= lines
        invariant result == ExtendedChars(screenLines, i)
      {
        var line := screenLines[i];
        var j := 0;
        while j < |line|
          invariant 0 <= j <= |line|
          invariant result == ExtendedChars(screenLines, i) + ExtendedCharsOfLine(line, j)
        {
          ExtendedCharsOfLineStep(line, j);
          if Extended in line[j].rendition {
            result := result + {line[j].character};
          }
          j := j + 1;
        }
        ExtendedCharsStep(screenLines, i + 1);
        i := i + 1;
      }
    }
  }
}
