/**
 * Properties of the screen operations that relate several calls: cursor
 * round trips, scrolling into the history, per-mode save and restore, the
 * single saved-cursor slot across any sequence of other operations, resize
 * idempotence, selection addressing and tab stops.
 */
module ScreenProperties {
  import opened ImageLines
  import S = ScreenSpec

  /** Every operation of the screen, as a value, so that sequences of operations can be reasoned about. */
  datatype Op =
    | CursorUp(n: int) | CursorDown(n: int) | CursorLeft(n: int) | CursorRight(n: int)
    | CursorNextLine(n: int) | CursorPreviousLine(n: int)
    | SetCursorX(x: int) | SetCursorY(y: int) | SetCursorYX(y: int, x: int)
    | SetMargins(top: int, bot: int) | SetDefaultMargins
    | NewLine | NextLine | Index | ReverseIndex | ScrollUp(n: int) | ScrollDown(n: int)
    | ToStartOfLine | Backspace | Tab(n: int) | Backtab(n: int)
    | EraseChars(n: int) | DeleteChars(n: int) | InsertChars(n: int) | RepeatChars(n: int)
    | DeleteLines(n: int) | InsertLines(n: int) | ClearTabStops | ChangeTabStop(set_: bool)
    | ResetMode(m: int) | SetMode(m: int) | SaveMode(m: int) | RestoreMode(m: int)
    | SaveCursor | RestoreCursor
    | ClearEntireScreen | ClearToEndOfScreen | ClearToBeginOfScreen
    | ClearEntireLine | ClearToEndOfLine | ClearToBeginOfLine | HelpAlign
    | SetRendition(flags: set<RenditionFlag>) | ResetRendition(flags: set<RenditionFlag>)
    | SetForeColor(space: int, color: int) | SetBackColor(space: int, color: int) | SetDefaultRendition
    | Reset(softReset: bool) | DisplayCharacter(c: nat) | ResizeImage(newLines: int, newColumns: int)
    | SetSelectionStart(x: int, y: int, blockMode: bool) | SetSelectionEnd(x: int, y: int)
    | ClearSelection | CheckSelection(from: int, to: int)

  /** What the callers guarantee: mode numbers name one of the eight modes, and a resize keeps at least one line and column. */
  predicate WellFormed(op: Op)
  {
    match op
    case ResetMode(m) => S.IsMode(m)
    case SetMode(m) => S.IsMode(m)
    case SaveMode(m) => S.IsMode(m)
    case RestoreMode(m) => S.IsMode(m)
    case ResizeImage(l, c) => 1 <= l && 1 <= c
    case _ => true
  }

  predicate IsCursorOp(op: Op)
  {
    op.CursorUp? || op.CursorDown? || op.CursorLeft? || op.CursorRight? || op.CursorNextLine? || op.CursorPreviousLine? || op.SetCursorX? || op.SetCursorY? || op.SetCursorYX? || op.SetMargins? || op.SetDefaultMargins? || op.ToStartOfLine? || op.Tab? || op.Backtab?
  }

  predicate IsScrollOp(op: Op)
  {
    op.NewLine? || op.NextLine? || op.Index? || op.ReverseIndex? || op.ScrollUp? || op.ScrollDown? || op.Backspace?
  }

  predicate IsEditOp(op: Op)
  {
    op.EraseChars? || op.DeleteChars? || op.InsertChars? || op.RepeatChars? || op.DeleteLines? || op.InsertLines?
  }

  predicate IsClearOp(op: Op)
  {
    op.ClearTabStops? || op.ChangeTabStop? || op.ClearEntireScreen? || op.ClearToEndOfScreen? || op.ClearToBeginOfScreen? || op.ClearEntireLine? || op.ClearToEndOfLine? || op.ClearToBeginOfLine? || op.HelpAlign?
  }

  predicate IsModeOp(op: Op)
  {
    op.ResetMode? || op.SetMode? || op.SaveMode? || op.RestoreMode? || op.SaveCursor? || op.RestoreCursor?
  }

  predicate IsRenditionOp(op: Op)
  {
    op.SetRendition? || op.ResetRendition? || op.SetForeColor? || op.SetBackColor? || op.SetDefaultRendition?
  }

  predicate IsWriteOp(op: Op)
  {
    op.Reset? || op.DisplayCharacter? || op.ResizeImage?
  }

  /** The operations on cursor movement, margins and tabs. */
  function ApplyCursor(s: S.ScreenState, op: Op): (r: S.ScreenState)
    requires S.Valid(s) && IsCursorOp(op)
    ensures S.Valid(r) && r.savedModes == s.savedModes && r.saved == s.saved
    ensures r.lines == s.lines && r.columns == s.columns
  {
    match op
    case CursorUp(n) => S.CursorUp(s, n)
    case CursorDown(n) => S.CursorDown(s, n)
    case CursorLeft(n) => S.CursorLeft(s, n)
    case CursorRight(n) => S.CursorRight(s, n)
    case CursorNextLine(n) => S.CursorNextLine(s, n)
    case CursorPreviousLine(n) => S.CursorPreviousLine(s, n)
    case SetCursorX(x) => S.SetCursorX(s, x)
    case SetCursorY(y) => S.SetCursorY(s, y)
    case SetCursorYX(y, x) => S.SetCursorYX(s, y, x)
    case SetMargins(t, b) => S.SetMargins(s, t, b)
    case SetDefaultMargins => S.SetDefaultMargins(s)
    case ToStartOfLine => S.ToStartOfLine(s)
    case Tab(n) => S.Tab(s, n)
    case Backtab(n) => S.Backtab(s, n)
  }

  /** The operations on scrolling. */
  function ApplyScroll(s: S.ScreenState, op: Op): (r: S.ScreenState)
    requires S.Valid(s) && IsScrollOp(op)
    ensures S.Valid(r) && r.savedModes == s.savedModes && r.saved == s.saved
    ensures r.lines == s.lines && r.columns == s.columns
  {
    match op
    case NewLine => S.NewLine(s)
    case NextLine => S.NextLine(s)
    case Index => S.Index(s)
    case ReverseIndex => S.ReverseIndex(s)
    case ScrollUp(n) => S.ScrollUp(s, n)
    case ScrollDown(n) => S.ScrollDown(s, n)
    case Backspace => S.Backspace(s)
  }

  /** The operations on editing characters and lines. */
  function ApplyEdit(s: S.ScreenState, op: Op): (r: S.ScreenState)
    requires S.Valid(s) && IsEditOp(op)
    ensures S.Valid(r) && r.savedModes == s.savedModes && r.saved == s.saved
    ensures r.lines == s.lines && r.columns == s.columns
  {
    match op
    case EraseChars(n) => S.EraseChars(s, n)
    case DeleteChars(n) => S.DeleteChars(s, n)
    case InsertChars(n) => S.InsertChars(s, n)
    case RepeatChars(n) => S.RepeatChars(s, n)
    case DeleteLines(n) => S.DeleteLines(s, n)
    case InsertLines(n) => S.InsertLines(s, n)
  }

  /** The operations on tab stops and clearing. */
  function ApplyClear(s: S.ScreenState, op: Op): (r: S.ScreenState)
    requires S.Valid(s) && IsClearOp(op)
    ensures S.Valid(r) && r.savedModes == s.savedModes && r.saved == s.saved
    ensures r.lines == s.lines && r.columns == s.columns
  {
    match op
    case ClearTabStops => S.ClearTabStops(s)
    case ChangeTabStop(b) => S.ChangeTabStop(s, b)
    case ClearEntireScreen => S.ClearEntireScreen(s)
    case ClearToEndOfScreen => S.ClearToEndOfScreen(s)
    case ClearToBeginOfScreen => S.ClearToBeginOfScreen(s)
    case ClearEntireLine => S.ClearEntireLine(s)
    case ClearToEndOfLine => S.ClearToEndOfLine(s)
    case ClearToBeginOfLine => S.ClearToBeginOfLine(s)
    case HelpAlign => S.HelpAlign(s)
  }

  /** The operations on modes and the saved cursor. */
  function ApplyMode(s: S.ScreenState, op: Op): (r: S.ScreenState)
    requires S.Valid(s) && WellFormed(op) && IsModeOp(op)
    ensures S.Valid(r)
    ensures forall k :: S.IsMode(k) && op != SaveMode(k) ==> r.savedModes[k] == s.savedModes[k]
    ensures op != SaveCursor ==> r.saved == s.saved
    ensures r.lines == s.lines && r.columns == s.columns
  {
    match op
    case ResetMode(m) => S.ResetMode(s, m)
    case SetMode(m) => S.SetMode(s, m)
    case SaveMode(m) => S.SaveMode(s, m)
    case RestoreMode(m) => S.RestoreMode(s, m)
    case SaveCursor => S.SaveCursor(s)
    case RestoreCursor => S.RestoreCursor(s)
  }

  /** The operations on rendition and colours. */
  function ApplyRendition(s: S.ScreenState, op: Op): (r: S.ScreenState)
    requires S.Valid(s) && IsRenditionOp(op)
    ensures S.Valid(r) && r.savedModes == s.savedModes && r.saved == s.saved
    ensures r.lines == s.lines && r.columns == s.columns
  {
    match op
    case SetRendition(f) => S.SetRendition(s, f)
    case ResetRendition(f) => S.ResetRendition(s, f)
    case SetForeColor(sp, c) => S.SetForeColor(s, sp, c)
    case SetBackColor(sp, c) => S.SetBackColor(s, sp, c)
    case SetDefaultRendition => S.SetDefaultRendition(s)
  }

  /** The operations on reset, writing and resizing. */
  function ApplyWrite(s: S.ScreenState, op: Op): (r: S.ScreenState)
    requires S.Valid(s) && WellFormed(op) && IsWriteOp(op)
    ensures S.Valid(r)
    ensures op != Reset(false) ==> r.savedModes == s.savedModes && r.saved == s.saved
    ensures !op.ResizeImage? ==> r.lines == s.lines && r.columns == s.columns
  {
    match op
    case Reset(soft) => S.Reset(s, soft)
    case DisplayCharacter(c) => S.DisplayCharacter(s, c)
    case ResizeImage(l, c) => S.ResizeImage(s, l, c)
  }

  /** The operations on the selection. */
  function ApplySelection(s: S.ScreenState, op: Op): (r: S.ScreenState)
    requires S.Valid(s) && (op.SetSelectionStart? || op.SetSelectionEnd? || op.ClearSelection? || op.CheckSelection?)
    ensures S.Valid(r) && r.savedModes == s.savedModes && r.saved == s.saved
    ensures r.lines == s.lines && r.columns == s.columns
  {
    match op
    case SetSelectionStart(x, y, b) => S.SetSelectionStart(s, x, y, b)
    case SetSelectionEnd(x, y) => S.SetSelectionEnd(s, x, y)
    case ClearSelection => S.ClearSelection(s)
    case CheckSelection(f, t) => S.CheckSelection(s, f, t)
  }

  /**
   * One operation applied to the screen. Only `saveMode(m)` and a hard
   * reset write the saved copy of mode `m`, only `saveCursor` and a hard
   * reset write the saved-cursor slot, and only `resizeImage` changes the
   * size of the screen.
   */
  function Apply(s: S.ScreenState, op: Op): (r: S.ScreenState)
    requires S.Valid(s) && WellFormed(op)
    ensures S.Valid(r)
    ensures forall k :: S.IsMode(k) && op != SaveMode(k) && op != Reset(false) ==> r.savedModes[k] == s.savedModes[k]
    ensures op != SaveCursor && op != Reset(false) ==> r.saved == s.saved
    ensures !op.ResizeImage? ==> r.lines == s.lines && r.columns == s.columns
  {
    if IsCursorOp(op) then ApplyCursor(s, op)
    else if IsScrollOp(op) then ApplyScroll(s, op)
    else if IsEditOp(op) then ApplyEdit(s, op)
    else if IsClearOp(op) then ApplyClear(s, op)
    else if IsModeOp(op) then ApplyMode(s, op)
    else if IsRenditionOp(op) then ApplyRendition(s, op)
    else if IsWriteOp(op) then ApplyWrite(s, op)
    else ApplySelection(s, op)
  }

  function ApplyAll(s: S.ScreenState, ops: seq<Op>): (r: S.ScreenState)
    requires S.Valid(s) && forall i :: 0 <= i < |ops| ==> WellFormed(ops[i])
    ensures S.Valid(r)
    decreases |ops|
  {
    if |ops| == 0 then s else ApplyAll(Apply(s, ops[0]), ops[1..])
  }

  // ---------------------------------------------------------------------
  // Frames of single operations
  // ---------------------------------------------------------------------

  lemma {:induction false} ApplyAllKeepsSavedMode(s: S.ScreenState, ops: seq<Op>, m: int)
    requires S.Valid(s) && forall i :: 0 <= i < |ops| ==> WellFormed(ops[i])
    requires S.IsMode(m) && forall i :: 0 <= i < |ops| ==> ops[i] != SaveMode(m) && ops[i] != Reset(false)
    ensures ApplyAll(s, ops).savedModes[m] == s.savedModes[m]
    decreases |ops|
  {
    if |ops| > 0 {
      ApplyAllKeepsSavedMode(Apply(s, ops[0]), ops[1..], m);
    }
  }

  lemma {:induction false} ApplyAllKeepsSavedCursor(s: S.ScreenState, ops: seq<Op>)
    requires S.Valid(s) && forall i :: 0 <= i < |ops| ==> WellFormed(ops[i])
    requires forall i :: 0 <= i < |ops| ==> ops[i] != SaveCursor && ops[i] != Reset(false)
    ensures ApplyAll(s, ops).saved == s.saved
    decreases |ops|
  {
    if |ops| > 0 {
      ApplyAllKeepsSavedCursor(Apply(s, ops[0]), ops[1..]);
    }
  }

  lemma {:induction false} ApplyAllKeepsSize(s: S.ScreenState, ops: seq<Op>)
    requires S.Valid(s) && forall i :: 0 <= i < |ops| ==> WellFormed(ops[i])
    requires forall i :: 0 <= i < |ops| ==> !ops[i].ResizeImage?
    ensures ApplyAll(s, ops).lines == s.lines && ApplyAll(s, ops).columns == s.columns
    decreases |ops|
  {
    if |ops| > 0 {
      ApplyAllKeepsSize(Apply(s, ops[0]), ops[1..]);
    }
  }

  // ---------------------------------------------------------------------
  // Save and restore
  // ---------------------------------------------------------------------

  /**
   * `saveMode(m)`, then any operations other than another `saveMode(m)` or
   * a hard reset, then `restoreMode(m)`: mode `m` is back to its value at
   * the save.
   */
  lemma ModeSaveRestore(s: S.ScreenState, m: int, ops: seq<Op>)
    requires S.Valid(s) && S.IsMode(m)
    requires forall i :: 0 <= i < |ops| ==> WellFormed(ops[i]) && ops[i] != SaveMode(m) && ops[i] != Reset(false)
    ensures var saved := S.SaveMode(s, m);
            S.GetMode(S.RestoreMode(ApplyAll(saved, ops), m), m) == S.GetMode(s, m)
  {
    ApplyAllKeepsSavedMode(S.SaveMode(s, m), ops, m);
  }

  /**
   * `saveCursor`, then any operations other than another `saveCursor` or a
   * hard reset, then `restoreCursor`: origin mode, rendition and colours
   * are those at the save, and the position is the saved one brought inside
   * the screen's current size.
   */
  lemma CursorSaveRestore(s: S.ScreenState, ops: seq<Op>)
    requires S.Valid(s)
    requires forall i :: 0 <= i < |ops| ==> WellFormed(ops[i]) && ops[i] != SaveCursor && ops[i] != Reset(false)
    ensures RestoredFrom(s, ApplyAll(S.SaveCursor(s), ops))
  {
    var u := S.SaveCursor(s);
    ApplyAllKeepsSavedCursor(u, ops);
    RestoreFromSlot(s, ApplyAll(u, ops));
  }

  /**
   * `restoreCursor` on `t` gives the origin mode, rendition and colours of
   * `s`, and the cursor position of `s` brought inside the size of `t`.
   */
  predicate RestoredFrom(s: S.ScreenState, t: S.ScreenState)
    requires S.Valid(s) && S.Valid(t)
  {
    var r := S.RestoreCursor(t);
    && r.cuX == S.MinI(s.cuX, t.columns - 1) && r.cuY == S.MinI(s.cuY, t.lines - 1)
    && S.GetMode(r, S.MODE_Origin) == S.GetMode(s, S.MODE_Origin)
    && r.rendition == s.rendition && r.foreground == s.foreground && r.background == s.background
  }

  /** Restoring from a slot that still holds the snapshot of `s` gives back the cursor, origin mode, rendition and colours of `s`. */
  lemma RestoreFromSlot(s: S.ScreenState, t: S.ScreenState)
    requires S.Valid(s) && S.Valid(t) && t.saved == S.SaveCursor(s).saved
    ensures RestoredFrom(s, t)
  {
  }

  /** Without a resize in between, the cursor comes back exactly to where it was saved. */
  lemma CursorSaveRestoreExact(s: S.ScreenState, ops: seq<Op>)
    requires S.Valid(s) && s.cuX < s.columns
    requires forall i :: 0 <= i < |ops| ==> WellFormed(ops[i]) && ops[i] != SaveCursor && ops[i] != Reset(false) && !ops[i].ResizeImage?
    ensures var r := S.RestoreCursor(ApplyAll(S.SaveCursor(s), ops));
      r.cuX == s.cuX && r.cuY == s.cuY
  {
    var u := S.SaveCursor(s);
    var t := ApplyAll(u, ops);
    CursorSaveRestore(s, ops);
    ApplyAllKeepsSize(u, ops);
    assert RestoredFrom(s, t) && t.columns == s.columns && t.lines == s.lines;
  }

  // ---------------------------------------------------------------------
  // Cursor movement and scrolling
  // ---------------------------------------------------------------------

  /** Away from the margins, `cursorUp(n)` followed by `cursorDown(n)` returns the cursor to where it was. */
  lemma CursorUpThenDown(s: S.ScreenState, n: int)
    requires S.Valid(s) && s.cuX < s.columns
    requires s.topMargin <= s.cuY - S.Arg(n) && s.cuY <= s.bottomMargin
    ensures S.CursorDown(S.CursorUp(s, n), n) == s
  {
  }

  /** Away from the margins, `cursorRight(n)` followed by `cursorLeft(n)` returns the cursor to where it was. */
  lemma CursorRightThenLeft(s: S.ScreenState, n: int)
    requires S.Valid(s) && s.cuX + S.Arg(n) < s.columns
    ensures S.CursorLeft(S.CursorRight(s, n), n) == s
  {
  }

  /**
   * With full-screen margins and the cursor on the last line, `index` moves
   * line 0 into the history, shifts every other line up by one and leaves
   * the last line blank.
   */
  lemma IndexAtBottomOfFullScreen(s: S.ScreenState)
    requires S.Valid(s) && s.topMargin == 0 && s.bottomMargin == s.lines - 1 && s.cuY == s.lines - 1
    ensures var r := S.Index(s);
      && r.history == s.history + [s.screenLines[0]]
      && (forall j :: 0 <= j < s.lines - 1 ==> r.screenLines[j] == s.screenLines[j + 1])
      && r.screenLines[s.lines - 1] == S.BlankLine(s)
      && r.cuY == s.cuY && r.cuX == s.cuX
  {
  }

  /** Inserting `n` lines and then deleting `n` lines at the cursor restores the lines that stayed in the region. */
  lemma InsertLinesThenDelete(s: S.ScreenState, n: int)
    requires S.Valid(s) && s.cuY <= s.bottomMargin
    ensures var k := S.ScrollCount(s, s.cuY, S.Arg(n));
      var r := S.DeleteLines(S.InsertLines(s, n), n);
      && r.cuX == s.cuX && r.cuY == s.cuY
      && (forall j :: 0 <= j < s.lines && !(s.bottomMargin - k < j <= s.bottomMargin) ==> r.screenLines[j] == s.screenLines[j])
  {
    var k := S.ScrollCount(s, s.cuY, S.Arg(n));
    var t := S.InsertLines(s, n);
    assert S.ScrollCount(t, t.cuY, S.Arg(n)) == k;
    var r := S.DeleteLines(t, n);
    forall j | 0 <= j < s.lines && !(s.bottomMargin - k < j <= s.bottomMargin)
      ensures r.screenLines[j] == s.screenLines[j]
    {
      if s.cuY <= j <= s.bottomMargin - k {
        assert r.screenLines[j] == t.screenLines[j + k];
      }
    }
  }

  /** Inserting `n` blanks and then deleting `n` cells at the cursor restores the line's cells that stayed on screen. */
  lemma InsertCharsThenDelete(s: S.ScreenState, n: int, i: int)
    requires S.Valid(s) && 0 <= i < |s.screenLines[s.cuY]| && i + S.Arg(n) < s.columns
    ensures S.DeleteChars(S.InsertChars(s, n), n).screenLines[s.cuY][i] == s.screenLines[s.cuY][i]
  {
    InsertThenDelete(s.screenLines[s.cuY], s.cuX, S.Arg(n), s.columns, S.DefaultCell, i);
  }

  // ---------------------------------------------------------------------
  // Resize
  // ---------------------------------------------------------------------

  /** A second resize to the same size changes nothing. */
  lemma ResizeIdempotent(s: S.ScreenState, newLines: int, newColumns: int)
    requires S.Valid(s) && 1 <= newLines && 1 <= newColumns
    ensures var t := S.ResizeImage(s, newLines, newColumns);
      S.ResizeImage(t, newLines, newColumns) == t
  {
    var t := S.ResizeImage(s, newLines, newColumns);
    assert S.ResizeShift(t, newLines) == 0;
    assert t.screenLines[..0] == [];
    assert t.history + [] == t.history;
    assert t.screenLines[0..] == t.screenLines;
    assert S.FitLines(t.screenLines, newLines) == t.screenLines;
  }

  /** After a resize to `C` columns and back, lines that stayed on screen keep every cell, even those past `C`. */
  lemma ResizeKeepsLongLines(s: S.ScreenState, newColumns: int, j: int)
    requires S.Valid(s) && 1 <= newColumns && 0 <= j < s.lines && s.cuY < s.lines
    ensures var r := S.ResizeImage(S.ResizeImage(s, s.lines, newColumns), s.lines, s.columns);
      r.screenLines[j] == s.screenLines[j]
  {
  }

  // ---------------------------------------------------------------------
  // Selection
  // ---------------------------------------------------------------------

  /** Starting a selection at `(x, y)` makes `(x, y)` both its start and its end. */
  lemma SelectionStartRoundTrip(s: S.ScreenState, x: int, y: int, blockMode: bool)
    requires S.Valid(s) && 0 <= x < s.columns && 0 <= y
    ensures var t := S.SetSelectionStart(s, x, y, blockMode);
      S.GetSelectionStart(t) == (x, y) && S.GetSelectionEnd(t) == (x, y) && S.HasSelection(t)
  {
    S.LocDivMod(x, y, s.columns);
    assert 0 <= y * s.columns by { S.MulLe(0, y, s.columns); }
  }

  /**
   * A stream selection from `(x1, y1)` to a later `(x2, y2)`: its start
   * and end read back as given, and it holds exactly the cells from the one
   * to the other in reading order.
   */
  lemma StreamSelection(s: S.ScreenState, x1: int, y1: int, x2: int, y2: int)
    requires S.Valid(s) && 0 <= x1 < s.columns && 0 <= x2 < s.columns && 0 <= y1 && 0 <= y2
    requires y1 < y2 || (y1 == y2 && x1 <= x2)
    ensures var t := S.SetSelectionEnd(S.SetSelectionStart(s, x1, y1, false), x2, y2);
      && S.GetSelectionStart(t) == (x1, y1) && S.GetSelectionEnd(t) == (x2, y2)
      && forall x, y :: 0 <= x < s.columns ==>
           (S.IsSelected(t, x, y) <==> (y1 < y || (y1 == y && x1 <= x)) && (y < y2 || (y == y2 && x <= x2)))
  {
    var c := s.columns;
    S.LocOrder(x1, y1, x2, y2, c);
    S.LocDivMod(x1, y1, c);
    S.LocDivMod(x2, y2, c);
    forall x, y | 0 <= x < c
      ensures S.IsSelected(S.SetSelectionEnd(S.SetSelectionStart(s, x1, y1, false), x2, y2), x, y)
          <==> (y1 < y || (y1 == y && x1 <= x)) && (y < y2 || (y == y2 && x <= x2))
    {
      S.LocOrder(x1, y1, x, y, c);
      S.LocOrder(x, y, x2, y2, c);
    }
  }

  /**
   * A block selection between two corners, given in either order, holds
   * exactly the cells whose line lies between the corners' lines and whose
   * column lies between their columns.
   */
  lemma BlockSelection(s: S.ScreenState, x1: int, y1: int, x2: int, y2: int)
    requires S.Valid(s) && 0 <= x1 < s.columns && 0 <= x2 < s.columns && 0 <= y1 && 0 <= y2
    ensures var t := S.SetSelectionEnd(S.SetSelectionStart(s, x1, y1, true), x2, y2);
      forall x, y :: 0 <= x < s.columns ==>
        (S.IsSelected(t, x, y) <==> S.MinI(y1, y2) <= y <= S.MaxI(y1, y2) && S.MinI(x1, x2) <= x <= S.MaxI(x1, x2))
  {
    var c := s.columns;
    var u := S.SetSelectionStart(s, x1, y1, true);
    var t := S.SetSelectionEnd(u, x2, y2);
    var l1 := y1 * c + x1;
    var l2 := y2 * c + x2;
    S.LocOrder(x1, y1, x2, y2, c);
    S.LocDivMod(x1, y1, c);
    S.LocDivMod(x2, y2, c);
    var xl, xh := S.MinI(x1, x2), S.MaxI(x1, x2);
    var yl, yh := S.MinI(y1, y2), S.MaxI(y1, y2);
    assert t.selTopLeft == yl * c + xl && t.selBottomRight == yh * c + xh by {
      if l1 <= l2 {
        assert S.MinI(l1, l2) == l1 && S.MaxI(l1, l2) == l2;
      } else {
        assert S.MinI(l1, l2) == l2 && S.MaxI(l1, l2) == l1;
      }
    }
    S.LocDivMod(xl, yl, c);
    S.LocDivMod(xh, yh, c);
    forall x, y | 0 <= x < c
      ensures S.IsSelected(t, x, y) <==> yl <= y <= yh && xl <= x <= xh
    {
      S.LocOrder(xl, yl, x, y, c);
      S.LocOrder(x, y, xh, yh, c);
    }
  }

  /** `checkSelection` over a range that lies inside the selection clears it. */
  lemma CheckSelectionInside(s: S.ScreenState, from: int, to: int)
    requires S.Valid(s) && s.selBegin != -1 && from <= to
    requires s.selTopLeft <= from + |s.history| * s.columns && to + |s.history| * s.columns <= s.selBottomRight
    ensures !S.HasSelection(S.CheckSelection(s, from, to))
  {
  }

  /** `checkSelection` over a range that misses the selection leaves it unchanged. */
  lemma CheckSelectionOutside(s: S.ScreenState, from: int, to: int)
    requires S.Valid(s)
    requires to + |s.history| * s.columns < s.selTopLeft || s.selBottomRight < from + |s.history| * s.columns
    ensures S.CheckSelection(s, from, to) == s
  {
  }

  // ---------------------------------------------------------------------
  // Tab stops
  // ---------------------------------------------------------------------

  /** After clearing all tab stops and setting one at column 10, a tab from column 0 lands on column 10. */
  lemma TabToSingleStop(s: S.ScreenState)
    requires S.Valid(s) && 10 < s.columns
    ensures var t := S.SetCursorX(S.ChangeTabStop(S.SetCursorX(S.ClearTabStops(s), 10), true), 0);
      S.Tab(t, 1).cuX == 10
  {
    var t := S.SetCursorX(S.ChangeTabStop(S.SetCursorX(S.ClearTabStops(s), 10), true), 0);
    var r := S.NextTabStop(t.tabStops, 1);
    assert t.tabStops[10];
    if r < 10 {
      assert false;
    }
    assert S.Tab(t, 1) == S.TabOnce(t);
  }

  /** From a tab stop (or column 0), one tab and one backtab come back to the same column. */
  lemma TabThenBacktab(s: S.ScreenState)
    requires S.Valid(s) && s.cuX < s.columns - 1 && (s.cuX == 0 || s.tabStops[s.cuX])
    ensures S.Backtab(S.Tab(s, 1), 1).cuX == s.cuX
  {
    var t := S.Tab(s, 1);
    assert t == S.TabOnce(s);
    var p := S.PreviousTabStop(s.tabStops, t.cuX - 1);
    assert S.Backtab(t, 1) == S.BacktabOnce(t);
    assert S.BacktabOnce(t).cuX == p;
    if p < s.cuX {
      assert false;
    } else if p > s.cuX {
      assert false;
    }
  }

  // ---------------------------------------------------------------------
  // Writing characters
  // ---------------------------------------------------------------------

  /**
   * Outside insert mode and with room on the line, writing `c` `k` times
   * fills the `k` cells from the cursor with `c` in the current colours and
   * rendition, moves the cursor past them and leaves the cells before the
   * cursor and the other lines alone.
   */
  lemma {:induction false} DisplayRepeatedFills(s: S.ScreenState, c: nat, k: nat)
    requires S.Valid(s) && !S.GetMode(s, S.MODE_Insert) && s.cuX + k <= s.columns
    ensures Filled(s, S.DisplayRepeated(s, c, k), S.CurrentCell(s, c), k)
    decreases k
  {
    if k > 0 {
      var t := S.DisplayRepeated(s, c, k - 1);
      DisplayRepeatedFills(s, c, k - 1);
      DisplayCharacterFills(t, c);
      assert S.CurrentCell(t, c) == S.CurrentCell(s, c);
      FilledTrans(s, t, S.DisplayCharacter(t, c), S.CurrentCell(s, c), k - 1, 1);
      assert S.DisplayRepeated(s, c, k) == S.DisplayCharacter(t, c);
    }
  }

  /** Outside insert mode and without a pending wrap, one character fills the cell under the cursor. */
  lemma DisplayCharacterFills(s: S.ScreenState, c: nat)
    requires S.Valid(s) && !S.GetMode(s, S.MODE_Insert) && s.cuX < s.columns
    ensures Filled(s, S.DisplayCharacter(s, c), S.CurrentCell(s, c), 1)
  {
    assert S.WrapForWrite(s) == s;
  }

  /**
   * `r` is `s` with the `k` cells from the cursor set to `cell` on the cursor
   * line, the cursor moved past them, the cells before the cursor and the
   * other lines unchanged.
   */
  predicate Filled(s: S.ScreenState, r: S.ScreenState, cell: Cell, k: nat)
    requires S.Valid(s) && S.Valid(r) && r.lines == s.lines
  {
    && r.cuY == s.cuY && r.cuX == s.cuX + k
    && |r.screenLines[s.cuY]| >= |s.screenLines[s.cuY]|
    && (k > 0 ==> s.cuX + k <= |r.screenLines[s.cuY]|)
    && (forall i :: s.cuX <= i < s.cuX + k ==> r.screenLines[s.cuY][i] == cell)
    && (forall i :: 0 <= i < s.cuX && i < |s.screenLines[s.cuY]| ==> r.screenLines[s.cuY][i] == s.screenLines[s.cuY][i])
    && (forall j :: 0 <= j < s.lines && j != s.cuY ==> r.screenLines[j] == s.screenLines[j])
  }

  /** Filling `k1` cells and then the `k2` cells after them fills `k1 + k2` cells. */
  lemma FilledTrans(s: S.ScreenState, t: S.ScreenState, r: S.ScreenState, cell: Cell, k1: nat, k2: nat)
    requires S.Valid(s) && S.Valid(t) && S.Valid(r) && t.lines == s.lines && r.lines == s.lines
    requires Filled(s, t, cell, k1) && Filled(t, r, cell, k2)
    ensures Filled(s, r, cell, k1 + k2)
  {
  }

  /** `repeatChars(n)` outside insert mode and with room on the line writes the last character `n` times from the cursor. */
  lemma RepeatCharsFills(s: S.ScreenState, n: int)
    requires S.Valid(s) && !S.GetMode(s, S.MODE_Insert) && s.cuX + S.Arg(n) <= s.columns
    ensures Filled(s, S.RepeatChars(s, n), S.CurrentCell(s, s.lastDrawnChar), S.Arg(n))
  {
    DisplayRepeatedFills(s, s.lastDrawnChar, S.Arg(n));
  }
}
