# A verified model of Konsole's screen, shell command, scroll bar and history saving

This project is a Dafny model of four parts of the Konsole terminal emulator. Each part has proofs of what the code promises.

- **The screen** (`Screen`). It is the character image of one terminal screen and its scroll-back history. It also holds:
  - the cursor;
  - the scrolling margins;
  - the eight mode flags, each with a saved copy;
  - the single saved-cursor slot (position, origin mode, rendition and colours);
  - the tab stops and the selection.

  Every operation the screen offers is modelled on two levels:
  - a transition function on a `ScreenState` value, in `screen_spec.dfy`;
  - a method of the class `ScreenGrid.Screen`, in `screen.dfy`. It changes its fields in place, and its contract says that afterwards `View()` equals the transition function applied to the old state.

  The method groups are:
  - cursor movement, margins and scrolling;
  - editing: erase, insert and delete characters or lines, repeat the last character;
  - tab stops, modes and the saved cursor;
  - clearing, rendition and colours;
  - reset, character display, resize and selection;
  - the set of extended characters in use.

  Each cell is a character with colours and a set of rendition flags. `screen_lines.dfy` holds the edits on single lines and on regions of lines. `screen_properties.dfy` proves properties that relate several operations, including properties over any sequence of operations.
- **Shell commands** (`ShellCommand`). A command is a list of arguments. The model covers:
  - how the list is shown as one string, with arguments that contain spaces quoted;
  - the expansion of `$NAME` environment variables inside a string.

  The in-place expansion loop is a method. It is proved equal to a recursive definition of the expansion, and the properties of the expansion are proved about that definition.
- **The scroll bar** (`TerminalScrollBar`). The model covers:
  - the user's markers, kept sorted by position;
  - their geometry along the bar;
  - adding and removing a marker on a double click;
  - the slider update when the terminal scrolls;
  - the in-place shift of the display's character image during a scroll.
- **Saving the history** (`SaveHistoryTask`). The model covers:
  - the table of running transfer jobs;
  - the choice between the HTML and the plain-text decoder;
  - the transfer of a session's lines in chunks of 500, one chunk per data request.

Coordinates are 0-based. A count argument below 1 means 1, and a count is capped at `MAX_SCREEN_ARGUMENT`.

`src/Screen.cpp` is not part of this model. The screen's behaviour follows the documentation comments, the fields and the inline members of `src/Screen.h`. Where those leave a detail open, the model takes the conventional VT100 reading, and "## Left out" names each such choice.

## Model

| member | source | states |
|---|---|---|
| ScreenSpec.Arg | src/Screen.h:905-906 | a count below 1 acts as 1, and a count is never larger than MAX_SCREEN_ARGUMENT |
| ScreenSpec.CursorUp | src/Screen.h:117-121 | the cursor moves up by n lines, but never above the top margin when it started inside the region (never above line 0 otherwise); only the cursor changes |
| ScreenSpec.CursorDown | src/Screen.h:122-126 | the cursor moves down by n lines, but never below the bottom margin when it started inside the region (never below the last line otherwise); only the cursor changes |
| ScreenSpec.CursorLeft | src/Screen.h:127-131 | the cursor moves n columns left and stops at the first column; nothing else changes |
| ScreenSpec.CursorRight | src/Screen.h:142-146 | the cursor moves n columns right and stops at the right-most column; nothing else changes |
| ScreenSpec.CursorNextLine | src/Screen.h:132-136 | the cursor goes to column 0 of the line that cursorDown(n) would reach |
| ScreenSpec.CursorPreviousLine | src/Screen.h:137-141 | the cursor goes to column 0 of the line that cursorUp(n) would reach |
| ScreenSpec.SetCursorX | src/Screen.h:149-150 | the cursor goes to column x, clamped to the screen; only the column changes |
| ScreenSpec.SetCursorY | src/Screen.h:147-148 | the cursor goes to line y, counted from the top margin in origin mode, and stays on the screen; only the line changes |
| ScreenSpec.SetCursorYX | src/Screen.h:151-152 | outside origin mode, an in-range (y, x) puts the cursor exactly there; the result always stays on the screen |
| ScreenSpec.SetMargins | src/Screen.h:163-169 | valid margins top < bot are set and the cursor goes home (to the top margin in origin mode); invalid margins change nothing |
| ScreenSpec.SetDefaultMargins | src/Screen.h:175-179 | the margins become the first and the last line of the screen; nothing else changes |
| ScreenSpec.ScrollUpFrom | src/Screen.h:751-752 | lines from `from` to the bottom margin move up by n (at most the region's height), and blank lines fill the bottom of the region |
| ScreenSpec.ScrollDownFrom | src/Screen.h:753-754 | lines from `from` to the bottom margin move down by n, and blank lines fill the top of the region |
| ScreenSpec.ScrollUp | src/Screen.h:209-214 | the scrolling region moves up by n lines; the lines scrolled off the top of the screen are appended to the history, but only when the region starts at line 0 |
| ScreenSpec.ScrollDown | src/Screen.h:215-220 | the scrolling region moves down by n lines, with blank lines at its top; the history is unchanged |
| ScreenSpec.Index | src/Screen.h:196-201 | on the bottom margin the region scrolls up one line (the top line goes to the history when the region starts at line 0); elsewhere the cursor moves down one line |
| ScreenSpec.ReverseIndex | src/Screen.h:202-207 | on the top margin the region scrolls down one line; elsewhere the cursor moves up one line |
| ScreenSpec.ToStartOfLine | src/Screen.h:221-225 | the result is setCursorX(0) |
| ScreenSpec.NextLine | src/Screen.h:190-194 | the result is index() followed by a return to column 0 |
| ScreenSpec.NewLine | src/Screen.h:181-189 | the lines, history and cursor line are those of index(); the column goes to 0 exactly when MODE_NewLine is set |
| ScreenSpec.Backspace | src/Screen.h:226-230 | the cursor moves one column left and the cell at the new position is erased; every other cell is unchanged |
| ScreenSpec.DefaultTabStops | src/Screen.h:763 | the initial tab stops are every 8th column, not counting column 0 |
| ScreenSpec.NextTabStop | src/Screen.h:231-232 | the first tab stop at or after x, or the last column when there is none; no stop is skipped |
| ScreenSpec.PreviousTabStop | src/Screen.h:233-234 | the last tab stop at or before x, or column 0 when there is none; no stop is skipped |
| ScreenSpec.Tab | src/Screen.h:231-232 | n tabs move the cursor right, never past the last column; only the column changes |
| ScreenSpec.Backtab | src/Screen.h:233-234 | n backtabs move the cursor left; only the column changes |
| ScreenSpec.TabOnce | src/Screen.h:231-232 | one tab moves the cursor right or leaves it, never past the last column; only the column changes |
| ScreenSpec.BacktabOnce | src/Screen.h:233-234 | one backtab moves the cursor left or leaves it; only the column changes |
| ScreenSpec.TabsStayAtLastColumn | src/Screen.h:231-232 | once tabbing reaches the last column, further tabs change nothing |
| ScreenSpec.BacktabsStayAtFirstColumn | src/Screen.h:233-234 | once backtabbing reaches column 0, further backtabs change nothing |
| ScreenSpec.ClearTabStops | src/Screen.h:273-274 | no column has a tab stop afterwards; nothing else changes |
| ScreenSpec.ChangeTabStop | src/Screen.h:275-276 | the tab stop at the cursor's column is set or removed; the other columns keep theirs |
| ScreenSpec.EraseChars | src/Screen.h:238-244 | n cells from the cursor (up to the right edge) become blanks in the current colours; every other cell and line is unchanged |
| ScreenSpec.DeleteChars | src/Screen.h:245-249 | n cells at the cursor are removed, the rest of the line moves left and blanks fill its end; the line keeps its length and the other lines are unchanged |
| ScreenSpec.InsertChars | src/Screen.h:250-255 | n blanks are inserted at the cursor; the cells after them move right, what passes the screen width is dropped, so the line is never wider than the screen afterwards (also a line left wider by a resize); the cursor and other lines are unchanged |
| ScreenSpec.DeleteLines | src/Screen.h:261-266 | the lines from the cursor line to the bottom margin move up by n, blank lines fill the bottom of the region, and the cursor is unchanged |
| ScreenSpec.InsertLines | src/Screen.h:267-272 | the lines from the cursor line to the bottom margin move down by n, blank lines fill in at the cursor, and the cursor is unchanged |
| ScreenSpec.ClearLines | src/Screen.h:736-740 | the lines in the given range become blank lines of the screen width; the other lines stay |
| ScreenSpec.ClearToEndOfLine | src/Screen.h:314-315 | the cells from the cursor to the right edge become blanks; the other cells and lines are unchanged |
| ScreenSpec.ClearToBeginOfLine | src/Screen.h:316-317 | the cells from column 0 up to and including the cursor become blanks; the other cells and lines are unchanged |
| ScreenSpec.ClearEntireLine | src/Screen.h:312-313 | the cursor's line becomes a blank line; the other lines are unchanged |
| ScreenSpec.ClearToEndOfScreen | src/Screen.h:302-306 | the lines below the cursor become blank, the cursor's line is cleared from the cursor on, and the lines above are unchanged |
| ScreenSpec.ClearToBeginOfScreen | src/Screen.h:307-311 | the lines above the cursor become blank, the cursor's line is cleared up to the cursor, and the lines below are unchanged |
| ScreenSpec.ClearEntireScreen | src/Screen.h:300-301 | the screen's lines are first appended to the history, then every line becomes blank |
| ScreenSpec.HelpAlign | src/Screen.h:319-320 | every cell of every line within the screen width holds the letter 'E' |
| ScreenSpec.SetMode | src/Screen.h:280-281 | mode m is on afterwards and every other mode keeps its value |
| ScreenSpec.ResetMode | src/Screen.h:278-279 | mode m is off afterwards and every other mode keeps its value |
| ScreenSpec.SaveMode | src/Screen.h:282-286 | the saved copy of mode m takes its current value; the other saved copies are unchanged |
| ScreenSpec.RestoreMode | src/Screen.h:287-288 | mode m takes its saved value; every other mode keeps its value |
| ScreenSpec.SaveCursor | src/Screen.h:292-296 | the slot records the cursor position, the origin mode, the rendition and both colours; nothing else changes |
| ScreenSpec.RestoreCursor | src/Screen.h:297-298 | the cursor goes back to the saved position, clamped to the current size; origin mode, the rendition and the colours take their saved values; every other mode is kept |
| ScreenSpec.SetRendition | src/Screen.h:322-328 | the given flags are added to the current rendition and no other flag changes |
| ScreenSpec.ResetRendition | src/Screen.h:330-336 | the given flags are removed from the current rendition and no other flag changes |
| ScreenSpec.SetForeColor | src/Screen.h:338-346 | the foreground colour becomes (space, color); nothing else changes |
| ScreenSpec.SetBackColor | src/Screen.h:347-355 | the background colour becomes (space, color); nothing else changes |
| ScreenSpec.SetDefaultRendition | src/Screen.h:356-360 | the rendition is empty and the colours are the default foreground and background |
| ScreenSpec.ClearSelection | src/Screen.h:504-505 | nothing is selected afterwards; only the selection changes |
| ScreenSpec.Loc | src/Screen.h:538-545 | the loc(x, y) address of a cell; for a column within the width it splits back into that column and line |
| ScreenSpec.LocDivMod | src/Screen.h:538-545 | an address y * columns + x with x inside the width divides back into line y and column x |
| ScreenSpec.LocOrder | src/Screen.h:538-545 | addresses order cells by line, then by column |
| ScreenSpec.HasSelection | src/Screen.h:507-508 | a selection exists when both its corner addresses are set (not negative) |
| ScreenSpec.IsSelected | src/Screen.h:510-514 | the reference definition of isSelected: the address lies between the corners, and in block mode the column between theirs; its meaning is stated by StreamSelection and BlockSelection |
| ScreenSpec.GetMode | src/Screen.h:289-290 | the reference definition of getMode: the current value of mode m |
| ScreenSpec.SetSelectionStart | src/Screen.h:469-476 | the selection starts and ends at the address of (x, y), in the requested block or stream mode |
| ScreenSpec.SetSelectionEnd | src/Screen.h:478-485 | without a start nothing happens; otherwise the start and (x, y) are ordered so that the top-left address is not after the bottom-right one |
| ScreenSpec.GetSelectionStart | src/Screen.h:492-496 | gives the (column, line) of the selection's top-left address, or the cursor (its line counted across history and screen) when there is no selection |
| ScreenSpec.GetSelectionEnd | src/Screen.h:498-502 | gives the (column, line) of the selection's bottom-right address, or the cursor when there is no selection |
| ScreenSpec.CheckSelection | src/Screen.h:539-549 | the selection is either kept or cleared, and nothing else changes |
| ScreenSpec.WrapForWrite | src/Screen.h:396-402 | before a character is written the cursor is brought inside the screen: a pending wrap goes to the next line in wrap mode |
| ScreenSpec.InsertForWrite | src/Screen.h:403-405 | in insert mode a blank is first inserted at the cursor (insertChars(1)); otherwise nothing changes |
| ScreenSpec.PutChar | src/Screen.h:396-407 | the cell at the cursor takes the character in the current rendition and colours, the cursor moves one column right, and no other cell changes |
| ScreenSpec.DisplayCharacter | src/Screen.h:396-407 | the character lands at the wrapped cursor position and the cursor moves past it; outside insert mode no other cell of that line changes; modes, margins, tab stops and rendition are kept |
| ScreenSpec.DisplayRepeated | src/Screen.h:256-260 | displaying a character k times keeps the size, modes, saved state and rendition, and records the character as the last drawn one |
| ScreenSpec.RepeatChars | src/Screen.h:256-260 | repeating the last drawn character keeps the size, modes, saved state and rendition |
| ScreenSpec.ResetModes | src/Screen.h:374-386 | wrap and cursor modes are on; origin, insert, screen and new-line modes are off; the two remaining modes are kept |
| ScreenSpec.SoftReset | src/Screen.h:374-390 | the modes are reset as listed, the rendition and colours are the defaults, the margins span the screen, the tab stops are the defaults and the selection is cleared; the image, history, cursor and saved state are kept |
| ScreenSpec.Reset | src/Screen.h:374-394 | a soft reset (DECSTR) is SoftReset and keeps the lines, the cursor, the saved cursor and the saved modes; a hard reset (RIS) also moves the screen's lines into the history and blanks them, homes the cursor, and returns the saved cursor and the saved modes to those of a new screen |
| ScreenSpec.ForgetSavedState | src/Screen.h:388-389 | the part of a hard reset that returns the cursor and the saved state to their initial values keeps the screen valid |
| ScreenSpec.ResizeShift | src/Screen.h:409-419 | the number of top lines pushed into the history by a resize is just enough to keep the cursor on the new screen, and 0 when it already fits |
| ScreenSpec.ResizeImage | src/Screen.h:409-419 | the new size is set; lines are not truncated; the lines above the shift go to the history and the cursor keeps its line; the margins span the new screen; the tab stops are reset and the selection is cleared |
| ScreenSpec.ResizeLines | src/Screen.h:409-419 | the height part: just the top lines above the shift go to the history, the other lines keep their order, the cursor keeps its line and column, and the margins span the new height |
| ScreenSpec.ResizeColumns | src/Screen.h:409-419 | the width part: lines and history are kept untruncated, the cursor column is brought inside, tab stops are reset and the selection is cleared |
| ScreenGrid.Screen.constructor | src/Screen.h:105-106 | a screen of the given size: empty lines and history, cursor at home, margins spanning the screen, default tab stops, no selection, and only wrap and cursor modes on |
| ScreenGrid.Screen.CursorUp | src/Screen.h:117-121 | the new state is ScreenSpec.CursorUp of the old state |
| ScreenGrid.Screen.CursorDown | src/Screen.h:122-126 | the new state is ScreenSpec.CursorDown of the old state |
| ScreenGrid.Screen.CursorLeft | src/Screen.h:127-131 | the new state is ScreenSpec.CursorLeft of the old state |
| ScreenGrid.Screen.CursorRight | src/Screen.h:142-146 | the new state is ScreenSpec.CursorRight of the old state |
| ScreenGrid.Screen.CursorNextLine | src/Screen.h:132-136 | the new state is ScreenSpec.CursorNextLine of the old state |
| ScreenGrid.Screen.CursorPreviousLine | src/Screen.h:137-141 | the new state is ScreenSpec.CursorPreviousLine of the old state |
| ScreenGrid.Screen.SetCursorX | src/Screen.h:149-150 | the new state is ScreenSpec.SetCursorX of the old state |
| ScreenGrid.Screen.SetCursorY | src/Screen.h:147-148 | the new state is ScreenSpec.SetCursorY of the old state |
| ScreenGrid.Screen.SetCursorYX | src/Screen.h:151-152 | the new state is ScreenSpec.SetCursorYX of the old state |
| ScreenGrid.Screen.SetMargins | src/Screen.h:163-169 | the new state is ScreenSpec.SetMargins of the old state |
| ScreenGrid.Screen.SetDefaultMargins | src/Screen.h:175-179 | the new state is ScreenSpec.SetDefaultMargins of the old state |
| ScreenGrid.Screen.ScrollUp | src/Screen.h:209-214 | the new state is ScreenSpec.ScrollUp of the old state |
| ScreenGrid.Screen.ScrollDown | src/Screen.h:215-220 | the new state is ScreenSpec.ScrollDown of the old state |
| ScreenGrid.Screen.Index | src/Screen.h:196-201 | the new state is ScreenSpec.Index of the old state |
| ScreenGrid.Screen.ReverseIndex | src/Screen.h:202-207 | the new state is ScreenSpec.ReverseIndex of the old state |
| ScreenGrid.Screen.ToStartOfLine | src/Screen.h:221-225 | the new state is ScreenSpec.ToStartOfLine of the old state |
| ScreenGrid.Screen.NextLine | src/Screen.h:190-194 | the new state is ScreenSpec.NextLine of the old state |
| ScreenGrid.Screen.NewLine | src/Screen.h:181-189 | the new state is ScreenSpec.NewLine of the old state |
| ScreenGrid.Screen.Backspace | src/Screen.h:226-230 | the new state is ScreenSpec.Backspace of the old state |
| ScreenGrid.Screen.TabOnce | src/Screen.h:231-232 | one tab: the new state is ScreenSpec.TabOnce of the old state (cursor on the next tab stop or the last column) |
| ScreenGrid.Screen.Tab | src/Screen.h:231-232 | the loop of n single tabs leaves the state ScreenSpec.Tab computes |
| ScreenGrid.Screen.BacktabOnce | src/Screen.h:233-234 | one backtab: the new state is ScreenSpec.BacktabOnce of the old state |
| ScreenGrid.Screen.Backtab | src/Screen.h:233-234 | the loop of n single backtabs leaves the state ScreenSpec.Backtab computes |
| ScreenGrid.Screen.EraseChars | src/Screen.h:238-244 | the new state is ScreenSpec.EraseChars of the old state |
| ScreenGrid.Screen.DeleteChars | src/Screen.h:245-249 | the new state is ScreenSpec.DeleteChars of the old state |
| ScreenGrid.Screen.InsertChars | src/Screen.h:250-255 | the new state is ScreenSpec.InsertChars of the old state |
| ScreenGrid.Screen.RepeatChars | src/Screen.h:256-260 | the loop that displays the last drawn character n times leaves the state ScreenSpec.RepeatChars computes |
| ScreenGrid.Screen.DeleteLines | src/Screen.h:261-266 | the new state is ScreenSpec.DeleteLines of the old state |
| ScreenGrid.Screen.InsertLines | src/Screen.h:267-272 | the new state is ScreenSpec.InsertLines of the old state |
| ScreenGrid.Screen.ClearTabStops | src/Screen.h:273-274 | the new state is ScreenSpec.ClearTabStops of the old state |
| ScreenGrid.Screen.ChangeTabStop | src/Screen.h:275-276 | the new state is ScreenSpec.ChangeTabStop of the old state |
| ScreenGrid.Screen.ResetMode | src/Screen.h:278-279 | the new state is ScreenSpec.ResetMode of the old state |
| ScreenGrid.Screen.SetMode | src/Screen.h:280-281 | the new state is ScreenSpec.SetMode of the old state |
| ScreenGrid.Screen.SaveMode | src/Screen.h:282-286 | the new state is ScreenSpec.SaveMode of the old state |
| ScreenGrid.Screen.RestoreMode | src/Screen.h:287-288 | the new state is ScreenSpec.RestoreMode of the old state |
| ScreenGrid.Screen.GetMode | src/Screen.h:289-290 | returns whether mode m is on, and changes nothing |
| ScreenGrid.Screen.SaveCursor | src/Screen.h:292-296 | the new state is ScreenSpec.SaveCursor of the old state |
| ScreenGrid.Screen.RestoreCursor | src/Screen.h:297-298 | the new state is ScreenSpec.RestoreCursor of the old state |
| ScreenGrid.Screen.ClearEntireScreen | src/Screen.h:300-301 | the new state is ScreenSpec.ClearEntireScreen of the old state |
| ScreenGrid.Screen.ClearToEndOfScreen | src/Screen.h:302-306 | the new state is ScreenSpec.ClearToEndOfScreen of the old state |
| ScreenGrid.Screen.ClearToBeginOfScreen | src/Screen.h:307-311 | the new state is ScreenSpec.ClearToBeginOfScreen of the old state |
| ScreenGrid.Screen.ClearEntireLine | src/Screen.h:312-313 | the new state is ScreenSpec.ClearEntireLine of the old state |
| ScreenGrid.Screen.ClearToEndOfLine | src/Screen.h:314-315 | the new state is ScreenSpec.ClearToEndOfLine of the old state |
| ScreenGrid.Screen.ClearToBeginOfLine | src/Screen.h:316-317 | the new state is ScreenSpec.ClearToBeginOfLine of the old state |
| ScreenGrid.Screen.ClearLines | src/Screen.h:736-740 | the new state is ScreenSpec.ClearLines of the old state |
| ScreenGrid.Screen.HelpAlign | src/Screen.h:319-320 | the new state is ScreenSpec.HelpAlign of the old state |
| ScreenGrid.Screen.SetRendition | src/Screen.h:322-328 | the new state is ScreenSpec.SetRendition of the old state |
| ScreenGrid.Screen.ResetRendition | src/Screen.h:330-336 | the new state is ScreenSpec.ResetRendition of the old state |
| ScreenGrid.Screen.SetForeColor | src/Screen.h:338-346 | the new state is ScreenSpec.SetForeColor of the old state |
| ScreenGrid.Screen.SetBackColor | src/Screen.h:347-355 | the new state is ScreenSpec.SetBackColor of the old state |
| ScreenGrid.Screen.SetDefaultRendition | src/Screen.h:356-360 | the new state is ScreenSpec.SetDefaultRendition of the old state |
| ScreenGrid.Screen.Reset | src/Screen.h:374-394 | the new state is ScreenSpec.Reset of the old state |
| ScreenGrid.Screen.ForgetSavedState | src/Screen.h:388-389 | the hard-reset step: the new state is ScreenSpec.ForgetSavedState of the old state (cursor home, initial saved cursor and saved modes) |
| ScreenGrid.Screen.SoftReset | src/Screen.h:374-390 | the new state is ScreenSpec.SoftReset of the old state |
| ScreenGrid.Screen.DisplayCharacter | src/Screen.h:396-407 | the new state is ScreenSpec.DisplayCharacter of the old state |
| ScreenGrid.Screen.WrapForWrite | src/Screen.h:396-402 | the new state is ScreenSpec.WrapForWrite of the old state |
| ScreenGrid.Screen.PutChar | src/Screen.h:396-407 | the new state is ScreenSpec.PutChar of the old state |
| ScreenGrid.Screen.ResizeImage | src/Screen.h:409-419 | the new state is ScreenSpec.ResizeImage of the old state |
| ScreenGrid.Screen.ResizeLines | src/Screen.h:409-416 | the height change: the new state is ScreenSpec.ResizeLines of the old state |
| ScreenGrid.Screen.ResizeColumns | src/Screen.h:409-419 | the width change: the new state is ScreenSpec.ResizeColumns of the old state |
| ScreenGrid.Screen.SetSelectionStart | src/Screen.h:469-476 | the new state is ScreenSpec.SetSelectionStart of the old state |
| ScreenGrid.Screen.SetSelectionEnd | src/Screen.h:478-485 | the new state is ScreenSpec.SetSelectionEnd of the old state |
| ScreenGrid.Screen.ClearSelection | src/Screen.h:504-505 | the new state is ScreenSpec.ClearSelection of the old state |
| ScreenGrid.Screen.HasSelection | src/Screen.h:507-508 | returns whether a selection exists, and changes nothing |
| ScreenGrid.Screen.CheckSelection | src/Screen.h:539-549 | the new state is ScreenSpec.CheckSelection of the old state |
| ScreenGrid.Screen.UsedExtendedChars | src/Screen.h:662-674 | the nested loop returns exactly the characters of the cells flagged extended on the screen's lines |
| ScreenProperties.Apply | src/Screen.h:282-298 | no operation except saveMode(m) and a hard reset changes the saved copy of mode m, no operation except saveCursor and a hard reset changes the saved-cursor slot, and only a resize changes the size |
| ScreenProperties.ApplyAllKeepsSavedMode | src/Screen.h:282-288 | any sequence of operations without saveMode(m) or a hard reset keeps the saved copy of mode m |
| ScreenProperties.ApplyAllKeepsSavedCursor | src/Screen.h:292-298 | any sequence of operations without saveCursor or a hard reset keeps the saved-cursor slot |
| ScreenProperties.ApplyAllKeepsSize | src/Screen.h:409-419 | any sequence of operations without a resize keeps the number of lines and columns |
| ScreenProperties.ModeSaveRestore | src/Screen.h:282-288 | saveMode(m), any operations except another saveMode(m) or a hard reset, then restoreMode(m): mode m is back to its value at the save |
| ScreenProperties.CursorSaveRestore | src/Screen.h:292-298 | saveCursor, any operations except saveCursor or a hard reset, then restoreCursor: the origin mode, rendition and colours at the save come back, and the position comes back clamped to the current size |
| ScreenProperties.CursorSaveRestoreExact | src/Screen.h:292-298 | without a resize in between, the cursor comes back exactly to the saved position |
| ScreenProperties.CursorUpThenDown | src/Screen.h:117-126 | away from the margins, cursorUp(n) then cursorDown(n) restores the state |
| ScreenProperties.CursorRightThenLeft | src/Screen.h:127-146 | away from the right edge, cursorRight(n) then cursorLeft(n) restores the state |
| ScreenProperties.IndexAtBottomOfFullScreen | src/Screen.h:196-201 | at the bottom of a full-screen region, index() moves the top line into the history, moves the other lines up, blanks the last line and keeps the cursor |
| ScreenProperties.InsertLinesThenDelete | src/Screen.h:261-272 | insertLines(n) then deleteLines(n) restores every line except those pushed out of the region |
| ScreenProperties.InsertCharsThenDelete | src/Screen.h:245-255 | insertChars(n) then deleteChars(n) restores every cell that stayed within the screen width |
| ScreenProperties.ResizeIdempotent | src/Screen.h:409-419 | a second resize to the same size changes nothing |
| ScreenProperties.ResizeKeepsLongLines | src/Screen.h:409-413 | a narrower resize and back loses no cell of the lines that stayed on the screen |
| ScreenProperties.SelectionStartRoundTrip | src/Screen.h:469-502 | after setSelectionStart(x, y), getSelectionStart and getSelectionEnd both give (x, y) and a selection exists |
| ScreenProperties.StreamSelection | src/Screen.h:469-514 | a stream selection from (x1, y1) to a later (x2, y2) reads back as given and selects exactly the cells between them in reading order |
| ScreenProperties.BlockSelection | src/Screen.h:469-514 | a block selection between two corners selects exactly the cells whose line and column both lie between the corners' |
| ScreenProperties.CheckSelectionInside | src/Screen.h:539-549 | checking a range inside the selection clears it |
| ScreenProperties.CheckSelectionOutside | src/Screen.h:539-549 | checking a range that does not meet the selection leaves the state unchanged |
| ScreenProperties.TabToSingleStop | src/Screen.h:273-276 | after clearing all tab stops and setting one at column 10, a tab from column 0 lands on column 10 |
| ScreenProperties.TabThenBacktab | src/Screen.h:231-234 | from a tab stop or column 0, one tab then one backtab returns to the same column |
| ScreenProperties.DisplayCharacterFills | src/Screen.h:396-407 | outside insert mode and before the right edge, displayCharacter writes the cell at the cursor, moves the cursor one column and leaves every other cell alone |
| ScreenProperties.DisplayRepeatedFills | src/Screen.h:256-260 | displaying a character k times without reaching the right edge fills k cells from the cursor with it and moves the cursor by k |
| ScreenProperties.RepeatCharsFills | src/Screen.h:256-260 | repeatChars(n) fills n cells from the cursor with the last drawn character (n = 0 meaning 1) when they fit before the right edge |
| ImageLines.InsertCells | src/Screen.h:250-255 | inserting n blanks at x keeps the cells before x, puts n blanks at x, shifts the rest right, and drops what passes the screen width, so the result is at most `columns` cells long even when the line was longer |
| ImageLines.DeleteCells | src/Screen.h:245-249 | deleting n cells at x keeps the line's length and the cells before x, shifts the rest left, and fills the end with blanks |
| ImageLines.InsertThenDelete | src/Screen.h:245-255 | deleting the n cells just inserted gives back every cell that was not pushed past the width |
| ImageLines.DeleteCellsLocal | src/Screen.h:245-249 | deleting cells never changes the cells before the cursor |
| ImageLines.ScrollRegionUp | src/Screen.h:751-752 | the lines of the region move up by n, the bottom n lines of the region are blank, and the lines outside stay |
| ImageLines.ScrollRegionDown | src/Screen.h:753-754 | the lines of the region move down by n, the top n lines of the region are blank, and the lines outside stay |
| ImageLines.ScrollUpThenDown | src/Screen.h:751-754 | scrolling a region up and then down by n restores every line that stayed in it |
| ShellCommand.WithCommand | src/ShellCommand.cpp:20-26 | the argument list is kept, except that its first element is replaced by the command when the list is not empty |
| ShellCommand.Command | src/ShellCommand.cpp:46-52 | the first argument, or the empty string when there are no arguments |
| ShellCommand.IsValidLeadingEnvCharacter | src/ShellCommand.cpp:84-88 | only ASCII characters start a name, never a lower-case letter or a digit |
| ShellCommand.IsValidEnvCharacter | src/ShellCommand.cpp:78-82 | every leading character continues a name; a name character is ASCII and never '$', '\\' or a lower-case letter |
| ShellCommand.CommandOfConstructed | src/ShellCommand.cpp:46-52 | the command is argument 0 of the constructed list, or the empty string for an empty list |
| ShellCommand.EnvCharacterClasses | src/ShellCommand.cpp:78-88 | a name starts with '_' or an upper-case letter and continues with those or digits; lower case, '$', '\\' and space are never part of a name |
| ShellCommand.EnvName | src/ShellCommand.cpp:123-127 | the variable name is the longest prefix made of valid name characters |
| ShellCommand.ExpandRest | src/ShellCommand.cpp:96-142 | the recursive reference definition of expandEnv's scan, left to right; its properties are stated by the lemmas below and ShellCommand.ExpandEnv is proved equal to it |
| ShellCommand.Expansion | src/ShellCommand.cpp:96-142 | the reference expansion of a whole text, with whether anything was replaced |
| ShellCommand.NoDollarUnchanged | src/ShellCommand.cpp:105 | text without '$' is left unchanged and reported as not expanded |
| ShellCommand.NotExpandedMeansUnchanged | src/ShellCommand.cpp:94-96 | when expansion reports false, the text is unchanged |
| ShellCommand.TrailingDollarKept | src/ShellCommand.cpp:106-109 | a '$' at the end of the text stays |
| ShellCommand.EscapedDollarKept | src/ShellCommand.cpp:111-115 | a '$' right after a backslash stays, and the rest is expanded on its own |
| ShellCommand.InvalidLeadingDollarKept | src/ShellCommand.cpp:117-121 | a '$' followed by a character that cannot start a name stays |
| ShellCommand.VariableReplacedVerbatim | src/ShellCommand.cpp:123-136 | '$' plus a maximal name with a non-empty value is replaced by the value verbatim, and expansion reports true |
| ShellCommand.InsertedTextNotReexpanded | src/ShellCommand.cpp:133-136 | scanning continues after the inserted value, so a value that itself names a variable stays literal |
| ShellCommand.IndexOf | src/ShellCommand.cpp:105 | gives the first position of the character at or after `from`, or -1 when it does not occur there |
| ShellCommand.NameEnd | src/ShellCommand.cpp:123-127 | the loop stops at the first character after `from` that cannot be part of a name |
| ShellCommand.ScanStep | src/ShellCommand.cpp:105-139 | one round of the loop either finishes with the full expansion or keeps the scan invariant while the unscanned part shrinks |
| ShellCommand.ExpandEnv | src/ShellCommand.cpp:96-142 | the in-place loop gives the text and the expanded flag of the recursive definition of the expansion |
| ShellCommand.Expand | src/ShellCommand.cpp:71-76 | returns the expanded copy of the text |
| ShellCommand.ExpandAll | src/ShellCommand.cpp:59-69 | returns a list of the same length with every item expanded |
| ShellCommand.QuotedAll | src/ShellCommand.cpp:30-42 | every argument is quoted exactly when it contains white space |
| ShellCommand.FullCommand | src/ShellCommand.cpp:28-44 | the loop gives the quoted arguments joined with single spaces |
| ShellCommand.FullCommandLength | src/ShellCommand.cpp:28-44 | the full command's length is the sum of the arguments' lengths, plus one separator between each pair, plus two quotes per argument with a space |
| ShellCommand.FullCommandWithoutSpaces | src/ShellCommand.cpp:28-44 | without white space in any argument, the full command is the arguments joined by spaces |
| ScrollBar.MarkerSize | src/terminalDisplay/TerminalScrollBar.cpp:442-445 | the marker height is pSize percent of the bar height, so it lies between 0 and the bar height |
| ScrollBar.MarkerTop | src/terminalDisplay/TerminalScrollBar.cpp:429-437 | the marker is centred on its position, pushed back inside the bar at either end |
| ScrollBar.Generated | src/terminalDisplay/TerminalScrollBar.cpp:426-440 | the marker keeps its position, spans the bar's width, has the marker height and lies wholly inside the bar |
| ScrollBar.MarkerTopMonotone | src/terminalDisplay/TerminalScrollBar.cpp:426-437 | a larger position never gives a higher marker top |
| ScrollBar.CreatedMarkerCoversClick | src/terminalDisplay/TerminalScrollBar.cpp:417-424 | a marker created for a click inside the bar covers the clicked y |
| ScrollBar.ConsistentTopsSorted | src/terminalDisplay/TerminalScrollBar.cpp:352-362 | markers sorted by position with generated geometry are also sorted by top, which justifies stopping the scan at the first marker below the click |
| ScrollBar.InsertionIndex | src/terminalDisplay/TerminalScrollBar.cpp:395-405 | the insertion point is before the first marker whose position is not smaller, or at the end |
| ScrollBar.InsertKeepsSorted | src/terminalDisplay/TerminalScrollBar.cpp:391-408 | inserting at the insertion point keeps the markers sorted by position |
| ScrollBar.RemoveKeepsSorted | src/terminalDisplay/TerminalScrollBar.cpp:352-371 | removing any marker keeps the markers sorted |
| ScrollBar.RemoveIndexFrom | src/terminalDisplay/TerminalScrollBar.cpp:354-368 | the scan finds the first marker that covers y, before any marker whose top is below y |
| ScrollBar.RemoveIndex | src/terminalDisplay/TerminalScrollBar.cpp:352-371 | the index removeMarker removes: a marker that covers y and the first one that does |
| ScrollBar.ExistsAsWrittenFrom | src/terminalDisplay/TerminalScrollBar.cpp:373-389 | markerExists as written: when it reports true, some marker covers y with its top strictly above y |
| ScrollBar.RemoveIndexComplete | src/terminalDisplay/TerminalScrollBar.cpp:352-371 | on markers sorted by top, the scan finds a marker exactly when some marker covers y |
| ScrollBar.ExistsAsWrittenSound | src/terminalDisplay/TerminalScrollBar.cpp:373-389 | whatever markerExists finds, removeMarker also finds |
| ScrollBar.ExistsAsWrittenMissesTopEdge | src/terminalDisplay/TerminalScrollBar.cpp:379-381 | a marker whose top edge is exactly at the click covers it and removeMarker finds it, but markerExists reports false |
| ScrollBar.Moved | src/terminalDisplay/TerminalScrollBar.cpp:233-239 | a move of n cells from src to dst: the destination holds the source cells and every other cell is unchanged |
| ScrollBar.Move | src/terminalDisplay/TerminalScrollBar.cpp:233-239 | the memmove loop, copying in the direction that is safe for overlapping ranges, leaves the array that Moved describes |
| ScrollBar.ScrollPlan | src/terminalDisplay/TerminalScrollBar.cpp:169-224 | a non-zero scroll of a valid region (bottom capped at lines - 2) moves the region's rows that stay visible by `lines`, and the move stays inside the region |
| ScrollBar.ScrollImage | src/terminalDisplay/TerminalScrollBar.cpp:167-244 | the image is unchanged when there is nothing to scroll; otherwise its rows are shifted exactly as the plan says |
| ScrollBar.SetScrollSpec | src/terminalDisplay/TerminalScrollBar.cpp:53-71 | an unchanged range and value leave the slider alone; otherwise the range becomes 0 .. slines - lines, the steps 1 and a page, and the value the cursor |
| ScrollBar.SetScrollIdempotent | src/terminalDisplay/TerminalScrollBar.cpp:56-63 | a second identical update changes nothing |
| ScrollBar.Marker.constructor | src/terminalDisplay/TerminalScrollBar.cpp:419 | a new marker has zero position and empty geometry |
| ScrollBar.TerminalScrollBar.constructor | src/terminalDisplay/TerminalScrollBar.cpp:29-34 | a bar without markers |
| ScrollBar.TerminalScrollBar.SetScroll | src/terminalDisplay/TerminalScrollBar.cpp:53-71 | the slider becomes SetScrollSpec of the old slider, and the markers and size are unchanged |
| ScrollBar.TerminalScrollBar.GenerateMarkerGeometry | src/terminalDisplay/TerminalScrollBar.cpp:426-440 | the marker's position and geometry become those Generated gives for the current bar |
| ScrollBar.TerminalScrollBar.MarkerHeight | src/terminalDisplay/TerminalScrollBar.cpp:442-445 | returns the marker height for the current bar |
| ScrollBar.TerminalScrollBar.RegenerateMarkersGeometry | src/terminalDisplay/TerminalScrollBar.cpp:410-415 | every marker gets the geometry of its own position on the current bar |
| ScrollBar.TerminalScrollBar.Resize | src/terminalDisplay/TerminalScrollBar.cpp:313-317 | after a resize the markers keep their order and positions and are laid out on the new bar |
| ScrollBar.TerminalScrollBar.SetMarkerSize | src/terminalDisplay/TerminalScrollBar.cpp:105-111 | the new marker size is set and every marker is laid out again with it |
| ScrollBar.TerminalScrollBar.CreateMarker | src/terminalDisplay/TerminalScrollBar.cpp:417-424 | a fresh marker at the click's position in percent of the bar height |
| ScrollBar.TerminalScrollBar.RegisterMarker | src/terminalDisplay/TerminalScrollBar.cpp:391-408 | the marker is inserted at the insertion point and every other marker keeps its place |
| ScrollBar.TerminalScrollBar.RemoveMarker | src/terminalDisplay/TerminalScrollBar.cpp:352-371 | the marker the scan finds is removed, and nothing else; without one the markers are unchanged |
| ScrollBar.TerminalScrollBar.MarkerExists | src/terminalDisplay/TerminalScrollBar.cpp:373-389 | corrected scan: true exactly when removeMarker would find a marker, that is, when some marker covers y |
| ScrollBar.TerminalScrollBar.MouseDoubleClick | src/terminalDisplay/TerminalScrollBar.cpp:319-328 | built on the corrected MarkerExists (see Findings): a double click on a marker removes one marker, also on the marker's top edge where the source as written adds a second one; elsewhere it adds one that covers the click; the markers stay sorted and laid out |
| ScrollBar.TerminalScrollBar.RemoveValid | src/terminalDisplay/TerminalScrollBar.cpp:352-371 | removing a found marker keeps the markers sorted and laid out, with one fewer |
| ScrollBar.TerminalScrollBar.AddValid | src/terminalDisplay/TerminalScrollBar.cpp:391-408 | registering a created marker keeps the markers sorted and laid out, with one more that covers the click |
| ScrollBar.RemovedValid | src/terminalDisplay/TerminalScrollBar.cpp:352-371 | removing any marker keeps the list sorted and its geometry consistent |
| ScrollBar.InsertedValid | src/terminalDisplay/TerminalScrollBar.cpp:391-408 | inserting a laid-out marker at the insertion point keeps the list sorted and its geometry consistent |
| SaveHistoryTask.ContainsIgnoringCase | src/SaveHistoryTask.cpp:113 | true exactly when the pattern occurs in the text, ignoring ASCII case |
| SaveHistoryTask.ChooseDecoder | src/SaveHistoryTask.cpp:113-128 | the HTML decoder is chosen exactly when the name filter contains "html" or the first file name ends in "html", ignoring ASCII case (for this all-ASCII pattern the same as ignoring case); otherwise plain text |
| SaveHistoryTask.HtmlFilterChosen | src/SaveHistoryTask.cpp:113 | the filter "HTML (*.html)" chooses the HTML decoder |
| SaveHistoryTask.HtmlFileChosen | src/SaveHistoryTask.cpp:114 | a file named "log.HTML" chooses the HTML decoder whatever the filter |
| SaveHistoryTask.PlainTextChosen | src/SaveHistoryTask.cpp:113-128 | a ".htm" file with a non-HTML filter gets the plain-text decoder |
| SaveHistoryTask.NewJob | src/SaveHistoryTask.cpp:105-128 | a new job has its session, nothing fetched yet (-1) and the chosen decoder |
| SaveHistoryTask.Chunk | src/SaveHistoryTask.cpp:154-160 | nothing is sent once the last line has been fetched; otherwise the next chunk starts right after the last line fetched and has at most 500 lines, a full 500 unless it reaches the last line |
| SaveHistoryTask.Request | src/SaveHistoryTask.cpp:146-168 | a data request never changes a job's session or decoder; when it writes nothing the job is unchanged; when it writes, the session is alive, the range is the next chunk after the last line fetched, and its end becomes the last line fetched |
| SaveHistoryTask.RequestWithoutSession | src/SaveHistoryTask.cpp:150 | a job whose session is gone sends nothing and stays unchanged |
| SaveHistoryTask.RequestWhenDone | src/SaveHistoryTask.cpp:156-158 | a job that has sent every line sends nothing and stays unchanged |
| SaveHistoryTask.RequestContiguous | src/SaveHistoryTask.cpp:160-167 | the lines sent continue right after the last line fetched, number at most 500, and become the new last line fetched |
| SaveHistoryTask.RequestBounded | src/SaveHistoryTask.cpp:154-167 | the last line fetched never passes the session's last line and grows on every request until it reaches it |
| SaveHistoryTask.FetchedAll | src/SaveHistoryTask.cpp:139-168 | after k requests with 500 * k lines or more available, the whole history of n lines has been sent |
| SaveHistoryTask.WrittenContiguous | src/SaveHistoryTask.cpp:139-168 | the chunks sent by successive requests are contiguous, non-empty, at most 500 lines each, and start right after the last line fetched before them |
| SaveHistoryTask.DataRequestedLocal | src/SaveHistoryTask.cpp:146 | a data request for one job leaves every other job's entry unchanged and leaves an entry for the requested job |
| SaveHistoryTask.DataRequested | src/SaveHistoryTask.cpp:139-169 | the job table afterwards holds the same jobs plus the requested one (QMap::operator[] inserts a missing one), and lines are written only for a known job with a session |
| SaveHistoryTask.DataRequestedUnknownJob | src/SaveHistoryTask.cpp:146 | a request for a job not in the table inserts a default entry with no session and sends nothing |
| SaveHistoryTask.SaveHistoryTask.constructor | src/SaveHistoryTask.cpp:33-36 | a task starts with no jobs |
| SaveHistoryTask.SaveHistoryTask.AddJob | src/SaveHistoryTask.cpp:105-130 | the job table gains the new job, entered as NewJob describes |
| SaveHistoryTask.SaveHistoryTask.JobDataRequested | src/SaveHistoryTask.cpp:139-169 | the table and the lines written are those DataRequested gives |
| SaveHistoryTask.SaveHistoryTask.JobResult | src/SaveHistoryTask.cpp:170-188 | the job is removed from the table, and its decoder (none for an unknown job) is handed back for deletion |

## Left out

- `src/Screen.cpp` is not part of this model. The screen follows the documentation comments, fields and inline members of `src/Screen.h`. Where those leave a detail open, the model uses the conventional VT100 behaviour: for example, blanks take the current colours, and a pending wrap is marked by a cursor column equal to the width.
- The model uses 0-based coordinates throughout; the header does not fix the base.
- ScreenSpec.SetMode: switching on origin mode does not also move the cursor home.
- ScreenSpec.Reset: a hard reset keeps the history and the last character drawn (for repeatChars); it does not clear the scroll-back.
- ScrollBar.TerminalScrollBar.MouseDoubleClick uses the corrected markerExists of the Findings table. On a click at a marker's top edge it removes the marker, where the source as written adds a second marker. The as-written scan is ScrollBar.ExistsAsWrittenFrom.
- SaveHistoryTask.ContainsIgnoringCase folds ASCII case only, not Unicode case. For the pattern "html" the two agree, because no other character folds to h, t, m or l.
- ScreenSpec.SetCursorYX: its contract states the exact position only outside origin mode. In origin mode it is stated through ScreenSpec.SetCursorY.
- ScreenSpec.RepeatChars and ScreenSpec.DisplayRepeated state only what stays unchanged. The cells written are stated by ScreenProperties.RepeatCharsFills and ScreenProperties.DisplayRepeatedFills, and only for the case without insert mode and without reaching the right edge. Wrapping across lines is not stated as a property.
- ScreenSpec.Tab and ScreenSpec.Backtab state the direction of the move and the bounds. The exact stop is stated by ScreenSpec.NextTabStop and ScreenSpec.PreviousTabStop and by the lemmas ScreenProperties.TabToSingleStop and ScreenProperties.TabThenBacktab.
- ScreenSpec.CheckSelection: its own contract says only "kept or cleared". The model clears the selection when the range overlaps it, which includes the "inside" case the header describes. ScreenProperties.CheckSelectionInside and ScreenProperties.CheckSelectionOutside state the two cases.
- The history is an unbounded sequence of lines. History size limits, compact and file-backed histories, and the counters of scrolled and dropped lines are left out.
- Line properties are left out: double width and height, wrapped-line flags and prompt/REPL regions. So are `preservePrompt` in reset and the selection of contiguous REPL regions.
- The effective rendition (bold and reverse mapped onto colours), underline colours and underline types are left out, as are graphics and image placements.
- Wide characters are left out: each character takes one cell, and `ignoreWcWidth` is not modelled.
- `trimTrailingWhitespace` in setSelectionEnd is left out.
- Editing and scrolling operations do not move or clear the selection in the model; only clearSelection, checkSelection, resize and reset clear it.
- Text extraction is left out: selectedText, text and writeLinesToStream, and the decoders they call.
- The mode flags and their saved copies are C arrays inside the screen object. They are never shared, so the class holds them as sequence fields.
- Reset, resize and restoreCursor are methods composed of smaller steps, each of which updates a few fields. The composition is proved equal to the specification function.
- ScrollBar.TerminalScrollBar.SetScroll and ScrollBar.SetScrollSpec: the slider's own clamping (maximum never below minimum, value kept within the range) is written out, because it belongs to the toolkit's slider, whose code is not part of this model.
- Marker geometry and positions are real numbers. Floating-point rounding is not modelled.
- Painting, palette updates, the search-line highlights, tool tips on mouse move and the scroll-bar position setting are left out.
- The repaint of the display after a scroll (`display->scroll`) is left out. The scroll rectangle's validity is a parameter of ScrollBar.ScrollPlan.
- ScrollBar.ScrollImage works on a flat array of cells, as the image is. Its bounds assertions from the source are its precondition.
- The process environment is a map parameter, with an unset variable reading as the empty string. The conversion from the local 8-bit encoding is left out.
- The constructor that splits a command line with shell quoting rules is left out. It calls a library the model does not include.
- SaveHistoryTask: the file dialog, the remembered recent URL, the configuration file, the transfer job, the colour scheme and the error message box are left out. Their outcomes are parameters: the job and session numbers, the name filter and the first file name.
- The decoders themselves and the writing of the lines are left out; a data request returns the range of lines written. A session's liveness and line count are a map parameter, in which a missing session is one that was destroyed.
- The `completed` signal and the task's self-deletion are left out.

## Findings

| source | as written | input that shows it | evidently intended | confidence | as-written member | corrected member |
|---|---|---|---|---|---|---|
| src/terminalDisplay/TerminalScrollBar.cpp:379 | markerExists stops scanning at the first marker whose top is at or below the click (`markerTop >= clickedYCoord`). removeMarker stops only at a top strictly below it. | one marker of a 100-pixel bar at position 0 (top at y = 0), double-clicked at y = 0: the marker covers the click and removeMarker would remove it, but markerExists returns false, so the double click adds a second marker instead of removing the first | markerExists agrees with removeMarker: stop only at `markerTop > clickedYCoord`, and report true exactly when some marker covers the click | not executed | ScrollBar.ExistsAsWrittenMissesTopEdge | ScrollBar.TerminalScrollBar.MarkerExists |
