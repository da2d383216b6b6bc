/**
 * The terminal's scroll bar: the user's bookmarks ("markers") kept sorted
 * by their position along the bar, the geometry of each marker, the slider
 * range update, and the in-place shift of the display's character image
 * that accompanies a scroll.
 *
 * Pixel coordinates of the widget are integers; marker geometry is kept in
 * real numbers where the widget uses floating point.
 */
module ScrollBar {
  import opened Wrappers

  function Min(a: int, b: int): int
  {
    if a <= b then a else b
  }

  function Max(a: int, b: int): int
  {
    if a <= b then b else a
  }

  function Abs(a: int): nat
  {
    if a < 0 then -a else a
  }

  // ---------------------------------------------------------------------
  // Marker geometry
  // ---------------------------------------------------------------------

  /**
   * What a marker holds: its position as a percentage of the bar height, and
   * its rectangle (left edge 0): top, width and height (`size`).
   */
  datatype MarkerView = MarkerView(position: real, top: real, width: real, size: real)

  /** The marker height: `pSize` percent of the bar height. */
  function MarkerSize(barHeight: int, pSize: real): (size: real)
    ensures 0 <= barHeight && 0.0 <= pSize <= 100.0 ==> 0.0 <= size <= barHeight as real
  {
    var h := barHeight as real;
    assert 0 <= barHeight && 0.0 <= pSize <= 100.0 ==> 0.0 <= h * pSize <= h * 100.0 by {
      if 0 <= barHeight && 0.0 <= pSize <= 100.0 {
        assert h * (100.0 - pSize) >= 0.0;
      }
    }
    h * pSize / 100.0
  }

  /**
   * The top of a marker of height `size` centred at `position` percent of
   * the bar; moved up to end at the bottom when it would overflow it, or
   * down to 0 when it would overflow the top.
   */
  function MarkerTop(position: real, barHeight: int, size: real): (top: real)
    ensures 0.0 <= size <= barHeight as real ==> 0.0 <= top <= barHeight as real - size
  {
    var h := barHeight as real;
    var mid := position * h / 100.0;
    if mid + size / 2.0 > h then h - size
    else if mid - size / 2.0 < 0.0 then 0.0
    else mid - size / 2.0
  }

  /** The geometry a marker at `position` gets on a bar of the given size. */
  function Generated(position: real, barHeight: int, barWidth: int, pSize: real): (v: MarkerView)
    ensures v.position == position && v.width == barWidth as real && v.size == MarkerSize(barHeight, pSize)
    ensures 0 <= barHeight && 0.0 <= pSize <= 100.0 ==>
              0.0 <= v.top && v.top + v.size <= barHeight as real
  {
    var size := MarkerSize(barHeight, pSize);
    MarkerView(position, MarkerTop(position, barHeight, size), barWidth as real, size)
  }

  /** A marker further down the bar never gets a higher top. */
  lemma MarkerTopMonotone(p1: real, p2: real, barHeight: int, size: real)
    requires p1 <= p2 && 0 <= barHeight && 0.0 <= size <= barHeight as real
    ensures MarkerTop(p1, barHeight, size) <= MarkerTop(p2, barHeight, size)
  {
    var h := barHeight as real;
    assert (p2 - p1) * h >= 0.0;
    assert p1 * h / 100.0 <= p2 * h / 100.0;
  }

  /** The marker created by a click at `y` on the bar covers `y`. */
  lemma CreatedMarkerCoversClick(y: int, barHeight: int, barWidth: int, pSize: real)
    requires 0 <= y <= barHeight && 0 < barHeight && 0.0 <= pSize <= 100.0
    ensures Covers(Generated(ClickPosition(y, barHeight), barHeight, barWidth, pSize), y)
  {
    var h := barHeight as real;
    var p := ClickPosition(y, barHeight);
    assert (y as real / h) * h == y as real;
    assert p * h / 100.0 == y as real;
  }

  /** The position of a marker created by a click at `y`, in percent of the bar height. */
  function ClickPosition(y: int, barHeight: int): real
    requires barHeight > 0
  {
    y as real / barHeight as real * 100.0
  }

  /** The marker's rectangle contains the row `y` (both edges included). */
  predicate Covers(v: MarkerView, y: int)
  {
    v.top <= y as real <= v.top + v.size
  }

  // ---------------------------------------------------------------------
  // The sorted marker list
  // ---------------------------------------------------------------------

  predicate PositionsSorted(vs: seq<MarkerView>)
  {
    forall i, j :: 0 <= i < j < |vs| ==> vs[i].position <= vs[j].position
  }

  predicate TopsSorted(vs: seq<MarkerView>)
  {
    forall i, j :: 0 <= i < j < |vs| ==> vs[i].top <= vs[j].top
  }

  /** Every marker has the geometry its position gives on the current bar. */
  predicate Consistent(vs: seq<MarkerView>, barHeight: int, barWidth: int, pSize: real)
  {
    forall i :: 0 <= i < |vs| ==> vs[i] == Generated(vs[i].position, barHeight, barWidth, pSize)
  }

  /** Markers sorted by position and laid out on the same bar are sorted by top as well. */
  lemma ConsistentTopsSorted(vs: seq<MarkerView>, barHeight: int, barWidth: int, pSize: real)
    requires PositionsSorted(vs) && Consistent(vs, barHeight, barWidth, pSize)
    requires 0 <= barHeight && 0.0 <= pSize <= 100.0
    ensures TopsSorted(vs)
  {
    forall i, j | 0 <= i < j < |vs|
      ensures vs[i].top <= vs[j].top
    {
      MarkerTopMonotone(vs[i].position, vs[j].position, barHeight, MarkerSize(barHeight, pSize));
    }
  }

  /** Where a marker at `position` is inserted: before the first marker at or after it, else at the end. */
  function InsertionIndex(vs: seq<MarkerView>, position: real): (k: nat)
    ensures k <= |vs|
    ensures forall j :: 0 <= j < k ==> vs[j].position < position
    ensures k < |vs| ==> position <= vs[k].position
  {
    if |vs| == 0 || position <= vs[0].position then 0
    else 1 + InsertionIndex(vs[1..], position)
  }

  /** Inserting at the insertion index keeps the list sorted by position. */
  lemma InsertKeepsSorted(vs: seq<MarkerView>, v: MarkerView)
    requires PositionsSorted(vs)
    ensures var k := InsertionIndex(vs, v.position);
            PositionsSorted(vs[..k] + [v] + vs[k..])
  {
    var k := InsertionIndex(vs, v.position);
    var ws := vs[..k] + [v] + vs[k..];
    forall i, j | 0 <= i < j < |ws|
      ensures ws[i].position <= ws[j].position
    {
      if j < k {
      } else if j == k {
        assert ws[i] == vs[i];
      } else if i == k {
        assert ws[j] == vs[j - 1];
      } else if i < k {
        assert ws[i] == vs[i] && ws[j] == vs[j - 1];
      } else {
        assert ws[i] == vs[i - 1] && ws[j] == vs[j - 1];
      }
    }
  }

  /** Removing one marker keeps the others sorted and in their order. */
  lemma RemoveKeepsSorted(vs: seq<MarkerView>, i: nat)
    requires i < |vs| && PositionsSorted(vs)
    ensures PositionsSorted(vs[..i] + vs[i + 1..])
  {
    var ws := vs[..i] + vs[i + 1..];
    forall a, b | 0 <= a < b < |ws|
      ensures ws[a].position <= ws[b].position
    {
      var a' := if a < i then a else a + 1;
      var b' := if b < i then b else b + 1;
      assert ws[a] == vs[a'] && ws[b] == vs[b'];
    }
  }

  /**
   * The marker a click at `y` removes: scanning in order, the first marker
   * covering `y`, giving up at the first marker whose top is below `y`.
   */
  function RemoveIndexFrom(vs: seq<MarkerView>, y: int, k: nat): (r: Option<nat>)
    requires k <= |vs|
    ensures r.Some? ==> k <= r.value < |vs| && Covers(vs[r.value], y)
    ensures r.Some? ==> forall j :: k <= j < r.value ==> !Covers(vs[j], y)
    decreases |vs| - k
  {
    if k == |vs| then None
    else if vs[k].top > y as real then None
    else if Covers(vs[k], y) then Some(k)
    else RemoveIndexFrom(vs, y, k + 1)
  }

  function RemoveIndex(vs: seq<MarkerView>, y: int): (r: Option<nat>)
    ensures r.Some? ==> r.value < |vs| && Covers(vs[r.value], y)
    ensures r.Some? ==> forall j :: 0 <= j < r.value ==> !Covers(vs[j], y)
  {
    RemoveIndexFrom(vs, y, 0)
  }

  /** On markers sorted by top, the scan finds a covering marker whenever there is one. */
  lemma {:induction false} RemoveIndexFromComplete(vs: seq<MarkerView>, y: int, k: nat)
    requires k <= |vs| && TopsSorted(vs)
    ensures RemoveIndexFrom(vs, y, k).Some? <==> exists i :: k <= i < |vs| && Covers(vs[i], y)
    decreases |vs| - k
  {
    if k < |vs| {
      if vs[k].top > y as real {
        forall i | k <= i < |vs|
          ensures !Covers(vs[i], y)
        {
          assert vs[k].top <= vs[i].top;
        }
      } else if !Covers(vs[k], y) {
        RemoveIndexFromComplete(vs, y, k + 1);
        assert forall i :: k <= i < |vs| && Covers(vs[i], y) ==> k + 1 <= i;
      }
    }
  }

  lemma RemoveIndexComplete(vs: seq<MarkerView>, y: int)
    requires TopsSorted(vs)
    ensures RemoveIndex(vs, y).Some? <==> exists i :: 0 <= i < |vs| && Covers(vs[i], y)
  {
    RemoveIndexFromComplete(vs, y, 0);
  }

  /**
   * The existence test as written: like the removal scan, but it gives up
   * already at a marker whose top equals `y`, even when that marker covers it.
   */
  function ExistsAsWrittenFrom(vs: seq<MarkerView>, y: int, k: nat): (r: bool)
    requires k <= |vs|
    ensures r ==> exists i :: k <= i < |vs| && Covers(vs[i], y) && vs[i].top < y as real
    decreases |vs| - k
  {
    if k == |vs| then false
    else if vs[k].top >= y as real then false
    else if Covers(vs[k], y) then true
    else ExistsAsWrittenFrom(vs, y, k + 1)
  }

  /** Whatever the test as written finds, the removal scan finds too. */
  lemma {:induction false} ExistsAsWrittenSound(vs: seq<MarkerView>, y: int, k: nat)
    requires k <= |vs|
    ensures ExistsAsWrittenFrom(vs, y, k) ==> RemoveIndexFrom(vs, y, k).Some?
    decreases |vs| - k
  {
    if k < |vs| && vs[k].top < y as real && !Covers(vs[k], y) {
      ExistsAsWrittenSound(vs, y, k + 1);
    }
  }

  /**
   * A marker clamped to the top of the bar has top 0; a double click at row 0
   * is inside it, yet the test as written reports no marker there, so the
   * click adds a second marker instead of removing the first.
   */
  lemma ExistsAsWrittenMissesTopEdge()
    ensures var vs := [Generated(ClickPosition(0, 100), 100, 10, 10.0)];
            Covers(vs[0], 0) && RemoveIndex(vs, 0) == Some(0) && !ExistsAsWrittenFrom(vs, 0, 0)
  {
    var v := Generated(ClickPosition(0, 100), 100, 10, 10.0);
    assert v.top == 0.0;
  }

  /** The views of a list of markers. */
  function Views(ms: seq<Marker>): (r: seq<MarkerView>)
    reads set m | m in ms
    ensures |r| == |ms|
    ensures forall i :: 0 <= i < |ms| ==> r[i] == ms[i].View()
  {
    if ms == [] then [] else [ms[0].View()] + Views(ms[1..])
  }

  /** One marker: a position on the bar and the rectangle drawn for it. */
  class Marker {
    var position: real
    var top: real
    var width: real
    var size: real

    /** A new marker: position 0 and an empty rectangle. */
    constructor()
      ensures View() == MarkerView(0.0, 0.0, 0.0, 0.0)
    {
      position, top, width, size := 0.0, 0.0, 0.0, 0.0;
    }

    function View(): MarkerView
      reads this
    {
      MarkerView(position, top, width, size)
    }
  }

  // ---------------------------------------------------------------------
  // The slider range
  // ---------------------------------------------------------------------

  /** The slider's range, value and steps. */
  datatype SliderState = SliderState(minimum: int, maximum: int, value: int, singleStep: int, pageStep: int)

  /**
   * The slider after a scroll update to `cursor` within `slines` lines of
   * which `displayLines` are shown: unchanged when the range and value
   * already match; otherwise the range becomes 0 .. slines - displayLines
   * (never below the minimum), the steps 1 and a page, and the value the
   * cursor kept inside the range.
   */
  function SetScrollSpec(s: SliderState, cursor: int, slines: int, displayLines: int): (r: SliderState)
    ensures s.minimum == 0 && s.maximum == slines - displayLines && s.value == cursor ==> r == s
    ensures r != s ==> r.minimum == 0 <= r.value <= r.maximum && r.singleStep == 1 && r.pageStep == displayLines
    ensures r != s && 0 <= cursor <= slines - displayLines ==> r.value == cursor && r.maximum == slines - displayLines
  {
    if s.minimum == 0 && s.maximum == slines - displayLines && s.value == cursor then s
    else
      var maximum := Max(0, slines - displayLines);
      SliderState(0, maximum, Max(0, Min(maximum, cursor)), 1, displayLines)
  }

  /** A second identical scroll update changes nothing. */
  lemma SetScrollIdempotent(s: SliderState, cursor: int, slines: int, displayLines: int)
    ensures var r := SetScrollSpec(s, cursor, slines, displayLines);
            SetScrollSpec(r, cursor, slines, displayLines) == r
  {
  }

  // ---------------------------------------------------------------------
  // The image shift
  // ---------------------------------------------------------------------

  /**
   * The rows moved by a scroll of `lines` over the region with the given
   * edges on a display of `displayLines` lines: (source row, destination row,
   * number of rows), or `None` when nothing is moved. The region's bottom is
   * first capped at displayLines - 2. Nothing moves when `lines` is 0, the
   * region is invalid, the shift does not leave a row in the region, or the
   * repainted rectangle (`scrollRectOk`) is invalid or empty.
   */
  function ScrollPlan(lines: int, regionLeft: int, regionTop: int, regionRight: int, regionBottom: int,
                      displayLines: int, scrollRectOk: bool): (r: Option<(int, int, int)>)
    ensures r.Some? ==> lines != 0 && scrollRectOk
    ensures r.Some? ==>
              var (src, dst, count) := r.value;
              var bottom := Min(regionBottom, displayLines - 2);
              count >= 2 && count == bottom - regionTop + 1 - Abs(lines)
              && regionTop <= src && regionTop <= dst
              && Max(src, dst) + count == bottom + 1
              && (lines > 0 ==> src == dst + lines)
              && (lines < 0 ==> dst == src - lines)
  {
    if lines == 0 then None
    else
      var bottom := Min(regionBottom, displayLines - 2);
      if !(regionLeft <= regionRight && regionTop <= bottom) || regionTop + Abs(lines) >= bottom
         || displayLines <= bottom
      then None
      else if !scrollRectOk then None
      else
        var count := bottom - regionTop + 1 - Abs(lines);
        if lines > 0 then Some((regionTop + lines, regionTop, count))
        else Some((regionTop, regionTop - lines, count))
  }

  /** `s` after moving `n` elements from `src` to `dst`, overlapping or not (memmove). */
  function Moved<T>(s: seq<T>, src: int, dst: int, n: int): (r: seq<T>)
    requires 0 <= n && 0 <= src && src + n <= |s| && 0 <= dst && dst + n <= |s|
    ensures |r| == |s|
    ensures forall i :: 0 <= i < |s| && dst <= i < dst + n ==> r[i] == s[src + (i - dst)]
    ensures forall i :: 0 <= i < |s| && !(dst <= i < dst + n) ==> r[i] == s[i]
  {
    seq(|s|, i requires 0 <= i < |s| => if dst <= i < dst + n then s[src + (i - dst)] else s[i])
  }

  /** The image moves only when the memory it moves is inside the image. */
  predicate MoveInBounds(plan: Option<(int, int, int)>, columns: int, length: int)
  {
    plan.Some? ==>
      var (src, dst, count) := plan.value;
      0 <= columns && 0 <= src && 0 <= dst && (Max(src, dst) + count) * columns <= length
  }

  lemma MulLe(a: int, b: int, c: int)
    requires 0 <= a <= b && 0 <= c
    ensures a * c <= b * c
  {
  }

  /** A cell of a row inside rows `lo .. hi - 1` lies inside their cells. */
  lemma CellInRows(row: int, col: int, columns: int, lo: int, hi: int)
    requires lo <= row < hi && 0 <= col < columns
    ensures lo * columns <= row * columns + col < hi * columns
  {
    MulLe(0, row - lo, columns);
    MulLe(0, hi - row - 1, columns);
    assert row * columns == lo * columns + (row - lo) * columns;
    assert hi * columns == row * columns + columns + (hi - row - 1) * columns;
  }

  /**
   * At row granularity: a scroll moves row `row + lines` onto row `row` for
   * every destination row, cell by cell (upwards for a positive `lines`,
   * downwards for a negative one); every other cell stays (see Moved).
   */
  lemma MovedRows<T>(s: seq<T>, src: int, dst: int, count: int, lines: int, columns: int, row: int, col: int)
    requires 0 <= columns && 0 <= src && 0 <= dst && 0 <= count && (Max(src, dst) + count) * columns <= |s|
    requires src - dst == lines
    requires dst <= row < dst + count && 0 <= col < columns
    ensures 0 <= src * columns && 0 <= dst * columns && 0 <= count * columns
    ensures src * columns + count * columns <= |s| && dst * columns + count * columns <= |s|
    ensures 0 <= row * columns + col < |s| && 0 <= (row + lines) * columns + col < |s|
    ensures Moved(s, src * columns, dst * columns, count * columns)[row * columns + col]
            == s[(row + lines) * columns + col]
  {
    MoveBounds(src, dst, count, columns, |s|);
    CellInRows(row, col, columns, dst, dst + count);
    CellInRows(row + lines, col, columns, src, src + count);
    assert (row + lines) * columns == row * columns + lines * columns;
    assert src * columns == dst * columns + lines * columns;
    assert (dst + count) * columns == dst * columns + count * columns;
  }

  /** The cells moved lie inside the image. */
  lemma MoveBounds(src: int, dst: int, count: int, columns: int, length: int)
    requires 0 <= columns && 0 <= src && 0 <= dst && 0 <= count && (Max(src, dst) + count) * columns <= length
    ensures 0 <= src * columns && 0 <= dst * columns && 0 <= count * columns
    ensures src * columns + count * columns <= length && dst * columns + count * columns <= length
  {
    MulLe(0, src, columns);
    MulLe(0, dst, columns);
    MulLe(0, count, columns);
    assert (src + count) * columns == src * columns + count * columns;
    assert (dst + count) * columns == dst * columns + count * columns;
    MulLe(src + count, Max(src, dst) + count, columns);
    MulLe(dst + count, Max(src, dst) + count, columns);
  }

  /** Copies `n` elements from `src` to `dst` inside `a`, in the order that is safe for overlap. */
  method Move<T>(a: array<T>, src: int, dst: int, n: int)
    requires 0 <= n && 0 <= src && src + n <= a.Length && 0 <= dst && dst + n <= a.Length
    modifies a
    ensures a[..] == Moved(old(a[..]), src, dst, n)
  {
    ghost var s := a[..];
    if dst <= src {
      var k := 0;
      while k < n
        invariant 0 <= k <= n
        invariant forall i :: 0 <= i < a.Length && dst <= i < dst + k ==> a[i] == s[src + (i - dst)]
        invariant forall i :: 0 <= i < a.Length && !(dst <= i < dst + k) ==> a[i] == s[i]
      {
        a[dst + k] := a[src + k];
        k := k + 1;
      }
    } else {
      var k := n;
      while k > 0
        invariant 0 <= k <= n
        invariant forall i :: 0 <= i < a.Length && dst + k <= i < dst + n ==> a[i] == s[src + (i - dst)]
        invariant forall i :: 0 <= i < a.Length && !(dst + k <= i < dst + n) ==> a[i] == s[i]
      {
        k := k - 1;
        a[dst + k] := a[src + k];
      }
    }
    assert a[..] == Moved(s, src, dst, n);
  }

  // ---------------------------------------------------------------------
  // The scroll bar
  // ---------------------------------------------------------------------

  class TerminalScrollBar {
    /** The markers, sorted by position. */
    var markers: seq<Marker>
    /** The widget's size in pixels. */
    var height: int
    var width: int
    /** The marker height in percent of the bar height. */
    var markerPSize: real
    var slider: SliderState

    /** The markers are sorted by position and laid out on the current bar. */
    predicate Valid()
      reads this, set m | m in markers
    {
      0 <= height && 0.0 <= markerPSize <= 100.0
      && PositionsSorted(Views(markers))
      && Consistent(Views(markers), height, width, markerPSize)
    }

    /** A bar without markers; the slider starts with the toolkit's defaults (range 0 .. 99, page step 10). */
    constructor(height: int, width: int, markerPSize: real)
      requires 0 <= height && 0.0 <= markerPSize <= 100.0
      ensures Valid() && markers == []
      ensures this.height == height && this.width == width && this.markerPSize == markerPSize
      ensures slider == SliderState(0, 99, 0, 1, 10)
    {
      this.height, this.width, this.markerPSize := height, width, markerPSize;
      markers := [];
      slider := SliderState(0, 99, 0, 1, 10);
    }

    /** Updates the slider for a cursor at `cursor` of `slines` lines with `displayLines` shown. */
    method SetScroll(cursor: int, slines: int, displayLines: int)
      modifies this
      ensures slider == SetScrollSpec(old(slider), cursor, slines, displayLines)
      ensures markers == old(markers) && height == old(height) && width == old(width)
      ensures markerPSize == old(markerPSize)
    {
      if slider.minimum == 0 && slider.maximum == slines - displayLines && slider.value == cursor {
        return;
      }
      var maximum := Max(0, slines - displayLines);
      slider := SliderState(0, maximum, slider.value, slider.singleStep, slider.pageStep);
      slider := slider.(value := Max(0, Min(maximum, slider.value)));
      slider := slider.(singleStep := 1);
      slider := slider.(pageStep := displayLines);
      slider := slider.(value := Max(0, Min(slider.maximum, cursor)));
    }

    /** Sets the position of `marker` and lays out its rectangle on the current bar. */
    method GenerateMarkerGeometry(position: real, marker: Marker)
      modifies marker
      ensures marker.View() == Generated(position, height, width, markerPSize)
    {
      marker.position := position;
      var h := height as real;
      var proposedYMidPt := marker.position * h / 100.0;
      var markerSize := MarkerHeight();
      var markerYTop := proposedYMidPt - markerSize / 2.0;
      if proposedYMidPt + markerSize / 2.0 > h {
        markerYTop := h - markerSize;
      } else if proposedYMidPt - markerSize / 2.0 < 0.0 {
        markerYTop := 0.0;
      }
      marker.top, marker.width, marker.size := markerYTop, width as real, markerSize;
    }

    method MarkerHeight() returns (size: real)
      ensures size == MarkerSize(height, markerPSize)
      ensures 0 <= height && 0.0 <= markerPSize <= 100.0 ==> 0.0 <= size <= height as real
    {
      size := height as real * markerPSize / 100.0;
    }

    /** Lays out every marker again, e.g. after the bar was resized. */
    method RegenerateMarkersGeometry()
      modifies set m | m in markers
      ensures markers == old(markers)
      ensures forall i :: 0 <= i < |markers| ==>
                markers[i].View() == Generated(old(markers[i].position), height, width, markerPSize)
    {
      for i := 0 to |markers|
        invariant forall j :: 0 <= j < |markers| ==> markers[j].position == old(markers[j].position)
        invariant forall j :: 0 <= j < i ==>
                    markers[j].View() == Generated(markers[j].position, height, width, markerPSize)
      {
        GenerateMarkerGeometry(markers[i].position, markers[i]);
      }
    }

    /** A resize of the widget: the markers follow the new bar. */
    method Resize(newHeight: int, newWidth: int)
      requires Valid() && 0 <= newHeight
      modifies this, set m | m in markers
      ensures Valid() && markers == old(markers)
      ensures height == newHeight && width == newWidth && markerPSize == old(markerPSize)
      ensures forall i :: 0 <= i < |markers| ==> markers[i].position == old(markers[i].position)
    {
      height, width := newHeight, newWidth;
      RegenerateMarkersGeometry();
    }

    /** A new marker height: the markers follow it. */
    method SetMarkerSize(pSize: real)
      requires Valid() && 0.0 <= pSize <= 100.0
      modifies this, set m | m in markers
      ensures Valid() && markers == old(markers)
      ensures height == old(height) && width == old(width) && markerPSize == pSize
      ensures forall i :: 0 <= i < |markers| ==> markers[i].position == old(markers[i].position)
    {
      markerPSize := pSize;
      RegenerateMarkersGeometry();
    }

    /** A marker for a click at row `y`, laid out on the current bar. */
    method CreateMarker(y: int) returns (marker: Marker)
      requires height > 0
      ensures fresh(marker)
      ensures marker.View() == Generated(ClickPosition(y, height), height, width, markerPSize)
    {
      marker := new Marker();
      GenerateMarkerGeometry(y as real / height as real * 100.0, marker);
    }

    /** Inserts `marker` before the first marker whose position is at or after its own. */
    method RegisterMarker(marker: Marker)
      modifies this
      ensures var k := InsertionIndex(old(Views(markers)), marker.position);
              markers == old(markers)[..k] + [marker] + old(markers)[k..]
      ensures height == old(height) && width == old(width) && markerPSize == old(markerPSize)
      ensures slider == old(slider)
    {
      var i := 0;
      while i < |markers|
        invariant 0 <= i <= |markers| && markers == old(markers)
        invariant forall j :: 0 <= j < i ==> markers[j].position < marker.position
      {
        if marker.position <= markers[i].position {
          assert i == InsertionIndex(Views(markers), marker.position) by {
            InsertionIndexUnique(Views(markers), marker.position, i);
          }
          markers := markers[..i] + [marker] + markers[i..];
          return;
        }
        i := i + 1;
      }
      InsertionIndexUnique(Views(markers), marker.position, i);
      markers := markers + [marker];
    }

    /** Removes the first marker covering row `y`, if the scan reaches one. */
    method RemoveMarker(y: int)
      modifies this
      ensures match RemoveIndex(old(Views(markers)), y)
              case None => markers == old(markers)
              case Some(i) => markers == old(markers)[..i] + old(markers)[i + 1..]
      ensures height == old(height) && width == old(width) && markerPSize == old(markerPSize)
      ensures slider == old(slider)
    {
      var i := 0;
      while i < |markers|
        invariant 0 <= i <= |markers| && markers == old(markers)
        invariant RemoveIndex(Views(markers), y) == RemoveIndexFrom(Views(markers), y, i)
      {
        var marker := markers[i];
        var markerTop := marker.top;
        var markerHeight := marker.size;
        if markerTop > y as real {
          break;
        }
        if markerTop <= y as real && markerTop + markerHeight >= y as real {
          markers := markers[..i] + markers[i + 1..];
          break;
        }
        i := i + 1;
      }
    }

    /** Whether a marker covers row `y` (the scan of the removal, see RemoveIndex). */
    method MarkerExists(y: int) returns (found: bool)
      ensures found == RemoveIndex(Views(markers), y).Some?
      ensures Valid() ==> (found <==> exists i :: 0 <= i < |markers| && Covers(markers[i].View(), y))
    {
      found := false;
      var i := 0;
      while i < |markers|
        invariant 0 <= i <= |markers|
        invariant RemoveIndex(Views(markers), y) == RemoveIndexFrom(Views(markers), y, i)
      {
        var marker := markers[i];
        if marker.top > y as real {
          break;
        }
        if marker.top <= y as real && marker.top + marker.size >= y as real {
          found := true;
          break;
        }
        i := i + 1;
      }
      if Valid() {
        ConsistentTopsSorted(Views(markers), height, width, markerPSize);
        RemoveIndexComplete(Views(markers), y);
      }
    }

    /**
     * A double click at row `y`: removes a marker covering it, or else adds
     * a marker there. The markers stay sorted and laid out.
     */
    method MouseDoubleClick(y: int)
      requires Valid() && height > 0
      modifies this
      ensures Valid()
      ensures height == old(height) && width == old(width) && markerPSize == old(markerPSize)
      ensures (exists i :: 0 <= i < |old(Views(markers))| && Covers(old(Views(markers))[i], y)) ==>
                |markers| == |old(markers)| - 1
      ensures !(exists i :: 0 <= i < |old(Views(markers))| && Covers(old(Views(markers))[i], y)) ==>
                |markers| == |old(markers)| + 1
                && (0 <= y <= height ==> exists i :: 0 <= i < |markers| && Covers(Views(markers)[i], y))
    {
      var vs := Views(markers);
      ConsistentTopsSorted(vs, height, width, markerPSize);
      RemoveIndexComplete(vs, y);
      var found := MarkerExists(y);
      if found {
        RemoveValid(y);
      } else {
        AddValid(y);
      }
    }

    /** RemoveMarker on a valid bar where a marker covers `y`: one marker fewer, still valid. */
    method RemoveValid(y: int)
      requires Valid() && RemoveIndex(Views(markers), y).Some?
      modifies this
      ensures Valid() && |markers| == |old(markers)| - 1
      ensures height == old(height) && width == old(width) && markerPSize == old(markerPSize)
    {
      var vs := Views(markers);
      var i := RemoveIndex(vs, y).value;
      ghost var before := markers;
      RemoveMarker(y);
      assert markers == before[..i] + before[i + 1..];
      assert Views(before) == vs;
      ViewsRemove(before, i);
      RemovedValid(vs, i, height, width, markerPSize);
    }

    /** A marker created at `y` and registered: one marker more, covering `y`, still valid. */
    method AddValid(y: int)
      requires Valid() && height > 0
      modifies this
      ensures Valid() && |markers| == |old(markers)| + 1
      ensures height == old(height) && width == old(width) && markerPSize == old(markerPSize)
      ensures 0 <= y <= height ==> exists i :: 0 <= i < |markers| && Covers(Views(markers)[i], y)
    {
      var vs := Views(markers);
      var marker := CreateMarker(y);
      assert marker !in markers;
      assert Views(markers) == vs;
      var v := marker.View();
      var k := InsertionIndex(vs, v.position);
      ghost var before := markers;
      RegisterMarker(marker);
      assert markers == before[..k] + [marker] + before[k..];
      assert Views(before) == vs && marker.View() == v;
      ViewsInsert(before, k, marker);
      InsertedValid(vs, v, height, width, markerPSize);
      if 0 <= y <= height {
        CreatedMarkerCoversClick(y, height, width, markerPSize);
        assert Views(markers)[k] == v;
      }
    }
  }

  lemma ViewsAppend(xs: seq<Marker>, ys: seq<Marker>)
    ensures Views(xs + ys) == Views(xs) + Views(ys)
  {
    var a := Views(xs + ys);
    var b := Views(xs) + Views(ys);
    forall i | 0 <= i < |a|
      ensures a[i] == b[i]
    {
      if i < |xs| {
        assert (xs + ys)[i] == xs[i];
      } else {
        assert (xs + ys)[i] == ys[i - |xs|];
      }
    }
  }

  lemma ViewsSplit(ms: seq<Marker>, k: nat)
    requires k <= |ms|
    ensures Views(ms[..k]) == Views(ms)[..k] && Views(ms[k..]) == Views(ms)[k..]
  {
    ViewsAppend(ms[..k], ms[k..]);
    assert ms[..k] + ms[k..] == ms;
  }

  lemma ViewsInsert(ms: seq<Marker>, k: nat, m: Marker)
    requires k <= |ms|
    ensures Views(ms[..k] + [m] + ms[k..]) == Views(ms)[..k] + [m.View()] + Views(ms)[k..]
  {
    ViewsSplit(ms, k);
    var front := ms[..k] + [m];
    ViewsAppend(front, ms[k..]);
    ViewsAppend(ms[..k], [m]);
  }

  lemma ViewsRemove(ms: seq<Marker>, k: nat)
    requires k < |ms|
    ensures Views(ms[..k] + ms[k + 1..]) == Views(ms)[..k] + Views(ms)[k + 1..]
  {
    ViewsSplit(ms, k);
    ViewsSplit(ms, k + 1);
    ViewsAppend(ms[..k], ms[k + 1..]);
  }

  /** Removing a marker keeps the list sorted and laid out. */
  lemma RemovedValid(vs: seq<MarkerView>, i: nat, barHeight: int, barWidth: int, pSize: real)
    requires i < |vs| && PositionsSorted(vs) && Consistent(vs, barHeight, barWidth, pSize)
    ensures PositionsSorted(vs[..i] + vs[i + 1..]) && Consistent(vs[..i] + vs[i + 1..], barHeight, barWidth, pSize)
  {
    RemoveKeepsSorted(vs, i);
    var ws := vs[..i] + vs[i + 1..];
    assert forall a :: 0 <= a < |ws| ==> ws[a] == vs[if a < i then a else a + 1];
  }

  /** Inserting a laid-out marker at its insertion index keeps the list sorted and laid out. */
  lemma InsertedValid(vs: seq<MarkerView>, v: MarkerView, barHeight: int, barWidth: int, pSize: real)
    requires PositionsSorted(vs) && Consistent(vs, barHeight, barWidth, pSize)
    requires v == Generated(v.position, barHeight, barWidth, pSize)
    ensures var k := InsertionIndex(vs, v.position);
            PositionsSorted(vs[..k] + [v] + vs[k..]) && Consistent(vs[..k] + [v] + vs[k..], barHeight, barWidth, pSize)
  {
    InsertKeepsSorted(vs, v);
    var k := InsertionIndex(vs, v.position);
    var ws := vs[..k] + [v] + vs[k..];
    forall a | 0 <= a < |ws|
      ensures ws[a] == Generated(ws[a].position, barHeight, barWidth, pSize)
    {
      if a < k {
        assert ws[a] == vs[a];
      } else if a > k {
        assert ws[a] == vs[a - 1];
      }
    }
  }

  /** The insertion index is the only index with earlier markers before and the next at or after. */
  lemma InsertionIndexUnique(vs: seq<MarkerView>, position: real, i: nat)
    requires i <= |vs|
    requires forall j :: 0 <= j < i ==> vs[j].position < position
    requires i < |vs| ==> position <= vs[i].position
    ensures InsertionIndex(vs, position) == i
  {
  }

  /**
   * Shifts the rows of the display's character image for a scroll of
   * `lines` (positive: content moves up) over the given region; the image has
   * `columns` cells per row. Nothing changes when there is no image or
   * ScrollPlan says nothing moves.
   */
  method ScrollImage<T>(image: array?<T>, columns: int, lines: int,
                        regionLeft: int, regionTop: int, regionRight: int, regionBottom: int,
                        displayLines: int, scrollRectOk: bool)
    requires image != null ==>
               MoveInBounds(ScrollPlan(lines, regionLeft, regionTop, regionRight, regionBottom, displayLines, scrollRectOk),
                            columns, image.Length)
    modifies image
    ensures image != null ==>
              match ScrollPlan(lines, regionLeft, regionTop, regionRight, regionBottom, displayLines, scrollRectOk)
              case None => image[..] == old(image[..])
              case Some((src, dst, count)) =>
                image[..] == Moved(old(image[..]), src * columns, dst * columns, count * columns)
  {
    if lines == 0 || image == null {
      return;
    }
    var bottom := Min(regionBottom, displayLines - 2);
    if !(regionLeft <= regionRight && regionTop <= bottom) || regionTop + Abs(lines) >= bottom
       || displayLines <= bottom {
      return;
    }
    var linesToMove := bottom - regionTop + 1 - Abs(lines);
    if !scrollRectOk {
      return;
    }
    var firstCharPos := regionTop * columns;
    var lastCharPos := (regionTop + Abs(lines)) * columns;
    var cellsToMove := linesToMove * columns;
    ghost var plan := ScrollPlan(lines, regionLeft, regionTop, regionRight, regionBottom, displayLines, scrollRectOk);
    ghost var (src, dst, count) := plan.value;
    MoveBounds(src, dst, count, columns, image.Length);
    if lines > 0 {
      Move(image, lastCharPos, firstCharPos, cellsToMove);
    } else {
      Move(image, firstCharPos, lastCharPos, cellsToMove);
    }
  }
}
