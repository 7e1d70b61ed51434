/**
 * The screen geometry of the e-paper firmware (DisplayManager.cpp): where each layout
 * puts the three status boxes, and the byte-aligned window a partial refresh of one box
 * redraws. Only the integer arithmetic is modelled; drawing, fonts and the panel are not.
 */
module Display {
  import opened Common

  datatype LayoutType = Display1 | Display2 | Display3

  /** `struct Rect { int x, y, w, h; }`. */
  datatype Rect = Rect(x: int, y: int, w: int, h: int)

  const ZeroRect := Rect(0, 0, 0, 0)

  /** The partial window handed to the panel: origin and extent. */
  datatype Window = Window(x: int, y: int, w: int, h: int)

  // Geometry constants of the class.
  const W := 800
  const H := 480
  const RailW := 120
  const ContentPad := 20
  const StatusRectCount := 3

  // Vertical band the row layouts share.
  const TopY := 5
  const BottomY := H - 5

  // The single box of Display1.
  const SingleStatusW := 560
  const SingleStatusH := 100

  function Min(a: int, b: int): int { if a <= b then a else b }
  function Max(a: int, b: int): int { if a >= b then a else b }

  /** Euclidean division of a non-negative number: the quotient brackets the dividend. */
  lemma DivBounds(a: int, b: int)
    requires a >= 0 && b > 0
    ensures 0 <= a / b && (a / b) * b <= a < (a / b) * b + b
  {
  }

  /** C++ `/` on `int`: the quotient truncated toward zero. */
  function CDiv(a: int, b: int): (q: int)
    requires b > 0
    ensures a >= 0 ==> 0 <= q && q * b <= a < q * b + b
    ensures a < 0 ==> q <= 0 && q * b - b < a <= q * b
  {
    if a >= 0 then DivBounds(a, b); a / b
    else DivBounds(-a, b); -((-a) / b)
  }

  /** `x & ~7` in two's complement: the largest multiple of 8 not above `x`. */
  function ClearLow3(x: int): (r: int)
    ensures r % 8 == 0 && x - 8 < r <= x
  {
    x - x % 8
  }

  /** The smallest multiple of 8 not below `v`. */
  function AlignUp8(v: int): (a: int)
    ensures a % 8 == 0 && v <= a < v + 8
  {
    v + (8 - v % 8) % 8
  }

  /** Two multiples of 8 less than 8 apart are equal. */
  lemma MultiplesOf8Unique(a: int, b: int)
    requires a % 8 == 0 && b % 8 == 0 && a <= b < a + 8
    ensures a == b
  {
    var qa, qb := a / 8, b / 8;
    assert a == 8 * qa && b == 8 * qb;
  }

  /** `(v + 7) & ~7` rounds `v` up to a multiple of 8. */
  lemma MaskRoundsUp(v: int)
    ensures ClearLow3(v + 7) == AlignUp8(v)
  {
    var m, a := ClearLow3(v + 7), AlignUp8(v);
    if m <= a {
      MultiplesOf8Unique(m, a);
    } else {
      MultiplesOf8Unique(a, m);
    }
  }

  // ------------------------------------------------------------------
  // Layout geometry
  // ------------------------------------------------------------------

  /** The distances, in one row, from the row top to the role baseline, to the name baseline, to the status box. */
  datatype RowOffsets = RowOffsets(role: int, name: int, status: int)

  const Draw2Offsets := RowOffsets(20, 38, 30)
  const Draw3Offsets := RowOffsets(18, 36, 24)
  /** `primeLayout` places the Display3 boxes 14 below the name baseline where `draw3` uses 24. */
  const Prime3Offsets := RowOffsets(18, 36, 14)

  /** `min(60, max(34, y1 - statusTop - 6))`: the gap to the row's end, clamped to [34, 60]. */
  function StatusHeight(statusTop: int, y1: int): (h: int)
    ensures 34 <= h <= 60
    ensures 34 <= y1 - statusTop - 6 <= 60 ==> h == y1 - statusTop - 6
    ensures y1 - statusTop - 6 > 60 ==> h == 60
    ensures y1 - statusTop - 6 < 34 ==> h == 34
  {
    Min(60, Max(34, y1 - statusTop - 6))
  }

  /** The status box of row `i` when the content band is split into `rows` equal rows. */
  function RowRect(rows: int, i: int, off: RowOffsets, contentX: int, contentW: int): (r: Rect)
    requires rows > 0
    ensures r.x == contentX + ContentPad && r.w == contentW - 2 * ContentPad
    ensures 34 <= r.h <= 60
  {
    var rowH := CDiv(BottomY - TopY, rows);
    var y0 := TopY + i * rowH;
    var y1 := y0 + rowH;
    var statusTop := y0 + off.role + off.name + off.status;
    Rect(contentX + ContentPad, statusTop, contentW - 2 * ContentPad, StatusHeight(statusTop, y1))
  }

  /** The one status box of Display1, centred in the content band. */
  function SingleRect(contentX: int, contentW: int): (r: Rect)
    ensures r.w == SingleStatusW && r.h == SingleStatusH && r.y == 270
  {
    Rect(contentX + CDiv(contentW - SingleStatusW, 2), 320 - CDiv(SingleStatusH, 2), SingleStatusW, SingleStatusH)
  }

  /** The content band both `drawLayout` and `primeLayout` set up. */
  const StdContentX := RailW + 1
  const StdContentW := W - StdContentX - 2

  /** The boxes of the standard band, as numbers. */
  lemma StandardGeometry(i: int)
    requires 0 <= i < 3
    ensures StdContentX == 121 && StdContentW == 677
    ensures SingleRect(StdContentX, StdContentW) == Rect(179, 270, 560, 100)
    ensures i < 2 ==> RowRect(2, i, Draw2Offsets, StdContentX, StdContentW) == Rect(141, 93 + 235 * i, 637, 60)
    ensures RowRect(3, i, Draw3Offsets, StdContentX, StdContentW) == Rect(141, 83 + 156 * i, 637, 60)
    ensures RowRect(3, i, Prime3Offsets, StdContentX, StdContentW) == Rect(141, 73 + 156 * i, 637, 60)
  {
    assert CDiv(BottomY - TopY, 2) == 235;
    assert CDiv(BottomY - TopY, 3) == 156;
    assert CDiv(StdContentW - SingleStatusW, 2) == 58;
  }

  /**
   * For Display3 the primed boxes are not the drawn ones: each sits 10 pixels higher,
   * with the same left edge, width and height.
   */
  lemma Display3PrimeDiffersFromDraw(i: int, contentX: int, contentW: int)
    requires 0 <= i < 3
    ensures var p, d := RowRect(3, i, Prime3Offsets, contentX, contentW), RowRect(3, i, Draw3Offsets, contentX, contentW);
      p.y == d.y - 10 && p.x == d.x && p.w == d.w && p.h == d.h && p != d
  {
    assert CDiv(BottomY - TopY, 3) == 156;
  }

  /** A box lying inside a screen of the given size. */
  predicate OnScreen(r: Rect, dispW: int, dispH: int) {
    0 < r.w && 0 < r.h && 0 <= r.x && r.x + r.w <= dispW && 0 <= r.y && r.y + r.h <= dispH
  }

  /** Every box the standard layouts record lies on the 800 x 480 panel. */
  lemma StandardRectsOnScreen(i: int)
    requires 0 <= i < 3
    ensures OnScreen(SingleRect(StdContentX, StdContentW), W, H)
    ensures i < 2 ==> OnScreen(RowRect(2, i, Draw2Offsets, StdContentX, StdContentW), W, H)
    ensures OnScreen(RowRect(3, i, Draw3Offsets, StdContentX, StdContentW), W, H)
    ensures OnScreen(RowRect(3, i, Prime3Offsets, StdContentX, StdContentW), W, H)
  {
    StandardGeometry(i);
  }

  // ------------------------------------------------------------------
  // The partial-refresh window of showStatusPartial
  // ------------------------------------------------------------------

  /**
   * The window around box `r` on a `dispW` x `dispH` panel: 8 pixels to each side with
   * both horizontal edges on multiples of 8, 2 above and 10 below, clipped to the panel;
   * `None` when the box or the clipped window is empty.
   */
  function PartialWindow(r: Rect, dispW: int, dispH: int): (win: Option<Window>)
    ensures r.w <= 0 || r.h <= 0 ==> win.None?
    ensures win.Some? ==> var v := win.value;
      && v.w > 0 && v.h > 0
      && (r.x - 8 < 0 ==> v.x == 0)
      && (r.x - 8 >= 0 ==> v.x % 8 == 0 && r.x - 16 < v.x <= r.x - 8)
      && v.x + v.w == Min(dispW, AlignUp8(r.x + r.w + 8))
      && v.y == Max(0, r.y - 2) && v.y + v.h == Min(dispH, r.y + r.h + 10)
    ensures win.Some? ==> var v := win.value;
      0 <= v.x && v.x + v.w <= dispW && 0 <= v.y && v.y + v.h <= dispH
  {
    if r.w <= 0 || r.h <= 0 then None
    else
      var ax := if r.x - 8 < 0 then 0 else ClearLow3(r.x - 8);
      var axEnd := Min(dispW, ClearLow3(r.x + r.w + 8 + 7));
      var ay := Max(0, r.y - 2);
      var ayEnd := Min(dispH, r.y + r.h + 10);
      MaskRoundsUp(r.x + r.w + 8);
      if axEnd - ax <= 0 || ayEnd - ay <= 0 then None
      else Some(Window(ax, ay, axEnd - ax, ayEnd - ay))
  }

  /** For a box on the panel the window exists and covers the whole box. */
  lemma WindowCoversRect(r: Rect, dispW: int, dispH: int)
    requires OnScreen(r, dispW, dispH)
    ensures PartialWindow(r, dispW, dispH).Some?
    ensures var v := PartialWindow(r, dispW, dispH).value;
      v.x <= r.x && r.x + r.w <= v.x + v.w && v.y <= r.y && r.y + r.h <= v.y + v.h
  {
    MaskRoundsUp(r.x + r.w + 8);
  }

  /** The window is empty exactly when the box is, or when clipping leaves nothing of it. */
  lemma WindowEmptyIff(r: Rect, dispW: int, dispH: int)
    ensures PartialWindow(r, dispW, dispH).None? <==>
      || r.w <= 0 || r.h <= 0
      || Min(dispW, AlignUp8(r.x + r.w + 8)) <= (if r.x - 8 < 0 then 0 else ClearLow3(r.x - 8))
      || Min(dispH, r.y + r.h + 10) <= Max(0, r.y - 2)
  {
    MaskRoundsUp(r.x + r.w + 8);
  }

  // ------------------------------------------------------------------
  // The manager
  // ------------------------------------------------------------------

  class DisplayManager {
    /** `Rect statusRects[3]`. */
    const statusRects: array<Rect>
    var contentX: int
    var contentW: int

    predicate Valid()
      reads this
    {
      statusRects.Length == StatusRectCount
    }

    /** A fresh manager: all boxes and the content band are zero. */
    constructor ()
      ensures Valid() && fresh(statusRects)
      ensures forall i :: 0 <= i < StatusRectCount ==> statusRects[i] == ZeroRect
      ensures contentX == 0 && contentW == 0
    {
      statusRects := new Rect[StatusRectCount](_ => ZeroRect);
      contentX, contentW := 0, 0;
    }

    /** `contentX = railW + 1; contentW = W - contentX - 2;`. */
    method SetContentBand()
      modifies this
      ensures contentX == StdContentX && contentW == StdContentW
    {
      contentX := RailW + 1;
      contentW := W - contentX - 2;
    }

    /** `draw1` (and its twin in `primeLayout`): only box 0 is written. */
    method RecordSingle()
      requires Valid()
      modifies statusRects
      ensures statusRects[0] == SingleRect(contentX, contentW)
      ensures forall i :: 1 <= i < StatusRectCount ==> statusRects[i] == old(statusRects[i])
    {
      var sx := contentX + CDiv(contentW - SingleStatusW, 2);
      var sy := 320 - CDiv(SingleStatusH, 2);
      statusRects[0] := Rect(sx, sy, SingleStatusW, SingleStatusH);
    }

    /**
     * The row loop of `draw2`, `draw3` and `primeLayout`: box `i` of each of the first
     * `rows` rows is written, the others keep their value.
     */
    method RecordRows(rows: int, off: RowOffsets)
      requires Valid() && 0 < rows <= StatusRectCount
      modifies statusRects
      ensures forall i :: 0 <= i < rows ==> statusRects[i] == RowRect(rows, i, off, contentX, contentW)
      ensures forall i :: rows <= i < StatusRectCount ==> statusRects[i] == old(statusRects[i])
    {
      var left := contentX + ContentPad;
      var rowH := CDiv(BottomY - TopY, rows);
      for i := 0 to rows
        invariant forall j :: 0 <= j < i ==> statusRects[j] == RowRect(rows, j, off, contentX, contentW)
        invariant forall j :: i <= j < StatusRectCount ==> statusRects[j] == old(statusRects[j])
      {
        var y0 := TopY + i * rowH;
        var y1 := y0 + rowH;
        var roleBaseY := y0 + off.role;
        var nameBaseY := roleBaseY + off.name;
        var statusTop := nameBaseY + off.status;
        var statusH := Min(60, Max(34, y1 - statusTop - 6));
        statusRects[i] := Rect(left, statusTop, contentW - 2 * ContentPad, statusH);
      }
    }

    /**
     * The geometry `drawLayout` records: the standard band, then the layout's boxes.
     * Boxes a layout does not use keep their previous value.
     */
    method DrawLayout(layout: LayoutType)
      requires Valid()
      modifies this, statusRects
      ensures contentX == StdContentX && contentW == StdContentW
      ensures layout == Display1 ==>
        && statusRects[0] == SingleRect(StdContentX, StdContentW)
        && statusRects[1] == old(statusRects[1]) && statusRects[2] == old(statusRects[2])
      ensures layout == Display2 ==>
        && (forall i :: 0 <= i < 2 ==> statusRects[i] == RowRect(2, i, Draw2Offsets, StdContentX, StdContentW))
        && statusRects[2] == old(statusRects[2])
      ensures layout == Display3 ==>
        forall i :: 0 <= i < 3 ==> statusRects[i] == RowRect(3, i, Draw3Offsets, StdContentX, StdContentW)
    {
      SetContentBand();
      match layout
      case Display1 => RecordSingle();
      case Display2 => RecordRows(2, Draw2Offsets);
      case Display3 => RecordRows(3, Draw3Offsets);
    }

    /**
     * `primeLayout`: the standard band, all three boxes zeroed, then the layout's boxes.
     * Display1 and Display2 get the boxes `drawLayout` records; Display3 gets boxes 10
     * pixels higher than `draw3`'s.
     */
    method PrimeLayout(layout: LayoutType)
      requires Valid()
      modifies this, statusRects
      ensures contentX == StdContentX && contentW == StdContentW
      ensures layout == Display1 ==>
        statusRects[0] == SingleRect(StdContentX, StdContentW) && statusRects[1] == ZeroRect && statusRects[2] == ZeroRect
      ensures layout == Display2 ==>
        && (forall i :: 0 <= i < 2 ==> statusRects[i] == RowRect(2, i, Draw2Offsets, StdContentX, StdContentW))
        && statusRects[2] == ZeroRect
      ensures layout == Display3 ==>
        forall i :: 0 <= i < 3 ==> statusRects[i] == RowRect(3, i, Prime3Offsets, StdContentX, StdContentW)
    {
      SetContentBand();
      statusRects[0] := ZeroRect;
      statusRects[1] := ZeroRect;
      statusRects[2] := ZeroRect;
      match layout
      case Display1 => RecordSingle();
      case Display2 => RecordRows(2, Draw2Offsets);
      case Display3 => RecordRows(3, Prime3Offsets);
    }

    /**
     * The window arithmetic of `showStatusPartial(idx, ...)` on a panel reporting
     * `dispW` x `dispH`: `None` where the method returns without drawing.
     */
    method StatusWindow(idx: int, dispW: int, dispH: int) returns (win: Option<Window>)
      requires Valid()
      ensures !(0 <= idx < StatusRectCount) ==> win.None?
      ensures 0 <= idx < StatusRectCount ==> win == PartialWindow(statusRects[idx], dispW, dispH)
    {
      if idx < 0 || idx >= StatusRectCount {
        return None;
      }
      var r := statusRects[idx];
      if r.w <= 0 || r.h <= 0 {
        return None;
      }
      var mTop, mSide, mBottom := 2, 8, 10;
      var ax := if r.x - mSide < 0 then 0 else ClearLow3(r.x - mSide);
      var axEnd := ClearLow3(r.x + r.w + mSide + 7);
      if axEnd > dispW {
        axEnd := dispW;
      }
      var ay := Max(0, r.y - mTop);
      var ayEnd := Min(dispH, r.y + r.h + mBottom);
      var aw := axEnd - ax;
      var ah := ayEnd - ay;
      if aw <= 0 || ah <= 0 {
        return None;
      }
      win := Some(Window(ax, ay, aw, ah));
    }

    /** After either layout call, a partial refresh of any used box redraws a window covering it. */
    method PrimedWindowCovers(layout: LayoutType, idx: int) returns (win: Option<Window>)
      requires Valid() && 0 <= idx < StatusRectCount
      requires layout == Display1 ==> idx == 0
      requires layout == Display2 ==> idx < 2
      modifies this, statusRects
      ensures win.Some?
      ensures var r := statusRects[idx]; var v := win.value;
        v.x <= r.x && r.x + r.w <= v.x + v.w && v.y <= r.y && r.y + r.h <= v.y + v.h
    {
      PrimeLayout(layout);
      StandardRectsOnScreen(idx);
      WindowCoversRect(statusRects[idx], W, H);
      win := StatusWindow(idx, W, H);
    }
  }
}
