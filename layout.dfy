/** The responsive layout of the player window: every rectangle is derived
    from the window size alone and recomputed from scratch on each resize. */
module LayoutEngine {
  import opened CArith
  import opened Geometry

  // Layout constants of the control bar.
  const MarginX := 100      // distance of the time labels from the window sides
  const TimeW := 80         // time label width
  const TimeH := 24         // time label height
  const Gap := 12           // padding between the progress track and the duration label
  const CenterOffset := 45  // centre line of labels and track, below the control bar's top
  const TrackH := 12        // progress track height
  const BtnSize := 64       // transport buttons are squares of this side
  const Spacing := 80       // from the window midpoint to the next button's left edge
  const BtnOffset := 85     // transport buttons' top, below the control bar's top

  /** The named rectangles the player draws and hit-tests. */
  datatype Layout = Layout(
    content: Rect,
    control: Rect,
    currentTime: Rect,
    durationTime: Rect,
    progressBg: Rect,
    progressFill: Rect,
    prevBtn: Rect,
    playBtn: Rect,
    nextBtn: Rect)

  /** The layout of a window `width` x `height` pixels. The two float
      products of the source (`height * 0.75f`, `track.w * 0.4f`) are
      truncated toward zero on conversion to int, which is what TruncDiv
      computes on exact rationals. */
  function ComputeLayout(width: int, height: int): (l: Layout)
    // content on top, control bar below it; together they fill the window
    ensures l.content.x == 0 && l.content.y == 0 && l.content.w == width
    ensures l.control.x == 0 && l.control.w == width
    ensures l.control.y == l.content.y + l.content.h
    ensures l.content.h + l.control.h == height
    // the content area is the top 75 %, rounded down
    ensures 0 <= height ==> 0 <= 4 * l.content.h <= 3 * height < 4 * l.content.h + 4
    ensures 0 <= height ==> 0 <= l.control.h
    // both time labels and the track are centred on one line 45 px into the bar
    ensures l.currentTime.w == l.durationTime.w == TimeW
    ensures l.currentTime.h == l.durationTime.h == TimeH && l.progressBg.h == TrackH
    ensures 2 * l.currentTime.y + l.currentTime.h == 2 * (l.control.y + CenterOffset)
    ensures 2 * l.durationTime.y + l.durationTime.h == 2 * (l.control.y + CenterOffset)
    ensures 2 * l.progressBg.y + l.progressBg.h == 2 * (l.control.y + CenterOffset)
    // labels anchored at the same margin from the left and the right side
    ensures l.currentTime.x == MarginX
    ensures l.durationTime.x + l.durationTime.w == width - MarginX
    // the track starts at the current label's right edge, ends 2 gaps before the duration label
    ensures l.progressBg.x == l.currentTime.x + l.currentTime.w
    ensures l.progressBg.x + l.progressBg.w + 2 * Gap == l.durationTime.x
    ensures 0 <= l.progressBg.w <==> 384 <= width
    // the fill is the track with 40 % of its width, rounded toward zero
    ensures l.progressFill.x == l.progressBg.x && l.progressFill.y == l.progressBg.y
    ensures l.progressFill.h == l.progressBg.h
    ensures 0 <= l.progressBg.w ==> 0 <= l.progressFill.w <= l.progressBg.w
    ensures 0 <= l.progressBg.w ==>
              5 * l.progressFill.w <= 2 * l.progressBg.w < 5 * l.progressFill.w + 5
    ensures l.progressBg.w < 0 ==> l.progressBg.w <= l.progressFill.w <= 0
    // three 64 px squares on one row, 85 px into the bar
    ensures l.prevBtn.w == l.prevBtn.h == l.playBtn.w == l.playBtn.h == BtnSize
    ensures l.nextBtn.w == l.nextBtn.h == BtnSize
    ensures l.prevBtn.y == l.playBtn.y == l.nextBtn.y == l.control.y + BtnOffset
    // left to right prev, play, next, with gaps between their closed x-ranges
    ensures l.prevBtn.x + l.prevBtn.w < l.playBtn.x && l.playBtn.x + l.playBtn.w < l.nextBtn.x
    // prev and next are mirror images about the play button's centre ...
    ensures l.prevBtn.x + l.nextBtn.x == 2 * l.playBtn.x
    // next's left edge 80 px right of the midpoint, prev's right edge 80 px left of it
    ensures l.nextBtn.x == TruncDiv(width, 2) + Spacing
    ensures l.prevBtn.x + l.prevBtn.w + Spacing == TruncDiv(width, 2)
    // ... and the play button is centred on the window's horizontal midpoint
    ensures 0 <= width ==> width - 1 <= 2 * l.playBtn.x + l.playBtn.w <= width
  {
    var content := Rect(0, 0, width, TruncDiv(3 * height, 4));
    var control := Rect(0, content.h, width, height - content.h);
    var barCenterY := control.y + CenterOffset;
    var currentTime := Rect(MarginX, barCenterY - TimeH / 2, TimeW, TimeH);
    var durationTime := Rect(width - MarginX - TimeW, barCenterY - TimeH / 2, TimeW, TimeH);
    var track := Rect(
      currentTime.x + currentTime.w,
      barCenterY - 6,
      durationTime.x - (currentTime.x + currentTime.w + Gap) - Gap,
      TrackH);
    var fill := track.(w := TruncDiv(2 * track.w, 5));
    var centerX := TruncDiv(width, 2);
    var btnY := control.y + BtnOffset;
    Layout(
      content, control, currentTime, durationTime, track, fill,
      Rect(centerX - BtnSize - Spacing, btnY, BtnSize, BtnSize),
      Rect(centerX - BtnSize / 2, btnY, BtnSize, BtnSize),
      Rect(centerX + Spacing, btnY, BtnSize, BtnSize))
  }

  /** Whether a press at (x, y) hits one of the three transport buttons. */
  predicate OnAnyButton(l: Layout, x: int, y: int)
  {
    IsInside(l.prevBtn, x, y) || IsInside(l.playBtn, x, y) || IsInside(l.nextBtn, x, y)
  }

  /** No point of the window lies on two transport buttons, whatever the
      window size: the click handler's three independent tests never fire
      together. */
  lemma ButtonsDisjoint(width: int, height: int, x: int, y: int)
    ensures var l := ComputeLayout(width, height);
      !(IsInside(l.prevBtn, x, y) && IsInside(l.playBtn, x, y)) &&
      !(IsInside(l.playBtn, x, y) && IsInside(l.nextBtn, x, y)) &&
      !(IsInside(l.prevBtn, x, y) && IsInside(l.nextBtn, x, y))
  {
  }

  /** The start-up window of 1280 x 720. */
  lemma DefaultLayout()
    ensures var l := ComputeLayout(1280, 720);
      l.content == Rect(0, 0, 1280, 540) && l.control == Rect(0, 540, 1280, 180) &&
      l.currentTime == Rect(100, 573, 80, 24) && l.durationTime == Rect(1100, 573, 80, 24) &&
      l.progressBg == Rect(180, 579, 896, 12) && l.progressFill == Rect(180, 579, 358, 12) &&
      l.prevBtn == Rect(496, 625, 64, 64) && l.playBtn == Rect(608, 625, 64, 64) &&
      l.nextBtn == Rect(720, 625, 64, 64)
  {
  }

  /** A resize to 800 x 600 yields a layout different from the start-up one. */
  lemma ResizeChangesLayout()
    ensures ComputeLayout(800, 600) != ComputeLayout(1280, 720)
    ensures ComputeLayout(800, 600).content == Rect(0, 0, 800, 450)
    ensures ComputeLayout(800, 600).playBtn == Rect(368, 535, 64, 64)
  {
  }

  /** The window size and the rectangles derived from it. */
  class Screen {
    var width: int
    var height: int
    var layout: Layout

    /** Every rectangle belongs to the current window size: none is stale. */
    ghost predicate Valid()
      reads this
    {
      layout == ComputeLayout(width, height)
    }

    /** Start-up: a 1280 x 720 window whose layout is then computed. */
    constructor ()
      ensures Valid()
      ensures width == 1280 && height == 720
    {
      width, height := 1280, 720;
      layout := ComputeLayout(1280, 720);
    }

    /** A window-resized event: store the new size, recompute every rectangle. */
    method Resize(newWidth: int, newHeight: int)
      modifies this
      ensures Valid()
      ensures width == newWidth && height == newHeight
      ensures layout == ComputeLayout(newWidth, newHeight)
    {
      width := newWidth;
      height := newHeight;
      layout := ComputeLayout(width, height);
    }
  }
}
