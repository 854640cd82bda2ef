// RedXe/DockPlacement.h: rectangles along a screen edge, and the bar's thickness in DIPs and in pixels.
module DockGeometry {
  import opened Basics

  datatype Edge = NoEdge | Top | Bottom | Left | Right
  datatype Point = Point(x: int, y: int)

  const MINIMUM_DIPS: nat := 32
  const MAXIMUM_DIPS: nat := 1080
  const DEFAULT_DIPS: nat := 180
  const DESIGN_LONG_SIDE: nat := 2560
  const DESIGN_SHORT_SIDE: nat := 720
  const STANDARD_DPI: nat := 96

  predicate Horizontal(edge: Edge) { edge == Top || edge == Bottom }

  function Cross(r: Rect, edge: Edge): (result: int) {
    if Horizontal(edge) then r.bottom - r.top else r.right - r.left
  }

  function Along(r: Rect, edge: Edge): (result: int) {
    if Horizontal(edge) then r.right - r.left else r.bottom - r.top
  }

  /** DockTrimToThickness, and DockHiddenRect with the peek for a thickness. */
  function Trimmed(r: Rect, edge: Edge, px: int): (result: Rect) {
    match edge
    case Top => r.(bottom := r.top + px)
    case Bottom => r.(top := r.bottom - px)
    case Left => r.(right := r.left + px)
    case Right => r.(left := r.right - px)
    case NoEdge => r
  }

  function OuterEdge(r: Rect, edge: Edge): (result: int) {
    match edge
    case Top => r.top
    case Bottom => r.bottom
    case Left => r.left
    case Right => r.right
    case NoEdge => 0
  }

  function InnerEdge(r: Rect, edge: Edge): (result: int) {
    match edge
    case Top => r.bottom
    case Bottom => r.top
    case Left => r.right
    case Right => r.left
    case NoEdge => 0
  }

  /** Trimming sets the depth, keeps the outer edge and the span along the edge, and forgets the depth there was. */
  lemma TrimSetsDepth(r: Rect, edge: Edge, px: int, again: int)
    requires edge != NoEdge
    ensures Cross(Trimmed(r, edge, px), edge) == px
    ensures OuterEdge(Trimmed(r, edge, px), edge) == OuterEdge(r, edge)
    ensures Along(Trimmed(r, edge, px), edge) == Along(r, edge)
    ensures Trimmed(Trimmed(r, edge, px), edge, again) == Trimmed(r, edge, again)
    ensures Trimmed(r, edge, Cross(r, edge)) == r
  {
  }

  /** The strip an autohide bar reserves is exactly the window of the collapsed bar grown from it. */
  lemma CollapsedWindowIsTheReservation(reserved: Rect, edge: Edge, thickness: int)
    requires edge != NoEdge
    ensures Trimmed(Trimmed(reserved, edge, thickness), edge, Cross(reserved, edge)) == reserved
  {
  }

  // ---------------------------------------------------------------------------------------------------------------
  // DIPs and pixels

  function Nearest(n: nat, c: int): (q: int)
    requires c > 0
    ensures 2 * (q * c - n) <= c && 2 * (n - q * c) <= c
  {
    var q := (n + c / 2) / c;
    assert n + c / 2 == q * c + (n + c / 2) % c;
    q
  }

  /** MulDiv: the product over the divisor, rounded to nearest, halves away from zero. */
  function MulDiv(a: int, b: int, c: int): (r: int)
    requires c > 0
  {
    var product := a * b;
    if product >= 0 then Nearest(product, c) else -Nearest(-product, c)
  }

  function ScaleDpi(dpi: nat): (r: nat)
    ensures r > 0
  {
    if dpi == 0 then STANDARD_DPI else dpi
  }

  function AtLeastOne(n: int): (r: nat) { if n < 1 then 1 else n }

  function Clamped(n: int, low: int, high: int): (r: int)
    requires low <= high
    ensures low <= r <= high
  {
    if n < low then low else if n > high then high else n
  }

  function ThicknessPixels(dips: nat, dpi: nat): (px: nat)
    ensures px >= 1
  {
    AtLeastOne(MulDiv(dips, ScaleDpi(dpi), STANDARD_DPI))
  }

  /** Half of the monitor across the edge, the most a bar may take. */
  function HalfMonitor(monitor: Rect, edge: Edge): (limit: nat)
    ensures limit >= 1
  {
    if Cross(monitor, edge) > 1 then Cross(monitor, edge) / 2 else 1
  }

  predicate TooThick(px: int, monitor: Rect, edge: Edge) { px > HalfMonitor(monitor, edge) }

  function ClampedThickness(px: int, monitor: Rect, edge: Edge): (r: nat)
    ensures 1 <= r <= HalfMonitor(monitor, edge)
  {
    if TooThick(px, monitor, edge) then HalfMonitor(monitor, edge) else AtLeastOne(px)
  }

  function DipsFor(px: int, dpi: nat): (r: int) { MulDiv(px, STANDARD_DPI, ScaleDpi(dpi)) }

  function SettingsDips(dips: int): (r: nat)
    ensures MINIMUM_DIPS <= r <= MAXIMUM_DIPS
  {
    Clamped(dips, MINIMUM_DIPS, MAXIMUM_DIPS)
  }

  /** How far inside the outer edge a point is. */
  function DragDepth(full: Rect, edge: Edge, point: Point): (r: int) {
    match edge
    case Top => point.y - full.top
    case Bottom => full.bottom - point.y
    case Left => point.x - full.left
    case Right => full.right - point.x
    case NoEdge => 0
  }

  /** DockThicknessFromDrag. */
  function ThicknessFromDrag(full: Rect, monitor: Rect, edge: Edge, point: Point, dpi: nat): (r: nat) {
    if edge == NoEdge then DEFAULT_DIPS
    else SettingsDips(DipsFor(ClampedThickness(AtLeastOne(DragDepth(full, edge, point)), monitor, edge), dpi))
  }

  /** DockFirstRunThicknessDips. */
  function FirstRunPixels(monitor: Rect, work: Rect, edge: Edge): (r: nat) {
    ClampedThickness(AtLeastOne(MulDiv(Along(work, edge), DESIGN_SHORT_SIDE, DESIGN_LONG_SIDE)), monitor, edge)
  }

  function FirstRunDips(monitor: Rect, work: Rect, edge: Edge, dpi: nat): (r: nat)
    ensures MINIMUM_DIPS <= r <= MAXIMUM_DIPS
  {
    SettingsDips(FirstRunPixels(monitor, work, edge) * STANDARD_DPI / ScaleDpi(dpi))
  }

  // ---------------------------------------------------------------------------------------------------------------
  // The round trip

  lemma PixelsNear(dips: nat, dpi: nat)
    requires dips >= MINIMUM_DIPS && dpi >= STANDARD_DPI
    ensures var px := ThicknessPixels(dips, dpi); dips * dpi - 48 < 96 * px <= dips * dpi + 48
  {
    assert dips * dpi >= 32 * 96 by {
      assert (dips - 32) * dpi >= 0;
    }
    var n := dips * dpi + 48;
    assert n == n / 96 * 96 + n % 96;
  }

  /** From DPI 96 on, the pixels of a thickness give the same DIPs back. */
  lemma PixelsGiveDipsBack(dips: nat, dpi: nat)
    requires dips >= MINIMUM_DIPS && (dpi >= STANDARD_DPI || dpi == 0)
    ensures DipsFor(ThicknessPixels(dips, dpi), dpi) == dips
  {
    var scale := ScaleDpi(dpi);
    PixelsNear(dips, scale);
    var px := ThicknessPixels(dips, dpi);
    if scale == 96 {
      assert px == dips by {
        QuotientIs(dips * 96 + 48, 96, dips);
      }
      QuotientIs(px * 96 + 48, 96, dips);
    } else {
      QuotientIs(px * 96 + scale / 2, scale, dips);
    }
  }

  ghost predicate GivesBack(dips: nat, dpi: nat) {
    SettingsDips(DipsFor(ThicknessPixels(dips, dpi), dpi)) == dips
  }

  ghost predicate InSettings(dips: nat) { MINIMUM_DIPS <= dips <= MAXIMUM_DIPS }

  /** Were every thickness to have pixels of its own, each DIP would take at least one more. */
  lemma {:induction false} DistinctPixelsSpread(dips: nat, dpi: nat)
    requires 0 < dpi < STANDARD_DPI && InSettings(dips)
    requires forall d :: InSettings(d) ==> GivesBack(d, dpi)
    ensures ThicknessPixels(dips, dpi) >= ThicknessPixels(MINIMUM_DIPS, dpi) + (dips - MINIMUM_DIPS)
  {
    if dips > MINIMUM_DIPS {
      DistinctPixelsSpread(dips - 1, dpi);
      assert GivesBack(dips, dpi) && GivesBack(dips - 1, dpi);
      assert MulDiv(dips, dpi, 96) >= MulDiv(dips - 1, dpi, 96) by {
        assert dips * dpi == (dips - 1) * dpi + dpi;
      }
    }
  }

  lemma PixelsTooClose(dpi: nat)
    requires 0 < dpi < STANDARD_DPI
    ensures ThicknessPixels(MAXIMUM_DIPS, dpi) < ThicknessPixels(MINIMUM_DIPS, dpi) + (MAXIMUM_DIPS - MINIMUM_DIPS)
  {
  }

  /** At half the standard DPI, 33 DIPs are 17 pixels, and those are 34 DIPs. */
  lemma HalfDpiLosesThickness()
    ensures ThicknessPixels(33, 48) == 17 && DipsFor(17, 48) == 34 && !GivesBack(33, 48)
  {
    assert 33 * 48 == 1584 && 17 * 96 == 1632;
  }

  /** The round trip holds for every thickness of the settings range exactly from DPI 96 on (0 stands for 96). */
  lemma RoundTripsExactlyFrom96(dpi: nat)
    ensures (forall dips :: InSettings(dips) ==> GivesBack(dips, dpi)) <==> (dpi == 0 || dpi >= STANDARD_DPI)
  {
    if dpi == 0 || dpi >= STANDARD_DPI {
      forall dips | InSettings(dips)
        ensures GivesBack(dips, dpi)
      {
        PixelsGiveDipsBack(dips, dpi);
      }
    } else if forall dips :: InSettings(dips) ==> GivesBack(dips, dpi) {
      DistinctPixelsSpread(MAXIMUM_DIPS, dpi);
      PixelsTooClose(dpi);
      assert false;
    }
  }

  /** A point on the inner edge of a bar, where a drag that has not moved leaves it. */
  ghost predicate OnInnerEdge(point: Point, r: Rect, edge: Edge) {
    if Horizontal(edge) then point.y == InnerEdge(r, edge) else point.x == InnerEdge(r, edge)
  }

  /** A drag that ends where it began, on the inner edge of the placed bar, gives the thickness the bar was placed with,
      unless the monitor clamped it. */
  lemma UnmovedDragKeepsThickness(bounds: Rect, monitor: Rect, edge: Edge, dips: nat, dpi: nat, point: Point)
    requires edge != NoEdge && InSettings(dips) && (dpi == 0 || dpi >= STANDARD_DPI)
    requires !TooThick(ThicknessPixels(dips, dpi), monitor, edge)
    requires OnInnerEdge(point, Trimmed(bounds, edge, ThicknessPixels(dips, dpi)), edge)
    ensures ThicknessFromDrag(Trimmed(bounds, edge, ThicknessPixels(dips, dpi)), monitor, edge, point, dpi) == dips
  {
    PixelsGiveDipsBack(dips, dpi);
  }

  /** The thickness of a drag depends on where the pointer is, not on the previews it went through. */
  lemma DragForgetsItsPath(full: Rect, monitor: Rect, edge: Edge, preview: int, point: Point, dpi: nat)
    requires edge != NoEdge
    ensures ThicknessFromDrag(Trimmed(full, edge, preview), monitor, edge, point, dpi) ==
            ThicknessFromDrag(full, monitor, edge, point, dpi)
  {
  }

  // ---------------------------------------------------------------------------------------------------------------
  // The first run

  lemma PixelsMonotone(low: nat, high: nat, dpi: nat)
    requires low <= high
    ensures ThicknessPixels(low, dpi) <= ThicknessPixels(high, dpi)
  {
    var scale := ScaleDpi(dpi);
    assert low * scale <= high * scale by {
      assert (high - low) * scale >= 0;
    }
  }

  /** The DIPs of so many pixels, rounded down, scale to no more than those pixels. */
  lemma RoundedDownFits(px: nat, dips: nat, dpi: nat)
    requires px >= 1 && dips <= px * STANDARD_DPI / ScaleDpi(dpi)
    ensures ThicknessPixels(dips, dpi) <= px
  {
    var scale := ScaleDpi(dpi);
    var q := px * 96 / scale;
    assert px * 96 == q * scale + px * 96 % scale;
    assert dips * scale <= q * scale by {
      assert (q - dips) * scale >= 0;
    }
    assert dips * scale <= px * 96;
  }

  /** The first-run bar takes at most the pixels measured for it, unless the 32-DIP minimum forced it up; and it is
      clamped exactly where 32 DIPs are more than half of the monitor. */
  lemma FirstRunFits(monitor: Rect, work: Rect, edge: Edge, dpi: nat)
    ensures var measured := FirstRunPixels(monitor, work, edge);
            var px := ThicknessPixels(FirstRunDips(monitor, work, edge, dpi), dpi);
            (measured * STANDARD_DPI / ScaleDpi(dpi) >= MINIMUM_DIPS ==> px <= measured) &&
            (TooThick(px, monitor, edge) <==> TooThick(ThicknessPixels(MINIMUM_DIPS, dpi), monitor, edge))
  {
    var measured := FirstRunPixels(monitor, work, edge);
    var dips := FirstRunDips(monitor, work, edge, dpi);
    if measured * STANDARD_DPI / ScaleDpi(dpi) >= MINIMUM_DIPS {
      RoundedDownFits(measured, dips, dpi);
    }
    PixelsMonotone(MINIMUM_DIPS, dips, dpi);
  }

  /** Unless the monitor clamps it, the measured bar has the 2560 by 720 proportions of the pages, to the nearest pixel;
      unless the settings range moves them, its DIPs are the most whose size those pixels hold. */
  lemma FirstRunKeepsProportions(monitor: Rect, work: Rect, edge: Edge, dpi: nat)
    ensures var measured, span := FirstRunPixels(monitor, work, edge), Along(work, edge);
            1 < measured < HalfMonitor(monitor, edge) ==>
              2 * (measured * DESIGN_LONG_SIDE - span * DESIGN_SHORT_SIDE) <= DESIGN_LONG_SIDE &&
              2 * (span * DESIGN_SHORT_SIDE - measured * DESIGN_LONG_SIDE) <= DESIGN_LONG_SIDE
    ensures var measured, dips := FirstRunPixels(monitor, work, edge), FirstRunDips(monitor, work, edge, dpi);
            MINIMUM_DIPS < dips < MAXIMUM_DIPS ==>
              dips * ScaleDpi(dpi) <= measured * STANDARD_DPI < (dips + 1) * ScaleDpi(dpi)
  {
    QuotientBounds(FirstRunPixels(monitor, work, edge) * STANDARD_DPI, ScaleDpi(dpi));
    if 1 < FirstRunPixels(monitor, work, edge) < HalfMonitor(monitor, edge) {
      ProportionalPixels(monitor, work, edge);
    }
  }

  lemma QuotientBounds(n: nat, d: nat)
    requires d > 0
    ensures n / d * d <= n < (n / d + 1) * d
  {
    assert n == n / d * d + n % d;
  }

  lemma ProportionalPixels(monitor: Rect, work: Rect, edge: Edge)
    requires 1 < FirstRunPixels(monitor, work, edge) < HalfMonitor(monitor, edge)
    ensures FirstRunPixels(monitor, work, edge) == MulDiv(Along(work, edge), DESIGN_SHORT_SIDE, DESIGN_LONG_SIDE)
  {
  }

  // ---------------------------------------------------------------------------------------------------------------
  // Limits, spelled out

  /** At least half of the monitor stays free of the bar, whose thickness is at least a pixel; one that takes no more
      than half is not clamped. */
  lemma HalfStaysFree(px: int, monitor: Rect, edge: Edge)
    ensures var cross := if edge == Top || edge == Bottom then monitor.bottom - monitor.top
                         else monitor.right - monitor.left;
            var thickness := ClampedThickness(px, monitor, edge);
            thickness >= 1 && (cross > 1 ==> 2 * thickness <= cross) && (cross <= 1 ==> thickness == 1) &&
            (1 <= px && 2 * px <= cross ==> thickness == px && !TooThick(px, monitor, edge)) &&
            (TooThick(px, monitor, edge) && cross > 1 ==> 2 * px > cross && thickness == cross / 2)
  {
  }

  /** A drag's thickness is in the settings range, 32 to 1080 DIPs, and inside it the number of DIPs nearest to the
      pointer's distance from the outer edge, half of the monitor at most. */
  lemma DragIsNearest(full: Rect, monitor: Rect, edge: Edge, point: Point, dpi: nat)
    requires edge != NoEdge
    ensures var dips := ThicknessFromDrag(full, monitor, edge, point, dpi);
            var depth := match edge
                         case Top => point.y - full.top
                         case Bottom => full.bottom - point.y
                         case Left => point.x - full.left
                         case Right => full.right - point.x
                         case NoEdge => 0;
            var cross := if edge == Top || edge == Bottom then monitor.bottom - monitor.top
                         else monitor.right - monitor.left;
            var scale := if dpi == 0 then 96 else dpi;
            32 <= dips <= 1080 &&
            (1 <= depth && 2 * depth <= cross && 32 < dips < 1080 ==>
              2 * (dips * scale - depth * 96) <= scale && 2 * (depth * 96 - dips * scale) <= scale)
  {
  }

  /** Pixels are the DIPs scaled, to the nearest pixel, and at least one. */
  lemma PixelsAreNearest(dips: nat, dpi: nat)
    ensures var px := ThicknessPixels(dips, dpi);
            var scale := if dpi == 0 then 96 else dpi;
            px >= 1 && (px > 1 ==> 2 * (px * 96 - dips * scale) <= 96) && 2 * (dips * scale - px * 96) <= 96
  {
  }
}
