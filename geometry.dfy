/**
 * The integer screen geometry of the backend: the two regions whose centres
 * it aims at (macro.py:150-158), the points it scrolls and clicks at (macro.py:228-233,
 * 295-296) and the translation of a template-match location inside a region
 * to an absolute screen point (macro.py:257-259).
 *
 * Python's // by 2 rounds towards negative infinity, which is what Dafny's
 * Euclidean / does for a positive divisor, so the division is written as is.
 */
module Geometry {
  /** A screen rectangle as the backend stores it: (left, top, width, height). */
  datatype Region = Region(left: int, top: int, width: int, height: int)

  datatype Point = Point(x: int, y: int)

  /** The point of a region the backend aims at: left + width // 2, top + height // 2. */
  function Center(r: Region): (p: Point)
    ensures 2 * (p.x - r.left) <= r.width < 2 * (p.x - r.left) + 2
    ensures 2 * (p.y - r.top) <= r.height < 2 * (p.y - r.top) + 2
  {
    Point(r.left + r.width / 2, r.top + r.height / 2)
  }

  /** Whether a point lies inside a region (left and top inclusive, right and bottom exclusive). */
  predicate Contains(r: Region, p: Point)
  {
    r.left <= p.x < r.left + r.width && r.top <= p.y < r.top + r.height
  }

  /** A region of at least one pixel contains the point the backend aims at. */
  lemma CenterInside(r: Region)
    requires r.width >= 1 && r.height >= 1
    ensures Contains(r, Center(r))
  {
  }

  /**
   * The absolute point find_image_in_region returns for a w-by-h template
   * matched at offset loc of the captured region: the centre of the matched
   * window (macro.py:257-259).
   */
  function MatchPoint(region: Region, loc: Point, w: int, h: int): (p: Point)
    ensures p == Center(Region(region.left + loc.x, region.top + loc.y, w, h))
  {
    Point(region.left + loc.x + w / 2, region.top + loc.y + h / 2)
  }

  /**
   * matchTemplate only reports offsets at which the whole template fits in the
   * capture, and then the point clicked lies inside the searched region.
   */
  lemma MatchPointInside(region: Region, loc: Point, w: int, h: int)
    requires w >= 1 && h >= 1
    requires 0 <= loc.x && loc.x + w <= region.width
    requires 0 <= loc.y && loc.y + h <= region.height
    ensures Contains(region, MatchPoint(region, loc, w, h))
  {
    CenterInside(Region(region.left + loc.x, region.top + loc.y, w, h));
  }

  // The two regions of the backend's constructor (macro.py:150-158) whose centres are clicked or scrolled at.
  const PackFrame := Region(168, 242, 472, 654)
  const PurchaseLocation := Region(821, 800, 220, 48)

  /** scroll_in_pack_frame turns the wheel at the centre of the pack frame (macro.py:227-233). */
  function ScrollPoint(): (p: Point)
    ensures p == Point(404, 569)
    ensures Contains(PackFrame, p)
  {
    Center(PackFrame)
  }

  /** purchase_pack clicks the centre of the purchase area (macro.py:295-296). */
  function PurchasePoint(): (p: Point)
    ensures p == Point(931, 824)
    ensures Contains(PurchaseLocation, p)
  {
    Center(PurchaseLocation)
  }
}
