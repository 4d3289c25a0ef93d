/**
 * The placement arithmetic of `updateThumbnailStyle` (index.js:256-275): how
 * far along the progress bar the thumbnail is moved, how much it is scaled
 * down, and how far it is lifted above the bar.
 */
module Placement {

  /** The pixels added to the bottom offset at index.js:275. */
  const BASELINE_LIFT: real := 50.0

  /** The largest scale index.js:260 allows. */
  const MAX_SCALE: real := 0.5

  const TWO_31: int := 0x8000_0000
  const TWO_32: int := 0x1_0000_0000

  /** JavaScript's ToInt32 of a whole number: wrap into `[-2^31, 2^31)`. */
  function ToInt32(n: int): (r: int)
    ensures -TWO_31 <= r < TWO_31
    ensures (r - n) % TWO_32 == 0
  {
    (n + TWO_31) % TWO_32 - TWO_31
  }

  /**
   * `thumbnailWidth >> 1` (index.js:261): the width converted to a 32-bit
   * integer, then shifted right with its sign, which rounds down.
   */
  function HalfWidth(thumbnailWidth: nat): (half: int)
    ensures -0x4000_0000 <= half < 0x4000_0000
    ensures 2 * half <= ToInt32(thumbnailWidth) < 2 * half + 2
  {
    ToInt32(thumbnailWidth) / 2
  }

  /** For every width a 32-bit integer can hold, the shift is halving rounded down. */
  lemma HalfWidthOfSmall(thumbnailWidth: nat)
    requires thumbnailWidth < TWO_31
    ensures HalfWidth(thumbnailWidth) == thumbnailWidth / 2
    ensures 2 * HalfWidth(thumbnailWidth) <= thumbnailWidth < 2 * HalfWidth(thumbnailWidth) + 2
  {
    assert ToInt32(thumbnailWidth) == thumbnailWidth;
  }

  /** A width of 2^31 wraps to a negative half. */
  lemma HalfWidthWraps()
    ensures HalfWidth(TWO_31) == -0x4000_0000
  {
    assert ToInt32(TWO_31) == -TWO_31;
  }

  /** Which of the three `transform` branches of index.js:266-272 was taken. */
  datatype Branch = Centered | LeftClamp | RightClamp

  /** The numbers written into the thumbnail's `transform` and `bottom` (index.js:266-275). */
  datatype Placement = Placement(branch: Branch, translateX: real, scale: real, bottom: real)

  function Min(a: real, b: real): (m: real)
    ensures m <= a && m <= b && (m == a || m == b)
  {
    if a <= b then a else b
  }

  /**
   * `Math.min((width / 4) / thumbnailWidth, 0.5)` (index.js:260). A zero
   * width divides to `Infinity` in JavaScript, so the minimum is 0.5.
   */
  function Scale(width: real, thumbnailWidth: nat): (scale: real)
    ensures scale <= MAX_SCALE
    ensures width >= 0.0 ==> scale >= 0.0
    ensures width > 0.0 ==> scale > 0.0
    ensures thumbnailWidth > 0 ==> scale * thumbnailWidth as real <= width / 4.0
  {
    if thumbnailWidth == 0 then MAX_SCALE
    else
      var s := Min((width / 4.0) / thumbnailWidth as real, MAX_SCALE);
      assert (width / 4.0) / thumbnailWidth as real * thumbnailWidth as real == width / 4.0;
      s
  }

  /**
   * index.js:258-275 for a cursor at fraction `percent` of a bar `width`
   * pixels wide and a thumbnail `thumbnailWidth` by `thumbnailHeight`.
   */
  function Place(percent: real, width: real, thumbnailWidth: nat, thumbnailHeight: nat): (p: Placement)
    ensures p.scale <= MAX_SCALE && (width > 0.0 ==> 0.0 < p.scale)
    ensures ScaledBottomEdge(p, thumbnailHeight) == BASELINE_LIFT
  {
    var xPos := percent * width;
    var scale := Scale(width, thumbnailWidth);
    var half := HalfWidth(thumbnailWidth) as real;
    var bottom := -((thumbnailHeight as real - thumbnailHeight as real * scale) / 2.0) + BASELINE_LIFT;
    var branch := BranchOf(xPos, width, half, scale);
    Placement(branch, TranslateX(branch, xPos, width, half, scale), scale, bottom)
  }

  /**
   * Where the bottom edge of a holder `thumbnailHeight` pixels high ends up
   * once CSS scales it by `p.scale` about its middle (the default transform
   * origin): `p.bottom`, raised by half the height the scaling removes.
   */
  function ScaledBottomEdge(p: Placement, thumbnailHeight: nat): real {
    p.bottom + thumbnailHeight as real * (1.0 - p.scale) / 2.0
  }

  /** The branch index.js:262-272 takes, told by the two margins. */
  function BranchOf(xPos: real, width: real, half: real, scale: real): Branch {
    var marginRight := width - (xPos + half * scale);
    var marginLeft := xPos - half * scale;
    if marginLeft > 0.0 && marginRight > 0.0 then Centered
    else if marginLeft <= 0.0 then LeftClamp
    else RightClamp
  }

  /** The translation each branch of index.js:266-272 writes. */
  function TranslateX(branch: Branch, xPos: real, width: real, half: real, scale: real): real {
    var marginLeft := xPos - half * scale;
    match branch
    case Centered => xPos - half
    case LeftClamp => (xPos - half) - marginLeft
    case RightClamp => (width - half) - half * scale
  }

  /** The branch and its translation satisfy `Translated`. */
  lemma BranchTranslated(xPos: real, width: real, half: real, scale: real)
    ensures var branch := BranchOf(xPos, width, half, scale);
      Translated(branch, TranslateX(branch, xPos, width, half, scale), scale, xPos, width, half)
  {
  }

  /**
   * The three branches are told apart by the two margins: centred when both
   * are positive, clamped left when the left one is not, clamped right when
   * only the right one is not. The last test of index.js:270 therefore
   * always holds when it is reached.
   */
  lemma BranchConditions(percent: real, width: real, thumbnailWidth: nat, thumbnailHeight: nat)
    ensures var p := Place(percent, width, thumbnailWidth, thumbnailHeight);
      var xPos := percent * width;
      var half := HalfWidth(thumbnailWidth) as real;
      var marginLeft := xPos - half * p.scale;
      var marginRight := width - (xPos + half * p.scale);
      && (p.branch == Centered <==> marginLeft > 0.0 && marginRight > 0.0)
      && (p.branch == LeftClamp <==> marginLeft <= 0.0)
      && (p.branch == RightClamp <==> marginLeft > 0.0 && marginRight <= 0.0)
  {
  }

  /** Each branch's translation, as a formula in the cursor position. */
  lemma BranchTranslations(percent: real, width: real, thumbnailWidth: nat, thumbnailHeight: nat)
    ensures var p := Place(percent, width, thumbnailWidth, thumbnailHeight);
      var half := HalfWidth(thumbnailWidth) as real;
      && (p.branch == Centered ==> p.translateX == percent * width - half)
      && (p.branch == LeftClamp ==> p.translateX == half * p.scale - half)
      && (p.branch == RightClamp ==> p.translateX == width - half - half * p.scale)
  {
  }

  /** Clamped at the left, the translation does not depend on where the cursor is. */
  lemma LeftClampIgnoresCursor(p1: real, p2: real, width: real, thumbnailWidth: nat, thumbnailHeight: nat)
    requires Place(p1, width, thumbnailWidth, thumbnailHeight).branch == LeftClamp
    requires Place(p2, width, thumbnailWidth, thumbnailHeight).branch == LeftClamp
    ensures Place(p1, width, thumbnailWidth, thumbnailHeight) == Place(p2, width, thumbnailWidth, thumbnailHeight)
  {
  }

  /**
   * The point the holder is scaled about: the middle of its unscaled box,
   * which is `thumbnailWidth / 2` pixels right of the translation.
   */
  function Centre(p: Placement, thumbnailWidth: nat): real {
    p.translateX + thumbnailWidth as real / 2.0
  }

  /**
   * How far the translation misses the middle of the box: `w >> 1` drops
   * half a pixel from an odd width, none from an even one.
   */
  function Slack(thumbnailWidth: nat): real
    requires thumbnailWidth < TWO_31
  {
    thumbnailWidth as real / 2.0 - HalfWidth(thumbnailWidth) as real
  }

  /**
   * What the clamping is for: the scaled thumbnail, `thumbnailWidth * scale / 2`
   * pixels either side of its centre, starts on the bar and ends on it up to
   * the half pixel `w >> 1` drops from an odd width, scaled by `1 + scale`.
   * An even-width thumbnail stays within `[0, width]`.
   */
  lemma ThumbnailStaysOnBar(percent: real, width: real, thumbnailWidth: nat, thumbnailHeight: nat)
    requires width > 0.0 && 0.0 <= percent <= 1.0
    requires thumbnailWidth < TWO_31
    ensures StaysOnBar(Place(percent, width, thumbnailWidth, thumbnailHeight), width, thumbnailWidth)
  {
    PlaceFacts(percent, width, thumbnailWidth, thumbnailHeight);
    PlacementOnBar(Place(percent, width, thumbnailWidth, thumbnailHeight), percent, width, thumbnailWidth);
  }

  /**
   * The scaled box of `p`, `thumbnailWidth * scale / 2` pixels either side of
   * its centre, starts on a bar `width` pixels wide, ends on it up to the
   * odd-width overhang, and ends exactly on it for an even width.
   */
  predicate StaysOnBar(p: Placement, width: real, thumbnailWidth: nat)
    requires thumbnailWidth < TWO_31
  {
    var reach := thumbnailWidth as real * p.scale / 2.0;
    && 0.0 <= Centre(p, thumbnailWidth) - reach
    && Centre(p, thumbnailWidth) + reach <= width + Slack(thumbnailWidth) * (1.0 + p.scale)
    && (thumbnailWidth % 2 == 0 ==> Centre(p, thumbnailWidth) + reach <= width)
  }

  /** Any placement scaled and translated as `PlaceFacts` says stays on the bar. */
  lemma PlacementOnBar(p: Placement, percent: real, width: real, thumbnailWidth: nat)
    requires width > 0.0 && thumbnailWidth < TWO_31
    requires ScaledAndTranslated(p, percent, width, thumbnailWidth)
    ensures StaysOnBar(p, width, thumbnailWidth)
  {
    SlackRange(thumbnailWidth);
    BoxOnBar(p.branch, p.translateX, p.scale, percent * width, width, thumbnailWidth as real,
             HalfWidth(thumbnailWidth) as real, Slack(thumbnailWidth),
             Centre(p, thumbnailWidth), thumbnailWidth as real * p.scale / 2.0,
             Slack(thumbnailWidth) * (1.0 + p.scale));
  }

  /**
   * The translation `t` of each branch for a cursor at `x` on a bar `width`
   * pixels wide, a half width `half` and a scale `s`, with the centred
   * branch's two margins.
   */
  predicate Translated(branch: Branch, t: real, s: real, x: real, width: real, half: real) {
    && (branch == Centered ==> t == x - half && x - half * s > 0.0 && width - (x + half * s) > 0.0)
    && (branch == LeftClamp ==> t == half * s - half)
    && (branch == RightClamp ==> t == width - half - half * s)
  }

  /** What `Place` guarantees about its scale and, branch by branch, its translation. */
  lemma PlaceFacts(percent: real, width: real, thumbnailWidth: nat, thumbnailHeight: nat)
    requires width > 0.0
    ensures ScaledAndTranslated(Place(percent, width, thumbnailWidth, thumbnailHeight), percent, width, thumbnailWidth)
  {
    var p := Place(percent, width, thumbnailWidth, thumbnailHeight);
    ScaleFacts(percent, width, thumbnailWidth, thumbnailHeight);
    BranchTranslated(percent * width, width, HalfWidth(thumbnailWidth) as real, p.scale);
  }

  /**
   * `p` is scaled by at most `MAX_SCALE` to a box no wider than a quarter of
   * the bar, and translated as its branch says for a cursor at `percent`.
   */
  predicate ScaledAndTranslated(p: Placement, percent: real, width: real, thumbnailWidth: nat) {
    && 0.0 < p.scale <= MAX_SCALE && thumbnailWidth as real * p.scale <= width / 4.0
    && Translated(p.branch, p.translateX, p.scale, percent * width, width, HalfWidth(thumbnailWidth) as real)
  }

  /**
   * `ThumbnailStaysOnBar` for a box `w = 2 * (half + d)` wide, translated by
   * `t` and scaled by `s` as `Place` guarantees, with the cursor at `x`
   * pixels: the box of centre `c` reaching `reach` either side starts on the
   * bar and ends at most `grow` past it.
   */
  lemma BoxOnBar(branch: Branch, t: real, s: real, x: real, width: real, w: real, half: real, d: real,
                 c: real, reach: real, grow: real)
    requires width > 0.0 && w == 2.0 * (half + d) && 0.0 <= half && 0.0 <= d
    requires 0.0 < s <= MAX_SCALE && w * s <= width / 4.0
    requires Translated(branch, t, s, x, width, half)
    requires c == t + w / 2.0 && reach == w * s / 2.0 && grow == d * (1.0 + s)
    ensures 0.0 <= c - reach
    ensures c + reach <= width + grow
    ensures d == 0.0 ==> c + reach <= width
  {
    Products(w, half, d, s);
    var hs := half * s;
    var ds := d * s;
    Edges(branch, c, reach, x, hs, ds, d, grow, width);
  }

  /**
   * The two edges of a box of centre `c` reaching `reach` either side, for
   * each branch, given the margins and products `BoxOnBar` computes.
   */
  lemma Edges(branch: Branch, c: real, reach: real, x: real, hs: real, ds: real, d: real, grow: real, width: real)
    requires reach == hs + ds && grow == d + ds
    requires 0.0 <= hs && 0.0 <= ds <= d && width > 0.0
    requires 2.0 * (hs + ds) <= width / 4.0
    requires branch == Centered ==> c == x + d && x - hs > 0.0 && width - (x + hs) > 0.0
    requires branch == LeftClamp ==> c == hs + d
    requires branch == RightClamp ==> c == width - hs + d
    ensures 0.0 <= c - reach
    ensures c + reach <= width + grow
    ensures d == 0.0 ==> c + reach <= width
  {
    match branch
    case Centered => CenteredEdges(x, hs, ds, d, width);
    case LeftClamp => LeftClampEdges(hs, ds, d, width);
    case RightClamp => RightClampEdges(hs, ds, d, width);
  }

  /** The slack is 0 for an even width and 1/2 for an odd one. */
  lemma SlackRange(thumbnailWidth: nat)
    requires thumbnailWidth < TWO_31
    ensures 0.0 <= HalfWidth(thumbnailWidth) as real
    ensures thumbnailWidth as real == 2.0 * (HalfWidth(thumbnailWidth) as real + Slack(thumbnailWidth))
    ensures 0.0 <= Slack(thumbnailWidth) <= 0.5
    ensures thumbnailWidth % 2 == 0 ==> Slack(thumbnailWidth) == 0.0
  {
    HalfWidthOfSmall(thumbnailWidth);
  }

  /** The scale of a placement on a non-empty bar. */
  lemma ScaleFacts(percent: real, width: real, thumbnailWidth: nat, thumbnailHeight: nat)
    requires width > 0.0
    ensures var s := Place(percent, width, thumbnailWidth, thumbnailHeight).scale;
      && 0.0 < s <= MAX_SCALE
      && thumbnailWidth as real * s <= width / 4.0
  {
    var s := Place(percent, width, thumbnailWidth, thumbnailHeight).scale;
    assert s == Scale(width, thumbnailWidth);
  }

  /** The products the edges are made of, for a box `w = 2 * (half + d)` wide scaled by `s`. */
  lemma Products(w: real, half: real, d: real, s: real)
    requires w == 2.0 * (half + d) && 0.0 <= half && 0.0 <= d && 0.0 < s <= 0.5
    ensures w * s / 2.0 == half * s + d * s
    ensures 0.0 <= half * s && 0.0 <= d * s <= d
    ensures d * (1.0 + s) == d + d * s
  {
  }

  /** Both margins positive: the box is inside the bar but for the slack. */
  lemma CenteredEdges(x: real, hs: real, ds: real, d: real, width: real)
    requires 0.0 <= ds <= d
    requires x - hs > 0.0 && width - (x + hs) > 0.0
    ensures 0.0 <= (x + d) - (hs + ds)
    ensures (x + d) + (hs + ds) <= width + (d + ds)
    ensures d == 0.0 ==> (x + d) + (hs + ds) <= width
  {
  }

  /** Clamped left: the box starts at the slack and is at most a quarter bar wide. */
  lemma LeftClampEdges(hs: real, ds: real, d: real, width: real)
    requires 0.0 <= hs && 0.0 <= ds <= d && width > 0.0
    requires 2.0 * (hs + ds) <= width / 4.0
    ensures 0.0 <= (hs + d) - (hs + ds)
    ensures (hs + d) + (hs + ds) <= width + (d + ds)
    ensures d == 0.0 ==> (hs + d) + (hs + ds) <= width
  {
  }

  /** Clamped right: the box ends at the bar's end plus the slack. */
  lemma RightClampEdges(hs: real, ds: real, d: real, width: real)
    requires 0.0 <= hs && 0.0 <= ds <= d && width > 0.0
    requires 2.0 * (hs + ds) <= width / 4.0
    ensures 0.0 <= (width - hs + d) - (hs + ds)
    ensures (width - hs + d) + (hs + ds) == width + (d + ds)
  {
  }

  /**
   * A 161-pixel thumbnail at the very end of an 800-pixel bar is clamped
   * right, and its scaled box ends 0.75 pixels past the bar.
   */
  lemma OddWidthOverhangExample()
    ensures var p := Place(1.0, 800.0, 161, 90);
      && p.branch == RightClamp
      && Centre(p, 161) + 161.0 * p.scale / 2.0 == 800.75
  {
    assert HalfWidth(161) == 80 by {
      HalfWidthOfSmall(161);
    }
  }

  /** A 160-pixel thumbnail at the middle of an 800-pixel bar: centred at 320, half size. */
  lemma MiddleOfBarExample()
    ensures Place(0.5, 800.0, 160, 90) == Placement(Centered, 320.0, 0.5, 27.5)
  {
    assert HalfWidth(160) == 80 by {
      HalfWidthOfSmall(160);
    }
  }

  /** At the very start of the bar the thumbnail is clamped so that its scaled left edge is at 0. */
  lemma StartOfBarExample()
    ensures Place(0.0, 800.0, 160, 90) == Placement(LeftClamp, -40.0, 0.5, 27.5)
  {
    assert HalfWidth(160) == 80 by {
      HalfWidthOfSmall(160);
    }
  }
}
