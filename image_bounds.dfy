/**
 * The content bounding box that `normalizeAndSetImage` in assets/js/bossfight.js computes
 * before it scales a boss picture: every pixel whose alpha byte is above 10 counts as
 * content, and the scan keeps the smallest and largest column and row of such a pixel.
 */
module ImageBounds {

  /** One entry of the canvas' `Uint8ClampedArray`. */
  newtype byte = x: int | 0 <= x < 256

  /** Pixels are stored row by row as R, G, B, A; this is the index of the alpha byte of (x, y). */
  function AlphaIndex(width: nat, x: nat, y: nat): nat
  {
    (y * width + x) * 4 + 3
  }

  /** Every pixel of a `width` by `height` picture has its alpha byte inside the buffer. */
  lemma AlphaIndexInRange(width: nat, height: nat, x: nat, y: nat)
    requires x < width && y < height
    ensures AlphaIndex(width, x, y) < width * height * 4
  {
    assert y * width + x < (y + 1) * width;
    assert (y + 1) * width <= height * width by {
      assert y + 1 <= height;
    }
  }

  /** `data[idx] > 10`; a read past the buffer gives `undefined`, which is never above 10. */
  predicate Opaque(data: seq<byte>, width: nat, x: nat, y: nat)
  {
    var i := AlphaIndex(width, x, y);
    i < |data| && data[i] > 10
  }

  /** Pixel (xx, yy) comes before (x, y) in row-major order. */
  predicate Before(xx: nat, yy: nat, x: nat, y: nat)
  {
    yy < y || (yy == y && xx < x)
  }

  /**
   * What the scan knows once every pixel before (x, y) in row-major order has been read:
   * `found` says whether one of them is opaque; if none is, the box keeps its start values,
   * otherwise it holds all of them and each side is touched by the witness pixel named for it.
   */
  ghost predicate Scanned(data: seq<byte>, width: nat, height: nat, x: nat, y: nat,
                          found: bool, minX: nat, minY: nat, maxX: nat, maxY: nat,
                          lo: (nat, nat), hi: (nat, nat), top: (nat, nat), bottom: (nat, nat))
  {
    && (!found ==> minX == width && minY == height && maxX == 0 && maxY == 0)
    && (!found ==> forall xx: nat, yy: nat :: xx < width && Before(xx, yy, x, y) ==> !Opaque(data, width, xx, yy))
    && (found ==> forall xx: nat, yy: nat :: xx < width && Before(xx, yy, x, y) && Opaque(data, width, xx, yy) ==>
          minX <= xx <= maxX && minY <= yy <= maxY)
    && (found ==> lo.0 == minX && lo.0 < width && Before(lo.0, lo.1, x, y) && Opaque(data, width, lo.0, lo.1))
    && (found ==> hi.0 == maxX && hi.0 < width && Before(hi.0, hi.1, x, y) && Opaque(data, width, hi.0, hi.1))
    && (found ==> top.1 == minY && top.0 < width && Before(top.0, top.1, x, y) && Opaque(data, width, top.0, top.1))
    && (found ==> bottom.1 == maxY && bottom.0 < width && Before(bottom.0, bottom.1, x, y) && Opaque(data, width, bottom.0, bottom.1))
  }

  /**
   * The two nested `for` loops of the scan. With no opaque pixel the result keeps its
   * start values (width, height, 0, 0); otherwise it is the tightest box that holds every
   * opaque pixel, each of its four sides touched by one.
   */
  method ContentBounds(data: seq<byte>, width: nat, height: nat)
      returns (found: bool, minX: nat, minY: nat, maxX: nat, maxY: nat)
    requires |data| == width * height * 4
    ensures found <==> exists x: nat, y: nat :: x < width && y < height && Opaque(data, width, x, y)
    ensures !found ==> minX == width && minY == height && maxX == 0 && maxY == 0
    ensures found ==> forall x: nat, y: nat :: x < width && y < height && Opaque(data, width, x, y) ==>
      minX <= x <= maxX && minY <= y <= maxY
    ensures found ==> maxX < width && maxY < height
    ensures found ==> exists y: nat :: y < height && Opaque(data, width, minX, y)
    ensures found ==> exists y: nat :: y < height && Opaque(data, width, maxX, y)
    ensures found ==> exists x: nat :: x < width && Opaque(data, width, x, minY)
    ensures found ==> exists x: nat :: x < width && Opaque(data, width, x, maxY)
  {
    minX, minY, maxX, maxY, found := width, height, 0, 0, false;
    // one opaque pixel on each side of the box
    ghost var lo: (nat, nat), hi: (nat, nat), top: (nat, nat), bottom: (nat, nat) := (0, 0), (0, 0), (0, 0), (0, 0);
    var y := 0;
    while y < height
      invariant y <= height
      invariant Scanned(data, width, height, 0, y, found, minX, minY, maxX, maxY, lo, hi, top, bottom)
    {
      var x := 0;
      while x < width
        invariant x <= width
        invariant Scanned(data, width, height, x, y, found, minX, minY, maxX, maxY, lo, hi, top, bottom)
      {
        AlphaIndexInRange(width, height, x, y);
        var idx := (y * width + x) * 4 + 3;
        ghost var f0, a0, b0, c0, d0, lo0, hi0, top0, bottom0 := found, minX, minY, maxX, maxY, lo, hi, top, bottom;
        if data[idx] > 10 {
          found := true;
          if x < minX { minX := x; }
          if x > maxX { maxX := x; }
          if y < minY { minY := y; }
          if y > maxY { maxY := y; }
          if minX == x { lo := (x, y); }
          if maxX == x { hi := (x, y); }
          if minY == y { top := (x, y); }
          if maxY == y { bottom := (x, y); }
          VisitOpaque(data, width, height, x, y, f0, a0, b0, c0, d0, lo0, hi0, top0, bottom0, minX, minY, maxX, maxY, lo, hi, top, bottom);
        } else {
          VisitClear(data, width, height, x, y, found, minX, minY, maxX, maxY, lo, hi, top, bottom);
        }
        x := x + 1;
      }
      NextRow(data, width, height, y, found, minX, minY, maxX, maxY, lo, hi, top, bottom);
      y := y + 1;
    }
    if found {
      assert lo.1 < height && hi.1 < height && top.0 < width && bottom.0 < width;
    }
  }

  /** Reading a clear pixel adds nothing to what is known. */
  lemma VisitClear(data: seq<byte>, width: nat, height: nat, x: nat, y: nat,
                   found: bool, minX: nat, minY: nat, maxX: nat, maxY: nat,
                   lo: (nat, nat), hi: (nat, nat), top: (nat, nat), bottom: (nat, nat))
    requires x < width && !Opaque(data, width, x, y)
    requires Scanned(data, width, height, x, y, found, minX, minY, maxX, maxY, lo, hi, top, bottom)
    ensures Scanned(data, width, height, x + 1, y, found, minX, minY, maxX, maxY, lo, hi, top, bottom)
  {
    forall xx: nat, yy: nat | xx < width && Before(xx, yy, x + 1, y)
      ensures !found ==> !Opaque(data, width, xx, yy)
      ensures found && Opaque(data, width, xx, yy) ==> minX <= xx <= maxX && minY <= yy <= maxY
    {
      assert Before(xx, yy, x, y) || (xx == x && yy == y);
    }
  }

  /** Reading an opaque pixel widens the box to it, and it becomes the witness of every side it lies on. */
  lemma VisitOpaque(data: seq<byte>, width: nat, height: nat, x: nat, y: nat,
                    found: bool, minX: nat, minY: nat, maxX: nat, maxY: nat,
                    lo: (nat, nat), hi: (nat, nat), top: (nat, nat), bottom: (nat, nat),
                    minX': nat, minY': nat, maxX': nat, maxY': nat,
                    lo': (nat, nat), hi': (nat, nat), top': (nat, nat), bottom': (nat, nat))
    requires x < width && y < height && Opaque(data, width, x, y)
    requires Scanned(data, width, height, x, y, found, minX, minY, maxX, maxY, lo, hi, top, bottom)
    requires minX' == (if x < minX then x else minX) && maxX' == (if x > maxX then x else maxX)
    requires minY' == (if y < minY then y else minY) && maxY' == (if y > maxY then y else maxY)
    requires lo' == (if minX' == x then (x, y) else lo) && hi' == (if maxX' == x then (x, y) else hi)
    requires top' == (if minY' == y then (x, y) else top) && bottom' == (if maxY' == y then (x, y) else bottom)
    ensures Scanned(data, width, height, x + 1, y, true, minX', minY', maxX', maxY', lo', hi', top', bottom')
  {
    assert forall xx: nat, yy: nat :: Before(xx, yy, x + 1, y) <==> Before(xx, yy, x, y) || (xx == x && yy == y);
  }

  /** A finished row is the same knowledge as the start of the next one. */
  lemma NextRow(data: seq<byte>, width: nat, height: nat, y: nat,
                found: bool, minX: nat, minY: nat, maxX: nat, maxY: nat,
                lo: (nat, nat), hi: (nat, nat), top: (nat, nat), bottom: (nat, nat))
    requires Scanned(data, width, height, width, y, found, minX, minY, maxX, maxY, lo, hi, top, bottom)
    ensures Scanned(data, width, height, 0, y + 1, found, minX, minY, maxX, maxY, lo, hi, top, bottom)
  {
    assert forall xx: nat, yy: nat :: xx < width ==> (Before(xx, yy, width, y) <==> Before(xx, yy, 0, y + 1));
  }
}
