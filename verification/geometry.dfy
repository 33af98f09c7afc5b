/**
  Axis-aligned rectangles and the strict overlap test shared by the
  interactive layout (app.py) and the dataset generator (create_dataset.py).
 */
module Geometry {

  datatype Point = Point(x: real, y: real)

  /** The fallback position used when the attempt budget runs out. */
  const Origin: Point := Point(0.0, 0.0)

  /** `(x, y, width, height)`; the corner `(x, y)` is the lower-left one. */
  datatype Rect = Rect(x: real, y: real, width: real, height: real)

  /** The `[0, 0, 0, 0]` entry that stands for an absent obstacle. */
  const ZeroRect: Rect := Rect(0.0, 0.0, 0.0, 0.0)

  function RectAt(p: Point, width: real, height: real): Rect
  {
    Rect(p.x, p.y, width, height)
  }

  /** The candidate `c` overlaps `o` when both the x- and the y-intervals
      intersect; every comparison is strict, so shared edges do not count. */
  predicate Overlaps(c: Rect, o: Rect)
  {
    && c.x < o.x + o.width
    && c.x + c.width > o.x
    && c.y < o.y + o.height
    && c.y + c.height > o.y
  }

  /** The scan over the occupied rectangles that returns on the first hit. */
  function OverlapsAny(c: Rect, rs: seq<Rect>): (r: bool)
    ensures r <==> exists i {:trigger Overlaps(c, rs[i])} :: 0 <= i < |rs| && Overlaps(c, rs[i])
  {
    if |rs| == 0 then false
    else if Overlaps(c, rs[0]) then true
    else
      var r := OverlapsAny(c, rs[1..]);
      assert forall i :: 1 <= i < |rs| ==> rs[i] == rs[1..][i - 1];
      r
  }

  /** A point strictly inside a rectangle. */
  predicate Interior(r: Rect, p: Point)
  {
    r.x < p.x < r.x + r.width && r.y < p.y < r.y + r.height
  }

  predicate Proper(r: Rect)
  {
    r.width > 0.0 && r.height > 0.0
  }

  /** For rectangles of positive size, the strict test holds exactly when
      the two rectangles share an interior point, i.e. their intersection
      has positive area. */
  lemma OverlapsIffCommonInterior(a: Rect, b: Rect)
    requires Proper(a) && Proper(b)
    ensures Overlaps(a, b) <==> exists p :: Interior(a, p) && Interior(b, p)
  {
    if Overlaps(a, b) {
      var lx := if a.x < b.x then b.x else a.x;
      var hx := if a.x + a.width < b.x + b.width then a.x + a.width else b.x + b.width;
      var ly := if a.y < b.y then b.y else a.y;
      var hy := if a.y + a.height < b.y + b.height then a.y + a.height else b.y + b.height;
      var p := Point((lx + hx) / 2.0, (ly + hy) / 2.0);
      assert Interior(a, p) && Interior(b, p);
    }
  }

  /** Rectangles that only touch along an edge or at a corner do not overlap,
      in either order. */
  lemma TouchingDoesNotOverlap(a: Rect, b: Rect)
    requires || a.x + a.width == b.x || b.x + b.width == a.x
             || a.y + a.height == b.y || b.y + b.height == a.y
    ensures !Overlaps(a, b) && !Overlaps(b, a)
  {
  }

  /** Checking a concatenation is checking either part. */
  lemma OverlapsAnyAppend(c: Rect, xs: seq<Rect>, ys: seq<Rect>)
    ensures OverlapsAny(c, xs + ys) <==> OverlapsAny(c, xs) || OverlapsAny(c, ys)
  {
    if OverlapsAny(c, ys) {
      var i :| 0 <= i < |ys| && Overlaps(c, ys[i]);
      assert (xs + ys)[|xs| + i] == ys[i];
    }
    if OverlapsAny(c, xs) {
      var i :| 0 <= i < |xs| && Overlaps(c, xs[i]);
      assert (xs + ys)[i] == xs[i];
    }
  }

  /** No later rectangle overlaps an earlier one. */
  predicate PairwiseDisjoint(rs: seq<Rect>)
  {
    forall i, j :: 0 <= i < j < |rs| ==> !Overlaps(rs[j], rs[i])
  }
}
