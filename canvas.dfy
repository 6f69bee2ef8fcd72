/** What the renderers leave on the 2D canvas, as far as this model follows it:
    the text they draw (`ctx.fillText`), the icons of the Business Model
    Canvas, and the rectangles of their fixed grids. */
module Canvas {

  /** The nine line-art icons of the Business Model Canvas. */
  datatype IconKind = Partners | Activities | Resources | Value | Relations | Channels | Segments | Costs | Revenues

  /** `Text(s, x, y)` is one `ctx.fillText(s, x, y)`; `Icon(k, cx, cy)` is the
      icon `k` drawn centred on `(cx, cy)`. */
  datatype Mark = Text(s: string, x: real, y: real) | Icon(kind: IconKind, cx: real, cy: real)

  /** An axis-aligned rectangle: top-left corner, width, height. */
  datatype Rect = Rect(x: real, y: real, w: real, h: real)

  /** The point lies in the rectangle (left and top edges included, right and
      bottom edges excluded, so that adjacent rectangles share no point). */
  predicate Contains(r: Rect, px: real, py: real) {
    r.x <= px < r.x + r.w && r.y <= py < r.y + r.h
  }

  /** `inner` lies inside `outer`. */
  predicate Within(inner: Rect, outer: Rect) {
    outer.x <= inner.x && inner.x + inner.w <= outer.x + outer.w
    && outer.y <= inner.y && inner.y + inner.h <= outer.y + outer.h
  }

  /** The two rectangles are separated by a vertical or a horizontal line. */
  predicate Disjoint(a: Rect, b: Rect) {
    a.x + a.w <= b.x || b.x + b.w <= a.x || a.y + a.h <= b.y || b.y + b.h <= a.y
  }

  /** No point lies in two of the rectangles. */
  predicate PairwiseDisjoint(rs: seq<Rect>) {
    forall i, j :: 0 <= i < j < |rs| ==> Disjoint(rs[i], rs[j])
  }

  /** The rectangles cover `area` exactly: each lies inside it, no two
      overlap, and every point of it lies in one of them. */
  ghost predicate Tiles(rs: seq<Rect>, area: Rect) {
    && (forall i :: 0 <= i < |rs| ==> Within(rs[i], area))
    && PairwiseDisjoint(rs)
    && (forall px: real, py: real :: Contains(area, px, py) ==> exists i :: 0 <= i < |rs| && Contains(rs[i], px, py))
  }

  function Area(r: Rect): real {
    r.w * r.h
  }

  function SumAreas(rs: seq<Rect>): real {
    if rs == [] then 0.0 else Area(rs[0]) + SumAreas(rs[1..])
  }
}
