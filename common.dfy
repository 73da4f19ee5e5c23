/** Small building blocks shared by the seat-map model: an optional value, a
    pixel point, and the two array combinators the store uses everywhere
    (`xs.map(x => p(x) ? f(x) : x)` and `xs.filter(keep)`). */
module Common {

  /** `T | null` in the source: an absent value or a present one. */
  datatype Option<T> = None | Some(value: T)

  /** A point or offset `{ x, y }` in whole pixels. */
  datatype Point = Point(x: int, y: int)

  function Sub(a: Point, b: Point): Point {
    Point(a.x - b.x, a.y - b.y)
  }

  function Add(a: Point, b: Point): Point {
    Point(a.x + b.x, a.y + b.y)
  }

  /** `xs.map(x => p(x) ? f(x) : x)`: the elements that satisfy `p` are
      replaced by their image under `f`, the others are kept, and neither the
      length nor the order changes. */
  function MapWhere<T>(xs: seq<T>, p: T -> bool, f: T -> T): (r: seq<T>)
    ensures |r| == |xs|
    ensures forall k :: 0 <= k < |xs| ==> r[k] == if p(xs[k]) then f(xs[k]) else xs[k]
    ensures (forall k :: 0 <= k < |xs| ==> !p(xs[k])) ==> r == xs
  {
    if xs == [] then []
    else [if p(xs[0]) then f(xs[0]) else xs[0]] + MapWhere(xs[1..], p, f)
  }

  /** `xs.filter(keep)`: the elements that satisfy `keep`, in their order. */
  function Filter<T>(xs: seq<T>, keep: T -> bool): (r: seq<T>)
    ensures |r| <= |xs|
    ensures forall k :: 0 <= k < |r| ==> r[k] in xs && keep(r[k])
    ensures forall k :: 0 <= k < |xs| && keep(xs[k]) ==> xs[k] in r
    ensures (forall k :: 0 <= k < |xs| ==> keep(xs[k])) ==> r == xs
  {
    if xs == [] then []
    else (if keep(xs[0]) then [xs[0]] else []) + Filter(xs[1..], keep)
  }

  /** Filtering distributes over concatenation; together with the one-element
      case this says the kept elements stay in their original order. */
  lemma {:induction false} FilterAppend<T>(xs: seq<T>, ys: seq<T>, keep: T -> bool)
    ensures Filter(xs + ys, keep) == Filter(xs, keep) + Filter(ys, keep)
  {
    if xs == [] {
      assert xs + ys == ys;
    } else {
      assert (xs + ys)[0] == xs[0];
      assert (xs + ys)[1..] == xs[1..] + ys;
      FilterAppend(xs[1..], ys, keep);
    }
  }
}
