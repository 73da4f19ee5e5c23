/** `src/components/MapEditor/Canvas.tsx`: the viewport's zoom `scale`, its
    `pan` offset and the pan gesture (`isPanning`, `startPan`), driven by
    wheel and mouse events. */
module Canvas {
  import opened Common

  const MinScale: real := 0.5
  const MaxScale: real := 2.0
  /** Scale change per unit of `deltaY` (the delta is `deltaY * -0.001`). */
  const ZoomSpeed: real := 0.001

  function Min(a: real, b: real): real { if a <= b then a else b }

  function Max(a: real, b: real): real { if a >= b then a else b }

  /** `Math.min(Math.max(0.5, s + delta), 2)`: always within [0.5, 2];
      exactly `s + delta` when that is already within, and exactly the bound
      it overshoots otherwise. */
  function ZoomStep(scale: real, deltaY: real): (r: real)
    ensures MinScale <= r <= MaxScale
    ensures MinScale <= scale + deltaY * -ZoomSpeed <= MaxScale ==> r == scale + deltaY * -ZoomSpeed
    ensures scale + deltaY * -ZoomSpeed >= MaxScale ==> r == MaxScale
    ensures scale + deltaY * -ZoomSpeed <= MinScale ==> r == MinScale
  {
    Min(Max(MinScale, scale + deltaY * -ZoomSpeed), MaxScale)
  }

  /** The events the canvas listens to. */
  datatype Event =
    | Wheel(ctrlKey: bool, metaKey: bool, deltaY: real)
    | MouseDown(button: int, shiftKey: bool, pointer: Point)
    | MouseMove(pointer: Point)
    | MouseUp

  /** The canvas's four pieces of state. */
  datatype View = View(scale: real, pan: Point, isPanning: bool, startPan: Point)

  const InitialView: View := View(1.0, Point(0, 0), false, Point(0, 0))

  ghost predicate ScaleInRange(v: View) {
    MinScale <= v.scale <= MaxScale
  }

  /** A press that starts panning: the middle button, or the primary one with
      shift held. */
  predicate StartsPan(button: int, shiftKey: bool) {
    button == 1 || (button == 0 && shiftKey)
  }

  /** One event handled. */
  function Step(v: View, e: Event): View {
    match e
    case Wheel(ctrlKey, metaKey, deltaY) =>
      if ctrlKey || metaKey then v.(scale := ZoomStep(v.scale, deltaY)) else v
    case MouseDown(button, shiftKey, pointer) =>
      if StartsPan(button, shiftKey) then v.(isPanning := true, startPan := Sub(pointer, v.pan)) else v
    case MouseMove(pointer) =>
      if v.isPanning then v.(pan := Sub(pointer, v.startPan)) else v
    case MouseUp =>
      v.(isPanning := false)
  }

  /** Events handled one after the other, in delivery order. */
  function Run(v: View, es: seq<Event>): View
    decreases |es|
  {
    if es == [] then v else Run(Step(v, es[0]), es[1..])
  }

  /** What each handler does and does not touch: a wheel event without ctrl
      or meta changes nothing; a press that does not start panning changes
      nothing; a move while not panning changes nothing; a release only ends
      the gesture, leaving `pan` where it is. */
  lemma StepTransitions(v: View, e: Event)
    ensures e.Wheel? && !e.ctrlKey && !e.metaKey ==> Step(v, e) == v
    ensures e.Wheel? ==> Step(v, e).pan == v.pan && Step(v, e).isPanning == v.isPanning
    ensures e.MouseDown? && !StartsPan(e.button, e.shiftKey) ==> Step(v, e) == v
    ensures e.MouseDown? && StartsPan(e.button, e.shiftKey) ==>
      Step(v, e).isPanning && Step(v, e).startPan == Sub(e.pointer, v.pan) && Step(v, e).pan == v.pan
    ensures e.MouseMove? && !v.isPanning ==> Step(v, e) == v
    ensures e.MouseMove? && v.isPanning ==> Step(v, e).pan == Sub(e.pointer, v.startPan)
    ensures !e.Wheel? ==> Step(v, e).scale == v.scale
    ensures e.MouseUp? ==> !Step(v, e).isPanning && Step(v, e).pan == v.pan
  {
  }

  /** Starting from the initial scale of 1, the scale stays within [0.5, 2]
      whatever events arrive. */
  lemma {:induction false} RunKeepsScaleInRange(v: View, es: seq<Event>)
    requires ScaleInRange(v)
    ensures ScaleInRange(Run(v, es))
    decreases |es|
  {
    if es != [] {
      RunKeepsScaleInRange(Step(v, es[0]), es[1..]);
    }
  }

  lemma {:induction false} RunAppend(v: View, a: seq<Event>, b: seq<Event>)
    ensures Run(v, a + b) == Run(Run(v, a), b)
    decreases |a|
  {
    if a == [] {
      assert a + b == b;
    } else {
      assert (a + b)[0] == a[0];
      assert (a + b)[1..] == a[1..] + b;
      RunAppend(Step(v, a[0]), a[1..], b);
    }
  }

  /** Events that neither press nor release a button. */
  predicate KeepsGesture(e: Event) {
    e.Wheel? || e.MouseMove?
  }

  lemma {:induction false} GestureContinues(v: View, es: seq<Event>)
    requires v.isPanning
    requires forall k :: 0 <= k < |es| ==> KeepsGesture(es[k])
    ensures Run(v, es).isPanning && Run(v, es).startPan == v.startPan
    decreases |es|
  {
    if es != [] {
      GestureContinues(Step(v, es[0]), es[1..]);
    }
  }

  /** A pan gesture that returns to its press point restores the pan it
      started from, whatever moves and wheel events came in between. */
  lemma PanReturnsToStart(v: View, button: int, shiftKey: bool, pointer: Point, between: seq<Event>)
    requires StartsPan(button, shiftKey)
    requires forall k :: 0 <= k < |between| ==> KeepsGesture(between[k])
    ensures Run(v, [MouseDown(button, shiftKey, pointer)] + between + [MouseMove(pointer)]).pan == v.pan
  {
    var down := Step(v, MouseDown(button, shiftKey, pointer));
    assert Run(v, [MouseDown(button, shiftKey, pointer)]) == down;
    RunAppend(v, [MouseDown(button, shiftKey, pointer)], between);
    RunAppend(v, [MouseDown(button, shiftKey, pointer)] + between, [MouseMove(pointer)]);
    GestureContinues(down, between);
  }

  /** `n` wheel events with the same `deltaY`, all with ctrl held. */
  function ZoomRepeat(scale: real, deltaY: real, n: nat): real {
    if n == 0 then scale else ZoomStep(ZoomRepeat(scale, deltaY, n - 1), deltaY)
  }

  /** `step` added `n` times. */
  function Times(n: nat, step: real): (r: real)
    ensures step >= 0.0 ==> r >= 0.0
    ensures step <= 0.0 ==> r <= 0.0
  {
    if n == 0 then 0.0 else Times(n - 1, step) + step
  }

  lemma {:induction false} TimesIsProduct(n: nat, step: real)
    ensures Times(n, step) == (n as real) * step
  {
    if n > 0 {
      TimesIsProduct(n - 1, step);
      assert (n as real) * step == ((n - 1) as real) * step + step;
    }
  }

  /** `n` zoom-in events, with the total growth written as a repeated sum. */
  lemma {:induction false} ZoomInSum(scale: real, deltaY: real, n: nat)
    requires deltaY < 0.0 && MinScale <= scale <= MaxScale
    ensures ZoomRepeat(scale, deltaY, n) == Min(scale + Times(n, deltaY * -ZoomSpeed), MaxScale)
  {
    if n > 0 {
      ZoomInSum(scale, deltaY, n - 1);
    }
  }

  /** `n` zoom-out events, with the total change written as a repeated sum. */
  lemma {:induction false} ZoomOutSum(scale: real, deltaY: real, n: nat)
    requires deltaY > 0.0 && MinScale <= scale <= MaxScale
    ensures ZoomRepeat(scale, deltaY, n) == Max(scale + Times(n, deltaY * -ZoomSpeed), MinScale)
  {
    if n > 0 {
      ZoomOutSum(scale, deltaY, n - 1);
    }
  }

  /** Zooming in (`deltaY < 0`) `n` times grows the scale by `n` steps until
      it reaches 2, where it stays. */
  lemma ZoomInRepeated(scale: real, deltaY: real, n: nat)
    requires deltaY < 0.0 && MinScale <= scale <= MaxScale
    ensures ZoomRepeat(scale, deltaY, n) == Min(scale + (n as real) * (deltaY * -ZoomSpeed), MaxScale)
  {
    ZoomInSum(scale, deltaY, n);
    TimesIsProduct(n, deltaY * -ZoomSpeed);
  }

  /** Zooming out (`deltaY > 0`) `n` times shrinks the scale by `n` steps
      until it reaches 0.5, where it stays. */
  lemma ZoomOutRepeated(scale: real, deltaY: real, n: nat)
    requires deltaY > 0.0 && MinScale <= scale <= MaxScale
    ensures ZoomRepeat(scale, deltaY, n) == Max(scale + (n as real) * (deltaY * -ZoomSpeed), MinScale)
  {
    ZoomOutSum(scale, deltaY, n);
    TimesIsProduct(n, deltaY * -ZoomSpeed);
  }

  /** Enough zoom-in events reach exactly 2, and so does any larger number. */
  lemma ZoomInReachesMax(scale: real, deltaY: real, n: nat)
    requires deltaY < 0.0 && MinScale <= scale <= MaxScale
    requires (n as real) * (deltaY * -ZoomSpeed) >= MaxScale - scale
    ensures ZoomRepeat(scale, deltaY, n) == MaxScale
  {
    ZoomInRepeated(scale, deltaY, n);
  }

  /** Enough zoom-out events reach exactly 0.5, and so does any larger number. */
  lemma ZoomOutReachesMin(scale: real, deltaY: real, n: nat)
    requires deltaY > 0.0 && MinScale <= scale <= MaxScale
    requires scale + (n as real) * (deltaY * -ZoomSpeed) <= MinScale
    ensures ZoomRepeat(scale, deltaY, n) == MinScale
  {
    ZoomOutRepeated(scale, deltaY, n);
  }

  /** `n` wheel events with the same keys and `deltaY`, in a row. */
  function Wheels(ctrlKey: bool, metaKey: bool, deltaY: real, n: nat): seq<Event> {
    seq(n, _ => Wheel(ctrlKey, metaKey, deltaY))
  }

  lemma {:induction false} ZoomRepeatFirst(scale: real, deltaY: real, n: nat)
    requires n > 0
    ensures ZoomRepeat(scale, deltaY, n) == ZoomRepeat(ZoomStep(scale, deltaY), deltaY, n - 1)
  {
    if n > 1 {
      ZoomRepeatFirst(scale, deltaY, n - 1);
    }
  }

  /** Running `n` wheel events with ctrl or meta held through the event
      machine is `ZoomRepeat` on the scale, and leaves the pan gesture as it
      was. */
  lemma {:induction false} RunWheelsIsZoomRepeat(v: View, ctrlKey: bool, metaKey: bool, deltaY: real, n: nat)
    requires ctrlKey || metaKey
    ensures Run(v, Wheels(ctrlKey, metaKey, deltaY, n)) == v.(scale := ZoomRepeat(v.scale, deltaY, n))
    decreases n
  {
    var es := Wheels(ctrlKey, metaKey, deltaY, n);
    if n > 0 {
      assert es[0] == Wheel(ctrlKey, metaKey, deltaY);
      assert es[1..] == Wheels(ctrlKey, metaKey, deltaY, n - 1);
      var next := Step(v, es[0]);
      assert next == v.(scale := ZoomStep(v.scale, deltaY));
      RunWheelsIsZoomRepeat(next, ctrlKey, metaKey, deltaY, n - 1);
      ZoomRepeatFirst(v.scale, deltaY, n);
    }
  }

  /** On the event machine: enough zoom-in wheel events bring the viewport's
      scale to exactly 2, and leave the pan where it was. */
  lemma RunZoomInReachesMax(v: View, ctrlKey: bool, metaKey: bool, deltaY: real, n: nat)
    requires ctrlKey || metaKey
    requires deltaY < 0.0 && ScaleInRange(v)
    requires (n as real) * (deltaY * -ZoomSpeed) >= MaxScale - v.scale
    ensures Run(v, Wheels(ctrlKey, metaKey, deltaY, n)).scale == MaxScale
    ensures Run(v, Wheels(ctrlKey, metaKey, deltaY, n)).pan == v.pan
  {
    RunWheelsIsZoomRepeat(v, ctrlKey, metaKey, deltaY, n);
    ZoomInReachesMax(v.scale, deltaY, n);
  }

  /** On the event machine: enough zoom-out wheel events bring the viewport's
      scale to exactly 0.5, and leave the pan where it was. */
  lemma RunZoomOutReachesMin(v: View, ctrlKey: bool, metaKey: bool, deltaY: real, n: nat)
    requires ctrlKey || metaKey
    requires deltaY > 0.0 && ScaleInRange(v)
    requires v.scale + (n as real) * (deltaY * -ZoomSpeed) <= MinScale
    ensures Run(v, Wheels(ctrlKey, metaKey, deltaY, n)).scale == MinScale
    ensures Run(v, Wheels(ctrlKey, metaKey, deltaY, n)).pan == v.pan
  {
    RunWheelsIsZoomRepeat(v, ctrlKey, metaKey, deltaY, n);
    ZoomOutReachesMin(v.scale, deltaY, n);
  }

  /** The viewport state of the mounted canvas. */
  class Viewport {
    var scale: real
    var pan: Point
    var isPanning: bool
    var startPan: Point

    function State(): View
      reads this
    {
      View(scale, pan, isPanning, startPan)
    }

    ghost predicate Valid()
      reads this
    {
      ScaleInRange(State())
    }

    constructor ()
      ensures State() == InitialView
      ensures Valid()
    {
      scale := 1.0;
      pan := Point(0, 0);
      isPanning := false;
      startPan := Point(0, 0);
    }

    /** `handleWheel`: with ctrl or meta held, zoom by `deltaY * -0.001`,
        clamped to [0.5, 2]; otherwise ignore the event. */
    method HandleWheel(ctrlKey: bool, metaKey: bool, deltaY: real)
      requires Valid()
      modifies this
      ensures Valid()
      ensures State() == Step(old(State()), Wheel(ctrlKey, metaKey, deltaY))
    {
      if ctrlKey || metaKey {
        scale := ZoomStep(scale, deltaY);
      }
    }

    /** `handleMouseDown`: the middle button, or the primary one with shift,
        starts panning and anchors `startPan` at pointer minus pan. */
    method HandleMouseDown(button: int, shiftKey: bool, pointer: Point)
      requires Valid()
      modifies this
      ensures Valid()
      ensures State() == Step(old(State()), MouseDown(button, shiftKey, pointer))
    {
      if button == 1 || (button == 0 && shiftKey) {
        isPanning := true;
        startPan := Sub(pointer, pan);
      }
    }

    /** `handleMouseMove`: while panning, pan is pointer minus `startPan`. */
    method HandleMouseMove(pointer: Point)
      requires Valid()
      modifies this
      ensures Valid()
      ensures State() == Step(old(State()), MouseMove(pointer))
    {
      if isPanning {
        pan := Sub(pointer, startPan);
      }
    }

    /** `handleMouseUp`: the gesture ends. */
    method HandleMouseUp()
      requires Valid()
      modifies this
      ensures Valid()
      ensures State() == Step(old(State()), MouseUp)
    {
      isPanning := false;
    }
  }
}
