/**
 * The lightbox's zoom state machine (app/src/components/Lightbox.tsx).
 *
 * The component keeps two pieces of state, `scale` and `isMaximized`. The zoom
 * buttons change the scale by half a step, clamped to [1, 3]; the maximize
 * button toggles between a 2x view and the 1x view; a click on the image
 * container either resets the zoom or asks the parent to close the lightbox.
 * The animations that follow each state change are not modelled.
 */
module Lightbox {
  import opened Common

  const MinScale: real := 1.0
  const MaxScale: real := 3.0
  const ZoomStep: real := 0.5
  const MaximizedScale: real := 2.0

  /** `Math.min(Math.max(x, 1), 3)`. */
  function Clamp(x: real): (r: real)
    ensures MinScale <= r <= MaxScale
    ensures MinScale <= x <= MaxScale ==> r == x
    ensures x < MinScale ==> r == MinScale
    ensures x > MaxScale ==> r == MaxScale
  {
    if x < MinScale then MinScale else if x > MaxScale then MaxScale else x
  }

  /** The scales a user can reach: 1, 1.5, 2, 2.5 and 3. */
  predicate OnHalfStep(s: real) {
    s == 1.0 || s == 1.5 || s == 2.0 || s == 2.5 || s == 3.0
  }

  /** The component's zoom state, as a value. */
  datatype Zoom = Zoom(scale: real, maximized: bool)

  /** The state both `useState` initialisers give, and the one every new image resets to. */
  const Initial: Zoom := Zoom(MinScale, false)

  /** What the user can do while an image is shown, plus a new image arriving. */
  datatype ZoomEvent = ZoomIn | ZoomOut | ToggleMaximize | ContainerClick | OpenImage

  /** `handleZoom(delta)`: the scale moves by `delta` and is clamped; maximize is untouched. */
  function HandleZoom(z: Zoom, delta: real): (r: Zoom)
    ensures MinScale <= r.scale <= MaxScale
    ensures r.scale == Clamp(z.scale + delta)
    ensures r.maximized == z.maximized
  {
    z.(scale := Clamp(z.scale + delta))
  }

  /** `toggleMaximize`: the flag flips; entering zooms to 2x, leaving returns to 1x. */
  function Toggle(z: Zoom): (r: Zoom)
    ensures r.maximized == !z.maximized
    ensures r.maximized ==> r.scale == MaximizedScale
    ensures !r.maximized ==> r.scale == MinScale
  {
    if !z.maximized then HandleZoom(z, MaximizedScale - z.scale).(maximized := true)
    else z.(scale := MinScale, maximized := false)
  }

  /**
   * The image container's click handler: a zoomed image is reset to 1x and the
   * lightbox stays open; an unzoomed image asks for the lightbox to close.
   * Returns the new state and whether `onClose` is called.
   */
  function Click(z: Zoom): (r: (Zoom, bool))
    ensures r.1 <==> z.scale <= MinScale
    ensures r.0.maximized == z.maximized
    ensures r.1 ==> r.0 == z
    ensures !r.1 ==> r.0.scale == MinScale
  {
    if z.scale > MinScale then (z.(scale := MinScale), false) else (z, true)
  }

  /** The state after one event. */
  function Apply(z: Zoom, e: ZoomEvent): Zoom {
    match e
    case ZoomIn => HandleZoom(z, ZoomStep)
    case ZoomOut => HandleZoom(z, -ZoomStep)
    case ToggleMaximize => Toggle(z)
    case ContainerClick => Click(z).0
    case OpenImage => Initial
  }

  /** The state after a sequence of events, applied left to right. */
  function Run(z: Zoom, es: seq<ZoomEvent>): Zoom
    decreases |es|
  {
    if es == [] then z else Run(Apply(z, es[0]), es[1..])
  }

  /** One event keeps the scale on a half step. */
  lemma ApplyKeepsHalfStep(z: Zoom, e: ZoomEvent)
    requires OnHalfStep(z.scale)
    ensures OnHalfStep(Apply(z, e).scale)
  {
  }

  /** Any sequence of user events, from any reachable scale, stays on a half step. */
  lemma {:induction false} RunKeepsHalfStep(z: Zoom, es: seq<ZoomEvent>)
    requires OnHalfStep(z.scale)
    ensures OnHalfStep(Run(z, es).scale)
    decreases |es|
  {
    if es != [] {
      ApplyKeepsHalfStep(z, es[0]);
      RunKeepsHalfStep(Apply(z, es[0]), es[1..]);
    }
  }

  /** Every state reached from the initial one has a scale in {1, 1.5, 2, 2.5, 3}. */
  lemma ReachableScales(es: seq<ZoomEvent>)
    ensures OnHalfStep(Run(Initial, es).scale)
    ensures MinScale <= Run(Initial, es).scale <= MaxScale
  {
    RunKeepsHalfStep(Initial, es);
  }

  /** Zooming in at 3x and zooming out at 1x leave the state as it is. */
  lemma ZoomAtBoundsIsIdempotent(z: Zoom)
    ensures z.scale == MaxScale ==> Apply(z, ZoomIn) == z
    ensures z.scale == MinScale ==> Apply(z, ZoomOut) == z
  {
  }

  /** Zooming in then out, below the upper bound, restores the state. */
  lemma ZoomInOutInverse(z: Zoom)
    requires MinScale <= z.scale <= MaxScale - ZoomStep
    ensures Apply(Apply(z, ZoomIn), ZoomOut) == z
  {
  }

  /** Zooming out then in, above the lower bound, restores the state. */
  lemma ZoomOutInInverse(z: Zoom)
    requires MinScale + ZoomStep <= z.scale <= MaxScale
    ensures Apply(Apply(z, ZoomOut), ZoomIn) == z
  {
  }

  /** Two toggles in a row return to the flag they started from, at 1x or 2x. */
  lemma ToggleTwice(z: Zoom)
    ensures Toggle(Toggle(z)).maximized == z.maximized
    ensures Toggle(Toggle(z)).scale == if z.maximized then MaximizedScale else MinScale
  {
  }

  /**
   * The mounted component. `image` is the `image` prop; the handlers exist only
   * while it is truthy (present and non-empty), because the component renders
   * nothing otherwise.
   */
  class LightboxView {
    var image: Option<string>
    var scale: real
    var isMaximized: bool

    /** The zoom state as a value. */
    function State(): Zoom
      reads this
    {
      Zoom(scale, isMaximized)
    }

    /** Both step sizes and the 2x target keep the scale on a half step. */
    ghost predicate Valid()
      reads this
    {
      OnHalfStep(scale)
    }

    /** Mounting: the state starts at 1x, not maximized (the mount effect resets to the same). */
    constructor (img: Option<string>)
      ensures Valid()
      ensures image == img && State() == Initial
    {
      image := img;
      scale := MinScale;
      isMaximized := false;
    }

    /**
     * A new `image` prop. The reset effect runs only when the prop changes,
     * and it resets the zoom only when the new value is truthy: neither null
     * nor the empty string.
     */
    method SetImage(img: Option<string>)
      requires Valid()
      modifies this
      ensures Valid()
      ensures image == img
      ensures State() == if img != old(image) && Truthy(img) then Initial else old(State())
    {
      if img != image {
        image := img;
        if Truthy(img) {
          scale := MinScale;
          isMaximized := false;
        }
      }
    }

    /** `handleZoom(delta)`. */
    method ZoomBy(delta: real)
      modifies this`scale
      ensures State() == HandleZoom(old(State()), delta)
    {
      var newScale := Clamp(scale + delta);
      scale := newScale;
    }

    /** The zoom-in button. */
    method ZoomInClick()
      requires Truthy(image) && Valid()
      modifies this`scale
      ensures Valid()
      ensures State() == Apply(old(State()), ZoomIn)
    {
      ZoomBy(ZoomStep);
    }

    /** The zoom-out button. */
    method ZoomOutClick()
      requires Truthy(image) && Valid()
      modifies this`scale
      ensures Valid()
      ensures State() == Apply(old(State()), ZoomOut)
    {
      ZoomBy(-ZoomStep);
    }

    /** The maximize button: `toggleMaximize`. */
    method ToggleMaximizeClick()
      requires Truthy(image) && Valid()
      modifies this`scale, this`isMaximized
      ensures Valid()
      ensures State() == Apply(old(State()), ToggleMaximize)
    {
      var nextState := !isMaximized;
      isMaximized := nextState;
      if nextState {
        ZoomBy(MaximizedScale - scale);
      } else {
        scale := MinScale;
      }
    }

    /** The image container's click handler; `closes` says whether `onClose` is called. */
    method ContainerClicked() returns (closes: bool)
      requires Truthy(image) && Valid()
      modifies this`scale
      ensures Valid()
      ensures State() == Apply(old(State()), ContainerClick)
      ensures closes == Click(old(State())).1
    {
      if scale > MinScale {
        scale := MinScale;
        closes := false;
      } else {
        closes := true;
      }
    }
  }
}
