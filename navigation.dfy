/** The navigation state of the viewer's top-level component: the turntable
    frame, the two-level zoom, the pan offset and the drag anchors, driven by
    mouse-down, mouse-move, mouse-up and wheel events. */
module Navigation {
  import opened Wrappers

  /** Frames are numbered 0 .. FrameCount - 1 and wrap around. */
  const FrameCount: int := 60
  const LastFrame: int := 59
  /** A rotate drag steps one frame once the pointer is more than this many
      pixels away from the anchor. */
  const RotateThreshold: int := 5
  /** Wheel deltas within this band are ignored. */
  const WheelThreshold: int := 50
  const RightButton: int := 2
  const ZoomedOut: int := 1
  const ZoomedIn: int := 2

  datatype Pan = Pan(dx: int, dy: int)

  const NoPan := Pan(0, 0)

  /** Which move listener is attached. */
  datatype Mode = Idle | Rotating | Panning

  /** One frame forward, wrapping from the last frame to the first. */
  function NextFrame(f: int): (r: int)
    ensures 0 <= f < FrameCount ==> 0 <= r < FrameCount && r == (f + 1) % FrameCount
  {
    if f == LastFrame then 0 else f + 1
  }

  /** One frame backward, wrapping from the first frame to the last. */
  function PrevFrame(f: int): (r: int)
    ensures 0 <= f < FrameCount ==> 0 <= r < FrameCount && r == (f + FrameCount - 1) % FrameCount
  {
    if f == 0 then LastFrame else f - 1
  }

  /** Frame and horizontal anchor after a rotate move. */
  datatype RotateState = RotateState(frame: int, anchor: Option<int>)

  /** `handleRotate` at pointer `x`: an unset anchor is first set to `x`;
      a pointer more than 5 px left of the anchor steps forward, more than
      5 px right of it steps backward, and either step moves the anchor to
      `x`; inside the band nothing changes. */
  function RotateStep(frame: int, anchor: Option<int>, x: int): (r: RotateState)
    ensures r.anchor.Some?
    ensures anchor.None? ==> r == RotateState(frame, Some(x))
    ensures 0 <= frame < FrameCount ==> 0 <= r.frame < FrameCount
    ensures 0 <= frame < FrameCount && anchor.Some? && x < anchor.value - RotateThreshold ==>
      r == RotateState((frame + 1) % FrameCount, Some(x))
    ensures 0 <= frame < FrameCount && anchor.Some? && x > anchor.value + RotateThreshold ==>
      r == RotateState((frame + FrameCount - 1) % FrameCount, Some(x))
    ensures anchor.Some? && anchor.value - RotateThreshold <= x <= anchor.value + RotateThreshold ==>
      r == RotateState(frame, anchor)
  {
    var a := anchor.GetOr(x);
    if x - a < -RotateThreshold then RotateState(NextFrame(frame), Some(x))
    else if x - a > RotateThreshold then RotateState(PrevFrame(frame), Some(x))
    else RotateState(frame, Some(a))
  }

  /** A run of rotate moves at the pointer positions `xs`, in order. */
  function RotateMoves(s: RotateState, xs: seq<int>): RotateState
    decreases |xs|
  {
    if xs == [] then s else RotateMoves(RotateStep(s.frame, s.anchor, xs[0]), xs[1..])
  }

  /** However the pointer moves, the frame stays in 0 .. 59. */
  lemma {:induction false} RotateMovesInRange(s: RotateState, xs: seq<int>)
    requires 0 <= s.frame < FrameCount
    ensures 0 <= RotateMoves(s, xs).frame < FrameCount
    decreases |xs|
  {
    if xs != [] {
      RotateMovesInRange(RotateStep(s.frame, s.anchor, xs[0]), xs[1..]);
    }
  }

  /** `handlePan` at pointer (`x`, `y`): with both anchors set, the pan
      becomes the captured `base` plus the anchor-to-pointer offset;
      otherwise it stays `pan`. */
  function PanStep(base: Pan, xAnchor: Option<int>, yAnchor: Option<int>, pan: Pan, x: int, y: int): (r: Pan)
    ensures xAnchor.None? || yAnchor.None? ==> r == pan
    ensures xAnchor.Some? && yAnchor.Some? ==> r.dx - base.dx == xAnchor.value - x && r.dy - base.dy == yAnchor.value - y
  {
    if xAnchor.Some? && yAnchor.Some? then
      Pan(base.dx + (xAnchor.value - x), base.dy + (yAnchor.value - y))
    else
      pan
  }

  /** A run of pan moves at the pointer positions `ps`, in order. */
  function PanMoves(base: Pan, xAnchor: Option<int>, yAnchor: Option<int>, pan: Pan, ps: seq<(int, int)>): Pan
    decreases |ps|
  {
    if ps == [] then pan
    else PanMoves(base, xAnchor, yAnchor, PanStep(base, xAnchor, yAnchor, pan, ps[0].0, ps[0].1), ps[1..])
  }

  /** Pan moves do not accumulate: after a run of them the pan is the base
      plus the offset of the LAST pointer position from the anchor, and with
      an unset anchor the pan never changes. */
  lemma {:induction false} PanMovesLastWins(base: Pan, xAnchor: Option<int>, yAnchor: Option<int>, pan: Pan, ps: seq<(int, int)>)
    ensures xAnchor.Some? && yAnchor.Some? && ps != [] ==>
      PanMoves(base, xAnchor, yAnchor, pan, ps)
        == Pan(base.dx + (xAnchor.value - ps[|ps| - 1].0), base.dy + (yAnchor.value - ps[|ps| - 1].1))
    ensures xAnchor.None? || yAnchor.None? ==> PanMoves(base, xAnchor, yAnchor, pan, ps) == pan
    decreases |ps|
  {
    if ps != [] {
      var next := PanStep(base, xAnchor, yAnchor, pan, ps[0].0, ps[0].1);
      PanMovesLastWins(base, xAnchor, yAnchor, next, ps[1..]);
    }
  }

  /** The component's navigation state. `frame` is both the `frame` state
      and `frameRef`; `xAnchor`/`yAnchor` are `xPosRef`/`yPosRef`;
      `mode` says which move listener is attached; `handlerPan` is the value
      of `pan` that the registered handlers closed over, which is refreshed
      only when `zoom` changes. */
  class Navigator {
    var frame: int
    var zoom: int
    var pan: Pan
    var xAnchor: Option<int>
    var yAnchor: Option<int>
    var mode: Mode
    var handlerPan: Pan
    var activeEntityId: Option<string>

    ghost predicate Valid()
      reads this
    {
      && 0 <= frame < FrameCount
      && (zoom == ZoomedOut || zoom == ZoomedIn)
      && (mode == Panning ==> xAnchor.Some? && yAnchor.Some?)
    }

    /** The state every ordinary session stays in: no pan while zoomed out,
        the handlers' captured pan is the origin, and panning only while
        zoomed in. */
    ghost predicate Settled()
      reads this
    {
      && (zoom == ZoomedOut ==> pan == NoPan)
      && handlerPan == NoPan
      && (mode == Panning ==> zoom == ZoomedIn)
    }

    constructor ()
      ensures Valid() && Settled()
      ensures frame == 0 && zoom == ZoomedOut && pan == NoPan
      ensures xAnchor == None && yAnchor == None && mode == Idle
      ensures activeEntityId == None
    {
      frame := 0;
      zoom := ZoomedOut;
      pan := NoPan;
      xAnchor := None;
      yAnchor := None;
      mode := Idle;
      handlerPan := NoPan;
      activeEntityId := None;
    }

    /** `handleRotate` */
    method HandleRotate(x: int)
      requires Valid()
      modifies this
      ensures Valid()
      ensures RotateState(frame, xAnchor) == RotateStep(old(frame), old(xAnchor), x)
      ensures zoom == old(zoom) && pan == old(pan) && yAnchor == old(yAnchor)
      ensures mode == old(mode) && handlerPan == old(handlerPan) && activeEntityId == old(activeEntityId)
      ensures old(Settled()) ==> Settled()
    {
      if xAnchor.None? {
        xAnchor := Some(x);
      }
      if x - xAnchor.value < -RotateThreshold {
        xAnchor := Some(x);
        frame := if frame == LastFrame then 0 else frame + 1;
      } else if x - xAnchor.value > RotateThreshold {
        xAnchor := Some(x);
        frame := if frame == 0 then LastFrame else frame - 1;
      }
    }

    /** `handlePan` */
    method HandlePan(x: int, y: int)
      requires Valid()
      modifies this
      ensures Valid()
      ensures pan == PanStep(handlerPan, xAnchor, yAnchor, old(pan), x, y)
      ensures frame == old(frame) && zoom == old(zoom) && xAnchor == old(xAnchor) && yAnchor == old(yAnchor)
      ensures mode == old(mode) && handlerPan == old(handlerPan) && activeEntityId == old(activeEntityId)
      ensures old(Settled()) && zoom == ZoomedIn ==> Settled()
      ensures old(Settled()) && xAnchor.Some? && yAnchor.Some? ==>
        pan == Pan(xAnchor.value - x, yAnchor.value - y)
    {
      if xAnchor.Some? && yAnchor.Some? {
        pan := Pan(handlerPan.dx + (xAnchor.value - x), handlerPan.dy + (yAnchor.value - y));
      }
    }

    /** A window `mousemove`: runs the attached listener, if any. */
    method MouseMove(x: int, y: int)
      requires Valid()
      modifies this
      ensures Valid()
      ensures old(mode) == Idle ==> unchanged(this)
      ensures old(mode) == Rotating ==>
        RotateState(frame, xAnchor) == RotateStep(old(frame), old(xAnchor), x) && pan == old(pan)
      ensures old(mode) == Panning ==>
        pan == PanStep(handlerPan, xAnchor, yAnchor, old(pan), x, y) && frame == old(frame) && xAnchor == old(xAnchor)
      ensures zoom == old(zoom) && yAnchor == old(yAnchor) && mode == old(mode)
      ensures handlerPan == old(handlerPan) && activeEntityId == old(activeEntityId)
      ensures old(Settled()) ==> Settled()
    {
      match mode
      case Idle =>
      case Rotating => HandleRotate(x);
      case Panning => HandlePan(x, y);
    }

    /** `handleMouseDown`: the right button while zoomed in starts a pan drag
        and records both anchors; anything else starts a rotate drag and
        leaves the anchors as they are. */
    method MouseDown(button: int, x: int, y: int)
      requires Valid()
      modifies this
      ensures Valid()
      ensures button == RightButton && old(zoom) != ZoomedOut ==>
        mode == Panning && xAnchor == Some(x) && yAnchor == Some(y)
      ensures !(button == RightButton && old(zoom) != ZoomedOut) ==>
        mode == Rotating && xAnchor == old(xAnchor) && yAnchor == old(yAnchor)
      ensures mode == Panning ==> zoom == ZoomedIn
      ensures frame == old(frame) && zoom == old(zoom) && pan == old(pan)
      ensures handlerPan == old(handlerPan) && activeEntityId == old(activeEntityId)
      ensures old(Settled()) ==> Settled()
    {
      if button == RightButton && zoom != ZoomedOut {
        xAnchor := Some(x);
        yAnchor := Some(y);
        mode := Panning;
      } else {
        mode := Rotating;
      }
    }

    /** `handleMouseUp`: detaches both move listeners; nothing else changes,
        the anchors included. */
    method MouseUp()
      requires Valid()
      modifies this
      ensures Valid()
      ensures mode == Idle
      ensures frame == old(frame) && zoom == old(zoom) && pan == old(pan)
      ensures xAnchor == old(xAnchor) && yAnchor == old(yAnchor)
      ensures handlerPan == old(handlerPan) && activeEntityId == old(activeEntityId)
      ensures old(Settled()) ==> Settled()
    {
      mode := Idle;
    }

    /** `handleWheelScroll`: a delta above 50 resets the pan and zooms out,
        one below -50 zooms in, anything between is ignored. A change of
        zoom re-registers the handlers, which then capture the current pan. */
    method Wheel(deltaY: int)
      requires Valid()
      modifies this
      ensures Valid()
      ensures deltaY > WheelThreshold ==> zoom == ZoomedOut && pan == NoPan
      ensures deltaY < -WheelThreshold ==> zoom == ZoomedIn && pan == old(pan)
      ensures -WheelThreshold <= deltaY <= WheelThreshold ==> zoom == old(zoom) && pan == old(pan)
      ensures handlerPan == if zoom != old(zoom) then pan else old(handlerPan)
      ensures frame == old(frame) && xAnchor == old(xAnchor) && yAnchor == old(yAnchor)
      ensures mode == old(mode) && activeEntityId == old(activeEntityId)
      ensures old(Settled()) && !(mode == Panning && deltaY > WheelThreshold) ==> Settled()
    {
      if deltaY > WheelThreshold {
        pan := NoPan;
        if zoom != ZoomedOut {
          zoom := ZoomedOut;
          handlerPan := pan;
        }
      } else if deltaY < -WheelThreshold {
        if zoom != ZoomedIn {
          zoom := ZoomedIn;
          handlerPan := pan;
        }
      }
    }

    /** `setActiveEntityId`, passed to the scene as its click callback. */
    method SetActiveEntity(id: Option<string>)
      requires Valid()
      modifies this
      ensures Valid()
      ensures activeEntityId == id
      ensures frame == old(frame) && zoom == old(zoom) && pan == old(pan)
      ensures xAnchor == old(xAnchor) && yAnchor == old(yAnchor)
      ensures mode == old(mode) && handlerPan == old(handlerPan)
      ensures old(Settled()) ==> Settled()
    {
      activeEntityId := id;
    }
  }
}
