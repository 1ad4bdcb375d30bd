/**
 * The drag hook: on every gesture callback it either follows the pointer and
 * shows a live hint, or, at the end of the drag, flings the card out and
 * calls `onSwipe` once, or springs it back to the centre.  After one fling
 * the hook ignores every further callback.
 */
module UseSwipe {
  import opened Gesture

  /** Distance a release must exceed to pass the commit gate. */
  const SwipeThreshold: real := 100.0

  /** Speed (in the gesture library's units) a release must exceed to pass the gate. */
  const VelocityThreshold: real := 0.5

  /**
   * The upward distance a release must exceed to fling up: `SWIPE_THRESHOLD / 1.5`
   * as the double it evaluates to, 1/211106232532992 above 200/3.
   */
  const UpwardThreshold: real := 66.6666666666666714036182384006679058074951171875

  /** An upward offset must exceed this for the live hint to show 'up'. */
  const HintDeadZone: real := 30.0

  /** Degrees of rotation per unit of horizontal offset. */
  const RotationFactor: real := 0.15

  /** Where a flung card is sent along its axis. */
  const SwipeOutDistance: real := 1500.0

  /** One callback from the gesture library: its flags, movement and velocity. */
  datatype DragInput = DragInput(active: bool, last: bool, mx: real, my: real, vx: real, vy: real)

  /** The hook's state cells `position`, `direction` and `swiped`. */
  datatype HookState = HookState(x: real, y: real, direction: Direction, swiped: bool)

  /** The state after one callback, and the direction `onSwipe` was called with, if it was. */
  datatype Step = Step(next: HookState, fired: Option<Direction>)

  /** The verdict at the end of a drag. */
  datatype Release = SnapBack | Fling(dir: Direction)

  /** The state after a run of callbacks, and the `onSwipe` calls made on the way. */
  datatype Trace = Trace(final: HookState, calls: seq<Direction>)

  /** The state before any callback. */
  const Initial: HookState := HookState(0.0, 0.0, Neutral, false)

  /**
   * The live hint while the pointer is down: horizontal needs twice the
   * vertical movement, up needs a mostly upward movement past the dead zone.
   */
  function LiveHint(mx: real, my: real): (d: Direction)
    ensures (d == Left || d == Right) <==> Abs(mx) > 2.0 * Abs(my)
    ensures d == Right ==> mx > 0.0
    ensures d == Left ==> mx < 0.0
    ensures d == Up <==> my < -Abs(mx) && my < -HintDeadZone
    ensures d == Up ==> Abs(mx) < Abs(my) && my < -HintDeadZone
  {
    if Abs(mx) > Abs(my) * 2.0 then
      (if mx > 0.0 then Right else Left)
    else if my < -Abs(mx) && my < -HintDeadZone then
      Up
    else
      Neutral
  }

  /** A release is considered at all when it went far enough on either axis or fast enough. */
  predicate PassesGate(mx: real, my: real, vx: real, vy: real)
  {
    Abs(mx) > SwipeThreshold || Abs(my) > SwipeThreshold || Max(Abs(vx), Abs(vy)) > VelocityThreshold
  }

  /** The lenient upward test: two thirds of the threshold, or any upward offset flicked fast upwards. */
  predicate UpwardFling(my: real, vy: real)
  {
    my < -UpwardThreshold || (my < 0.0 && vy < -VelocityThreshold)
  }

  /** The end-of-drag verdict: horizontal before vertical, snap back when neither applies. */
  function ReleaseDecision(mx: real, my: real, vx: real, vy: real): (r: Release)
    ensures !PassesGate(mx, my, vx, vy) ==> r == SnapBack
    ensures PassesGate(mx, my, vx, vy) && Abs(mx) > Abs(my) ==> r == Fling(if mx > 0.0 then Right else Left)
    ensures r == Fling(Up) <==> PassesGate(mx, my, vx, vy) && Abs(mx) <= Abs(my) && UpwardFling(my, vy)
    ensures r == Fling(Up) ==> my < 0.0 && (my < -UpwardThreshold || vy < -VelocityThreshold)
    ensures r.Fling? && r.dir != Up ==> Abs(mx) > Abs(my)
    ensures PassesGate(mx, my, vx, vy) && Abs(mx) <= Abs(my) && !UpwardFling(my, vy) ==> r == SnapBack
    ensures r.Fling? ==> r.dir != Neutral
    ensures my >= 0.0 && Abs(mx) <= Abs(my) ==> r == SnapBack
  {
    if PassesGate(mx, my, vx, vy) then
      if Abs(mx) > Abs(my) then
        Fling(if mx > 0.0 then Right else Left)
      else if UpwardFling(my, vy) then
        Fling(Up)
      else
        SnapBack
    else
      SnapBack
  }

  /** The off-screen position a fling in direction d sends the card to. */
  function FlingTarget(d: Direction): (t: (real, real))
    requires d != Neutral
    ensures d == Up <==> t.0 == 0.0
    ensures d == Up ==> t.1 == -SwipeOutDistance
    ensures d != Up ==> t.1 == 0.0 && Abs(t.0) == SwipeOutDistance && (t.0 > 0.0 <==> d == Right)
  {
    match d
    case Left => (-SwipeOutDistance, 0.0)
    case Right => (SwipeOutDistance, 0.0)
    case Up => (0.0, -SwipeOutDistance)
  }

  /**
   * One callback of the drag handler.  Once `swiped` is set nothing changes;
   * while active the card follows the pointer; at the last event the card is
   * flung (latching `swiped` and calling `onSwipe`, keeping the hint) or
   * returned to the centre with the hint cleared.
   */
  function DragStep(s: HookState, e: DragInput): (t: Step)
    ensures s.swiped ==> t == Step(s, None)
    ensures t.fired.Some? <==> !s.swiped && t.next.swiped
    ensures !s.swiped && e.active ==>
      t == Step(HookState(e.mx, e.my, LiveHint(e.mx, e.my), false), None)
    ensures !s.swiped && !e.active && !e.last ==> t == Step(s, None)
    ensures !s.swiped && !e.active && e.last ==>
      match ReleaseDecision(e.mx, e.my, e.vx, e.vy)
      case SnapBack => t == Step(HookState(0.0, 0.0, Neutral, false), None)
      case Fling(d) =>
        t == Step(HookState(FlingTarget(d).0, FlingTarget(d).1, s.direction, true), Some(d))
  {
    if s.swiped then
      Step(s, None)
    else if e.active then
      Step(HookState(e.mx, e.my, LiveHint(e.mx, e.my), false), None)
    else if e.last then
      match ReleaseDecision(e.mx, e.my, e.vx, e.vy)
      case SnapBack => Step(HookState(0.0, 0.0, Neutral, false), None)
      case Fling(d) => Step(HookState(FlingTarget(d).0, FlingTarget(d).1, s.direction, true), Some(d))
    else
      Step(s, None)
  }

  /** The callbacks es delivered one after another from state s. */
  function Run(s: HookState, es: seq<DragInput>): Trace
    decreases |es|
  {
    if es == [] then
      Trace(s, [])
    else
      var t := DragStep(s, es[0]);
      var rest := Run(t.next, es[1..]);
      Trace(rest.final, (if t.fired.Some? then [t.fired.value] else []) + rest.calls)
  }

  /** `rotate`: the card's tilt in degrees for its horizontal position. */
  function Rotation(x: real): (r: real)
    ensures r == 0.0 <==> x == 0.0
    ensures r > 0.0 <==> x > 0.0
    ensures x != 0.0 ==> Abs(r) < Abs(x)
  {
    x * RotationFactor
  }

  /** The eased return transition is used exactly at the centre; elsewhere none. */
  function EasedTransition(x: real, y: real): (b: bool)
    ensures b <==> x == 0.0 && y == 0.0
    ensures b ==> Rotation(x) == 0.0
  {
    x == 0.0 && y == 0.0
  }

  /** A hook that has latched stays exactly as it is for any further callbacks. */
  lemma {:induction false} LatchedIsFinal(s: HookState, es: seq<DragInput>)
    requires s.swiped
    ensures Run(s, es) == Trace(s, [])
    decreases |es|
  {
    if es != [] {
      LatchedIsFinal(s, es[1..]);
    }
  }

  /**
   * Over any run of callbacks `onSwipe` is called at most once, not at all
   * from a latched state, and it was called exactly when the run ends latched.
   */
  lemma {:induction false} OnSwipeAtMostOnce(s: HookState, es: seq<DragInput>)
    ensures |Run(s, es).calls| <= (if s.swiped then 0 else 1)
    ensures !s.swiped ==> (|Run(s, es).calls| == 1 <==> Run(s, es).final.swiped)
    ensures s.swiped ==> Run(s, es).final.swiped
    decreases |es|
  {
    if es != [] {
      var t := DragStep(s, es[0]);
      OnSwipeAtMostOnce(t.next, es[1..]);
      if t.fired.Some? {
        LatchedIsFinal(t.next, es[1..]);
      }
    }
  }

  /**
   * A horizontal live hint carries over to the release: when the gate passes
   * the card is flung the way the hint pointed.  An up hint never turns into
   * a sideways fling.
   */
  lemma HintAgreesWithRelease(mx: real, my: real, vx: real, vy: real)
    ensures LiveHint(mx, my) in {Left, Right} && PassesGate(mx, my, vx, vy) ==>
      ReleaseDecision(mx, my, vx, vy) == Fling(LiveHint(mx, my))
    ensures LiveHint(mx, my) == Up ==>
      ReleaseDecision(mx, my, vx, vy) in {SnapBack, Fling(Up)}
  {
  }

  /** An up hint held past two thirds of the threshold always flings up at release. */
  lemma UpHintPastTwoThirdsFlingsUp(mx: real, my: real, vx: real, vy: real)
    requires LiveHint(mx, my) == Up && my < -UpwardThreshold
    requires Abs(my) > SwipeThreshold || Max(Abs(vx), Abs(vy)) > VelocityThreshold || Abs(mx) > SwipeThreshold
    ensures ReleaseDecision(mx, my, vx, vy) == Fling(Up)
  {
  }

  /** At the end of a drag the eased return is selected exactly when `onSwipe` was not called. */
  lemma EasedExactlyOnSnapBack(s: HookState, e: DragInput)
    requires !s.swiped && !e.active && e.last
    ensures EasedTransition(DragStep(s, e).next.x, DragStep(s, e).next.y) <==> DragStep(s, e).fired.None?
  {
    var t := DragStep(s, e);
    match ReleaseDecision(e.mx, e.my, e.vx, e.vy)
    case SnapBack =>
    case Fling(d) =>
      assert (t.next.x, t.next.y) == FlingTarget(d);
  }

  /** A flung card is tilted 225 degrees one way or the other, or not at all when flung up. */
  lemma FlingRotation(d: Direction)
    requires d != Neutral
    ensures Rotation(FlingTarget(d).0) == match d
      case Left => -225.0
      case Right => 225.0
      case Up => 0.0
      case Neutral => 0.0
  {
  }

  /** The hook's state cells and the `onSwipe` calls it has made. */
  class SwipeHook {
    var positionX: real
    var positionY: real
    var direction: Direction
    var swiped: bool
    /** The calls made to `onSwipe`, in order. */
    ghost var onSwipeCalls: seq<Direction>

    function State(): HookState
      reads this
    {
      HookState(positionX, positionY, direction, swiped)
    }

    ghost predicate Valid()
      reads this
    {
      && |onSwipeCalls| <= 1
      && (swiped <==> |onSwipeCalls| == 1)
    }

    constructor ()
      ensures Valid() && State() == Initial && onSwipeCalls == []
    {
      positionX, positionY := 0.0, 0.0;
      direction := Neutral;
      swiped := false;
      onSwipeCalls := [];
    }

    /** The `useDrag` callback; `swipe` is the direction `onSwipe` is called with, if any. */
    method OnDrag(e: DragInput) returns (swipe: Option<Direction>)
      requires Valid()
      modifies this
      ensures Valid()
      ensures Step(State(), swipe) == DragStep(old(State()), e)
      ensures onSwipeCalls == old(onSwipeCalls) + (if swipe.Some? then [swipe.value] else [])
    {
      swipe := None;
      if swiped {
        return;
      }
      if e.active {
        positionX, positionY := e.mx, e.my;
        if Abs(e.mx) > Abs(e.my) * 2.0 {
          direction := if e.mx > 0.0 then Right else Left;
        } else if e.my < -Abs(e.mx) && e.my < -HintDeadZone {
          direction := Up;
        } else {
          direction := Neutral;
        }
      } else if e.last {
        var isHorizontalSwipe := Abs(e.mx) > Abs(e.my);
        var isHighVelocity := Max(Abs(e.vx), Abs(e.vy)) > VelocityThreshold;
        if Abs(e.mx) > SwipeThreshold || Abs(e.my) > SwipeThreshold || isHighVelocity {
          if isHorizontalSwipe {
            positionX := if e.mx > 0.0 then SwipeOutDistance else -SwipeOutDistance;
            positionY := 0.0;
            swiped := true;
            swipe := Some(if e.mx > 0.0 then Right else Left);
          } else if e.my < -UpwardThreshold || (e.my < 0.0 && e.vy < -VelocityThreshold) {
            positionX, positionY := 0.0, -SwipeOutDistance;
            swiped := true;
            swipe := Some(Up);
          } else {
            positionX, positionY := 0.0, 0.0;
            direction := Neutral;
          }
        } else {
          positionX, positionY := 0.0, 0.0;
          direction := Neutral;
        }
      }
      if swipe.Some? {
        onSwipeCalls := onSwipeCalls + [swipe.value];
      }
    }
  }
}
