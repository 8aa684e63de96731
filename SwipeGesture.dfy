/**
 * The swipe gesture hook: while the card is dragged it previews a vote
 * direction and a drag intensity; when the drag ends it classifies the offset
 * into one of the three vote types (or none) and votes only on a fast enough
 * release. Offsets are in pixels and velocities in pixels per millisecond,
 * modelled as exact reals.
 */
module SwipeGesture {
  import opened Wrappers
  import opened IdeaTypes

  /** Offset a release must exceed to vote. */
  const SwipeThreshold: real := 100.0
  /** Speed a release must reach to vote. */
  const SwipeVelocity: real := 0.3
  /** Offset a drag must exceed to preview a direction. */
  const PreviewThreshold: real := 50.0
  /** Offset at which the preview intensity saturates. */
  const MaxDragDistance: real := 150.0

  function Abs(x: real): real {
    if x < 0.0 then -x else x
  }

  function Min(a: real, b: real): real {
    if a <= b then a else b
  }

  function Max(a: real, b: real): real {
    if a >= b then a else b
  }

  /** How a drag event changes the previewed direction: not at all, or to the given value. */
  datatype PreviewUpdate = Keep | SetTo(direction: Option<VoteType>)

  /** What one drag event does: its effect on the previewed direction and the new intensity. */
  datatype DragPreview = DragPreview(update: PreviewUpdate, intensity: real)

  /**
   * The preview for a drag at offset (`x`, `y`). A horizontal-dominant drag
   * previews superLike to the right and neutral to the left past 50 pixels and
   * otherwise keeps the previous direction; a vertical-dominant drag previews
   * up past 50 pixels upwards and clears the direction otherwise.
   */
  function Preview(x: real, y: real): (p: DragPreview)
    ensures 0.0 <= p.intensity <= 1.0
    ensures p.update.SetTo? && p.update.direction.Some? ==> p.intensity > 1.0 / 3.0
    ensures p.update == Keep <==> Abs(x) > Abs(y) && -PreviewThreshold <= x <= PreviewThreshold
    ensures p.update == SetTo(None) <==> Abs(x) <= Abs(y) && y >= -PreviewThreshold
    ensures p.update == SetTo(Some(SuperLike)) <==> Abs(x) > Abs(y) && x > PreviewThreshold
    ensures p.update == SetTo(Some(Neutral)) <==> Abs(x) > Abs(y) && x < -PreviewThreshold
    ensures p.update == SetTo(Some(Up)) <==> Abs(x) <= Abs(y) && y < -PreviewThreshold
  {
    if Abs(x) > Abs(y) then
      var intensity := Min(Abs(x) / MaxDragDistance, 1.0);
      if x > PreviewThreshold then DragPreview(SetTo(Some(SuperLike)), intensity)
      else if x < -PreviewThreshold then DragPreview(SetTo(Some(Neutral)), intensity)
      else DragPreview(Keep, intensity)
    else if y < -PreviewThreshold then
      DragPreview(SetTo(Some(Up)), Min(Abs(y) / MaxDragDistance, 1.0))
    else
      DragPreview(SetTo(None), 0.0)
  }

  /**
   * The vote a drag released at offset (`x`, `y`) asks for: right past 100
   * pixels is superLike, left past 100 is neutral, up past 100 is up. Ties
   * between the axes count as vertical, and a downward drag never votes.
   */
  function EndDirection(x: real, y: real): (d: Option<VoteType>)
    ensures d == Some(SuperLike) <==> Abs(x) > Abs(y) && x > SwipeThreshold
    ensures d == Some(Neutral) <==> Abs(x) > Abs(y) && x < -SwipeThreshold
    ensures d == Some(Up) <==> Abs(x) <= Abs(y) && y < -SwipeThreshold
  {
    if Abs(x) > Abs(y) then
      if x > SwipeThreshold then Some(SuperLike)
      else if x < -SwipeThreshold then Some(Neutral)
      else None
    else if y < -SwipeThreshold then Some(Up)
    else None
  }

  /** The vote a release fires: a direction, and a speed on the faster axis of at least 0.3. */
  function Fired(x: real, y: real, vx: real, vy: real): (d: Option<VoteType>)
    ensures d.Some? <==> EndDirection(x, y).Some? && Max(Abs(vx), Abs(vy)) >= SwipeVelocity
    ensures d.Some? ==> d == EndDirection(x, y)
  {
    var direction := EndDirection(x, y);
    if direction.Some? && Max(Abs(vx), Abs(vy)) >= SwipeVelocity then direction else None
  }

  /** Whenever a release votes, the drag just before it at the same offset previewed the same vote. */
  lemma PreviewAgreesWithRelease(x: real, y: real)
    ensures EndDirection(x, y).Some? ==> Preview(x, y).update == SetTo(EndDirection(x, y))
  {
  }

  /** A release that is not clearly upward and is at least as vertical as horizontal never votes. */
  lemma DownwardNeverVotes(x: real, y: real)
    requires Abs(x) <= Abs(y) && y >= -SwipeThreshold
    ensures EndDirection(x, y).None?
  {
  }

  /** A card pose: position, rotation in degrees and opacity. */
  datatype Pose = Pose(x: real, y: real, rotate: real, opacity: real)

  /** The resting pose the card springs back to. */
  const Rest: Pose := Pose(0.0, 0.0, 0.0, 1.0)

  /** The pose a card flies off to for each vote: off the right, top or left edge, faded out. */
  function ExitPose(t: VoteType): (p: Pose)
    ensures p.opacity == 0.0
    ensures (p.x > 0.0 <==> t == SuperLike) && (p.x < 0.0 <==> t == Neutral) && (p.y < 0.0 <==> t == Up)
    ensures (p.rotate > 0.0 <==> p.x > 0.0) && (p.rotate < 0.0 <==> p.x < 0.0)
  {
    match t
    case SuperLike => Pose(1000.0, 0.0, 30.0, 0.0)
    case Up => Pose(0.0, -1000.0, 0.0, 0.0)
    case Neutral => Pose(-1000.0, 0.0, -30.0, 0.0)
  }

  class GestureState {
    var swipeDirection: Option<VoteType>
    var dragIntensity: real

    ghost predicate Valid()
      reads this
    {
      0.0 <= dragIntensity <= 1.0
    }

    constructor ()
      ensures Valid() && swipeDirection.None? && dragIntensity == 0.0
    {
      swipeDirection := None;
      dragIntensity := 0.0;
    }

    /** A drag event at offset (`x`, `y`): updates the preview as `Preview` says. */
    method HandleDrag(x: real, y: real)
      requires Valid()
      modifies this
      ensures Valid()
      ensures dragIntensity == Preview(x, y).intensity
      ensures swipeDirection == match Preview(x, y).update
                                case Keep => old(swipeDirection)
                                case SetTo(d) => d
    {
      var intensity := 0.0;
      if Abs(x) > Abs(y) {
        intensity := Min(Abs(x) / MaxDragDistance, 1.0);
        if x > PreviewThreshold {
          swipeDirection := Some(SuperLike);
        } else if x < -PreviewThreshold {
          swipeDirection := Some(Neutral);
        }
      } else if y < -PreviewThreshold {
        intensity := Min(Abs(y) / MaxDragDistance, 1.0);
        swipeDirection := Some(Up);
      } else {
        swipeDirection := None;
      }
      dragIntensity := intensity;
    }

    /**
     * The release at offset (`x`, `y`) with velocity (`vx`, `vy`). Returns the
     * vote handed to the vote handler (called at most once, only when
     * `Fired` gives a direction) and the pose the card is animated to first;
     * the preview is reset on every path.
     */
    method HandleDragEnd(x: real, y: real, vx: real, vy: real) returns (voted: Option<VoteType>, target: Pose)
      requires Valid()
      modifies this
      ensures Valid()
      ensures voted == Fired(x, y, vx, vy)
      ensures target == if voted.Some? then ExitPose(voted.value) else Rest
      ensures swipeDirection.None? && dragIntensity == 0.0
    {
      var velocity := Max(Abs(vx), Abs(vy));
      var direction: Option<VoteType> := None;
      if Abs(x) > Abs(y) {
        if x > SwipeThreshold {
          direction := Some(SuperLike);
        } else if x < -SwipeThreshold {
          direction := Some(Neutral);
        }
      } else if y < -SwipeThreshold {
        direction := Some(Up);
      }
      if direction.Some? && velocity >= SwipeVelocity {
        target := ExitPose(direction.value);
        voted := direction;
      } else {
        target := Rest;
        voted := None;
      }
      swipeDirection := None;
      dragIntensity := 0.0;
    }
  }
}
