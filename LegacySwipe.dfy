/**
 * The older two-button swipe card. Its vote handler is guarded by an
 * `isVoting` flag so that votes cannot overlap: the handler sets the flag and
 * the animated direction, awaits the vote callback, and clears both whether
 * the callback resolves or rejects. The await splits the handler in two here:
 * `HandleVote` runs up to the call of the callback, `Settle` is the `finally`.
 */
module LegacySwipe {
  import opened Wrappers

  datatype Direction = Up | Down

  /** The animation target of the card: horizontal offset and rotation. */
  datatype Pose = Pose(x: int, rotate: int)

  /** Up flies off to the right, down to the left, and no direction keeps the card centred. */
  function AnimationTarget(direction: Option<Direction>): (p: Pose)
    ensures direction.None? <==> p == Pose(0, 0)
    ensures direction == Some(Up) ==> p.x == 1000 && p.rotate == 45
    ensures direction == Some(Down) ==> p.x == -1000 && p.rotate == -45
  {
    match direction
    case Some(Up) => Pose(1000, 45)
    case Some(Down) => Pose(-1000, -45)
    case None => Pose(0, 0)
  }

  class SwipeCard {
    var isVoting: bool
    var direction: Option<Direction>

    /** The card only flies off while a vote is in flight. */
    ghost predicate Valid()
      reads this
    {
      direction.Some? ==> isVoting
    }

    constructor ()
      ensures Valid() && !isVoting && direction.None?
    {
      isVoting := false;
      direction := None;
    }

    /**
     * A click on a vote button. While a vote is in flight it does nothing;
     * otherwise it marks the vote in flight, animates towards `t`, and returns
     * the one call made to the vote callback.
     */
    method HandleVote(t: Direction) returns (call: Option<Direction>)
      requires Valid()
      modifies this
      ensures Valid()
      ensures old(isVoting) ==> call.None? && isVoting && direction == old(direction)
      ensures !old(isVoting) ==> call == Some(t) && isVoting && direction == Some(t)
    {
      if isVoting {
        call := None;
        return;
      }
      isVoting := true;
      direction := Some(t);
      call := Some(t);
    }

    /** The vote callback resolved or rejected: errors are swallowed and both flags are cleared. */
    method Settle()
      requires Valid()
      modifies this
      ensures Valid() && !isVoting && direction.None?
    {
      isVoting := false;
      direction := None;
    }
  }

  /** The callback invocations a click made: none or one. */
  function CallsMade(call: Option<Direction>): seq<Direction> {
    match call
    case Some(d) => [d]
    case None => []
  }

  /**
   * Two clicks before the first vote settles reach the callback once, with
   * the first click's direction; after settling the card accepts votes again.
   */
  method NoOverlappingVotes(card: SwipeCard, first: Direction, second: Direction)
    returns (calls: seq<Direction>)
    requires card.Valid() && !card.isVoting
    modifies card
    ensures calls == [first]
    ensures card.Valid() && !card.isVoting && card.direction.None?
  {
    var c1 := card.HandleVote(first);
    var c2 := card.HandleVote(second);
    calls := CallsMade(c1) + CallsMade(c2);
    card.Settle();
  }
}
