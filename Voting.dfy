/**
 * The client voting hook: a cursor into the list of ideas being voted on, a
 * transient vote confirmation, a one-slot undo buffer and a re-entrancy flag.
 * Each handler runs to completion (the 800 ms display delay and the awaits
 * are not interleaved with other handlers); the server's reply is an input.
 */
module Voting {
  import opened Wrappers
  import opened IdeaTypes

  /**
   * What the hook gets back from a vote or undo request: whether the HTTP
   * status was ok, and the JSON body read as an idea (`None` when the body
   * could not be parsed). An idea whose `shareableId` field is absent or
   * empty carries the empty string there.
   */
  datatype Reply = Reply(ok: bool, body: Option<ProductIdea>)

  /** The request a handler sends: the idea's public id, and the vote type for a vote. */
  datatype VoteRequest = VoteRequest(shareableId: string, voteType: VoteType)

  /** A vote reply the hook accepts: ok status, a parsed body, and a non-empty `shareableId`. */
  predicate VoteAccepted(reply: Reply) {
    reply.ok && reply.body.Some? && reply.body.value.shareableId != ""
  }

  /** An undo reply the hook accepts: ok status and a parsed body; the id is not checked. */
  predicate UndoAccepted(reply: Reply) {
    reply.ok && reply.body.Some?
  }

  /** The public ids of `ideas`, in order. */
  function Ids(ideas: seq<ProductIdea>): (r: seq<string>)
    ensures |r| == |ideas|
    ensures forall i :: 0 <= i < |ideas| ==> r[i] == ideas[i].shareableId
  {
    if |ideas| == 0 then [] else [ideas[0].shareableId] + Ids(ideas[1..])
  }

  /**
   * The list with every idea that shares `updated`'s public id replaced by
   * `updated`. The list keeps its length; all other entries are untouched.
   */
  function MergeById(ideas: seq<ProductIdea>, updated: ProductIdea): (r: seq<ProductIdea>)
    ensures |r| == |ideas|
    ensures forall i :: 0 <= i < |ideas| && ideas[i].shareableId == updated.shareableId ==> r[i] == updated
    ensures forall i :: 0 <= i < |ideas| && ideas[i].shareableId != updated.shareableId ==> r[i] == ideas[i]
  {
    if |ideas| == 0 then []
    else
      var head := if ideas[0].shareableId == updated.shareableId then updated else ideas[0];
      [head] + MergeById(ideas[1..], updated)
  }

  /** Merging never changes which idea sits where: the id sequence is preserved. */
  lemma {:induction false} MergeKeepsIds(ideas: seq<ProductIdea>, updated: ProductIdea)
    ensures Ids(MergeById(ideas, updated)) == Ids(ideas)
  {
    if |ideas| > 0 {
      MergeKeepsIds(ideas[1..], updated);
      assert MergeById(ideas, updated)[1..] == MergeById(ideas[1..], updated);
    }
  }

  /** Merging the same reply twice is the same as merging it once. */
  lemma {:induction false} MergeIdempotent(ideas: seq<ProductIdea>, updated: ProductIdea)
    ensures MergeById(MergeById(ideas, updated), updated) == MergeById(ideas, updated)
  {
    if |ideas| > 0 {
      MergeIdempotent(ideas[1..], updated);
      assert MergeById(ideas, updated)[1..] == MergeById(ideas[1..], updated);
    }
  }

  /** Merging a reply for an id that is not in the list changes nothing. */
  lemma {:induction false} MergeAbsent(ideas: seq<ProductIdea>, updated: ProductIdea)
    requires updated.shareableId !in Ids(ideas)
    ensures MergeById(ideas, updated) == ideas
  {
    if |ideas| > 0 {
      assert Ids(ideas)[0] == ideas[0].shareableId;
      assert Ids(ideas[1..]) == Ids(ideas)[1..];
      MergeAbsent(ideas[1..], updated);
    }
  }

  class VotingSession {
    var ideas: seq<ProductIdea>
    var currentIndex: int
    var voteConfirmation: Option<VoteConfirmation>
    var lastVote: Option<VoteConfirmation>
    var isVoting: bool

    /**
     * The cursor stays within the list; the confirmation banner is gone once a
     * handler has finished; and a pending undo always refers to the idea just
     * behind the cursor, so stepping back never goes below 0.
     */
    ghost predicate Valid()
      reads this
    {
      && 0 <= currentIndex <= |ideas|
      && voteConfirmation.None?
      && (lastVote.Some? ==>
            currentIndex >= 1 && lastVote.value.idea.shareableId == ideas[currentIndex - 1].shareableId)
    }

    constructor (initial: seq<ProductIdea>)
      ensures Valid()
      ensures ideas == initial && currentIndex == 0
      ensures voteConfirmation.None? && lastVote.None? && !isVoting
    {
      ideas := initial;
      currentIndex := 0;
      voteConfirmation := None;
      lastVote := None;
      isVoting := false;
    }

    /**
     * Vote `voteType` on the idea under the cursor, with `reply` standing for
     * the server's answer. Blocked when the cursor is past the end or a vote
     * is in progress; otherwise sends one request, and either merges the
     * returned idea and advances, or drops the pending vote and stays put.
     */
    method HandleVote(voteType: VoteType, reply: Reply) returns (request: Option<VoteRequest>)
      requires Valid()
      modifies this
      ensures Valid()
      ensures old(currentIndex >= |ideas| || isVoting) ==>
        request.None? && ideas == old(ideas) && currentIndex == old(currentIndex)
        && voteConfirmation == old(voteConfirmation) && lastVote == old(lastVote) && isVoting == old(isVoting)
      ensures !old(currentIndex >= |ideas| || isVoting) ==>
        request == Some(VoteRequest(old(ideas[currentIndex].shareableId), voteType)) && !isVoting && voteConfirmation.None?
      ensures !old(currentIndex >= |ideas| || isVoting) && VoteAccepted(reply) ==>
        ideas == MergeById(old(ideas), reply.body.value)
        && currentIndex == old(currentIndex) + 1
        && lastVote == Some(VoteConfirmation(voteType, old(ideas[currentIndex])))
      ensures !old(currentIndex >= |ideas| || isVoting) && !VoteAccepted(reply) ==>
        ideas == old(ideas) && currentIndex == old(currentIndex) && lastVote.None?
    {
      if currentIndex >= |ideas| || isVoting {
        request := None;
        return;
      }
      isVoting := true;
      var currentIdea := ideas[currentIndex];
      voteConfirmation := Some(VoteConfirmation(voteType, currentIdea));
      lastVote := Some(VoteConfirmation(voteType, currentIdea));
      request := Some(VoteRequest(currentIdea.shareableId, voteType));
      if VoteAccepted(reply) {
        var updated := reply.body.value;
        MergeKeepsIds(ideas, updated);
        ideas := MergeById(ideas, updated);
        voteConfirmation := None;
        currentIndex := currentIndex + 1;
        assert Ids(ideas)[currentIndex - 1] == Ids(old(ideas))[currentIndex - 1];
      } else {
        voteConfirmation := None;
        lastVote := None;
      }
      isVoting := false;
    }

    /**
     * Undo the last vote, with `reply` standing for the server's answer to the
     * undo request. Without a pending vote nothing is sent and nothing changes;
     * a rejected reply changes nothing; an accepted one merges the returned
     * idea, clears the buffer and steps the cursor back by one.
     */
    method HandleUndo(reply: Reply) returns (request: Option<string>)
      requires Valid()
      modifies this
      ensures Valid()
      ensures old(lastVote).None? ==> request.None?
      ensures old(lastVote).Some? ==> request == Some(old(lastVote).value.idea.shareableId)
      ensures old(lastVote).None? || !UndoAccepted(reply) ==>
        ideas == old(ideas) && currentIndex == old(currentIndex)
        && voteConfirmation == old(voteConfirmation) && lastVote == old(lastVote) && isVoting == old(isVoting)
      ensures old(lastVote).Some? && UndoAccepted(reply) ==>
        ideas == MergeById(old(ideas), reply.body.value)
        && currentIndex == old(currentIndex) - 1
        && voteConfirmation.None? && lastVote.None? && isVoting == old(isVoting)
    {
      if lastVote.None? {
        request := None;
        return;
      }
      request := Some(lastVote.value.idea.shareableId);
      if !UndoAccepted(reply) {
        return;
      }
      var updated := reply.body.value;
      ideas := MergeById(ideas, updated);
      voteConfirmation := None;
      lastVote := None;
      currentIndex := currentIndex - 1;
    }
  }

  /**
   * A client run: an accepted vote followed by an accepted undo puts the
   * cursor back where it was and empties the undo buffer.
   */
  method VoteThenUndo(session: VotingSession, voteType: VoteType, voteReply: Reply, undoReply: Reply)
    requires session.Valid() && !session.isVoting && session.currentIndex < |session.ideas|
    requires VoteAccepted(voteReply) && UndoAccepted(undoReply)
    modifies session
    ensures session.Valid()
    ensures session.currentIndex == old(session.currentIndex)
    ensures session.lastVote.None? && !session.isVoting
    ensures |session.ideas| == old(|session.ideas|)
  {
    var sent := session.HandleVote(voteType, voteReply);
    var undone := session.HandleUndo(undoReply);
    assert undone.Some?;
  }
}
