/** The shapes of a stored product idea and of a vote, as the voting client sees them. */
module IdeaTypes {
  import opened Wrappers

  /** The three mutually exclusive vote categories. */
  datatype VoteType = SuperLike | Up | Neutral

  /** Per-idea vote counters; the schema defaults each to 0 and they never go negative. */
  datatype Votes = Votes(up: nat, neutral: nat, superLike: nat)

  /** A stored idea as the server returns it. `creatorId` is optional in the record. */
  datatype ProductIdea = ProductIdea(
    id: string,
    title: string,
    description: string,
    votes: Votes,
    shareableId: string,
    groupId: string,
    order: int,
    createdAt: string,
    creatorId: Option<string>)

  /** A vote on an idea, kept for the confirmation banner and as the undo buffer. */
  datatype VoteConfirmation = VoteConfirmation(voteType: VoteType, idea: ProductIdea)
}
