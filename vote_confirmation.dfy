/** What both slices do with a confirmed vote response `{ userId, voteType }`:
    filter the user out of both lists, then push the user onto the up list when
    `voteType` is 1 and onto the down list when it is -1. Here that surgery is
    specified through the optimistic reducer, so the stores' methods, which do the
    surgery step by step, prove that the confirmed state agrees with the reducer. */
module VoteConfirmation {
  import opened OptimisticVote

  /** The three vote routes a client can call (up-vote, down-vote, neutral-vote). */
  datatype Endpoint = UpVoteEndpoint | DownVoteEndpoint | NeutralVoteEndpoint

  /** The reducer tag a server `voteType` stands for: 1 up, -1 down, any other
      number neutral. */
  function DirectionOf(voteType: int): (k: VoteType)
    ensures k.UpVote? <==> voteType == 1
    ensures k.DownVote? <==> voteType == -1
    ensures k.NeutralVote? <==> voteType != 1 && voteType != -1
  {
    if voteType == 1 then UpVote else if voteType == -1 then DownVote else NeutralVote
  }

  /** The `voteType` the server reports back for a request made with a recognised
      tag (the documented API: 1, -1 and 0). */
  function VoteTypeOf(k: VoteType): (v: int)
    requires !k.Unrecognised?
    ensures DirectionOf(v) == k
  {
    match k
    case UpVote => 1
    case DownVote => -1
    case NeutralVote => 0
  }

  /** The confirmed membership after the server reports `voteType` for `userId`. */
  function ConfirmVotes(m: VoteState, userId: UserId, voteType: int): (r: VoteState)
    ensures userId in r.upVotes <==> voteType == 1
    ensures userId in r.downVotes <==> voteType == -1
    ensures forall x :: x != userId ==> (x in r.upVotes <==> x in m.upVotes) && (x in r.downVotes <==> x in m.downVotes)
  {
    Reduce(m, VoteAction(DirectionOf(voteType), userId))
  }

  /** After a confirmation the user is an up-voter iff `voteType` is 1 and a
      down-voter iff it is -1, so any other value clears the user's vote; other
      users' entries keep their order and multiplicity, and disjoint lists stay
      disjoint. */
  lemma ConfirmedMembership(m: VoteState, userId: UserId, voteType: int)
    ensures userId in ConfirmVotes(m, userId, voteType).upVotes <==> voteType == 1
    ensures userId in ConfirmVotes(m, userId, voteType).downVotes <==> voteType == -1
    ensures Without(ConfirmVotes(m, userId, voteType).upVotes, userId) == Without(m.upVotes, userId)
    ensures Without(ConfirmVotes(m, userId, voteType).downVotes, userId) == Without(m.downVotes, userId)
    ensures Disjoint(m) ==> Disjoint(ConfirmVotes(m, userId, voteType))
  {
    var a := VoteAction(DirectionOf(voteType), userId);
    OthersUntouched(m, a);
    DisjointPreserved(m, a);
  }

  /** A confirmation replaces any optimistic guess the same user's earlier action
      produced: confirming on top of `Reduce(m, a)` is confirming on `m`. */
  lemma ConfirmationOverridesGuess(m: VoteState, a: VoteAction, voteType: int)
    ensures ConfirmVotes(Reduce(m, a), a.userId, voteType) == ConfirmVotes(m, a.userId, voteType)
  {
    LastActionWins(m, a, VoteAction(DirectionOf(voteType), a.userId));
  }

  /** When the server agrees with the optimistic action, the confirmed lists are
      exactly the ones the optimistic layer showed, so nothing flickers. */
  lemma AgreeingConfirmation(m: VoteState, a: VoteAction)
    requires !a.kind.Unrecognised?
    ensures ConfirmVotes(m, a.userId, VoteTypeOf(a.kind)) == Reduce(m, a)
    ensures ConfirmVotes(Reduce(m, a), a.userId, VoteTypeOf(a.kind)) == Reduce(m, a)
  {
    ReduceIdempotent(m, a);
  }
}
