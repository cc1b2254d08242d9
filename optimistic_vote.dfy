/** The optimistic vote reducer: next up-/down-voter lists from the current
    lists and one user's vote action. */
module OptimisticVote {
  import opened Lists

  type UserId = string

  /** The action tag. The first three are the tags the type admits; `Unrecognised`
      stands for any other tag a caller forces through, which the reducer ignores. */
  datatype VoteType = UpVote | DownVote | NeutralVote | Unrecognised(tag: string)

  datatype VoteState = VoteState(upVotes: seq<UserId>, downVotes: seq<UserId>)

  datatype VoteAction = VoteAction(kind: VoteType, userId: UserId)

  /** The list with every occurrence of `u` filtered out; all other ids keep their
      order and their multiplicity. */
  function Without(s: seq<UserId>, u: UserId): (r: seq<UserId>)
    ensures multiset(r) == multiset(s)[u := 0]
    ensures forall x :: x in r <==> x in s && x != u
    ensures u !in s ==> r == s
  {
    if s == [] then []
    else
      assert s == [s[0]] + s[1..];
      if s[0] == u then Without(s[1..], u)
      else [s[0]] + Without(s[1..], u)
  }

  /** Filtering keeps the remaining ids in their order: the result is a
      subsequence of the input. With the multiset clause of `Without` this fixes
      the result uniquely. */
  lemma {:induction false} WithoutKeepsOrder(s: seq<UserId>, u: UserId)
    ensures IsSubsequence(Without(s, u), s)
    decreases |s|
  {
    if s != [] {
      WithoutKeepsOrder(s[1..], u);
    }
  }

  /** Filtering shortens the list by the number of entries of `u`. */
  lemma WithoutLength(s: seq<UserId>, u: UserId)
    ensures |Without(s, u)| == |s| - multiset(s)[u]
  {
    assert |multiset(Without(s, u))| == |multiset(s)| - multiset(s)[u];
  }

  /** No id is both an up-voter and a down-voter. */
  ghost predicate Disjoint(m: VoteState) {
    forall x :: x in m.upVotes ==> x !in m.downVotes
  }

  /** The reducer. Every recognised action first takes the user out of both lists;
      an up or down vote then appends the user to the matching list. */
  function Reduce(state: VoteState, action: VoteAction): (r: VoteState)
    ensures action.kind.UpVote? ==> action.userId in r.upVotes && action.userId !in r.downVotes
    ensures action.kind.DownVote? ==> action.userId !in r.upVotes && action.userId in r.downVotes
    ensures action.kind.NeutralVote? ==> action.userId !in r.upVotes && action.userId !in r.downVotes
    ensures action.kind.Unrecognised? ==> r == state
  {
    var u := action.userId;
    match action.kind
    case UpVote => VoteState(Without(state.upVotes, u) + [u], Without(state.downVotes, u))
    case DownVote => VoteState(Without(state.upVotes, u), Without(state.downVotes, u) + [u])
    case NeutralVote => VoteState(Without(state.upVotes, u), Without(state.downVotes, u))
    case Unrecognised(_) => state
  }

  lemma {:induction false} WithoutAppend(a: seq<UserId>, b: seq<UserId>, u: UserId)
    ensures Without(a + b, u) == Without(a, u) + Without(b, u)
  {
    if a == [] {
      assert a + b == b;
    } else {
      assert (a + b)[1..] == a[1..] + b;
      WithoutAppend(a[1..], b, u);
      if a[0] != u {
        assert [a[0]] + (Without(a[1..], u) + Without(b, u)) == ([a[0]] + Without(a[1..], u)) + Without(b, u);
      }
    }
  }

  /** Filtering the user out of a list the user was just appended to gives the
      list with the user filtered out. */
  lemma WithoutAfterAppend(s: seq<UserId>, u: UserId)
    ensures Without(Without(s, u) + [u], u) == Without(s, u)
  {
    WithoutAppend(Without(s, u), [u], u);
    assert Without([u], u) == [];
  }

  /** After an up vote the user is an up-voter exactly once, in the last place, and
      not a down-voter; the up-vote count gains one minus the user's old entries.
      In particular an up vote by the sole up-voter leaves the list as it was. */
  lemma UpVoteResult(s: VoteState, u: UserId)
    ensures var r := Reduce(s, VoteAction(UpVote, u));
      && |r.upVotes| > 0 && r.upVotes[|r.upVotes| - 1] == u
      && multiset(r.upVotes)[u] == 1
      && u !in r.downVotes
      && |r.upVotes| == |s.upVotes| - multiset(s.upVotes)[u] + 1
      && (s.upVotes == [u] ==> r.upVotes == [u])
  {
    var w := Without(s.upVotes, u);
    assert multiset(w + [u]) == multiset(w) + multiset{u};
    WithoutLength(s.upVotes, u);
  }

  /** The mirror of `UpVoteResult` for a down vote. */
  lemma DownVoteResult(s: VoteState, u: UserId)
    ensures var r := Reduce(s, VoteAction(DownVote, u));
      && |r.downVotes| > 0 && r.downVotes[|r.downVotes| - 1] == u
      && multiset(r.downVotes)[u] == 1
      && u !in r.upVotes
      && |r.downVotes| == |s.downVotes| - multiset(s.downVotes)[u] + 1
      && (s.downVotes == [u] ==> r.downVotes == [u])
  {
    var w := Without(s.downVotes, u);
    assert multiset(w + [u]) == multiset(w) + multiset{u};
    WithoutLength(s.downVotes, u);
  }

  /** A neutral vote removes the user from both lists and adds nobody. */
  lemma NeutralVoteResult(s: VoteState, u: UserId)
    ensures var r := Reduce(s, VoteAction(NeutralVote, u));
      && u !in r.upVotes && u !in r.downVotes
      && multiset(r.upVotes) == multiset(s.upVotes)[u := 0]
      && multiset(r.downVotes) == multiset(s.downVotes)[u := 0]
  {
  }

  /** Nothing but the acting user's entries changes: with the acting user filtered
      out, each output list is the input list, in the same order. */
  lemma OthersUntouched(s: VoteState, a: VoteAction)
    ensures Without(Reduce(s, a).upVotes, a.userId) == Without(s.upVotes, a.userId)
    ensures Without(Reduce(s, a).downVotes, a.userId) == Without(s.downVotes, a.userId)
  {
    var u := a.userId;
    match a.kind
    case UpVote => WithoutAfterAppend(s.upVotes, u);
    case DownVote => WithoutAfterAppend(s.downVotes, u);
    case NeutralVote =>
    case Unrecognised(_) =>
  }

  /** A recognised action by a user overrides whatever that user's previous action
      did: the earlier action leaves no trace. */
  lemma LastActionWins(s: VoteState, a: VoteAction, b: VoteAction)
    requires a.userId == b.userId && !b.kind.Unrecognised?
    ensures Reduce(Reduce(s, a), b) == Reduce(s, b)
  {
    OthersUntouched(s, a);
  }

  /** Applying the same action twice gives the state of applying it once. */
  lemma ReduceIdempotent(s: VoteState, a: VoteAction)
    ensures Reduce(Reduce(s, a), a) == Reduce(s, a)
  {
    if !a.kind.Unrecognised? {
      LastActionWins(s, a, a);
    }
  }

  /** The reducer keeps the lists disjoint, and the acting user is afterwards in at
      most one of them whatever the input. */
  lemma DisjointPreserved(s: VoteState, a: VoteAction)
    ensures Disjoint(s) ==> Disjoint(Reduce(s, a))
    ensures !a.kind.Unrecognised? ==> !(a.userId in Reduce(s, a).upVotes && a.userId in Reduce(s, a).downVotes)
  {
  }
}
