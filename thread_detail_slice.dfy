/** The thread-detail slice: the one resident thread with its comments, its
    loading and error flags, and the reducer cases for fetching, clearing,
    commenting and confirmed thread and comment votes. */
module ThreadDetailSlice {
  import opened Wrappers
  import opened Lists
  import opened OptimisticVote
  import opened VoteConfirmation

  datatype Owner = Owner(id: string, name: string, avatar: string)

  datatype Comment = Comment(
    id: string,
    content: string,
    createdAt: string,
    owner: Owner,
    upVotesBy: seq<UserId>,
    downVotesBy: seq<UserId>)

  datatype ThreadDetail = ThreadDetail(
    id: string,
    title: string,
    body: string,
    category: string,
    createdAt: string,
    owner: Owner,
    upVotesBy: seq<UserId>,
    downVotesBy: seq<UserId>,
    comments: seq<Comment>)

  /** The `vote` object of a thread-detail vote response; it names no thread. */
  datatype DetailVote = DetailVote(userId: UserId, voteType: int)

  /** The `vote` object of a comment vote response. */
  datatype CommentVote = CommentVote(userId: UserId, commentId: string, voteType: int)

  function CommentId(c: Comment): string { c.id }

  function ThreadMembership(d: ThreadDetail): VoteState { VoteState(d.upVotesBy, d.downVotesBy) }

  function CommentMembership(c: Comment): VoteState { VoteState(c.upVotesBy, c.downVotesBy) }

  /** Everything of a comment except its vote lists. */
  predicate CommentSameExceptVotes(a: Comment, b: Comment) {
    a.(upVotesBy := [], downVotesBy := []) == b.(upVotesBy := [], downVotesBy := [])
  }

  /** Everything of a thread detail except its own vote lists. */
  predicate DetailSameExceptVotes(a: ThreadDetail, b: ThreadDetail) {
    a.(upVotesBy := [], downVotesBy := []) == b.(upVotesBy := [], downVotesBy := [])
  }

  /** The resident detail after a confirmed thread vote: whatever thread is
      resident gets the confirmed membership. */
  function ApplyDetailVote(d: Option<ThreadDetail>, vote: DetailVote): (r: Option<ThreadDetail>)
    ensures r.Some? <==> d.Some?
    ensures d.Some? ==> DetailSameExceptVotes(r.value, d.value) && r.value.comments == d.value.comments
    ensures d.Some? ==> (vote.userId in r.value.upVotesBy <==> vote.voteType == 1)
    ensures d.Some? ==> (vote.userId in r.value.downVotesBy <==> vote.voteType == -1)
  {
    match d
    case None => None
    case Some(t) =>
      var m := ConfirmVotes(ThreadMembership(t), vote.userId, vote.voteType);
      Some(t.(upVotesBy := m.upVotes, downVotesBy := m.downVotes))
  }

  /** The resident detail after a confirmed comment vote: the first comment with
      the response's `commentId` gets the confirmed membership. */
  function ApplyCommentVote(d: Option<ThreadDetail>, vote: CommentVote): (r: Option<ThreadDetail>)
    ensures r.Some? <==> d.Some?
    ensures d.Some? ==> r.value.(comments := []) == d.value.(comments := [])
    ensures d.Some? ==> |r.value.comments| == |d.value.comments|
    ensures d.Some? ==> forall j :: 0 <= j < |r.value.comments| ==>
      CommentSameExceptVotes(r.value.comments[j], d.value.comments[j])
    ensures d.Some? ==> forall j :: 0 <= j < |r.value.comments| && d.value.comments[j].id != vote.commentId ==>
      r.value.comments[j] == d.value.comments[j]
  {
    match d
    case None => None
    case Some(t) =>
      match FirstIndex(t.comments, CommentId, vote.commentId)
      case None => d
      case Some(i) =>
        var c := t.comments[i];
        var m := ConfirmVotes(CommentMembership(c), vote.userId, vote.voteType);
        Some(t.(comments := t.comments[i := c.(upVotesBy := m.upVotes, downVotesBy := m.downVotes)]))
  }

  /** A confirmed thread vote reconciles the resident thread's lists by `voteType`
      (1 up, -1 down, otherwise neither), as the optimistic reducer would, whatever
      thread the response was for; comments and other fields are untouched, and
      with no resident thread nothing happens. */
  lemma DetailVoteConfirmed(d: Option<ThreadDetail>, vote: DetailVote)
    ensures d.None? <==> ApplyDetailVote(d, vote).None?
    ensures d.Some? ==> var r := ApplyDetailVote(d, vote).value;
      && (vote.userId in r.upVotesBy <==> vote.voteType == 1)
      && (vote.userId in r.downVotesBy <==> vote.voteType == -1)
      && ThreadMembership(r) == Reduce(ThreadMembership(d.value), VoteAction(DirectionOf(vote.voteType), vote.userId))
      && Without(r.upVotesBy, vote.userId) == Without(d.value.upVotesBy, vote.userId)
      && Without(r.downVotesBy, vote.userId) == Without(d.value.downVotesBy, vote.userId)
      && DetailSameExceptVotes(r, d.value)
      && r.comments == d.value.comments
  {
    if d.Some? {
      ConfirmedMembership(ThreadMembership(d.value), vote.userId, vote.voteType);
    }
  }

  /** A confirmed comment vote acts only on the first comment with the response's
      id: the user ends up in its up list iff `voteType` is 1 and in its down list
      iff it is -1; every other comment, the comment order and the thread's own
      votes are unchanged. */
  lemma CommentVoteConfirmed(t: ThreadDetail, vote: CommentVote, i: nat)
    requires i < |t.comments| && t.comments[i].id == vote.commentId
    requires forall j :: 0 <= j < i ==> t.comments[j].id != vote.commentId
    ensures ApplyCommentVote(Some(t), vote).Some?
    ensures var r := ApplyCommentVote(Some(t), vote).value;
      && |r.comments| == |t.comments|
      && (vote.userId in r.comments[i].upVotesBy <==> vote.voteType == 1)
      && (vote.userId in r.comments[i].downVotesBy <==> vote.voteType == -1)
      && CommentMembership(r.comments[i]) == Reduce(CommentMembership(t.comments[i]), VoteAction(DirectionOf(vote.voteType), vote.userId))
      && Without(r.comments[i].upVotesBy, vote.userId) == Without(t.comments[i].upVotesBy, vote.userId)
      && Without(r.comments[i].downVotesBy, vote.userId) == Without(t.comments[i].downVotesBy, vote.userId)
      && CommentSameExceptVotes(r.comments[i], t.comments[i])
      && (forall j :: 0 <= j < |r.comments| && j != i ==> r.comments[j] == t.comments[j])
      && r.(comments := []) == t.(comments := [])
  {
    assert FirstIndex(t.comments, CommentId, vote.commentId) == Some(i);
    ConfirmedMembership(CommentMembership(t.comments[i]), vote.userId, vote.voteType);
  }

  /** A comment vote response is dropped when no thread is resident (the detail
      was cleared before the response arrived) or no comment has its id. */
  lemma CommentVoteIgnored(d: Option<ThreadDetail>, vote: CommentVote)
    requires d.Some? ==> forall c :: c in d.value.comments ==> c.id != vote.commentId
    ensures ApplyCommentVote(d, vote) == d
  {
  }

  /** Neither vote confirmation reorders, adds or removes comments, nor changes
      anything of a comment but its vote lists. */
  lemma VotesKeepComments(d: ThreadDetail, tv: DetailVote, cv: CommentVote)
    ensures ApplyDetailVote(Some(d), tv).value.comments == d.comments
    ensures var cs := ApplyCommentVote(Some(d), cv).value.comments;
      |cs| == |d.comments| && forall j :: 0 <= j < |cs| ==> CommentSameExceptVotes(cs[j], d.comments[j])
  {
  }

  class ThreadDetailStore {
    var detailThread: Option<ThreadDetail>
    var isLoading: bool
    var error: Option<string>

    constructor ()
      ensures detailThread == None && !isLoading && error == None
    {
      detailThread := None;
      isLoading := false;
      error := None;
    }

    /** `clearThreadDetail`: no resident thread and no error; loading is kept. */
    method ClearThreadDetail()
      modifies this
      ensures detailThread == None && error == None && isLoading == old(isLoading)
    {
      detailThread := None;
      error := None;
    }

    /** `fetchThreadDetail.pending`. */
    method FetchThreadDetailPending()
      modifies this
      ensures isLoading && error == None && detailThread == old(detailThread)
    {
      isLoading := true;
      error := None;
    }

    /** `fetchThreadDetail.fulfilled`: the resident thread is replaced wholesale. */
    method FetchThreadDetailFulfilled(payload: ThreadDetail)
      modifies this
      ensures !isLoading && detailThread == Some(payload) && error == old(error)
    {
      isLoading := false;
      detailThread := Some(payload);
    }

    /** `fetchThreadDetail.rejected`: the resident thread is left as it was. */
    method FetchThreadDetailRejected(message: string)
      modifies this
      ensures !isLoading && error == Some(message) && detailThread == old(detailThread)
    {
      isLoading := false;
      error := Some(message);
    }

    /** `createComment.fulfilled`: the comment is pushed onto the end of the
        resident thread's comments; with no resident thread nothing happens. */
    method CreateCommentFulfilled(c: Comment)
      modifies this
      ensures old(detailThread).None? ==> detailThread == None
      ensures old(detailThread).Some? ==>
        detailThread == Some(old(detailThread).value.(comments := old(detailThread).value.comments + [c]))
      ensures isLoading == old(isLoading) && error == old(error)
    {
      if detailThread.Some? {
        var t := detailThread.value;
        detailThread := Some(t.(comments := t.comments + [c]));
      }
    }

    /** The one handler for `upVoteThreadDetail`, `downVoteThreadDetail` and
        `neutralVoteThreadDetail` `.fulfilled`: the resident thread's lists are
        filtered and the user pushed by `voteType`. */
    method ThreadVoteFulfilled(endpoint: Endpoint, vote: DetailVote)
      modifies this
      ensures detailThread == ApplyDetailVote(old(detailThread), vote)
      ensures isLoading == old(isLoading) && error == old(error)
    {
      if detailThread.Some? {
        var t := detailThread.value;
        var up := Without(t.upVotesBy, vote.userId);
        var down := Without(t.downVotesBy, vote.userId);
        if vote.voteType == 1 {
          up := up + [vote.userId];
        } else if vote.voteType == -1 {
          down := down + [vote.userId];
        }
        detailThread := Some(t.(upVotesBy := up, downVotesBy := down));
      }
    }

    /** The one handler for `upVoteComment`, `downVoteComment` and
        `neutralVoteComment` `.fulfilled`: the first comment with the response's
        id has its lists filtered and the user pushed by `voteType`. */
    method CommentVoteFulfilled(endpoint: Endpoint, vote: CommentVote)
      modifies this
      ensures detailThread == ApplyCommentVote(old(detailThread), vote)
      ensures isLoading == old(isLoading) && error == old(error)
    {
      if detailThread.Some? {
        var t := detailThread.value;
        var found := FirstIndex(t.comments, CommentId, vote.commentId);
        if found.Some? {
          var i := found.value;
          var c := t.comments[i];
          var up := Without(c.upVotesBy, vote.userId);
          var down := Without(c.downVotesBy, vote.userId);
          if vote.voteType == 1 {
            up := up + [vote.userId];
          } else if vote.voteType == -1 {
            down := down + [vote.userId];
          }
          detailThread := Some(t.(comments := t.comments[i := c.(upVotesBy := up, downVotesBy := down)]));
        }
      }
    }
  }
}
