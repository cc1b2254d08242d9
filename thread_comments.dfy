/** The comment section of the thread-detail page: a badge with the number of
    comments, then either the empty placeholder or one item per comment. */
module ThreadComments {
  import opened Wrappers
  import opened OptimisticVote
  import opened ThreadDetailSlice
  import opened VoteConfirmation
  import opened VoteController

  /** What a comment item starts from: the target its vote buttons send requests
      for and the comment's confirmed vote lists. */
  datatype CommentItemView = CommentItemView(target: Target, votes: VoteState)

  datatype CommentsBody = EmptyComments | CommentsList(items: seq<CommentItemView>)

  datatype CommentsSection = CommentsSection(badge: nat, body: CommentsBody)

  /** `ThreadComments`: the placeholder iff there are no comments; otherwise one
      item per comment in the given order, each voting on that comment within the
      given thread. */
  function RenderComments(threadId: string, comments: seq<Comment>): (s: CommentsSection)
    ensures s.badge == |comments|
    ensures s.body.EmptyComments? <==> comments == []
    ensures s.body.CommentsList? ==> |s.body.items| == |comments|
    ensures s.body.CommentsList? ==> forall i :: 0 <= i < |comments| ==>
      s.body.items[i] == CommentItemView(CommentTarget(threadId, comments[i].id), CommentMembership(comments[i]))
  {
    if |comments| == 0 then CommentsSection(0, EmptyComments)
    else CommentsSection(|comments|, CommentsList(
      seq(|comments|, i requires 0 <= i < |comments| =>
        CommentItemView(CommentTarget(threadId, comments[i].id), CommentMembership(comments[i])))))
  }

  /** A click on a comment item as rendered: the request goes to that comment's
      route within the given thread, and the route toggles on the comment's own
      lists (neutral when the user already voted that way). */
  lemma CommentItemClick(threadId: string, comments: seq<Comment>, i: nat, user: UserId, button: Button)
    requires i < |comments|
    ensures var item := RenderComments(threadId, comments).body.items[i];
      var d := Decide(Some(user), item.votes, button, item.target);
      && d.request.target == CommentTarget(threadId, comments[i].id)
      && (button == UpButton ==>
           d.request.endpoint == if user in comments[i].upVotesBy then NeutralVoteEndpoint else UpVoteEndpoint)
      && (button == DownButton ==>
           d.request.endpoint == if user in comments[i].downVotesBy then NeutralVoteEndpoint else DownVoteEndpoint)
  {
  }
}
