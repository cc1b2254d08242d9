/** The vote buttons of a thread card, of the thread-detail card and of each
    comment. All three components run the same logic: with no signed-in user a
    click is refused; otherwise the click becomes a toggle intent read off the
    currently displayed lists, the intent is shown at once through the optimistic
    reducer, and the request for the matching route is sent. The displayed lists
    are the confirmed lists with the intents of outstanding requests reduced in. */
module VoteController {
  import opened Wrappers
  import opened OptimisticVote
  import opened VoteConfirmation

  datatype Button = UpButton | DownButton

  /** The entity a set of vote buttons belongs to, with the ids its requests carry:
      a thread card calls the thread-list routes, the detail card the thread-detail
      routes, a comment the comment routes with its thread's id and its own. */
  datatype Target =
    | ThreadCardTarget(threadId: string)
    | ThreadDetailTarget(threadId: string)
    | CommentTarget(threadId: string, commentId: string)

  /** One vote request: which of the three routes, for which entity. */
  datatype Request = Request(endpoint: Endpoint, target: Target)

  /** What a click does: refused for an anonymous user, or an optimistic action
      together with the request that confirms it. */
  datatype Decision = Unauthenticated | Dispatch(action: VoteAction, request: Request)

  /** The `{ userId, voteType }` a successful vote request returns. */
  datatype ServerVote = ServerVote(userId: UserId, voteType: int)

  /** `isUpVoted`: false when nobody is signed in. */
  function IsUpVoted(user: Option<UserId>, display: VoteState): (b: bool)
    ensures b ==> user.Some?
    ensures user.Some? ==> (b <==> multiset(display.upVotes)[user.value] > 0)
  {
    match user
    case None => false
    case Some(u) => u in display.upVotes
  }

  /** `isDownVoted`: false when nobody is signed in. */
  function IsDownVoted(user: Option<UserId>, display: VoteState): (b: bool)
    ensures b ==> user.Some?
    ensures user.Some? ==> (b <==> multiset(display.downVotes)[user.value] > 0)
  {
    match user
    case None => false
    case Some(u) => u in display.downVotes
  }

  /** `handleUpVote` / `handleDownVote` up to the request. The intent and the
      route are chosen by two separate tests of the same flag, as in the handlers;
      the contract says they always agree. */
  function Decide(user: Option<UserId>, display: VoteState, button: Button, target: Target): (d: Decision)
    ensures d.Unauthenticated? <==> user.None?
    ensures d.Dispatch? ==> d.action.userId == user.value && d.request.target == target
    ensures d.Dispatch? && button == UpButton ==>
      d.action.kind == if user.value in display.upVotes then NeutralVote else UpVote
    ensures d.Dispatch? && button == DownButton ==>
      d.action.kind == if user.value in display.downVotes then NeutralVote else DownVote
    ensures d.Dispatch? ==>
      && (d.request.endpoint == NeutralVoteEndpoint <==> d.action.kind == NeutralVote)
      && (d.request.endpoint == UpVoteEndpoint <==> d.action.kind == UpVote)
      && (d.request.endpoint == DownVoteEndpoint <==> d.action.kind == DownVote)
  {
    match user
    case None => Unauthenticated
    case Some(u) =>
      match button
      case UpButton =>
        var voted := IsUpVoted(user, display);
        Dispatch(VoteAction(if voted then NeutralVote else UpVote, u),
                 Request(if voted then NeutralVoteEndpoint else UpVoteEndpoint, target))
      case DownButton =>
        var voted := IsDownVoted(user, display);
        Dispatch(VoteAction(if voted then NeutralVote else DownVote, u),
                 Request(if voted then NeutralVoteEndpoint else DownVoteEndpoint, target))
  }

  /** With nobody signed in neither button shows as pressed and a click is refused
      before anything is shown or sent. */
  lemma AnonymousUser(display: VoteState, button: Button, target: Target)
    ensures !IsUpVoted(None, display) && !IsDownVoted(None, display)
    ensures Decide(None, display, button, target) == Unauthenticated
  {
  }

  /** A click toggles: the up button makes the user an up-voter iff they were not
      one, and never leaves them a down-voter (and the mirror for the down button). */
  lemma ClickToggles(user: UserId, display: VoteState, button: Button, target: Target)
    ensures var shown := Reduce(display, Decide(Some(user), display, button, target).action);
      && (button == UpButton ==> (user in shown.upVotes <==> user !in display.upVotes) && user !in shown.downVotes)
      && (button == DownButton ==> (user in shown.downVotes <==> user !in display.downVotes) && user !in shown.upVotes)
  {
  }

  /** The counts on the buttons are the lengths of the displayed lists. A click
      removes every entry of the user from both, then adds one to the pressed list
      unless the user had already voted that way. */
  lemma ClickCounts(user: UserId, display: VoteState, button: Button, target: Target)
    ensures var shown := Reduce(display, Decide(Some(user), display, button, target).action);
      && (button == UpButton ==>
           && |shown.upVotes| == |display.upVotes| - multiset(display.upVotes)[user] + (if user in display.upVotes then 0 else 1)
           && |shown.downVotes| == |display.downVotes| - multiset(display.downVotes)[user])
      && (button == DownButton ==>
           && |shown.downVotes| == |display.downVotes| - multiset(display.downVotes)[user] + (if user in display.downVotes then 0 else 1)
           && |shown.upVotes| == |display.upVotes| - multiset(display.upVotes)[user])
  {
    WithoutLength(display.upVotes, user);
    WithoutLength(display.downVotes, user);
    if button == UpButton && user !in display.upVotes {
      UpVoteResult(display, user);
    } else if button == DownButton && user !in display.downVotes {
      DownVoteResult(display, user);
    }
  }

  /** The displayed lists: the confirmed lists with the outstanding intents reduced
      in, oldest first. */
  function Overlay(confirmed: VoteState, pending: seq<VoteAction>): (r: VoteState)
    ensures pending == [] ==> r == confirmed
    decreases |pending|
  {
    if pending == [] then confirmed
    else Reduce(Overlay(confirmed, pending[..|pending| - 1]), pending[|pending| - 1])
  }

  /** The optimistic layer never shows both votes for one user when the confirmed
      lists do not. */
  lemma {:induction false} OverlayKeepsDisjoint(confirmed: VoteState, pending: seq<VoteAction>)
    ensures Disjoint(confirmed) ==> Disjoint(Overlay(confirmed, pending))
    decreases |pending|
  {
    if pending != [] {
      OverlayKeepsDisjoint(confirmed, pending[..|pending| - 1]);
      DisjointPreserved(Overlay(confirmed, pending[..|pending| - 1]), pending[|pending| - 1]);
    }
  }

  /** The optimistic layer changes nothing for a user with no outstanding intent. */
  lemma {:induction false} OverlayTouchesOnlyActors(confirmed: VoteState, pending: seq<VoteAction>, x: UserId)
    requires forall i :: 0 <= i < |pending| ==> pending[i].userId != x
    ensures x in Overlay(confirmed, pending).upVotes <==> x in confirmed.upVotes
    ensures x in Overlay(confirmed, pending).downVotes <==> x in confirmed.downVotes
    decreases |pending|
  {
    if pending != [] {
      var front := pending[..|pending| - 1];
      OverlayTouchesOnlyActors(confirmed, front, x);
      OthersUntouched(Overlay(confirmed, front), pending[|pending| - 1]);
    }
  }

  /** The intent of the latest outstanding click decides what the clicking user
      sees, whatever the confirmed lists and earlier intents say. */
  lemma LatestIntentShown(confirmed: VoteState, pending: seq<VoteAction>, a: VoteAction)
    requires !a.kind.Unrecognised?
    ensures var shown := Overlay(confirmed, pending + [a]);
      && (a.userId in shown.upVotes <==> a.kind == UpVote)
      && (a.userId in shown.downVotes <==> a.kind == DownVote)
  {
    assert (pending + [a])[..|pending|] == pending;
  }

  /** The vote buttons of one thread card, the thread-detail card or one comment. */
  class VoteButtons {
    const target: Target
    /** The lists the store holds for the entity. */
    var confirmed: VoteState
    /** The intents of the requests still outstanding, in click order. */
    var pending: seq<VoteAction>

    /** `optimisticVotes`: what the buttons show. With nothing outstanding it is
        the store's lists, and it never shows a user as both voters. */
    function Display(): (r: VoteState)
      reads this
      ensures pending == [] ==> r == confirmed
      ensures Disjoint(confirmed) ==> Disjoint(r)
    {
      OverlayKeepsDisjoint(confirmed, pending);
      Overlay(confirmed, pending)
    }

    constructor (target: Target, confirmed: VoteState)
      ensures this.target == target && this.confirmed == confirmed && pending == []
      ensures Display() == confirmed
    {
      this.target := target;
      this.confirmed := confirmed;
      pending := [];
    }

    /** A click on one button. A refused click changes nothing; otherwise the intent
        becomes outstanding, so the display is the old display reduced by it, and
        the returned request is the one to send. */
    method Click(user: Option<UserId>, button: Button) returns (d: Decision)
      modifies this
      ensures d == Decide(user, old(Display()), button, target)
      ensures confirmed == old(confirmed)
      ensures pending == if d.Dispatch? then old(pending) + [d.action] else old(pending)
      ensures Display() == if d.Dispatch? then Reduce(old(Display()), d.action) else old(Display())
    {
      d := Decide(user, Display(), button, target);
      if d.Dispatch? {
        pending := pending + [d.action];
        assert pending[..|pending| - 1] == old(pending);
      }
    }

    /** The request of outstanding intent `k` has finished. On success the store's
        handler confirms the server's vote; on failure nothing is confirmed. Either
        way the intent stops being shown. */
    method Settle(k: nat, outcome: Option<ServerVote>)
      requires k < |pending|
      modifies this
      ensures pending == old(pending[..k] + pending[k + 1..])
      ensures confirmed == match outcome
        case None => old(confirmed)
        case Some(v) => ConfirmVotes(old(confirmed), v.userId, v.voteType)
    {
      pending := pending[..k] + pending[k + 1..];
      if outcome.Some? {
        confirmed := ConfirmVotes(confirmed, outcome.value.userId, outcome.value.voteType);
      }
    }
  }

  /** A vote whose request fails: the confirmed lists are as before and, once the
      intent is dropped, the buttons show them again. */
  method FailedVote(buttons: VoteButtons, user: UserId, button: Button)
    requires buttons.pending == []
    modifies buttons
    ensures buttons.confirmed == old(buttons.confirmed) && buttons.pending == []
    ensures buttons.Display() == old(buttons.confirmed)
  {
    var d := buttons.Click(Some(user), button);
    buttons.Settle(0, None);
  }

  /** A vote the server confirms as asked: what the buttons showed optimistically
      is exactly what they show once the confirmation is in. */
  method ConfirmedVote(buttons: VoteButtons, user: UserId, button: Button) returns (shown: VoteState)
    requires buttons.pending == []
    modifies buttons
    ensures shown == Reduce(old(buttons.confirmed), Decide(Some(user), old(buttons.confirmed), button, buttons.target).action)
    ensures buttons.pending == [] && buttons.Display() == shown
  {
    var d := buttons.Click(Some(user), button);
    shown := buttons.Display();
    AgreeingConfirmation(old(buttons.confirmed), d.action);
    buttons.Settle(0, Some(ServerVote(user, VoteTypeOf(d.action.kind))));
  }

  /** The server's answer overrides the optimistic guess: an up vote the server
      reports as a down vote shows the user as a down-voter only. */
  method OverriddenVote(buttons: VoteButtons, user: UserId)
    requires buttons.pending == [] && user !in buttons.confirmed.upVotes
    modifies buttons
    ensures user in buttons.Display().downVotes && user !in buttons.Display().upVotes
  {
    var d := buttons.Click(Some(user), UpButton);
    assert user in buttons.Display().upVotes;
    buttons.Settle(0, Some(ServerVote(user, -1)));
    ConfirmedMembership(old(buttons.confirmed), user, -1);
  }

  /** A click with nobody signed in shows nothing new and sends nothing. */
  method AnonymousClick(buttons: VoteButtons, button: Button)
    modifies buttons
    ensures buttons.confirmed == old(buttons.confirmed) && buttons.pending == old(buttons.pending)
    ensures buttons.Display() == old(buttons.Display())
  {
    var d := buttons.Click(None, button);
    assert d == Unauthenticated;
  }

  /** A first up vote on a thread nobody has voted on, confirmed, then taken back
      and confirmed again: what the buttons show after each click and what the
      store holds after each confirmation. */
  method UpVoteThenRetract(threadId: string)
    returns (shownAfterUp: VoteState, confirmedAfterUp: VoteState, shownAfterRetract: VoteState, confirmedAfterRetract: VoteState)
    ensures shownAfterUp == VoteState(["u1"], []) && confirmedAfterUp == VoteState(["u1"], [])
    ensures shownAfterRetract == VoteState([], []) && confirmedAfterRetract == VoteState([], [])
  {
    var buttons := new VoteButtons(ThreadCardTarget(threadId), VoteState([], []));
    var d := buttons.Click(Some("u1"), UpButton);
    assert d.request.endpoint == UpVoteEndpoint;
    shownAfterUp := buttons.Display();
    buttons.Settle(0, Some(ServerVote("u1", 1)));
    confirmedAfterUp := buttons.confirmed;
    d := buttons.Click(Some("u1"), UpButton);
    assert d.action.kind == NeutralVote && d.request.endpoint == NeutralVoteEndpoint;
    shownAfterRetract := buttons.Display();
    buttons.Settle(0, Some(ServerVote("u1", 0)));
    confirmedAfterRetract := buttons.confirmed;
  }
}
