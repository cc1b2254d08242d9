# Forum client: optimistic voting and client state, modelled in Dafny

This project models the client-side core of a discussion-forum web client
(threads, comments, up/down votes, sign-in, a leaderboard). The core is how a vote is
shown at once and then confirmed by the server:

- `OptimisticVote` is the optimistic vote reducer. It maps the up-voter and
  down-voter lists plus one user's `UP_VOTE` / `DOWN_VOTE` / `NEUTRAL_VOTE` action to
  new lists. Vote lists are `seq<UserId>` because the reducer and the stores keep order.
- `VoteConfirmation` holds what both stores do with a server's `{ userId, voteType }`
  answer. It is specified through the reducer (1 = up, -1 = down, anything else =
  neutral). The stores' methods do the filter-then-push surgery step by step and
  prove that the result is what the reducer computes.
- `ThreadsSlice`, `ThreadDetailSlice`, `AuthSlice` and `LeaderboardsSlice` model the
  Redux slices as classes. Each reducer case is a method that reassigns fields.
  Threads and comments are values inside `seq` fields. The `find` a handler uses is
  `Lists.FirstIndex`.
- `VoteController` is the vote-button logic shared by the thread card, the
  thread-detail card and each comment item. `Decide` turns a click into a toggle
  intent and a request. `VoteButtons` keeps the confirmed lists and the intents of
  outstanding requests, and displays `Overlay(confirmed, pending)`.
- `ThreadComments` models the comment section: an empty placeholder or one item per
  comment.
- `Home` models the home page: category badges, the `q` search parameter, and which
  sections are shown.

External effects are parameters. A request's outcome is `Settle`'s `outcome`
argument: the server's vote, or `None` for a failure. A fetch's outcome is the
payload or reject message passed to the matching store method. The token read from
local storage at start-up is the `AuthStore` constructor's `storedToken`.

## Model

| member | source | states |
|---|---|---|
| OptimisticVote.Without | app/lib/optimisticVote.ts:20-24 | filtering a user out removes exactly that user's entries: multiset is the old one with the user's count set to zero; membership of every other id is kept |
| OptimisticVote.WithoutKeepsOrder | app/lib/optimisticVote.ts:21 | the filtered list is a subsequence of the input, so the remaining ids keep their order; with the multiset clause this determines the filter's result |
| OptimisticVote.WithoutLength | app/lib/optimisticVote.ts:21 | filtering shortens the list by exactly the user's number of entries |
| OptimisticVote.Reduce | app/lib/optimisticVote.ts:13-42 | up leaves the user an up-voter and not a down-voter, down the mirror, neutral in neither list; an unrecognised tag returns the state unchanged |
| OptimisticVote.UpVoteResult | app/lib/optimisticVote.ts:18-25 | after an up vote the user is in upVotes exactly once, last, and absent from downVotes; the up count is the old count minus the user's entries plus one; re-voting as sole up-voter leaves `[user]` |
| OptimisticVote.DownVoteResult | app/lib/optimisticVote.ts:26-33 | the mirror for a down vote: exactly once, last in downVotes, absent from upVotes, no duplicate |
| OptimisticVote.NeutralVoteResult | app/lib/optimisticVote.ts:34-38 | a neutral vote removes the user from both lists and inserts nothing |
| OptimisticVote.OthersUntouched | app/lib/optimisticVote.ts:17-41 | with the acting user filtered out, each output list equals the input list, so other ids keep order and multiplicity |
| OptimisticVote.LastActionWins | app/lib/optimisticVote.ts:17-41 | a recognised action by a user erases every trace of that user's previous action |
| OptimisticVote.ReduceIdempotent | app/lib/optimisticVote.ts:17-41 | applying the same action twice equals applying it once |
| OptimisticVote.DisjointPreserved | app/lib/optimisticVote.ts:17-41 | disjoint lists stay disjoint, and after a recognised action the acting user is in at most one list |
| VoteConfirmation.DirectionOf | app/stores/threadsSlice.ts:151-155 | voteType 1 is an up vote, -1 a down vote, every other number neutral (in both directions of each iff) |
| VoteConfirmation.VoteTypeOf | app/stores/threadsSlice.ts:151-155 | the voteType reported for a recognised intent maps back to that intent |
| VoteConfirmation.ConfirmVotes | app/stores/threadsSlice.ts:148-155 | the user ends up an up-voter iff voteType is 1 and a down-voter iff -1; every other user's membership of both lists is as before |
| VoteConfirmation.ConfirmedMembership | app/stores/threadsSlice.ts:148-155 | after a confirmation the user is an up-voter iff voteType is 1 and a down-voter iff -1; other users' entries keep order; disjointness is kept |
| VoteConfirmation.ConfirmationOverridesGuess | app/stores/threadDetailSlice.ts:227-238 | confirming on top of an optimistic result of the same user equals confirming on the original lists |
| VoteConfirmation.AgreeingConfirmation | app/stores/threadsSlice.ts:147-156 | when the server reports the optimistic intent, the confirmed lists equal the optimistically shown lists |
| Lists.FirstIndex | app/stores/threadsSlice.ts:145 | `find` stops at the first element with the key, and finds nothing iff no element has it |
| ThreadsSlice.ApplyThreadVote | app/stores/threadsSlice.ts:144-156 | the confirmed vote keeps the list's length, changes no thread beyond its vote lists, and leaves every thread with another id as it was |
| ThreadsSlice.ThreadVoteConfirmed | app/stores/threadsSlice.ts:144-156 | a confirmed vote acts on the first thread with the response's id: membership iff by voteType, equal to the reducer with the mapped tag, other fields and all other threads unchanged |
| ThreadsSlice.UnknownThreadIgnored | app/stores/threadsSlice.ts:145-147 | a vote for a thread id not in the list leaves the list unchanged |
| ThreadsSlice.ThreadsStore.constructor | app/stores/threadsSlice.ts:28-32 | initial state: no threads, not loading, no error |
| ThreadsSlice.ThreadsStore.FetchThreadsPending | app/stores/threadsSlice.ts:120-123 | loading on, error cleared, threads unchanged |
| ThreadsSlice.ThreadsStore.FetchThreadsFulfilled | app/stores/threadsSlice.ts:124-127 | threads replaced by the payload, loading off, error untouched |
| ThreadsSlice.ThreadsStore.FetchThreadsRejected | app/stores/threadsSlice.ts:128-131 | error set to the reject payload, loading off, threads unchanged |
| ThreadsSlice.ThreadsStore.CreateThreadFulfilled | app/stores/threadsSlice.ts:132-136 | the new thread is prepended: `[t] + old`, length plus one, flags unchanged |
| ThreadsSlice.ThreadsStore.VoteFulfilled | app/stores/threadsSlice.ts:138-162 | the filter-and-push surgery yields `ApplyThreadVote` of the old list, i.e. the reducer's result, whichever of the three endpoints fired; flags unchanged |
| ThreadsSlice.Lower | app/stores/threadsSlice.ts:178 | `toLowerCase` keeps the length and lower-cases each character (ASCII letters only) |
| ThreadsSlice.Includes | app/stores/threadsSlice.ts:178 | `includes` holds iff the needle occurs at some index of the haystack |
| ThreadsSlice.FilterByCategory | app/stores/threadsSlice.ts:177-179 | the order-preserving sub-list of threads whose lower-cased category contains the lower-cased query, with their multiplicity |
| ThreadsSlice.EmptyQueryKeepsAll | app/stores/threadsSlice.ts:176-179 | the empty-query early return agrees with the filter, since every category contains the empty string |
| ThreadsSlice.SelectFilteredThreads | app/stores/threadsSlice.ts:173-181 | empty query returns the list itself; otherwise an order-preserving sub-list holding exactly the matching threads with their multiplicity |
| ThreadDetailSlice.ApplyDetailVote | app/stores/threadDetailSlice.ts:224-239 | a resident thread stays resident with its comments and other fields unchanged, the user an up-voter iff voteType is 1 and a down-voter iff -1; no resident thread stays none |
| ThreadDetailSlice.ApplyCommentVote | app/stores/threadDetailSlice.ts:248-265 | the thread's own fields and the number of comments are kept, no comment changes beyond its vote lists, and comments with another id are unchanged |
| ThreadDetailSlice.DetailVoteConfirmed | app/stores/threadDetailSlice.ts:224-239 | the resident thread's lists are reconciled by voteType as the reducer would, whatever thread the response was for; comments and other fields unchanged; no resident thread, no change |
| ThreadDetailSlice.CommentVoteConfirmed | app/stores/threadDetailSlice.ts:248-265 | only the first comment with the response's id changes, with membership iff by voteType; other comments, comment order and thread votes unchanged |
| ThreadDetailSlice.CommentVoteIgnored | app/stores/threadDetailSlice.ts:248-254 | a comment vote with no resident thread or no matching comment is a no-op |
| ThreadDetailSlice.VotesKeepComments | app/stores/threadDetailSlice.ts:218-267 | neither vote handler adds, removes or reorders comments or changes a comment beyond its vote lists |
| ThreadDetailSlice.ThreadDetailStore.constructor | app/stores/threadDetailSlice.ts:39-43 | initial state: no thread, not loading, no error |
| ThreadDetailSlice.ThreadDetailStore.ClearThreadDetail | app/stores/threadDetailSlice.ts:193-196 | thread and error cleared, loading kept |
| ThreadDetailSlice.ThreadDetailStore.FetchThreadDetailPending | app/stores/threadDetailSlice.ts:200-203 | loading on, error cleared, thread kept |
| ThreadDetailSlice.ThreadDetailStore.FetchThreadDetailFulfilled | app/stores/threadDetailSlice.ts:204-207 | thread replaced by the payload, loading off, error untouched |
| ThreadDetailSlice.ThreadDetailStore.FetchThreadDetailRejected | app/stores/threadDetailSlice.ts:208-211 | error set, loading off, thread untouched |
| ThreadDetailSlice.ThreadDetailStore.CreateCommentFulfilled | app/stores/threadDetailSlice.ts:212-216 | the comment is appended at the end; with no resident thread nothing changes |
| ThreadDetailSlice.ThreadDetailStore.ThreadVoteFulfilled | app/stores/threadDetailSlice.ts:218-240 | the surgery yields `ApplyDetailVote` of the old state, for any of the three thread-detail endpoints |
| ThreadDetailSlice.ThreadDetailStore.CommentVoteFulfilled | app/stores/threadDetailSlice.ts:242-267 | the find-then-surgery yields `ApplyCommentVote` of the old state, for any of the three comment endpoints |
| AuthSlice.AuthStore.constructor | app/stores/authSlice.ts:74-81 | no user, the stored token, idle flags |
| AuthSlice.AuthStore.ResetAuthStatus | app/stores/authSlice.ts:87-91 | status flags reset; user and token kept |
| AuthSlice.AuthStore.Logout | app/stores/authSlice.ts:92-96 | user and token cleared; status flags kept |
| AuthSlice.AuthStore.RegisterUserPending | app/stores/authSlice.ts:100-104 | loading on, error cleared, success off |
| AuthSlice.AuthStore.RegisterUserFulfilled | app/stores/authSlice.ts:105-109 | user set, success on, loading off, token kept |
| AuthSlice.AuthStore.RegisterUserRejected | app/stores/authSlice.ts:110-113 | loading off, error set; user, token and success untouched |
| AuthSlice.AuthStore.LoginUserPending | app/stores/authSlice.ts:114-118 | the same flags as register pending |
| AuthSlice.AuthStore.LoginUserFulfilled | app/stores/authSlice.ts:119-123 | token set, success on, loading off, user kept |
| AuthSlice.AuthStore.LoginUserRejected | app/stores/authSlice.ts:124-127 | loading off, error set; user, token and success untouched |
| AuthSlice.AuthStore.FetchAuthUserPending | app/stores/authSlice.ts:128-130 | only loading changes; the error is not cleared |
| AuthSlice.AuthStore.FetchAuthUserFulfilled | app/stores/authSlice.ts:131-134 | user set, loading off |
| AuthSlice.AuthStore.FetchAuthUserRejected | app/stores/authSlice.ts:135-142 | token and user cleared, loading off |
| AuthSlice.SuccessfulLogin | app/stores/authSlice.ts:114-123 | pending then fulfilled from any state: token stored, success on, no error, loading off, user kept |
| AuthSlice.ExpiredSession | app/stores/authSlice.ts:128-142 | pending then rejected from any state: no session, and an earlier error survives |
| LeaderboardsSlice.LeaderboardsStore.constructor | app/stores/leaderboardsSlice.ts:23-27 | initial state: empty list, not loading, no error |
| LeaderboardsSlice.LeaderboardsStore.FetchLeaderboardsPending | app/stores/leaderboardsSlice.ts:52-55 | loading on, error cleared, list unchanged |
| LeaderboardsSlice.LeaderboardsStore.FetchLeaderboardsFulfilled | app/stores/leaderboardsSlice.ts:56-59 | list replaced, loading off, error untouched |
| LeaderboardsSlice.LeaderboardsStore.FetchLeaderboardsRejected | app/stores/leaderboardsSlice.ts:60-63 | error set, loading off, list unchanged |
| LeaderboardsSlice.SuccessfulFetch | app/stores/leaderboardsSlice.ts:52-59 | pending then fulfilled from any state: payload shown, no error, loading off |
| LeaderboardsSlice.FailedFetch | app/stores/leaderboardsSlice.ts:52-63 | pending then rejected from any state: previous entries kept, error set |
| VoteController.IsUpVoted | app/components/thread/thread-card.tsx:42 | pressed only with a signed-in user, and then iff the user has at least one entry in the displayed upVotes |
| VoteController.IsDownVoted | app/components/thread/thread-card.tsx:43-45 | pressed only with a signed-in user, and then iff the user has at least one entry in the displayed downVotes |
| VoteController.AnonymousUser | app/components/thread/thread-card.tsx:42-52 | with no user both voted flags are false and a click is refused |
| VoteController.Decide | app/components/thread/thread-card.tsx:47-95 | refused iff no user; up intent is NEUTRAL iff the user is in the displayed upVotes, else UP (down the mirror); the chosen endpoint always matches the intent; the request is for the component's entity |
| VoteController.ClickToggles | app/components/thread/thread-item-detail.tsx:47-93 | after a click the user is a voter of the pressed kind iff they were not before, and never of the other kind |
| VoteController.ClickCounts | app/components/thread/thread-card.tsx:131-148 | the counts shown are the list lengths; a click changes them by exactly the user's removed entries plus one for a new vote |
| VoteController.Overlay | app/components/thread/thread-card.tsx:34-40 | with no outstanding intent the display is exactly the confirmed lists |
| VoteController.OverlayKeepsDisjoint | app/components/thread/thread-item-detail.tsx:34-45 | the optimistic display never shows a user as both voters when the confirmed lists do not |
| VoteController.OverlayTouchesOnlyActors | app/components/thread/thread-comments.tsx:41-52 | users without an outstanding intent are shown exactly as confirmed |
| VoteController.LatestIntentShown | app/components/thread/thread-card.tsx:55-58 | the clicking user is shown as the latest intent says, whatever came before |
| VoteController.VoteButtons.Display | app/components/thread/thread-card.tsx:34-40 | `optimisticVotes` is the store's lists when nothing is outstanding, and never shows a user as both voters when those lists do not |
| VoteController.VoteButtons.constructor | app/components/thread/thread-card.tsx:34-40 | the buttons start from the store's lists with nothing outstanding |
| VoteController.VoteButtons.Click | app/components/thread/thread-card.tsx:47-59 | a refused click changes nothing; otherwise the intent, decided on the displayed lists, is shown at once and its request returned |
| VoteController.VoteButtons.Settle | app/components/thread/thread-card.tsx:60-68 | the finished request's intent stops being shown; success confirms the server's vote, failure leaves the confirmed lists unchanged |
| VoteController.FailedVote | app/components/thread/thread-item-detail.tsx:59-67 | a failed vote leaves the confirmed lists unchanged and the display back on them |
| VoteController.ConfirmedVote | app/components/thread/thread-card.tsx:54-65 | a vote confirmed as asked leaves the display exactly as it was shown optimistically |
| VoteController.OverriddenVote | app/components/thread/thread-comments.tsx:60-79 | an up vote confirmed as a down vote shows the user as a down-voter only |
| VoteController.AnonymousClick | app/components/thread/thread-comments.tsx:54-58 | a click with no user changes neither the confirmed lists, nor the outstanding intents, nor the display |
| VoteController.UpVoteThenRetract | app/components/thread/thread-card.tsx:47-70 | up vote on an unvoted thread shows and confirms `["u1"]`; clicking again sends neutral and shows and confirms no votes |
| ThreadComments.RenderComments | app/components/thread/thread-comments.tsx:174-208 | the badge is the comment count; the placeholder shows iff there are no comments; otherwise one item per comment in order, voting on that comment in the given thread |
| ThreadComments.CommentItemClick | app/components/thread/thread-comments.tsx:54-108 | a click on a rendered comment item sends the request for that comment's id in the given thread, to the neutral route when the user already voted that way and to the pressed route otherwise |
| Home.CategoriesOf | app/routes/home.tsx:39 | one category per thread, in thread order |
| Home.IndexOf | app/routes/home.tsx:38-40 | the first occurrence of a category |
| Home.Distinct | app/routes/home.tsx:38-39 | the `Set` holds each category once and exactly the categories present |
| Home.DistinctOrder | app/routes/home.tsx:38-39 | the `Set` iterates in first-occurrence order |
| Home.WithoutEmpty | app/routes/home.tsx:40 | `filter(Boolean)` keeps exactly the non-empty strings |
| Home.WithoutEmptyKeepsOrder | app/routes/home.tsx:40 | the filter keeps the first-occurrence order and distinctness |
| Home.Categories | app/routes/home.tsx:38-40 | a category is listed iff it is non-empty and some thread has it |
| Home.CategoriesSpec | app/routes/home.tsx:38-40 | categories have no duplicates and no empty string, are exactly the non-empty thread categories, and keep first-occurrence order |
| Home.SearchParams.SearchQuery | app/routes/home.tsx:28 | the query is empty iff `q` is absent or empty, and otherwise is the value of `q` |
| Home.NoError | app/routes/home.tsx:123 | an error counts iff it is present and non-empty, as JavaScript truthiness has it |
| Home.HandleCategoryClick | app/routes/home.tsx:42-54 | clicking the selected category deletes `q`, any other sets `q` to it |
| Home.HandleSearchChange | app/routes/home.tsx:56-69 | a non-empty value sets `q`, an empty one deletes it; the search query reads back as the value |
| Home.ClickCategoryTwice | app/routes/home.tsx:42-54 | clicking an unselected category twice leaves no filter and other parameters unchanged |
| Home.RenderHome | app/routes/home.tsx:100-156 | badges are the categories, selected iff equal to the search query; the banner shows the error's own text iff there is one; empty-state and no-results have their conditions and exclude each other; no-results needs a non-empty query; the cards are exactly the filtered threads when not loading and without error, and none otherwise |

## Left out

- The async thunks (HTTP calls through axios) are not modelled. So is the choice between the server's message and default text for a reject payload, which depends on `axios.isAxiosError`. A thunk's outcome is just the payload or reject string given to the store method.
- Local storage writes (token save and removal) and the request interceptor are not modelled; they are I/O. The initial token is a constructor parameter.
- React scheduling is not modelled: `useOptimistic`, `startTransition`, and when React discards the optimistic layer. `VoteButtons` drops an intent when its request settles (`Settle`) and says nothing about render timing.
- The order in which racing vote responses arrive is not modelled: `Settle` may be called for any outstanding request, in any order.
- Toasts, JSX, class names, DOMPurify, date formatting and the password toggle are left out: they are presentation or foreign-library code.
- The reply count on the thread-detail card (`comments.length`) is a direct read that needs no model. `RenderComments` covers the comment badge.
- The zod form validation is left out: it is library code.
- ThreadsSlice.Lower: lower-cases ASCII letters only, while the source's `toLowerCase` is full Unicode, so `SelectFilteredThreads` matches case-insensitively only over ASCII.
- `URLSearchParams` is a map from name to one value. Repeated names and parameter order are not modelled.
- `voteType` is an `int`: a non-integer JavaScript number would also take the neutral path in the source.
- The slice tests expect one thread to match the query 'vuejs' (app/stores/threadsSlice.test.ts:247-250). The filter returns none there, so that expectation is not encoded.
- `VoteType.Unrecognised` models the reducer's `default` branch, which the TypeScript type reaches only through a cast.
