/** The thread-list slice: the thread list with its loading and error flags, the
    reducer cases for fetching and creating threads and for confirmed votes, and
    the category filter selector. */
module ThreadsSlice {
  import opened Wrappers
  import opened Lists
  import opened OptimisticVote
  import opened VoteConfirmation

  datatype Thread = Thread(
    id: string,
    title: string,
    body: string,
    category: string,
    createdAt: string,
    ownerId: string,
    upVotesBy: seq<UserId>,
    downVotesBy: seq<UserId>,
    totalComments: int)

  /** The `vote` object of a thread vote response. */
  datatype ThreadVote = ThreadVote(threadId: string, userId: UserId, voteType: int)

  function ThreadId(t: Thread): string { t.id }

  function Membership(t: Thread): VoteState { VoteState(t.upVotesBy, t.downVotesBy) }

  /** Everything of a thread except its vote lists. */
  predicate SameExceptVotes(a: Thread, b: Thread) {
    a.(upVotesBy := [], downVotesBy := []) == b.(upVotesBy := [], downVotesBy := [])
  }

  /** The thread list after a confirmed vote: the first thread whose id is the
      response's `threadId` gets the confirmed membership; without one, nothing changes. */
  function ApplyThreadVote(threads: seq<Thread>, vote: ThreadVote): (r: seq<Thread>)
    ensures |r| == |threads|
    ensures forall j :: 0 <= j < |r| ==> SameExceptVotes(r[j], threads[j])
    ensures forall j :: 0 <= j < |r| && threads[j].id != vote.threadId ==> r[j] == threads[j]
  {
    match FirstIndex(threads, ThreadId, vote.threadId)
    case None => threads
    case Some(i) =>
      var m := ConfirmVotes(Membership(threads[i]), vote.userId, vote.voteType);
      threads[i := threads[i].(upVotesBy := m.upVotes, downVotesBy := m.downVotes)]
  }

  /** A confirmed vote acts on the first thread with the response's id: the user
      ends up an up-voter iff `voteType` is 1 and a down-voter iff it is -1, its
      membership is what the optimistic reducer computes for the mapped tag, its
      other fields are kept, and every other thread is unchanged. */
  lemma ThreadVoteConfirmed(threads: seq<Thread>, vote: ThreadVote, i: nat)
    requires i < |threads| && threads[i].id == vote.threadId
    requires forall j :: 0 <= j < i ==> threads[j].id != vote.threadId
    ensures var r := ApplyThreadVote(threads, vote);
      && |r| == |threads|
      && (vote.userId in r[i].upVotesBy <==> vote.voteType == 1)
      && (vote.userId in r[i].downVotesBy <==> vote.voteType == -1)
      && Membership(r[i]) == Reduce(Membership(threads[i]), VoteAction(DirectionOf(vote.voteType), vote.userId))
      && Without(r[i].upVotesBy, vote.userId) == Without(threads[i].upVotesBy, vote.userId)
      && Without(r[i].downVotesBy, vote.userId) == Without(threads[i].downVotesBy, vote.userId)
      && SameExceptVotes(r[i], threads[i])
      && forall j :: 0 <= j < |r| && j != i ==> r[j] == threads[j]
  {
    assert FirstIndex(threads, ThreadId, vote.threadId) == Some(i);
    ConfirmedMembership(Membership(threads[i]), vote.userId, vote.voteType);
  }

  /** A response for a thread that is not in the list is dropped. */
  lemma UnknownThreadIgnored(threads: seq<Thread>, vote: ThreadVote)
    requires forall t :: t in threads ==> t.id != vote.threadId
    ensures ApplyThreadVote(threads, vote) == threads
  {
  }

  class ThreadsStore {
    var threads: seq<Thread>
    var isLoading: bool
    var error: Option<string>

    constructor ()
      ensures threads == [] && !isLoading && error == None
    {
      threads := [];
      isLoading := false;
      error := None;
    }

    /** `fetchThreads.pending`: loading starts and the last error is cleared. */
    method FetchThreadsPending()
      modifies this
      ensures isLoading && error == None && threads == old(threads)
    {
      isLoading := true;
      error := None;
    }

    /** `fetchThreads.fulfilled`: the list is replaced wholesale; the error is kept. */
    method FetchThreadsFulfilled(payload: seq<Thread>)
      modifies this
      ensures !isLoading && threads == payload && error == old(error)
    {
      isLoading := false;
      threads := payload;
    }

    /** `fetchThreads.rejected`: the reject payload becomes the error; the list is kept. */
    method FetchThreadsRejected(message: string)
      modifies this
      ensures !isLoading && error == Some(message) && threads == old(threads)
    {
      isLoading := false;
      error := Some(message);
    }

    /** `createThread.fulfilled`: the new thread is put at the front. */
    method CreateThreadFulfilled(t: Thread)
      modifies this
      ensures threads == [t] + old(threads) && |threads| == |old(threads)| + 1
      ensures isLoading == old(isLoading) && error == old(error)
    {
      threads := [t] + threads;
    }

    /** The one handler registered for `upVoteThread`, `downVoteThread` and
        `neutralVoteThread` `.fulfilled`: which of the three fired does not matter,
        only the response's vote does. The thread found is given filtered lists and
        the user is pushed by `voteType`; the result is what the optimistic reducer
        gives for the same vote. Rejections of these requests have no case, so a
        failed vote leaves the store as it was. */
    method VoteFulfilled(endpoint: Endpoint, vote: ThreadVote)
      modifies this
      ensures threads == ApplyThreadVote(old(threads), vote)
      ensures isLoading == old(isLoading) && error == old(error)
    {
      var found := FirstIndex(threads, ThreadId, vote.threadId);
      if found.Some? {
        var i := found.value;
        var thread := threads[i];
        var up := Without(thread.upVotesBy, vote.userId);
        var down := Without(thread.downVotesBy, vote.userId);
        if vote.voteType == 1 {
          up := up + [vote.userId];
        } else if vote.voteType == -1 {
          down := down + [vote.userId];
        }
        threads := threads[i := thread.(upVotesBy := up, downVotesBy := down)];
      }
    }
  }

  /** ASCII lower-casing of one character. */
  function LowerChar(c: char): char {
    if 'A' <= c <= 'Z' then (c as int + 32) as char else c
  }

  function Lower(s: string): (r: string)
    ensures |r| == |s| && forall i :: 0 <= i < |s| ==> r[i] == LowerChar(s[i])
  {
    if s == [] then [] else [LowerChar(s[0])] + Lower(s[1..])
  }

  /** `needle` occurs in `haystack` starting at index `i`. */
  ghost predicate OccursAt(haystack: string, needle: string, i: int) {
    0 <= i <= |haystack| - |needle| && haystack[i..i + |needle|] == needle
  }

  /** `haystack.includes(needle)`. */
  function Includes(haystack: string, needle: string): (b: bool)
    ensures b <==> exists i :: OccursAt(haystack, needle, i)
    decreases |haystack|
  {
    if |needle| <= |haystack| && haystack[..|needle|] == needle then
      assert OccursAt(haystack, needle, 0);
      true
    else if haystack == [] then false
    else
      var rest := Includes(haystack[1..], needle);
      assert forall i :: OccursAt(haystack, needle, i) ==> i >= 1 && OccursAt(haystack[1..], needle, i - 1);
      assert forall j :: OccursAt(haystack[1..], needle, j) ==> OccursAt(haystack, needle, j + 1);
      rest
  }

  /** The selector's test: the lower-cased category contains the lower-cased query. */
  predicate CategoryMatches(t: Thread, query: string) {
    Includes(Lower(t.category), Lower(query))
  }

  /** `threads.filter(...)` with the selector's test. */
  function FilterByCategory(threads: seq<Thread>, query: string): (r: seq<Thread>)
    ensures IsSubsequence(r, threads)
    ensures forall t :: t in r <==> t in threads && CategoryMatches(t, query)
    ensures forall t :: multiset(r)[t] == if CategoryMatches(t, query) then multiset(threads)[t] else 0
  {
    if threads == [] then []
    else
      assert threads == [threads[0]] + threads[1..];
      var rest := FilterByCategory(threads[1..], query);
      if CategoryMatches(threads[0], query) then [threads[0]] + rest else rest
  }

  /** An empty query matches every category, so the selector's early return for
      an empty query agrees with its filter. */
  lemma EmptyQueryKeepsAll(threads: seq<Thread>)
    ensures FilterByCategory(threads, "") == threads
  {
    if threads != [] {
      assert Includes(Lower(threads[0].category), "");
      EmptyQueryKeepsAll(threads[1..]);
    }
  }

  /** `selectFilteredThreads`: the list itself for an empty query, otherwise the
      threads whose category matches, in their order and with their multiplicity. */
  function SelectFilteredThreads(threads: seq<Thread>, query: string): (r: seq<Thread>)
    ensures query == "" ==> r == threads
    ensures IsSubsequence(r, threads)
    ensures forall t :: t in r <==> t in threads && CategoryMatches(t, query)
    ensures forall t :: multiset(r)[t] == if CategoryMatches(t, query) then multiset(threads)[t] else 0
  {
    if query == "" then
      EmptyQueryKeepsAll(threads);
      threads
    else FilterByCategory(threads, query)
  }
}
