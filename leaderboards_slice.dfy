/** The leaderboards slice: the ranked users with loading and error flags. */
module LeaderboardsSlice {
  import opened Wrappers

  datatype LeaderboardUser = LeaderboardUser(id: string, name: string, email: string, avatar: string)

  datatype LeaderboardEntry = LeaderboardEntry(user: LeaderboardUser, score: int)

  class LeaderboardsStore {
    var leaderboards: seq<LeaderboardEntry>
    var isLoading: bool
    var error: Option<string>

    /** The initial state: no entries, not loading, no error. */
    constructor ()
      ensures leaderboards == [] && !isLoading && error == None
    {
      leaderboards := [];
      isLoading := false;
      error := None;
    }

    /** `fetchLeaderboards.pending`: loading starts, the error is cleared. */
    method FetchLeaderboardsPending()
      modifies this
      ensures isLoading && error == None && leaderboards == old(leaderboards)
    {
      isLoading := true;
      error := None;
    }

    /** `fetchLeaderboards.fulfilled`: the list is replaced wholesale; the error is kept. */
    method FetchLeaderboardsFulfilled(payload: seq<LeaderboardEntry>)
      modifies this
      ensures !isLoading && leaderboards == payload && error == old(error)
    {
      isLoading := false;
      leaderboards := payload;
    }

    /** `fetchLeaderboards.rejected`: the reject payload becomes the error; the list is kept. */
    method FetchLeaderboardsRejected(message: string)
      modifies this
      ensures !isLoading && error == Some(message) && leaderboards == old(leaderboards)
    {
      isLoading := false;
      error := Some(message);
    }
  }

  /** A successful fetch from any state: `pending` then `fulfilled` leaves the
      fetched list, no error and loading finished. */
  method SuccessfulFetch(store: LeaderboardsStore, payload: seq<LeaderboardEntry>)
    modifies store
    ensures store.leaderboards == payload && store.error == None && !store.isLoading
  {
    store.FetchLeaderboardsPending();
    store.FetchLeaderboardsFulfilled(payload);
  }

  /** A failed fetch from any state keeps the entries shown before it. */
  method FailedFetch(store: LeaderboardsStore, message: string)
    modifies store
    ensures store.leaderboards == old(store.leaderboards) && store.error == Some(message) && !store.isLoading
  {
    store.FetchLeaderboardsPending();
    store.FetchLeaderboardsRejected(message);
  }
}
