/** The auth slice: the signed-in user, the access token and the status flags of
    the register, login and current-user requests. */
module AuthSlice {
  import opened Wrappers

  datatype User = User(id: string, name: string, email: string, avatar: string)

  class AuthStore {
    var user: Option<User>
    var token: Option<string>
    var isLoading: bool
    var error: Option<string>
    var isSuccess: bool

    /** The initial state; `storedToken` is what local storage held under
        `accessToken` when the store was created (nothing outside a browser). */
    constructor (storedToken: Option<string>)
      ensures user == None && token == storedToken
      ensures !isLoading && error == None && !isSuccess
    {
      user := None;
      token := storedToken;
      isLoading := false;
      error := None;
      isSuccess := false;
    }

    /** `resetAuthStatus`: all three status flags back to idle; user and token kept. */
    method ResetAuthStatus()
      modifies this
      ensures !isLoading && error == None && !isSuccess
      ensures user == old(user) && token == old(token)
    {
      isLoading := false;
      error := None;
      isSuccess := false;
    }

    /** `logout`: user and token dropped; the status flags are kept. */
    method Logout()
      modifies this
      ensures user == None && token == None
      ensures isLoading == old(isLoading) && error == old(error) && isSuccess == old(isSuccess)
    {
      user := None;
      token := None;
    }

    /** `registerUser.pending`. */
    method RegisterUserPending()
      modifies this
      ensures isLoading && error == None && !isSuccess
      ensures user == old(user) && token == old(token)
    {
      isLoading := true;
      error := None;
      isSuccess := false;
    }

    /** `registerUser.fulfilled`: the registered user is stored; the token is kept. */
    method RegisterUserFulfilled(registered: User)
      modifies this
      ensures !isLoading && isSuccess && user == Some(registered)
      ensures token == old(token) && error == old(error)
    {
      isLoading := false;
      isSuccess := true;
      user := Some(registered);
    }

    /** `registerUser.rejected`: only loading and the error change. */
    method RegisterUserRejected(message: string)
      modifies this
      ensures !isLoading && error == Some(message)
      ensures user == old(user) && token == old(token) && isSuccess == old(isSuccess)
    {
      isLoading := false;
      error := Some(message);
    }

    /** `loginUser.pending`, the same flags as `registerUser.pending`. */
    method LoginUserPending()
      modifies this
      ensures isLoading && error == None && !isSuccess
      ensures user == old(user) && token == old(token)
    {
      isLoading := true;
      error := None;
      isSuccess := false;
    }

    /** `loginUser.fulfilled`: the token is stored; the user is kept. */
    method LoginUserFulfilled(accessToken: string)
      modifies this
      ensures !isLoading && isSuccess && token == Some(accessToken)
      ensures user == old(user) && error == old(error)
    {
      isLoading := false;
      isSuccess := true;
      token := Some(accessToken);
    }

    /** `loginUser.rejected`: only loading and the error change. */
    method LoginUserRejected(message: string)
      modifies this
      ensures !isLoading && error == Some(message)
      ensures user == old(user) && token == old(token) && isSuccess == old(isSuccess)
    {
      isLoading := false;
      error := Some(message);
    }

    /** `fetchAuthUser.pending`: only loading changes; the error is not cleared. */
    method FetchAuthUserPending()
      modifies this
      ensures isLoading
      ensures user == old(user) && token == old(token) && error == old(error) && isSuccess == old(isSuccess)
    {
      isLoading := true;
    }

    /** `fetchAuthUser.fulfilled`: the current user is stored. */
    method FetchAuthUserFulfilled(current: User)
      modifies this
      ensures !isLoading && user == Some(current)
      ensures token == old(token) && error == old(error) && isSuccess == old(isSuccess)
    {
      isLoading := false;
      user := Some(current);
    }

    /** `fetchAuthUser.rejected`: the session is dropped, user and token both. */
    method FetchAuthUserRejected()
      modifies this
      ensures !isLoading && user == None && token == None
      ensures error == old(error) && isSuccess == old(isSuccess)
    {
      isLoading := false;
      token := None;
      user := None;
    }
  }

  /** A login that succeeds, from any state: the token is stored, the request is
      reported successful with no error, and the user is kept. */
  method SuccessfulLogin(store: AuthStore, accessToken: string)
    modifies store
    ensures store.token == Some(accessToken) && store.isSuccess && store.error == None && !store.isLoading
    ensures store.user == old(store.user)
  {
    store.LoginUserPending();
    store.LoginUserFulfilled(accessToken);
  }

  /** A current-user request that fails, from any state: the session is gone and
      an earlier error stays, since the request's pending case does not clear it. */
  method ExpiredSession(store: AuthStore)
    modifies store
    ensures store.user == None && store.token == None && !store.isLoading
    ensures store.error == old(store.error) && store.isSuccess == old(store.isSuccess)
  {
    store.FetchAuthUserPending();
    store.FetchAuthUserRejected();
  }
}
