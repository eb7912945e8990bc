/**
 * The client's session: the signed-in user, the `isAuthenticated` flag,
 * and the `user` entry of browser storage that outlives a page load.
 */
module AuthContext {
  import opened Wrappers
  import opened Identity
  import opened AuthApi

  /** The user object the client keeps: the public fields of the account plus its token. */
  datatype SessionUser = SessionUser(id: UserId, username: string, email: string, token: Option<string>)

  /** The data `login` is given: a login reply as the client parsed it. */
  datatype LoginData = LoginData(user: PublicUser, token: Option<string>)

  /** `{ ...userData.user, token: userData.token }`: the user's fields, then the token. */
  function UserToStore(data: LoginData): (s: SessionUser)
    ensures s.id == data.user.id && s.username == data.user.username && s.email == data.user.email
    ensures s.token == data.token
  {
    SessionUser(data.user.id, data.user.username, data.user.email, data.token)
  }

  /** The data a successful backend login hands to the client. */
  function FromReply(reply: LoginReply): (data: LoginData)
    ensures data.user == reply.user && data.token == Some(reply.token)
  {
    LoginData(reply.user, Some(reply.token))
  }

  /** What a user does to the session: sign in with some login data, or sign out. */
  datatype Action = SignIn(data: LoginData) | SignOut

  /**
   * The provider's state. `stored` is the storage entry: `None` when no
   * `user` entry exists, otherwise the object it holds.
   */
  class AuthState {
    var user: Option<SessionUser>
    var isAuthenticated: bool
    var stored: Option<SessionUser>

    /** The state and the storage entry agree, and the flag says whether a user is present. */
    ghost predicate Valid()
      reads this
    {
      && user == stored
      && (isAuthenticated <==> user.Some?)
    }

    /** The first render: the user is the stored entry, and authenticated exactly when one exists. */
    constructor (saved: Option<SessionUser>)
      ensures user == saved && stored == saved
      ensures isAuthenticated <==> saved.Some?
      ensures Valid()
    {
      user := saved;
      isAuthenticated := saved.Some?;
      stored := saved;
    }

    /** `login`: the user becomes the given fields plus the token, and the same object is stored. */
    method Login(data: LoginData)
      modifies this
      ensures user == Some(UserToStore(data))
      ensures isAuthenticated
      ensures stored == user
      ensures Valid()
    {
      var userToStore := UserToStore(data);
      user := Some(userToStore);
      isAuthenticated := true;
      stored := Some(userToStore);
    }

    /** `logout`: no user, not authenticated, and the storage entry removed. */
    method Logout()
      modifies this
      ensures user == None && !isAuthenticated && stored == None
      ensures Valid()
    {
      user := None;
      isAuthenticated := false;
      stored := None;
    }

    /**
     * Any sequence of logins and logouts, one after another: the state stays
     * consistent with storage, and the last action decides whether a user is
     * signed in.
     */
    method Replay(actions: seq<Action>)
      requires Valid()
      modifies this
      ensures Valid()
      ensures actions == [] ==> user == old(user) && isAuthenticated == old(isAuthenticated)
      ensures actions != [] ==> (isAuthenticated <==> actions[|actions| - 1].SignIn?)
      ensures actions != [] && actions[|actions| - 1].SignIn? ==> user == Some(UserToStore(actions[|actions| - 1].data))
    {
      var i := 0;
      while i < |actions|
        invariant 0 <= i <= |actions|
        invariant Valid()
        invariant i == 0 ==> user == old(user) && isAuthenticated == old(isAuthenticated)
        invariant i > 0 ==> (isAuthenticated <==> actions[i - 1].SignIn?)
        invariant i > 0 && actions[i - 1].SignIn? ==> user == Some(UserToStore(actions[i - 1].data))
      {
        match actions[i] {
          case SignIn(data) => Login(data);
          case SignOut => Logout();
        }
        i := i + 1;
      }
    }
  }
}
