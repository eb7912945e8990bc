/**
 * The client and the server together: a session made from a login reply
 * authenticates as its account, the page's owner check agrees with the
 * route's, and one sequence of calls from two users.
 */
module Scenario {
  import opened Wrappers
  import opened Identity
  import opened Http
  import opened RecipeSchema
  import opened RecipesApi
  import opened AuthApi
  import opened AuthContext
  import opened ApiClient
  import RecipeDetail

  /** The authorization a signed-in client sends after a backend login. */
  function SessionHeader(reply: LoginReply): Option<string> {
    match AuthHeader(Some(UserToStore(FromReply(reply))))
    case None => None
    case Some(h) => Authorization(h)
  }

  /**
   * A login reply, kept as the session and sent back as a bearer header,
   * authenticates as the account that logged in.
   */
  lemma SessionAuthenticates(signer: Signer, reply: LoginReply)
    requires SignerSound(signer)
    requires reply.token == signer.sign(reply.user.id)
    ensures SessionHeader(reply).Some?
    ensures Authenticate(signer, SessionHeader(reply)) == Ok(reply.user.id)
  {
    var stored := Some(UserToStore(FromReply(reply)));
    BearerRoundTrip(stored);
  }

  /**
   * For a signed-in session, the page shows Edit and Delete exactly when the
   * route would accept an update or a delete from the same session.
   */
  lemma ControlsMatchRoute(signer: Signer, reply: LoginReply, recipe: Recipe)
    requires SignerSound(signer)
    requires reply.token == signer.sign(reply.user.id)
    ensures Authenticate(signer, SessionHeader(reply)).Ok?
    ensures RecipeDetail.CanManage(true, Some(UserToStore(FromReply(reply))), recipe)
      <==> IsOwner(recipe, Authenticate(signer, SessionHeader(reply)).value)
  {
    SessionAuthenticates(signer, reply);
  }

  /**
   * Two users register and log in; registering the first one's email again
   * is refused. Each login yields the account's id and a token signed for it.
   */
  method SignUpTwo(signer: Signer, hasher: Hasher) returns (amy: LoginReply, bob: LoginReply, again: Result<string, Failure>)
    requires SignerSound(signer) && HasherSound(hasher)
    ensures amy.user.id == 0 && amy.token == signer.sign(0)
    ensures bob.user.id == 1 && bob.token == signer.sign(1)
    ensures again == Err(EmailTaken)
  {
    var accounts := new UserRegistry(signer, hasher);
    var amyJoined := accounts.Register("amy", "amy@mail", "pw-a", "salt-1");
    assert amyJoined.Ok?;
    var bobJoined := accounts.Register("bob", "bob@mail", "pw-b", "salt-2");
    assert FindByEmail(accounts.users[..1], "bob@mail").None?;
    assert bobJoined.Ok?;
    again := accounts.Register("amy2", "amy@mail", "other", "salt-3");
    assert FindByEmail(accounts.users, "amy@mail").Some?;

    assert accounts.users[0].email == "amy@mail" && hasher.compare("pw-a", accounts.users[0].passwordHash);
    var amyIn := accounts.Login("amy@mail", "pw-a");
    assert amyIn.value.user.id == 0;
    assert accounts.users[1].email == "bob@mail" && hasher.compare("pw-b", accounts.users[1].passwordHash);
    var bobIn := accounts.Login("bob@mail", "pw-b");
    assert bobIn.value.user.id == 1;
    amy, bob := amyIn.value, bobIn.value;
  }

  /**
   * The first user creates a recipe naming the second as owner in the body,
   * the second's update is refused, the first deletes it, and a later fetch
   * finds nothing.
   */
  method TwoUsers(signer: Signer, hasher: Hasher)
    returns (owner: UserId, bobUpdate: Result<Recipe, Failure>, amyDelete: Result<string, Failure>, afterDelete: Result<Recipe, Failure>)
    requires SignerSound(signer) && HasherSound(hasher)
    ensures owner == 0
    ensures bobUpdate == Err(UpdateForbidden)
    ensures amyDelete == Ok(DeletedMessage)
    ensures afterDelete == Err(RecipeNotFound)
  {
    var amy, bob, _ := SignUpTwo(signer, hasher);
    var recipes := new RecipeStore(signer);
    SessionAuthenticates(signer, amy);
    SessionAuthenticates(signer, bob);
    var pancakes := RecipeInput(Some("Pancakes"), Some("American"), None, Some(["Mix", "Fry"]), Some(1));
    var created := recipes.Create(SessionHeader(amy), pancakes);
    owner := created.value.userId;
    var id := created.value.id;

    var renamed := RecipeInput(Some("Crepes"), None, None, None, None);
    bobUpdate := recipes.Update(SessionHeader(bob), id, renamed);
    amyDelete := recipes.Delete(SessionHeader(amy), id);
    afterDelete := recipes.Get(id);
  }
}
