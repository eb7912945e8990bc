/**
 * The recipe routes: the bearer-token middleware, the search filter of the
 * list route, and the recipe collection with its list, get, create, update
 * and delete handlers. Handlers run one at a time.
 */
module RecipesApi {
  import opened Wrappers
  import opened Identity
  import opened Text
  import opened Http
  import opened RecipeSchema

  const AccessDenied := Failure(401, "Access denied")
  const InvalidToken := Failure(400, "Invalid token")
  const RecipeNotFound := Failure(404, "Recipe not found")
  const UpdateForbidden := Failure(403, "Not authorized to update this recipe")
  const DeleteForbidden := Failure(403, "Not authorized")
  const CreateFailed := Failure(500, "Error creating recipe")
  const UpdateFailed := Failure(500, "Error updating recipe")
  const DeletedMessage := "Recipe deleted successfully"

  /**
   * `authHeader && authHeader.split(' ')[1]`, kept only when truthy: the
   * second space-separated word of the header. The first word is not looked at.
   */
  function BearerToken(header: Option<string>): (token: Option<string>)
    ensures token.Some? <==> header.Some? && |Split(header.value, ' ')| >= 2 && Split(header.value, ' ')[1] != ""
    ensures token.Some? ==> token.value == Split(header.value, ' ')[1]
    ensures token.Some? ==> token.value != "" && ' ' !in token.value
  {
    if header.None? then None
    else
      var words := Split(header.value, ' ');
      if |words| >= 2 && words[1] != "" then Some(words[1]) else None
  }

  /** Whatever the first word, a header of two words yields the second as the token. */
  lemma SecondWordIsToken(scheme: string, token: string)
    requires ' ' !in scheme && ' ' !in token && token != ""
    ensures BearerToken(Some(scheme + " " + token)) == Some(token)
  {
    assert scheme + " " + token == scheme + [' '] + token;
    SplitAfterWord(scheme, ' ', token);
    SplitWithoutSeparator(token, ' ');
  }

  /**
   * The `authenticateToken` middleware: 401 when there is no token, 400 when
   * the token does not verify, otherwise the verified user id for the handler.
   */
  function Authenticate(signer: Signer, header: Option<string>): (r: Result<UserId, Failure>)
    ensures BearerToken(header).None? ==> r == Err(AccessDenied)
    ensures BearerToken(header).Some? && signer.verify(BearerToken(header).value).None? ==> r == Err(InvalidToken)
    ensures r.Ok? <==> BearerToken(header).Some? && signer.verify(BearerToken(header).value).Some?
    ensures r.Ok? ==> signer.verify(BearerToken(header).value) == Some(r.value)
  {
    match BearerToken(header)
    case None => Err(AccessDenied)
    case Some(token) =>
      match signer.verify(token)
      case None => Err(InvalidToken)
      case Some(id) => Ok(id)
  }

  /** A header carrying a token signed for `id`, under any scheme word, authenticates as `id`. */
  lemma SignedTokenAuthenticates(signer: Signer, scheme: string, id: UserId)
    requires SignerSound(signer)
    requires ' ' !in scheme
    ensures Authenticate(signer, Some(scheme + " " + signer.sign(id))) == Ok(id)
  {
    SecondWordIsToken(scheme, signer.sign(id));
  }

  /** The query the list route builds. */
  datatype Filter = Everything | NameContains(term: string) | CuisineContains(term: string)

  /**
   * `if (search && search.trim() !== '')` then a regex on `name` or `cuisine`
   * for exactly those two `type` values; in every other case the empty query.
   * The term is the search string as sent, untrimmed.
   */
  function BuildFilter(search: Option<string>, kind: Option<string>): (f: Filter)
    ensures f.Everything? <==> search.None? || IsBlank(search.value) || (kind != Some("name") && kind != Some("cuisine"))
    ensures f.NameContains? <==> search.Some? && !IsBlank(search.value) && kind == Some("name")
    ensures f.CuisineContains? <==> search.Some? && !IsBlank(search.value) && kind == Some("cuisine")
    ensures !f.Everything? ==> f.term == search.value
  {
    if search.Some? && !IsBlank(search.value) then
      if kind == Some("name") then NameContains(search.value)
      else if kind == Some("cuisine") then CuisineContains(search.value)
      else Everything
    else Everything
  }

  predicate Matches(r: Recipe, f: Filter) {
    match f
    case Everything => true
    case NameContains(term) => ContainsIgnoringCase(r.name, term)
    case CuisineContains(term) => ContainsIgnoringCase(r.cuisine, term)
  }

  /** A recipe matches a name or cuisine filter exactly when the folded term occurs in the folded field. */
  lemma MatchesMeansOccurs(r: Recipe, f: Filter)
    ensures f.Everything? ==> Matches(r, f)
    ensures f.NameContains? ==> (Matches(r, f) <==> Occurs(Lower(f.term), Lower(r.name)))
    ensures f.CuisineContains? ==> (Matches(r, f) <==> Occurs(Lower(f.term), Lower(r.cuisine)))
  {
    match f
    case Everything =>
    case NameContains(term) => OccursFromIsOccurs(Lower(term), Lower(r.name));
    case CuisineContains(term) => OccursFromIsOccurs(Lower(term), Lower(r.cuisine));
  }

  /** The ownership rule both mutating handlers apply. */
  predicate IsOwner(r: Recipe, caller: UserId) {
    r.userId == caller
  }

  /** A list in which every recipe was created strictly after the next one. */
  predicate NewestFirst(rs: seq<Recipe>) {
    forall i, j :: 0 <= i < j < |rs| ==> rs[i].createdAt > rs[j].createdAt
  }

  /**
   * Two newest-first lists holding the same recipes are the same list: the
   * list route's answer is determined by which recipes match.
   */
  lemma {:induction false} NewestFirstIsUnique(a: seq<Recipe>, b: seq<Recipe>)
    requires NewestFirst(a) && NewestFirst(b)
    requires forall r :: r in a <==> r in b
    ensures a == b
  {
    assert a != [] ==> a[0] in b;
    assert b != [] ==> b[0] in a;
    if a != [] {
      var i :| 0 <= i < |b| && b[i] == a[0];
      var j :| 0 <= j < |a| && a[j] == b[0];
      assert b[0].createdAt >= a[0].createdAt >= b[0].createdAt;
      assert i == 0;
      forall r ensures r in a[1..] <==> r in b[1..] {
        if r in a[1..] {
          InTail(a, b, r);
        }
        if r in b[1..] {
          InTail(b, a, r);
        }
      }
      NewestFirstIsUnique(a[1..], b[1..]);
      assert a == [a[0]] + a[1..];
      assert b == [b[0]] + b[1..];
    }
  }

  /** Below a shared newest recipe, a recipe of one list's tail is in the other's tail. */
  lemma InTail(a: seq<Recipe>, b: seq<Recipe>, r: Recipe)
    requires a != [] && b != [] && a[0] == b[0]
    requires NewestFirst(a) && r in a[1..] && r in b
    ensures r in b[1..]
  {
    var m :| 0 <= m < |a[1..]| && a[1..][m] == r;
    assert a[m + 1] == r;
    var k :| 0 <= k < |b| && b[k] == r;
    assert k != 0 && b[1..][k - 1] == r;
  }

  /**
   * The recipe collection. Ids and timestamps are drawn from one counter
   * `clock`, as an ObjectId begins with its creation time: a recipe's id is
   * its creation time, and every stored time is before `clock`.
   */
  class RecipeStore {
    const signer: Signer
    var recipes: map<RecipeId, Recipe>
    var clock: nat

    ghost predicate Valid()
      reads this
    {
      forall id | id in recipes ::
        recipes[id].id == id && recipes[id].createdAt == id && WellFormed(recipes[id]) && recipes[id].updatedAt < clock
    }

    constructor (signer: Signer)
      ensures Valid() && this.signer == signer && recipes == map[] && clock == 0
    {
      this.signer := signer;
      recipes := map[];
      clock := 0;
    }

    /** GET `/:id`: the stored recipe, or 404 "Recipe not found". */
    function Get(id: RecipeId): (r: Result<Recipe, Failure>)
      reads this
      requires Valid()
      ensures r.Ok? <==> id in recipes
      ensures r.Ok? ==> r.value == recipes[id] && r.value.id == id && WellFormed(r.value)
      ensures r.Err? ==> r.error == RecipeNotFound
    {
      if id in recipes then Ok(recipes[id]) else Err(RecipeNotFound)
    }

    /**
     * GET `/`: exactly the stored recipes that match the filter built from
     * `search` and `type`, newest first.
     */
    method List(search: Option<string>, kind: Option<string>) returns (rs: seq<Recipe>)
      requires Valid()
      ensures forall r :: r in rs <==> r in recipes.Values && Matches(r, BuildFilter(search, kind))
      ensures NewestFirst(rs)
    {
      var filter := BuildFilter(search, kind);
      rs := [];
      var t := clock;
      while t > 0
        invariant 0 <= t <= clock
        invariant forall r :: r in rs <==> r in recipes.Values && Matches(r, filter) && r.createdAt >= t
        invariant forall k :: 0 <= k < |rs| ==> rs[k].createdAt >= t
        invariant NewestFirst(rs)
      {
        t := t - 1;
        if t in recipes && Matches(recipes[t], filter) {
          rs := rs + [recipes[t]];
        }
      }
    }

    /**
     * POST `/`, behind the middleware: a new recipe owned by the caller,
     * whatever `userId` the body carries, with a fresh id newer than every
     * stored recipe; 500 "Error creating recipe" when a required field is
     * missing. Nothing is stored on any failure.
     */
    method Create(header: Option<string>, body: RecipeInput) returns (r: Result<Recipe, Failure>)
      requires Valid()
      modifies this
      ensures Valid()
      ensures var auth := Authenticate(signer, header);
        auth.Err? ==> r == Err(auth.error) && recipes == old(recipes) && clock == old(clock)
      ensures var auth := Authenticate(signer, header);
        auth.Ok? && Construct(body, old(clock), auth.value, old(clock)).None? ==>
          r == Err(CreateFailed) && recipes == old(recipes)
      ensures r.Ok? ==>
        && Authenticate(signer, header) == Ok(r.value.userId)
        && Construct(body, old(clock), r.value.userId, old(clock)) == Some(r.value)
        && r.value.id !in old(recipes)
        && recipes == old(recipes)[r.value.id := r.value]
        && Get(r.value.id) == Ok(r.value)
        && (forall id | id in old(recipes) :: old(recipes)[id].createdAt < r.value.createdAt)
      ensures r.Ok? <==> Authenticate(signer, header).Ok? && RequiredString(body.name) && RequiredString(body.cuisine)
      ensures clock == if r.Ok? then old(clock) + 1 else old(clock)
    {
      var auth := Authenticate(signer, header);
      if auth.Err? {
        return Err(auth.error);
      }
      var created := Construct(body, clock, auth.value, clock);
      if created.None? {
        return Err(CreateFailed);
      }
      recipes := recipes[clock := created.value];
      clock := clock + 1;
      r := Ok(created.value);
    }

    /**
     * PUT `/:id`, behind the middleware: 404 for an unknown id, then 403 for a
     * caller other than the owner, then 500 when validation refuses the
     * patch; otherwise the four fields are set and the updated recipe returned.
     * Nothing is stored on any failure.
     */
    method Update(header: Option<string>, id: RecipeId, body: RecipeInput) returns (r: Result<Recipe, Failure>)
      requires Valid()
      modifies this
      ensures Valid()
      ensures r.Err? ==> recipes == old(recipes)
      ensures var auth := Authenticate(signer, header);
        auth.Err? ==> r == Err(auth.error)
      ensures var auth := Authenticate(signer, header);
        auth.Ok? && id !in old(recipes) ==> r == Err(RecipeNotFound)
      ensures var auth := Authenticate(signer, header);
        auth.Ok? && id in old(recipes) && !IsOwner(old(recipes)[id], auth.value) ==> r == Err(UpdateForbidden)
      ensures var auth := Authenticate(signer, header);
        auth.Ok? && id in old(recipes) && IsOwner(old(recipes)[id], auth.value) ==>
          match ApplyPatch(old(recipes)[id], PatchOf(body), old(clock))
          case None => r == Err(UpdateFailed)
          case Some(updated) => r == Ok(updated) && recipes == old(recipes)[id := updated]
      ensures r.Ok? ==> r.value.id == id && r.value.userId == old(recipes)[id].userId && Get(id) == Ok(r.value)
      ensures clock == if r.Ok? then old(clock) + 1 else old(clock)
    {
      var auth := Authenticate(signer, header);
      if auth.Err? {
        return Err(auth.error);
      }
      if id !in recipes {
        return Err(RecipeNotFound);
      }
      if !IsOwner(recipes[id], auth.value) {
        return Err(UpdateForbidden);
      }
      var updated := ApplyPatch(recipes[id], PatchOf(body), clock);
      if updated.None? {
        return Err(UpdateFailed);
      }
      recipes := recipes[id := updated.value];
      clock := clock + 1;
      r := Ok(updated.value);
    }

    /**
     * DELETE `/:id`, behind the middleware: 404 for an unknown id, 403 for a
     * caller other than the owner, otherwise the recipe is removed, so that a
     * later get of the id is 404. Nothing changes on any failure.
     */
    method Delete(header: Option<string>, id: RecipeId) returns (r: Result<string, Failure>)
      requires Valid()
      modifies this
      ensures Valid() && clock == old(clock)
      ensures r.Err? ==> recipes == old(recipes)
      ensures var auth := Authenticate(signer, header);
        auth.Err? ==> r == Err(auth.error)
      ensures var auth := Authenticate(signer, header);
        auth.Ok? && id !in old(recipes) ==> r == Err(RecipeNotFound)
      ensures var auth := Authenticate(signer, header);
        auth.Ok? && id in old(recipes) && !IsOwner(old(recipes)[id], auth.value) ==> r == Err(DeleteForbidden)
      ensures var auth := Authenticate(signer, header);
        auth.Ok? && id in old(recipes) && IsOwner(old(recipes)[id], auth.value) ==>
          r == Ok(DeletedMessage) && recipes == old(recipes) - {id}
      ensures r.Ok? ==> Get(id) == Err(RecipeNotFound)
    {
      var auth := Authenticate(signer, header);
      if auth.Err? {
        return Err(auth.error);
      }
      if id !in recipes {
        return Err(RecipeNotFound);
      }
      if !IsOwner(recipes[id], auth.value) {
        return Err(DeleteForbidden);
      }
      recipes := recipes - {id};
      r := Ok(DeletedMessage);
    }
  }
}
