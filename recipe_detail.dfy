/**
 * The recipe page: its own ingredient formatter, what the page shows for
 * each outcome of the fetch, and who sees the Edit and Delete controls.
 */
module RecipeDetail {
  import opened Wrappers
  import opened Text
  import opened Http
  import opened RecipeSchema
  import opened RecipesApi
  import opened AuthContext
  import opened ApiClient
  import RecipeCard

  /**
   * The page's `formatIngredient`: pushes the shown quantity, the shown unit
   * and the name onto a list, then joins it with single spaces. It agrees
   * with the card's formatter on every ingredient.
   */
  method FormatIngredient(ing: Ingredient) returns (text: string)
    ensures text == RecipeCard.Lead(ing.quantity) + RecipeCard.Lead(ing.unit) + ing.name.GetOr("")
    ensures text == RecipeCard.FormatIngredient(ing)
  {
    var parts: seq<string> := [];
    if Truthy(ing.quantity) && ing.quantity.value != "1" {
      parts := parts + [ing.quantity.value];
    }
    if Truthy(ing.unit) && ing.unit.value != "1" {
      parts := parts + [ing.unit.value];
    }
    parts := parts + [ing.name.GetOr("")];
    assert parts == RecipeCard.Parts(ing);
    RecipeCard.JoinParts(ing);
    text := Join(parts, " ");
  }

  /**
   * `isAuthenticated && user.id === recipe.userId`. The page reads `user.id`
   * whenever the flag is set, so a signed-in state must carry a user.
   */
  predicate CanManage(isAuthenticated: bool, user: Option<SessionUser>, recipe: Recipe)
    requires isAuthenticated ==> user.Some?
  {
    isAuthenticated && user.value.id == recipe.userId
  }

  /** The controls show exactly for a signed-in viewer who owns the recipe by the route's own rule. */
  lemma CanManageIffOwner(isAuthenticated: bool, user: Option<SessionUser>, recipe: Recipe)
    requires isAuthenticated ==> user.Some?
    ensures CanManage(isAuthenticated, user, recipe) <==> isAuthenticated && IsOwner(recipe, user.value.id)
    ensures !isAuthenticated ==> !CanManage(isAuthenticated, user, recipe)
  {
  }

  /** What the page shows once loading ends. */
  datatype DetailView =
    | Showing(recipe: Recipe)   // the recipe itself
    | Alert(message: string)    // the error banner
    | NotFound                  // the plain "Recipe not found" text of a missing recipe

  const NoSuchRecipe := "Recipe not found"

  /**
   * `fetchRecipe` followed by the render: a thrown error shows its message
   * (or `Error fetching recipe`); a reply without `success` shows the
   * `Recipe not found` banner; a successful reply shows its recipe, or the
   * plain not-found text when it carries none.
   */
  function View(fetched: Result<Reply<Recipe>, string>): (v: DetailView)
    ensures fetched.Err? ==> v == Alert(OrElse(Some(fetched.error), RecipeFetchFailed))
    ensures fetched.Ok? && !fetched.value.success ==> v == Alert(NoSuchRecipe)
    ensures fetched.Ok? && fetched.value.success ==>
      v == (if fetched.value.payload.Some? then Showing(fetched.value.payload.value) else NotFound)
  {
    match fetched
    case Err(message) => Alert(OrElse(Some(message), RecipeFetchFailed))
    case Ok(reply) =>
      if !reply.success then Alert(NoSuchRecipe)
      else if reply.payload.None? then NotFound
      else Showing(reply.payload.value)
  }

  /**
   * Through `getRecipe`, the `Recipe not found` banner appears only for a
   * 2xx reply without `success`; a network failure and every non-2xx
   * response show `Error fetching recipe`.
   */
  lemma ViewOfFetch(f: Fetched<Recipe>)
    ensures View(GetRecipe(f)) == Alert(NoSuchRecipe) <==> f.Response? && OkStatus(f.status) && !f.body.success
    ensures !(f.Response? && OkStatus(f.status)) ==> View(GetRecipe(f)) == Alert(RecipeFetchFailed)
  {
  }

  /**
   * The route's answers as the page shows them: a stored recipe is shown,
   * and the route's 404 for a missing one reaches the page as
   * `Error fetching recipe`, not as `Recipe not found`.
   */
  lemma ViewOfRoute(r: Result<Recipe, Failure>)
    ensures r.Ok? ==> View(GetRecipe(Respond(r, 200))) == Showing(r.value)
    ensures r == Err(RecipeNotFound) ==> View(GetRecipe(Respond(r, 200))) == Alert(RecipeFetchFailed)
  {
  }
}
