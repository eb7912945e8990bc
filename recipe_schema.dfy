/**
 * The recipe document: its fields, the schema's `required` checks, the
 * array defaults and the `timestamps` option, and the two ways a document
 * comes about (construction from a request body, and an update that sets
 * some of its fields).
 */
module RecipeSchema {
  import opened Wrappers
  import opened Identity
  import opened Text

  /** An ingredient sub-document: three optional strings, nothing else. */
  datatype Ingredient = Ingredient(name: Option<string>, quantity: Option<string>, unit: Option<string>)

  /** A stored recipe. `createdAt` and `updatedAt` read an abstract monotonic clock. */
  datatype Recipe = Recipe(
    id: RecipeId,
    name: string,
    cuisine: string,
    ingredients: seq<Ingredient>,
    instructions: seq<string>,
    userId: UserId,
    createdAt: nat,
    updatedAt: nat)

  /**
   * A request body as the handlers receive it. A field the client left out
   * is `None`; `userId` is whatever the client put there.
   */
  datatype RecipeInput = RecipeInput(
    name: Option<string>,
    cuisine: Option<string>,
    ingredients: Option<seq<Ingredient>>,
    instructions: Option<seq<string>>,
    userId: Option<UserId>)

  /** The four fields an update sets; an absent one is left as stored. */
  datatype RecipePatch = RecipePatch(
    name: Option<string>,
    cuisine: Option<string>,
    ingredients: Option<seq<Ingredient>>,
    instructions: Option<seq<string>>)

  /** The `required` validator of a string path: present and not the empty string. */
  predicate RequiredString(value: Option<string>) {
    Truthy(value)
  }

  /** What every stored recipe satisfies: both required strings set, and timestamps in order. */
  predicate WellFormed(r: Recipe) {
    r.name != "" && r.cuisine != "" && r.createdAt <= r.updatedAt
  }

  /**
   * `new Recipe({ ...body, userId: owner })` followed by validation on save.
   * The owner always comes from the caller, never from the body; missing
   * arrays default to empty; both timestamps are the creation time.
   */
  function Construct(body: RecipeInput, id: RecipeId, owner: UserId, now: nat): (r: Option<Recipe>)
    ensures r.Some? <==> RequiredString(body.name) && RequiredString(body.cuisine)
    ensures r.Some? ==> WellFormed(r.value) && r.value.id == id && r.value.userId == owner
    ensures r.Some? ==> r.value.createdAt == now && r.value.updatedAt == now
    ensures r.Some? ==> r.value.name == body.name.value && r.value.cuisine == body.cuisine.value
    ensures r.Some? ==> r.value.ingredients == body.ingredients.GetOr([])
    ensures r.Some? ==> r.value.instructions == body.instructions.GetOr([])
  {
    if RequiredString(body.name) && RequiredString(body.cuisine) then
      Some(Recipe(id, body.name.value, body.cuisine.value, body.ingredients.GetOr([]),
                  body.instructions.GetOr([]), owner, now, now))
    else None
  }

  /** The update a PUT sends: exactly name, cuisine, ingredients and instructions of the body. */
  function PatchOf(body: RecipeInput): (p: RecipePatch)
    ensures p.name == body.name && p.cuisine == body.cuisine
    ensures p.ingredients == body.ingredients && p.instructions == body.instructions
  {
    RecipePatch(body.name, body.cuisine, body.ingredients, body.instructions)
  }

  /**
   * `findByIdAndUpdate(id, patch, { new: true, runValidators: true })` on
   * one document: validators run on the paths being set, so an empty name or
   * cuisine is refused; otherwise the set paths change, `updatedAt` becomes
   * `now`, and the id, owner and creation time stay as they were.
   */
  function ApplyPatch(r: Recipe, patch: RecipePatch, now: nat): (u: Option<Recipe>)
    ensures u.None? <==> patch.name == Some("") || patch.cuisine == Some("")
    ensures u.Some? ==> u.value.id == r.id && u.value.userId == r.userId && u.value.createdAt == r.createdAt
    ensures u.Some? ==> u.value.updatedAt == now
    ensures u.Some? ==> u.value.name == patch.name.GetOr(r.name) && u.value.cuisine == patch.cuisine.GetOr(r.cuisine)
    ensures u.Some? ==> u.value.ingredients == patch.ingredients.GetOr(r.ingredients)
    ensures u.Some? ==> u.value.instructions == patch.instructions.GetOr(r.instructions)
    ensures u.Some? && WellFormed(r) && r.updatedAt <= now ==> WellFormed(u.value)
  {
    if patch.name == Some("") || patch.cuisine == Some("") then None
    else
      Some(r.(name := patch.name.GetOr(r.name),
              cuisine := patch.cuisine.GetOr(r.cuisine),
              ingredients := patch.ingredients.GetOr(r.ingredients),
              instructions := patch.instructions.GetOr(r.instructions),
              updatedAt := now))
  }

  /** A patch naming every field replaces the recipe's content entirely and leaves its identity alone. */
  lemma FullPatchReplacesContent(r: Recipe, body: RecipeInput, now: nat)
    requires RequiredString(body.name) && RequiredString(body.cuisine)
    requires body.ingredients.Some? && body.instructions.Some?
    ensures var u := ApplyPatch(r, PatchOf(body), now);
      && u.Some?
      && u.value == Recipe(r.id, body.name.value, body.cuisine.value, body.ingredients.value,
                           body.instructions.value, r.userId, r.createdAt, now)
  {
  }
}
