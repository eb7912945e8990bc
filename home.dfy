/**
 * The home page's two rows, cut from one fetched list: "Recent Recipes" is
 * the last six in reverse, "Popular Recipes" the first six in order.
 */
module Home {
  import opened Wrappers
  import opened Seqs
  import opened RecipeSchema
  import opened RecipesApi
  import opened ApiClient

  /** Each row holds at most six recipes. */
  const RowSize := 6

  function Min(a: nat, b: nat): nat {
    if a <= b then a else b
  }

  /** `recipes.slice(0, 6)`: the first six recipes, or all of them, in the fetched order. */
  function Popular(rs: seq<Recipe>): (p: seq<Recipe>)
    ensures |p| == Min(RowSize, |rs|)
    ensures forall k :: 0 <= k < |p| ==> p[k] == rs[k]
  {
    rs[..Min(RowSize, |rs|)]
  }

  /** `recipes.slice(-6).reverse()`: the last six recipes, or all of them, last one first. */
  function Recent(rs: seq<Recipe>): (r: seq<Recipe>)
    ensures |r| == Min(RowSize, |rs|)
    ensures forall k :: 0 <= k < |r| ==> r[k] == rs[|rs| - 1 - k]
  {
    var tail := rs[|rs| - Min(RowSize, |rs|)..];
    ReverseEach(tail);
    Reverse(tail)
  }

  lemma ReverseEach<T>(s: seq<T>)
    ensures forall k :: 0 <= k < |s| ==> Reverse(s)[k] == s[|s| - 1 - k]
  {
    forall k | 0 <= k < |s| {
      ReverseAt(s, k);
    }
  }

  /** With six recipes or fewer both rows hold the whole list, one the reverse of the other. */
  lemma RecentReversesPopularWhenShort(rs: seq<Recipe>)
    requires |rs| <= RowSize
    ensures Popular(rs) == rs
    ensures Recent(rs) == Reverse(Popular(rs))
  {
    ReverseEach(rs);
  }

  /**
   * On the route's newest-first list, "Recent" holds the oldest recipes,
   * oldest first, and every recipe left out of it is newer than all of them.
   */
  lemma RecentAreOldest(rs: seq<Recipe>)
    requires NewestFirst(rs)
    ensures forall i, j :: 0 <= i < j < |Recent(rs)| ==> Recent(rs)[i].createdAt < Recent(rs)[j].createdAt
    ensures forall k, j :: 0 <= k < |rs| - RowSize && 0 <= j < |Recent(rs)| ==> rs[k].createdAt > Recent(rs)[j].createdAt
  {
  }

  /**
   * On the route's newest-first list, "Popular" holds the newest recipes,
   * newest first, and every recipe left out of it is older than all of them.
   */
  lemma PopularAreNewest(rs: seq<Recipe>)
    requires NewestFirst(rs)
    ensures NewestFirst(Popular(rs))
    ensures forall k, j :: RowSize <= k < |rs| && 0 <= j < |Popular(rs)| ==> rs[k].createdAt < Popular(rs)[j].createdAt
  {
  }

  /** What the page shows once loading ends. */
  datatype HomeView = Rows(recent: seq<Recipe>, popular: seq<Recipe>) | Alert(message: string)

  const ListRefused := "Failed to fetch recipes"

  /**
   * `fetchRecipes`: a thrown error shows `Error fetching recipes`; a reply
   * without `success` shows `Failed to fetch recipes`; otherwise both rows
   * are cut from the reply's list, a missing list counting as empty.
   */
  function View(fetched: Result<Reply<seq<Recipe>>, string>): (v: HomeView)
    ensures fetched.Err? ==> v == Alert(ListFetchFailed)
    ensures fetched.Ok? && !fetched.value.success ==> v == Alert(ListRefused)
    ensures fetched.Ok? && fetched.value.success ==>
      v == Rows(Recent(fetched.value.payload.GetOr([])), Popular(fetched.value.payload.GetOr([])))
    ensures v.Rows? ==> |v.recent| <= RowSize && |v.popular| <= RowSize
  {
    match fetched
    case Err(_) => Alert(ListFetchFailed)
    case Ok(reply) =>
      if !reply.success then Alert(ListRefused)
      else
        var recipes := reply.payload.GetOr([]);
        Rows(Recent(recipes), Popular(recipes))
  }

  /** A successful reply with no `recipes` field shows two empty rows. */
  lemma MissingListIsEmpty(status: nat, message: Option<string>)
    requires OkStatus(status)
    ensures View(GetRecipes(Response(status, Reply(true, None, message)))) == Rows([], [])
  {
  }
}
