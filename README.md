# Recipe app: a verified model of its core

The application is a recipe-sharing site. An Express server keeps users and recipes in MongoDB, and a React client talks to it over JSON.
- **Server:** anyone can list and read recipes. A signed-in user, identified by a JWT bearer token, can create recipes, and can update or delete only the recipes they own.
- **Client:** its pages hold small pure helpers:
  - the edit form's list editing and submit cleaning;
  - ingredient formatting on cards and on the recipe page;
  - the home page's two rows of recipes;
  - the API client's headers, query strings and guards;
  - the session kept in the auth context and in browser storage.

This project models that core in Dafny and proves what each part promises.

Modules:
- **Server**
  - `RecipeSchema`: the recipe document, its `required` checks, defaults and timestamps.
  - `RecipesApi`: the bearer-token middleware, the list filter, and the class `RecipeStore`, holding the collection as a map with list/get/create/update/delete methods.
  - `AuthApi`: the class `UserRegistry`, with register and login.
- **Client**
  - `EditRecipe`, `RecipeCard`, `RecipeDetail`, `Home`: one module per page or component.
  - `ApiClient`: the API helpers.
  - `QueryString`: how a query string travels from the client's URL to `req.query`, as parsed by Express 4's default "extended" query parser, the `qs` library (6.x).
  - `AuthContext`: the class `AuthState` (user, flag, storage entry).
- **Shared**
  - `Wrappers`, `Text` (JavaScript string operations: `trim`, `split`, `join`, `||`, case folding, number printing), `Seqs` (filter, remove at, swap, reverse).
  - `Identity`: user and recipe ids, plus JWT and bcrypt as records of functions. What the application relies on from them is stated as the predicates `SignerSound` and `HasherSound`, taken as hypotheses.
  - `Http`: a failure's status and message.
- **End to end**
  - `Scenario`: the client and server connected (a session authenticates as its account; the page's owner check agrees with the route's), plus a two-user run.

Time is one abstract counter `clock` in `RecipeStore`. A recipe's id is its creation time, as a MongoDB ObjectId begins with its timestamp, so "newest first" is "highest id first". Requests are handled one at a time.

## Model

| member | source | states |
|---|---|---|
| Text.TrimStart | backend/routes/recipes.js:29 | the result is a suffix of the input that is empty or starts with a non-whitespace character, and every character removed is whitespace |
| Text.TrimEnd | backend/routes/recipes.js:29 | the result is a prefix of the input that is empty or ends with a non-whitespace character, and every character removed is whitespace |
| Text.TrimRemovesOnlyWhitespace | backend/routes/recipes.js:29 | `trim()` returns a contiguous slice of the input that neither starts nor ends with whitespace, and everything before and after it is whitespace |
| Text.TrimStartAllWhitespace | backend/routes/recipes.js:29 | trimming the start leaves nothing iff every character is whitespace |
| Text.TrimEndEmpty | backend/routes/recipes.js:29 | trimming the end leaves nothing iff every character is whitespace |
| Text.BlankIffAllWhitespace | frontend/src/pages/EditRecipe.jsx:51-56 | `s.trim() === ''` iff every character of `s` is whitespace |
| Text.OrElse | frontend/src/pages/EditRecipe.jsx:23-25 | `x \|\| fallback` on an optional string: the value when non-empty, else the fallback |
| Text.Split | backend/routes/recipes.js:8 | `split(' ')` yields at least one part and no part contains the separator |
| Text.SplitWithoutSeparator | backend/routes/recipes.js:8 | a string without the separator splits into itself alone |
| Text.SplitAfterWord | backend/routes/recipes.js:8 | a separator-free word followed by the separator splits off as the first part |
| Text.JoinCons | frontend/src/components/RecipeCard.jsx:14 | `join` puts the separator between the first part and the join of the rest |
| Text.SplitJoin | frontend/src/components/RecipeCard.jsx:14 | splitting a `join` of separator-free parts at the separator gives back the parts, so `join` loses nothing |
| Text.LowerChar | backend/routes/recipes.js:31 | the `i` flag's folding moves exactly the ASCII capitals to lower case |
| Text.Lower | backend/routes/recipes.js:31 | folding keeps the length and folds each character |
| Text.OccursFromIsOccurs | backend/routes/recipes.js:31-33 | the executable substring search agrees with "the term occurs at some position" in both directions |
| Text.Decimal | frontend/src/services/api.js:39 | a number prints as a non-empty string of decimal digits whose value is that number |
| Seqs.Keep | frontend/src/pages/EditRecipe.jsx:51-56 | `filter` yields no more elements than it was given, all satisfying the predicate |
| Seqs.KeepMembership | frontend/src/pages/EditRecipe.jsx:51-56 | an element survives `filter` iff it was present and satisfies the predicate |
| Seqs.KeepAppend | frontend/src/pages/EditRecipe.jsx:51-56 | filtering a concatenation concatenates the filtered parts (order is kept) |
| Seqs.KeepIdempotent | frontend/src/pages/EditRecipe.jsx:51-56 | filtering twice is filtering once, so cleaning an already clean list changes nothing |
| Seqs.RemoveAt | frontend/src/pages/EditRecipe.jsx:81 | filtering out index i removes exactly that entry, others shift down in order; an index out of range changes nothing |
| Seqs.AppendThenRemoveLast | frontend/src/pages/EditRecipe.jsx:76-81 | removing the entry just appended restores the list |
| Seqs.Swap | frontend/src/pages/EditRecipe.jsx:86-89 | exchanging two positions: same length, the two entries exchanged, every other entry unchanged |
| Seqs.SwapInvolution | frontend/src/pages/EditRecipe.jsx:86-89 | the same swap twice restores the list |
| Seqs.SwapPermutes | frontend/src/pages/EditRecipe.jsx:86-89 | a swap is a permutation (same multiset) |
| Seqs.Reverse | frontend/src/pages/Home.jsx:20 | `reverse` keeps the length |
| Seqs.ReverseAt | frontend/src/pages/Home.jsx:20 | position k of the reversal holds position n-1-k |
| Seqs.ReverseInvolution | frontend/src/pages/Home.jsx:20 | reversing twice restores the list |
| RecipeSchema.Construct | backend/models/Recipe.js:3-23 | a document is built iff name and cuisine are present and non-empty; it is well formed, owned by the given user, missing arrays default to empty, both timestamps are the creation time |
| RecipeSchema.PatchOf | backend/routes/recipes.js:129-134 | the update carries exactly name, cuisine, ingredients and instructions of the body |
| RecipeSchema.ApplyPatch | backend/routes/recipes.js:136-140 | validation refuses iff the patch sets name or cuisine to `''`; otherwise the set fields change, absent ones stay, id, owner and creation time stay, `updatedAt` is the update time, and well-formedness is kept |
| RecipeSchema.FullPatchReplacesContent | backend/routes/recipes.js:129-140 | a body naming all four fields replaces the content entirely and keeps the identity |
| RecipesApi.BearerToken | backend/routes/recipes.js:7-10 | the token is present iff the header has a non-empty second space-separated word, and it is that word |
| RecipesApi.SecondWordIsToken | backend/routes/recipes.js:8 | whatever the first word, `scheme token` yields `token` |
| RecipesApi.Authenticate | backend/routes/recipes.js:6-21 | no token gives 401 "Access denied", a token that does not verify gives 400 "Invalid token", otherwise the verified id |
| RecipesApi.SignedTokenAuthenticates | backend/routes/recipes.js:14-17 | a header carrying a token signed for an id authenticates as that id |
| RecipesApi.MatchesMeansOccurs | backend/routes/recipes.js:29-35 | the `$regex` query matches a recipe iff the folded term occurs in the folded name (or cuisine); the empty query matches every recipe |
| RecipesApi.BuildFilter | backend/routes/recipes.js:26-35 | unfiltered iff search is absent or blank or type is neither `name` nor `cuisine`; otherwise a case-insensitive match on that field with the untrimmed term |
| RecipesApi.NewestFirstIsUnique | backend/routes/recipes.js:37-38 | two newest-first lists with the same recipes are equal, so the list is determined by which recipes match |
| RecipesApi.RecipeStore.Get | backend/routes/recipes.js:54-71 | the stored recipe iff the id is stored, otherwise 404 "Recipe not found" |
| RecipesApi.RecipeStore.List | backend/routes/recipes.js:24-44 | a recipe is in the result iff it is stored and matches the filter; the result is newest first |
| RecipesApi.RecipeStore.Create | backend/routes/recipes.js:82-107 | middleware failures pass through; missing required fields give 500; otherwise exactly one new recipe, owned by the token's user whatever the body says, newer than all others, readable by `Get`; nothing stored on failure |
| RecipesApi.RecipeStore.Update | backend/routes/recipes.js:111-160 | in order: middleware failure, 404 unknown id, 403 not the owner, 500 refused validation; otherwise only that recipe changes, as `ApplyPatch` says; nothing changes on failure |
| RecipesApi.RecipeStore.Delete | backend/routes/recipes.js:164-180 | in order: middleware failure, 404 unknown id, 403 not the owner; otherwise exactly that recipe is removed and a later `Get` is 404; nothing changes on failure |
| AuthApi.FindBy | backend/routes/auth.js:12-27 | `findOne` on email or username: the account found holds the value in that field; none iff no account does |
| AuthApi.UserRegistry.Register | backend/routes/auth.js:7-45 | a taken email is refused first, then a taken username, with no change; otherwise exactly one account holding the hash is appended; emails and usernames stay unique; afterwards login with that email succeeds exactly for the attempts bcrypt's compare accepts against the stored hash, always for the registered password, and, for passwords within bcrypt's 72-byte limit without NUL, only for it |
| AuthApi.UserRegistry.Login | backend/routes/auth.js:56-91 | every failure is the same 400 "Invalid credentials"; success iff an account with that email accepts the password; the reply holds only id, username and email, and a token signed for the id |
| EditRecipe.Loaded | frontend/src/pages/EditRecipe.jsx:22 | a stored ingredient read by the page has no `amount` |
| EditRecipe.Normalize | frontend/src/pages/EditRecipe.jsx:22-26 | name or `''`; quantity from `amount`, else `quantity`, else `''`; unit or `''` |
| EditRecipe.NormalizeAll | frontend/src/pages/EditRecipe.jsx:22-26 | every row normalised, in order |
| EditRecipe.StoredIngredientNormalizes | frontend/src/pages/EditRecipe.jsx:24 | for server data the quantity is the stored quantity |
| EditRecipe.LoadForm | frontend/src/pages/EditRecipe.jsx:28-31 | the form takes the recipe's fields with its ingredients normalised |
| EditRecipe.Stored | frontend/src/pages/EditRecipe.jsx:51-55 | a cleaned row carries exactly name, quantity and unit |
| EditRecipe.AsStored | frontend/src/pages/EditRecipe.jsx:51-55 | every row mapped, in order |
| EditRecipe.CleanIngredients | frontend/src/pages/EditRecipe.jsx:51-55 | only rows whose name is not blank, each with the three fields |
| EditRecipe.CleanInstructions | frontend/src/pages/EditRecipe.jsx:56 | only steps that are not blank |
| EditRecipe.CleanIngredientsAppend | frontend/src/pages/EditRecipe.jsx:51-55 | cleaning works row by row, so surviving rows keep their order |
| EditRecipe.AsStoredMembership | frontend/src/pages/EditRecipe.jsx:51-55 | rows and cleaned ingredients correspond one to one |
| EditRecipe.CleanIngredientsKeeps | frontend/src/pages/EditRecipe.jsx:51-55 | a row survives the submit iff its name is not blank |
| EditRecipe.CleanInstructionsKeeps | frontend/src/pages/EditRecipe.jsx:56 | a step survives the submit iff it is not blank |
| EditRecipe.Submission | frontend/src/pages/EditRecipe.jsx:49-57 | the request body is the form with both lists cleaned |
| EditRecipe.CompleteIngredientRoundTrip | frontend/src/pages/EditRecipe.jsx:22-55 | a complete ingredient survives loading and cleaning unchanged |
| EditRecipe.LoadSubmitRoundTrip | frontend/src/pages/EditRecipe.jsx:22-57 | opening a recipe with complete ingredients and non-blank steps and submitting it untouched sends its lists back unchanged |
| EditRecipe.LoadedIngredientsRoundTrip | frontend/src/pages/EditRecipe.jsx:22-55 | complete ingredients survive loading and cleaning as the same list |
| EditRecipe.KeepEverything | frontend/src/pages/EditRecipe.jsx:51-56 | a filter every element passes changes nothing |
| EditRecipe.AddIngredient | frontend/src/pages/EditRecipe.jsx:73-78 | one blank row appended, existing rows and other fields unchanged |
| EditRecipe.DeleteIngredient | frontend/src/pages/EditRecipe.jsx:80-83 | exactly row `index` removed, other fields unchanged |
| EditRecipe.AddThenDeleteIngredient | frontend/src/pages/EditRecipe.jsx:73-83 | deleting the row just added restores the form |
| EditRecipe.EditIngredient | frontend/src/pages/EditRecipe.jsx:131-163 | typing changes exactly one field of one row |
| EditRecipe.EditInstruction | frontend/src/pages/EditRecipe.jsx:210-214 | typing changes exactly one step |
| EditRecipe.AddInstruction | frontend/src/pages/EditRecipe.jsx:237-240 | one `''` step appended, the rest unchanged |
| EditRecipe.RemoveInstruction | frontend/src/pages/EditRecipe.jsx:222-224 | exactly step `index` removed, others in order |
| EditRecipe.AddThenRemoveInstruction | frontend/src/pages/EditRecipe.jsx:223-240 | removing the step just added restores the form |
| EditRecipe.MoveInstruction | frontend/src/pages/EditRecipe.jsx:85-91 | with the arrow enabled, steps `index` and `index + direction` are exchanged and nothing else changes |
| EditRecipe.MoveDownThenUp | frontend/src/pages/EditRecipe.jsx:190-199 | after moving a step down its up arrow is enabled, and moving it back restores the steps |
| RecipeCard.Lead | frontend/src/components/RecipeCard.jsx:7-12 | a quantity or unit contributes itself and a space iff it is present, non-empty and not `'1'` |
| RecipeCard.JoinParts | frontend/src/components/RecipeCard.jsx:6-14 | joining the pushed parts with spaces is quantity part, unit part, then the name |
| RecipeCard.FormatIngredient | frontend/src/components/RecipeCard.jsx:5-15 | the text is the shown quantity, the shown unit and the name, in that order, single-spaced |
| RecipeCard.NameComesLast | frontend/src/components/RecipeCard.jsx:13-14 | the text ends with the name, and is the bare name when neither quantity nor unit is shown |
| RecipeCard.FormatAll | frontend/src/components/RecipeCard.jsx:34 | each ingredient formatted, in order |
| RecipeCard.Preview | frontend/src/components/RecipeCard.jsx:34-35 | the first three (or fewer) formatted and joined with `", "`, and `"..."` appended iff there are more than three |
| RecipeCard.PreviewListsAll | frontend/src/components/RecipeCard.jsx:34 | a preview of one to three ingredients lists each of them, comma-separated, in order |
| RecipeDetail.FormatIngredient | frontend/src/pages/RecipeDetail.jsx:74-84 | the page's formatter gives the same text as the card's on every ingredient |
| RecipeDetail.CanManageIffOwner | frontend/src/pages/RecipeDetail.jsx:119 | Edit and Delete show iff the viewer is authenticated and owns the recipe by the route's rule |
| RecipeDetail.View | frontend/src/pages/RecipeDetail.jsx:15-29 | a thrown error shows its message; a reply without `success` shows "Recipe not found"; a successful reply shows its recipe |
| RecipeDetail.ViewOfFetch | frontend/src/pages/RecipeDetail.jsx:18-25 | the "Recipe not found" banner appears iff a 2xx reply lacks `success`; every other failure shows "Error fetching recipe" |
| RecipeDetail.ViewOfRoute | frontend/src/pages/RecipeDetail.jsx:17-25 | a stored recipe is shown; the route's 404 for a missing one shows "Error fetching recipe" |
| Home.Popular | frontend/src/pages/Home.jsx:21 | the first min(6, n) recipes, in server order |
| Home.Recent | frontend/src/pages/Home.jsx:20 | min(6, n) recipes, position k holding the recipe n-1-k |
| Home.RecentReversesPopularWhenShort | frontend/src/pages/Home.jsx:20-21 | with n ≤ 6, popular is the whole list and recent is its reverse |
| Home.RecentAreOldest | frontend/src/pages/Home.jsx:20 | on the server's newest-first list, "Recent" holds the oldest recipes, oldest first, and every recipe left out is newer |
| Home.PopularAreNewest | frontend/src/pages/Home.jsx:21 | on the server's newest-first list, "Popular" holds the newest recipes, newest first, and every recipe left out is older |
| Home.View | frontend/src/pages/Home.jsx:13-31 | a thrown error shows "Error fetching recipes", a reply without `success` shows "Failed to fetch recipes", otherwise both rows of at most six from the list |
| Home.MissingListIsEmpty | frontend/src/pages/Home.jsx:19 | a successful reply without `recipes` gives two empty rows |
| QueryString.BeforeFragment | frontend/src/services/api.js:39 | the query sent is the text before the first `#` |
| QueryString.EncodeChar | frontend/src/services/api.js:39 | `encodeURIComponent` of one character: itself if unreserved, else `%` and two hex digits; never `&`, `#`, `+` or `=` |
| QueryString.Encode | frontend/src/services/api.js:39 | an encoded value contains no `&`, `#`, `+` or `=` |
| QueryString.PlusToSpace | frontend/src/services/api.js:39 | the parser reads each `+` as a space and keeps every other character |
| QueryString.Unescape | frontend/src/services/api.js:39 | text without `%` decodes to itself |
| QueryString.Decode | frontend/src/services/api.js:39 | text without `+` or `%` decodes to itself |
| QueryString.UnescapeEncodedChar | frontend/src/services/api.js:39 | one character's escape decodes back to the character, whatever follows |
| QueryString.DecodeEncode | frontend/src/services/api.js:39 | decoding undoes encoding, for every string, also when the parser's bracket rewrite comes between them |
| QueryString.BracketEquals | frontend/src/services/api.js:39 | the parser's search for `]=`: nothing iff no `]` is followed by `=`, otherwise the first such position |
| QueryString.SplitAtEquals | frontend/src/services/api.js:39 | a split at the first `=`: the key holds no `=`, the segment is key, `=` and value; without `=` the value is `''` |
| QueryString.SplitPair | frontend/src/services/api.js:39 | the parser splits a segment just after its first `]` that is followed by `=`, and otherwise at its first `=`; the key then holds no `=`; one without `=` is a key with value `''` |
| QueryString.SplitPairAtFirstEquals | frontend/src/services/api.js:39 | `key=value` splits into key and value when the key holds no `=` and does not end in `]`, and the value holds no `]=` |
| QueryString.SplitPairAtBracketEquals | frontend/src/services/api.js:39 | a key ending in `]` with no earlier `]=` is split off at the `=` after it, whatever the value holds |
| QueryString.LookupFindsKey | frontend/src/services/api.js:39 | a found value belongs to a segment with that key; nothing found iff no segment has the key |
| QueryString.StripTrailingControls | frontend/src/services/api.js:38-41 | the URL parser cuts only trailing spaces and control characters and leaves a URL ending in a visible character as it is |
| QueryString.RemoveTabsAndNewlines | frontend/src/services/api.js:38-41 | the URL parser deletes every tab, line feed and carriage return and keeps every other character, in order (it is the filter `Seqs.Keep` with `KeptByUrlParser`); a URL without them is left as it is |
| QueryString.RemoveTabsAndNewlinesKeepsTheRest | frontend/src/services/api.js:38-41 | a character survives iff it was in the URL and is not a tab or newline; the removal on a concatenation is the concatenation of the removals |
| QueryString.SentQuery | frontend/src/services/api.js:38-41 | the query `fetch` sends holds no tab or newline, and equals the query written when that has none and ends visibly |
| QueryString.LookupFirst | frontend/src/services/api.js:39 | the first matching segment wins |
| QueryString.UnescapeBrackets | frontend/src/services/api.js:39 | the parser's first step on the whole query rewrites `%5B`/`%5b` to `[` and `%5D`/`%5d` to `]`, left to right, and never lengthens the query |
| QueryString.UnescapeBracketsWithoutEscapes | frontend/src/services/api.js:39 | a query without `%` is left as it is by the bracket rewrite |
| QueryString.UnescapeBracketsAddsOnlyBrackets | frontend/src/services/api.js:39 | the bracket rewrite brings in no character other than `[` and `]` (so no `&`, `=` or `+`) |
| QueryString.UnescapeBracketsConcat | frontend/src/services/api.js:39 | the bracket rewrite works piece by piece wherever no escaped bracket straddles the cut |
| QueryString.UnescapeBracketsAcrossAmpersand | frontend/src/services/api.js:39 | the bracket rewrite of two segments joined by `&` is the two rewritten segments joined by `&` |
| QueryString.UnescapeBracketsPair | frontend/src/services/api.js:39 | the bracket rewrite leaves a key without `%` and its `=` alone and rewrites only the value |
| QueryString.UnescapeBracketsEncodeChar | frontend/src/services/api.js:39 | `encodeURIComponent` of `[` or `]` is turned back into the bracket; every other encoded character is left alone |
| QueryString.UnescapeBracketsEncode | frontend/src/services/api.js:39 | after the bracket rewrite an encoded string still decodes back to the original |
| QueryString.UnescapesBracketBeforeEquals | frontend/src/services/api.js:39 | the value `x%5D=y` reaches the split as `x]=y` |
| QueryString.UnescapesEitherCase | frontend/src/services/api.js:39 | `%5b%5d%41` becomes `[]%41`: both letter cases are rewritten and other escapes are left to the decoder |
| ApiClient.AuthHeader | frontend/src/services/api.js:3-12 | null iff no user is stored or its token is missing or empty; otherwise `Bearer ` + token and JSON content type |
| ApiClient.BearerRoundTrip | frontend/src/services/api.js:9 | the server's `split(' ')[1]` recovers exactly the stored token, for a token without spaces |
| ApiClient.RecipePath | frontend/src/services/api.js:57 | the route's `/recipes/:id` reads back exactly the id the path was built from |
| ApiClient.ReceivedOfThree | frontend/src/services/api.js:39 | `req.query` of three `key=value` pairs with plain, distinct keys, and values with no `&` or `#` and no `]=` once `%5B`/`%5D` are rewritten, holds the second and third values, bracket-rewritten and then decoded |
| ApiClient.ListQueryRoundTrip | frontend/src/services/api.js:39 | with escaping, the route receives exactly the search and type given |
| ApiClient.ListQueryFilter | frontend/src/services/api.js:39 | with escaping, the route builds the filter for the search and type given |
| ApiClient.AsWrittenPlainRoundTrip | frontend/src/services/api.js:39 | unescaped values arrive intact when they contain none of `&`, `#`, `+`, `%`, `]=`, tab, line feed or carriage return, and the type does not end in a space or control character |
| ApiClient.AsWrittenCutsAtAmpersand | frontend/src/services/api.js:39 | an unescaped search holding `&` reaches the route cut at the `&` |
| ApiClient.AsWrittenLosesBracketSearch | frontend/src/services/api.js:39 | a name search for `x]=y` reaches the route as no search at all, so every recipe is listed |
| ApiClient.AsWrittenTruncatesAtAmpersand | frontend/src/services/api.js:39 | a name search for `mac&cheese` filters on `mac` |
| ApiClient.ListRequest | frontend/src/services/api.js:35-50 | without a usable session `fetch` refuses the null headers and the helper fails with "Error fetching recipes"; otherwise a GET of `/recipes` with the session's headers and the values pasted in unescaped, where search and type arrive unchanged when nothing in them is special to the URL or the query parser |
| ApiClient.ListRequestEscaped | frontend/src/services/api.js:35-50 | the corrected `getRecipes`: the same failure without a session; otherwise each value escaped, so every search and type arrives unchanged |
| ApiClient.RecipeRequest | frontend/src/services/api.js:54-66 | without a usable session `fetch` refuses the null headers and the helper fails with "Error fetching recipe"; otherwise a GET with the session's headers of a path from which the route reads back the requested id |
| ApiClient.CreateRequest | frontend/src/services/api.js:68-78 | refused with "Not authenticated - Please log in again" iff there is no header; otherwise a POST of the data |
| ApiClient.UpdateRequest | frontend/src/services/api.js:87-97 | refused with "Not authenticated" iff there is no header; otherwise a PUT of the data |
| ApiClient.DeleteRequest | frontend/src/services/api.js:106-115 | refused with "Not authenticated" iff there is no header; otherwise a DELETE |
| ApiClient.MutationsNeedToken | frontend/src/services/api.js:69-110 | each mutation is refused exactly for a session without a non-empty token |
| ApiClient.Respond | backend/routes/recipes.js:59-71 | a handler's result as a response: success status and payload, or the failure's status and message |
| ApiClient.GetRecipes | frontend/src/services/api.js:35-52 | the reply iff the response is 2xx; every other outcome is "Error fetching recipes" |
| ApiClient.GetRecipe | frontend/src/services/api.js:54-66 | the reply iff the response is 2xx; every other outcome, whatever the server said, is "Error fetching recipe" |
| ApiClient.MutationOutcome | frontend/src/services/api.js:80-84 | a non-2xx response throws the server's message or the fallback; a 2xx one yields its reply |
| ApiClient.DeleteOutcome | frontend/src/services/api.js:117-120 | any non-2xx response throws "Failed to delete recipe" |
| ApiClient.RefusalMessages | frontend/src/services/api.js:59-119 | a refused create or update surfaces the route's message; a refused delete or fetch does not |
| AuthContext.UserToStore | frontend/src/context/AuthContext.jsx:14-17 | the session user is the account's fields plus the token |
| AuthContext.FromReply | backend/routes/auth.js:81-91 | the client receives the reply's user and its token |
| AuthContext.AuthState.constructor | frontend/src/context/AuthContext.jsx:7-11 | the user is the stored entry, authenticated iff one exists |
| AuthContext.AuthState.Login | frontend/src/context/AuthContext.jsx:13-21 | user set to fields plus token, authenticated, and the same object stored |
| AuthContext.AuthState.Logout | frontend/src/context/AuthContext.jsx:23-27 | no user, not authenticated, storage entry removed |
| AuthContext.AuthState.Replay | frontend/src/context/AuthContext.jsx:13-27 | after any sequence of logins and logouts the state agrees with storage and the last action decides whether a user is signed in |
| Scenario.SessionAuthenticates | frontend/src/services/api.js:3-12 | a login reply kept as the session and sent as a bearer header authenticates as the account |
| Scenario.ControlsMatchRoute | frontend/src/pages/RecipeDetail.jsx:119 | for a signed-in session the page shows Edit/Delete iff the route would accept that session's update or delete |
| Scenario.SignUpTwo | backend/routes/auth.js:7-91 | two registrations succeed with ids 0 and 1, a third with a taken email is refused, and each login yields its account's id and a token signed for it |
| Scenario.TwoUsers | backend/routes/recipes.js:82-177 | a recipe created by one user is owned by that user whatever the body says; the other user's update is refused with 403; the owner's delete succeeds; a later fetch is 404 |

## Left out

- MongoDB itself is replaced by in-memory maps. Left out:
  - `populate('userId', 'username')` on the list;
  - the `page` parameter, which the route ignores;
  - cast errors for malformed ids, which answer 500;
  - the "Server error" 500 paths of register and login.
- Requests are modelled one at a time. The gap between `findById` and `findByIdAndUpdate`/`findByIdAndDelete` is not modelled. For that reason the 404 "Recipe not found after update" branch cannot occur in the model.
- RecipeStore.Update follows Mongoose 6 and later: a field the body leaves out is dropped from the update and keeps its stored value. Earlier versions would unset it.
- RecipesApi.BuildFilter, with Matches: `$regex` with the `i` flag is modelled as a literal substring match under ASCII case folding. This is exact only for terms without regular-expression metacharacters and without non-ASCII letters.
- JWT signing and verification, and bcrypt salting, hashing and comparison, are foreign libraries. They are function values in `Identity`. What is assumed of them is a hypothesis of the lemmas that need it:
  - `verify(sign(id)) == id`, and a signed token is non-empty and has no space;
  - `compare(p, hash(p, s))` always holds;
  - `compare(a, hash(p, s))` implies `a == p` only for passwords of at most 72 UTF-8 bytes without NUL.
  The salt is a parameter. There is no token expiry.
- AuthApi.UserRegistry.Register: bcrypt reads only the first 72 bytes of a password, and an embedded NUL ends its key. Login after registration therefore accepts every attempt that bcrypt's compare accepts. The model promises "only the registered password" only for passwords within that limit.
- RecipesApi.RecipeStore.Create: the route spreads the whole request body into the new document, so a body carrying `_id` or `createdAt` would choose the id (a duplicate answers 500) or backdate the recipe. The model's request body has no such fields. Create's "newer than all others" and the list's newest-first order rely on that.
- RecipesApi.RecipeStore.Update: a JSON `null` name or cuisine in the body is set in the update and fails `required` with a 500. The model's optional fields cannot express `null`, so the model treats it as absent and keeps the stored value.
- EditRecipe.LoadSubmitRoundTrip: stored ingredients carry a subdocument `_id`, and the submit's `{ name, quantity, unit }` cleaning drops it, so saving re-creates every ingredient with a new `_id`. The model's ingredient has no `_id`. "Unchanged" therefore means the same name, quantity and unit, in order.
- The time of day behind `createdAt`/`updatedAt` is replaced by the counter `clock`.
- The registry's id is a position in a sequence. The store's id is a creation time. Neither models the ObjectId format.
- EditRecipe.EditIngredient: the page mutates the shared row object in place. That also changes the row held by the previous state. The model works on values and does not capture this aliasing.
- EditRecipe.MoveInstruction requires an enabled arrow, because the buttons at the ends are disabled. The unguarded call with an out-of-range neighbour is not modelled.
- The edit page's fetch and submit messages and toasts are not modelled, nor is navigation after save or delete.
- RecipeDetail.CanManage requires a user whenever `isAuthenticated` is set, because the page reads `user.id`. With a consistent `AuthState` this always holds.
- AuthContext.AuthState.constructor models only a storage entry holding a JSON user object or no entry. An entry holding the text `null` would make `isAuthenticated` true with no user. JSON parse failures are also left out.
- QueryString.Unescape treats an escape of a code from 0x80 upwards as malformed. The real decoder accepts escapes that form valid UTF-8.
- QueryString.EncodeChar leaves non-ASCII characters as they are. The browser's UTF-8 escaping of them and the server's decoding cancel out, and this pair is not modelled.
- QueryString.SentQuery: the URL parser also percent-escapes spaces, quotes, angle brackets, control characters and non-ASCII characters in the query. For values without `%`, the server's decoder undoes this, and the model leaves it out.
- QueryString.SplitPair follows Express 4, whose default "extended" query parser is `qs` 6.x, in its recent releases: those rewrite `%5B` and `%5D` (either case) in the whole query before splitting (`UnescapeBrackets`), then split a segment just after its first `]=`, else at its first `=`. Express 5's default "simple" parser (`querystring`) always splits at the first `=`, so under it the `x]=y` finding does not arise; that parser is not modelled. Older `qs` releases without the bracket rewrite are not modelled either.
- QueryString.Lookup takes the first segment with the key. The real parser turns a repeated key into an array and reads bracket syntax (`a[b]=c`) as nested objects.
- The network reply of `fetch` is a parameter (`Fetched`). A rejection's reason is whatever the browser reports.
- The recipe card's title, cuisine badge and step count are direct reads of the recipe's fields and are not modelled. Its ingredient text and preview are.
- Rendering, routing and toasts are not part of this model. This covers `App.jsx`, `Navbar.jsx`, `SearchBar.jsx`, `ProtectedRoute.jsx`, `Login.jsx` and `AllRecipes.jsx`.
- `Register.jsx` is not part of this model; its only logic is a password-confirmation comparison.
- `AddRecipe.jsx` is not part of this model. It sends an ingredient key `amount` that the schema does not have; the model's ingredient type has no such field.
- `frontend/src/services/auth.js` is not part of this model. It duplicates the storage writes of the auth context.
- The `api.login` and `api.register` helpers only forward JSON and are not modelled.

## Findings

| source | as written | input that shows it | evidently intended | confidence | as-written member | corrected member |
|---|---|---|---|---|---|---|
| frontend/src/services/api.js:39 | the list URL pastes `search` and `type` into the query string without escaping | a name search for `mac&cheese`: the route receives `search=mac` and lists recipes whose name contains `mac` (likewise `+` arrives as a space, and `#` cuts off the rest of the query) | each value escaped with `encodeURIComponent`, so the route receives exactly the search and type typed | not executed | ApiClient.AsWrittenTruncatesAtAmpersand | ApiClient.ListQueryRoundTrip |
| frontend/src/services/api.js:39 | the list URL pastes `search` and `type` into the query string without escaping | a name search for `x]=y`: the parser reads the segment `search=x]=y` as the key `search=x]` with the value `y`, so the route receives no search and lists every recipe | each value escaped with `encodeURIComponent`, which escapes `=`, so no `]=` forms even after the parser turns `%5D` back into `]`, and the route receives exactly the search typed | not executed | ApiClient.AsWrittenLosesBracketSearch | ApiClient.ListQueryRoundTrip |

The recipe page's own branch for a failed fetch (`setError('Recipe not found')`, frontend/src/pages/RecipeDetail.jsx:20-21) is reached only by a 2xx reply without `success`. The route never sends one. A missing recipe gets a 404, which `getRecipe` turns into "Error fetching recipe" (frontend/src/services/api.js:59-65), and that is what the page shows. `RecipeDetail.ViewOfRoute` states this behaviour, which is the code's.
