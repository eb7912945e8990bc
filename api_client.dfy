/**
 * The client's API helpers: the authorization header built from the stored
 * session, the requests each helper sends (or refuses to send), the list
 * query string, and how each helper turns a response into a value or an
 * error message.
 */
module ApiClient {
  import opened Wrappers
  import opened Text
  import opened Identity
  import opened Http
  import opened RecipeSchema
  import opened RecipesApi
  import opened AuthContext
  import opened QueryString

  const JsonContentType := "application/json"

  /** The two headers `getAuthHeader` produces. */
  datatype Headers = Headers(authorization: string, contentType: string)

  /**
   * `getAuthHeader`: nothing when no user is stored or the stored user has no
   * (or an empty) token; otherwise `Bearer ` and the token, sent as JSON.
   */
  function AuthHeader(stored: Option<SessionUser>): (h: Option<Headers>)
    ensures h.None? <==> stored.None? || !Truthy(stored.value.token)
    ensures h.Some? ==> h.value.authorization == "Bearer " + stored.value.token.value
    ensures h.Some? ==> h.value.contentType == JsonContentType
  {
    if stored.None? || !Truthy(stored.value.token) then None
    else Some(Headers("Bearer " + stored.value.token.value, JsonContentType))
  }

  /** The `Authorization` header the route reads from a request sent with these headers. */
  function Authorization(h: Headers): Option<string> {
    Some(h.authorization)
  }

  /**
   * The server reads back exactly the stored token from the header the client
   * builds, as long as the token holds no space.
   */
  lemma BearerRoundTrip(stored: Option<SessionUser>)
    requires AuthHeader(stored).Some?
    requires ' ' !in stored.value.token.value
    ensures BearerToken(Authorization(AuthHeader(stored).value)) == stored.value.token
  {
    assert "Bearer " == "Bearer" + " ";
    SecondWordIsToken("Bearer", stored.value.token.value);
  }

  datatype Method = Get | Post | Put | Delete

  /**
   * A request as it leaves the client. The base URL is the same for every
   * request and is left out. Every request the helpers send carries the
   * session's headers: without them a helper refuses, or `fetch` rejects.
   */
  datatype Request = Request(verb: Method, path: string, query: string, headers: Headers, body: Option<RecipeInput>)

  const RecipesPrefix := "/recipes/"

  /**
   * The id the route's `/recipes/:id` pattern reads from a path: the segment
   * after the prefix, read as a number; nothing for any other path.
   */
  function RouteId(path: string): Option<RecipeId> {
    if |path| > |RecipesPrefix| && path[..|RecipesPrefix|] == RecipesPrefix && AllDigits(path[|RecipesPrefix|..])
    then Some(DigitsValue(path[|RecipesPrefix|..]))
    else None
  }

  /** `/recipes/${id}`: the path of one recipe, from which the route reads back the same id. */
  function RecipePath(id: RecipeId): (p: string)
    ensures RouteId(p) == Some(id)
  {
    var p := RecipesPrefix + Decimal(id);
    assert p[..|RecipesPrefix|] == RecipesPrefix && p[|RecipesPrefix|..] == Decimal(id);
    p
  }

  /**
   * The list query string as the client writes it: the three values pasted
   * in with no escaping.
   */
  function ListQueryAsWritten(page: nat, search: string, kind: string): string {
    "page=" + Decimal(page) + "&search=" + search + "&type=" + kind
  }

  /** The list query string with each value escaped as `encodeURIComponent` does. */
  function ListQuery(page: nat, search: string, kind: string): string {
    ListQueryAsWritten(page, Encode(search), Encode(kind))
  }

  /** Text that neither ends its segment nor starts the fragment, and that the URL parser leaves in place. */
  predicate Unbroken(s: string) {
    '&' !in s && '#' !in s && Untouched(s)
  }

  /**
   * A value that, after a plain key and `=`, stays one value of its own: no
   * `]` in it, written out or escaped as `%5D` or `%5d`, is followed by `=`.
   */
  predicate SafeValue(v: string) {
    Unbroken(v) && NoBracketEquals(UnescapeBrackets(v))
  }

  /** A key that needs no escaping and ends at the `=` after it. */
  predicate PlainKey(k: string) {
    Unbroken(k) && '=' !in k && ']' !in k && '+' !in k && '%' !in k
  }

  /** A value that reaches the route unchanged when it is pasted in without escaping. */
  predicate ArrivesIntact(v: string) {
    Unbroken(v) && NoBracketEquals(v) && '+' !in v && '%' !in v
  }

  /** A value without `%` is left alone by the bracket rewrite, so both kinds are safe. */
  lemma WithoutPercentSafe(v: string)
    requires PlainKey(v) || ArrivesIntact(v)
    ensures SafeValue(v) && UnescapeBrackets(v) == v && Decode(v) == v
  {
    UnescapeBracketsWithoutEscapes(v);
    if PlainKey(v) {
      assert forall i :: 0 <= i < |v| - 1 ==> v[i] != ']';
    }
  }

  /** The URL parser and the fragment cut leave a query without `#`, tabs, newlines or trailing blanks as it is. */
  lemma SentAsWritten(q: string)
    requires '#' !in q && Untouched(q) && EndsVisible(q)
    ensures BeforeFragment(SentQuery(q)) == q
  {
  }

  /** Three segments without `#`, tabs or newlines, joined by `&`, reach the parser as they are. */
  lemma JoinedAsWritten(s1: string, s2: string, s3: string)
    requires Unbroken(s1) && Unbroken(s2) && Unbroken(s3) && s3 != [] && EndsVisible(s3)
    ensures BeforeFragment(SentQuery(s1 + "&" + s2 + "&" + s3)) == s1 + "&" + (s2 + "&" + s3)
  {
    var q := s1 + "&" + s2 + "&" + s3;
    assert q == s1 + "&" + (s2 + "&" + s3);
    assert q[|q| - 1] == s3[|s3| - 1];
    SentAsWritten(q);
  }

  /** Four segments without `#`, tabs or newlines, joined by `&`, reach the parser as they are. */
  lemma FourJoinedAsWritten(s1: string, s2: string, s3: string, s4: string)
    requires Unbroken(s1) && Unbroken(s2) && Unbroken(s3) && Unbroken(s4) && s4 != [] && EndsVisible(s4)
    ensures BeforeFragment(SentQuery(s1 + "&" + s2 + "&" + s3 + "&" + s4)) == s1 + "&" + (s2 + "&" + (s3 + "&" + s4))
  {
    var q := s1 + "&" + s2 + "&" + s3 + "&" + s4;
    assert q == s1 + "&" + (s2 + "&" + (s3 + "&" + s4));
    assert q[|q| - 1] == s4[|s4| - 1];
    SentAsWritten(q);
  }

  /** One segment without `&` in front of the rest: it is the first after the split, its brackets unescaped. */
  lemma SplitFirstSegment(s: string, rest: string)
    requires '&' !in s
    ensures Split(UnescapeBrackets(s + "&" + rest), '&') == [UnescapeBrackets(s)] + Split(UnescapeBrackets(rest), '&')
  {
    UnescapeBracketsAcrossAmpersand(s, rest);
    UnescapeBracketsAddsOnlyBrackets(s, '&');
    assert UnescapeBrackets(s) + "&" + UnescapeBrackets(rest) == UnescapeBrackets(s) + ['&'] + UnescapeBrackets(rest);
    SplitAfterWord(UnescapeBrackets(s), '&', UnescapeBrackets(rest));
  }

  /** A last segment without `&` stays whole. */
  lemma SplitLastSegment(s: string)
    requires '&' !in s
    ensures Split(UnescapeBrackets(s), '&') == [UnescapeBrackets(s)]
  {
    UnescapeBracketsAddsOnlyBrackets(s, '&');
    SplitWithoutSeparator(UnescapeBrackets(s), '&');
  }

  /** The last pair of a query ends where its value ends, or at its `=`. */
  lemma PairEndsVisible(k: string, v: string)
    requires EndsVisible(v)
    ensures k + "=" + v != [] && EndsVisible(k + "=" + v)
  {
    var q := k + "=" + v;
    if v != [] {
      assert q == (k + "=") + v;
      assert q[|q| - 1] == v[|v| - 1];
    }
  }

  /** Three segments without `&` or `#`, joined by `&`, split back into the three, each with its brackets unescaped. */
  lemma SegmentsOfThree(s1: string, s2: string, s3: string)
    requires Unbroken(s1) && Unbroken(s2) && Unbroken(s3) && s3 != [] && EndsVisible(s3)
    ensures Split(UnescapeBrackets(BeforeFragment(SentQuery(s1 + "&" + s2 + "&" + s3))), '&')
      == [UnescapeBrackets(s1), UnescapeBrackets(s2), UnescapeBrackets(s3)]
  {
    var r := s2 + "&" + s3;
    var q := s1 + "&" + r;
    calc {
      Split(UnescapeBrackets(BeforeFragment(SentQuery(s1 + "&" + s2 + "&" + s3))), '&');
    == { JoinedAsWritten(s1, s2, s3); }
      Split(UnescapeBrackets(q), '&');
    == { SplitFirstSegment(s1, r); }
      [UnescapeBrackets(s1)] + Split(UnescapeBrackets(r), '&');
    == { SplitFirstSegment(s2, s3); SplitLastSegment(s3); }
      [UnescapeBrackets(s1)] + ([UnescapeBrackets(s2)] + [UnescapeBrackets(s3)]);
    }
  }

  /** A pair with a plain key answers a lookup of that key with its decoded value. */
  lemma LookupHit(k: string, v: string, rest: seq<string>)
    requires PlainKey(k) && NoBracketEquals(v)
    ensures Lookup([k + "=" + v] + rest, k) == Some(Decode(v))
  {
    SplitPairAtFirstEquals(k, v);
    LookupFirst([k + "=" + v] + rest, k);
  }

  /** A pair with another plain key is passed over. */
  lemma LookupSkip(k: string, v: string, rest: seq<string>, key: string)
    requires PlainKey(k) && NoBracketEquals(v) && k != key
    ensures Lookup([k + "=" + v] + rest, key) == Lookup(rest, key)
  {
    SplitPairAtFirstEquals(k, v);
    LookupFirst([k + "=" + v] + rest, key);
    assert ([k + "=" + v] + rest)[1..] == rest;
  }

  /** A segment without `=` is a key of its own, and is passed over by a lookup of another key. */
  lemma LookupSkipBare(segment: string, rest: seq<string>, key: string)
    requires PlainKey(segment) && segment != key
    ensures Lookup([segment] + rest, key) == Lookup(rest, key)
  {
    LookupFirst([segment] + rest, key);
    assert ([segment] + rest)[1..] == rest;
  }

  /** Among three pairs with distinct plain keys, the second key finds its own value. */
  lemma LookupSecondOfThree(k1: string, v1: string, k2: string, v2: string, s3: string)
    requires PlainKey(k1) && PlainKey(k2) && k1 != k2
    requires NoBracketEquals(v1) && NoBracketEquals(v2)
    ensures Lookup([k1 + "=" + v1, k2 + "=" + v2, s3], k2) == Some(Decode(v2))
  {
    var s1, s2 := k1 + "=" + v1, k2 + "=" + v2;
    assert [s1, s2, s3] == [s1] + [s2, s3];
    LookupSkip(k1, v1, [s2, s3], k2);
    assert [s2, s3] == [s2] + [s3];
    LookupHit(k2, v2, [s3]);
  }

  /** Among three pairs with distinct plain keys, the third key finds its own value. */
  lemma LookupThirdOfThree(k1: string, v1: string, k2: string, v2: string, k3: string, v3: string)
    requires PlainKey(k1) && PlainKey(k2) && PlainKey(k3)
    requires k1 != k3 && k2 != k3
    requires NoBracketEquals(v1) && NoBracketEquals(v2) && NoBracketEquals(v3)
    ensures Lookup([k1 + "=" + v1, k2 + "=" + v2, k3 + "=" + v3], k3) == Some(Decode(v3))
  {
    var s1, s2, s3 := k1 + "=" + v1, k2 + "=" + v2, k3 + "=" + v3;
    assert [s1, s2, s3] == [s1] + [s2, s3];
    LookupSkip(k1, v1, [s2, s3], k3);
    assert [s2, s3] == [s2] + [s3];
    LookupSkip(k2, v2, [s3], k3);
    assert [s3] == [s3] + [];
    LookupHit(k3, v3, []);
  }

  /**
   * A query of three `key=value` pairs with plain, distinct keys reaches the
   * route with the second and third values decoded, after their escaped
   * brackets have been unescaped.
   */
  lemma ReceivedOfThree(k1: string, v1: string, k2: string, v2: string, k3: string, v3: string)
    requires PlainKey(k1) && PlainKey(k2) && PlainKey(k3)
    requires SafeValue(v1) && SafeValue(v2) && SafeValue(v3) && EndsVisible(v3)
    requires k1 != k2 && k1 != k3 && k2 != k3
    ensures var q := k1 + "=" + v1 + "&" + k2 + "=" + v2 + "&" + k3 + "=" + v3;
      && Received(q, k2) == Some(Decode(UnescapeBrackets(v2)))
      && Received(q, k3) == Some(Decode(UnescapeBrackets(v3)))
  {
    var u1, u2, u3 := UnescapeBrackets(v1), UnescapeBrackets(v2), UnescapeBrackets(v3);
    PairsOfThree(k1, v1, k2, v2, k3, v3);
    LookupSecondOfThree(k1, u1, k2, u2, k3 + "=" + u3);
    LookupThirdOfThree(k1, u1, k2, u2, k3, u3);
  }

  /** Three `key=value` pairs with plain keys split into the pairs, each value with its brackets unescaped. */
  lemma PairsOfThree(k1: string, v1: string, k2: string, v2: string, k3: string, v3: string)
    requires PlainKey(k1) && PlainKey(k2) && PlainKey(k3)
    requires Unbroken(v1) && Unbroken(v2) && Unbroken(v3) && EndsVisible(v3)
    ensures Split(UnescapeBrackets(BeforeFragment(SentQuery(k1 + "=" + v1 + "&" + k2 + "=" + v2 + "&" + k3 + "=" + v3))), '&')
      == [k1 + "=" + UnescapeBrackets(v1), k2 + "=" + UnescapeBrackets(v2), k3 + "=" + UnescapeBrackets(v3)]
  {
    var s1, s2, s3 := k1 + "=" + v1, k2 + "=" + v2, k3 + "=" + v3;
    assert k1 + "=" + v1 + "&" + k2 + "=" + v2 + "&" + k3 + "=" + v3 == s1 + "&" + s2 + "&" + s3;
    PairEndsVisible(k3, v3);
    SegmentsOfThree(s1, s2, s3);
    UnescapeBracketsPair(k1, v1);
    UnescapeBracketsPair(k2, v2);
    UnescapeBracketsPair(k3, v3);
  }

  lemma EncodedIsSafe(s: string)
    ensures SafeValue(Encode(s)) && EndsVisible(Encode(s))
  {
    var u := UnescapeBrackets(Encode(s));
    UnescapeBracketsAddsOnlyBrackets(Encode(s), '=');
    assert forall i :: 0 <= i < |u| - 1 ==> u[i] != ']' || u[i + 1] != '=';
  }

  /** Every search and type reaches the route exactly as given once the values are escaped. */
  lemma ListQueryRoundTrip(page: nat, search: string, kind: string)
    ensures Received(ListQuery(page, search, kind), "search") == Some(search)
    ensures Received(ListQuery(page, search, kind), "type") == Some(kind)
  {
    AsWrittenShape(page, Encode(search), Encode(kind));
    ListKeys(page);
    EncodedIsSafe(search);
    EncodedIsSafe(kind);
    ReceivedOfThree("page", Decimal(page), "search", Encode(search), "type", Encode(kind));
    DecodeEncode(search);
    DecodeEncode(kind);
  }

  /** The route therefore builds the filter the user asked for. */
  lemma ListQueryFilter(page: nat, search: string, kind: string)
    ensures BuildFilter(Received(ListQuery(page, search, kind), "search"), Received(ListQuery(page, search, kind), "type"))
      == BuildFilter(Some(search), Some(kind))
  {
    ListQueryRoundTrip(page, search, kind);
  }

  /**
   * Without escaping, a value arrives intact when it holds none of `&`, `#`,
   * `+`, `%`, tab, line feed and carriage return, and the type does not end
   * in a space or control character.
   */
  lemma AsWrittenPlainRoundTrip(page: nat, search: string, kind: string)
    requires ArrivesIntact(search) && ArrivesIntact(kind) && EndsVisible(kind)
    ensures Received(ListQueryAsWritten(page, search, kind), "search") == Some(search)
    ensures Received(ListQueryAsWritten(page, search, kind), "type") == Some(kind)
  {
    AsWrittenShape(page, search, kind);
    ListKeys(page);
    WithoutPercentSafe(search);
    WithoutPercentSafe(kind);
    ReceivedOfThree("page", Decimal(page), "search", search, "type", kind);
  }

  lemma ListKeys(page: nat)
    ensures PlainKey("page") && PlainKey("search") && PlainKey("type")
    ensures ArrivesIntact(Decimal(page)) && SafeValue(Decimal(page))
  {
    DecimalIntact(page);
    LowerWordIsPlain("page");
    LowerWordIsPlain("search");
    LowerWordIsPlain("type");
  }

  /** A page number, written in decimal, needs no escaping. */
  lemma DecimalIntact(page: nat)
    ensures ArrivesIntact(Decimal(page)) && SafeValue(Decimal(page))
  {
    var d := Decimal(page);
    assert '%' !in d && ']' !in d && '+' !in d && Unbroken(d);
    assert forall i :: 0 <= i < |d| - 1 ==> d[i] != ']';
    WithoutPercentSafe(d);
  }

  /** A word of lower-case letters is a plain key. */
  lemma LowerWordIsPlain(k: string)
    requires forall i :: 0 <= i < |k| ==> 'a' <= k[i] <= 'z'
    ensures PlainKey(k) && ArrivesIntact(k) && EndsVisible(k)
  {
    assert forall i :: 0 <= i < |k| - 1 ==> k[i] != ']';
  }

  lemma AsWrittenShape(page: nat, search: string, kind: string)
    ensures ListQueryAsWritten(page, search, kind) ==
      "page" + "=" + Decimal(page) + "&" + "search" + "=" + search + "&" + "type" + "=" + kind
  {
  }

  /**
   * Without escaping, a search holding `&` is cut at the first one: the rest
   * becomes a key of its own, and the route sees only the part before it.
   */
  lemma AsWrittenCutsAtAmpersand(page: nat, before: string, after: string, kind: string)
    requires ArrivesIntact(before)
    requires PlainKey(after) && after != "search" && after != "type"
    requires ArrivesIntact(kind) && EndsVisible(kind)
    ensures Received(ListQueryAsWritten(page, before + "&" + after, kind), "search") == Some(before)
    ensures Received(ListQueryAsWritten(page, before + "&" + after, kind), "type") == Some(kind)
  {
    AsWrittenShape(page, before + "&" + after, kind);
    ListKeys(page);
    CutQueryShape(page, before, after, kind);
    WithoutPercentSafe(before);
    WithoutPercentSafe(kind);
    ReceivedAroundBare("page", Decimal(page), "search", before, after, "type", kind);
  }

  lemma CutQueryShape(page: nat, before: string, after: string, kind: string)
    ensures "page" + "=" + Decimal(page) + "&" + "search" + "=" + (before + "&" + after) + "&" + "type" + "=" + kind
      == "page" + "=" + Decimal(page) + "&" + "search" + "=" + before + "&" + after + "&" + "type" + "=" + kind
  {
  }

  /** Two pairs, a bare segment and a third pair: the second and last keys find their values. */
  lemma ReceivedAroundBare(k1: string, v1: string, k2: string, v2: string, bare: string, k4: string, v4: string)
    requires PlainKey(k1) && PlainKey(k2) && PlainKey(bare) && PlainKey(k4)
    requires SafeValue(v1) && SafeValue(v2) && SafeValue(v4) && EndsVisible(v4)
    requires k1 != k2 && k1 != k4 && k2 != k4 && bare != k4
    ensures var q := k1 + "=" + v1 + "&" + k2 + "=" + v2 + "&" + bare + "&" + k4 + "=" + v4;
      && Received(q, k2) == Some(Decode(UnescapeBrackets(v2)))
      && Received(q, k4) == Some(Decode(UnescapeBrackets(v4)))
  {
    PairsAroundBare(k1, v1, k2, v2, bare, k4, v4);
    LookupAroundBare(k1, UnescapeBrackets(v1), k2, UnescapeBrackets(v2), bare, k4, UnescapeBrackets(v4));
  }

  /** Around a bare segment, the keys of the second and last pairs find their own values. */
  lemma LookupAroundBare(k1: string, u1: string, k2: string, u2: string, bare: string, k4: string, u4: string)
    requires PlainKey(k1) && PlainKey(k2) && PlainKey(bare) && PlainKey(k4)
    requires NoBracketEquals(u1) && NoBracketEquals(u2) && NoBracketEquals(u4)
    requires k1 != k2 && k1 != k4 && k2 != k4 && bare != k4
    ensures var segments := [k1 + "=" + u1, k2 + "=" + u2, bare, k4 + "=" + u4];
      Lookup(segments, k2) == Some(Decode(u2)) && Lookup(segments, k4) == Some(Decode(u4))
  {
    var t1, t2, t4 := k1 + "=" + u1, k2 + "=" + u2, k4 + "=" + u4;
    assert [t1, t2, bare, t4] == [t1] + ([t2] + ([bare] + [t4]));
    LookupSkip(k1, u1, [t2] + ([bare] + [t4]), k2);
    LookupHit(k2, u2, [bare] + [t4]);
    LookupSkip(k1, u1, [t2] + ([bare] + [t4]), k4);
    LookupSkip(k2, u2, [bare] + [t4], k4);
    LookupSkipBare(bare, [t4], k4);
    LookupHit(k4, u4, []);
    assert [t4] == [t4] + [];
  }

  /** Two pairs, a bare segment and a third pair split into the four, each value with its brackets unescaped. */
  lemma PairsAroundBare(k1: string, v1: string, k2: string, v2: string, bare: string, k4: string, v4: string)
    requires PlainKey(k1) && PlainKey(k2) && PlainKey(bare) && PlainKey(k4)
    requires Unbroken(v1) && Unbroken(v2) && Unbroken(v4) && EndsVisible(v4)
    ensures Split(UnescapeBrackets(BeforeFragment(SentQuery(k1 + "=" + v1 + "&" + k2 + "=" + v2 + "&" + bare + "&" + k4 + "=" + v4))), '&')
      == [k1 + "=" + UnescapeBrackets(v1), k2 + "=" + UnescapeBrackets(v2), bare, k4 + "=" + UnescapeBrackets(v4)]
  {
    var s1, s2, s4 := k1 + "=" + v1, k2 + "=" + v2, k4 + "=" + v4;
    assert k1 + "=" + v1 + "&" + k2 + "=" + v2 + "&" + bare + "&" + k4 + "=" + v4 == s1 + "&" + s2 + "&" + bare + "&" + s4;
    PairEndsVisible(k4, v4);
    SegmentsOfFour(s1, s2, bare, s4);
    WithoutPercentSafe(bare);
    UnescapeBracketsPair(k1, v1);
    UnescapeBracketsPair(k2, v2);
    UnescapeBracketsPair(k4, v4);
  }

  /** Searching recipes by name for `mac&cheese` filters on `mac`. */
  lemma AsWrittenTruncatesAtAmpersand(page: nat)
    ensures var q := ListQueryAsWritten(page, "mac&cheese", "name");
      BuildFilter(Received(q, "search"), Received(q, "type")) == NameContains("mac")
  {
    MacAndCheeseParts();
    AsWrittenCutsAtAmpersand(page, "mac", "cheese", "name");
    MacByName();
  }

  /**
   * Searching recipes by name for `x]=y` filters on nothing: the parser
   * reads the segment `search=x]=y` as the key `search=x]` with the value
   * `y`, so the route sees no search and lists every recipe.
   */
  lemma AsWrittenLosesBracketSearch(page: nat)
    ensures var q := ListQueryAsWritten(page, "x]=y", "name");
      Received(q, "search") == None && BuildFilter(Received(q, "search"), Received(q, "type")) == Everything
  {
    BracketLiterals(Decimal(page));
    BracketSearchSegments(page);
    ListKeys(page);
    BracketSearchLookup(Decimal(page));
  }

  lemma BracketSearchSegments(page: nat)
    ensures Split(UnescapeBrackets(BeforeFragment(SentQuery(ListQueryAsWritten(page, "x]=y", "name")))), '&')
      == ["page=" + Decimal(page), "search=x]=y", "type=name"]
  {
    BracketLiterals(Decimal(page));
    LowerWordIsPlain("name");
    assert Unbroken("x]=y") && '%' !in "x]=y";
    ListSegments(page, "x]=y", "name");
  }

  lemma BracketLiterals(page: string)
    ensures "search=" + "x]=y" == "search=x]=y"
    ensures "type=" + "name" == "type=name" == "type" + "=" + "name"
    ensures "page=" + page == "page" + "=" + page
  {
  }

  /** The unescaped list query splits into its three pairs when neither value breaks a segment. */
  lemma ListSegments(page: nat, search: string, kind: string)
    requires Unbroken(search) && Unbroken(kind) && EndsVisible(kind) && '%' !in search && '%' !in kind
    ensures Split(UnescapeBrackets(BeforeFragment(SentQuery(ListQueryAsWritten(page, search, kind)))), '&')
      == ["page=" + Decimal(page), "search=" + search, "type=" + kind]
  {
    var s1, s2, s3 := "page=" + Decimal(page), "search=" + search, "type=" + kind;
    var q := ListQueryAsWritten(page, search, kind);
    assert q == s1 + "&" + s2 + "&" + s3;
    ListKeys(page);
    assert "type=" == "type" + "=";
    PairEndsVisible("type", kind);
    SegmentsOfThree(s1, s2, s3);
    UnescapeBracketsWithoutEscapes(s1);
    UnescapeBracketsWithoutEscapes(s2);
    UnescapeBracketsWithoutEscapes(s3);
  }

  /** The parser reads `search=x]=y` as the key `search=x]` with the value `y`. */
  lemma BracketSegmentKey()
    ensures SplitPair("search=x]=y") == ("search=x]", "y")
    ensures Decode("search=x]") == "search=x]"
  {
    BracketSegmentParts();
    SplitPairAtBracketEquals("search=x]", "y");
    PlainDecode("search=x]");
  }

  lemma BracketSegmentParts()
    ensures "search=x]=y" == "search=x]" + "=" + "y"
    ensures "search=x]" != [] && "search=x]"[8] == ']' && NoBracketEquals("search=x]")
  {
    assert forall i :: 0 <= i < 8 ==> "search=x]"[i] != ']';
  }

  lemma PlainDecode(s: string)
    requires forall i :: 0 <= i < |s| ==> s[i] != '+' && s[i] != '%'
    ensures Decode(s) == s
  {
  }

  lemma BracketSearchLookup(page: string)
    requires ArrivesIntact(page)
    ensures Lookup(["page" + "=" + page, "search=x]=y", "type" + "=" + "name"], "search") == None
  {
    BracketKeyFacts();
    BracketSegmentKey();
    LookupMissesMiddle("page", page, "search=x]=y", "type", "name", "search");
  }

  lemma BracketKeyFacts()
    ensures PlainKey("page") && "page" != "search"
    ensures PlainKey("type") && "type" != "search"
    ensures NoBracketEquals("name")
  {
    LowerWordIsPlain("page");
    LowerWordIsPlain("type");
    LowerWordIsPlain("name");
  }

  /** Two pairs with other plain keys around a segment whose key is not `key`: the lookup finds nothing. */
  lemma LookupMissesMiddle(k1: string, v1: string, s2: string, k3: string, v3: string, key: string)
    requires PlainKey(k1) && NoBracketEquals(v1) && k1 != key
    requires Decode(SplitPair(s2).0) != key
    requires PlainKey(k3) && NoBracketEquals(v3) && k3 != key
    ensures Lookup([k1 + "=" + v1, s2, k3 + "=" + v3], key) == None
  {
    var s1, s3 := k1 + "=" + v1, k3 + "=" + v3;
    assert [s1, s2, s3] == [s1] + [s2, s3];
    LookupSkip(k1, v1, [s2, s3], key);
    LookupFirst([s2, s3], key);
    assert [s2, s3][1..] == [s3] + [];
    LookupSkip(k3, v3, [], key);
  }

  lemma MacAndCheeseParts()
    ensures "mac&cheese" == "mac" + "&" + "cheese"
    ensures ArrivesIntact("mac")
    ensures PlainKey("cheese") && "cheese" != "search" && "cheese" != "type"
    ensures ArrivesIntact("name") && EndsVisible("name")
  {
    LowerWordIsPlain("mac");
    LowerWordIsPlain("cheese");
    LowerWordIsPlain("name");
  }

  lemma MacByName()
    ensures BuildFilter(Some("mac"), Some("name")) == NameContains("mac")
  {
    BlankIffAllWhitespace("mac");
    assert !IsWhitespace("mac"[0]);
  }

  lemma FourInOrder(a: string, b: string, c: string, d: string)
    ensures [a] + ([b] + ([c] + [d])) == [a, b, c, d]
  {
  }

  lemma SegmentsOfFour(s1: string, s2: string, s3: string, s4: string)
    requires Unbroken(s1) && Unbroken(s2) && Unbroken(s3) && Unbroken(s4) && s4 != [] && EndsVisible(s4)
    ensures Split(UnescapeBrackets(BeforeFragment(SentQuery(s1 + "&" + s2 + "&" + s3 + "&" + s4))), '&')
      == [UnescapeBrackets(s1), UnescapeBrackets(s2), UnescapeBrackets(s3), UnescapeBrackets(s4)]
  {
    var r3 := s3 + "&" + s4;
    var r2 := s2 + "&" + r3;
    var q := s1 + "&" + r2;
    calc {
      Split(UnescapeBrackets(BeforeFragment(SentQuery(s1 + "&" + s2 + "&" + s3 + "&" + s4))), '&');
    == { FourJoinedAsWritten(s1, s2, s3, s4); }
      Split(UnescapeBrackets(q), '&');
    == { SplitFirstSegment(s1, r2); }
      [UnescapeBrackets(s1)] + Split(UnescapeBrackets(r2), '&');
    == { SplitFirstSegment(s2, r3); }
      [UnescapeBrackets(s1)] + ([UnescapeBrackets(s2)] + Split(UnescapeBrackets(r3), '&'));
    == { SplitFirstSegment(s3, s4); SplitLastSegment(s4); }
      [UnescapeBrackets(s1)] + ([UnescapeBrackets(s2)] + ([UnescapeBrackets(s3)] + [UnescapeBrackets(s4)]));
    == { FourInOrder(UnescapeBrackets(s1), UnescapeBrackets(s2), UnescapeBrackets(s3), UnescapeBrackets(s4)); }
      [UnescapeBrackets(s1), UnescapeBrackets(s2), UnescapeBrackets(s3), UnescapeBrackets(s4)];
    }
  }

  /**
   * `getRecipes(page, search, type)`. Without a usable session the headers
   * are null, which `fetch` refuses as request options (a null `headers`
   * member is not a header list), so nothing is sent and the helper's catch
   * throws `Error fetching recipes`. Otherwise a GET of the list with the
   * session's headers and the three values pasted into the query unescaped;
   * search and type arrive unchanged only when nothing in them is special to
   * the URL or to the query parser.
   */
  function ListRequest(stored: Option<SessionUser>, page: nat, search: string, kind: string): (r: Result<Request, string>)
    ensures r.Err? <==> AuthHeader(stored).None?
    ensures r.Err? ==> r.error == ListFetchFailed
    ensures r.Ok? ==> r.value.verb == Get && r.value.path == "/recipes" && r.value.body.None?
    ensures r.Ok? ==> r.value.headers == AuthHeader(stored).value
    ensures r.Ok? && ArrivesIntact(search) && ArrivesIntact(kind) && EndsVisible(kind) ==>
      Received(r.value.query, "search") == Some(search) && Received(r.value.query, "type") == Some(kind)
  {
    assert ArrivesIntact(search) && ArrivesIntact(kind) && EndsVisible(kind) ==>
      Received(ListQueryAsWritten(page, search, kind), "search") == Some(search)
      && Received(ListQueryAsWritten(page, search, kind), "type") == Some(kind) by {
      if ArrivesIntact(search) && ArrivesIntact(kind) && EndsVisible(kind) {
        AsWrittenPlainRoundTrip(page, search, kind);
      }
    }
    match AuthHeader(stored)
    case None => Err(ListFetchFailed)
    case Some(h) => Ok(Request(Get, "/recipes", ListQueryAsWritten(page, search, kind), h, None))
  }

  /** The corrected `getRecipes`: each value escaped, so every search and type arrives unchanged. */
  function ListRequestEscaped(stored: Option<SessionUser>, page: nat, search: string, kind: string): (r: Result<Request, string>)
    ensures r.Err? <==> AuthHeader(stored).None?
    ensures r.Err? ==> r.error == ListFetchFailed
    ensures r.Ok? ==> r.value.verb == Get && r.value.path == "/recipes" && r.value.body.None?
    ensures r.Ok? ==> r.value.headers == AuthHeader(stored).value
    ensures r.Ok? ==> Received(r.value.query, "search") == Some(search) && Received(r.value.query, "type") == Some(kind)
  {
    ListQueryRoundTrip(page, search, kind);
    match AuthHeader(stored)
    case None => Err(ListFetchFailed)
    case Some(h) => Ok(Request(Get, "/recipes", ListQuery(page, search, kind), h, None))
  }

  /**
   * `getRecipe(id)`: without a usable session `fetch` refuses the null
   * headers and the helper throws `Error fetching recipe`; otherwise a GET,
   * with the session's headers, of a path from which the route reads back `id`.
   */
  function RecipeRequest(stored: Option<SessionUser>, id: RecipeId): (r: Result<Request, string>)
    ensures r.Err? <==> AuthHeader(stored).None?
    ensures r.Err? ==> r.error == RecipeFetchFailed
    ensures r.Ok? ==> r.value.verb == Get && RouteId(r.value.path) == Some(id) && r.value.query == "" && r.value.body.None?
    ensures r.Ok? ==> r.value.headers == AuthHeader(stored).value
  {
    match AuthHeader(stored)
    case None => Err(RecipeFetchFailed)
    case Some(h) => Ok(Request(Get, RecipePath(id), "", h, None))
  }

  const NotAuthenticatedCreate := "Not authenticated - Please log in again"
  const NotAuthenticated := "Not authenticated"

  /** `createRecipe`: refused before any request when there is no header; otherwise a POST of the data. */
  function CreateRequest(stored: Option<SessionUser>, data: RecipeInput): (r: Result<Request, string>)
    ensures r.Err? <==> AuthHeader(stored).None?
    ensures r.Err? ==> r.error == NotAuthenticatedCreate
    ensures r.Ok? ==> r.value == Request(Post, "/recipes", "", AuthHeader(stored).value, Some(data))
  {
    match AuthHeader(stored)
    case None => Err(NotAuthenticatedCreate)
    case Some(h) => Ok(Request(Post, "/recipes", "", h, Some(data)))
  }

  /** `updateRecipe`: refused before any request when there is no header; otherwise a PUT of the data. */
  function UpdateRequest(stored: Option<SessionUser>, id: RecipeId, data: RecipeInput): (r: Result<Request, string>)
    ensures r.Err? <==> AuthHeader(stored).None?
    ensures r.Err? ==> r.error == NotAuthenticated
    ensures r.Ok? ==> r.value == Request(Put, RecipePath(id), "", AuthHeader(stored).value, Some(data))
  {
    match AuthHeader(stored)
    case None => Err(NotAuthenticated)
    case Some(h) => Ok(Request(Put, RecipePath(id), "", h, Some(data)))
  }

  /** `deleteRecipe`: refused before any request when there is no header; otherwise a DELETE. */
  function DeleteRequest(stored: Option<SessionUser>, id: RecipeId): (r: Result<Request, string>)
    ensures r.Err? <==> AuthHeader(stored).None?
    ensures r.Err? ==> r.error == NotAuthenticated
    ensures r.Ok? ==> r.value == Request(Delete, RecipePath(id), "", AuthHeader(stored).value, None)
  {
    match AuthHeader(stored)
    case None => Err(NotAuthenticated)
    case Some(h) => Ok(Request(Delete, RecipePath(id), "", h, None))
  }

  /** A refused mutation is refused for every stored session without a usable token, and for no other. */
  lemma MutationsNeedToken(stored: Option<SessionUser>, id: RecipeId, data: RecipeInput)
    ensures CreateRequest(stored, data).Err? <==> stored.None? || !Truthy(stored.value.token)
    ensures UpdateRequest(stored, id, data).Err? <==> stored.None? || !Truthy(stored.value.token)
    ensures DeleteRequest(stored, id).Err? <==> stored.None? || !Truthy(stored.value.token)
  {
  }

  /** A JSON reply as the client reads it: `success`, the payload, and `message`. */
  datatype Reply<T> = Reply(success: bool, payload: Option<T>, message: Option<string>)

  /** What `fetch` yields: a rejection with a reason, or a response. */
  datatype Fetched<T> = NetworkError(reason: string) | Response(status: nat, body: Reply<T>)

  /** `response.ok`. */
  predicate OkStatus(status: nat) {
    200 <= status <= 299
  }

  /**
   * The reply a route sends for a handler's result: its success status and
   * payload, or the failure's status and message. The `success` flag is not
   * what the routes send: the delete route answers a success with a message
   * only, and the token check's 401 `Access denied` and 400 `Invalid token`
   * replies (backend/routes/recipes.js:11 and :19) carry a message and no
   * `success`. Nothing depends on it: the recipe helpers decide on the
   * status alone, read only `message` from a non-2xx reply, and never read
   * `success`.
   */
  function Respond<T>(r: Result<T, Failure>, okStatus: nat): (f: Fetched<T>)
    ensures f.Response?
    ensures r.Ok? ==> f.status == okStatus && f.body == Reply(true, Some(r.value), None)
    ensures r.Err? ==> f.status == r.error.status && f.body == Reply(false, None, Some(r.error.message))
  {
    match r
    case Ok(v) => Response(okStatus, Reply(true, Some(v), None))
    case Err(e) => Response(e.status, Reply(false, None, Some(e.message)))
  }

  const ListFetchFailed := "Error fetching recipes"
  const RecipeFetchFailed := "Error fetching recipe"

  /** `getRecipes`: the reply of any 2xx response; every other outcome becomes the one message `Error fetching recipes`. */
  function GetRecipes(f: Fetched<seq<Recipe>>): (r: Result<Reply<seq<Recipe>>, string>)
    ensures r.Ok? <==> f.Response? && OkStatus(f.status)
    ensures r.Ok? ==> r.value == f.body
    ensures r.Err? ==> r.error == ListFetchFailed
  {
    if f.Response? && OkStatus(f.status) then Ok(f.body) else Err(ListFetchFailed)
  }

  /** `getRecipe`: the reply of any 2xx response; every other outcome, whatever the server said, becomes `Error fetching recipe`. */
  function GetRecipe(f: Fetched<Recipe>): (r: Result<Reply<Recipe>, string>)
    ensures r.Ok? <==> f.Response? && OkStatus(f.status)
    ensures r.Ok? ==> r.value == f.body
    ensures r.Err? ==> r.error == RecipeFetchFailed
  {
    if f.Response? && OkStatus(f.status) then Ok(f.body) else Err(RecipeFetchFailed)
  }

  /**
   * `createRecipe` and `updateRecipe` after the request: a rejection passes
   * through, a non-2xx response throws the server's message or the fallback,
   * and a 2xx response yields its reply.
   */
  function MutationOutcome<T>(f: Fetched<T>, fallback: string): (r: Result<Reply<T>, string>)
    ensures f.NetworkError? ==> r == Err(f.reason)
    ensures f.Response? && !OkStatus(f.status) ==> r == Err(OrElse(f.body.message, fallback))
    ensures r.Ok? <==> f.Response? && OkStatus(f.status)
    ensures r.Ok? ==> r.value == f.body
  {
    match f
    case NetworkError(reason) => Err(reason)
    case Response(status, body) =>
      if OkStatus(status) then Ok(body) else Err(OrElse(body.message, fallback))
  }

  const CreateFallback := "Failed to create recipe"
  const UpdateFallback := "Failed to update recipe"
  const DeleteFallback := "Failed to delete recipe"

  /** `deleteRecipe` after the request: any non-2xx response throws the fixed message, dropping the server's. */
  function DeleteOutcome(f: Fetched<string>): (r: Result<Reply<string>, string>)
    ensures f.NetworkError? ==> r == Err(f.reason)
    ensures f.Response? && !OkStatus(f.status) ==> r == Err(DeleteFallback)
    ensures r.Ok? <==> f.Response? && OkStatus(f.status)
    ensures r.Ok? ==> r.value == f.body
  {
    match f
    case NetworkError(reason) => Err(reason)
    case Response(status, body) => if OkStatus(status) then Ok(body) else Err(DeleteFallback)
  }

  /**
   * A refusal of a create or an update reaches the caller with the route's
   * own message; a refusal of a delete or of a single-recipe fetch does not.
   */
  lemma RefusalMessages(f: Failure, fallback: string)
    requires !OkStatus(f.status) && f.message != ""
    ensures MutationOutcome(Respond<Recipe>(Err(f), 201), fallback) == Err(f.message)
    ensures DeleteOutcome(Respond<string>(Err(f), 200)) == Err(DeleteFallback)
    ensures GetRecipe(Respond<Recipe>(Err(f), 200)) == Err(RecipeFetchFailed)
  {
  }
}
