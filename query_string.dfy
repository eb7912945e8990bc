/**
 * The query string of a request URL, from the browser to the route: the
 * fragment the browser never sends, the `&`-separated `key=value` pairs
 * the server's query parser reads, and the escaping that lets a value
 * contain `&`, `#`, `+` or `%`.
 */
module QueryString {
  import opened Wrappers
  import opened Text
  import opened Seqs

  /** The query as sent: everything before the first `#`, which starts the fragment. */
  function BeforeFragment(s: string): (r: string)
    ensures '#' !in r
    ensures |r| <= |s| && r == s[..|r|]
    ensures '#' !in s ==> r == s
    ensures |r| < |s| ==> s[|r|] == '#'
  {
    if s == [] || s[0] == '#' then []
    else [s[0]] + BeforeFragment(s[1..])
  }

  /** An upper-case hexadecimal digit. */
  function HexDigit(d: nat): (c: char)
    requires d < 16
    ensures '0' <= c <= '9' || 'A' <= c <= 'F'
  {
    if d < 10 then ('0' as int + d) as char else ('A' as int + d - 10) as char
  }

  /** The value of a hexadecimal digit of either case. */
  function HexValue(c: char): (v: Option<nat>)
    ensures v.Some? ==> v.value < 16
  {
    if '0' <= c <= '9' then Some(c as int - '0' as int)
    else if 'A' <= c <= 'F' then Some(c as int - 'A' as int + 10)
    else if 'a' <= c <= 'f' then Some(c as int - 'a' as int + 10)
    else None
  }

  lemma HexDigitValue(d: nat)
    requires d < 16
    ensures HexValue(HexDigit(d)) == Some(d)
  {
  }

  /** The characters `encodeURIComponent` leaves as they are. */
  predicate Unreserved(c: char) {
    || 'A' <= c <= 'Z' || 'a' <= c <= 'z' || '0' <= c <= '9'
    || c == '-' || c == '_' || c == '.' || c == '!' || c == '~' || c == '*' || c == '\'' || c == '(' || c == ')'
  }

  /**
   * `encodeURIComponent` on one character: an unreserved character as itself,
   * any other ASCII character as `%` and two hexadecimal digits. A character
   * beyond ASCII is kept as it is here (see the notes on escaping).
   */
  function EncodeChar(c: char): (r: string)
    ensures Unreserved(c) || c as int >= 128 ==> r == [c]
    ensures !Unreserved(c) && c as int < 128 ==>
      r == ['%', HexDigit(c as int / 16), HexDigit(c as int % 16)]
    ensures '&' !in r && '#' !in r && '+' !in r && '=' !in r && ']' !in r
    ensures r != [] && forall i :: 0 <= i < |r| ==> r[i] as int > 0x20
  {
    if Unreserved(c) || c as int >= 128 then [c]
    else ['%', HexDigit(c as int / 16), HexDigit(c as int % 16)]
  }

  function Encode(s: string): (r: string)
    ensures '&' !in r && '#' !in r && '+' !in r && '=' !in r && ']' !in r
    ensures Untouched(r) && EndsVisible(r)
  {
    if s == [] then [] else EncodeChar(s[0]) + Encode(s[1..])
  }

  /** The parser's first decoding step: every `+` stands for a space. */
  function PlusToSpace(s: string): (r: string)
    ensures |r| == |s|
    ensures forall i :: 0 <= i < |s| ==> r[i] == (if s[i] == '+' then ' ' else s[i])
  {
    if s == [] then [] else [if s[0] == '+' then ' ' else s[0]] + PlusToSpace(s[1..])
  }

  /**
   * `decodeURIComponent`: each `%` with two hexadecimal digits becomes the
   * character with that code; a `%` that does not begin such an escape makes
   * the whole decoding fail. Escapes of codes from 0x80 upwards fail as well
   * (see the notes on escaping).
   */
  function Unescape(s: string): (r: Option<string>)
    ensures '%' !in s ==> r == Some(s)
  {
    if s == [] then Some([])
    else if s[0] == '%' then
      if |s| >= 3 && HexValue(s[1]).Some? && HexValue(s[2]).Some? && HexValue(s[1]).value < 8 then
        match Unescape(s[3..])
        case None => None
        case Some(rest) => Some([(16 * HexValue(s[1]).value + HexValue(s[2]).value) as char] + rest)
      else None
    else
      assert s == [s[0]] + s[1..];
      match Unescape(s[1..])
      case None => None
      case Some(rest) => Some([s[0]] + rest)
  }

  /** The parser's decoder: pluses become spaces, then escapes are decoded, falling back to the undecoded text. */
  function Decode(s: string): (r: string)
    ensures '+' !in s && '%' !in s ==> r == s
  {
    var spaced := PlusToSpace(s);
    match Unescape(spaced)
    case Some(decoded) => decoded
    case None => spaced
  }

  /** One character's escape decodes back to the character, whatever follows. */
  lemma {:induction false} UnescapeEncodedChar(c: char, rest: string)
    ensures Unescape(EncodeChar(c) + rest) ==
      match Unescape(rest) case None => None case Some(t) => Some([c] + t)
  {
    var e := EncodeChar(c) + rest;
    if Unreserved(c) || c as int >= 128 {
      assert e[0] == c && e[1..] == rest;
    } else {
      var hi, lo := c as int / 16, c as int % 16;
      HexDigitValue(hi);
      HexDigitValue(lo);
      assert e[0] == '%' && e[1] == HexDigit(hi) && e[2] == HexDigit(lo) && e[3..] == rest;
      assert (16 * hi + lo) as char == c;
    }
  }

  /** Decoding undoes encoding, for every string. */
  lemma DecodeEncode(s: string)
    ensures Unescape(Encode(s)) == Some(s)
    ensures Decode(Encode(s)) == s
    ensures Decode(UnescapeBrackets(Encode(s))) == s
  {
    UnescapeEncode(s);
    PlusFreeUnchanged(Encode(s));
    UnescapeBracketsEncode(s);
    UnescapeBracketsAddsOnlyBrackets(Encode(s), '+');
    PlusFreeUnchanged(UnescapeBrackets(Encode(s)));
  }

  lemma {:induction false} UnescapeEncode(s: string)
    ensures Unescape(Encode(s)) == Some(s)
  {
    if s != [] {
      UnescapeEncode(s[1..]);
      UnescapeEncodedChar(s[0], Encode(s[1..]));
      assert [s[0]] + s[1..] == s;
    }
  }

  lemma PlusFreeUnchanged(s: string)
    requires '+' !in s
    ensures PlusToSpace(s) == s
  {
  }

  /** No `]` is immediately followed by `=`. */
  predicate NoBracketEquals(s: string) {
    forall i :: 0 <= i < |s| - 1 ==> !(s[i] == ']' && s[i + 1] == '=')
  }

  /** `indexOf(']=')`: the position of the first `]` followed by `=`, if any. */
  function BracketEquals(s: string): (r: Option<nat>)
    ensures r.None? <==> NoBracketEquals(s)
    ensures r.Some? ==> r.value + 1 < |s| && s[r.value] == ']' && s[r.value + 1] == '='
    ensures r.Some? ==> NoBracketEquals(s[..r.value + 1])
  {
    if |s| < 2 then None
    else if s[0] == ']' && s[1] == '=' then Some(0)
    else
      match BracketEquals(s[1..])
      case None =>
        assert forall i :: 1 <= i < |s| - 1 ==> s[i] == s[1..][i - 1] && s[i + 1] == s[1..][i];
        None
      case Some(j) =>
        assert forall i :: 1 <= i < j + 1 ==> s[i] == s[1..][i - 1] && s[i + 1] == s[1..][i];
        Some(j + 1)
  }

  /** A segment split at its first `=`; a segment without `=` is a key with the empty value. */
  function SplitAtEquals(segment: string): (pair: (string, string))
    ensures '=' !in pair.0
    ensures '=' !in segment ==> pair == (segment, "")
    ensures '=' in segment ==> segment == pair.0 + "=" + pair.1
  {
    if segment == [] then ([], [])
    else if segment[0] == '=' then ([], segment[1..])
    else
      assert segment == [segment[0]] + segment[1..];
      var (key, value) := SplitAtEquals(segment[1..]);
      ([segment[0]] + key, value)
  }

  lemma {:induction false} SplitAtEqualsFirst(key: string, value: string)
    requires '=' !in key
    ensures SplitAtEquals(key + "=" + value) == (key, value)
  {
    if key != [] {
      assert (key + "=" + value)[1..] == key[1..] + "=" + value;
      SplitAtEqualsFirst(key[1..], value);
      assert [key[0]] + key[1..] == key;
    } else {
      assert (key + "=" + value)[1..] == value;
    }
  }

  /**
   * The parser's split of one segment into key and value: just after the
   * first `]` that is followed by `=`, when there is one; otherwise at the
   * first `=`. A segment without `=` is a key with the empty value.
   */
  function SplitPair(segment: string): (pair: (string, string))
    ensures '=' in segment ==> segment == pair.0 + "=" + pair.1
    ensures '=' !in segment ==> pair == (segment, "")
    ensures NoBracketEquals(segment) ==> '=' !in pair.0
    ensures !NoBracketEquals(segment) ==> pair.0 != [] && pair.0[|pair.0| - 1] == ']' && NoBracketEquals(pair.0)
  {
    match BracketEquals(segment)
    case Some(i) =>
      assert segment == segment[..i + 1] + "=" + segment[i + 2..];
      (segment[..i + 1], segment[i + 2..])
    case None => SplitAtEquals(segment)
  }

  /** `key=value` splits into key and value when the key has no `=` and the segment has no `]=`. */
  lemma SplitPairAtFirstEquals(key: string, value: string)
    requires '=' !in key && (key == [] || key[|key| - 1] != ']') && NoBracketEquals(value)
    ensures SplitPair(key + "=" + value) == (key, value)
  {
    var s := key + "=" + value;
    forall i | 0 <= i < |s| - 1
      ensures !(s[i] == ']' && s[i + 1] == '=')
    {
      if i + 1 < |key| {
        assert s[i + 1] == key[i + 1];
      } else if i + 1 == |key| {
        assert s[i] == key[i];
      } else if i > |key| {
        assert s[i] == value[i - |key| - 1] && s[i + 1] == value[i - |key|];
      }
    }
    SplitAtEqualsFirst(key, value);
  }

  /** A key ending in `]`, with no earlier `]=`, is split off at the `=` that follows it, whatever the value holds. */
  lemma SplitPairAtBracketEquals(key: string, value: string)
    requires key != [] && key[|key| - 1] == ']' && NoBracketEquals(key)
    ensures SplitPair(key + "=" + value) == (key, value)
  {
    var s := key + "=" + value;
    var n := |key| - 1;
    assert s[n] == ']' && s[n + 1] == '=';
    assert s[..n + 1] == key;
    assert !NoBracketEquals(s);
    var i := BracketEquals(s).value;
    assert i == n;
    assert s[n + 2..] == value;
  }

  /** The value of the first segment whose decoded key is `key`. */
  function Lookup(segments: seq<string>, key: string): Option<string> {
    if segments == [] then None
    else
      var (k, v) := SplitPair(segments[0]);
      if Decode(k) == key then Some(Decode(v)) else Lookup(segments[1..], key)
  }

  /** A value found belongs to a segment with that key; nothing is found exactly when no segment has the key. */
  lemma {:induction false} LookupFindsKey(segments: seq<string>, key: string)
    ensures var r := Lookup(segments, key);
      && (r.Some? ==> exists k :: 0 <= k < |segments| && Decode(SplitPair(segments[k]).0) == key && r.value == Decode(SplitPair(segments[k]).1))
      && (r.None? <==> forall k :: 0 <= k < |segments| ==> Decode(SplitPair(segments[k]).0) != key)
  {
    if segments != [] && Decode(SplitPair(segments[0]).0) != key {
      var rest := segments[1..];
      LookupFindsKey(rest, key);
      assert forall k :: 1 <= k < |segments| ==> segments[k] == rest[k - 1];
      if Lookup(rest, key).Some? {
        var j :| 0 <= j < |rest| && Decode(SplitPair(rest[j]).0) == key && Lookup(rest, key).value == Decode(SplitPair(rest[j]).1);
        assert segments[j + 1] == rest[j];
      }
    }
  }

  /** One step of the search: the first segment's value if its key matches, otherwise the search of the rest. */
  lemma LookupFirst(segments: seq<string>, key: string)
    requires segments != []
    ensures Decode(SplitPair(segments[0]).0) == key ==> Lookup(segments, key) == Some(Decode(SplitPair(segments[0]).1))
    ensures Decode(SplitPair(segments[0]).0) != key ==> Lookup(segments, key) == Lookup(segments[1..], key)
  {
  }

  /** Free of the characters the URL parser deletes wherever they occur: tab, line feed and carriage return. */
  predicate Untouched(s: string) {
    '\t' !in s && '\n' !in s && '\r' !in s
  }

  /** Empty, or ending in a character above the space, which the URL parser's trailing strip keeps. */
  predicate EndsVisible(s: string) {
    s == [] || s[|s| - 1] as int > 0x20
  }

  /** The URL parser's first step at the end of the URL: trailing spaces and control characters are cut. */
  function StripTrailingControls(s: string): (r: string)
    ensures |r| <= |s| && r == s[..|r|]
    ensures EndsVisible(r)
    ensures forall i :: |r| <= i < |s| ==> s[i] as int <= 0x20
    ensures EndsVisible(s) ==> r == s
  {
    if s == [] || s[|s| - 1] as int > 0x20 then s else StripTrailingControls(s[..|s| - 1])
  }

  /** The characters the URL parser keeps wherever they occur: all but tab, line feed and carriage return. */
  predicate KeptByUrlParser(c: char) {
    c != '\t' && c != '\n' && c != '\r'
  }

  /** The URL parser's second step: every tab, line feed and carriage return is removed, and the rest kept in order. */
  function RemoveTabsAndNewlines(s: string): (r: string)
    ensures r == Keep(s, KeptByUrlParser)
    ensures |r| <= |s|
    ensures Untouched(r)
    ensures Untouched(s) ==> r == s
  {
    if s == [] then []
    else
      assert s == [s[0]] + s[1..];
      if KeptByUrlParser(s[0]) then [s[0]] + RemoveTabsAndNewlines(s[1..]) else RemoveTabsAndNewlines(s[1..])
  }

  /**
   * The removal keeps exactly the other characters, and works piece by
   * piece, so what is kept stays in its order.
   */
  lemma RemoveTabsAndNewlinesKeepsTheRest(a: string, b: string, c: char)
    ensures c in RemoveTabsAndNewlines(a) <==> c in a && KeptByUrlParser(c)
    ensures RemoveTabsAndNewlines(a + b) == RemoveTabsAndNewlines(a) + RemoveTabsAndNewlines(b)
  {
    KeepMembership(a, KeptByUrlParser, c);
    KeepAppend(a, b, KeptByUrlParser);
  }

  /**
   * The query as `fetch` sends it, after the URL parser's clean-up of the
   * whole URL (the query is the URL's tail, so the trailing strip reaches it).
   */
  function SentQuery(query: string): (sent: string)
    ensures Untouched(sent)
    ensures Untouched(query) && EndsVisible(query) ==> sent == query
  {
    RemoveTabsAndNewlines(StripTrailingControls(query))
  }

  /** A hexadecimal `B` or `D` in either case: the last character of an escaped `[` or `]`. */
  predicate BracketHex(c: char) {
    c == 'B' || c == 'b' || c == 'D' || c == 'd'
  }

  /**
   * The parser's first step on the whole query: every `%5B` becomes `[` and
   * every `%5D` becomes `]`, whatever the case of the letter, scanning from
   * the left.
   */
  function UnescapeBrackets(s: string): (r: string)
    ensures |r| <= |s|
  {
    if s == [] then []
    else if EscapedBracketFirst(s) then [BracketOf(s[2])] + UnescapeBrackets(s[3..])
    else
      assert s == [s[0]] + s[1..];
      [s[0]] + UnescapeBrackets(s[1..])
  }

  /** Without a `%` there is nothing to rewrite. */
  lemma {:induction false} UnescapeBracketsWithoutEscapes(s: string)
    requires '%' !in s
    ensures UnescapeBrackets(s) == s
  {
    if s != [] {
      assert '%' !in s[1..];
      UnescapeBracketsWithoutEscapes(s[1..]);
    }
  }

  /** The rewrite brings in no character but the brackets. */
  lemma {:induction false} UnescapeBracketsAddsOnlyBrackets(s: string, c: char)
    requires c != '[' && c != ']' && c !in s
    ensures c !in UnescapeBrackets(s)
  {
    if s != [] {
      if EscapedBracketFirst(s) {
        assert c !in s[3..];
        UnescapeBracketsAddsOnlyBrackets(s[3..], c);
      } else {
        assert c !in s[1..];
        UnescapeBracketsAddsOnlyBrackets(s[1..], c);
      }
    }
  }

  /** `s` starts with an escaped bracket: `%5` and a hexadecimal `B` or `D`. */
  predicate EscapedBracketFirst(s: string) {
    |s| >= 3 && s[0] == '%' && s[1] == '5' && BracketHex(s[2])
  }

  /** The bracket an escape ending in `c` stands for. */
  function BracketOf(c: char): (r: char)
    ensures r == '[' || r == ']'
    ensures r == '[' <==> c == 'B' || c == 'b'
  {
    if c == 'B' || c == 'b' then '[' else ']'
  }

  /** No escaped bracket starts in `x` and ends in `y`. */
  predicate NoEscapeAcross(x: string, y: string) {
    && !(x != [] && x[|x| - 1] == '%' && |y| >= 2 && y[0] == '5' && BracketHex(y[1]))
    && !(|x| >= 2 && x[|x| - 2] == '%' && x[|x| - 1] == '5' && y != [] && BracketHex(y[0]))
  }

  lemma EscapeAcrossSuffix(x: string, y: string, n: nat)
    requires NoEscapeAcross(x, y) && n <= |x|
    ensures NoEscapeAcross(x[n..], y)
  {
    var t := x[n..];
    if |t| >= 1 {
      assert t[|t| - 1] == x[|x| - 1];
    }
    if |t| >= 2 {
      assert t[|t| - 2] == x[|x| - 2];
    }
  }

  lemma EscapedFirstConcat(x: string, y: string)
    requires EscapedBracketFirst(x)
    ensures EscapedBracketFirst(x + y) && (x + y)[2] == x[2] && (x + y)[3..] == x[3..] + y
  {
  }

  lemma UnescapedFirstConcat(x: string, y: string)
    requires x != [] && !EscapedBracketFirst(x) && NoEscapeAcross(x, y)
    ensures !EscapedBracketFirst(x + y) && (x + y)[0] == x[0] && (x + y)[1..] == x[1..] + y
  {
  }

  lemma ConsAppend(c: char, a: string, b: string)
    ensures [c] + (a + b) == ([c] + a) + b
  {
  }

  /** The rewrite works piece by piece when no escaped bracket straddles the cut. */
  lemma {:induction false} UnescapeBracketsConcat(x: string, y: string)
    requires NoEscapeAcross(x, y)
    ensures UnescapeBrackets(x + y) == UnescapeBrackets(x) + UnescapeBrackets(y)
  {
    if x == [] {
      assert x + y == y;
    } else if EscapedBracketFirst(x) {
      EscapedFirstConcat(x, y);
      calc {
        UnescapeBrackets(x + y);
        [BracketOf(x[2])] + UnescapeBrackets(x[3..] + y);
        { EscapeAcrossSuffix(x, y, 3); UnescapeBracketsConcat(x[3..], y); }
        [BracketOf(x[2])] + (UnescapeBrackets(x[3..]) + UnescapeBrackets(y));
        { ConsAppend(BracketOf(x[2]), UnescapeBrackets(x[3..]), UnescapeBrackets(y)); }
        ([BracketOf(x[2])] + UnescapeBrackets(x[3..])) + UnescapeBrackets(y);
        UnescapeBrackets(x) + UnescapeBrackets(y);
      }
    } else {
      UnescapedFirstConcat(x, y);
      calc {
        UnescapeBrackets(x + y);
        [x[0]] + UnescapeBrackets(x[1..] + y);
        { EscapeAcrossSuffix(x, y, 1); UnescapeBracketsConcat(x[1..], y); }
        [x[0]] + (UnescapeBrackets(x[1..]) + UnescapeBrackets(y));
        { ConsAppend(x[0], UnescapeBrackets(x[1..]), UnescapeBrackets(y)); }
        ([x[0]] + UnescapeBrackets(x[1..])) + UnescapeBrackets(y);
        UnescapeBrackets(x) + UnescapeBrackets(y);
      }
    }
  }

  /** An encoded character never ends inside an escaped bracket's `%5`. */
  lemma EncodeCharEndsClean(c: char, y: string)
    ensures NoEscapeAcross(EncodeChar(c), y)
  {
  }

  /** The rewrite turns an escaped `[` or `]` back into the bracket and leaves every other encoded character alone. */
  lemma UnescapeBracketsEncodeChar(c: char)
    ensures UnescapeBrackets(EncodeChar(c)) == if c == '[' || c == ']' then [c] else EncodeChar(c)
  {
    var x := EncodeChar(c);
    if !Unreserved(c) && c as int < 128 {
      var hi, lo := c as int / 16, c as int % 16;
      assert x == ['%', HexDigit(hi), HexDigit(lo)];
      if c == '[' || c == ']' {
        assert hi == 5 && (lo == 11 || lo == 13);
        assert EscapedBracketFirst(x) && x[3..] == [];
      } else {
        assert !EscapedBracketFirst(x);
        assert '%' !in x[1..];
        UnescapeBracketsWithoutEscapes(x[1..]);
      }
    } else {
      UnescapeBracketsWithoutEscapes(x);
    }
  }

  /** After the rewrite, an encoded string still decodes back to the original. */
  lemma {:induction false} UnescapeBracketsEncode(s: string)
    ensures Unescape(UnescapeBrackets(Encode(s))) == Some(s)
  {
    if s != [] {
      var c, rest := s[0], s[1..];
      var t := UnescapeBrackets(Encode(rest));
      EncodeCharEndsClean(c, Encode(rest));
      UnescapeBracketsConcat(EncodeChar(c), Encode(rest));
      UnescapeBracketsEncodeChar(c);
      UnescapeBracketsEncode(rest);
      assert s == [c] + rest;
      if c == '[' || c == ']' {
        assert ([c] + t)[0] == c && ([c] + t)[1..] == t;
      } else {
        UnescapeEncodedChar(c, t);
      }
    }
  }

  /** A character other than `%` in front is left alone. */
  lemma UnescapeBracketsCons(c: char, y: string)
    requires c != '%'
    ensures UnescapeBrackets([c] + y) == [c] + UnescapeBrackets(y)
  {
    assert ([c] + y)[1..] == y;
  }

  /** The rewrite goes through the `&` between two segments. */
  lemma UnescapeBracketsAcrossAmpersand(x: string, y: string)
    ensures UnescapeBrackets(x + "&" + y) == UnescapeBrackets(x) + "&" + UnescapeBrackets(y)
  {
    var t := ['&'] + y;
    assert NoEscapeAcross(x, t) by {
      assert t[0] == '&';
    }
    UnescapeBracketsConcat(x, t);
    UnescapeBracketsCons('&', y);
    assert x + "&" + y == x + t;
  }

  /** The rewrite leaves a key without `%` and its `=` alone. */
  lemma UnescapeBracketsPair(k: string, v: string)
    requires '%' !in k
    ensures UnescapeBrackets(k + "=" + v) == k + "=" + UnescapeBrackets(v)
  {
    UnescapeBracketsConcat(k + "=", v);
    UnescapeBracketsWithoutEscapes(k + "=");
  }

  /** An escaped `]` before `=` becomes a `]=` that the split then sees. */
  lemma UnescapesBracketBeforeEquals()
    ensures UnescapeBrackets("x%5D=y") == "x]=y"
  {
    assert "x%5D=y" == ['x'] + "%5D=y";
    assert EscapedBracketFirst("%5D=y") && "%5D=y"[3..] == "=y";
    UnescapeBracketsWithoutEscapes("=y");
  }

  /** Both escapes are rewritten in either case of the letter, and other escapes are left for decoding. */
  lemma UnescapesEitherCase()
    ensures UnescapeBrackets("%5b%5d%41") == "[]%41"
  {
    assert EscapedBracketFirst("%5b%5d%41") && "%5b%5d%41"[3..] == "%5d%41";
    assert EscapedBracketFirst("%5d%41") && "%5d%41"[3..] == "%41";
    assert !EscapedBracketFirst("%41") && "%41"[1..] == "41";
    UnescapeBracketsWithoutEscapes("41");
  }

  /** What the route reads as `req.query[key]` for a query string the client put in its URL. */
  function Received(query: string, key: string): Option<string> {
    Lookup(Split(UnescapeBrackets(BeforeFragment(SentQuery(query))), '&'), key)
  }
}
