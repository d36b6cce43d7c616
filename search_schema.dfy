/** Validators of the search feature: the query string and the response
    handed back to the caller. */
module SearchSchema {
  import opened Wrappers
  import NaverClient

  /** The characters `String.prototype.trim` removes: white space and line
      terminators as ECMAScript defines them. */
  predicate IsWhitespace(c: char) {
    c in Whitespace
  }

  const Whitespace: set<char> := {
    ' ', '\t', '\n', '\U{000B}', '\U{000C}', '\r', '\U{00A0}', '\U{1680}',
    '\U{2000}', '\U{2001}', '\U{2002}', '\U{2003}', '\U{2004}', '\U{2005}',
    '\U{2006}', '\U{2007}', '\U{2008}', '\U{2009}', '\U{200A}',
    '\U{2028}', '\U{2029}', '\U{202F}', '\U{205F}', '\U{3000}', '\U{FEFF}'
  }

  /** `s` with its leading white space removed. */
  function TrimStart(s: string): (r: string)
    ensures |r| <= |s| && r == s[|s| - |r|..]
    ensures r == [] || !IsWhitespace(r[0])
    ensures forall i :: 0 <= i < |s| - |r| ==> IsWhitespace(s[i])
  {
    if s == [] || !IsWhitespace(s[0]) then s else TrimStart(s[1..])
  }

  /** `s` with its trailing white space removed. */
  function TrimEnd(s: string): (r: string)
    ensures |r| <= |s| && r == s[..|r|]
    ensures r == [] || !IsWhitespace(r[|r| - 1])
    ensures forall i :: |r| <= i < |s| ==> IsWhitespace(s[i])
  {
    if s == [] || !IsWhitespace(s[|s| - 1]) then s else TrimEnd(s[..|s| - 1])
  }

  /** `s.trim()`: a slice of `s` that neither starts nor ends with white
      space, and is empty exactly when `s` is all white space. */
  function Trim(s: string): (r: string)
    ensures |r| <= |s|
    ensures r == [] || (!IsWhitespace(r[0]) && !IsWhitespace(r[|r| - 1]))
    ensures r == [] <==> forall i :: 0 <= i < |s| ==> IsWhitespace(s[i])
  {
    var t := TrimStart(s);
    var r := TrimEnd(t);
    assert r != [] ==> r[0] == t[0];
    r
  }

  /** The trimmed text is the untrimmed one between two runs of white space. */
  lemma {:induction false} TrimIsSlice(s: string)
    ensures IsSliceAt(s, |s| - |TrimStart(s)|, Trim(s))
  {
    var t := TrimStart(s);
    assert Trim(s) == TrimEnd(t);
    PrefixOfSuffix(s, t, Trim(s));
  }

  /** `r` is the slice of `s` that starts at index `k`. */
  predicate IsSliceAt(s: string, k: int, r: string) {
    0 <= k && k + |r| <= |s| && r == s[k..k + |r|]
  }

  /** Everything `Trim` drops, before the slice and after it, is white space. */
  lemma {:induction false} TrimDropsOnlyWhitespace(s: string)
    ensures forall i :: 0 <= i < |s| - |TrimStart(s)| ==> IsWhitespace(s[i])
    ensures forall i :: |s| - |TrimStart(s)| + |Trim(s)| <= i < |s| ==> IsWhitespace(s[i])
  {
    var t := TrimStart(s);
    TailOfSuffix(s, |s| - |t|, t, |TrimEnd(t)|);
  }

  /** White space after the first `n` characters of a suffix `t` of `s` is
      white space at the tail of `s`. */
  lemma {:induction false} TailOfSuffix(s: string, k: nat, t: string, n: nat)
    requires k <= |s| && t == s[k..] && n <= |t|
    requires forall j :: n <= j < |t| ==> IsWhitespace(t[j])
    ensures forall i :: k + n <= i < |s| ==> IsWhitespace(s[i])
  {
    forall i | k + n <= i < |s| ensures IsWhitespace(s[i]) {
      assert s[i] == t[i - k];
    }
  }

  /** A prefix `r` of a suffix `t` of `s` is a slice of `s`. */
  lemma {:induction false} PrefixOfSuffix(s: string, t: string, r: string)
    requires |t| <= |s| && t == s[|s| - |t|..] && |r| <= |t| && r == t[..|r|]
    ensures IsSliceAt(s, |s| - |t|, r)
  {
  }

  /** Text with no white space at either end is its own trim. */
  lemma {:induction false} TrimKeepsClean(s: string)
    requires s == [] || (!IsWhitespace(s[0]) && !IsWhitespace(s[|s| - 1]))
    ensures Trim(s) == s
  {
  }

  /** Trimming twice is trimming once. */
  lemma {:induction false} TrimIdempotent(s: string)
    ensures Trim(Trim(s)) == Trim(s)
  {
    TrimKeepsClean(Trim(s));
  }

  /** `SearchQuerySchema`: the length bounds 2..50 are checked on the query as
      given, and only then is it trimmed. */
  function ParseQuery(query: string): (r: Option<string>)
    ensures r.Some? <==> 2 <= |query| <= 50
    ensures r.Some? ==> r.value == Trim(query) && |r.value| <= 50
  {
    if 2 <= |query| <= 50 then Some(Trim(query)) else None
  }

  /** A query already trimmed (as the route passes it) is accepted exactly
      when its length is within bounds, and comes back unchanged. */
  lemma {:induction false} TrimmedQueryUnchanged(query: string)
    requires Trim(query) == query
    ensures ParseQuery(query).Some? <==> 2 <= |query| <= 50
    ensures ParseQuery(query).Some? ==> ParseQuery(query).value == query
  {
  }

  /** The bounds see the white space: a query padded to length two passes
      even though its trimmed value is a single character. */
  lemma {:induction false} PaddingCountsTowardsMinimum(c: char)
    requires !IsWhitespace(c)
    ensures ParseQuery([' ', c]) == Some([c])
  {
    KeptAlone(c);
    SpaceDropped(c);
  }

  /** A lone character that is not white space survives both trims. */
  lemma {:induction false} KeptAlone(c: char)
    requires !IsWhitespace(c)
    ensures TrimStart([c]) == [c] && TrimEnd([c]) == [c]
  {
  }

  /** A leading space is dropped and trimming goes on from the next
      character. */
  lemma {:induction false} SpaceDropped(c: char)
    ensures TrimStart([' ', c]) == TrimStart([c])
  {
    assert [' ', c][1..] == [c];
  }

  /** `SearchResultItemSchema`: name and address must not be empty; the
      category and the link may be. */
  predicate ValidItem(item: NaverClient.SearchResult)
    ensures ValidItem(item) <==> item.name != [] && item.address != []
  {
    |item.name| >= 1 && |item.address| >= 1
  }

  /** Category, coordinates and link never change whether an item is valid. */
  lemma ValidItemIgnoresOtherFields(item: NaverClient.SearchResult, category: string,
                                    latitude: real, longitude: real, link: string)
    ensures ValidItem(item) <==>
      ValidItem(item.(category := category, latitude := latitude, longitude := longitude, link := link))
  {
  }

  /** The response envelope's data. */
  datatype SearchResponse = SearchResponse(results: seq<NaverClient.SearchResult>, total: int)

  /** `SearchResponseSchema.safeParse`: accepted exactly when every item is
      valid, giving back the same results and total. */
  function ParseResponse(results: seq<NaverClient.SearchResult>, total: int): (r: Option<SearchResponse>)
    ensures r.Some? <==> forall i :: 0 <= i < |results| ==> ValidItem(results[i])
    ensures r.Some? ==> r.value.results == results && r.value.total == total
  {
    if forall i :: 0 <= i < |results| ==> ValidItem(results[i]) then Some(SearchResponse(results, total))
    else None
  }

  /** An item is valid exactly when its stripped title and address are not
      empty, so a title made only of markup is refused. */
  lemma {:induction false} MappedItemValid(item: NaverClient.NaverItem)
    ensures ValidItem(NaverClient.MapItems([item])[0]) <==>
      NaverClient.StripHtmlTags(item.title) != [] && NaverClient.StripHtmlTags(item.address) != []
  {
  }
}
