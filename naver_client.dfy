/** The local-search adapter: turns the provider's response into search
    results (tags stripped from the text fields, coordinates scaled to degrees)
    and its transport failures into error codes. The HTTP call itself is an
    input: `transport` answers a request with a response or a failure. */
module NaverClient {
  import opened Wrappers

  /** One item of the provider's response. */
  datatype NaverItem = NaverItem(
    title: string, address: string, category: string, mapx: real, mapy: real, link: string)

  /** One search result handed to the service. */
  datatype SearchResult = SearchResult(
    name: string, address: string, category: string, latitude: real, longitude: real, link: string)

  datatype Coordinates = Coordinates(latitude: real, longitude: real)

  /** A failed request: an HTTP-client error with its code and the response
      status if a response arrived, or any other exception. */
  datatype TransportError =
    | HttpClientError(code: Option<string>, status: Option<int>)
    | OtherError

  /** The outcome of the GET request; `items` is `None` when the body has none. */
  datatype HttpOutcome =
    | Response(items: Option<seq<NaverItem>>)
    | Failed(error: TransportError)

  /** The query parameters of the request. */
  datatype SearchRequest = SearchRequest(query: string, display: nat, sort: string)

  /** The provider scales degrees by ten million. */
  const Scale: real := 10000000.0

  /** The index of the first occurrence of `c` in `s`. */
  function FirstIndex(s: string, c: char): (i: nat)
    requires c in s
    ensures i < |s| && s[i] == c && c !in s[..i]
  {
    if s[0] == c then 0 else 1 + FirstIndex(s[1..], c)
  }

  /** `text.replace(/<[^>]*>/g, '')`: scanning left to right, a '<' that has a
      '>' somewhere after it starts a tag running to the first such '>', and the
      tag is dropped; every other character is kept. */
  function StripHtmlTags(s: string): (r: string)
    ensures |r| <= |s|
    decreases |s|
  {
    if s == [] then []
    else if s[0] == '<' && '>' in s then StripHtmlTags(s[FirstIndex(s, '>') + 1..])
    else [s[0]] + StripHtmlTags(s[1..])
  }

  /** `a` is `b` with some characters left out, the others in order. */
  predicate IsSubsequence(a: string, b: string)
    decreases |b|
  {
    if a == [] then true
    else if b == [] then false
    else (a[0] == b[0] && IsSubsequence(a[1..], b[1..])) || IsSubsequence(a, b[1..])
  }

  /** No '<' is followed, anywhere later, by a '>': nothing left to strip. */
  predicate TagFree(t: string) {
    forall i, j :: 0 <= i < j < |t| && t[i] == '<' ==> t[j] != '>'
  }

  lemma {:induction false} SubsequenceOfSuffix(a: string, b: string, k: nat)
    requires k <= |b| && IsSubsequence(a, b[k..])
    ensures IsSubsequence(a, b)
  {
    if k > 0 {
      assert b[1..][k - 1..] == b[k..];
      SubsequenceOfSuffix(a, b[1..], k - 1);
      if a != [] {
        assert IsSubsequence(a, b[1..]);
      }
    }
  }

  /** The characters kept by the stripper are characters of the input, in their
      original order. */
  lemma {:induction false} StripIsSubsequence(s: string)
    ensures IsSubsequence(StripHtmlTags(s), s)
    decreases |s|
  {
    if s != [] {
      if s[0] == '<' && '>' in s {
        var k := FirstIndex(s, '>') + 1;
        StripIsSubsequence(s[k..]);
        SubsequenceOfSuffix(StripHtmlTags(s), s, k);
      } else {
        StripIsSubsequence(s[1..]);
        var r := StripHtmlTags(s);
        assert r[0] == s[0] && r[1..] == StripHtmlTags(s[1..]);
      }
    }
  }

  /** A character absent from the input is absent from the output. */
  lemma {:induction false} StripAddsNothing(s: string, c: char)
    requires c !in s
    ensures c !in StripHtmlTags(s)
    decreases |s|
  {
    if s != [] {
      if s[0] == '<' && '>' in s {
        var k := FirstIndex(s, '>') + 1;
        assert c !in s[k..] by { forall x | x in s[k..] ensures x in s { } }
        StripAddsNothing(s[k..], c);
      } else {
        assert c !in s[1..] by { forall x | x in s[1..] ensures x in s { } }
        StripAddsNothing(s[1..], c);
      }
    }
  }

  /** Text without a complete tag is left unchanged. */
  lemma {:induction false} StripKeepsTagFree(t: string)
    requires TagFree(t)
    ensures StripHtmlTags(t) == t
    decreases |t|
  {
    if t != [] {
      if t[0] == '<' {
        forall j | 0 <= j < |t| ensures t[j] != '>' {
          if j > 0 { assert t[0] == '<'; }
        }
      }
      assert TagFree(t[1..]) by {
        forall i, j | 0 <= i < j < |t[1..]| && t[1..][i] == '<' ensures t[1..][j] != '>' {
          assert t[i + 1] == '<';
        }
      }
      StripKeepsTagFree(t[1..]);
    }
  }

  /** Text with no '<' at all is left unchanged. */
  lemma {:induction false} NoOpenBracketUnchanged(t: string)
    requires '<' !in t
    ensures StripHtmlTags(t) == t
  {
    StripKeepsTagFree(t);
  }

  /** The output contains no complete tag. */
  lemma {:induction false} StripLeavesNoTag(s: string)
    ensures TagFree(StripHtmlTags(s))
    decreases |s|
  {
    if s != [] {
      if s[0] == '<' && '>' in s {
        StripLeavesNoTag(s[FirstIndex(s, '>') + 1..]);
      } else {
        var rest := StripHtmlTags(s[1..]);
        StripLeavesNoTag(s[1..]);
        var r := [s[0]] + rest;
        if s[0] == '<' {
          assert '>' !in s[1..];
          StripAddsNothing(s[1..], '>');
        }
        forall i, j | 0 <= i < j < |r| && r[i] == '<' ensures r[j] != '>' {
          assert r[j] == rest[j - 1];
          if i > 0 { assert r[i] == rest[i - 1]; }
        }
      }
    }
  }

  /** Stripping twice is stripping once. */
  lemma {:induction false} StripIdempotent(s: string)
    ensures StripHtmlTags(StripHtmlTags(s)) == StripHtmlTags(s)
  {
    StripLeavesNoTag(s);
    StripKeepsTagFree(StripHtmlTags(s));
  }

  /** The first occurrence is the only position holding `c` with no `c` before it. */
  lemma {:induction false} FirstIndexUnique(s: string, c: char, j: nat)
    requires j < |s| && s[j] == c && c !in s[..j]
    ensures FirstIndex(s, c) == j
  {
  }

  /** A first character other than '<' is kept. */
  lemma StripKeepsPlainFront(s: string)
    requires s != [] && s[0] != '<'
    ensures StripHtmlTags(s) == [s[0]] + StripHtmlTags(s[1..])
  {
  }

  /** A tag at the very front is dropped whole. */
  lemma {:induction false} StripTagAtFront(y: string, z: string)
    requires '>' !in y
    ensures StripHtmlTags(['<'] + y + ['>'] + z) == StripHtmlTags(z)
  {
    var s := ['<'] + y + ['>'] + z;
    var j := |y| + 1;
    assert s[..j] == ['<'] + y;
    FirstIndexUnique(s, '>', j);
    assert s[j + 1..] == z;
  }

  /** Text with no '<' in front of anything is kept as it is. */
  lemma {:induction false} StripKeepsPlainPrefix(x: string, t: string)
    requires '<' !in x
    ensures StripHtmlTags(x + t) == x + StripHtmlTags(t)
    decreases |x|
  {
    if x == [] {
      assert x + t == t;
    } else {
      var s := x + t;
      assert s[0] == x[0] && s[1..] == x[1..] + t;
      StripKeepsPlainFront(s);
      assert x[1..] + t == s[1..];
      assert '<' !in x[1..] by { forall c | c in x[1..] ensures c in x { } }
      StripKeepsPlainPrefix(x[1..], t);
      calc {
        StripHtmlTags(s);
        [x[0]] + StripHtmlTags(x[1..] + t);
        [x[0]] + (x[1..] + StripHtmlTags(t));
        { assert x == [x[0]] + x[1..]; }
        x + StripHtmlTags(t);
      }
    }
  }

  /** A tag `<y>` (with no '>' inside) after text `x` with no '<' is removed
      and everything around it is processed as usual. */
  lemma StripRemovesSpan(x: string, y: string, z: string)
    requires '<' !in x && '>' !in y
    ensures StripHtmlTags(x + ['<'] + y + ['>'] + z) == x + StripHtmlTags(z)
  {
    var t := ['<'] + y + ['>'] + z;
    assert x + ['<'] + y + ['>'] + z == x + t;
    StripKeepsPlainPrefix(x, t);
    StripTagAtFront(y, z);
  }

  /** `katech2wgs84(x, y)`: x scales to the longitude, y to the latitude. */
  function Katech2Wgs84(x: real, y: real): (c: Coordinates)
    ensures c.longitude * Scale == x && c.latitude * Scale == y
  {
    Coordinates(y / Scale, x / Scale)
  }

  /** The provider's encoding of a pair of degrees. */
  function ToRaw(c: Coordinates): (real, real) {
    (c.longitude * Scale, c.latitude * Scale)
  }

  /** Conversion and encoding are inverse to each other. */
  lemma {:induction false} CoordinatesRoundTrip(x: real, y: real, c: Coordinates)
    ensures ToRaw(Katech2Wgs84(x, y)) == (x, y)
    ensures Katech2Wgs84(ToRaw(c).0, ToRaw(c).1) == c
  {
  }

  function ToSearchResult(item: NaverItem): (r: SearchResult)
    ensures r.longitude * Scale == item.mapx && r.latitude * Scale == item.mapy
    ensures r.link == item.link
    ensures r.name == StripHtmlTags(item.title) && r.address == StripHtmlTags(item.address)
    ensures r.category == StripHtmlTags(item.category)
    ensures TagFree(r.name) && TagFree(r.address) && TagFree(r.category)
  {
    StripLeavesNoTag(item.title);
    StripLeavesNoTag(item.address);
    StripLeavesNoTag(item.category);
    var c := Katech2Wgs84(item.mapx, item.mapy);
    SearchResult(StripHtmlTags(item.title), StripHtmlTags(item.address), StripHtmlTags(item.category),
                 c.latitude, c.longitude, item.link)
  }

  /** `items.map(...)`: one result per item, in order. */
  function MapItems(items: seq<NaverItem>): (r: seq<SearchResult>)
    ensures |r| == |items|
    ensures forall i :: 0 <= i < |items| ==>
      && r[i].name == StripHtmlTags(items[i].title)
      && r[i].address == StripHtmlTags(items[i].address)
      && r[i].category == StripHtmlTags(items[i].category)
      && r[i].longitude * Scale == items[i].mapx
      && r[i].latitude * Scale == items[i].mapy
      && r[i].link == items[i].link
  {
    if items == [] then [] else [ToSearchResult(items[0])] + MapItems(items[1..])
  }

  /** The message of the error thrown for a failed request: an abort is a
      timeout whatever the status, then a 400 answer is an invalid query, and
      everything else is an API error. */
  function ClassifyError(e: TransportError): (code: string)
    ensures code == "SEARCH_TIMEOUT_ERROR" <==> e.HttpClientError? && e.code == Some("ECONNABORTED")
    ensures code == "SEARCH_QUERY_INVALID" <==>
      e.HttpClientError? && e.code != Some("ECONNABORTED") && e.status == Some(400)
    ensures code == "SEARCH_API_ERROR" <==>
      !(e.HttpClientError? && (e.code == Some("ECONNABORTED") || e.status == Some(400)))
  {
    match e
    case HttpClientError(code, status) =>
      if code == Some("ECONNABORTED") then "SEARCH_TIMEOUT_ERROR"
      else if status == Some(400) then "SEARCH_QUERY_INVALID"
      else "SEARCH_API_ERROR"
    case OtherError => "SEARCH_API_ERROR"
  }

  /** The request `search(query, display)` sends. */
  function Request(query: string, display: nat): SearchRequest {
    SearchRequest(query, display, "sim")
  }

  /** `NaverSearchClient.search`: `Err(code)` stands for `throw new Error(code)`. */
  function Search(query: string, display: nat, transport: SearchRequest -> HttpOutcome)
    : (r: Result<seq<SearchResult>, string>)
    ensures transport(Request(query, display)).Failed? <==> r.Err?
    ensures r.Err? ==> r.error == ClassifyError(transport(Request(query, display)).error)
    ensures r.Ok? ==>
      var items := transport(Request(query, display)).items;
      if items.None? then r.value == [] else r.value == MapItems(items.value)
  {
    match transport(Request(query, display))
    case Response(items) =>
      if items.None? || |items.value| == 0 then Ok([]) else Ok(MapItems(items.value))
    case Failed(e) => Err(ClassifyError(e))
  }
}
