/** `searchPlaces`: validates the query, asks the search client for five
    results, validates them and wraps the outcome; a thrown error is mapped
    back onto the error table. The client is an input answering a query and a
    result count with results or a thrown value. */
module SearchService {
  import opened Wrappers
  import SearchErrors
  import SearchSchema
  import NaverClient

  /** What a `catch` receives: an `Error` with its message, or anything else. */
  datatype Thrown = ErrorWithMessage(message: string) | NonError

  datatype ClientOutcome =
    | Returned(results: seq<NaverClient.SearchResult>)
    | Threw(thrown: Thrown)

  /** The number of results asked of the client. */
  const Display: nat := 5

  /** The `catch` block: an `Error` whose message is a key of the error table
      gives that entry, anything else the generic API error. */
  function CaughtKind(t: Thrown): (k: SearchErrors.Kind)
    ensures t.ErrorWithMessage? && t.message in SearchErrors.Table ==> SearchErrors.Key(k) == t.message
    ensures !(t.ErrorWithMessage? && t.message in SearchErrors.Table) ==> k == SearchErrors.SearchApiError
  {
    match t
    case ErrorWithMessage(m) =>
      var known := SearchErrors.KindOf(m);
      if known.Some? then known.value else SearchErrors.SearchApiError
    case NonError => SearchErrors.SearchApiError
  }

  /** The envelope `searchPlaces` returns: `Ok(data)` for success, `Err(kind)`
      for a failure carrying the table entry of `kind`. */
  function SearchPlaces(query: string, client: (string, nat) -> ClientOutcome)
    : (r: Result<SearchSchema.SearchResponse, SearchErrors.Kind>)
    ensures SearchSchema.ParseQuery(query).None? ==> r == Err(SearchErrors.SearchQueryInvalid)
    ensures r.Ok? ==>
      && SearchSchema.ParseQuery(query).Some?
      && client(SearchSchema.Trim(query), Display) == Returned(r.value.results)
      && r.value.total == |r.value.results|
      && (forall i :: 0 <= i < |r.value.results| ==> SearchSchema.ValidItem(r.value.results[i]))
    ensures SearchSchema.ParseQuery(query).Some? ==>
      var out := client(SearchSchema.Trim(query), Display);
      && (out.Threw? ==> r == Err(CaughtKind(out.thrown)))
      && (out.Returned? ==>
            (r.Ok? <==> forall i :: 0 <= i < |out.results| ==> SearchSchema.ValidItem(out.results[i])))
      && (out.Returned? && r.Err? ==> r.error == SearchErrors.SearchResponseInvalid)
  {
    match SearchSchema.ParseQuery(query)
    case None => Err(SearchErrors.SearchQueryInvalid)
    case Some(validated) =>
      match client(validated, Display)
      case Threw(t) => Err(CaughtKind(t))
      case Returned(results) =>
        if |results| == 0 then Ok(SearchSchema.SearchResponse([], 0))
        else
          match SearchSchema.ParseResponse(results, |results|)
          case None => Err(SearchErrors.SearchResponseInvalid)
          case Some(data) => Ok(data)
  }

  /** An empty result list is a success with no results and a total of zero. */
  lemma {:induction false} EmptyResultsSucceed(query: string, client: (string, nat) -> ClientOutcome)
    requires 2 <= |query| <= 50
    requires client(SearchSchema.Trim(query), Display) == Returned([])
    ensures SearchPlaces(query, client) == Ok(SearchSchema.SearchResponse([], 0))
  {
  }

  /** Only the client's answer for the trimmed query and five results matters:
      a refused query never reaches the client at all. */
  lemma {:induction false} OnlyTrimmedQueryConsulted(query: string, c1: (string, nat) -> ClientOutcome,
                                  c2: (string, nat) -> ClientOutcome)
    requires SearchSchema.ParseQuery(query).Some? ==>
      c1(SearchSchema.Trim(query), Display) == c2(SearchSchema.Trim(query), Display)
    ensures SearchPlaces(query, c1) == SearchPlaces(query, c2)
  {
  }

  /** Every error the table knows passes through a thrown `Error` unchanged. */
  lemma {:induction false} KnownCodesPassThrough(query: string, client: (string, nat) -> ClientOutcome, k: SearchErrors.Kind)
    requires 2 <= |query| <= 50
    requires client(SearchSchema.Trim(query), Display) == Threw(ErrorWithMessage(SearchErrors.Key(k)))
    ensures SearchPlaces(query, client) == Err(k)
  {
    SearchErrors.KindOfKey(k);
  }

  /** Every message the adapter throws is a key of the error table. */
  lemma {:induction false} ClientCodesAreKeys(e: NaverClient.TransportError)
    ensures NaverClient.ClassifyError(e) in SearchErrors.Table
  {
  }

  /** The search client seen from the service: the adapter over a transport,
      its `throw new Error(code)` becoming a thrown `Error`. */
  function Adapter(transport: NaverClient.SearchRequest -> NaverClient.HttpOutcome)
    : (client: (string, nat) -> ClientOutcome)
  {
    (q: string, d: nat) =>
      match NaverClient.Search(q, d, transport)
      case Ok(results) => Returned(results)
      case Err(code) => Threw(ErrorWithMessage(code))
  }

  /** End to end, a failed request becomes the error kind its classification
      names: an abort a timeout (504), a 400 answer an invalid query (400),
      anything else an API error (500). */
  lemma {:induction false} TransportFailureKinds(query: string, transport: NaverClient.SearchRequest -> NaverClient.HttpOutcome)
    requires 2 <= |query| <= 50
    requires transport(NaverClient.Request(SearchSchema.Trim(query), Display)).Failed?
    ensures var e := transport(NaverClient.Request(SearchSchema.Trim(query), Display)).error;
      var r := SearchPlaces(query, Adapter(transport));
      && r.Err?
      && SearchErrors.Key(r.error) == NaverClient.ClassifyError(e)
      && (e.HttpClientError? && e.code == Some("ECONNABORTED") ==>
            r.error == SearchErrors.SearchTimeoutError && SearchErrors.EntryOf(r.error).statusCode == 504)
      && (e.HttpClientError? && e.code != Some("ECONNABORTED") && e.status == Some(400) ==>
            r.error == SearchErrors.SearchQueryInvalid && SearchErrors.EntryOf(r.error).statusCode == 400)
      && (!(e.HttpClientError? && (e.code == Some("ECONNABORTED") || e.status == Some(400))) ==>
            r.error == SearchErrors.SearchApiError && SearchErrors.EntryOf(r.error).statusCode == 500)
  {
    var e := transport(NaverClient.Request(SearchSchema.Trim(query), Display)).error;
    var code := NaverClient.ClassifyError(e);
    assert Adapter(transport)(SearchSchema.Trim(query), Display) == Threw(ErrorWithMessage(code));
    var k := CaughtKind(ErrorWithMessage(code));
    assert SearchErrors.Key(k) == code;
    SearchErrors.KindOfKey(k);
  }

  /** End to end, an item whose title is only markup makes the whole search
      fail with SEARCH_RESPONSE_INVALID. */
  lemma {:induction false} MarkupOnlyTitleRefused(query: string, transport: NaverClient.SearchRequest -> NaverClient.HttpOutcome,
                               i: nat)
    requires 2 <= |query| <= 50
    requires var out := transport(NaverClient.Request(SearchSchema.Trim(query), Display));
      out.Response? && out.items.Some? && i < |out.items.value|
      && NaverClient.StripHtmlTags(out.items.value[i].title) == []
    ensures SearchPlaces(query, Adapter(transport)) == Err(SearchErrors.SearchResponseInvalid)
  {
    var items := transport(NaverClient.Request(SearchSchema.Trim(query), Display)).items.value;
    var results := NaverClient.MapItems(items);
    assert Adapter(transport)(SearchSchema.Trim(query), Display) == Returned(results);
    assert !SearchSchema.ValidItem(results[i]);
  }
}
