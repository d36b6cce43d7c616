/** The search feature's error table: each kind of failure with its code, its
    message and the HTTP status the route answers with. */
module SearchErrors {
  import opened Wrappers

  datatype Kind =
    | SearchQueryRequired
    | SearchQueryInvalid
    | SearchApiError
    | SearchAuthError
    | SearchTimeoutError
    | SearchResponseInvalid

  datatype Entry = Entry(code: string, message: string, statusCode: int)

  /** The key under which each kind is stored in the table. */
  function Key(k: Kind): string {
    match k
    case SearchQueryRequired => "SEARCH_QUERY_REQUIRED"
    case SearchQueryInvalid => "SEARCH_QUERY_INVALID"
    case SearchApiError => "SEARCH_API_ERROR"
    case SearchAuthError => "SEARCH_AUTH_ERROR"
    case SearchTimeoutError => "SEARCH_TIMEOUT_ERROR"
    case SearchResponseInvalid => "SEARCH_RESPONSE_INVALID"
  }

  const Table: map<string, Entry> := map[
    "SEARCH_QUERY_REQUIRED" := Entry("SEARCH_QUERY_REQUIRED", "검색 키워드가 필요합니다", 400),
    "SEARCH_QUERY_INVALID" := Entry("SEARCH_QUERY_INVALID", "검색 키워드가 유효하지 않습니다", 400),
    "SEARCH_API_ERROR" := Entry("SEARCH_API_ERROR", "검색 중 오류가 발생했습니다. 잠시 후 다시 시도해주세요", 500),
    "SEARCH_AUTH_ERROR" := Entry("SEARCH_AUTH_ERROR", "네이버 API 인증 오류가 발생했습니다. 관리자에게 문의하세요", 500),
    "SEARCH_TIMEOUT_ERROR" := Entry("SEARCH_TIMEOUT_ERROR", "요청 시간이 초과되었습니다", 504),
    "SEARCH_RESPONSE_INVALID" := Entry("SEARCH_RESPONSE_INVALID", "검색 결과 형식이 올바르지 않습니다", 500)
  ]

  /** The table entry returned for a failure of kind `k`. */
  function EntryOf(k: Kind): (e: Entry)
    ensures Key(k) in Table && e == Table[Key(k)]
  {
    Table[Key(k)]
  }

  /** `errorCode in SEARCH_ERRORS`, answering the kind stored under that key. */
  function KindOf(key: string): (r: Option<Kind>)
    ensures r.Some? <==> key in Table
    ensures r.Some? ==> Key(r.value) == key
  {
    if key == "SEARCH_QUERY_REQUIRED" then Some(SearchQueryRequired)
    else if key == "SEARCH_QUERY_INVALID" then Some(SearchQueryInvalid)
    else if key == "SEARCH_API_ERROR" then Some(SearchApiError)
    else if key == "SEARCH_AUTH_ERROR" then Some(SearchAuthError)
    else if key == "SEARCH_TIMEOUT_ERROR" then Some(SearchTimeoutError)
    else if key == "SEARCH_RESPONSE_INVALID" then Some(SearchResponseInvalid)
    else None
  }

  /** Looking a kind up by its own key finds that kind. */
  lemma {:induction false} KindOfKey(k: Kind)
    ensures KindOf(Key(k)) == Some(k)
  {
  }

  /** Every entry's code is its key. */
  lemma {:induction false} CodesAreKeys()
    ensures forall key :: key in Table ==> Table[key].code == key
  {
  }

  /** Query errors are client errors (400). */
  lemma {:induction false} QueryErrorsAreBadRequest()
    ensures EntryOf(SearchQueryRequired).statusCode == 400
    ensures EntryOf(SearchQueryInvalid).statusCode == 400
  {
  }

  /** A timeout is a gateway timeout (504). */
  lemma {:induction false} TimeoutIsGatewayTimeout()
    ensures EntryOf(SearchTimeoutError).statusCode == 504
  {
  }

  /** Upstream, credential and response-shape failures are server errors (500). */
  lemma {:induction false} UpstreamErrorsAreServerErrors()
    ensures EntryOf(SearchApiError).statusCode == 500
    ensures EntryOf(SearchAuthError).statusCode == 500
    ensures EntryOf(SearchResponseInvalid).statusCode == 500
  {
  }
}
