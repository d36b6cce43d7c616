/** The review feature's error table: each kind of failure with its code,
    its message and the HTTP status the route answers with. */
module ReviewErrors {

  datatype Kind =
    | InvalidReviewData
    | PlaceNotFound
    | ReviewCreateError
    | PasswordHashError
    | PlaceUpdateError
    | ReviewNotFound
    | InvalidPassword

  datatype Entry = Entry(code: string, message: string, statusCode: int)

  /** The key under which each kind is stored in the table. */
  function Key(k: Kind): string {
    match k
    case InvalidReviewData => "INVALID_REVIEW_DATA"
    case PlaceNotFound => "PLACE_NOT_FOUND"
    case ReviewCreateError => "REVIEW_CREATE_ERROR"
    case PasswordHashError => "PASSWORD_HASH_ERROR"
    case PlaceUpdateError => "PLACE_UPDATE_ERROR"
    case ReviewNotFound => "REVIEW_NOT_FOUND"
    case InvalidPassword => "INVALID_PASSWORD"
  }

  const Table: map<string, Entry> := map[
    "INVALID_REVIEW_DATA" := Entry("INVALID_REVIEW_DATA", "리뷰 데이터가 유효하지 않습니다", 400),
    "PLACE_NOT_FOUND" := Entry("PLACE_NOT_FOUND", "해당 장소를 찾을 수 없습니다", 404),
    "REVIEW_CREATE_ERROR" := Entry("REVIEW_CREATE_ERROR", "리뷰 작성 중 오류가 발생했습니다", 500),
    "PASSWORD_HASH_ERROR" := Entry("PASSWORD_HASH_ERROR", "비밀번호 처리 중 오류가 발생했습니다", 500),
    "PLACE_UPDATE_ERROR" := Entry("PLACE_UPDATE_ERROR", "장소 정보 업데이트 중 오류가 발생했습니다", 500),
    "REVIEW_NOT_FOUND" := Entry("REVIEW_NOT_FOUND", "해당 리뷰를 찾을 수 없습니다", 404),
    "INVALID_PASSWORD" := Entry("INVALID_PASSWORD", "비밀번호가 일치하지 않습니다", 401)
  ]

  /** The table entry an operation returns for a failure of kind `k`. */
  function EntryOf(k: Kind): (e: Entry)
    ensures Key(k) in Table && e == Table[Key(k)]
  {
    Table[Key(k)]
  }

  /** The table has exactly one key per kind, and every entry's code is its key. */
  lemma CodesAreKeys()
    ensures forall key :: key in Table ==> Table[key].code == key
    ensures forall key :: key in Table <==> exists k :: Key(k) == key
    ensures forall k, k' :: Key(k) == Key(k') ==> k == k'
  {
    forall key | key in Table ensures exists k :: Key(k) == key {
      if key == "INVALID_REVIEW_DATA" { assert Key(InvalidReviewData) == key; }
      else if key == "PLACE_NOT_FOUND" { assert Key(PlaceNotFound) == key; }
      else if key == "REVIEW_CREATE_ERROR" { assert Key(ReviewCreateError) == key; }
      else if key == "PASSWORD_HASH_ERROR" { assert Key(PasswordHashError) == key; }
      else if key == "PLACE_UPDATE_ERROR" { assert Key(PlaceUpdateError) == key; }
      else if key == "REVIEW_NOT_FOUND" { assert Key(ReviewNotFound) == key; }
      else { assert Key(InvalidPassword) == key; }
    }
  }

  /** Validation failures are client errors (400). */
  lemma InvalidDataIsBadRequest()
    ensures EntryOf(InvalidReviewData).statusCode == 400
  {
  }

  /** A missing place or review is 404; a wrong password is 401. */
  lemma NotFoundAndUnauthorized()
    ensures EntryOf(PlaceNotFound).statusCode == 404
    ensures EntryOf(ReviewNotFound).statusCode == 404
    ensures EntryOf(InvalidPassword).statusCode == 401
  {
  }

  /** Store and hashing failures are server errors (500). */
  lemma ServerErrors()
    ensures EntryOf(ReviewCreateError).statusCode == 500
    ensures EntryOf(PasswordHashError).statusCode == 500
    ensures EntryOf(PlaceUpdateError).statusCode == 500
  {
  }
}
