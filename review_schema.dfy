/** The review request validators: the body of a create or update request and
    the descriptive fields of a place submitted with a first review. */
module ReviewSchema {
  import opened Wrappers
  import Json

  /** A validated create/update request body. */
  datatype CreateReviewRequest =
    CreateReviewRequest(authorName: string, rating: int, content: string, password: string)

  /** Validated descriptive fields of a place not yet in the store. */
  datatype PlaceInfo =
    PlaceInfo(name: string, address: string, category: string, latitude: real, longitude: real)

  /** `Number.isInteger` on a finite number. */
  predicate IsInteger(x: real) {
    x.Floor as real == x
  }

  /** A string field whose length lies in `lo..hi`. */
  function BoundedString(data: Json.Value, key: string, lo: nat, hi: nat): Option<string> {
    match Json.StringField(data, key)
    case Some(s) => if lo <= |s| <= hi then Some(s) else None
    case None => None
  }

  /** The rating field: an integral number from 1 to 5. */
  function RatingField(data: Json.Value): Option<int> {
    match Json.NumberField(data, "rating")
    case Some(x) => if IsInteger(x) && 1.0 <= x <= 5.0 then Some(x.Floor) else None
    case None => None
  }

  /** `CreateReviewRequestSchema.safeParse`: an object whose authorName,
      rating, content and password fields all pass; other keys are dropped. */
  function ParseCreateReviewRequest(data: Json.Value): (r: Option<CreateReviewRequest>)
    ensures r.Some? <==>
      && Json.StringField(data, "authorName").Some?
      && 1 <= |Json.StringField(data, "authorName").value| <= 50
      && Json.NumberField(data, "rating").Some?
      && IsInteger(Json.NumberField(data, "rating").value)
      && 1.0 <= Json.NumberField(data, "rating").value <= 5.0
      && Json.StringField(data, "content").Some?
      && 1 <= |Json.StringField(data, "content").value| <= 1000
      && Json.StringField(data, "password").Some?
      && 4 <= |Json.StringField(data, "password").value| <= 100
    ensures r.Some? ==> 1 <= |r.value.authorName| <= 50
    ensures r.Some? ==> 1 <= r.value.rating <= 5
    ensures r.Some? ==> 1 <= |r.value.content| <= 1000
    ensures r.Some? ==> 4 <= |r.value.password| <= 100
    ensures r.Some? ==>
      && Json.StringField(data, "authorName") == Some(r.value.authorName)
      && Json.NumberField(data, "rating") == Some(r.value.rating as real)
      && Json.StringField(data, "content") == Some(r.value.content)
      && Json.StringField(data, "password") == Some(r.value.password)
  {
    var authorName := BoundedString(data, "authorName", 1, 50);
    var rating := RatingField(data);
    var content := BoundedString(data, "content", 1, 1000);
    var password := BoundedString(data, "password", 4, 100);
    if authorName.Some? && rating.Some? && content.Some? && password.Some? then
      Some(CreateReviewRequest(authorName.value, rating.value, content.value, password.value))
    else
      None
  }

  /** `PlaceInfoSchema.safeParse`: three strings (possibly empty) and two numbers. */
  function ParsePlaceInfo(data: Json.Value): (r: Option<PlaceInfo>)
    ensures r.Some? <==>
      && Json.StringField(data, "name").Some?
      && Json.StringField(data, "address").Some?
      && Json.StringField(data, "category").Some?
      && Json.NumberField(data, "latitude").Some?
      && Json.NumberField(data, "longitude").Some?
    ensures r.Some? ==>
      && Json.StringField(data, "name") == Some(r.value.name)
      && Json.StringField(data, "address") == Some(r.value.address)
      && Json.StringField(data, "category") == Some(r.value.category)
      && Json.NumberField(data, "latitude") == Some(r.value.latitude)
      && Json.NumberField(data, "longitude") == Some(r.value.longitude)
  {
    var name := Json.StringField(data, "name");
    var address := Json.StringField(data, "address");
    var category := Json.StringField(data, "category");
    var latitude := Json.NumberField(data, "latitude");
    var longitude := Json.NumberField(data, "longitude");
    if name.Some? && address.Some? && category.Some? && latitude.Some? && longitude.Some? then
      Some(PlaceInfo(name.value, address.value, category.value, latitude.value, longitude.value))
    else
      None
  }

  /** The JSON body a client sends for a request. */
  function RequestToJson(req: CreateReviewRequest): Json.Value {
    Json.Object(map[
      "authorName" := Json.Str(req.authorName),
      "rating" := Json.Number(req.rating as real),
      "content" := Json.Str(req.content),
      "password" := Json.Str(req.password)])
  }

  /** The JSON object a client sends for a place. */
  function PlaceInfoToJson(info: PlaceInfo): Json.Value {
    Json.Object(map[
      "name" := Json.Str(info.name),
      "address" := Json.Str(info.address),
      "category" := Json.Str(info.category),
      "latitude" := Json.Number(info.latitude),
      "longitude" := Json.Number(info.longitude)])
  }

  /** A request survives encoding and validation exactly when every field is
      within its bounds, and then it comes back unchanged. */
  lemma RequestRoundTrip(req: CreateReviewRequest)
    ensures ParseCreateReviewRequest(RequestToJson(req)) == Some(req) <==>
      && 1 <= |req.authorName| <= 50
      && 1 <= req.rating <= 5
      && 1 <= |req.content| <= 1000
      && 4 <= |req.password| <= 100
    ensures ParseCreateReviewRequest(RequestToJson(req)).None? <==>
      !(&& 1 <= |req.authorName| <= 50
        && 1 <= req.rating <= 5
        && 1 <= |req.content| <= 1000
        && 4 <= |req.password| <= 100)
  {
    var data := RequestToJson(req);
    assert RatingField(data) == if 1 <= req.rating <= 5 then Some(req.rating) else None by {
      assert IsInteger(req.rating as real);
    }
  }

  /** A rating that is a number but not an integer is refused, however the
      other fields look. */
  lemma FractionalRatingRefused(data: Json.Value)
    requires data.Object? && "rating" in data.fields && data.fields["rating"].Number?
    requires !IsInteger(data.fields["rating"].n)
    ensures ParseCreateReviewRequest(data).None?
  {
    assert RatingField(data).None?;
  }

  /** Every place info survives encoding and validation, empty strings included. */
  lemma PlaceInfoRoundTrip(info: PlaceInfo)
    ensures ParsePlaceInfo(PlaceInfoToJson(info)) == Some(info)
  {
  }
}
