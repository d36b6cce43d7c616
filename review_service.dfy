/** The review service: create, read, verify, update and delete reviews over an
    in-memory places table and reviews table, keeping each place's review count
    and average rating derived from its reviews. Every store round trip of the
    source can fail; `StoreFaults` says which ones do on a given call. */
module ReviewService {
  import opened Wrappers
  import Json
  import opened ReviewErrors
  import opened ReviewSchema
  import opened Aggregate

  type PlaceId = string
  type ReviewId = string

  /** A row of the places table; `averageTenths` is `average_rating` times ten. */
  datatype Place = Place(
    id: PlaceId, name: string, address: string, category: string,
    latitude: real, longitude: real, averageTenths: int, reviewCount: int)

  /** A row of the reviews table. It holds the password's hash; the type has no
      field for the password itself. */
  datatype Review = Review(
    id: ReviewId, placeId: PlaceId, authorName: string, rating: int,
    content: string, passwordHash: string)

  /** What `createReview` returns on success. */
  datatype CreatedReview =
    CreatedReview(id: ReviewId, placeId: PlaceId, authorName: string, rating: int, content: string)

  /** What `getReviewById` returns: a review without its password hash. */
  datatype ReviewView =
    ReviewView(id: ReviewId, authorName: string, rating: int, content: string, placeId: PlaceId)

  datatype UpdatedReview = UpdatedReview(id: ReviewId, placeId: PlaceId)

  datatype DeletedReview = DeletedReview(reviewId: ReviewId, placeId: PlaceId)

  /** The password hashing collaborator: a one-way hash and its check. */
  datatype Hasher = Hasher(hash: string -> string, verify: (string, string) -> bool)

  /** `verify` accepts every password against its own hash. */
  ghost predicate Sound(h: Hasher) {
    forall p :: h.verify(p, h.hash(p))
  }

  /** Which store round trips (and the hashing call) fail during one operation. */
  datatype StoreFaults = StoreFaults(
    placeSelectFails: bool,
    placeInsertFails: bool,
    hashFails: bool,
    reviewReadFails: bool,
    reviewWriteFails: bool,
    ratingsReadFails: bool,
    placeWriteFails: bool)

  const NoFaults := StoreFaults(false, false, false, false, false, false, false)

  /** `select rating from reviews where place_id = placeId`. */
  function RatingsOf(rows: seq<Review>, placeId: PlaceId): (r: seq<int>)
    ensures |r| <= |rows|
  {
    if rows == [] then []
    else (if rows[0].placeId == placeId then [rows[0].rating] else []) + RatingsOf(rows[1..], placeId)
  }

  lemma {:induction false} RatingsOfConcat(a: seq<Review>, b: seq<Review>, placeId: PlaceId)
    ensures RatingsOf(a + b, placeId) == RatingsOf(a, placeId) + RatingsOf(b, placeId)
  {
    if a != [] {
      var head := if a[0].placeId == placeId then [a[0].rating] else [];
      assert (a + b)[0] == a[0];
      assert (a + b)[1..] == a[1..] + b;
      RatingsOfConcat(a[1..], b, placeId);
      calc {
        RatingsOf(a + b, placeId);
        head + RatingsOf(a[1..] + b, placeId);
        head + (RatingsOf(a[1..], placeId) + RatingsOf(b, placeId));
        (head + RatingsOf(a[1..], placeId)) + RatingsOf(b, placeId);
      }
    } else {
      assert a + b == b;
    }
  }

  lemma {:induction false} RatingsOfSingle(row: Review, placeId: PlaceId)
    ensures RatingsOf([row], placeId) == if row.placeId == placeId then [row.rating] else []
  {
    assert [row][1..] == [];
  }

  /** Removing row `i` removes its rating from its own place's ratings and
      leaves every other place's ratings as they were. */
  lemma {:induction false} RatingsOfRemove(rows: seq<Review>, i: nat, placeId: PlaceId)
    requires i < |rows|
    ensures var rest := RatingsOf(rows[..i] + rows[i + 1..], placeId);
      && (placeId != rows[i].placeId ==> rest == RatingsOf(rows, placeId))
      && (placeId == rows[i].placeId ==> |rest| + 1 == |RatingsOf(rows, placeId)|)
      && (placeId == rows[i].placeId ==>
            && RatingsOf(rows, placeId)
               == RatingsOf(rows[..i], placeId) + [rows[i].rating] + RatingsOf(rows[i + 1..], placeId)
            && rest == RatingsOf(rows[..i], placeId) + RatingsOf(rows[i + 1..], placeId))
  {
    var a, x, b := rows[..i], rows[i], rows[i + 1..];
    assert rows == (a + [x]) + b;
    RatingsOfConcat(a + [x], b, placeId);
    RatingsOfConcat(a, [x], placeId);
    RatingsOfConcat(a, b, placeId);
    RatingsOfSingle(x, placeId);
    var ra, rx, rb := RatingsOf(a, placeId), RatingsOf([x], placeId), RatingsOf(b, placeId);
    assert RatingsOf(rows, placeId) == ra + rx + rb;
    assert RatingsOf(a + b, placeId) == ra + rb;
  }

  /** Replacing row `i` by a row of the same place keeps the number of every
      place's ratings, and the ratings of every other place. */
  lemma {:induction false} RatingsOfReplace(rows: seq<Review>, i: nat, row: Review, placeId: PlaceId)
    requires i < |rows| && row.placeId == rows[i].placeId
    ensures |RatingsOf(rows[i := row], placeId)| == |RatingsOf(rows, placeId)|
    ensures placeId != row.placeId ==> RatingsOf(rows[i := row], placeId) == RatingsOf(rows, placeId)
  {
    var a, x, b := rows[..i], rows[i], rows[i + 1..];
    assert rows == a + [x] + b;
    assert rows[i := row] == a + [row] + b;
    RatingsOfConcat(a + [x], b, placeId);
    RatingsOfConcat(a, [x], placeId);
    RatingsOfConcat(a + [row], b, placeId);
    RatingsOfConcat(a, [row], placeId);
    RatingsOfSingle(x, placeId);
    RatingsOfSingle(row, placeId);
  }

  /** A place has no ratings exactly when no review refers to it. */
  lemma {:induction false} RatingsOfEmpty(rows: seq<Review>, placeId: PlaceId)
    ensures RatingsOf(rows, placeId) == [] <==> forall i :: 0 <= i < |rows| ==> rows[i].placeId != placeId
  {
    if rows != [] {
      RatingsOfEmpty(rows[1..], placeId);
      if rows[0].placeId != placeId {
        forall i | 0 < i < |rows| ensures rows[i] == rows[1..][i - 1] { }
      }
    }
  }

  /** Ratings taken from valid rows are valid. */
  lemma {:induction false} RatingsOfValid(rows: seq<Review>, placeId: PlaceId)
    requires forall i :: 0 <= i < |rows| ==> 1 <= rows[i].rating <= 5
    ensures AllRatingsValid(RatingsOf(rows, placeId))
  {
    if rows != [] {
      RatingsOfValid(rows[1..], placeId);
      var head := if rows[0].placeId == placeId then [rows[0].rating] else [];
      var r := RatingsOf(rows, placeId);
      assert r == head + RatingsOf(rows[1..], placeId);
      forall i | 0 <= i < |r| ensures 1 <= r[i] <= 5 {
        if i >= |head| { assert r[i] == RatingsOf(rows[1..], placeId)[i - |head|]; }
      }
    }
  }

  /** `select * from reviews where id = reviewId`: the index of the row. */
  function FindReview(rows: seq<Review>, id: ReviewId): (r: Option<nat>)
    ensures r.Some? ==> r.value < |rows| && rows[r.value].id == id
    ensures r.None? <==> forall j :: 0 <= j < |rows| ==> rows[j].id != id
  {
    if rows == [] then None
    else if rows[0].id == id then Some(0)
    else match FindReview(rows[1..], id)
      case Some(k) => Some(k + 1)
      case None => None
  }

  /** A place created for a first review: no reviews yet, average 0. */
  function NewPlace(id: PlaceId, info: PlaceInfo): (p: Place)
    ensures p.id == id && p.name == info.name && p.address == info.address && p.category == info.category
    ensures p.latitude == info.latitude && p.longitude == info.longitude
    ensures p == Aggregated(p, [])
  {
    Place(id, info.name, info.address, info.category, info.latitude, info.longitude, 0, 0)
  }

  /** The count and average a recomputation writes from a place's ratings. */
  function Aggregated(place: Place, ratings: seq<int>): (p: Place)
    ensures p.id == place.id && p.name == place.name && p.address == place.address
    ensures p.category == place.category && p.latitude == place.latitude && p.longitude == place.longitude
    ensures p.reviewCount == |ratings|
    ensures |ratings| == 0 ==> p.averageTenths == 0
    ensures |ratings| > 0 ==> p.averageTenths == JsRound(10.0 * Mean(ratings))
    ensures |ratings| > 0 && AllRatingsValid(ratings) ==> 10 <= p.averageTenths <= 50
  {
    var p := place.(reviewCount := |ratings|, averageTenths := AverageTenths(ratings));
    if |ratings| > 0 && AllRatingsValid(ratings) then RoundedMeanInRange(ratings); p else p
  }

  /** Step 1 of `createReview`: the places table once the place is found or
      created, or `None` for PLACE_NOT_FOUND. */
  function EnsurePlace(places: map<PlaceId, Place>, placeId: PlaceId, placeInfo: Option<Json.Value>,
                       faults: StoreFaults): (r: Option<map<PlaceId, Place>>)
    ensures placeId in places && !faults.placeSelectFails ==> r == Some(places)
    ensures placeId in places && faults.placeSelectFails ==> r.None?
    ensures r.Some? ==> placeId in r.value && r.value.Keys == places.Keys + {placeId}
    ensures r.Some? && placeId in places ==> r.value == places
    ensures placeId !in places ==>
      (r.Some? <==>
        && placeInfo.Some? && Json.Truthy(placeInfo.value)
        && ParsePlaceInfo(placeInfo.value).Some?
        && !faults.placeInsertFails)
    ensures placeId !in places && r.Some? ==>
      r.value == places[placeId := NewPlace(placeId, ParsePlaceInfo(placeInfo.value).value)]
  {
    if placeId in places && !faults.placeSelectFails then Some(places)
    else if placeInfo.None? || !Json.Truthy(placeInfo.value) then None
    else match ParsePlaceInfo(placeInfo.value)
      case None => None
      case Some(info) =>
        // inserting an id that is already taken fails like any other insert
        if placeId in places || faults.placeInsertFails then None
        else Some(places[placeId := NewPlace(placeId, info)])
  }

  /** Finding or creating a place twice is the same as doing it once. */
  lemma EnsurePlaceIdempotent(places: map<PlaceId, Place>, placeId: PlaceId, placeInfo: Option<Json.Value>)
    requires EnsurePlace(places, placeId, placeInfo, NoFaults).Some?
    ensures var once := EnsurePlace(places, placeId, placeInfo, NoFaults).value;
      EnsurePlace(once, placeId, placeInfo, NoFaults) == Some(once)
  {
  }

  /** Well-formed tables: unique review ids, every review's place exists, ratings
      from 1 to 5, and every place stored under its own id. */
  predicate ValidTables(places: map<PlaceId, Place>, rows: seq<Review>) {
    && (forall i, j :: 0 <= i < j < |rows| ==> rows[i].id != rows[j].id)
    && (forall i :: 0 <= i < |rows| ==> rows[i].placeId in places && 1 <= rows[i].rating <= 5)
    && (forall p :: p in places ==> places[p].id == p)
  }

  lemma {:induction false} ValidAfterNewPlace(places: map<PlaceId, Place>, rows: seq<Review>, id: PlaceId, info: PlaceInfo)
    requires ValidTables(places, rows)
    ensures ValidTables(places[id := NewPlace(id, info)], rows)
  {
  }

  lemma {:induction false} ValidAfterInsert(places: map<PlaceId, Place>, rows: seq<Review>, row: Review)
    requires ValidTables(places, rows)
    requires FindReview(rows, row.id).None? && row.placeId in places && 1 <= row.rating <= 5
    ensures ValidTables(places, rows + [row])
  {
  }

  lemma {:induction false} ValidAfterDelete(places: map<PlaceId, Place>, rows: seq<Review>, i: nat)
    requires ValidTables(places, rows) && i < |rows|
    ensures ValidTables(places, rows[..i] + rows[i + 1..])
  {
    var rows' := rows[..i] + rows[i + 1..];
    forall j | 0 <= j < |rows'| ensures rows'[j] == rows[if j < i then j else j + 1] { }
  }

  lemma {:induction false} ValidAfterRewrite(places: map<PlaceId, Place>, rows: seq<Review>, i: nat, row: Review)
    requires ValidTables(places, rows) && i < |rows|
    requires row.id == rows[i].id && row.placeId == rows[i].placeId && 1 <= row.rating <= 5
    ensures ValidTables(places, rows[i := row])
  {
  }

  lemma {:induction false} ValidAfterPlaceUpdate(places: map<PlaceId, Place>, rows: seq<Review>, p: PlaceId, place: Place)
    requires ValidTables(places, rows) && p in places && place.id == p
    ensures ValidTables(places[p := place], rows)
  {
  }

  /** The aggregate invariant: every place's count is the number of its reviews
      and its average is their mean rounded half-up to one decimal (0 if none). */
  predicate Consistent(places: map<PlaceId, Place>, rows: seq<Review>) {
    forall p :: p in places ==>
      && places[p].reviewCount == |RatingsOf(rows, p)|
      && places[p].averageTenths == AverageTenths(RatingsOf(rows, p))
  }

  /** A consistent place has a zero average with no reviews, and an average from
      1.0 to 5.0 otherwise. */
  lemma {:induction false} ConsistentAverageInRange(places: map<PlaceId, Place>, rows: seq<Review>, p: PlaceId)
    requires ValidTables(places, rows) && Consistent(places, rows) && p in places
    ensures places[p].reviewCount == 0 ==> places[p].averageTenths == 0
    ensures places[p].reviewCount > 0 ==> 10 <= places[p].averageTenths <= 50
  {
    var ratings := RatingsOf(rows, p);
    if |ratings| > 0 {
      RatingsOfValid(rows, p);
      RoundedMeanInRange(ratings);
    }
  }

  /** A new place has no reviews yet, so adding it keeps the tables consistent. */
  lemma {:induction false} ConsistentAfterNewPlace(places: map<PlaceId, Place>, rows: seq<Review>, id: PlaceId, info: PlaceInfo)
    requires ValidTables(places, rows) && Consistent(places, rows) && id !in places
    ensures Consistent(places[id := NewPlace(id, info)], rows)
  {
    RatingsOfEmpty(rows, id);
  }

  /** Appending a review and recounting its place keeps the tables consistent. */
  lemma {:induction false} ConsistentAfterInsert(places: map<PlaceId, Place>, rows: seq<Review>, row: Review)
    requires Consistent(places, rows) && row.placeId in places
    ensures var rows' := rows + [row];
      Consistent(places[row.placeId := Aggregated(places[row.placeId], RatingsOf(rows', row.placeId))], rows')
  {
    forall q | q != row.placeId ensures RatingsOf(rows + [row], q) == RatingsOf(rows, q) {
      RatingsOfConcat(rows, [row], q);
      RatingsOfSingle(row, q);
    }
  }

  /** Removing a review and recounting its place keeps the tables consistent. */
  lemma {:induction false} ConsistentAfterDelete(places: map<PlaceId, Place>, rows: seq<Review>, i: nat)
    requires Consistent(places, rows) && i < |rows| && rows[i].placeId in places
    ensures var p := rows[i].placeId; var rows' := rows[..i] + rows[i + 1..];
      Consistent(places[p := Aggregated(places[p], RatingsOf(rows', p))], rows')
  {
    forall q | q != rows[i].placeId ensures RatingsOf(rows[..i] + rows[i + 1..], q) == RatingsOf(rows, q) {
      RatingsOfRemove(rows, i, q);
    }
  }

  /** Rewriting a review in place (same place) changes no place's review count;
      recomputing the average alone keeps the tables consistent. */
  lemma {:induction false} ConsistentAfterRewrite(places: map<PlaceId, Place>, rows: seq<Review>, i: nat, row: Review)
    requires Consistent(places, rows) && i < |rows| && row.placeId == rows[i].placeId && row.placeId in places
    ensures var p := row.placeId; var rows' := rows[i := row];
      Consistent(places[p := places[p].(averageTenths := AverageTenths(RatingsOf(rows', p)))], rows')
  {
    forall q ensures |RatingsOf(rows[i := row], q)| == |RatingsOf(rows, q)|
      && (q != row.placeId ==> RatingsOf(rows[i := row], q) == RatingsOf(rows, q))
    {
      RatingsOfReplace(rows, i, row, q);
    }
  }

  /** What steps 2 and 3 of `updateReview` leave behind for row `i`, from the
      tables as they were: a failed rewrite changes nothing; after the rewrite
      only author, rating and content of that row differ, and only a full
      success rewrites the place's average. */
  predicate Rewritten(places0: map<PlaceId, Place>, reviews0: seq<Review>, i: nat, req: CreateReviewRequest,
                      faults: StoreFaults, r: Result<UpdatedReview, Kind>,
                      places1: map<PlaceId, Place>, reviews1: seq<Review>)
    requires i < |reviews0| && reviews0[i].placeId in places0
  {
    var target := reviews0[i];
    var p := target.placeId;
    && (faults.reviewWriteFails ==> r == Err(ReviewCreateError) && reviews1 == reviews0)
    && (!faults.reviewWriteFails ==>
          reviews1 == reviews0[i := target.(authorName := req.authorName, rating := req.rating, content := req.content)])
    && (!faults.reviewWriteFails && (faults.ratingsReadFails || faults.placeWriteFails) ==>
          r == Err(PlaceUpdateError))
    && (!faults.reviewWriteFails && !faults.ratingsReadFails && !faults.placeWriteFails ==>
          && r == Ok(UpdatedReview(target.id, p))
          && places1 == places0[p := places0[p].(averageTenths := AverageTenths(RatingsOf(reviews1, p)))])
    && (r.Err? ==> places1 == places0)
  }

  /** An update never touches a review's id, place or password hash, nor any
      place's review count. */
  lemma RewrittenKeepsIdentity(places0: map<PlaceId, Place>, reviews0: seq<Review>, i: nat,
                               req: CreateReviewRequest, faults: StoreFaults, r: Result<UpdatedReview, Kind>,
                               places1: map<PlaceId, Place>, reviews1: seq<Review>)
    requires i < |reviews0| && reviews0[i].placeId in places0
    requires Rewritten(places0, reviews0, i, req, faults, r, places1, reviews1)
    ensures |reviews1| == |reviews0|
    ensures forall j :: 0 <= j < |reviews1| ==>
      && reviews1[j].id == reviews0[j].id
      && reviews1[j].placeId == reviews0[j].placeId
      && reviews1[j].passwordHash == reviews0[j].passwordHash
    ensures forall q :: q in places1 ==> q in places0 && places1[q].reviewCount == places0[q].reviewCount
  {
  }

  /** The outcome of a rewrite is the same whatever password came with the
      request: the submitted password takes no part in it. */
  lemma RewriteIgnoresPassword(places0: map<PlaceId, Place>, reviews0: seq<Review>, i: nat,
                               req: CreateReviewRequest, faults: StoreFaults, r: Result<UpdatedReview, Kind>,
                               places1: map<PlaceId, Place>, reviews1: seq<Review>, pw: string)
    requires i < |reviews0| && reviews0[i].placeId in places0
    ensures Rewritten(places0, reviews0, i, req, faults, r, places1, reviews1)
        <==> Rewritten(places0, reviews0, i, req.(password := pw), faults, r, places1, reviews1)
  {
  }

  /** What steps 2 and 3 of `deleteReview` leave behind for row `i`: a failed
      delete changes nothing; after the delete the row is gone, and only a full
      success recounts its place. */
  predicate Removed(places0: map<PlaceId, Place>, reviews0: seq<Review>, i: nat, faults: StoreFaults,
                    r: Result<DeletedReview, Kind>, places1: map<PlaceId, Place>, reviews1: seq<Review>)
    requires i < |reviews0| && reviews0[i].placeId in places0
  {
    var p := reviews0[i].placeId;
    && (faults.reviewWriteFails ==> r == Err(ReviewCreateError) && reviews1 == reviews0)
    && (!faults.reviewWriteFails ==> reviews1 == reviews0[..i] + reviews0[i + 1..])
    && (!faults.reviewWriteFails && (faults.ratingsReadFails || faults.placeWriteFails) ==>
          r == Err(PlaceUpdateError))
    && (!faults.reviewWriteFails && !faults.ratingsReadFails && !faults.placeWriteFails ==>
          && r == Ok(DeletedReview(reviews0[i].id, p))
          && places1 == places0[p := Aggregated(places0[p], RatingsOf(reviews1, p))])
    && (r.Err? ==> places1 == places0)
  }

  /** With unique ids, a successful delete leaves no row with the deleted id. */
  lemma {:induction false} RemovedIdGone(places0: map<PlaceId, Place>, reviews0: seq<Review>, i: nat,
                                         faults: StoreFaults, r: Result<DeletedReview, Kind>,
                                         places1: map<PlaceId, Place>, reviews1: seq<Review>)
    requires ValidTables(places0, reviews0) && i < |reviews0|
    requires Removed(places0, reviews0, i, faults, r, places1, reviews1) && r.Ok?
    ensures forall j :: 0 <= j < |reviews1| ==> reviews1[j].id != reviews0[i].id
  {
    forall j | 0 <= j < |reviews1| ensures reviews1[j].id != reviews0[i].id {
      var k := if j < i then j else j + 1;
      assert reviews1[j] == reviews0[k];
    }
  }

  class ReviewStore {
    var places: map<PlaceId, Place>
    var reviews: seq<Review>
    const hasher: Hasher

    ghost predicate Valid()
      reads this
    {
      ValidTables(places, reviews)
    }

    constructor (hasher: Hasher)
      ensures Valid() && Consistent(places, reviews)
      ensures places == map[] && reviews == [] && this.hasher == hasher
    {
      this.places := map[];
      this.reviews := [];
      this.hasher := hasher;
    }

    /** `createReview`: validate the body, find or create the place, then hash,
        insert and recount (`InsertReview`). A failure after the place is created
        or the review inserted leaves them in the store. */
    method CreateReview(placeId: PlaceId, placeInfo: Option<Json.Value>, data: Json.Value,
                        newId: ReviewId, faults: StoreFaults)
      returns (r: Result<CreatedReview, Kind>)
      requires Valid()
      modifies this
      ensures Valid()
      ensures ParseCreateReviewRequest(data).None? ==>
        r == Err(InvalidReviewData) && places == old(places) && reviews == old(reviews)
      ensures ParseCreateReviewRequest(data).Some? && EnsurePlace(old(places), placeId, placeInfo, faults).None? ==>
        r == Err(PlaceNotFound) && places == old(places) && reviews == old(reviews)
      ensures ParseCreateReviewRequest(data).Some? && EnsurePlace(old(places), placeId, placeInfo, faults).Some? ==>
        InsertOutcome(EnsurePlace(old(places), placeId, placeInfo, faults).value, old(reviews),
                      placeId, ParseCreateReviewRequest(data).value, newId, faults, r, places, reviews)
      ensures r.Ok? ==>
        && placeId in places
        && places[placeId].reviewCount == |RatingsOf(reviews, placeId)| > 0
        && 10 <= places[placeId].averageTenths <= 50
      ensures r.Ok? && Consistent(old(places), old(reviews)) ==> Consistent(places, reviews)
    {
      var parsed := ParseCreateReviewRequest(data);
      if parsed.None? {
        return Err(InvalidReviewData);
      }

      // 1. find the place, or create it from placeInfo
      var resolved := EnsurePlace(places, placeId, placeInfo, faults);
      if resolved.None? {
        return Err(PlaceNotFound);
      }
      if placeId !in places {
        var info := ParsePlaceInfo(placeInfo.value).value;
        ValidAfterNewPlace(places, reviews, placeId, info);
        if Consistent(places, reviews) {
          ConsistentAfterNewPlace(places, reviews, placeId, info);
        }
      }
      places := resolved.value;

      // 2.-4. hash, insert, recount
      r := InsertReview(placeId, parsed.value, newId, faults);
    }

    /** What steps 2 to 4 of `createReview` leave behind, from the tables as
        step 1 left them: a hashing or insert failure changes nothing more; after
        the insert the review stays, and only a full success recounts the place. */
    ghost predicate InsertOutcome(places0: map<PlaceId, Place>, reviews0: seq<Review>, placeId: PlaceId,
                                  req: CreateReviewRequest, newId: ReviewId, faults: StoreFaults,
                                  r: Result<CreatedReview, Kind>,
                                  places1: map<PlaceId, Place>, reviews1: seq<Review>)
      requires placeId in places0
    {
      var inserted := !faults.hashFails && !faults.reviewWriteFails && FindReview(reviews0, newId).None?;
      var row := Review(newId, placeId, req.authorName, req.rating, req.content, hasher.hash(req.password));
      && (faults.hashFails ==> r == Err(PasswordHashError))
      && (!faults.hashFails && !inserted ==> r == Err(ReviewCreateError))
      && (!inserted ==> places1 == places0 && reviews1 == reviews0)
      && (inserted ==> reviews1 == reviews0 + [row])
      && (inserted && (faults.ratingsReadFails || faults.placeWriteFails) ==>
            r == Err(PlaceUpdateError) && places1 == places0)
      && (inserted && !faults.ratingsReadFails && !faults.placeWriteFails ==>
            && r == Ok(CreatedReview(newId, placeId, req.authorName, req.rating, req.content))
            && places1 == places0[placeId := Aggregated(places0[placeId], RatingsOf(reviews1, placeId))])
    }

    /** Steps 2 to 4 of `createReview` for a place that exists. */
    method InsertReview(placeId: PlaceId, req: CreateReviewRequest, newId: ReviewId, faults: StoreFaults)
      returns (r: Result<CreatedReview, Kind>)
      requires Valid() && placeId in places && 1 <= req.rating <= 5
      modifies this
      ensures Valid()
      ensures InsertOutcome(old(places), old(reviews), placeId, req, newId, faults, r, places, reviews)
      ensures r.Ok? ==>
        && placeId in places
        && places[placeId].reviewCount == |RatingsOf(reviews, placeId)| > 0
        && 10 <= places[placeId].averageTenths <= 50
      ensures r.Ok? && Consistent(old(places), old(reviews)) ==> Consistent(places, reviews)
    {
      // 2. hash the password
      if faults.hashFails {
        return Err(PasswordHashError);
      }
      var passwordHash := hasher.hash(req.password);

      // 3. insert the review; a taken id makes the insert fail
      if faults.reviewWriteFails || FindReview(reviews, newId).Some? {
        return Err(ReviewCreateError);
      }
      var row := Review(newId, placeId, req.authorName, req.rating, req.content, passwordHash);
      ValidAfterInsert(places, reviews, row);
      reviews := reviews + [row];

      // 4. recount the place from its ratings
      if faults.ratingsReadFails {
        return Err(PlaceUpdateError);
      }
      var ratings := RatingsOf(reviews, placeId);
      RatingsOfConcat(old(reviews), [row], placeId);
      RatingsOfSingle(row, placeId);
      var reviewCount := if |ratings| == 0 then 1 else |ratings|;
      var average := if |ratings| > 0 then RoundedMeanTenths(ratings) else 10 * req.rating;
      if faults.placeWriteFails {
        return Err(PlaceUpdateError);
      }
      var place := places[placeId].(reviewCount := reviewCount, averageTenths := average);
      assert place == Aggregated(places[placeId], ratings);
      ValidAfterPlaceUpdate(places, reviews, placeId, place);
      places := places[placeId := place];
      RatingsOfValid(reviews, placeId);
      RoundedMeanInRange(ratings);
      if Consistent(old(places), old(reviews)) {
        ConsistentAfterInsert(old(places), old(reviews), row);
      }
      return Ok(CreatedReview(newId, placeId, req.authorName, req.rating, req.content));
    }

    /** `verifyReviewPassword`: checks a password against the stored hash and
        changes nothing. The first row with the id is taken; `Valid()` keeps
        ids unique, so `.single()`'s refusal of duplicates never arises. */
    method VerifyReviewPassword(reviewId: ReviewId, password: string, faults: StoreFaults)
      returns (r: Outcome<Kind>)
      ensures r.Fail? ==> r.error == ReviewNotFound || r.error == InvalidPassword
      ensures r == Fail(ReviewNotFound) <==>
        faults.reviewReadFails || forall i :: 0 <= i < |reviews| ==> reviews[i].id != reviewId
      ensures r == Pass <==>
        && !faults.reviewReadFails
        && FindReview(reviews, reviewId).Some?
        && hasher.verify(password, reviews[FindReview(reviews, reviewId).value].passwordHash)
    {
      var found := FindReview(reviews, reviewId);
      if faults.reviewReadFails || found.None? {
        return Fail(ReviewNotFound);
      }
      var isValid := hasher.verify(password, reviews[found.value].passwordHash);
      if !isValid {
        return Fail(InvalidPassword);
      }
      return Pass;
    }

    /** `getReviewById`: the review's public fields, without its hash. As in
        `VerifyReviewPassword`, unique ids make the first match the only one. */
    method GetReviewById(reviewId: ReviewId, faults: StoreFaults) returns (r: Result<ReviewView, Kind>)
      ensures r.Err? ==> r.error == ReviewNotFound
      ensures r.Ok? <==> !faults.reviewReadFails && exists i :: 0 <= i < |reviews| && reviews[i].id == reviewId
      ensures r.Ok? ==>
        exists i :: && 0 <= i < |reviews| && reviews[i].id == reviewId
                    && r.value == ReviewView(reviewId, reviews[i].authorName, reviews[i].rating,
                                             reviews[i].content, reviews[i].placeId)
    {
      var found := FindReview(reviews, reviewId);
      if faults.reviewReadFails || found.None? {
        return Err(ReviewNotFound);
      }
      var row := reviews[found.value];
      return Ok(ReviewView(row.id, row.authorName, row.rating, row.content, row.placeId));
    }

    /** `updateReview`: validates the body and reads the review, then rewrites
        it and recomputes its place's average (`RewriteReview`). The submitted
        password is validated but never compared with the stored hash. */
    method UpdateReview(reviewId: ReviewId, data: Json.Value, faults: StoreFaults)
      returns (r: Result<UpdatedReview, Kind>)
      requires Valid()
      modifies this
      ensures Valid()
      ensures ParseCreateReviewRequest(data).None? ==>
        r == Err(InvalidReviewData) && places == old(places) && reviews == old(reviews)
      ensures ParseCreateReviewRequest(data).Some? && (faults.reviewReadFails || FindReview(old(reviews), reviewId).None?) ==>
        r == Err(ReviewNotFound) && places == old(places) && reviews == old(reviews)
      ensures ParseCreateReviewRequest(data).Some? && !faults.reviewReadFails && FindReview(old(reviews), reviewId).Some? ==>
        && old(reviews)[FindReview(old(reviews), reviewId).value].id == reviewId
        && Rewritten(old(places), old(reviews), FindReview(old(reviews), reviewId).value,
                     ParseCreateReviewRequest(data).value, faults, r, places, reviews)
      ensures r.Ok? && Consistent(old(places), old(reviews)) ==> Consistent(places, reviews)
    {
      var parsed := ParseCreateReviewRequest(data);
      if parsed.None? {
        return Err(InvalidReviewData);
      }

      // 1. read the review
      var found := FindReview(reviews, reviewId);
      if faults.reviewReadFails || found.None? {
        return Err(ReviewNotFound);
      }

      // 2.-3. rewrite it, recompute the average
      r := RewriteReview(found.value, parsed.value, faults);
    }

    /** Steps 2 and 3 of `updateReview` for row `i`. */
    method RewriteReview(i: nat, req: CreateReviewRequest, faults: StoreFaults)
      returns (r: Result<UpdatedReview, Kind>)
      requires Valid() && i < |reviews| && 1 <= req.rating <= 5
      modifies this
      ensures Valid()
      ensures i < |old(reviews)| && old(reviews)[i].placeId in old(places)
      ensures Rewritten(old(places), old(reviews), i, req, faults, r, places, reviews)
      ensures r.Ok? && Consistent(old(places), old(reviews)) ==> Consistent(places, reviews)
    {
      var target := reviews[i];
      if faults.reviewWriteFails {
        return Err(ReviewCreateError);
      }
      var row := target.(authorName := req.authorName, rating := req.rating, content := req.content);
      ValidAfterRewrite(places, reviews, i, row);
      reviews := reviews[i := row];

      if faults.ratingsReadFails {
        return Err(PlaceUpdateError);
      }
      var ratings := RatingsOf(reviews, target.placeId);
      var average := if |ratings| > 0 then RoundedMeanTenths(ratings) else 0;
      if faults.placeWriteFails {
        return Err(PlaceUpdateError);
      }
      ValidAfterPlaceUpdate(places, reviews, target.placeId, places[target.placeId].(averageTenths := average));
      places := places[target.placeId := places[target.placeId].(averageTenths := average)];
      if Consistent(old(places), old(reviews)) {
        ConsistentAfterRewrite(old(places), old(reviews), i, row);
      }
      return Ok(UpdatedReview(target.id, target.placeId));
    }

    /** `deleteReview`: reads the review, then removes it and recounts its
        place (`RemoveReview`). */
    method DeleteReview(reviewId: ReviewId, faults: StoreFaults) returns (r: Result<DeletedReview, Kind>)
      requires Valid()
      modifies this
      ensures Valid()
      ensures faults.reviewReadFails || FindReview(old(reviews), reviewId).None? ==>
        r == Err(ReviewNotFound) && places == old(places) && reviews == old(reviews)
      ensures !faults.reviewReadFails && FindReview(old(reviews), reviewId).Some? ==>
        && old(reviews)[FindReview(old(reviews), reviewId).value].id == reviewId
        && Removed(old(places), old(reviews), FindReview(old(reviews), reviewId).value, faults, r, places, reviews)
      ensures r.Ok? ==>
        && r.value.placeId in places
        && places[r.value.placeId].reviewCount == |RatingsOf(reviews, r.value.placeId)|
        && (places[r.value.placeId].reviewCount == 0 ==> places[r.value.placeId].averageTenths == 0)
        && (places[r.value.placeId].reviewCount > 0 ==> 10 <= places[r.value.placeId].averageTenths <= 50)
        && forall j :: 0 <= j < |reviews| ==> reviews[j].id != reviewId
      ensures r.Ok? && Consistent(old(places), old(reviews)) ==> Consistent(places, reviews)
    {
      // 1. read the review
      var found := FindReview(reviews, reviewId);
      if faults.reviewReadFails || found.None? {
        return Err(ReviewNotFound);
      }

      // 2.-3. delete it, recount its place
      r := RemoveReview(found.value, faults);
    }

    /** Steps 2 and 3 of `deleteReview` for row `i`; with no reviews left the
        count and the average are both 0. */
    method RemoveReview(i: nat, faults: StoreFaults) returns (r: Result<DeletedReview, Kind>)
      requires Valid() && i < |reviews|
      modifies this
      ensures Valid()
      ensures i < |old(reviews)| && old(reviews)[i].placeId in old(places)
      ensures Removed(old(places), old(reviews), i, faults, r, places, reviews)
      ensures r.Ok? ==>
        && r.value.placeId in places
        && places[r.value.placeId].reviewCount == |RatingsOf(reviews, r.value.placeId)|
        && (places[r.value.placeId].reviewCount == 0 ==> places[r.value.placeId].averageTenths == 0)
        && (places[r.value.placeId].reviewCount > 0 ==> 10 <= places[r.value.placeId].averageTenths <= 50)
        && forall j :: 0 <= j < |reviews| ==> reviews[j].id != r.value.reviewId
      ensures r.Ok? && Consistent(old(places), old(reviews)) ==> Consistent(places, reviews)
    {
      var id, p := reviews[i].id, reviews[i].placeId;
      if faults.reviewWriteFails {
        return Err(ReviewCreateError);
      }
      ValidAfterDelete(places, reviews, i);
      reviews := reviews[..i] + reviews[i + 1..];

      if faults.ratingsReadFails {
        return Err(PlaceUpdateError);
      }
      var remaining := RatingsOf(reviews, p);
      var reviewCount := |remaining|;
      var average := if |remaining| > 0 then RoundedMeanTenths(remaining) else 0;
      if faults.placeWriteFails {
        return Err(PlaceUpdateError);
      }
      ValidAfterPlaceUpdate(places, reviews, p, places[p].(reviewCount := reviewCount, averageTenths := average));
      places := places[p := places[p].(reviewCount := reviewCount, averageTenths := average)];
      if |remaining| > 0 {
        RatingsOfValid(reviews, p);
        RoundedMeanInRange(remaining);
      }
      if Consistent(old(places), old(reviews)) {
        ConsistentAfterDelete(old(places), old(reviews), i);
      }
      r := Ok(DeletedReview(id, p));
      RemovedIdGone(old(places), old(reviews), i, faults, r, places, reviews);
    }
  }
}
