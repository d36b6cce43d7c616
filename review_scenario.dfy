/** The review lifecycle of one place, end to end through the store: two
    reviews created, one deleted, the other re-rated, and a wrong password
    refused. */
module ReviewScenario {
  import opened Wrappers
  import opened ReviewErrors
  import opened ReviewSchema
  import opened ReviewService
  import opened Aggregate

  /** The store holds exactly `rows`, place "p" included and every place's
      count and average derived from them. */
  ghost predicate Holds(store: ReviewStore, rows: seq<Review>)
    reads store
  {
    store.Valid() && "p" in store.places && store.reviews == rows && Consistent(store.places, store.reviews)
  }

  /** Review A, 5 stars, for place "p", which is created from its details. */
  method CreateFirst(store: ReviewStore)
    requires store.Valid() && store.places == map[] && store.reviews == []
    modifies store
    ensures Holds(store, [Review("a", "p", "A", 5, "good", store.hasher.hash("1234"))])
    ensures store.places["p"].reviewCount == 1 && store.places["p"].averageTenths == 50
  {
    var info := PlaceInfo("Cafe", "Seoul", "cafe", 37.5, 127.0);
    PlaceInfoRoundTrip(info);
    var a := CreateReviewRequest("A", 5, "good", "1234");
    RequestRoundTrip(a);
    var r := store.CreateReview("p", Some(PlaceInfoToJson(info)), RequestToJson(a), "a", NoFaults);
    assert RatingsOf(store.reviews, "p") == [5];
    assert Sum([5]) == 5 && AverageTenths([5]) == 50;
  }

  /** Review B, 3 stars, for the now stored place "p", without its details. */
  method CreateSecond(store: ReviewStore, rowA: Review)
    requires Holds(store, [rowA]) && rowA.id == "a" && rowA.placeId == "p" && rowA.rating == 5
    modifies store
    ensures Holds(store, [rowA, Review("b", "p", "B", 3, "fine", store.hasher.hash("1234"))])
    ensures store.places["p"].reviewCount == 2 && store.places["p"].averageTenths == 40
  {
    var b := CreateReviewRequest("B", 3, "fine", "1234");
    RequestRoundTrip(b);
    var r := store.CreateReview("p", None, RequestToJson(b), "b", NoFaults);
    assert RatingsOf(store.reviews, "p") == [5, 3];
    assert Sum([5, 3]) == 8 && AverageTenths([5, 3]) == 40;
  }

  /** Review A deleted. */
  method DeleteFirst(store: ReviewStore, rowA: Review, rowB: Review)
    requires Holds(store, [rowA, rowB]) && rowA.id == "a" && rowB.placeId == "p" && rowB.rating == 3
    modifies store
    ensures Holds(store, [rowB])
    ensures store.places["p"].reviewCount == 1 && store.places["p"].averageTenths == 30
  {
    var r := store.DeleteReview("a", NoFaults);
    assert store.reviews == [rowB];
    assert RatingsOf(store.reviews, "p") == [3];
    assert Sum([3]) == 3 && AverageTenths([3]) == 30;
  }

  /** Review B re-rated to 1 star. */
  method RerateSecond(store: ReviewStore, rowB: Review)
    requires Holds(store, [rowB]) && rowB.id == "b" && rowB.placeId == "p"
    modifies store
    ensures Holds(store, [rowB.(authorName := "B", rating := 1, content := "fine")])
    ensures store.places["p"].reviewCount == 1 && store.places["p"].averageTenths == 10
  {
    var c := CreateReviewRequest("B", 1, "fine", "1234");
    RequestRoundTrip(c);
    var r := store.UpdateReview("b", RequestToJson(c), NoFaults);
    assert RatingsOf(store.reviews, "p") == [1];
    assert Sum([1]) == 1 && AverageTenths([1]) == 10;
  }

  /** B's author types the right password, then a wrong one. */
  method CheckPasswords(store: ReviewStore, rowB: Review) returns (right: Outcome<Kind>, wrong: Outcome<Kind>)
    requires Holds(store, [rowB]) && rowB.id == "b" && rowB.passwordHash == store.hasher.hash("1234")
    requires Sound(store.hasher) && !store.hasher.verify("9999", store.hasher.hash("1234"))
    ensures right == Pass && wrong == Fail(InvalidPassword)
  {
    right := store.VerifyReviewPassword("b", "1234", NoFaults);
    wrong := store.VerifyReviewPassword("b", "9999", NoFaults);
  }

  /** Reviews A (5 stars, on a place not yet stored) and B (3 stars), then A
      deleted, then B re-rated to 1: the place's count and average after each
      step, and the answers to B's author typing the right and a wrong password. */
  method Lifecycle(h: Hasher)
    returns (counts: seq<int>, averages: seq<int>, rightPassword: Outcome<Kind>, wrongPassword: Outcome<Kind>)
    requires Sound(h) && !h.verify("9999", h.hash("1234"))
    ensures counts == [1, 2, 1, 1]
    ensures averages == [50, 40, 30, 10]
    ensures rightPassword == Pass && wrongPassword == Fail(InvalidPassword)
  {
    var store := new ReviewStore(h);
    var rowA := Review("a", "p", "A", 5, "good", h.hash("1234"));
    var rowB := Review("b", "p", "B", 3, "fine", h.hash("1234"));
    CreateFirst(store);
    var c1, a1 := store.places["p"].reviewCount, store.places["p"].averageTenths;
    CreateSecond(store, rowA);
    var c2, a2 := store.places["p"].reviewCount, store.places["p"].averageTenths;
    DeleteFirst(store, rowA, rowB);
    var c3, a3 := store.places["p"].reviewCount, store.places["p"].averageTenths;
    RerateSecond(store, rowB);
    counts := [c1, c2, c3, store.places["p"].reviewCount];
    averages := [a1, a2, a3, store.places["p"].averageTenths];
    rightPassword, wrongPassword := CheckPasswords(store, rowB.(authorName := "B", rating := 1, content := "fine"));
  }
}
