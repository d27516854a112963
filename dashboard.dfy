/** The dashboard of the Next.js client: what `fetchData` makes of the
    `/reviews/`, `/recommendations/` and `/places/` responses (the user's
    reviews and places, the recommendations, the newest-first activity
    feed), the review total and the default tab. */
module Dashboard {
  import opened Common
  import opened Sorting
  import opened Parsing
  import opened Js
  import opened ApiClient

  /** The signed-in user as the page sees it; `userType` is the raw string. */
  datatype CurrentUser = CurrentUser(id: nat, userType: string)

  /** The fields of a review from `/reviews/` the page reads; `createdAt`
      is the time `new Date(created_at)` denotes, in milliseconds. `place`
      is `None` when the key is missing, so that `r.place` is `undefined`. */
  datatype ApiReview = ApiReview(id: nat, user: nat, place: Option<nat>, placeName: Option<string>, createdAt: int)

  /** A review as the backend renders it: ReviewSerializer declares `place`
      write-only (wheel/serializers.py:174-176), so the key is never sent. */
  predicate FromBackend(r: ApiReview)
  {
    r.place.None?
  }

  /** The fields of a place the page reads; `owner` is the owner's id. */
  datatype ApiPlace = ApiPlace(id: nat, owner: Option<nat>, reviewCount: Option<nat>, createdAt: int)

  /** A response body: `null` (or any falsy value), an array, an object
      with `results`, or any other value. */
  datatype Json<T> = JsonNull | JsonArray(items: seq<T>) | JsonPaged(results: seq<T>) | JsonOther

  /** `{id, name}`; `id` is `None` for `undefined`. */
  datatype PlaceRef = PlaceRef(id: Option<nat>, name: string)

  /** A review of the user's, its place number replaced by `{id, name}`. */
  datatype DashboardReview = DashboardReview(source: ApiReview, place: PlaceRef)

  /** `${r.place}`: the id in decimal, or "undefined". */
  function PlaceText(place: Option<nat>): string
  {
    if place.Some? then NatToDecimal(place.value) else "undefined"
  }

  /** `r.place_name || \`Place #${r.place}\`` */
  function PlaceLabel(r: ApiReview): string
  {
    if r.placeName.Some? && r.placeName.value != "" then r.placeName.value
    else "Place #" + PlaceText(r.place)
  }

  /** The label is the place's name when it has a non-empty one. Otherwise
      it is "Place #" followed by the place id in decimal, which reads back
      as that id, or by "undefined" when the review carries no place. */
  lemma PlaceLabelNamesPlace(r: ApiReview)
    ensures r.placeName.Some? && r.placeName.value != "" ==> PlaceLabel(r) == r.placeName.value
    ensures !(r.placeName.Some? && r.placeName.value != "") && r.place.Some? ==>
              var s := PlaceLabel(r);
              |s| > 7 && s[..7] == "Place #" && AllDigits(s[7..], 10) && DigitsValue(s[7..], 10) == r.place.value
    ensures !(r.placeName.Some? && r.placeName.value != "") && r.place.None? ==> PlaceLabel(r) == "Place #undefined"
  {
    if !(r.placeName.Some? && r.placeName.value != "") && r.place.Some? {
      var s := PlaceLabel(r);
      assert s[7..] == NatToDecimal(r.place.value);
      DecimalRoundTrip(r.place.value);
    }
  }

  function ToDashboard(r: ApiReview): DashboardReview
  {
    DashboardReview(r, PlaceRef(r.place, PlaceLabel(r)))
  }

  /** `myReviews`: the reviews written by `uid`, in response order, each
      with its place reference. */
  function MyReviews(all: seq<ApiReview>, uid: nat): (r: seq<DashboardReview>)
    ensures |r| <= |all|
    ensures forall d :: d in r ==> d.source in all && d.source.user == uid
                                   && d.place == PlaceRef(d.source.place, PlaceLabel(d.source))
    ensures forall x :: x in all && x.user == uid ==> ToDashboard(x) in r
    decreases |all|
  {
    if all == [] then []
    else
      var rest := MyReviews(all[1..], uid);
      assert forall x :: x in all[1..] ==> x in all;
      assert forall x :: x in all ==> x == all[0] || x in all[1..];
      (if all[0].user == uid then [ToDashboard(all[0])] else []) + rest
  }

  /** One step of `MyReviews`. */
  lemma MyReviewsCons(all: seq<ApiReview>, uid: nat)
    requires all != []
    ensures MyReviews(all, uid) == (if all[0].user == uid then [ToDashboard(all[0])] else []) + MyReviews(all[1..], uid)
  {
  }

  /** For the reviews the backend sends, every place reference has an
      undefined id, and its name is the place name, or "Place #undefined"
      when that is missing or empty. */
  lemma BackendReviewsHaveNoPlaceId(all: seq<ApiReview>, uid: nat)
    requires forall x :: x in all ==> FromBackend(x)
    ensures forall d :: d in MyReviews(all, uid) ==>
              && d.place.id.None?
              && d.place.name == if d.source.placeName.Some? && d.source.placeName.value != "" then d.source.placeName.value
                                 else "Place #undefined"
  {
  }

  /** The filter keeps the response order. */
  lemma {:induction false} MyReviewsKeepOrder(a: seq<ApiReview>, b: seq<ApiReview>, uid: nat)
    ensures MyReviews(a + b, uid) == MyReviews(a, uid) + MyReviews(b, uid)
    decreases |a|
  {
    if a == [] {
      assert a + b == b;
    } else {
      var t := a + b;
      assert t[0] == a[0] && t[1..] == a[1..] + b;
      MyReviewsCons(t, uid);
      MyReviewsCons(a, uid);
      MyReviewsKeepOrder(a[1..], b, uid);
    }
  }

  /** The recommendations of a seeker: an array as it is, the `results` of
      a paginated object, and nothing for anything else. */
  function Recommendations(body: Json<ApiPlace>): (r: seq<ApiPlace>)
    ensures body.JsonArray? ==> r == body.items
    ensures body.JsonPaged? ==> r == body.results
    ensures body.JsonNull? || body.JsonOther? ==> r == []
  {
    match body
    case JsonArray(items) => items
    case JsonPaged(results) => results
    case _ => []
  }

  /** `place.owner?.id === user.id` */
  predicate OwnedBy(p: ApiPlace, uid: nat)
  {
    p.owner == Some(uid)
  }

  /** `myPlaces`: the places owned by `uid`, in response order. */
  function MyPlaces(all: seq<ApiPlace>, uid: nat): (r: seq<ApiPlace>)
    ensures forall p :: p in r <==> p in all && p.owner == Some(uid)
    ensures forall p :: multiset(r)[p] == if p.owner == Some(uid) then multiset(all)[p] else 0
  {
    Filter(all, (p: ApiPlace) => OwnedBy(p, uid))
  }

  /** An entry of the activity feed, with the time it is sorted by. */
  datatype Activity = ReviewActivity(review: DashboardReview, date: int)
                    | PlaceActivity(place: ApiPlace, date: int)

  /** The feed's comparator `b.date - a.date`: newer entries first. */
  predicate NewerFirst(a: Activity, b: Activity)
  {
    a.date >= b.date
  }

  lemma NewerFirstIsTotalPreorder()
    ensures IsTotalPreorder(NewerFirst)
  {
  }

  function ReviewActivities(rs: seq<DashboardReview>): (r: seq<Activity>)
    ensures |r| == |rs|
    ensures forall i :: 0 <= i < |rs| ==> r[i] == ReviewActivity(rs[i], rs[i].source.createdAt)
  {
    seq(|rs|, i requires 0 <= i < |rs| => ReviewActivity(rs[i], rs[i].source.createdAt))
  }

  function PlaceActivities(ps: seq<ApiPlace>): (r: seq<Activity>)
    ensures |r| == |ps|
    ensures forall i :: 0 <= i < |ps| ==> r[i] == PlaceActivity(ps[i], ps[i].createdAt)
  {
    seq(|ps|, i requires 0 <= i < |ps| => PlaceActivity(ps[i], ps[i].createdAt))
  }

  /** The activity feed: every review and every place exactly once,
      newest first. */
  function Activities(rs: seq<DashboardReview>, ps: seq<ApiPlace>): (r: seq<Activity>)
    ensures Sorted(r, NewerFirst)
    ensures multiset(r) == multiset(ReviewActivities(rs) + PlaceActivities(ps))
    ensures |r| == |rs| + |ps|
  {
    NewerFirstIsTotalPreorder();
    Sort(ReviewActivities(rs) + PlaceActivities(ps), NewerFirst)
  }

  /** Sorting neither adds nor drops an entry of the feed. */
  lemma ActivitiesMembers(rs: seq<DashboardReview>, ps: seq<ApiPlace>)
    ensures forall a :: a in Activities(rs, ps) <==> a in ReviewActivities(rs) || a in PlaceActivities(ps)
  {
    var all := ReviewActivities(rs) + PlaceActivities(ps);
    var r := Activities(rs, ps);
    forall a ensures a in r <==> a in all {
      assert a in r <==> a in multiset(r);
      assert a in all <==> a in multiset(all);
    }
  }

  /** Each of the user's reviews and places appears in the feed, and nothing else does. */
  lemma ActivitiesExact(rs: seq<DashboardReview>, ps: seq<ApiPlace>)
    ensures forall i :: 0 <= i < |rs| ==> ReviewActivity(rs[i], rs[i].source.createdAt) in Activities(rs, ps)
    ensures forall i :: 0 <= i < |ps| ==> PlaceActivity(ps[i], ps[i].createdAt) in Activities(rs, ps)
    ensures forall a :: a in Activities(rs, ps) ==>
              (a.ReviewActivity? && a.review in rs && a.date == a.review.source.createdAt)
              || (a.PlaceActivity? && a.place in ps && a.date == a.place.createdAt)
  {
    ActivitiesMembers(rs, ps);
    var reviews := ReviewActivities(rs);
    var places := PlaceActivities(ps);
    forall i | 0 <= i < |rs| ensures ReviewActivity(rs[i], rs[i].source.createdAt) in Activities(rs, ps) {
      assert reviews[i] in reviews;
    }
    forall i | 0 <= i < |ps| ensures PlaceActivity(ps[i], ps[i].createdAt) in Activities(rs, ps) {
      assert places[i] in places;
    }
    forall a | a in Activities(rs, ps)
      ensures (a.ReviewActivity? && a.review in rs && a.date == a.review.source.createdAt)
              || (a.PlaceActivity? && a.place in ps && a.date == a.place.createdAt)
    {
      if a in reviews {
        var k :| 0 <= k < |reviews| && reviews[k] == a;
        assert rs[k] in rs;
      } else {
        var k :| 0 <= k < |places| && places[k] == a;
        assert ps[k] in ps;
      }
    }
  }

  /** What one run of `fetchData` computes. */
  datatype Data = Data(reviews: seq<DashboardReview>, places: seq<ApiPlace>,
                       recommendations: seq<ApiPlace>, activities: seq<Activity>)

  /** The processing of the two responses; `None` where it throws a
      `TypeError` (`results` missing from the reviews, or from the places of
      a provider). Only seekers and providers use the second response. */
  function Process(user: CurrentUser, reviews: Json<ApiReview>, other: Json<ApiPlace>): (r: Option<Data>)
    ensures r.None? <==> !reviews.JsonPaged? || (user.userType == "provider" && (other.JsonArray? || other.JsonOther?))
    ensures r.Some? ==> r.value.reviews == MyReviews(reviews.results, user.id)
    ensures r.Some? && user.userType == "seeker" ==>
              r.value.places == [] && r.value.recommendations == Recommendations(other)
    ensures r.Some? && user.userType == "provider" ==>
              r.value.recommendations == [] && r.value.places == (if other.JsonPaged? then MyPlaces(other.results, user.id) else [])
    ensures r.Some? && user.userType != "seeker" && user.userType != "provider" ==>
              r.value.places == [] && r.value.recommendations == []
    ensures r.Some? ==> r.value.activities == Activities(r.value.reviews, r.value.places)
  {
    if !reviews.JsonPaged? then None
    else
      var mine := MyReviews(reviews.results, user.id);
      if user.userType == "seeker" && !other.JsonNull? then
        Some(Data(mine, [], Recommendations(other), Activities(mine, [])))
      else if user.userType == "provider" && !other.JsonNull? then
        if other.JsonPaged? then
          var places := MyPlaces(other.results, user.id);
          Some(Data(mine, places, [], Activities(mine, places)))
        else None
      else
        Some(Data(mine, [], [], Activities(mine, [])))
  }

  /** `myPlaces.reduce((total, place) => total + (place.review_count ?? 0), 0)` */
  function TotalReviewsReceived(places: seq<ApiPlace>): (n: nat)
    ensures forall p :: p in places && p.reviewCount.Some? ==> n >= p.reviewCount.value
    decreases |places|
  {
    if places == [] then 0
    else
      assert forall p :: p in places ==> p == places[0] || p in places[1..];
      (if places[0].reviewCount.Some? then places[0].reviewCount.value else 0) + TotalReviewsReceived(places[1..])
  }

  /** The total adds up over any split of the list; places without a count add nothing. */
  lemma {:induction false} TotalReviewsAppend(a: seq<ApiPlace>, b: seq<ApiPlace>)
    ensures TotalReviewsReceived(a + b) == TotalReviewsReceived(a) + TotalReviewsReceived(b)
    decreases |a|
  {
    if a == [] {
      assert a + b == b;
    } else {
      assert (a + b)[0] == a[0];
      assert (a + b)[1..] == a[1..] + b;
      TotalReviewsAppend(a[1..], b);
    }
  }

  /** One place contributes its own count, or nothing without one; so
      appending a place adds exactly its count to the total. */
  lemma TotalReviewsSnoc(a: seq<ApiPlace>, p: ApiPlace)
    ensures TotalReviewsReceived([p]) == if p.reviewCount.Some? then p.reviewCount.value else 0
    ensures TotalReviewsReceived(a + [p]) == TotalReviewsReceived(a) + TotalReviewsReceived([p])
  {
    TotalReviewsAppend(a, [p]);
  }

  /** The tab shown first: a provider's places, everyone else's recommendations. */
  function DefaultTab(userType: string): (t: string)
    ensures t == "places" <==> userType == "provider"
    ensures t == "places" || t == "recommendations"
  {
    if userType == "provider" then "places" else "recommendations"
  }

  /** The message shown for a failed load: `err.response.data.detail` when
      it is set, else the error's message, with a network error reworded,
      else the page's fallback. `err.response.data` is the body's own `data`
      entry, a flat value with no `detail`, so the message decides. */
  function FailureMessage(c: Caught): (r: string)
    ensures r != ""
    ensures c.message != "" && !Includes(c.message, "Network Error") ==> r == c.message
    ensures c.message != "" && Includes(c.message, "Network Error") ==> r == "Network connection issue."
    ensures c.message == "" ==> r == "Failed to load dashboard data."
  {
    if c.message != "" then
      if Includes(c.message, "Network Error") then "Network connection issue." else c.message
    else "Failed to load dashboard data."
  }

  /** A refusal with a `detail` (an expired token, a missing permission) is
      shown as that detail. */
  lemma DetailShown(status: nat, statusText: string, detail: string)
    requires detail != "" && !Includes(detail, "Network Error")
    ensures FailureMessage(Thrown(HttpError(status, statusText, ObjectBody(map["detail" := Text(detail)])))) == detail
  {
  }

  /** Field errors without a `detail` are shown as the status only. */
  lemma FieldErrorsShowStatus(status: nat, statusText: string, fields: map<string, ErrorValue>)
    requires "detail" !in fields
    ensures FailureMessage(Thrown(HttpError(status, statusText, ObjectBody(fields))))
            == "Request failed with status " + NatToDecimal(status)
  {
    StatusNotNetwork(status);
  }

  lemma StatusNotNetwork(status: nat)
    ensures !Includes("Request failed with status " + NatToDecimal(status), "Network Error")
  {
    var s := "Request failed with status " + NatToDecimal(status);
    MissingFirstNotIncluded(s, "Network Error");
  }

  datatype Fetch<T> = Fetched(body: Json<T>) | Failed(error: ClientError)

  /** The second request: places for seekers and providers, nothing for
      anyone else. */
  function Second(user: CurrentUser, other: Fetch<ApiPlace>): Fetch<ApiPlace>
  {
    if user.userType == "seeker" || user.userType == "provider" then other else Fetched(JsonNull)
  }

  /** What one `fetchData` ends in. The second request is made only for
      seekers and providers; a rejected request (the reviews' first) or a
      `TypeError` in the processing, whose message is `typeError`, gives the
      message shown; otherwise the lists are what `Process` computes. */
  function Load(user: CurrentUser, reviews: Fetch<ApiReview>, other: Fetch<ApiPlace>, typeError: string): (r: Result<Data, string>)
    ensures r.Err? ==> r.error != ""
    ensures reviews.Failed? ==> r == Err(FailureMessage(Thrown(reviews.error)))
    ensures reviews.Fetched? && Second(user, other).Failed? ==> r == Err(FailureMessage(Thrown(Second(user, other).error)))
    ensures r.Ok? <==> reviews.Fetched? && Second(user, other).Fetched?
                       && Process(user, reviews.body, Second(user, other).body).Some?
    ensures r.Ok? ==> Some(r.value) == Process(user, reviews.body, Second(user, other).body)
    ensures r.Err? && reviews.Fetched? && Second(user, other).Fetched? ==>
              r.error == FailureMessage(Caught(None, typeError))
  {
    var o := Second(user, other);
    if reviews.Failed? then Err(FailureMessage(Thrown(reviews.error)))
    else if o.Failed? then Err(FailureMessage(Thrown(o.error)))
    else match Process(user, reviews.body, o.body)
      case None => Err(FailureMessage(Caught(None, typeError)))
      case Some(d) => Ok(d)
  }

  /** The page's state. */
  class Page {
    var loading: bool
    var error: Option<string>
    var myPlaces: seq<ApiPlace>
    var myReviews: seq<DashboardReview>
    var recommendations: seq<ApiPlace>
    var activities: seq<Activity>

    constructor ()
      ensures loading && error == None
      ensures myPlaces == [] && myReviews == [] && recommendations == [] && activities == []
    {
      loading := true;
      error := None;
      myPlaces := [];
      myReviews := [];
      recommendations := [];
      activities := [];
    }

    /** Shows `message` and empties all four lists, as the `catch` block does. */
    method Clear(message: string)
      modifies this
      ensures error == Some(message)
      ensures myPlaces == [] && myReviews == [] && recommendations == [] && activities == []
      ensures loading == old(loading)
    {
      error := Some(message);
      myPlaces := [];
      myReviews := [];
      recommendations := [];
      activities := [];
    }

    /** `fetchData` for a signed-in user: the page ends in the outcome `Load`
        describes, with all four lists emptied when that is a message. */
    method FetchData(user: CurrentUser, reviews: Fetch<ApiReview>, other: Fetch<ApiPlace>, typeError: string)
      modifies this
      ensures !loading
      ensures match Load(user, reviews, other, typeError)
              case Err(message) =>
                error == Some(message)
                && myPlaces == [] && myReviews == [] && recommendations == [] && activities == []
              case Ok(d) =>
                error == None && myReviews == d.reviews && myPlaces == d.places
                && recommendations == d.recommendations && activities == d.activities
    {
      loading := true;
      error := None;
      var outcome := Load(user, reviews, other, typeError);
      match outcome {
        case Err(message) =>
          Clear(message);
        case Ok(d) =>
          myReviews := d.reviews;
          myPlaces := d.places;
          recommendations := d.recommendations;
          activities := d.activities;
      }
      loading := false;
    }
  }
}
