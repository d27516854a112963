/** The API views: which permission classes guard each action of the place,
    review, profile and recommendation endpoints and the order in which the
    framework applies them; the review list with its `place_id` filter; the
    ranked recommendations; and the creation of places and reviews with the
    requester injected as owner or author. */
module Views {
  import opened Common
  import opened Sorting
  import opened Parsing
  import opened Models
  import opened Permissions
  import opened Serializers

  /** The viewset actions the router can select. */
  datatype Action = List | Retrieve | Create | Update | PartialUpdate | Destroy | Metadata

  /** The router's method-to-action map of a model viewset, on the collection
      route (`detail` false) or on an item route.  OPTIONS always selects
      `metadata`; HEAD follows GET; a method the route does not map leaves the
      action unset. */
  function RouteAction(m: HttpMethod, detail: bool): (a: Option<Action>)
    ensures m == Options <==> a == Some(Metadata)
    ensures a.Some? && a.value in {Retrieve, Update, PartialUpdate, Destroy} ==> detail
    ensures a.Some? && a.value in {List, Create} ==> !detail
    ensures a.Some? && a.value != Metadata ==> (IsSafe(m) <==> a.value in {List, Retrieve})
  {
    match m
    case Get => if detail then Some(Retrieve) else Some(List)
    case Head => if detail then Some(Retrieve) else Some(List)
    case Options => Some(Metadata)
    case Post => if detail then None else Some(Create)
    case Put => if detail then Some(Update) else None
    case Patch => if detail then Some(PartialUpdate) else None
    case Delete => if detail then Some(Destroy) else None
  }

  /** The permission classes named in the views. */
  datatype Policy = AllowAny | IsAuthenticated | ProviderOnly | SeekerOnly
                  | OwnerOrReadOnly | ReviewOwnerOrReadOnly | ProfileOwner

  predicate IsWriteAction(a: Option<Action>)
  {
    a == Some(Update) || a == Some(PartialUpdate) || a == Some(Destroy)
  }

  /** `PlaceViewSet.get_permissions` */
  function PlacePolicies(a: Option<Action>): (r: seq<Policy>)
    ensures a == Some(Create) ==> r == [IsAuthenticated, ProviderOnly]
    ensures IsWriteAction(a) ==> r == [IsAuthenticated, OwnerOrReadOnly]
    ensures a != Some(Create) && !IsWriteAction(a) ==> r == [AllowAny]
  {
    if a == Some(Create) then [IsAuthenticated, ProviderOnly]
    else if IsWriteAction(a) then [IsAuthenticated, OwnerOrReadOnly]
    else [AllowAny]
  }

  /** `ReviewViewSet.get_permissions` */
  function ReviewPolicies(a: Option<Action>): (r: seq<Policy>)
    ensures a == Some(Create) ==> r == [IsAuthenticated]
    ensures IsWriteAction(a) ==> r == [IsAuthenticated, ReviewOwnerOrReadOnly]
    ensures a != Some(Create) && !IsWriteAction(a) ==> r == [AllowAny]
  {
    if a == Some(Create) then [IsAuthenticated]
    else if IsWriteAction(a) then [IsAuthenticated, ReviewOwnerOrReadOnly]
    else [AllowAny]
  }

  const ProfilePolicies: seq<Policy> := [IsAuthenticated, ProfileOwner]
  const RecommendationPolicies: seq<Policy> := [IsAuthenticated, SeekerOnly]

  /** `has_permission` of each class; the object-level classes keep the
      default, which allows. */
  predicate HasPermission(pol: Policy, p: Principal)
  {
    match pol
    case IsAuthenticated => p.Authenticated?
    case ProviderOnly => IsProviderUser(p)
    case SeekerOnly => IsSeekerUser(p)
    case _ => true
  }

  /** The `user` attribute of an object: a place has none. */
  function UserAttribute(s: Subject): Option<UserId>
  {
    match s
    case PlaceSubject(_) => None
    case ReviewSubject(a) => Some(a)
    case ProfileSubject(u) => Some(u)
  }

  /** `has_object_permission` of each class; the others keep the default,
      which allows.  Reading `user` from an object without one is a server
      error in the source; here it refuses. */
  predicate HasObjectPermission(pol: Policy, m: HttpMethod, p: Principal, s: Subject)
  {
    match pol
    case OwnerOrReadOnly => IsOwnerOrReadOnly(m, p, s)
    case ReviewOwnerOrReadOnly =>
      IsSafe(m) || (UserAttribute(s).Some? && IsReviewOwnerOrReadOnly(m, p, UserAttribute(s).value))
    case ProfileOwner => UserAttribute(s).Some? && IsProfileOwner(m, p, UserAttribute(s).value)
    case _ => true
  }

  /** The outcome of a request as far as the framework's checks decide it. */
  datatype Decision = Allowed | NotAuthenticated | PermissionDenied | NotFound | MethodNotAllowed

  /** `permission_denied`: 401 for a request without credentials, 403 otherwise. */
  function Denied(p: Principal): Decision
  {
    if p.Anonymous? then NotAuthenticated else PermissionDenied
  }

  /** `check_permissions`: every class in order; the first refusal decides. */
  function CheckPermissions(pols: seq<Policy>, p: Principal): (d: Decision)
    ensures d == Allowed <==> forall i :: 0 <= i < |pols| ==> HasPermission(pols[i], p)
    ensures d != Allowed ==> d == Denied(p)
    decreases |pols|
  {
    if pols == [] then Allowed
    else if !HasPermission(pols[0], p) then Denied(p)
    else
      var d := CheckPermissions(pols[1..], p);
      assert d == Allowed ==> forall i :: 0 <= i < |pols| ==> HasPermission(pols[i], p) by {
        if d == Allowed {
          forall i | 0 <= i < |pols| ensures HasPermission(pols[i], p) {
            if i > 0 { assert pols[i] == pols[1..][i - 1]; }
          }
        }
      }
      d
  }

  /** `check_object_permissions`: every class in order; the first refusal decides. */
  function CheckObjectPermissions(pols: seq<Policy>, m: HttpMethod, p: Principal, s: Subject): (d: Decision)
    ensures d == Allowed <==> forall i :: 0 <= i < |pols| ==> HasObjectPermission(pols[i], m, p, s)
    ensures d != Allowed ==> d == Denied(p)
    decreases |pols|
  {
    if pols == [] then Allowed
    else if !HasObjectPermission(pols[0], m, p, s) then Denied(p)
    else
      var d := CheckObjectPermissions(pols[1..], m, p, s);
      assert d == Allowed ==> forall i :: 0 <= i < |pols| ==> HasObjectPermission(pols[i], m, p, s) by {
        if d == Allowed {
          forall i | 0 <= i < |pols| ensures HasObjectPermission(pols[i], m, p, s) {
            if i > 0 { assert pols[i] == pols[1..][i - 1]; }
          }
        }
      }
      d
  }

  /** Two permission classes pass exactly when each of them does. */
  lemma CheckTwo(a: Policy, b: Policy, p: Principal, m: HttpMethod, s: Subject)
    ensures CheckPermissions([a, b], p) == Allowed <==> HasPermission(a, p) && HasPermission(b, p)
    ensures CheckObjectPermissions([a, b], m, p, s) == Allowed <==>
            HasObjectPermission(a, m, p, s) && HasObjectPermission(b, m, p, s)
  {
    var pols := [a, b];
    assert pols[0] == a && pols[1] == b;
  }

  /** A request to a model viewset: the permission classes of the selected
      action, then 405 for an unmapped method, then, on an item route, 404 for
      a missing object and its object permissions.  `obj` is the object the
      item route names, if it exists. */
  function ViewSetRequest(policies: Option<Action> -> seq<Policy>, m: HttpMethod, detail: bool,
                          p: Principal, obj: Option<Subject>): Decision
  {
    var a := RouteAction(m, detail);
    var pols := policies(a);
    var d := CheckPermissions(pols, p);
    if d != Allowed then d
    else if a.None? then MethodNotAllowed
    else if a.value == Metadata || !detail then Allowed
    else if obj.None? then NotFound
    else CheckObjectPermissions(pols, m, p, obj.value)
  }

  /** A request to the place endpoints; `target` is the place an item route names. */
  function PlaceRequest(m: HttpMethod, target: Option<PlaceId>, p: Principal, places: map<PlaceId, Place>): Decision
  {
    var obj := if target.Some? && target.value in places then Some(PlaceSubject(places[target.value].owner)) else None;
    ViewSetRequest(PlacePolicies, m, target.Some?, p, obj)
  }

  /** A request to the review endpoints; `target` is the review an item route names. */
  function ReviewRequest(m: HttpMethod, target: Option<ReviewId>, p: Principal, reviews: map<ReviewId, Review>): Decision
  {
    var obj := if target.Some? && target.value in reviews then Some(ReviewSubject(reviews[target.value].user)) else None;
    ViewSetRequest(ReviewPolicies, m, target.Some?, p, obj)
  }

  /** Creating a place is open exactly to providers; anonymous requests get 401. */
  lemma PlaceCreateIffProvider(p: Principal, places: map<PlaceId, Place>)
    ensures PlaceRequest(Post, None, p, places) == Allowed <==> IsProviderUser(p)
    ensures p.Anonymous? ==> PlaceRequest(Post, None, p, places) == NotAuthenticated
    ensures p.Authenticated? && !IsProviderUser(p) ==> PlaceRequest(Post, None, p, places) == PermissionDenied
  {
    assert PlacePolicies(Some(Create)) == [IsAuthenticated, ProviderOnly];
    CheckTwo(IsAuthenticated, ProviderOnly, p, Post, PlaceSubject(None));
  }

  /** Changing or deleting a place is open exactly to its owner; a missing
      place is 404 for a logged-in requester and 401 for an anonymous one. */
  lemma PlaceWriteIffOwner(m: HttpMethod, id: PlaceId, p: Principal, places: map<PlaceId, Place>)
    requires m == Put || m == Patch || m == Delete
    ensures p.Anonymous? ==> PlaceRequest(m, Some(id), p, places) == NotAuthenticated
    ensures p.Authenticated? && id !in places ==> PlaceRequest(m, Some(id), p, places) == NotFound
    ensures id in places ==>
              (PlaceRequest(m, Some(id), p, places) == Allowed <==>
               p.Authenticated? && places[id].owner == Some(p.id))
  {
    var a := RouteAction(m, true);
    assert IsWriteAction(a);
    assert PlacePolicies(a) == [IsAuthenticated, OwnerOrReadOnly];
    if id in places {
      CheckTwo(IsAuthenticated, OwnerOrReadOnly, p, m, PlaceSubject(places[id].owner));
      OwnerWriteIff(m, p, PlaceSubject(places[id].owner));
    }
  }

  /** Reading places is open to everyone: the list always, an existing place
      always, a missing one is 404. */
  lemma PlaceReadsOpen(m: HttpMethod, target: Option<PlaceId>, p: Principal, places: map<PlaceId, Place>)
    requires m == Get || m == Head
    ensures PlaceRequest(m, target, p, places) ==
            if target.Some? && target.value !in places then NotFound else Allowed
  {
    assert PlacePolicies(RouteAction(m, target.Some?)) == [AllowAny];
  }

  /** A place whose owner was deleted can be changed by nobody. */
  lemma OrphanedPlaceFrozen(m: HttpMethod, id: PlaceId, p: Principal, places: map<PlaceId, Place>)
    requires m == Put || m == Patch || m == Delete
    requires id in places && places[id].owner.None?
    ensures PlaceRequest(m, Some(id), p, places) != Allowed
  {
    PlaceWriteIffOwner(m, id, p, places);
  }

  /** Posting a review needs only a login. */
  lemma ReviewCreateIffAuthenticated(p: Principal, reviews: map<ReviewId, Review>)
    ensures ReviewRequest(Post, None, p, reviews) == (if p.Authenticated? then Allowed else NotAuthenticated)
  {
    assert ReviewPolicies(Some(Create)) == [IsAuthenticated];
  }

  /** Changing or deleting a review is open exactly to its author. */
  lemma ReviewWriteIffAuthor(m: HttpMethod, id: ReviewId, p: Principal, reviews: map<ReviewId, Review>)
    requires m == Put || m == Patch || m == Delete
    ensures p.Anonymous? ==> ReviewRequest(m, Some(id), p, reviews) == NotAuthenticated
    ensures p.Authenticated? && id !in reviews ==> ReviewRequest(m, Some(id), p, reviews) == NotFound
    ensures id in reviews ==>
              (ReviewRequest(m, Some(id), p, reviews) == Allowed <==> p.Authenticated? && reviews[id].user == p.id)
  {
    var a := RouteAction(m, true);
    assert IsWriteAction(a);
    assert ReviewPolicies(a) == [IsAuthenticated, ReviewOwnerOrReadOnly];
    if id in reviews {
      CheckTwo(IsAuthenticated, ReviewOwnerOrReadOnly, p, m, ReviewSubject(reviews[id].user));
    }
  }

  /** A method the route does not map is refused with 405, for anyone. */
  lemma UnmappedMethodNotAllowed(m: HttpMethod, p: Principal, places: map<PlaceId, Place>)
    requires m == Put || m == Patch || m == Delete
    ensures PlaceRequest(m, None, p, places) == MethodNotAllowed
    ensures PlaceRequest(Post, Some(0), p, places) == MethodNotAllowed
  {
    assert PlacePolicies(None) == [AllowAny];
  }

  /** `UserProfileView.get_object` as reached by GET, PUT and PATCH: the
      class-level checks, then the requester's own profile or 404, then the
      object check of IsProfileOwner. */
  function ProfileObject(m: HttpMethod, p: Principal, profiles: map<UserId, Profile>): (r: Result<Profile, Decision>)
    ensures p.Anonymous? ==> r == Err(NotAuthenticated)
    ensures p.Authenticated? && p.id !in profiles ==> r == Err(NotFound)
    ensures r.Ok? ==> p.Authenticated? && p.id in profiles && r.value == profiles[p.id] && r.value.user == p.id
  {
    var d := CheckPermissions(ProfilePolicies, p);
    assert ProfilePolicies[0] == IsAuthenticated && ProfilePolicies[1] == ProfileOwner;
    if d != Allowed then Err(d)
    else if p.id !in profiles then Err(NotFound)
    else
      var obj := profiles[p.id];
      var od := CheckObjectPermissions(ProfilePolicies, m, p, ProfileSubject(obj.user));
      if od != Allowed then Err(od) else Ok(obj)
  }

  /** With every profile stored under its own user, a logged-in requester
      always gets their own profile when it exists, whatever the method. */
  lemma ProfileObjectIsOwn(m: HttpMethod, p: Principal, profiles: map<UserId, Profile>)
    requires forall u :: u in profiles ==> profiles[u].user == u
    ensures ProfileObject(m, p, profiles).Ok? <==> p.Authenticated? && p.id in profiles
  {
    if p.Authenticated? && p.id in profiles {
      CheckTwo(IsAuthenticated, ProfileOwner, p, m, ProfileSubject(profiles[p.id].user));
    }
  }

  // ---------------------------------------------------------------------
  // The place list

  /** A place row annotated with `review_count`. */
  datatype CountedPlace = CountedPlace(place: Place, reviewCount: nat)

  /** The ids of the reviews of place `id`. */
  function ReviewsOf(id: PlaceId, reviews: map<ReviewId, Review>): (r: set<ReviewId>)
    ensures forall k :: k in r <==> k in reviews && reviews[k].place == id
  {
    set k | k in reviews && reviews[k].place == id
  }

  /** `Count('reviews')`: the number of reviews of `p`. */
  function ReviewCount(p: Place, reviews: map<ReviewId, Review>): nat
  {
    |ReviewsOf(p.id, reviews)|
  }

  /** Adding a review raises the count of its own place by one and leaves
      every other place's count as it was. */
  lemma ReviewCountAfterInsert(p: Place, reviews: map<ReviewId, Review>, k: ReviewId, r: Review)
    requires k !in reviews
    ensures ReviewCount(p, reviews[k := r]) == ReviewCount(p, reviews) + (if r.place == p.id then 1 else 0)
  {
    var before := ReviewsOf(p.id, reviews);
    var after := ReviewsOf(p.id, reviews[k := r]);
    if r.place == p.id {
      assert k !in before && after == before + {k};
    } else {
      assert after == before;
    }
  }

  /** Every row with its count, in table order. */
  function Counted(rows: seq<Place>, reviews: map<ReviewId, Review>): (r: seq<CountedPlace>)
    ensures |r| == |rows|
    ensures forall i :: 0 <= i < |rows| ==> r[i] == CountedPlace(rows[i], ReviewCount(rows[i], reviews))
  {
    seq(|rows|, i requires 0 <= i < |rows| => CountedPlace(rows[i], ReviewCount(rows[i], reviews)))
  }

  /** `order_by('name')` */
  predicate ByName(a: CountedPlace, b: CountedPlace)
  {
    StringLe(a.place.name, b.place.name)
  }

  lemma ByNameIsTotalPreorder()
    ensures IsTotalPreorder(ByName)
  {
    StringLeIsTotalPreorder();
  }

  /** `PlaceViewSet.queryset` over the place table `rows`: every place once,
      annotated with its review count, ordered by name. */
  function PlaceList(rows: seq<Place>, reviews: map<ReviewId, Review>): (r: seq<CountedPlace>)
    ensures Sorted(r, ByName)
    ensures multiset(r) == multiset(Counted(rows, reviews))
  {
    ByNameIsTotalPreorder();
    Sort(Counted(rows, reviews), ByName)
  }

  /** The list holds exactly the rows of the table, each with the number of
      its reviews, and no two neighbours are out of name order. */
  lemma PlaceListExact(rows: seq<Place>, reviews: map<ReviewId, Review>)
    ensures forall x :: x in PlaceList(rows, reviews) <==> x.place in rows && x.reviewCount == ReviewCount(x.place, reviews)
    ensures |PlaceList(rows, reviews)| == |rows|
  {
    var r := PlaceList(rows, reviews);
    var c := Counted(rows, reviews);
    assert |r| == |multiset(r)| == |multiset(c)| == |c|;
    forall x ensures x in r <==> x.place in rows && x.reviewCount == ReviewCount(x.place, reviews) {
      assert x in r <==> multiset(r)[x] > 0;
      assert x in c <==> multiset(c)[x] > 0;
      if x in c {
        var i :| 0 <= i < |c| && c[i] == x;
        assert x.place == rows[i];
      }
      if x.place in rows && x.reviewCount == ReviewCount(x.place, reviews) {
        var i :| 0 <= i < |rows| && rows[i] == x.place;
        assert c[i] == x;
      }
    }
  }

  // ---------------------------------------------------------------------
  // Recommendations

  /** A place annotated with `matching_needs_count`. */
  datatype Ranked = Ranked(place: Place, matching: nat)

  /** `Count('accessibility_features', filter=Q(accessibility_features__id__in=needs))` */
  function MatchCount(p: Place, needs: set<FeatureId>): nat
  {
    |p.features * needs|
  }

  /** `order_by('-matching_needs_count', 'name')` */
  predicate RankLe(a: Ranked, b: Ranked)
  {
    a.matching > b.matching || (a.matching == b.matching && StringLe(a.place.name, b.place.name))
  }

  lemma RankLeIsTotalPreorder()
    ensures IsTotalPreorder(RankLe)
  {
    StringLeIsTotalPreorder();
  }

  function Annotate(ps: seq<Place>, needs: set<FeatureId>): (r: seq<Ranked>)
    ensures |r| == |ps|
    ensures forall i :: 0 <= i < |ps| ==> r[i] == Ranked(ps[i], MatchCount(ps[i], needs))
  {
    seq(|ps|, i requires 0 <= i < |ps| => Ranked(ps[i], MatchCount(ps[i], needs)))
  }

  /** `accessibility_features__id__in=needs` */
  function SharesNeed(needs: set<FeatureId>): Place -> bool
  {
    (p: Place) => p.features * needs != {}
  }

  /** The needs of a profile; a missing profile needs nothing. */
  function Needs(profile: Option<Profile>): set<FeatureId>
  {
    if profile.Some? then profile.value.needs else {}
  }

  lemma {:induction false} SubsetNoLarger<T>(a: set<T>, b: set<T>)
    requires a <= b
    ensures |a| <= |b|
    decreases |a|
  {
    if a != {} {
      var x :| x in a;
      SubsetNoLarger(a - {x}, b - {x});
    }
  }

  /** `RecommendationView.get_queryset` over the place table `rows`: nothing
      without a profile or without needs; otherwise the places sharing a
      need, ranked by how many needs they meet, then by name. */
  function Recommend(profile: Option<Profile>, rows: seq<Place>): (r: seq<Ranked>)
    ensures Needs(profile) == {} ==> r == []
    ensures Sorted(r, RankLe)
  {
    var needs := Needs(profile);
    if needs == {} then []
    else
      RankLeIsTotalPreorder();
      Sort(Annotate(Filter(rows, SharesNeed(needs)), needs), RankLe)
  }

  /** Every recommended place is in the table, shares a need, and carries the
      number of needs it meets, between one and the number of needs. */
  lemma RecommendationsSound(profile: Option<Profile>, rows: seq<Place>)
    ensures forall x :: x in Recommend(profile, rows) ==>
              && x.place in rows
              && x.matching == MatchCount(x.place, Needs(profile))
              && 1 <= x.matching <= |Needs(profile)|
  {
    var needs := Needs(profile);
    if needs != {} {
      var hits := Filter(rows, SharesNeed(needs));
      var ranked := Annotate(hits, needs);
      RankLeIsTotalPreorder();
      SortKeepsMembers(ranked, RankLe);
      forall x | x in Recommend(profile, rows)
        ensures x.place in rows && x.matching == MatchCount(x.place, needs) && 1 <= x.matching <= |needs|
      {
        var i :| 0 <= i < |ranked| && ranked[i] == x;
        assert hits[i] in hits;
        SubsetNoLarger(x.place.features * needs, needs);
      }
    }
  }

  /** Every place of the table that shares a need is recommended, with its count. */
  lemma RecommendationsComplete(profile: Option<Profile>, rows: seq<Place>)
    ensures forall p :: p in rows && p.features * Needs(profile) != {} ==>
              Ranked(p, MatchCount(p, Needs(profile))) in Recommend(profile, rows)
  {
    var needs := Needs(profile);
    if needs != {} {
      var hits := Filter(rows, SharesNeed(needs));
      var ranked := Annotate(hits, needs);
      RankLeIsTotalPreorder();
      SortKeepsMembers(ranked, RankLe);
      forall p | p in rows && p.features * needs != {} ensures Ranked(p, MatchCount(p, needs)) in Recommend(profile, rows) {
        assert SharesNeed(needs)(p);
        var i :| 0 <= i < |hits| && hits[i] == p;
        assert ranked[i] == Ranked(p, MatchCount(p, needs));
      }
    }
  }

  /** `.distinct()`: a table listing each place once gives each place once. */
  lemma RecommendationsDistinct(profile: Option<Profile>, rows: seq<Place>)
    requires Distinct(rows)
    ensures var r := Recommend(profile, rows);
            forall i, j :: 0 <= i < j < |r| ==> r[i].place != r[j].place
  {
    var needs := Needs(profile);
    if needs != {} {
      var hits := Filter(rows, SharesNeed(needs));
      DistinctCounts(rows);
      assert forall x :: multiset(hits)[x] <= 1 by {
        forall x ensures multiset(hits)[x] <= 1 {
          if SharesNeed(needs)(x) {} else {}
        }
      }
      CountsDistinct(hits);
      var ranked := Annotate(hits, needs);
      assert Distinct(ranked) by {
        forall i, j | 0 <= i < j < |ranked| ensures ranked[i] != ranked[j] {
          assert ranked[i].place == hits[i] && ranked[j].place == hits[j];
        }
      }
      RankLeIsTotalPreorder();
      var r := Sort(ranked, RankLe);
      PermutationKeepsDistinct(ranked, r);
      SortKeepsMembers(ranked, RankLe);
      var res := Recommend(profile, rows);
      assert res == r;
      forall i, j | 0 <= i < j < |r| ensures r[i].place != r[j].place {
        assert r[i] in r && r[j] in r;
      }
    }
  }

  /** The recommendation endpoint: seekers only, then the ranked places for
      the requester's profile. */
  function RecommendationRequest(p: Principal, profiles: map<UserId, Profile>, rows: seq<Place>)
    : (r: Result<seq<Ranked>, Decision>)
    ensures r.Ok? <==> IsSeekerUser(p)
    ensures r.Err? ==> r.error == Denied(p)
    ensures r.Ok? && (p.id !in profiles || profiles[p.id].needs == {}) ==> r.value == []
    ensures r.Ok? && p.id in profiles ==>
              forall x :: x in r.value ==> 1 <= x.matching == MatchCount(x.place, profiles[p.id].needs)
  {
    RecommendationsSound(if p.Authenticated? && p.id in profiles then Some(profiles[p.id]) else None, rows);
    CheckTwo(IsAuthenticated, SeekerOnly, p, Get, PlaceSubject(None));
    var d := CheckPermissions(RecommendationPolicies, p);
    if d != Allowed then Err(d)
    else Ok(Recommend(if p.id in profiles then Some(profiles[p.id]) else None, rows))
  }

  // ---------------------------------------------------------------------
  // The review list

  /** `order_by('-created_at')` */
  predicate NewerFirst(a: Review, b: Review)
  {
    a.createdAt >= b.createdAt
  }

  lemma NewerFirstIsTotalPreorder()
    ensures IsTotalPreorder(NewerFirst)
  {
  }

  function AtPlace(n: int): Review -> bool
  {
    (r: Review) => r.place == n
  }

  /** `ReviewViewSet.get_queryset` over the review table `rows`, given the
      `place_id` query parameter: newest first; all reviews when the
      parameter is absent or empty; the reviews of that place when it reads
      as an integer; none when it does not. */
  function ReviewList(rows: seq<Review>, placeParam: Option<string>): (r: seq<Review>)
    ensures Sorted(r, NewerFirst)
    ensures placeParam.None? || placeParam.value == "" ==> multiset(r) == multiset(rows)
    ensures placeParam.Some? && placeParam.value != "" && PyInt(placeParam.value).None? ==> r == []
    ensures placeParam.Some? && placeParam.value != "" && PyInt(placeParam.value).Some? ==>
              forall x :: multiset(r)[x] == if x.place == PyInt(placeParam.value).value then multiset(rows)[x] else 0
  {
    NewerFirstIsTotalPreorder();
    var ordered := Sort(rows, NewerFirst);
    if placeParam.None? || placeParam.value == "" then ordered
    else
      match PyInt(placeParam.value)
      case None => []
      case Some(n) =>
        FilterKeepsSorted(ordered, AtPlace(n), NewerFirst);
        Filter(ordered, AtPlace(n))
  }

  /** Asking for the reviews of a place by its rendered id gives exactly
      that place's reviews. */
  lemma ReviewListOfPlace(rows: seq<Review>, id: PlaceId)
    ensures forall x :: x in ReviewList(rows, Some(NatToDecimal(id))) <==> x in rows && x.place == id
  {
    PyIntRoundTrip(id);
    var r := ReviewList(rows, Some(NatToDecimal(id)));
    forall x ensures x in r <==> x in rows && x.place == id {
      assert x in r <==> multiset(r)[x] > 0;
      assert x in rows <==> multiset(rows)[x] > 0;
    }
  }

  // ---------------------------------------------------------------------
  // Creating and updating rows

  /** The place row `serializer.save(owner=request.user)` inserts from the
      validated data of a full request, before the store assigns its id and
      stamps: an optional text left out or `null` is empty, and a place sent
      without `feature_ids` has no features. */
  function NewPlace(owner: UserId, e: PlaceEdit): (p: Place)
    requires e.name.Some? && e.address.Some? && e.placeType.Some?
    ensures p.owner == Some(owner)
    ensures p.name == e.name.value && p.address == e.address.value && p.placeType == e.placeType.value
    ensures p.description.Some? <==> e.description.Given?
    ensures p.website.Some? <==> e.website.Given?
    ensures p.phoneNumber.Some? <==> e.phoneNumber.Given?
    ensures p.features == if e.features.Some? then e.features.value else {}
  {
    Place(0, Some(owner), e.name.value, e.address.value, e.placeType.value,
          Stored(None, e.description), Stored(None, e.website), Stored(None, e.phoneNumber),
          if e.features.Some? then e.features.value else {}, 0, 0)
  }

  /** `PlaceViewSet.perform_create`: a request with a field error is refused
      with every field's messages and nothing is written; otherwise the
      requester becomes the owner of the new place. */
  method CreatePlace(store: Store, requester: UserId, input: PlaceInput, urlOk: string -> bool, now: nat)
    returns (r: Result<PlaceId, Errors<PlaceField>>)
    requires store.Valid() && requester in store.users
    modifies store
    ensures store.Valid()
    ensures var v := ValidatePlace(input, false, old(store.features).Keys, urlOk);
            && (r.Err? <==> v.Err?)
            && (r.Err? ==> r.error == v.error && store.places == old(store.places))
            && (r.Ok? ==> && r.value !in old(store.places)
                          && store.places == old(store.places)[r.value :=
                               NewPlace(requester, v.value).(id := r.value, createdAt := now, updatedAt := now)])
    ensures store.users == old(store.users) && store.profiles == old(store.profiles)
    ensures store.features == old(store.features) && store.reviews == old(store.reviews)
  {
    var v := ValidatePlace(input, false, store.features.Keys, urlOk);
    if v.Err? {
      return Err(v.error);
    }
    var id := store.InsertPlace(NewPlace(requester, v.value), now);
    r := Ok(id);
  }

  /** The review row `serializer.save(user=request.user)` inserts, before the
      store assigns its id and stamps: the validated fields, the
      verification unverified when left out, no features for an id list
      left out. */
  function NewReview(author: UserId, e: ReviewEdit): (r: Review)
    ensures r.user == author && r.place == e.place
    ensures r.rating == e.rating && r.accessibilityRating == e.accessibilityRating && r.comment == e.comment
    ensures r.verification == if e.verification.Some? then e.verification.value else DefaultVerification
    ensures r.verifiedFeatures == (if e.verified.Some? then e.verified.value else {})
    ensures r.missingFeatures == (if e.missing.Some? then e.missing.value else {})
  {
    Review(0, e.place, author, e.rating, e.accessibilityRating, e.comment,
           if e.verification.Some? then e.verification.value else DefaultVerification,
           if e.verified.Some? then e.verified.value else {},
           if e.missing.Some? then e.missing.value else {}, 0, 0)
  }

  /** `ReviewViewSet.perform_create`: the requester becomes the author; any
      field error refuses the request and nothing is written. */
  method CreateReview(store: Store, requester: UserId, input: ReviewInput, now: nat)
    returns (r: Result<ReviewId, Errors<ReviewKey>>)
    requires store.Valid() && requester in store.users
    modifies store
    ensures store.Valid()
    ensures var v := ValidateReview(input, old(store.places).Keys, old(store.features).Keys);
            && (r.Err? <==> v.Err?)
            && (r.Err? ==> r.error == v.error && store.reviews == old(store.reviews))
            && (r.Ok? ==> && r.value !in old(store.reviews)
                          && store.reviews == old(store.reviews)[r.value :=
                               NewReview(requester, v.value).(id := r.value, createdAt := now, updatedAt := now)])
    ensures store.users == old(store.users) && store.profiles == old(store.profiles)
    ensures store.features == old(store.features) && store.places == old(store.places)
  {
    var v := ValidateReview(input, store.places.Keys, store.features.Keys);
    if v.Err? {
      return Err(v.error);
    }
    var id := store.InsertReview(NewReview(requester, v.value), now);
    r := Ok(id);
  }

  /** An update of a place by its owner (PUT, or PATCH with `partial`): a
      request with a field error is refused and nothing is written;
      otherwise every field in the validated data is written, every other
      field and the owner are kept, and `updated_at` becomes the current
      time. */
  method UpdatePlace(store: Store, id: PlaceId, input: PlaceInput, partial: bool, urlOk: string -> bool, now: nat)
    returns (r: Result<(), Errors<PlaceField>>)
    requires store.Valid() && id in store.places && now >= store.places[id].createdAt
    modifies store
    ensures store.Valid()
    ensures var v := ValidatePlace(input, partial, old(store.features).Keys, urlOk);
            && (r.Err? <==> v.Err?)
            && (r.Err? ==> r.error == v.error && store.places == old(store.places))
            && (r.Ok? ==> store.places == old(store.places)[id := ApplyPlace(old(store.places)[id], v.value).(updatedAt := now)])
    ensures store.users == old(store.users) && store.profiles == old(store.profiles)
    ensures store.features == old(store.features) && store.reviews == old(store.reviews)
  {
    var v := ValidatePlace(input, partial, store.features.Keys, urlOk);
    if v.Err? {
      return Err(v.error);
    }
    store.SavePlace(ApplyPlace(store.places[id], v.value), now);
    r := Ok(());
  }

  /** An update of the requester's profile: `user_type` when sent, and
      `needs_ids` replacing the needs only when it is sent. */
  method UpdateProfile(store: Store, user: UserId, userType: Option<UserType>, needsIds: Option<seq<FeatureId>>)
    returns (r: Result<(), seq<string>>)
    requires store.Valid() && user in store.profiles
    modifies store
    ensures store.Valid()
    ensures var needs := ApplyRelation(old(store.profiles)[user].needs, needsIds, old(store.features).Keys);
            && (r.Err? <==> needs.Err?)
            && (r.Err? ==> store.profiles == old(store.profiles))
            && (r.Ok? ==> store.profiles == old(store.profiles)[user := old(store.profiles)[user].(
                  userType := if userType.Some? then userType.value else old(store.profiles)[user].userType,
                  needs := needs.value)])
    ensures store.users == old(store.users) && store.features == old(store.features)
    ensures store.places == old(store.places) && store.reviews == old(store.reviews)
  {
    var current := store.profiles[user];
    var needs := ApplyRelation(current.needs, needsIds, store.features.Keys);
    if needs.Err? {
      return Err(needs.error);
    }
    store.SaveProfile(user, if userType.Some? then userType.value else current.userType, needs.value);
    r := Ok(());
  }

  /** `RegisterView`: open to everyone; a request with errors writes nothing,
      a valid one inserts exactly one user, under a new id, with the
      validated fields and the normalised e-mail address, and exactly one
      profile of the requested type with no needs, and answers with the new
      user's representation, which holds no password. */
  method Register(store: Store, data: map<RegisterKey, Sent<string>>,
                  emailOk: string -> bool, passwordProblems: string -> seq<string>)
    returns (r: Result<map<string, Value>, Errors<RegisterKey>>)
    requires store.Valid()
    modifies store
    ensures store.Valid()
    ensures var v := ValidateRegistration(data, old(store.users), emailOk, passwordProblems);
            && (r.Err? <==> v.Err?)
            && (r.Err? ==> r.error == v.error && unchanged(store))
            && (r.Ok? ==> && "password" !in r.value && "password2" !in r.value
                          && exists id :: && id !in old(store.users)
                                          && store.users == old(store.users)[id := User(id, v.value.username,
                                               NormalizeEmail(v.value.email), v.value.firstName, v.value.lastName,
                                               v.value.password)]
                                          && store.profiles.Keys == old(store.profiles).Keys + {id}
                                          && store.profiles[id].userType == v.value.userType
                                          && store.profiles[id].needs == {}
                                          && r.value == RegisterRepresentation(store.users[id], Some(store.profiles[id])))
    ensures forall u :: u in old(store.profiles) ==> u in store.profiles && store.profiles[u] == old(store.profiles)[u]
    ensures store.features == old(store.features) && store.places == old(store.places)
    ensures store.reviews == old(store.reviews)
  {
    var v := ValidateRegistration(data, store.users, emailOk, passwordProblems);
    if v.Err? {
      return Err(v.error);
    }
    CleanedMeetsChecks(data, store.users, emailOk, passwordProblems);
    var id := CreateRegisteredUser(store, v.value);
    r := Ok(RegisterRepresentation(store.users[id], Some(store.profiles[id])));
  }
}
