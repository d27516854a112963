/** The entity store: users, their profiles, accessibility features, places
    and reviews, with the choice domains and defaults of the schema, the
    profile that is created whenever a user is created, the CASCADE and
    SET_NULL rules applied on deletion, and the `created_at`/`updated_at`
    stamps.  The clock is a parameter (`now`). */
module Models {
  import opened Common

  type UserId = nat
  type ProfileId = nat
  type FeatureId = nat
  type PlaceId = nat
  type ReviewId = nat

  /** UserProfile.USER_TYPES */
  datatype UserType = Seeker | Provider | Admin

  /** The stored code of a user type. */
  function UserTypeCode(t: UserType): string
  {
    match t
    case Seeker => "seeker"
    case Provider => "provider"
    case Admin => "admin"
  }

  /** The choice field: a code names a user type, or the value is refused. */
  function ParseUserType(s: string): (r: Option<UserType>)
  {
    if s == "seeker" then Some(Seeker)
    else if s == "provider" then Some(Provider)
    else if s == "admin" then Some(Admin)
    else None
  }

  lemma UserTypeCodes(t: UserType, s: string)
    ensures ParseUserType(UserTypeCode(t)) == Some(t)
    ensures ParseUserType(s) == Some(t) <==> s == UserTypeCode(t)
  {
  }

  /** `user_type` of a profile created without one. */
  const DefaultUserType := Seeker

  /** Place.PLACE_TYPES */
  datatype PlaceType = Restaurant | Cafe | Shop | Venue | Other

  function PlaceTypeCode(t: PlaceType): string
  {
    match t
    case Restaurant => "restaurant"
    case Cafe => "cafe"
    case Shop => "shop"
    case Venue => "venue"
    case Other => "other"
  }

  function ParsePlaceType(s: string): (r: Option<PlaceType>)
  {
    if s == "restaurant" then Some(Restaurant)
    else if s == "cafe" then Some(Cafe)
    else if s == "shop" then Some(Shop)
    else if s == "venue" then Some(Venue)
    else if s == "other" then Some(Other)
    else None
  }

  lemma PlaceTypeCodes(t: PlaceType, s: string)
    ensures ParsePlaceType(PlaceTypeCode(t)) == Some(t)
    ensures ParsePlaceType(s) == Some(t) <==> s == PlaceTypeCode(t)
  {
  }

  /** Review.VERIFICATION_CHOICES */
  datatype Verification = Verified | Inaccurate | Partial | Unverified

  function VerificationCode(v: Verification): string
  {
    match v
    case Verified => "verified"
    case Inaccurate => "inaccurate"
    case Partial => "partial"
    case Unverified => "unverified"
  }

  function ParseVerification(s: string): (r: Option<Verification>)
  {
    if s == "verified" then Some(Verified)
    else if s == "inaccurate" then Some(Inaccurate)
    else if s == "partial" then Some(Partial)
    else if s == "unverified" then Some(Unverified)
    else None
  }

  lemma VerificationCodes(v: Verification, s: string)
    ensures ParseVerification(VerificationCode(v)) == Some(v)
    ensures ParseVerification(s) == Some(v) <==> s == VerificationCode(v)
  {
  }

  /** `accessibility_verification` of a review created without one. */
  const DefaultVerification := Unverified

  /** The choices `range(1, 6)` of both rating fields. */
  predicate IsStars(n: int)
  {
    1 <= n <= 5
  }

  /** A user row; `password` stands for the stored credential (hashing is not modelled). */
  datatype User = User(id: UserId, username: string, email: string, firstName: string,
                       lastName: string, password: string)

  /** The index of the last occurrence of `c` in `s`. */
  function LastIndexOf(s: string, c: char): (k: nat)
    requires c in s
    ensures k < |s| && s[k] == c && c !in s[k + 1..]
    decreases |s|
  {
    if s[|s| - 1] == c then |s| - 1
    else
      assert s == s[..|s| - 1] + [s[|s| - 1]];
      var k := LastIndexOf(s[..|s| - 1], c);
      assert s[k + 1..] == s[..|s| - 1][k + 1..] + [s[|s| - 1]];
      k
  }

  /** `normalize_email`, which `create_user` applies to the address it
      stores: the domain, after the last "@", is lower-cased; the local part
      is kept as sent, and an address without "@" is kept whole. */
  function NormalizeEmail(email: string): (r: string)
    ensures |r| == |email|
    ensures '@' !in email ==> r == email
    ensures forall i :: 0 <= i < |email| && '@' in email[i..] ==> r[i] == email[i]
    ensures forall i :: 0 <= i < |email| && '@' in email && '@' !in email[i..] ==> r[i] == LowerChar(email[i])
  {
    if '@' !in email then email
    else
      var k := LastIndexOf(email, '@');
      forall i | k < i < |email|
        ensures '@' !in email[i..]
      {
        assert email[i..] == email[k + 1..][i - k - 1..];
      }
      email[..k + 1] + Lower(email[k + 1..])
  }

  /** Normalising an address already normalised changes nothing. */
  lemma NormalizeEmailIdempotent(email: string)
    ensures NormalizeEmail(NormalizeEmail(email)) == NormalizeEmail(email)
  {
    forall i | 0 <= i < |email|
      ensures NormalizeEmail(NormalizeEmail(email))[i] == NormalizeEmail(email)[i]
    {
      NormalizedCharKept(email, i);
    }
  }

  /** One character of a normalised address survives a second normalisation. */
  lemma NormalizedCharKept(email: string, i: nat)
    requires i < |email|
    ensures NormalizeEmail(NormalizeEmail(email))[i] == NormalizeEmail(email)[i]
  {
    var r := NormalizeEmail(email);
    AtsKept(email, i);
    if '@' in email {
      AtsKept(email, 0);
      assert email[0..] == email && r[0..] == r;
      if '@' !in email[i..] {
        assert r[i] == LowerChar(email[i]);
        assert LowerChar(r[i]) == r[i];
      }
    }
  }

  /** Normalising keeps every "@" where it is and adds none: `r` has one at
      or after `i` exactly where `email` has. */
  lemma AtsKept(email: string, i: nat)
    requires i <= |email|
    ensures ('@' in NormalizeEmail(email)[i..]) <==> ('@' in email[i..])
  {
    var r := NormalizeEmail(email);
    if '@' in email[i..] {
      var k :| 0 <= k < |email[i..]| && email[i..][k] == '@';
      assert email[i + k] == '@' && r[i + k] == '@';
      assert r[i..][k] == '@';
    }
    if '@' in r[i..] {
      var k :| 0 <= k < |r[i..]| && r[i..][k] == '@';
      assert r[i + k] == '@';
      assert email[i + k] == '@';
      assert email[i..][k] == '@';
    }
  }

  /** The stored address is the validated one under `__iexact`, the
      lookup the uniqueness check uses. */
  lemma NormalizedEmailMatchesIexact(email: string)
    ensures EqualsIgnoringCase(NormalizeEmail(email), email)
  {
    var r := NormalizeEmail(email);
    forall i | 0 <= i < |email|
      ensures LowerChar(r[i]) == LowerChar(email[i])
    {
      assert LowerChar(LowerChar(email[i])) == LowerChar(email[i]);
    }
  }

  datatype Profile = Profile(id: ProfileId, user: UserId, userType: UserType, needs: set<FeatureId>)

  datatype Feature = Feature(id: FeatureId, name: string, description: Option<string>)

  datatype Place = Place(id: PlaceId, owner: Option<UserId>, name: string, address: string,
                         placeType: PlaceType, description: Option<string>, website: Option<string>,
                         phoneNumber: Option<string>, features: set<FeatureId>,
                         createdAt: nat, updatedAt: nat)

  datatype Review = Review(id: ReviewId, place: PlaceId, user: UserId, rating: int,
                           accessibilityRating: Option<int>, comment: Option<string>,
                           verification: Verification, verifiedFeatures: set<FeatureId>,
                           missingFeatures: set<FeatureId>, createdAt: nat, updatedAt: nat)

  /** Every user row sits under its own id, below the id counter, and usernames are unique. */
  ghost predicate UsersOk(users: map<UserId, User>, next: nat)
  {
    && (forall u :: u in users ==> users[u].id == u && u < next)
    && (forall u, v :: u in users && v in users && u != v ==> users[u].username != users[v].username)
  }

  /** Exactly one profile per user, each naming its user and only existing features. */
  ghost predicate ProfilesOk(profiles: map<UserId, Profile>, userIds: set<UserId>,
                             featureIds: set<FeatureId>, next: nat)
  {
    && profiles.Keys == userIds
    && (forall u :: u in profiles ==>
          profiles[u].user == u && profiles[u].id < next && profiles[u].needs <= featureIds)
    && (forall u, v :: u in profiles && v in profiles && u != v ==> profiles[u].id != profiles[v].id)
  }

  /** Feature names are unique. */
  ghost predicate FeaturesOk(features: map<FeatureId, Feature>, next: nat)
  {
    && (forall f :: f in features ==> features[f].id == f && f < next)
    && (forall f, g :: f in features && g in features && f != g ==> features[f].name != features[g].name)
  }

  ghost predicate PlaceRowOk(p: Place, key: PlaceId, userIds: set<UserId>, featureIds: set<FeatureId>, next: nat)
  {
    && p.id == key && key < next
    && (p.owner.Some? ==> p.owner.value in userIds)
    && p.features <= featureIds
    && p.createdAt <= p.updatedAt
  }

  /** An owner, when present, is an existing user. */
  ghost predicate PlacesOk(places: map<PlaceId, Place>, userIds: set<UserId>, featureIds: set<FeatureId>, next: nat)
  {
    forall p :: p in places ==> PlaceRowOk(places[p], p, userIds, featureIds, next)
  }

  ghost predicate ReviewRowOk(r: Review, key: ReviewId, placeIds: set<PlaceId>, userIds: set<UserId>,
                              featureIds: set<FeatureId>, next: nat)
  {
    && r.id == key && key < next
    && r.place in placeIds && r.user in userIds
    && IsStars(r.rating)
    && (r.accessibilityRating.Some? ==> IsStars(r.accessibilityRating.value))
    && r.verifiedFeatures <= featureIds && r.missingFeatures <= featureIds
    && r.createdAt <= r.updatedAt
  }

  /** A review belongs to an existing place and an existing user, with ratings in 1..5. */
  ghost predicate ReviewsOk(reviews: map<ReviewId, Review>, placeIds: set<PlaceId>, userIds: set<UserId>,
                            featureIds: set<FeatureId>, next: nat)
  {
    forall r :: r in reviews ==> ReviewRowOk(reviews[r], r, placeIds, userIds, featureIds, next)
  }

  /** The reviews that remain when the user `id` is deleted (CASCADE). */
  function ReviewsNotBy(reviews: map<ReviewId, Review>, id: UserId): (r: map<ReviewId, Review>)
    ensures forall k :: k in r <==> k in reviews && reviews[k].user != id
    ensures forall k :: k in r ==> r[k] == reviews[k]
  {
    map k | k in reviews && reviews[k].user != id :: reviews[k]
  }

  /** The places after the user `id` is deleted (SET_NULL): same rows, no owner where it was `id`. */
  function Disowned(places: map<PlaceId, Place>, id: UserId): (r: map<PlaceId, Place>)
    ensures r.Keys == places.Keys
    ensures forall k :: k in r ==> r[k] == if places[k].owner == Some(id) then places[k].(owner := None) else places[k]
  {
    map k | k in places :: if places[k].owner == Some(id) then places[k].(owner := None) else places[k]
  }

  lemma ReviewsNotByOk(reviews: map<ReviewId, Review>, placeIds: set<PlaceId>, userIds: set<UserId>,
                       featureIds: set<FeatureId>, next: nat, id: UserId)
    requires ReviewsOk(reviews, placeIds, userIds, featureIds, next)
    ensures ReviewsOk(ReviewsNotBy(reviews, id), placeIds, userIds - {id}, featureIds, next)
  {
    var r := ReviewsNotBy(reviews, id);
    forall k | k in r ensures ReviewRowOk(r[k], k, placeIds, userIds - {id}, featureIds, next) {
      assert ReviewRowOk(reviews[k], k, placeIds, userIds, featureIds, next);
    }
  }

  lemma DisownedOk(places: map<PlaceId, Place>, userIds: set<UserId>, featureIds: set<FeatureId>, next: nat, id: UserId)
    requires PlacesOk(places, userIds, featureIds, next)
    ensures PlacesOk(Disowned(places, id), userIds - {id}, featureIds, next)
  {
    var r := Disowned(places, id);
    forall k | k in r ensures PlaceRowOk(r[k], k, userIds - {id}, featureIds, next) {
      assert PlaceRowOk(places[k], k, userIds, featureIds, next);
    }
  }

  lemma RemoveUserOk(users: map<UserId, User>, profiles: map<UserId, Profile>, featureIds: set<FeatureId>,
                     nextUser: nat, nextProfile: nat, id: UserId)
    requires UsersOk(users, nextUser) && ProfilesOk(profiles, users.Keys, featureIds, nextProfile)
    ensures UsersOk(users - {id}, nextUser)
    ensures ProfilesOk(profiles - {id}, (users - {id}).Keys, featureIds, nextProfile)
  {
    assert (profiles - {id}).Keys == profiles.Keys - {id};
    assert (users - {id}).Keys == users.Keys - {id};
  }

  /** Referential integrity, uniqueness and the choice domains of the five tables. */
  ghost predicate TablesOk(users: map<UserId, User>, profiles: map<UserId, Profile>,
                           features: map<FeatureId, Feature>, places: map<PlaceId, Place>,
                           reviews: map<ReviewId, Review>,
                           nextUser: nat, nextProfile: nat, nextFeature: nat, nextPlace: nat, nextReview: nat)
  {
    && UsersOk(users, nextUser)
    && ProfilesOk(profiles, users.Keys, features.Keys, nextProfile)
    && FeaturesOk(features, nextFeature)
    && PlacesOk(places, users.Keys, features.Keys, nextPlace)
    && ReviewsOk(reviews, places.Keys, users.Keys, features.Keys, nextReview)
  }

  /** The delete rules for a user keep the tables consistent. */
  lemma DeleteUserKeepsTables(users: map<UserId, User>, profiles: map<UserId, Profile>,
                              features: map<FeatureId, Feature>, places: map<PlaceId, Place>,
                              reviews: map<ReviewId, Review>,
                              nextUser: nat, nextProfile: nat, nextFeature: nat, nextPlace: nat, nextReview: nat,
                              id: UserId)
    requires TablesOk(users, profiles, features, places, reviews, nextUser, nextProfile, nextFeature, nextPlace, nextReview)
    ensures TablesOk(users - {id}, profiles - {id}, features, Disowned(places, id), ReviewsNotBy(reviews, id),
                     nextUser, nextProfile, nextFeature, nextPlace, nextReview)
  {
    ReviewsNotByOk(reviews, places.Keys, users.Keys, features.Keys, nextReview, id);
    DisownedOk(places, users.Keys, features.Keys, nextPlace, id);
    RemoveUserOk(users, profiles, features.Keys, nextUser, nextProfile, id);
    assert (users - {id}).Keys == users.Keys - {id};
  }

  /** The reviews that remain when the place `id` is deleted (CASCADE). */
  function ReviewsNotOn(reviews: map<ReviewId, Review>, id: PlaceId): (r: map<ReviewId, Review>)
    ensures forall k :: k in r <==> k in reviews && reviews[k].place != id
    ensures forall k :: k in r ==> r[k] == reviews[k]
  {
    map k | k in reviews && reviews[k].place != id :: reviews[k]
  }

  /** The delete rule for a place keeps the tables consistent. */
  lemma DeletePlaceKeepsTables(users: map<UserId, User>, profiles: map<UserId, Profile>,
                               features: map<FeatureId, Feature>, places: map<PlaceId, Place>,
                               reviews: map<ReviewId, Review>,
                               nextUser: nat, nextProfile: nat, nextFeature: nat, nextPlace: nat, nextReview: nat,
                               id: PlaceId)
    requires TablesOk(users, profiles, features, places, reviews, nextUser, nextProfile, nextFeature, nextPlace, nextReview)
    ensures TablesOk(users, profiles, features, places - {id}, ReviewsNotOn(reviews, id),
                     nextUser, nextProfile, nextFeature, nextPlace, nextReview)
  {
    var places' := places - {id};
    var reviews' := ReviewsNotOn(reviews, id);
    assert places'.Keys == places.Keys - {id};
    forall k | k in reviews' ensures ReviewRowOk(reviews'[k], k, places'.Keys, users.Keys, features.Keys, nextReview) {
      assert ReviewRowOk(reviews[k], k, places.Keys, users.Keys, features.Keys, nextReview);
    }
  }

  /** Places stay consistent when a user is added. */
  lemma PlacesOkWithMoreUsers(places: map<PlaceId, Place>, userIds: set<UserId>, more: set<UserId>,
                              featureIds: set<FeatureId>, next: nat)
    requires PlacesOk(places, userIds, featureIds, next) && userIds <= more
    ensures PlacesOk(places, more, featureIds, next)
  {
    forall p | p in places ensures PlaceRowOk(places[p], p, more, featureIds, next) {
      assert PlaceRowOk(places[p], p, userIds, featureIds, next);
    }
  }

  /** Reviews stay consistent when a user is added. */
  lemma ReviewsOkWithMoreUsers(reviews: map<ReviewId, Review>, placeIds: set<PlaceId>, userIds: set<UserId>,
                               more: set<UserId>, featureIds: set<FeatureId>, next: nat)
    requires ReviewsOk(reviews, placeIds, userIds, featureIds, next) && userIds <= more
    ensures ReviewsOk(reviews, placeIds, more, featureIds, next)
  {
    forall r | r in reviews ensures ReviewRowOk(reviews[r], r, placeIds, more, featureIds, next) {
      assert ReviewRowOk(reviews[r], r, placeIds, userIds, featureIds, next);
    }
  }

  /** Some user already has this username. */
  predicate UsernameTaken(users: map<UserId, User>, username: string)
  {
    exists u :: u in users && users[u].username == username
  }

  /** Inserting a user with a new username under the next id, together with
      its default profile under the next profile id, keeps the tables consistent. */
  lemma AddUserKeepsTables(users: map<UserId, User>, profiles: map<UserId, Profile>,
                           features: map<FeatureId, Feature>, places: map<PlaceId, Place>,
                           reviews: map<ReviewId, Review>,
                           nextUser: nat, nextProfile: nat, nextFeature: nat, nextPlace: nat, nextReview: nat,
                           u: User)
    requires TablesOk(users, profiles, features, places, reviews, nextUser, nextProfile, nextFeature, nextPlace, nextReview)
    requires u.id == nextUser
    requires !UsernameTaken(users, u.username)
    ensures TablesOk(users[u.id := u], profiles[u.id := Profile(nextProfile, u.id, DefaultUserType, {})], features,
                     places, reviews, nextUser + 1, nextProfile + 1, nextFeature, nextPlace, nextReview)
  {
    var users' := users[u.id := u];
    var profiles' := profiles[u.id := Profile(nextProfile, u.id, DefaultUserType, {})];
    assert users'.Keys == users.Keys + {u.id};
    assert profiles'.Keys == profiles.Keys + {u.id};
    assert UsersOk(users', nextUser + 1);
    assert ProfilesOk(profiles', users'.Keys, features.Keys, nextProfile + 1);
    PlacesOkWithMoreUsers(places, users.Keys, users'.Keys, features.Keys, nextPlace);
    ReviewsOkWithMoreUsers(reviews, places.Keys, users.Keys, users'.Keys, features.Keys, nextReview);
  }

  /** The five tables.  Profiles are keyed by the id of the user they belong
      to, which is what the one-to-one link `UserProfile.user` amounts to. */
  class Store {
    var users: map<UserId, User>
    var profiles: map<UserId, Profile>
    var features: map<FeatureId, Feature>
    var places: map<PlaceId, Place>
    var reviews: map<ReviewId, Review>
    var nextUserId: nat
    var nextProfileId: nat
    var nextFeatureId: nat
    var nextPlaceId: nat
    var nextReviewId: nat

    /** Referential integrity, uniqueness and the choice domains. */
    ghost predicate Valid()
      reads this
    {
      TablesOk(users, profiles, features, places, reviews,
               nextUserId, nextProfileId, nextFeatureId, nextPlaceId, nextReviewId)
    }

    constructor ()
      ensures Valid()
      ensures users == map[] && profiles == map[] && features == map[]
      ensures places == map[] && reviews == map[]
    {
      users, profiles, features, places, reviews := map[], map[], map[], map[], map[];
      nextUserId, nextProfileId, nextFeatureId, nextPlaceId, nextReviewId := 0, 0, 0, 0, 0;
    }

    /** Inserting a user row; the post_save receiver then inserts exactly one
        profile for it, of the default type and with no needs.  The username
        column is unique. */
    method CreateUser(username: string, email: string, firstName: string, lastName: string,
                      password: string)
      returns (r: Result<UserId, string>)
      requires Valid()
      modifies this
      ensures Valid()
      ensures r.Err? <==> UsernameTaken(old(users), username)
      ensures r.Err? ==> unchanged(this)
      ensures r.Ok? ==> && r.value !in old(users)
                        && users == old(users)[r.value := User(r.value, username, email, firstName, lastName, password)]
                        && profiles == old(profiles)[r.value := Profile(old(nextProfileId), r.value, DefaultUserType, {})]
      ensures features == old(features) && places == old(places) && reviews == old(reviews)
    {
      if UsernameTaken(users, username) {
        return Err("IntegrityError: UNIQUE constraint failed: auth_user.username");
      }
      var id := nextUserId;
      var user := User(id, username, email, firstName, lastName, password);
      var us, pr := users[id := user], profiles[id := Profile(nextProfileId, id, DefaultUserType, {})];
      AddUserKeepsTables(users, profiles, features, places, reviews,
                         nextUserId, nextProfileId, nextFeatureId, nextPlaceId, nextReviewId, user);
      ghost var nf, npl, nr := nextFeatureId, nextPlaceId, nextReviewId;
      users, profiles, nextUserId, nextProfileId := us, pr, nextUserId + 1, nextProfileId + 1;
      assert nextFeatureId == nf && nextPlaceId == npl && nextReviewId == nr;
      r := Ok(id);
    }

    /** Saving an existing user: the receiver re-saves the existing profile
        and never inserts a second one. */
    method SaveUser(id: UserId, username: string, email: string, firstName: string, lastName: string)
      returns (ok: bool)
      requires Valid() && id in users
      modifies this
      ensures Valid()
      ensures ok <==> forall u :: u in old(users) && u != id ==> old(users)[u].username != username
      ensures ok ==> users == old(users)[id := old(users)[id].(username := username, email := email,
                                                                firstName := firstName, lastName := lastName)]
      ensures !ok ==> users == old(users)
      ensures profiles == old(profiles) && features == old(features)
      ensures places == old(places) && reviews == old(reviews)
    {
      ok := forall u :: u in users && u != id ==> users[u].username != username;
      if ok {
        users := users[id := users[id].(username := username, email := email,
                                        firstName := firstName, lastName := lastName)];
      }
    }

    /** Saving a profile row: its type and its needs. */
    method SaveProfile(user: UserId, userType: UserType, needs: set<FeatureId>)
      requires Valid() && user in profiles && needs <= features.Keys
      modifies this
      ensures Valid()
      ensures profiles == old(profiles)[user := old(profiles)[user].(userType := userType, needs := needs)]
      ensures users == old(users) && features == old(features)
      ensures places == old(places) && reviews == old(reviews)
    {
      profiles := profiles[user := profiles[user].(userType := userType, needs := needs)];
    }

    /** Inserting a feature; its name column is unique. */
    method CreateFeature(name: string, description: Option<string>) returns (r: Result<FeatureId, string>)
      requires Valid()
      modifies this
      ensures Valid()
      ensures r.Err? <==> exists f :: f in old(features) && old(features)[f].name == name
      ensures r.Err? ==> features == old(features)
      ensures r.Ok? ==> r.value !in old(features) && features == old(features)[r.value := Feature(r.value, name, description)]
      ensures users == old(users) && profiles == old(profiles)
      ensures places == old(places) && reviews == old(reviews)
    {
      if exists f :: f in features && features[f].name == name {
        return Err("IntegrityError: UNIQUE constraint failed: wheel_accessibilityfeature.name");
      }
      var id := nextFeatureId;
      features := features[id := Feature(id, name, description)];
      nextFeatureId := nextFeatureId + 1;
      r := Ok(id);
    }

    /** Inserting a place: both stamps take the current time. */
    method InsertPlace(p: Place, now: nat) returns (id: PlaceId)
      requires Valid()
      requires p.owner.Some? ==> p.owner.value in users
      requires p.features <= features.Keys
      modifies this
      ensures Valid()
      ensures id !in old(places)
      ensures places == old(places)[id := p.(id := id, createdAt := now, updatedAt := now)]
      ensures users == old(users) && profiles == old(profiles)
      ensures features == old(features) && reviews == old(reviews)
    {
      id := nextPlaceId;
      places := places[id := p.(id := id, createdAt := now, updatedAt := now)];
      nextPlaceId := nextPlaceId + 1;
    }

    /** Saving an existing place: `created_at` is kept, `updated_at` becomes the current time. */
    method SavePlace(p: Place, now: nat)
      requires Valid() && p.id in places
      requires p.owner.Some? ==> p.owner.value in users
      requires p.features <= features.Keys
      requires now >= places[p.id].createdAt
      modifies this
      ensures Valid()
      ensures places == old(places)[p.id := p.(createdAt := old(places)[p.id].createdAt, updatedAt := now)]
      ensures users == old(users) && profiles == old(profiles)
      ensures features == old(features) && reviews == old(reviews)
    {
      places := places[p.id := p.(createdAt := places[p.id].createdAt, updatedAt := now)];
    }

    /** Inserting a review: both stamps take the current time. */
    method InsertReview(r: Review, now: nat) returns (id: ReviewId)
      requires Valid()
      requires r.place in places && r.user in users
      requires IsStars(r.rating)
      requires r.accessibilityRating.Some? ==> IsStars(r.accessibilityRating.value)
      requires r.verifiedFeatures <= features.Keys && r.missingFeatures <= features.Keys
      modifies this
      ensures Valid()
      ensures id !in old(reviews)
      ensures reviews == old(reviews)[id := r.(id := id, createdAt := now, updatedAt := now)]
      ensures users == old(users) && profiles == old(profiles)
      ensures features == old(features) && places == old(places)
    {
      id := nextReviewId;
      reviews := reviews[id := r.(id := id, createdAt := now, updatedAt := now)];
      nextReviewId := nextReviewId + 1;
    }

    /** Saving an existing review: `created_at` is kept, `updated_at` becomes the current time. */
    method SaveReview(r: Review, now: nat)
      requires Valid() && r.id in reviews
      requires r.place in places && r.user in users
      requires IsStars(r.rating)
      requires r.accessibilityRating.Some? ==> IsStars(r.accessibilityRating.value)
      requires r.verifiedFeatures <= features.Keys && r.missingFeatures <= features.Keys
      requires now >= reviews[r.id].createdAt
      modifies this
      ensures Valid()
      ensures reviews == old(reviews)[r.id := r.(createdAt := old(reviews)[r.id].createdAt, updatedAt := now)]
      ensures users == old(users) && profiles == old(profiles)
      ensures features == old(features) && places == old(places)
    {
      reviews := reviews[r.id := r.(createdAt := reviews[r.id].createdAt, updatedAt := now)];
    }

    /** Deleting a user: CASCADE removes the profile and the user's reviews,
        SET_NULL keeps the user's places with no owner. */
    method DeleteUser(id: UserId)
      requires Valid() && id in users
      modifies this
      ensures Valid()
      ensures users == old(users) - {id}
      ensures profiles == old(profiles) - {id}
      ensures reviews == ReviewsNotBy(old(reviews), id)
      ensures places == Disowned(old(places), id)
      ensures features == old(features)
    {
      var u, pr, pl, rv := users - {id}, profiles - {id}, Disowned(places, id), ReviewsNotBy(reviews, id);
      DeleteUserKeepsTables(users, profiles, features, places, reviews,
                            nextUserId, nextProfileId, nextFeatureId, nextPlaceId, nextReviewId, id);
      ghost var nu, np, nf, npl, nr := nextUserId, nextProfileId, nextFeatureId, nextPlaceId, nextReviewId;
      users, profiles, places, reviews := u, pr, pl, rv;
      assert nextUserId == nu && nextProfileId == np && nextFeatureId == nf && nextPlaceId == npl && nextReviewId == nr;
    }

    /** Deleting a place: CASCADE removes its reviews. */
    method DeletePlace(id: PlaceId)
      requires Valid() && id in places
      modifies this
      ensures Valid()
      ensures places == old(places) - {id}
      ensures reviews == ReviewsNotOn(old(reviews), id)
      ensures users == old(users) && profiles == old(profiles) && features == old(features)
    {
      var pl, rv := places - {id}, ReviewsNotOn(reviews, id);
      DeletePlaceKeepsTables(users, profiles, features, places, reviews,
                             nextUserId, nextProfileId, nextFeatureId, nextPlaceId, nextReviewId, id);
      ghost var nu, np, nf, npl, nr := nextUserId, nextProfileId, nextFeatureId, nextPlaceId, nextReviewId;
      places, reviews := pl, rv;
      assert nextUserId == nu && nextProfileId == np && nextFeatureId == nf && nextPlaceId == npl && nextReviewId == nr;
    }

    method DeleteReview(id: ReviewId)
      requires Valid() && id in reviews
      modifies this
      ensures Valid()
      ensures reviews == old(reviews) - {id}
      ensures users == old(users) && profiles == old(profiles)
      ensures features == old(features) && places == old(places)
    {
      reviews := reviews - {id};
    }
  }

  /** What the delete rules leave of a user's traces: no profile, no review
      and no owned place refers to a deleted user. */
  lemma DeletedUserLeavesNoReferences(s: Store, id: UserId)
    requires s.Valid() && id !in s.users
    ensures id !in s.profiles
    ensures forall r :: r in s.reviews ==> s.reviews[r].user != id
    ensures forall p :: p in s.places ==> s.places[p].owner != Some(id)
  {
  }
}
