# Wheelchair accessibility guide — a Dafny model

This project models the core of a web application for people who use a wheelchair.
- **Seekers** describe the accessibility features they need.
- **Providers** register places (restaurants, cafes, shops, venues) together with the features those places offer.
- Any signed-in user reviews a place. A review says which features were found and which were missing.

The backend is a Django REST Framework API. There are two front-ends: a Next.js client and a React client. The model covers:

- **Models**: the schema and its integrity rules, in module `Models`. This covers:
  - the choice domains and defaults;
  - the user profile created with every user;
  - CASCADE and SET_NULL on deletion;
  - the `created_at` and `updated_at` stamps.

  `Store` is a class whose five tables are maps. Each state-changing method keeps `Valid()`, the referential-integrity and uniqueness invariant.
- **Permissions**: the five permission classes, in `Permissions`.
- **Serializers**: the registration serializer, in `Serializers`. This covers:
  - the field checks;
  - the case-insensitive uniqueness of usernames and e-mail addresses;
  - the password confirmation;
  - user creation, with the e-mail normalisation `create_user` applies, and the response body.

  The module also covers the place serializer's field validation for POST, PUT and PATCH, and how an update is saved. It covers the optional many-to-many id fields and the checks on review input too.
- **Views**: the views, in `Views`. This covers:
  - the permission classes each action selects, and the order in which the framework applies them;
  - the profile lookup;
  - the ranked recommendations;
  - the review list with its `place_id` filter;
  - creating and updating places, reviews and profiles, with the requester injected as owner or author.
- **Next.js client**:
  - the error `apiClient` throws for a rejected request, and what a page's `catch` reads from it (`ApiClient`);
  - the places page filter (`PlacesPage`);
  - the review form (`ReviewForm`);
  - the dashboard (`Dashboard`);
  - the sign-up page (`RegisterPage`), with the `register` function of the auth provider.
- **React client**:
  - the add-review page (`AddReviewPage`);
  - the sign-up page (`FrontendRegisterPage`).

Helper modules:

- `Common`: filtering, removal, case folding, substring search.
- `Sorting`: a stable sort proved sorted and a permutation.
- `Parsing`: decimal numerals, Python's `int()` and JavaScript's `parseInt`.
- `Js`: `trim`, `join`, and the UTF-16 `length`.

The model takes these forms:

- Pure logic (permissions, serializer checks, filters, orderings) is written as functions and lemmas.
- What the source changes in place is written as a class with `modifies` clauses:
  - the database tables;
  - each page's React state.

  The state of a page lives in a class whose methods are the event handlers. A field `sent` records what was posted to the API. The API's answer is a parameter.
- Loops are methods with invariants. One example is the React sign-up page's `for...in` loop over the error body.

## Model

| member | source | states |
|---|---|---|
| Models.UserTypeCodes | wheel/models.py:61-67 | the three user type codes (seeker, provider, admin) parse back to their type, and only its own code parses to a type |
| Models.PlaceTypeCodes | wheel/models.py:22-28 | the five place type codes round-trip, and only its own code parses to a type |
| Models.VerificationCodes | wheel/models.py:89-94 | the four verification codes round-trip, and only its own code parses to a choice |
| Models.ReviewsNotBy | wheel/models.py:97 | deleting a user keeps exactly the reviews by other users, unchanged (CASCADE on `Review.user`) |
| Models.Disowned | wheel/models.py:30 | deleting a user keeps every place; the owner is cleared exactly where it was that user (SET_NULL) |
| Models.ReviewsNotByOk | wheel/models.py:96-97 | the reviews left after the CASCADE still name existing places and users, with ratings 1..5 |
| Models.DisownedOk | wheel/models.py:30 | after SET_NULL every remaining owner is an existing user |
| Models.RemoveUserOk | wheel/models.py:66 | removing a user and its profile (CASCADE on `UserProfile.user`) keeps one profile per user |
| Models.DeleteUserKeepsTables | wheel/models.py:59-97 | the three delete rules together preserve referential integrity of all five tables |
| Models.Store.constructor | wheel/models.py:7-110 | the empty database satisfies the integrity invariant |
| Models.Store.CreateUser | wheel/models.py:80-84 | a new user gets exactly one new profile, of type seeker and with no needs; a duplicate username is refused and nothing changes |
| Models.Store.SaveUser | wheel/models.py:80-84 | re-saving a user never creates a second profile; the username stays unique |
| Models.Store.SaveProfile | wheel/models.py:59-74 | a profile's type and needs are replaced and nothing else changes |
| Models.Store.CreateFeature | wheel/models.py:9 | feature names are unique: a taken name is refused, otherwise one feature is added |
| Models.Store.InsertPlace | wheel/models.py:39-40 | a new place gets a fresh id and both stamps equal the current time |
| Models.Store.SavePlace | wheel/models.py:39-40 | saving keeps `created_at` and sets `updated_at` to the current time |
| Models.Store.InsertReview | wheel/models.py:96-107 | a new review of an existing place by an existing user, ratings 1..5, gets a fresh id and both stamps |
| Models.Store.SaveReview | wheel/models.py:106-107 | saving keeps `created_at` and sets `updated_at` |
| Models.Store.DeleteUser | wheel/models.py:30-97 | deleting a user removes its profile and reviews and orphans its places, keeping the invariant |
| Models.Store.DeletePlace | wheel/models.py:96 | deleting a place removes exactly its reviews |
| Models.ReviewsNotOn | wheel/models.py:96 | the reviews left after a place is deleted are exactly those on other places, unchanged |
| Models.DeletePlaceKeepsTables | wheel/models.py:96 | removing a place with its reviews preserves referential integrity of all five tables |
| Models.AddUserKeepsTables | wheel/models.py:80-84 | inserting a user with a new username together with its default profile preserves referential integrity of all five tables |
| Models.Store.DeleteReview | wheel/models.py:87-110 | deleting a review removes only that review |
| Models.DeletedUserLeavesNoReferences | wheel/models.py:66-97 | in a consistent store, no profile, review or owned place refers to a user that does not exist |
| Models.NormalizeEmail | wheel/serializers.py:104-111 | the stored address has the validated one's length and local part, its domain after the last "@" lower-cased; an address without "@" is stored as sent |
| Models.NormalizeEmailIdempotent | wheel/serializers.py:104-111 | normalising a stored address again changes nothing |
| Models.NormalizedEmailMatchesIexact | wheel/serializers.py:73-77 | the stored address equals the validated one under `iexact`, the lookup of the uniqueness check |
| Permissions.SafeMethodsAlwaysAllowed | wheel/permissions.py:8-31 | GET, HEAD and OPTIONS pass both owner-or-read-only checks for anyone |
| Permissions.OwnerWriteIff | wheel/permissions.py:8-19 | a write passes IsOwnerOrReadOnly exactly when the object has an `owner` and it is the requester |
| Permissions.NoOwnerAttributeDenied | wheel/permissions.py:13-18 | an object without an `owner` attribute is never writable through IsOwnerOrReadOnly |
| Permissions.OrphanedPlaceWritableByNobody | wheel/permissions.py:19 | a place whose owner is null is writable by nobody, anonymous requesters included |
| Permissions.OneWriterPerObject | wheel/permissions.py:8-19 | at most one user may write a given object |
| Permissions.ReviewWriteIff | wheel/permissions.py:27-31 | a write passes IsReviewOwnerOrReadOnly exactly for the review's author |
| Permissions.ProfileOwnerIgnoresMethod | wheel/permissions.py:35-37 | IsProfileOwner gives the same verdict for every method, true only for the profile's own user |
| Permissions.RolesExclusive | wheel/permissions.py:43-51 | the provider and seeker checks exclude each other, refuse anonymous requests and compare the stored type code |
| Serializers.Trim | wheel/serializers.py:48-53 | a trimmed value is no longer than the input and neither starts nor ends with whitespace |
| Serializers.TrimIsStrip | wheel/serializers.py:48-53 | trimming removes leading and then trailing whitespace, as `str.strip` does |
| Serializers.TextField | wheel/serializers.py:48-53 | a missing value is "required", `null` "may not be null", a blank one "blank"; an accepted value is the trimmed input, non-empty, within `max_length`, without NUL and passing the extra check |
| Serializers.Field | wheel/serializers.py:48-54 | a key the body lacks is a field left out; otherwise the field is what the body sends, a string or `null` |
| Serializers.UsernameField | wheel/serializers.py:79-84 | an accepted username passes the text checks and matches no existing username ignoring case |
| Serializers.EmailField | wheel/serializers.py:73-77 | an accepted address passes the e-mail checks and matches no existing address ignoring case |
| Serializers.PasswordField | wheel/serializers.py:86-92 | an accepted password passes the text checks and every password validator |
| Serializers.UserTypeField | wheel/serializers.py:54 | `user_type` is required, not nullable, and must be one of the three codes; anything else is refused with the choice message |
| Serializers.RegisterFieldErrors | wheel/serializers.py:46-92 | every field is checked independently: a field has an error entry exactly when it fails, with its own messages |
| Serializers.NoFieldErrorsIff | wheel/serializers.py:46-92 | there are no field errors exactly when all seven fields pass |
| Serializers.Cleaned | wheel/serializers.py:48-54 | the validated data are the trimmed inputs and the parsed account type |
| Serializers.CleanedMeetsChecks | wheel/serializers.py:73-92 | validated data hold a new username and e-mail, an address the e-mail check accepts, a password the validators accept, and names of 1 to 150 characters |
| Serializers.ValidateRegistration | wheel/serializers.py:94-99 | errors are never empty; accepted data passed every field and the two passwords agree |
| Serializers.MissingFieldIsRequired | wheel/serializers.py:48-54 | leaving out any of the seven fields is refused with "This field is required." under that field |
| Serializers.NullFieldRefused | wheel/serializers.py:48-54 | any of the seven fields sent as `null` is refused with "This field may not be null." under that field |
| Serializers.TakenUsernameRejected | wheel/serializers.py:79-84 | a username equal to an existing one ignoring case is refused with the uniqueness message |
| Serializers.TakenEmailRejected | wheel/serializers.py:73-77 | an e-mail address equal to an existing one ignoring case is refused with the uniqueness message |
| Serializers.UnknownUserTypeRejected | wheel/serializers.py:54 | an unknown account type is refused with the invalid-choice message naming it |
| Serializers.MismatchReportedOnPassword2 | wheel/serializers.py:94-99 | when only the passwords differ, the sole error is "Password fields didn't match." under `password2` |
| Serializers.RegistrationAcceptedIff | wheel/serializers.py:46-99 | a registration is accepted exactly when every field passes and the trimmed passwords are equal |
| Serializers.RegisterRepresentation | wheel/serializers.py:55-69 | the response has id, username, email and names, plus `user_type` exactly when a profile exists, and never a password |
| Serializers.CreateRegisteredUser | wheel/serializers.py:102-118 | creation inserts exactly one user under a new id, with `password` (not `password2`) and the normalised e-mail address, gives the automatic profile the requested type, and leaves all other rows alone |
| Serializers.RelatedIds | wheel/serializers.py:17-23 | an id list is accepted exactly when every id names a feature, giving the set of those ids; otherwise the first unknown id is reported |
| Serializers.ApplyRelation | wheel/serializers.py:154-159 | an omitted id field keeps the relation; a supplied one replaces it after validation |
| Serializers.EmptyListClearsRelation | wheel/serializers.py:17-23 | supplying an empty id list clears the relation |
| Serializers.SuppliedIdsReplaceRelation | wheel/serializers.py:127-133 | a list of existing ids becomes the relation exactly, whatever it held before |
| Serializers.ReviewPlaceField | wheel/models.py:96 | `place` is required and not nullable: left out gives "This field is required.", `null` "This field may not be null.", an id naming no place `Invalid pk "N" - object does not exist.`; otherwise the place id |
| Serializers.StarsField | wheel/models.py:98-99 | a rating is a choice among 1..5, refused with `"N" is not a valid choice.` otherwise; `rating` must be sent and not `null`, `accessibility_rating` may be left out or `null` |
| Serializers.VerificationField | wheel/models.py:89-102 | `accessibility_verification` may be left out (it has a default) but not sent as `null`; a code outside the four choices is refused as an invalid choice; otherwise the choice whose code was sent |
| Serializers.ReviewErrors | wheel/serializers.py:150-176 | a review has an error under a field exactly when: the place is left out, `null` or unknown; the rating is left out, `null` or outside 1..5; the accessibility rating is sent outside 1..5; the comment is refused as a text; the verification is `null` or not a choice; an id list is `null` or names an unknown feature |
| Serializers.PlaceRequired | wheel/views.py:401-403 | a review request without `place`, or with `place` `null`, is refused under `place` with the required or the not-null message |
| Serializers.ValidateReview | wheel/serializers.py:150-176 | a review request is refused exactly when some field has an error, with every field's messages; accepted data names an existing place, ratings among 1..5 and existing features |
| Serializers.ValidReviewFields | wheel/models.py:96-104 | accepted data holds the place and ratings as sent, the trimmed comment, the choice whose code was sent, and the sets the id lists name; a field left out stays out |
| Serializers.ReadOnlyReviewFieldsIgnored | wheel/serializers.py:172 | values sent for `user`, `created_at` or `updated_at` make no difference to the validated data |
| Serializers.RequiredText | wheel/models.py:31-32 | a required text is refused when left out of a full request, `null`, blank once trimmed, too long or holding a NUL, each with its own message; otherwise it is the trimmed text, or skipped when left out of a PATCH |
| Serializers.OptionalText | wheel/models.py:36-38 | a blankable, nullable text passes when left out or `null`; a blank one is stored as ""; any other is trimmed and refused exactly when it breaks its length limit, holds a NUL or fails its validator |
| Serializers.PlaceTypeField | wheel/models.py:35 | `place_type` is accepted exactly when its code, untrimmed, names a place type; `null`, and a missing value on a full request, are refused |
| Serializers.FeatureIdsField | wheel/serializers.py:127-133 | `feature_ids` may be left out; `null` or an unknown id is refused; otherwise it gives the set of ids, all of them existing features |
| Serializers.PlaceFieldMessagesIff | wheel/serializers.py:124-147 | a place field has messages exactly when it is refused |
| Serializers.PlaceErrors | wheel/serializers.py:124-147 | the error body has an entry for exactly the refused fields, each holding that field's messages |
| Serializers.ValidatePlace | wheel/serializers.py:124-147 | a place request is refused exactly when some field has an error, with all of them; an accepted full request has a name, an address and a type, and only existing features |
| Serializers.ValidPlaceRequiredFields | wheel/models.py:31-35 | an accepted request stores a required field exactly when it was sent: `name` and `address` trimmed and non-blank, the name at most 200 characters, `place_type` the code sent |
| Serializers.ValidPlaceOptionalFields | wheel/models.py:36-38 | an accepted request stores each optional text trimmed, or left out or `null` as sent; a non-blank website is a valid URL of at most 200 characters, a phone number at most 20 characters |
| Serializers.ReadOnlyPlaceFieldsIgnored | wheel/serializers.py:147 | values sent for `owner`, `created_at` or `updated_at` make no difference to validation |
| Serializers.BlankNameRefused | wheel/models.py:31 | a name that is blank once trimmed refuses the request, with "This field may not be blank." under `name` |
| Serializers.ApplyPlace | wheel/serializers.py:124-147 | saving an update writes each field present in the validated data and keeps every other field, the owner and both stamps |
| Serializers.EmptyEditKeepsPlace | wheel/serializers.py:124-147 | an update with no fields leaves the place as it was |
| Serializers.ApplyPlaceIdempotent | wheel/serializers.py:124-147 | applying the same update twice is applying it once |
| Serializers.PartialUpdateKeepsOmitted | wheel/serializers.py:124-147 | a PATCH keeps every field of the stored place that it does not send |
| Serializers.CleanComment | wheel/models.py:100 | the stored comment is the trimmed text, "" when blank, and none when left out or `null` |
| Views.RouteAction | wheel/urls.py:45-48 | OPTIONS selects metadata, HEAD follows GET, item actions only on item routes, and a safe method selects a read action |
| Views.PlacePolicies | wheel/views.py:319-332 | creating needs login and the provider role, changing or deleting needs login and ownership, anything else is open |
| Views.ReviewPolicies | wheel/views.py:366-376 | creating needs login, changing or deleting needs login and authorship, anything else is open |
| Views.CheckPermissions | wheel/views.py:319-332 | a request passes exactly when every permission class allows it; a refusal is 401 for anonymous requests, 403 otherwise |
| Views.CheckObjectPermissions | wheel/views.py:271 | an object passes exactly when every class allows it, with the same 401/403 refusal |
| Views.CheckTwo | wheel/views.py:258 | a pair of classes passes exactly when both do |
| Views.PlaceCreateIffProvider | wheel/views.py:324-326 | creating a place succeeds exactly for providers; anonymous gets 401, other users 403 |
| Views.PlaceWriteIffOwner | wheel/views.py:327-329 | changing or deleting a place succeeds exactly for its owner; 401 for anonymous, 404 for a missing place |
| Views.PlaceReadsOpen | wheel/views.py:330-331 | reading places is open to everyone; only a missing place gives 404 |
| Views.OrphanedPlaceFrozen | wheel/views.py:327-329 | a place whose owner was deleted can be changed or deleted by nobody |
| Views.ReviewCreateIffAuthenticated | wheel/views.py:368-370 | posting a review needs only a login |
| Views.ReviewWriteIffAuthor | wheel/views.py:371-373 | changing or deleting a review succeeds exactly for its author; 401 for anonymous, 404 for a missing review |
| Views.UnmappedMethodNotAllowed | wheel/views.py:298-332 | PUT, PATCH and DELETE on the collection and POST on an item are 405 |
| Views.ProfileObject | wheel/views.py:260-272 | anonymous gets 401, a missing profile 404, and an allowed request gets the requester's own profile |
| Views.ProfileObjectIsOwn | wheel/views.py:260-272 | with every profile under its user, the lookup succeeds exactly for a logged-in requester who has a profile |
| Views.RankLeIsTotalPreorder | wheel/views.py:460 | ordering by descending match count, then name, is a total preorder |
| Views.Annotate | wheel/views.py:453-458 | each place is paired with the number of the requester's needs it meets |
| Views.ByNameIsTotalPreorder | wheel/views.py:312 | ordering places by name is a total preorder |
| Views.PlaceList | wheel/views.py:308-312 | the place list is ordered by name and holds every row of the table once, with its review count |
| Views.PlaceListExact | wheel/views.py:308-312 | a row is listed exactly when it is a place of the table carrying its own review count; the list is as long as the table |
| Views.ReviewCountAfterInsert | wheel/views.py:310-311 | adding a review raises `review_count` of its place by one and of no other place |
| Views.Recommend | wheel/views.py:423-464 | no needs or no profile gives no places; the result is sorted by match count descending, then name |
| Views.RecommendationsSound | wheel/views.py:447-458 | every recommended place is in the table, shares a need, and carries its true match count between 1 and the number of needs |
| Views.RecommendationsComplete | wheel/views.py:447-449 | every place sharing a need is recommended with its count |
| Views.RecommendationsDistinct | wheel/views.py:446-449 | each place is recommended at most once |
| Views.RecommendationRequest | wheel/views.py:415-464 | only seekers get recommendations (401/403 otherwise), and each carries a positive match count against their own needs |
| Views.NewerFirstIsTotalPreorder | wheel/views.py:362 | ordering reviews newest first is a total preorder |
| Views.ReviewList | wheel/views.py:378-395 | reviews come newest first; no or empty `place_id` lists them all, a numeric one exactly that place's, a non-numeric one none |
| Views.ReviewListOfPlace | wheel/views.py:384-390 | asking with a place's decimal id lists exactly the reviews of that place |
| Views.NewPlace | wheel/views.py:334-339 | the new place is owned by the requester, with the validated name, address and type; an optional text is set exactly when it was sent, and features default to none |
| Views.CreatePlace | wheel/views.py:334-339 | a request with field errors is refused with all of them and writes nothing; otherwise exactly one place, owned by the requester and built from the validated data, is added and no other table changes |
| Views.NewReview | wheel/models.py:96-104 | the new review is by the requester and holds the validated fields; a verification left out becomes unverified and an id list left out no features |
| Views.CreateReview | wheel/views.py:397-405 | a request refused by validation gets every field error and writes nothing; otherwise exactly one review is added, by the requester, holding the validated data, with a fresh id and both stamps `now` |
| Views.UpdatePlace | wheel/serializers.py:124-147 | PUT, or PATCH with `partial`: a refused request writes nothing; otherwise the place takes the fields of the validated data and keeps the rest, `updated_at` becomes the current time, and no other row changes |
| Views.UpdateProfile | wheel/serializers.py:13-27 | an update sets `user_type` when sent and replaces the needs only when `needs_ids` is sent |
| Views.Register | wheel/views.py:227-233 | an invalid request writes nothing and returns the errors; a valid one inserts exactly one user under a new id, with the validated fields and the normalised address, and one profile of the requested type, changes no other row, and returns the representation without passwords |
| Parsing.DecimalRoundTrip | accessibility-app/app/dashboard/page.tsx:119 | a place id written in decimal reads back as the same id |
| Parsing.PyIntRoundTrip | wheel/views.py:389 | Python's `int()` reads a decimal id back as that id |
| Parsing.JsParseIntReadsDecimalPrefix | accessibility-frontend/src/pages/AddReviewPage.jsx:94 | `parseInt` of a route id that starts with a decimal number gives that number |
| Sorting.Sort | accessibility-app/app/dashboard/page.tsx:157-163 | sorting gives an ordered permutation of its input |
| Sorting.SortStable | accessibility-app/app/dashboard/page.tsx:157-163 | the sort is stable: among items the order does not tell apart, the sorted list keeps their original order |
| Sorting.SortKeepsTiesInOrder | accessibility-app/app/dashboard/page.tsx:157-163 | items that tie keep their original order |
| Js.TrimEmptyIff | accessibility-app/components/review-form.tsx:72 | a comment trims to nothing exactly when it is all whitespace |
| Js.TrimIsStrip | accessibility-app/components/review-form.tsx:72 | `trim()` removes the leading and then the trailing whitespace, and nothing else |
| Js.JoinLength | accessibility-app/components/review-form.tsx:90-93 | joining puts exactly one separator between neighbours |
| Js.Utf16Length | accessibility-app/app/register/page.tsx:61 | `length` counts characters outside the Basic Multilingual Plane twice, so it lies between the character count and twice that |
| Js.ValueText | accessibility-frontend/src/pages/RegisterPage.jsx:66-74 | a list of messages is joined, a string shown as it is; a single message is shown alone |
| Js.JoinPart | accessibility-app/components/review-form.tsx:91-93 | each part appears in the joined text at its offset, followed by the separator when another part comes next, and the parts appear in order |
| ApiClient.Message | accessibility-app/lib/apiClient.ts:89-129 | the thrown message is the body's truthy `detail`, else "Request failed with status N"; an unparsed body gives its status line; a failure without a response gives its own message or the fixed network message, never blank |
| ApiClient.ResponseData | accessibility-app/lib/apiClient.ts:101-129 | `err.response.data` is set exactly when the status is non-zero and the body is an object with a truthy `data` entry, and it is that entry |
| ApiClient.Summary | accessibility-app/components/review-form.tsx:84-99 | the one-line error is never blank when the fallback is not |
| ApiClient.DrfBodyShowsMessage | accessibility-app/components/review-form.tsx:84-99 | a body without a `data` entry, as DRF sends, is shown as the error's message, never entry by entry |
| ApiClient.FieldErrorsShowStatus | accessibility-app/components/review-form.tsx:84-99 | field errors (no `detail`) are shown only as "Request failed with status N" |
| ApiClient.DetailShown | accessibility-app/components/review-form.tsx:84-99 | a refusal with a non-empty `detail` is shown as that detail |
| PlacesPage.FilteredPlaces | accessibility-app/app/places/page.tsx:62-78 | a place is shown exactly when it passes the search, type and feature tests, each kept as often as in the input |
| PlacesPage.FilteredPlacesKeepOrder | accessibility-app/app/places/page.tsx:62 | filtering keeps the order of the places |
| PlacesPage.NoFiltersShowAll | accessibility-app/app/places/page.tsx:62-78 | with nothing typed or checked every place is shown, in order |
| PlacesPage.SearchIffOccurs | accessibility-app/app/places/page.tsx:65-69 | a non-empty search matches exactly when the lower-cased term occurs in the name, the description or the address |
| PlacesPage.MoreFeaturesFewerPlaces | accessibility-app/app/places/page.tsx:73-75 | selected features are conjunctive: adding one can only hide places |
| PlacesPage.Dedup | accessibility-app/app/places/page.tsx:81 | removing duplicates keeps every value once and no other |
| PlacesPage.PlaceTypesExact | accessibility-app/app/places/page.tsx:81 | the type filters offered are exactly the places' types, each once, in strictly ascending order |
| PlacesPage.ToggleType | accessibility-app/app/places/page.tsx:148 | checking a type appends it, unchecking removes every occurrence, and other selections are untouched |
| PlacesPage.ToggleFeature | accessibility-app/app/places/page.tsx:170 | checking a feature appends it, unchecking removes every occurrence, and other selections are untouched |
| PlacesPage.ResetFilters | accessibility-app/app/places/page.tsx:186-189 | a reset empties both checkbox lists and keeps the search |
| PlacesPage.ResetLeavesSearchOnly | accessibility-app/app/places/page.tsx:186-189 | after a reset only the search decides what is shown |
| PlacesPage.ClearShowsAll | accessibility-app/app/places/page.tsx:221-229 | clearing the search and both lists shows every place again, in order |
| PlacesPage.CheckThenUncheckType | accessibility-app/app/places/page.tsx:148 | checking then unchecking a type gives back the selection without that type |
| ReviewForm.Step | accessibility-app/components/review-form.tsx:106-129 | checking a box appends the id to its column and removes it from the other; unchecking removes it from its own column only |
| ReviewForm.StepKeepsDisjoint | accessibility-app/components/review-form.tsx:106-129 | every click keeps the verified and missing lists disjoint |
| ReviewForm.ReplayKeepsDisjoint | accessibility-app/components/review-form.tsx:106-129 | any sequence of clicks keeps disjoint lists disjoint |
| ReviewForm.ClicksFromEmptyStayDisjoint | accessibility-app/components/review-form.tsx:26-27 | from a fresh form, no sequence of clicks puts an id in both lists |
| ReviewForm.Duplicates | accessibility-app/components/review-form.tsx:45 | the duplicates are exactly the ids in both lists |
| ReviewForm.ValidationErrors | accessibility-app/components/review-form.tsx:32-51 | a rating error exactly when no star is selected and a features error exactly when an id is in both lists, with their messages |
| ReviewForm.ClicksNeverTripFeaturesCheck | accessibility-app/components/review-form.tsx:45-48 | lists built by clicks alone never trip the features check |
| ReviewForm.MakePayload | accessibility-app/components/review-form.tsx:66-76 | the payload names the place, the rating and both lists; no accessibility rating exactly when none is selected |
| ReviewForm.PayloadComment | accessibility-app/components/review-form.tsx:72 | the comment is null exactly when it is all whitespace; a sent comment is the typed one with its leading and trailing whitespace stripped, non-empty |
| ReviewForm.Form.constructor | accessibility-app/components/review-form.tsx:22-30 | a fresh form has no stars, no comment and two empty, disjoint lists |
| ReviewForm.Form.Click | accessibility-app/components/review-form.tsx:106-129 | a click clears both error displays, moves the lists by `Step` and keeps them disjoint |
| ReviewForm.Form.Submit | accessibility-app/components/review-form.tsx:53-101 | a post is made exactly when validation passes, with the payload of the current state; a rejection is shown as the summary |
| AddReviewPage.ToggleVerified | accessibility-frontend/src/pages/AddReviewPage.jsx:53-63 | a verified id is removed; otherwise it is appended and taken out of missing; other ids keep their counts |
| AddReviewPage.ToggleMissing | accessibility-frontend/src/pages/AddReviewPage.jsx:65-75 | the mirror image for the missing list |
| AddReviewPage.TogglesKeepDisjoint | accessibility-frontend/src/pages/AddReviewPage.jsx:53-75 | both toggles keep the two lists disjoint |
| AddReviewPage.ToggleVerifiedTwice | accessibility-frontend/src/pages/AddReviewPage.jsx:53-63 | toggling an unverified id twice restores the verified list and leaves the id in neither list |
| AddReviewPage.ToggleMissingTwice | accessibility-frontend/src/pages/AddReviewPage.jsx:65-75 | toggling a non-missing id twice restores the missing list and leaves the id in neither list |
| AddReviewPage.SubmitCheck | accessibility-frontend/src/pages/AddReviewPage.jsx:81-89 | the overall rating is checked first, then the accessibility rating; the submit goes ahead exactly when both are set |
| AddReviewPage.FailureMessage | accessibility-frontend/src/pages/AddReviewPage.jsx:108-117 | a rejection with a body reads "API Error: " and then its entries, the prefix alone for an empty body; without a body, the fixed message |
| AddReviewPage.FailureMessageListsEntries | accessibility-frontend/src/pages/AddReviewPage.jsx:113-116 | each entry appears as `key: value` after the prefix, at its offset, followed by ", " when another comes next: every entry, in order |
| AddReviewPage.Page.constructor | accessibility-frontend/src/pages/AddReviewPage.jsx:22-26 | a fresh page has no ratings, no comment and two empty lists |
| AddReviewPage.Page.ToggleVerifiedFeature | accessibility-frontend/src/pages/AddReviewPage.jsx:53-63 | a click moves the lists by `ToggleVerified`, keeps them disjoint and changes nothing else |
| AddReviewPage.Page.ToggleMissingFeature | accessibility-frontend/src/pages/AddReviewPage.jsx:65-75 | a click moves the lists by `ToggleMissing`, keeps them disjoint and changes nothing else |
| AddReviewPage.Page.Submit | accessibility-frontend/src/pages/AddReviewPage.jsx:77-119 | a post is made exactly when both ratings are set, with `parseInt` of the route id as place; a failed check or a rejection is shown |
| Dashboard.PlaceLabelNamesPlace | accessibility-app/app/dashboard/page.tsx:119 | a review's place label is its non-empty name; else "Place #" and the id, which reads back as the id, or "Place #undefined" when the review carries no place |
| Dashboard.MyReviews | accessibility-app/app/dashboard/page.tsx:110-120 | exactly the user's own reviews are kept, each with its place reference: `r.place` (undefined when missing) and the label |
| Dashboard.BackendReviewsHaveNoPlaceId | accessibility-app/app/dashboard/page.tsx:115-119 | for reviews as the backend sends them, without `place`, every place reference has an undefined id and is labelled by the place name or "Place #undefined" |
| Dashboard.MyReviewsKeepOrder | accessibility-app/app/dashboard/page.tsx:110-111 | the user's reviews keep the response order |
| Dashboard.Recommendations | accessibility-app/app/dashboard/page.tsx:125-139 | an array is used as it is, a paginated object's `results` are used, and anything else gives none |
| Dashboard.MyPlaces | accessibility-app/app/dashboard/page.tsx:147 | exactly the places owned by the user are kept, in order |
| Dashboard.NewerFirstIsTotalPreorder | accessibility-app/app/dashboard/page.tsx:163 | the feed comparator is a total preorder |
| Dashboard.Activities | accessibility-app/app/dashboard/page.tsx:157-163 | the feed holds every review and place exactly once, newest first |
| Dashboard.ActivitiesExact | accessibility-app/app/dashboard/page.tsx:157-163 | each of the user's reviews and places is in the feed, dated by its creation, and nothing else is |
| Dashboard.Process | accessibility-app/app/dashboard/page.tsx:106-164 | processing throws exactly when the reviews are not paginated or a provider's places are not; otherwise seekers get recommendations, providers their places, others neither, and the feed |
| Dashboard.TotalReviewsReceived | accessibility-app/app/dashboard/page.tsx:230 | the total is at least every place's review count |
| Dashboard.TotalReviewsAppend | accessibility-app/app/dashboard/page.tsx:230 | the total adds up over any split of the places |
| Dashboard.TotalReviewsSnoc | accessibility-app/app/dashboard/page.tsx:230 | one place contributes its review count, or 0 without one; appending a place adds exactly that |
| Dashboard.DefaultTab | accessibility-app/app/dashboard/page.tsx:231 | providers start on their places, everyone else on recommendations |
| Dashboard.FailureMessage | accessibility-app/app/dashboard/page.tsx:167-175 | the error shown is the thrown message, "Network connection issue." when it mentions "Network Error", or the fixed text when there is none; never blank |
| Dashboard.DetailShown | accessibility-app/app/dashboard/page.tsx:167-175 | a refusal with a non-empty `detail` is shown as that detail |
| Dashboard.FieldErrorsShowStatus | accessibility-app/app/dashboard/page.tsx:167-175 | field errors are shown as "Request failed with status N" |
| Dashboard.Page.constructor | accessibility-app/app/dashboard/page.tsx:53-58 | the page starts loading, with no error and empty lists |
| Dashboard.Page.Clear | accessibility-app/app/dashboard/page.tsx:175-180 | an error empties all four lists |
| Dashboard.Load | accessibility-app/app/dashboard/page.tsx:86-186 | the reviews request's failure wins, then the second request's (made only for seekers and providers), then a processing error; every message is non-empty; otherwise the outcome is what `Process` computes |
| Dashboard.Page.FetchData | accessibility-app/app/dashboard/page.tsx:72-186 | the page ends in the outcome `Load` gives: a message with all four lists emptied, or the processed lists with no error |
| RegisterPage.Set | accessibility-app/app/register/page.tsx:28-31 | a change sets its own field and no other |
| RegisterPage.HandleChange | accessibility-app/app/register/page.tsx:28-31 | a text input changes its own field and leaves the account type alone |
| RegisterPage.HandleUserTypeChange | accessibility-app/app/register/page.tsx:33-35 | the account type takes any value and nothing else changes |
| RegisterPage.SubmitCheck | accessibility-app/app/register/page.tsx:43-64 | the checks run in order: all fields filled, then the passwords equal, then at least 8 UTF-16 units; exactly one message per failing case |
| RegisterPage.PassingPasswordLength | accessibility-app/app/register/page.tsx:61 | a password that passes has at least 4 characters, and at least 8 when none lies outside the Basic Multilingual Plane |
| RegisterPage.Submit | accessibility-app/app/register/page.tsx:38-86 | `register` gets the whole form exactly when the checks pass, and then the page shows no error and the toast `register` raises; otherwise the failed check's message is shown; the page moves to /login exactly when registration succeeds |
| RegisterPage.ReplaceFirst | accessibility-app/components/auth-provider.tsx:222 | only the first occurrence of the character is replaced, every other character kept |
| RegisterPage.RegisterToast | accessibility-app/components/auth-provider.tsx:196-224 | success gives the fixed success toast; a rejection gives a destructive "Registration failed" toast with the summary, its first "|" turned into a line break |
| RegisterPage.RejectionIsToasted | accessibility-app/app/register/page.tsx:66-86 | a rejected registration never reaches the page's `catch`: the page shows no error and stays, and a destructive toast with non-empty text is shown |
| RegisterPage.OnlyFirstPipeReplaced | accessibility-app/components/auth-provider.tsx:222 | a "|" after the first one is kept |
| RegisterPage.RequestData | accessibility-app/app/register/page.tsx:66-68 | the request carries all seven fields, each as a string |
| RegisterPage.PassingFormHasEveryField | accessibility-app/app/register/page.tsx:43-68 | a form that passes the client checks never gets "required" or "may not be null" from the server: every field is sent as a string, and all but the account type are non-empty |
| FrontendRegisterPage.Rendered | accessibility-frontend/src/pages/RegisterPage.jsx:66-74 | each field of the error body gets one message: lists joined by spaces, strings as they are |
| FrontendRegisterPage.MoveMismatch | accessibility-frontend/src/pages/RegisterPage.jsx:78-82 | the server's mismatch message ends up under `password2` and `non_field_errors` is dropped; other fields are untouched |
| FrontendRegisterPage.NormaliseErrors | accessibility-frontend/src/pages/RegisterPage.jsx:66-82 | the loop and the fix-up together compute the normalised error record |
| FrontendRegisterPage.RegisterKeyNameInjective | wheel/serializers.py:48-54 | the seven field names are distinct |
| FrontendRegisterPage.ErrorBody | wheel/serializers.py:46-99 | the error body holds each failing field's name with its messages, and nothing else |
| FrontendRegisterPage.ServerMismatchShownOnPassword2 | accessibility-frontend/src/pages/RegisterPage.jsx:66-82 | whatever else comes with it, the server's mismatch is shown under `password2` with its own message and no form-level error is shown; every other field's messages are shown under that field, joined by spaces |
| FrontendRegisterPage.Page.constructor | accessibility-frontend/src/pages/RegisterPage.jsx:8-19 | a fresh page has the empty form with account type seeker, no errors and no success message |
| FrontendRegisterPage.Page.Change | accessibility-frontend/src/pages/RegisterPage.jsx:25-27 | a change sets one field and nothing else |
| FrontendRegisterPage.Page.Submit | accessibility-frontend/src/pages/RegisterPage.jsx:29-95 | different passwords stop with the client message; otherwise the form is sent, a success resets it, and a rejection is shown field by field or as one form error |

## Left out

- HTTP, authentication tokens, routing plumbing and JSON (de)serialisation are not modelled. A request is its method, the route (collection or item), the requester and the body's fields.
- Django's e-mail syntax check and password validators are parameters (`emailOk`, `passwordProblems`), not modelled.
- Password hashing is not modelled. The stored password stands for the credential.
- The database clock is a parameter `now`. Dates in the front-ends are numbers: the time `new Date(...)` would denote.
- Views.UpdatePlace, Models.Store.SavePlace, Models.Store.SaveReview: the clock is assumed not to go back, so `now` is at least the row's `created_at`. A database clock set back is not modelled.
- Latitude and longitude of places are left out: they are decimals that no core operation reads.
- Case-insensitive matching is modelled with ASCII case folding. This covers `iexact` lookups in the backend and `toLowerCase` on the places page. Unicode case mapping is not modelled.
- Ordering by name in the database is modelled by code-point order. The database collation is not modelled. The places page's `.sort()` compares UTF-16 code units, which differs from code-point order only for characters outside the Basic Multilingual Plane.
- Where the database orders rows that tie, it may return them in any order. The model uses a stable sort over the table order for `order_by` ties.
- Views.HasObjectPermission: a permission class that reads `user` from a place raises a server error in the source. The model refuses it instead, since no route pairs those two.
- Permissions.IsProviderUser, Permissions.IsSeekerUser: every requester is assumed to have a profile, as the profile receiver guarantees. The error raised for a user without one is not modelled.
- Views.CheckPermissions: the first authentication class is taken to be a token (JWT) one, which sends a `WWW-Authenticate` header, so a refused anonymous request gets 401. With session authentication first, DRF would answer 403 instead.
- Serializers.ReviewErrors, Serializers.ValidateReview: `place` and both ratings are modelled as integers and the verification as a string. A value of another JSON type (a rating sent as the string "3", a number as the verification) is not modelled.
- Views.UpdateProfile: `user_type` is taken as an already-valid choice. Only `needs_ids` is validated.
- Serializers.CreateRegisteredUser: `create_user` also applies Unicode NFKC normalisation to the username. The model stores the username as validated. Unicode normalisation is not modelled.
- Models.NormalizeEmail: the domain is lower-cased with ASCII case folding, like the rest of the model.
- Parsing.PyInt, Views.ReviewList: Python's `int()` also accepts non-ASCII Unicode decimal digits and refuses strings of more than 4300 digits. The model reads ASCII digits only, with no length limit.
- Serializers.Field, Serializers.ValidateRegistration: a registration field is a string, `null` or left out. Other JSON values are not modelled: a number, which `CharField` reads through `str()`, and a list or object, which it refuses with "Not a valid string.".
- Serializers.TextField, Serializers.RequiredText, Serializers.OptionalText: DRF also refuses a text holding a lone UTF-16 surrogate. Strings here are sequences of code points, so that case cannot arise.
- ApiClient.ErrorBody: the values in an error body are flat, a string or a list of strings. Nested objects, numbers and other JSON values inside a body are not modelled.
- The features, current-user and place-detail endpoints are read-only listings outside this core, and are not modelled.
- Serializers.Field: a request body is modelled by its entries under the seven declared registration fields. Other keys play no part in validation.
- Dashboard.Page.FetchData: the model takes the reviews request's rejection first. `Promise.all` reports whichever request rejects first in time. The message of a `TypeError` is a parameter.
- Dashboard: `review.user.id` is modelled as the review's user id.
- The navigation after a successful submit is not modelled. This covers the timer on the React sign-up page and `navigate`/`onSubmit` in the review pages.
- FrontendRegisterPage.Page.Submit: an error body that is a JSON array counts as an object in the source. That case is not modelled.
- PlacesPage: a checkbox's `'indeterminate'` state would count as checked, since the handlers test `checked` for truth. It cannot occur here: `checked` is always bound to a boolean. It is not modelled.
- AddReviewPage: the loading of the place and of the feature list is not modelled.
- AddReviewPage.FailureMessage: each value is written as `String(value)` would write a list of strings. Nested objects are not modelled.

## Observations

- ReviewSerializer declares `place` write-only (wheel/serializers.py:174-176), so a `/reviews/` response never carries it. The dashboard's place reference therefore has an undefined id, and its review links point to `/places/undefined` (accessibility-app/app/dashboard/page.tsx:437, 456, 494). The "Place #" fallback label appears only for a place whose name is empty, and then reads "Place #undefined". `Dashboard.BackendReviewsHaveNoPlaceId` states this.
- The profile serializer lets a user change their own `user_type` (wheel/serializers.py:27). `Views.UpdateProfile` models this as written.
- In the Next.js client, `apiClient` attaches the parsed error body itself as `err.response`. So `err.response.data` is the body's own `data` entry, and a DRF error body has none. The review form and the sign-up flow therefore never list field errors entry by entry. They show the error's message: the body's `detail`, or "Request failed with status N". `ApiClient.DrfBodyShowsMessage` and `ApiClient.FieldErrorsShowStatus` state this.
- The Next.js sign-up page's `catch` is never reached. `register` catches every failure itself, shows a toast and does not rethrow. `RegisterPage.RejectionIsToasted` states this.
- `errorMessage.replace('|', '\n')` in `register` replaces only the first "|". A summary of three entries or more keeps its later separators. `RegisterPage.OnlyFirstPipeReplaced` states this.
