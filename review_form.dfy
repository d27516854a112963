/** The review form of the Next.js client: the pair of verified/missing
    feature lists that the two checkbox columns edit, the client-side
    validation, and the payload posted to `/reviews/`. */
module ReviewForm {
  import opened Common
  import opened Parsing
  import opened Js
  import opened ApiClient

  /** The two lists of feature ids the form holds. */
  datatype Marks = Marks(verified: seq<int>, missing: seq<int>)

  /** One click on a checkbox of either column. */
  datatype Change = VerifiedChange(id: int, checked: bool) | MissingChange(id: int, checked: bool)

  /** No feature id is in both lists. */
  predicate Disjoint(m: Marks)
  {
    forall id :: id in m.verified ==> id !in m.missing
  }

  /** `handleVerifiedFeatureChange` and `handleMissingFeatureChange`: checking
      a box appends the id to its own column (duplicates are not removed) and
      removes it from the other; unchecking removes it from its own column
      and leaves the other alone. */
  function Step(m: Marks, c: Change): (n: Marks)
    ensures c.VerifiedChange? && c.checked ==>
              n.verified == m.verified + [c.id] && c.id !in n.missing
              && forall y :: y != c.id ==> multiset(n.missing)[y] == multiset(m.missing)[y]
    ensures c.VerifiedChange? && !c.checked ==>
              c.id !in n.verified && n.missing == m.missing
              && forall y :: y != c.id ==> multiset(n.verified)[y] == multiset(m.verified)[y]
    ensures c.MissingChange? && c.checked ==>
              n.missing == m.missing + [c.id] && c.id !in n.verified
              && forall y :: y != c.id ==> multiset(n.verified)[y] == multiset(m.verified)[y]
    ensures c.MissingChange? && !c.checked ==>
              c.id !in n.missing && n.verified == m.verified
              && forall y :: y != c.id ==> multiset(n.missing)[y] == multiset(m.missing)[y]
  {
    match c
    case VerifiedChange(id, checked) =>
      if checked then Marks(m.verified + [id], Without(m.missing, id))
      else Marks(Without(m.verified, id), m.missing)
    case MissingChange(id, checked) =>
      if checked then Marks(Without(m.verified, id), m.missing + [id])
      else Marks(m.verified, Without(m.missing, id))
  }

  /** Every change keeps the lists disjoint. */
  lemma StepKeepsDisjoint(m: Marks, c: Change)
    requires Disjoint(m)
    ensures Disjoint(Step(m, c))
  {
    var n := Step(m, c);
    forall id | id in n.verified ensures id !in n.missing {
      assert id in multiset(n.verified);
    }
  }

  /** The state after a sequence of clicks. */
  function Replay(m: Marks, cs: seq<Change>): Marks
    decreases |cs|
  {
    if cs == [] then m else Replay(Step(m, cs[0]), cs[1..])
  }

  /** Starting from the two empty lists, no sequence of clicks puts an id in
      both columns. */
  lemma {:induction false} ReplayKeepsDisjoint(m: Marks, cs: seq<Change>)
    requires Disjoint(m)
    ensures Disjoint(Replay(m, cs))
    decreases |cs|
  {
    if cs != [] {
      StepKeepsDisjoint(m, cs[0]);
      ReplayKeepsDisjoint(Step(m, cs[0]), cs[1..]);
    }
  }

  lemma ClicksFromEmptyStayDisjoint(cs: seq<Change>)
    ensures Disjoint(Replay(Marks([], []), cs))
  {
    ReplayKeepsDisjoint(Marks([], []), cs);
  }

  /** The keys of the client-side error record. */
  datatype ClientErrorKey = RatingKey | FeaturesKey

  const RatingMessage := "Please select an overall rating (1-5 stars)"
  const FeaturesMessage := "A feature cannot be marked as both verified and missing"

  /** `verifiedFeatureIds.filter(id => missingFeatureIds.includes(id))` */
  function Duplicates(m: Marks): (r: seq<int>)
    ensures forall id :: id in r <==> id in m.verified && id in m.missing
  {
    Filter(m.verified, (id: int) => id in m.missing)
  }

  /** `validateForm`'s error record: a rating error exactly when no star is
      selected, a features error exactly when an id is in both lists. The
      accessibility rating and the comment are optional. */
  function ValidationErrors(rating: int, m: Marks): (e: map<ClientErrorKey, string>)
    ensures RatingKey in e <==> rating == 0
    ensures FeaturesKey in e <==> exists id :: id in m.verified && id in m.missing
    ensures RatingKey in e ==> e[RatingKey] == RatingMessage
    ensures FeaturesKey in e ==> e[FeaturesKey] == FeaturesMessage
  {
    var ratingErrors := if rating == 0 then map[RatingKey := RatingMessage] else map[];
    var dups := Duplicates(m);
    if |dups| > 0 then
      var d := dups[0];
      assert d in dups;
      assert d in m.verified && d in m.missing;
      ratingErrors[FeaturesKey := FeaturesMessage]
    else
      ratingErrors
  }

  /** Lists built by clicks alone never trip the features check. */
  lemma ClicksNeverTripFeaturesCheck(rating: int, cs: seq<Change>)
    ensures FeaturesKey !in ValidationErrors(rating, Replay(Marks([], []), cs))
  {
    ClicksFromEmptyStayDisjoint(cs);
  }

  /** The body posted to `/reviews/`. */
  datatype Payload = Payload(place: int, rating: int, accessibilityRating: Option<int>,
                             comment: Option<string>, verifiedFeatureIds: seq<int>, missingFeatureIds: seq<int>)

  /** The payload of `handleSubmit`: no accessibility rating when none is
      selected, the comment trimmed and omitted when blank, both lists as
      they are. */
  function MakePayload(placeId: int, rating: int, accessibilityRating: int, comment: string, m: Marks): (p: Payload)
    ensures p.place == placeId && p.rating == rating
    ensures p.verifiedFeatureIds == m.verified && p.missingFeatureIds == m.missing
    ensures p.accessibilityRating.None? <==> accessibilityRating == 0
    ensures p.accessibilityRating.Some? ==> p.accessibilityRating.value == accessibilityRating
  {
    Payload(placeId, rating, if accessibilityRating == 0 then None else Some(accessibilityRating),
            if Trim(comment) == "" then None else Some(Trim(comment)), m.verified, m.missing)
  }

  /** The comment is left out exactly when it is whitespace only; a comment
      that is sent is the typed one with its leading and trailing
      whitespace stripped, and starts and ends with a visible character. */
  lemma PayloadComment(placeId: int, rating: int, accessibilityRating: int, comment: string, m: Marks)
    ensures var p := MakePayload(placeId, rating, accessibilityRating, comment, m);
            && (p.comment.None? <==> forall i :: 0 <= i < |comment| ==> IsJsWhitespace(comment[i]))
            && (p.comment.Some? ==> var c := p.comment.value;
                  && c == StripEnd(StripStart(comment, IsJsWhitespace), IsJsWhitespace)
                  && c != "" && |c| <= |comment| && !IsJsWhitespace(c[0]) && !IsJsWhitespace(c[|c| - 1]))
  {
    TrimEmptyIff(comment);
    TrimIsStrip(comment);
  }

  const SubmitFallback := "Failed to submit review. Please try again."

  /** The form's state. `sent` records the payloads posted to the API, in
      order; the API's answer to a post is a parameter of `Submit`. */
  class Form {
    const placeId: int
    var rating: int
    var accessibilityRating: int
    var comment: string
    var marks: Marks
    var clientErrors: map<ClientErrorKey, string>
    var apiError: Option<string>
    var sent: seq<Payload>

    /** A fresh form: no stars, no comment, both lists empty. */
    constructor (placeId: int)
      ensures this.placeId == placeId && rating == 0 && accessibilityRating == 0 && comment == ""
      ensures marks == Marks([], []) && Disjoint(marks)
      ensures clientErrors == map[] && apiError == None && sent == []
    {
      this.placeId := placeId;
      rating := 0;
      accessibilityRating := 0;
      comment := "";
      marks := Marks([], []);
      clientErrors := map[];
      apiError := None;
      sent := [];
    }

    /** A checkbox click: both error displays are cleared and the lists move
        by `Step`; disjoint lists stay disjoint. */
    method Click(c: Change)
      modifies this
      ensures marks == Step(old(marks), c)
      ensures old(Disjoint(marks)) ==> Disjoint(marks)
      ensures clientErrors == map[] && apiError == None
      ensures rating == old(rating) && accessibilityRating == old(accessibilityRating)
      ensures comment == old(comment) && sent == old(sent)
    {
      clientErrors := map[];
      apiError := None;
      if Disjoint(marks) {
        StepKeepsDisjoint(marks, c);
      }
      marks := Step(marks, c);
    }

    /** `handleSubmit`. A failed validation records the errors and posts
        nothing; otherwise the payload is posted and a rejection is shown as
        the API error. */
    method Submit(answer: Option<ClientError>) returns (posted: bool)
      modifies this
      ensures posted <==> ValidationErrors(old(rating), old(marks)) == map[]
      ensures clientErrors == ValidationErrors(old(rating), old(marks))
      ensures !posted ==> sent == old(sent) && apiError == None
      ensures posted ==> sent == old(sent) + [MakePayload(placeId, rating, accessibilityRating, comment, marks)]
      ensures posted ==> apiError == (if answer.Some? then Some(Summary(Thrown(answer.value), SubmitFallback)) else None)
      ensures rating == old(rating) && accessibilityRating == old(accessibilityRating)
      ensures comment == old(comment) && marks == old(marks)
    {
      apiError := None;
      clientErrors := map[];
      clientErrors := ValidationErrors(rating, marks);
      if clientErrors != map[] {
        return false;
      }
      sent := sent + [MakePayload(placeId, rating, accessibilityRating, comment, marks)];
      if answer.Some? {
        apiError := Some(Summary(Thrown(answer.value), SubmitFallback));
      }
      return true;
    }
  }
}
