/** The "add review" page of the React client: the two feature toggles,
    the checks made before posting, and the posted review. */
module AddReviewPage {
  import opened Common
  import opened Parsing
  import opened Js

  /** `handleVerifiedFeatureToggle`: an id already verified is removed
      (missing untouched); otherwise it is appended and removed from missing. */
  function ToggleVerified(verified: seq<int>, missing: seq<int>, id: int): (r: (seq<int>, seq<int>))
    ensures id in verified ==> id !in r.0 && r.1 == missing
                               && forall y :: y != id ==> multiset(r.0)[y] == multiset(verified)[y]
    ensures id !in verified ==> r.0 == verified + [id] && id !in r.1
                                && forall y :: y != id ==> multiset(r.1)[y] == multiset(missing)[y]
  {
    if id in verified then (Without(verified, id), missing)
    else (verified + [id], if id in missing then Without(missing, id) else missing)
  }

  /** `handleMissingFeatureToggle`, the mirror image. */
  function ToggleMissing(verified: seq<int>, missing: seq<int>, id: int): (r: (seq<int>, seq<int>))
    ensures id in missing ==> id !in r.1 && r.0 == verified
                              && forall y :: y != id ==> multiset(r.1)[y] == multiset(missing)[y]
    ensures id !in missing ==> r.1 == missing + [id] && id !in r.0
                               && forall y :: y != id ==> multiset(r.0)[y] == multiset(verified)[y]
  {
    if id in missing then (verified, Without(missing, id))
    else (if id in verified then Without(verified, id) else verified, missing + [id])
  }

  predicate Disjoint(verified: seq<int>, missing: seq<int>)
  {
    forall id :: id in verified ==> id !in missing
  }

  /** Either toggle keeps the two lists disjoint, so from the empty lists
      of a fresh page no sequence of clicks puts an id in both. */
  lemma TogglesKeepDisjoint(verified: seq<int>, missing: seq<int>, id: int)
    requires Disjoint(verified, missing)
    ensures var r := ToggleVerified(verified, missing, id); Disjoint(r.0, r.1)
    ensures var r := ToggleMissing(verified, missing, id); Disjoint(r.0, r.1)
  {
    var r := ToggleVerified(verified, missing, id);
    forall y | y in r.0 ensures y !in r.1 {
      assert y in multiset(r.0);
    }
    var t := ToggleMissing(verified, missing, id);
    forall y | y in t.0 ensures y !in t.1 {
      assert y in multiset(t.0);
    }
  }

  /** Toggling an id that is not verified twice gives back the verified
      list exactly; the id is then in neither list. */
  lemma ToggleVerifiedTwice(verified: seq<int>, missing: seq<int>, id: int)
    requires id !in verified
    ensures var once := ToggleVerified(verified, missing, id);
            var twice := ToggleVerified(once.0, once.1, id);
            twice.0 == verified && twice.1 == Without(missing, id)
  {
    WithoutAppend(verified, id, id);
  }

  /** The same for the missing list. */
  lemma ToggleMissingTwice(verified: seq<int>, missing: seq<int>, id: int)
    requires id !in missing
    ensures var once := ToggleMissing(verified, missing, id);
            var twice := ToggleMissing(once.0, once.1, id);
            twice.1 == missing && twice.0 == Without(verified, id)
  {
    WithoutAppend(missing, id, id);
  }

  const RatingMessage := "Please provide an overall rating"
  const AccessibilityMessage := "Please provide an accessibility rating"
  const SubmitFallback := "Failed to submit your review. Please try again."

  /** The checks of `handleSubmit`, in order: the overall rating first, then
      the accessibility rating, which this page requires. */
  function SubmitCheck(rating: int, accessibilityRating: int): (r: Option<string>)
    ensures r == Some(RatingMessage) <==> rating == 0
    ensures r == Some(AccessibilityMessage) <==> rating != 0 && accessibilityRating == 0
    ensures r.None? <==> rating != 0 && accessibilityRating != 0
  {
    if rating == 0 then Some(RatingMessage)
    else if accessibilityRating == 0 then Some(AccessibilityMessage)
    else None
  }

  /** The posted review. `place` is `parseInt` of the route's id; `None`
      stands for `NaN`, which is posted as `null`. */
  datatype Payload = Payload(place: Option<int>, rating: int, accessibilityRating: int, comment: string,
                             verifiedFeatureIds: seq<int>, missingFeatureIds: seq<int>)

  /** One entry of the body as the template literal writes it: the key,
      ": ", and the value, a list written with commas. */
  function EntryText(entry: (string, ErrorValue)): string
  {
    entry.0 + ": " + ValueText(entry.1, ",")
  }

  function EntryTexts(entries: seq<(string, ErrorValue)>): (r: seq<string>)
    ensures |r| == |entries|
    ensures forall i :: 0 <= i < |entries| ==> r[i] == EntryText(entries[i])
  {
    seq(|entries|, i requires 0 <= i < |entries| => EntryText(entries[i]))
  }

  const ApiErrorPrefix := "API Error: "

  /** The message shown for a rejected post: the entries of the body after
      "API Error: "; without a body, the fixed message. */
  function FailureMessage(f: ApiFailure): (r: string)
    ensures f.WithoutBody? ==> r == SubmitFallback
    ensures f.WithBody? ==> StartsWith(r, ApiErrorPrefix)
    ensures f.WithBody? && f.entries == [] ==> r == ApiErrorPrefix
  {
    match f
    case WithBody(entries) => ApiErrorPrefix + Join(EntryTexts(entries), ", ")
    case WithoutBody(_) => SubmitFallback
  }

  /** Every entry of the body appears in the message, in the body's order:
      the `i`-th `key: value` sits at its offset after the prefix, followed
      by ", " when another entry comes after it, and the next entry starts
      right after that separator. */
  lemma FailureMessageListsEntries(entries: seq<(string, ErrorValue)>, i: nat)
    requires i < |entries|
    ensures var r := FailureMessage(WithBody(entries));
            var at := |ApiErrorPrefix| + JoinOffset(EntryTexts(entries), ", ", i);
            OccursAt(r, EntryText(entries[i]), at)
            && (i + 1 < |entries| ==> OccursAt(r, ", ", at + |EntryText(entries[i])|))
            && (i + 1 < |entries| ==> |ApiErrorPrefix| + JoinOffset(EntryTexts(entries), ", ", i + 1)
                                      == at + |EntryText(entries[i])| + 2)
  {
    var parts := EntryTexts(entries);
    JoinPart(parts, ", ", i);
    OccursAfter(ApiErrorPrefix, Join(parts, ", "), parts[i], JoinOffset(parts, ", ", i));
    if i + 1 < |entries| {
      OccursAfter(ApiErrorPrefix, Join(parts, ", "), ", ", JoinOffset(parts, ", ", i) + |parts[i]|);
    }
  }

  /** The page's form state; `sent` records the posts made, in order. */
  class Page {
    const routeId: string
    var rating: int
    var accessibilityRating: int
    var comment: string
    var verified: seq<int>
    var missing: seq<int>
    var error: string
    var sent: seq<Payload>

    constructor (routeId: string)
      ensures this.routeId == routeId && rating == 0 && accessibilityRating == 0 && comment == ""
      ensures verified == [] && missing == [] && Disjoint(verified, missing)
      ensures error == "" && sent == []
    {
      this.routeId := routeId;
      rating := 0;
      accessibilityRating := 0;
      comment := "";
      verified := [];
      missing := [];
      error := "";
      sent := [];
    }

    /** A click on a "verified" toggle; disjoint lists stay disjoint. */
    method ToggleVerifiedFeature(id: int)
      modifies this
      ensures (verified, missing) == ToggleVerified(old(verified), old(missing), id)
      ensures old(Disjoint(verified, missing)) ==> Disjoint(verified, missing)
      ensures rating == old(rating) && accessibilityRating == old(accessibilityRating)
      ensures comment == old(comment) && error == old(error) && sent == old(sent)
    {
      if Disjoint(verified, missing) {
        TogglesKeepDisjoint(verified, missing, id);
      }
      if id in verified {
        verified := Without(verified, id);
      } else {
        verified := verified + [id];
        if id in missing {
          missing := Without(missing, id);
        }
      }
    }

    /** A click on a "missing" toggle; disjoint lists stay disjoint. */
    method ToggleMissingFeature(id: int)
      modifies this
      ensures (verified, missing) == ToggleMissing(old(verified), old(missing), id)
      ensures old(Disjoint(verified, missing)) ==> Disjoint(verified, missing)
      ensures rating == old(rating) && accessibilityRating == old(accessibilityRating)
      ensures comment == old(comment) && error == old(error) && sent == old(sent)
    {
      if Disjoint(verified, missing) {
        TogglesKeepDisjoint(verified, missing, id);
      }
      if id in missing {
        missing := Without(missing, id);
      } else {
        missing := missing + [id];
        if id in verified {
          verified := Without(verified, id);
        }
      }
    }

    /** `handleSubmit`: a failed check shows its message and posts nothing;
        otherwise the review is posted with both lists unchanged, and a
        rejection is shown. */
    method Submit(answer: Option<ApiFailure>) returns (posted: bool)
      modifies this
      ensures posted <==> SubmitCheck(rating, accessibilityRating).None?
      ensures !posted ==> Some(error) == SubmitCheck(rating, accessibilityRating) && sent == old(sent)
      ensures posted ==> sent == old(sent) + [Payload(JsParseInt(routeId), rating, accessibilityRating, comment, verified, missing)]
      ensures posted ==> error == (if answer.Some? then FailureMessage(answer.value) else "")
      ensures rating == old(rating) && accessibilityRating == old(accessibilityRating) && comment == old(comment)
      ensures verified == old(verified) && missing == old(missing)
    {
      error := "";
      if rating == 0 {
        error := RatingMessage;
        return false;
      }
      if accessibilityRating == 0 {
        error := AccessibilityMessage;
        return false;
      }
      sent := sent + [Payload(JsParseInt(routeId), rating, accessibilityRating, comment, verified, missing)];
      if answer.Some? {
        error := FailureMessage(answer.value);
      }
      return true;
    }
  }
}
