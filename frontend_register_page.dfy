/** The sign-up page of the React client: the client-side password check,
    the loop that turns a DRF error body into one message per field, and
    the state after a submit. */
module FrontendRegisterPage {
  import opened Common
  import opened Serializers
  import opened Js
  import RegisterPage

  const ClientMismatch := "Passwords do not match."
  const FormFailure := "Registration failed. An unexpected error occurred. Please check your network or try again later."
  const Success := "Registration successful! Redirecting to login..."

  /** One message per field: a list of messages joined by single spaces, a
      string as it is. */
  function Rendered(body: map<string, ErrorValue>): (r: map<string, string>)
    ensures r.Keys == body.Keys
    ensures forall k :: k in body ==> r[k] == ValueText(body[k], " ")
  {
    map k | k in body :: ValueText(body[k], " ")
  }

  /** The mismatch fix-up: when the server's mismatch message is the
      `password2` or the `non_field_errors` entry, it ends up under
      `password2` and `non_field_errors` is dropped. */
  function MoveMismatch(m: map<string, string>): (r: map<string, string>)
    ensures var hit := ("password2" in m && m["password2"] == PasswordMismatch)
                       || ("non_field_errors" in m && m["non_field_errors"] == PasswordMismatch);
            && (hit ==> "password2" in r && r["password2"] == PasswordMismatch && "non_field_errors" !in r
                        && r.Keys == m.Keys - {"non_field_errors"} + {"password2"})
            && (!hit ==> r == m)
            && forall k :: k in m && k != "password2" && k != "non_field_errors" ==> k in r && r[k] == m[k]
  {
    if ("password2" in m && m["password2"] == PasswordMismatch)
       || ("non_field_errors" in m && m["non_field_errors"] == PasswordMismatch)
    then m["password2" := PasswordMismatch] - {"non_field_errors"}
    else m
  }

  /** The error record of a rejected registration with an object body. */
  function Normalised(body: map<string, ErrorValue>): map<string, string>
  {
    MoveMismatch(Rendered(body))
  }

  /** The `for...in` loop over the body's keys, then the fix-up in place. */
  method NormaliseErrors(body: map<string, ErrorValue>) returns (messages: map<string, string>)
    ensures messages == Normalised(body)
  {
    messages := map[];
    var rest := body.Keys;
    while rest != {}
      invariant rest <= body.Keys
      invariant messages.Keys == body.Keys - rest
      invariant forall k :: k in messages ==> messages[k] == ValueText(body[k], " ")
      decreases |rest|
    {
      var k :| k in rest;
      messages := messages[k := ValueText(body[k], " ")];
      rest := rest - {k};
    }
    assert messages == Rendered(body);
    if ("password2" in messages && messages["password2"] == PasswordMismatch)
       || ("non_field_errors" in messages && messages["non_field_errors"] == PasswordMismatch) {
      messages := messages["password2" := PasswordMismatch];
      messages := messages - {"non_field_errors"};
    }
  }

  /** Different fields have different names. */
  lemma RegisterKeyNameInjective()
    ensures forall a, b :: RegisterKeyName(a) == RegisterKeyName(b) ==> a == b
  {
    forall a, b | RegisterKeyName(a) == RegisterKeyName(b) ensures a == b {
      assert |RegisterKeyName(a)| == |RegisterKeyName(b)|;
      assert RegisterKeyName(a)[0] == RegisterKeyName(b)[0];
    }
  }

  /** The body DRF sends for a rejected registration: each field's name
      with its list of messages, and nothing else. */
  function ErrorBody(errors: Errors<RegisterKey>): (body: map<string, ErrorValue>)
    ensures forall k :: k in errors ==> RegisterKeyName(k) in body && body[RegisterKeyName(k)] == Messages(errors[k])
    ensures forall n :: n in body ==> exists k :: k in errors && RegisterKeyName(k) == n
  {
    RegisterKeyNameInjective();
    map k | k in errors :: RegisterKeyName(k) := Messages(errors[k])
  }

  /** The server's answer to passwords that differ (see
      `Serializers.MismatchReportedOnPassword2`) is shown under `password2`
      with the server's own message, whatever else the body holds: no
      `non_field_errors` entry appears, and every other failing field is
      shown with its messages joined by spaces. */
  lemma ServerMismatchShownOnPassword2(errors: Errors<RegisterKey>)
    requires Password2 in errors && errors[Password2] == [PasswordMismatch]
    ensures var n := Normalised(ErrorBody(errors));
            && "password2" in n && n["password2"] == PasswordMismatch
            && "non_field_errors" !in n
            && n.Keys == (set k | k in errors :: RegisterKeyName(k))
            && forall k :: k in errors ==> n[RegisterKeyName(k)] == Join(errors[k], " ")
  {
    var body := ErrorBody(errors);
    var r := Rendered(body);
    assert RegisterKeyName(Password2) == "password2";
    assert "password2" in r && r["password2"] == PasswordMismatch;
    forall k: RegisterKey ensures RegisterKeyName(k) != "non_field_errors" {
      assert |RegisterKeyName(k)| < |"non_field_errors"|;
    }
    assert body.Keys == set k | k in errors :: RegisterKeyName(k);
  }

  /** How a rejected registration reached the page: with an object body, or
      any other way (no response, a body that is not an object). */
  datatype Rejection = ObjectBody(fields: map<string, ErrorValue>) | Unexpected

  /** The page's state; `sent` records the forms passed to `register`. */
  class Page {
    var form: RegisterPage.Form
    var errors: Option<map<string, string>>
    var success: string
    var loading: bool
    var sent: seq<RegisterPage.Form>

    constructor ()
      ensures form == RegisterPage.Initial && form.userType == "seeker"
      ensures errors == None && success == "" && !loading && sent == []
    {
      form := RegisterPage.Initial;
      errors := None;
      success := "";
      loading := false;
      sent := [];
    }

    /** `handleChange`: one field of the form changes. */
    method Change(k: RegisterKey, v: string)
      modifies this
      ensures form == RegisterPage.Set(old(form), k, v)
      ensures errors == old(errors) && success == old(success) && loading == old(loading) && sent == old(sent)
    {
      form := RegisterPage.Set(form, k, v);
    }

    /** `handleSubmit`. Earlier errors are cleared. Passwords that differ
        stop the submit with the client's message; otherwise the whole form is
        sent, a success resets the form, and a rejection is shown field by
        field, or as one `form` error. */
    method Submit(answer: Option<Rejection>)
      modifies this
      ensures !loading
      ensures old(form.password) != old(form.password2) ==>
                errors == Some(map["password2" := ClientMismatch]) && success == ""
                && sent == old(sent) && form == old(form)
      ensures old(form.password) == old(form.password2) ==> sent == old(sent) + [old(form)]
      ensures old(form.password) == old(form.password2) && answer.None? ==>
                errors == None && success == Success && form == RegisterPage.Initial
      ensures old(form.password) == old(form.password2) && answer.Some? ==>
                success == "" && form == old(form)
                && errors == Some(if answer.value.ObjectBody? then Normalised(answer.value.fields)
                                  else map["form" := FormFailure])
    {
      errors := None;
      success := "";
      loading := true;
      if form.password != form.password2 {
        errors := Some(map["password2" := ClientMismatch]);
        loading := false;
        return;
      }
      sent := sent + [form];
      if answer.None? {
        success := Success;
        form := RegisterPage.Initial;
      } else if answer.value.ObjectBody? {
        var messages := NormaliseErrors(answer.value.fields);
        errors := Some(messages);
      } else {
        errors := Some(map["form" := FormFailure]);
      }
      loading := false;
    }
  }
}
