/** The sign-up page of the Next.js client: the form record, its change
    handlers, and the ordered checks made before `register` is called. */
module RegisterPage {
  import opened Common
  import opened Serializers
  import opened Js
  import opened ApiClient

  /** The seven fields of the form, as strings. */
  datatype Form = Form(username: string, email: string, firstName: string, lastName: string,
                       password: string, password2: string, userType: string)

  /** The empty form; the account type starts as a seeker. */
  const Initial := Form("", "", "", "", "", "", "seeker")

  function Get(f: Form, k: RegisterKey): string
  {
    match k
    case Username => f.username
    case Email => f.email
    case FirstName => f.firstName
    case LastName => f.lastName
    case Password => f.password
    case Password2 => f.password2
    case UserTypeKey => f.userType
  }

  /** `{ ...prev, [name]: value }` */
  function Set(f: Form, k: RegisterKey, v: string): (g: Form)
    ensures Get(g, k) == v
    ensures forall j :: j != k ==> Get(g, j) == Get(f, j)
  {
    match k
    case Username => f.(username := v)
    case Email => f.(email := v)
    case FirstName => f.(firstName := v)
    case LastName => f.(lastName := v)
    case Password => f.(password := v)
    case Password2 => f.(password2 := v)
    case UserTypeKey => f.(userType := v)
  }

  /** `handleChange`: a text input changes its own field and no other. */
  function HandleChange(f: Form, k: RegisterKey, v: string): (g: Form)
    requires k != UserTypeKey
    ensures Get(g, k) == v && g.userType == f.userType
    ensures forall j :: j != k ==> Get(g, j) == Get(f, j)
  {
    Set(f, k, v)
  }

  /** `handleUserTypeChange`: any value is taken, unchecked. */
  function HandleUserTypeChange(f: Form, v: string): (g: Form)
    ensures g.userType == v
    ensures forall j :: j != UserTypeKey ==> Get(g, j) == Get(f, j)
  {
    Set(f, UserTypeKey, v)
  }

  const AllRequired := "All fields are required"
  const Mismatch := "Passwords do not match"
  const TooShort := "Password must be at least 8 characters long"

  /** Some text field other than the account type is empty. */
  predicate AnyEmpty(f: Form)
  {
    f.username == "" || f.email == "" || f.firstName == "" || f.lastName == ""
    || f.password == "" || f.password2 == ""
  }

  /** The checks of `handleSubmit`, in order, stopping at the first that
      fails: every field filled in, the passwords equal, the password at
      least 8 UTF-16 code units long. The account type is never checked. */
  function SubmitCheck(f: Form): (r: Option<string>)
    ensures r == Some(AllRequired) <==> AnyEmpty(f)
    ensures r == Some(Mismatch) <==> !AnyEmpty(f) && f.password != f.password2
    ensures r == Some(TooShort) <==> !AnyEmpty(f) && f.password == f.password2 && Utf16Length(f.password) < 8
    ensures r.None? <==> !AnyEmpty(f) && f.password == f.password2 && Utf16Length(f.password) >= 8
  {
    if AnyEmpty(f) then Some(AllRequired)
    else if f.password != f.password2 then Some(Mismatch)
    else if Utf16Length(f.password) < 8 then Some(TooShort)
    else None
  }

  /** A password that passes has at least 4 characters, and at least 8 when
      none of them lies outside the Basic Multilingual Plane. */
  lemma PassingPasswordLength(f: Form)
    requires SubmitCheck(f).None?
    ensures |f.password| >= 4
    ensures (forall i :: 0 <= i < |f.password| ==> f.password[i] as int <= 0xFFFF) ==> |f.password| >= 8
  {
  }

  /** `s.replace(a, b)` with a one-character pattern: only the first
      occurrence of `a` is replaced. */
  function ReplaceFirst(s: string, a: char, b: char): (r: string)
    ensures |r| == |s|
    ensures forall i :: 0 <= i < |s| ==> r[i] == if s[i] == a && a !in s[..i] then b else s[i]
    decreases |s|
  {
    if s == [] then []
    else if s[0] == a then [b] + s[1..]
    else
      var t := ReplaceFirst(s[1..], a, b);
      assert forall i :: 0 < i < |s| ==> s[..i] == [s[0]] + s[1..][..i - 1];
      [s[0]] + t
  }

  /** A notification: title, description, and whether it is shown as an
      error. */
  datatype Toast = Toast(title: string, description: string, destructive: bool)

  const RegisterFailed := "Registration failed. Please check your input and try again."

  /** The notification `register` shows once the request settles: success,
      or the summary of the rejection with its first `|` turned into a line
      break. `register` catches every rejection and does not rethrow it. */
  function RegisterToast(answer: Option<ClientError>): (t: Toast)
    ensures t.destructive <==> answer.Some?
    ensures answer.None? ==> t == Toast("Registration successful", "You can now log in with your new credentials.", false)
    ensures answer.Some? ==> t.title == "Registration failed"
    ensures answer.Some? ==> t.description == ReplaceFirst(Summary(Thrown(answer.value), RegisterFailed), '|', '\n')
  {
    match answer
    case None => Toast("Registration successful", "You can now log in with your new credentials.", false)
    case Some(e) => Toast("Registration failed", ReplaceFirst(Summary(Thrown(e), RegisterFailed), '|', '\n'), true)
  }

  /** What one submit does: the error shown on the page, the form passed to
      `register` if it is called, the notification it shows, and whether it
      moves on to the sign-in page. */
  datatype Outcome = Outcome(error: string, registered: Option<Form>, toast: Option<Toast>, toLogin: bool)

  /** `handleSubmit`: `register` gets the whole form exactly when the checks
      pass, and then the page shows no error of its own: a rejection never
      reaches the page's `catch`, it is reported by `register`'s
      notification; a success moves on to the sign-in page. */
  function Submit(f: Form, answer: Option<ClientError>): (o: Outcome)
    ensures o.registered.Some? <==> SubmitCheck(f).None?
    ensures o.registered.Some? ==> o.registered.value == f && o.error == "" && o.toast == Some(RegisterToast(answer))
    ensures o.registered.None? ==> Some(o.error) == SubmitCheck(f) && o.toast.None?
    ensures o.toLogin <==> o.registered.Some? && answer.None?
  {
    match SubmitCheck(f)
    case Some(message) => Outcome(message, None, None, false)
    case None => Outcome("", Some(f), Some(RegisterToast(answer)), answer.None?)
  }

  /** A rejected registration is reported in an error notification with
      some text, the page's own error stays empty, and the page stays. */
  lemma RejectionIsToasted(f: Form, e: ClientError)
    requires SubmitCheck(f).None?
    ensures Submit(f, Some(e)).error == ""
    ensures !Submit(f, Some(e)).toLogin
    ensures Submit(f, Some(e)).toast.Some? && Submit(f, Some(e)).toast.value.destructive
    ensures Submit(f, Some(e)).toast.value.description != ""
  {
    assert |ReplaceFirst(Summary(Thrown(e), RegisterFailed), '|', '\n')| == |Summary(Thrown(e), RegisterFailed)|;
  }

  /** Only the first `|` of a summary becomes a line break: when it lists
      several fields, the later separators keep their `|`. */
  lemma OnlyFirstPipeReplaced(s: string, i: nat, j: nat)
    requires i < j < |s| && s[i] == '|' && s[j] == '|'
    ensures ReplaceFirst(s, '|', '\n')[j] == '|'
  {
    assert s[..j][i] == '|';
  }

  /** The form as it would be posted: every field sent, as a string. */
  function RequestData(f: Form): (data: map<RegisterKey, Sent<string>>)
    ensures data.Keys == {Username, Email, FirstName, LastName, Password, Password2, UserTypeKey}
    ensures forall k :: k in data ==> data[k].Given?
  {
    map[Username := Given(f.username), Email := Given(f.email), FirstName := Given(f.firstName),
        LastName := Given(f.lastName), Password := Given(f.password), Password2 := Given(f.password2),
        UserTypeKey := Given(f.userType)]
  }

  /** A form that passes the client checks never draws "This field is
      required." or "This field may not be null." from the server: every
      field is sent as a string, and every field it checks is non-empty. */
  lemma PassingFormHasEveryField(f: Form, k: RegisterKey)
    requires SubmitCheck(f).None?
    ensures k in RequestData(f)
    ensures RequestData(f)[k] == Given(Get(f, k))
    ensures k != UserTypeKey ==> RequestData(f)[k] != Given("")
  {
    match k
    case Username =>
    case Email =>
    case FirstName =>
    case LastName =>
    case Password =>
    case Password2 =>
    case UserTypeKey =>
  }
}
