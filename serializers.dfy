/** Input validation and output shaping of the API: the registration
    serializer (field checks, case-insensitive uniqueness, the password
    confirmation, user creation and the response body), and the optional
    many-to-many id fields and read-only fields of the place, review and
    profile serializers.  The e-mail syntax check and Django's password
    validators are parameters. */
module Serializers {
  import opened Common
  import opened Parsing
  import opened Models

  /** Validation errors by field, each with its messages. */
  type Errors<K> = map<K, seq<string>>

  const Required := "This field is required."
  const Blank := "This field may not be blank."
  const NullCharacters := "Null characters are not allowed."
  const InvalidEmail := "Enter a valid email address."
  const EmailTaken := "A user with that email already exists."
  const UsernameTaken := "A user with that username already exists."
  const PasswordMismatch := "Password fields didn't match."

  function TooLong(n: nat): string
  {
    "Ensure this field has no more than " + NatToDecimal(n) + " characters."
  }

  function InvalidChoice(s: string): string
  {
    "\"" + s + "\" is not a valid choice."
  }

  function InvalidPk(id: int): string
  {
    "Invalid pk \"" + IntText(id) + "\" - object does not exist."
  }

  /** `str` of an integer. */
  function IntText(n: int): string
  {
    if n < 0 then "-" + NatToDecimal(-n) else NatToDecimal(n)
  }

  /** `str.strip()`, applied by every text field before validation: leading
      whitespace goes first, then trailing whitespace. */
  function Trim(s: string): (r: string)
    ensures |r| <= |s|
    ensures r == [] || (!IsPyWhitespace(r[0]) && !IsPyWhitespace(r[|r| - 1]))
    decreases |s|
  {
    if s != [] && IsPyWhitespace(s[0]) then Trim(s[1..])
    else if s != [] && IsPyWhitespace(s[|s| - 1]) then Trim(s[..|s| - 1])
    else s
  }

  /** Trimming is the same stripping that `int` applies to its argument. */
  lemma {:induction false} TrimIsStrip(s: string)
    ensures Trim(s) == StripEnd(StripStart(s, IsPyWhitespace), IsPyWhitespace)
    decreases |s|
  {
    if s != [] && IsPyWhitespace(s[0]) {
      TrimIsStrip(s[1..]);
    } else if s != [] && IsPyWhitespace(s[|s| - 1]) {
      TrimIsStrip(s[..|s| - 1]);
    }
  }

  /** A text field (`CharField`, and `EmailField` with `extra` as its e-mail
      check): missing is "required", `null` is "may not be null", blank
      after trimming is "blank", otherwise every failing validator
      contributes its message in order. */
  function TextField(v: Sent<string>, maxLength: Option<nat>, extra: string -> seq<string>)
    : (r: Result<string, seq<string>>)
    ensures v.Absent? ==> r == Err([Required])
    ensures v.Null? ==> r == Err([NotNull])
    ensures v.Given? && Trim(v.value) == "" ==> r == Err([Blank])
    ensures r.Err? ==> r.error != []
    ensures r.Ok? ==> && v.Given? && r.value == Trim(v.value) && r.value != ""
                      && (maxLength.Some? ==> |r.value| <= maxLength.value)
                      && '\0' !in r.value && extra(r.value) == []
    ensures v.Given? && maxLength.Some? && |Trim(v.value)| > maxLength.value ==>
              r.Err? && TooLong(maxLength.value) in r.error
    ensures r.Ok? <==> v.Given? && TextPasses(Trim(v.value), maxLength, extra)
  {
    if v.Absent? then Err([Required])
    else if v.Null? then Err([NotNull])
    else
      var t := Trim(v.value);
      if t == "" then Err([Blank])
      else
        var msgs := (if maxLength.Some? && |t| > maxLength.value then [TooLong(maxLength.value)] else [])
                    + (if '\0' in t then [NullCharacters] else [])
                    + extra(t);
        if msgs == [] then Ok(t) else Err(msgs)
  }

  /** A trimmed text passes every check of a text field: it is not blank,
      not too long, holds no NUL character and meets the extra check. */
  predicate TextPasses(t: string, maxLength: Option<nat>, extra: string -> seq<string>)
  {
    t != "" && (maxLength.Some? ==> |t| <= maxLength.value) && '\0' !in t && extra(t) == []
  }

  function NoCheck(s: string): seq<string>
  {
    []
  }

  /** The fields of RegisterSerializer. */
  datatype RegisterKey = Username | Email | FirstName | LastName | Password | Password2 | UserTypeKey

  /** The name of a field in requests and error bodies. */
  function RegisterKeyName(k: RegisterKey): string
  {
    match k
    case Username => "username"
    case Email => "email"
    case FirstName => "first_name"
    case LastName => "last_name"
    case Password => "password"
    case Password2 => "password2"
    case UserTypeKey => "user_type"
  }

  /** What a request body sends for a field: a key that is missing is
      left out. A body is modelled by its entries under the seven declared
      field names; other entries play no part. */
  function Field(data: map<RegisterKey, Sent<string>>, k: RegisterKey): (r: Sent<string>)
    ensures k !in data ==> r.Absent?
    ensures k in data ==> r == data[k]
  {
    if k in data then data[k] else Absent
  }

  /** `User.objects.filter(username__iexact=t).exists()` */
  predicate UsernameInUse(t: string, users: map<UserId, User>)
  {
    exists u :: u in users && EqualsIgnoringCase(users[u].username, t)
  }

  /** `User.objects.filter(email__iexact=t).exists()` */
  predicate EmailInUse(t: string, users: map<UserId, User>)
  {
    exists u :: u in users && EqualsIgnoringCase(users[u].email, t)
  }

  function EmailCheck(emailOk: string -> bool): string -> seq<string>
  {
    s => if emailOk(s) then [] else [InvalidEmail]
  }

  /** `username`: a text field of at most 150 characters, then `validate_username`. */
  function UsernameField(data: map<RegisterKey, Sent<string>>, users: map<UserId, User>): (r: Result<string, seq<string>>)
    ensures r.Ok? ==> r == TextField(Field(data, Username), Some(150), NoCheck) && !UsernameInUse(r.value, users)
    ensures r.Err? ==> r.error != []
  {
    match TextField(Field(data, Username), Some(150), NoCheck)
    case Err(e) => Err(e)
    case Ok(t) => if UsernameInUse(t, users) then Err([UsernameTaken]) else Ok(t)
  }

  /** `email`: an e-mail field, then `validate_email`. */
  function EmailField(data: map<RegisterKey, Sent<string>>, users: map<UserId, User>, emailOk: string -> bool)
    : (r: Result<string, seq<string>>)
    ensures r.Ok? ==> r == TextField(Field(data, Email), None, EmailCheck(emailOk)) && !EmailInUse(r.value, users)
    ensures r.Err? ==> r.error != []
  {
    match TextField(Field(data, Email), None, EmailCheck(emailOk))
    case Err(e) => Err(e)
    case Ok(t) => if EmailInUse(t, users) then Err([EmailTaken]) else Ok(t)
  }

  /** `password`: a text field, then `validate_password`, whose failures are
      the messages of Django's password validators. */
  function PasswordField(data: map<RegisterKey, Sent<string>>, passwordProblems: string -> seq<string>)
    : (r: Result<string, seq<string>>)
    ensures r.Ok? ==> r == TextField(Field(data, Password), None, NoCheck) && passwordProblems(r.value) == []
    ensures r.Err? ==> r.error != []
  {
    match TextField(Field(data, Password), None, NoCheck)
    case Err(e) => Err(e)
    case Ok(t) => if passwordProblems(t) != [] then Err(passwordProblems(t)) else Ok(t)
  }

  /** `user_type`: a choice field (not trimmed). */
  function UserTypeField(data: map<RegisterKey, Sent<string>>): (r: Result<UserType, seq<string>>)
    ensures Field(data, UserTypeKey).Absent? ==> r == Err([Required])
    ensures Field(data, UserTypeKey).Null? ==> r == Err([NotNull])
    ensures r.Ok? ==> Field(data, UserTypeKey) == Given(UserTypeCode(r.value))
    ensures Field(data, UserTypeKey).Given? && ParseUserType(Field(data, UserTypeKey).value).None? ==>
              r == Err([InvalidChoice(Field(data, UserTypeKey).value)])
  {
    match Field(data, UserTypeKey)
    case Absent => Err([Required])
    case Null => Err([NotNull])
    case Given(v) =>
      match ParseUserType(v)
      case Some(t) => UserTypeCodes(t, v); Ok(t)
      case None => Err([InvalidChoice(v)])
  }

  /** The outcome of one field: its own checks, then its `validate_<field>` method. */
  function RegisterField(data: map<RegisterKey, Sent<string>>, users: map<UserId, User>, emailOk: string -> bool,
                         passwordProblems: string -> seq<string>, k: RegisterKey): Result<string, seq<string>>
  {
    match k
    case Username => UsernameField(data, users)
    case Email => EmailField(data, users, emailOk)
    case FirstName => TextField(Field(data, FirstName), Some(150), NoCheck)
    case LastName => TextField(Field(data, LastName), Some(150), NoCheck)
    case Password => PasswordField(data, passwordProblems)
    case Password2 => TextField(Field(data, Password2), None, NoCheck)
    case UserTypeKey => match UserTypeField(data) case Ok(t) => Ok(UserTypeCode(t)) case Err(e) => Err(e)
  }

  /** All field errors of a request: every field is checked and none stops the others. */
  function RegisterFieldErrors(data: map<RegisterKey, Sent<string>>, users: map<UserId, User>,
                               emailOk: string -> bool, passwordProblems: string -> seq<string>): (r: Errors<RegisterKey>)
    ensures forall k :: k in r <==> RegisterField(data, users, emailOk, passwordProblems, k).Err?
    ensures forall k :: k in r ==> r[k] == RegisterField(data, users, emailOk, passwordProblems, k).error
  {
    map k | k in {Username, Email, FirstName, LastName, Password, Password2, UserTypeKey}
                 && RegisterField(data, users, emailOk, passwordProblems, k).Err?
          :: RegisterField(data, users, emailOk, passwordProblems, k).error
  }

  /** There are no field errors exactly when every field passes. */
  lemma NoFieldErrorsIff(data: map<RegisterKey, Sent<string>>, users: map<UserId, User>,
                         emailOk: string -> bool, passwordProblems: string -> seq<string>)
    ensures RegisterFieldErrors(data, users, emailOk, passwordProblems).Keys == {} <==>
            RegisterFieldsPass(data, users, emailOk, passwordProblems)
  {
    if RegisterFieldsPass(data, users, emailOk, passwordProblems) {
      PassingFieldsGiveNoErrors(data, users, emailOk, passwordProblems);
    } else {
      FailingFieldGivesError(data, users, emailOk, passwordProblems);
    }
  }

  lemma PassingFieldsGiveNoErrors(data: map<RegisterKey, Sent<string>>, users: map<UserId, User>,
                                  emailOk: string -> bool, passwordProblems: string -> seq<string>)
    requires RegisterFieldsPass(data, users, emailOk, passwordProblems)
    ensures RegisterFieldErrors(data, users, emailOk, passwordProblems).Keys == {}
  {
    var r := RegisterFieldErrors(data, users, emailOk, passwordProblems);
    forall k ensures k !in r {
      match k
      case Username =>
      case Email =>
      case FirstName =>
      case LastName =>
      case Password =>
      case Password2 =>
      case UserTypeKey =>
    }
  }

  lemma FailingFieldGivesError(data: map<RegisterKey, Sent<string>>, users: map<UserId, User>,
                               emailOk: string -> bool, passwordProblems: string -> seq<string>)
    requires !RegisterFieldsPass(data, users, emailOk, passwordProblems)
    ensures RegisterFieldErrors(data, users, emailOk, passwordProblems).Keys != {}
  {
    var k := FailingField(data, users, emailOk, passwordProblems);
    assert k in RegisterFieldErrors(data, users, emailOk, passwordProblems);
  }

  /** A field that fails, when not all of them pass. */
  function FailingField(data: map<RegisterKey, Sent<string>>, users: map<UserId, User>,
                        emailOk: string -> bool, passwordProblems: string -> seq<string>): (k: RegisterKey)
    requires !RegisterFieldsPass(data, users, emailOk, passwordProblems)
    ensures RegisterField(data, users, emailOk, passwordProblems, k).Err?
  {
    var F := k => RegisterField(data, users, emailOk, passwordProblems, k);
    if F(Username).Err? then Username
    else if F(Email).Err? then Email
    else if F(FirstName).Err? then FirstName
    else if F(LastName).Err? then LastName
    else if F(Password).Err? then Password
    else if F(Password2).Err? then Password2
    else UserTypeKey
  }

  /** The validated data of a registration. */
  datatype Registration = Registration(username: string, email: string, firstName: string, lastName: string,
                                       password: string, password2: string, userType: UserType)

  /** A field that passes was sent as a string. */
  lemma PassingFieldsAreGiven(data: map<RegisterKey, Sent<string>>, users: map<UserId, User>,
                              emailOk: string -> bool, passwordProblems: string -> seq<string>)
    requires RegisterFieldsPass(data, users, emailOk, passwordProblems)
    ensures forall k :: Field(data, k).Given?
  {
    forall k ensures Field(data, k).Given? {
      assert RegisterField(data, users, emailOk, passwordProblems, k).Ok?;
      match k
      case Username => assert TextField(Field(data, Username), Some(150), NoCheck).Ok?;
      case Email => assert TextField(Field(data, Email), None, EmailCheck(emailOk)).Ok?;
      case FirstName =>
      case LastName =>
      case Password => assert TextField(Field(data, Password), None, NoCheck).Ok?;
      case Password2 =>
      case UserTypeKey =>
    }
  }

  /** The validated data, once every field has passed. */
  function Cleaned(data: map<RegisterKey, Sent<string>>, users: map<UserId, User>,
                   emailOk: string -> bool, passwordProblems: string -> seq<string>): (reg: Registration)
    requires RegisterFieldsPass(data, users, emailOk, passwordProblems)
    ensures forall k :: Field(data, k).Given?
    ensures reg.username == Trim(Field(data, Username).value) && reg.email == Trim(Field(data, Email).value)
    ensures reg.firstName == Trim(Field(data, FirstName).value) && reg.lastName == Trim(Field(data, LastName).value)
    ensures reg.password == Trim(Field(data, Password).value) && reg.password2 == Trim(Field(data, Password2).value)
    ensures Field(data, UserTypeKey) == Given(UserTypeCode(reg.userType))
  {
    var un := UsernameField(data, users);
    var em := EmailField(data, users, emailOk);
    var fi := TextField(Field(data, FirstName), Some(150), NoCheck);
    var la := TextField(Field(data, LastName), Some(150), NoCheck);
    var pw := PasswordField(data, passwordProblems);
    var p2 := TextField(Field(data, Password2), None, NoCheck);
    var ut := UserTypeField(data);
    assert un.Ok? && em.Ok? && fi.Ok? && la.Ok? && pw.Ok? && p2.Ok? by {
      assert RegisterField(data, users, emailOk, passwordProblems, Username) == un;
      assert RegisterField(data, users, emailOk, passwordProblems, Email) == em;
      assert RegisterField(data, users, emailOk, passwordProblems, FirstName) == fi;
      assert RegisterField(data, users, emailOk, passwordProblems, LastName) == la;
      assert RegisterField(data, users, emailOk, passwordProblems, Password) == pw;
      assert RegisterField(data, users, emailOk, passwordProblems, Password2) == p2;
    }
    assert ut.Ok? by {
      assert RegisterField(data, users, emailOk, passwordProblems, UserTypeKey).Ok?;
    }
    PassingFieldsAreGiven(data, users, emailOk, passwordProblems);
    Registration(un.value, em.value, fi.value, la.value, pw.value, p2.value, ut.value)
  }

  /** A cleaned registration meets every field check: a new username and
      e-mail address, a syntactically valid address, a password the validators
      accept, and names of 1 to 150 characters. */
  lemma CleanedMeetsChecks(data: map<RegisterKey, Sent<string>>, users: map<UserId, User>,
                           emailOk: string -> bool, passwordProblems: string -> seq<string>)
    requires RegisterFieldsPass(data, users, emailOk, passwordProblems)
    ensures var reg := Cleaned(data, users, emailOk, passwordProblems);
            && !UsernameInUse(reg.username, users) && !EmailInUse(reg.email, users)
            && emailOk(reg.email) && passwordProblems(reg.password) == []
            && 0 < |reg.username| <= 150 && 0 < |reg.firstName| <= 150 && 0 < |reg.lastName| <= 150
            && reg.email != "" && reg.password != ""
  {
    var reg := Cleaned(data, users, emailOk, passwordProblems);
    var un := RegisterField(data, users, emailOk, passwordProblems, Username);
    var em := RegisterField(data, users, emailOk, passwordProblems, Email);
    var pw := RegisterField(data, users, emailOk, passwordProblems, Password);
    assert un == UsernameField(data, users) && reg.username == un.value;
    assert em == EmailField(data, users, emailOk) && reg.email == em.value;
    assert pw == PasswordField(data, passwordProblems) && reg.password == pw.value;
    assert RegisterField(data, users, emailOk, passwordProblems, FirstName).Ok?;
    assert RegisterField(data, users, emailOk, passwordProblems, LastName).Ok?;
  }

  /** `is_valid()`: the field errors if there are any; otherwise `validate`,
      which reports a password mismatch under `password2`. */
  function ValidateRegistration(data: map<RegisterKey, Sent<string>>, users: map<UserId, User>,
                                emailOk: string -> bool, passwordProblems: string -> seq<string>)
    : (r: Result<Registration, Errors<RegisterKey>>)
    ensures r.Err? ==> r.error.Keys != {}
    ensures r.Ok? ==> && RegisterFieldsPass(data, users, emailOk, passwordProblems)
                      && r.value == Cleaned(data, users, emailOk, passwordProblems)
                      && r.value.password == r.value.password2
  {
    var errs := RegisterFieldErrors(data, users, emailOk, passwordProblems);
    NoFieldErrorsIff(data, users, emailOk, passwordProblems);
    if errs.Keys != {} then Err(errs)
    else
      var reg := Cleaned(data, users, emailOk, passwordProblems);
      if reg.password != reg.password2 then
        var mismatch := map[Password2 := [PasswordMismatch]];
        assert Password2 in mismatch;
        Err(mismatch)
      else Ok(reg)
  }

  /** Every one of the seven fields is required: one left out is refused. */
  lemma MissingFieldIsRequired(data: map<RegisterKey, Sent<string>>, users: map<UserId, User>,
                               emailOk: string -> bool, passwordProblems: string -> seq<string>, k: RegisterKey)
    requires Field(data, k).Absent?
    ensures var r := ValidateRegistration(data, users, emailOk, passwordProblems);
            r.Err? && k in r.error && r.error[k] == [Required]
  {
    assert RegisterField(data, users, emailOk, passwordProblems, k) == Err([Required]);
  }

  /** None of the seven fields is nullable: one sent as `null` is refused. */
  lemma NullFieldRefused(data: map<RegisterKey, Sent<string>>, users: map<UserId, User>,
                         emailOk: string -> bool, passwordProblems: string -> seq<string>, k: RegisterKey)
    requires Field(data, k).Null?
    ensures var r := ValidateRegistration(data, users, emailOk, passwordProblems);
            r.Err? && k in r.error && r.error[k] == [NotNull]
  {
    assert RegisterField(data, users, emailOk, passwordProblems, k) == Err([NotNull]);
  }

  /** A well-formed username that equals an existing one ignoring case is refused. */
  lemma TakenUsernameRejected(data: map<RegisterKey, Sent<string>>, users: map<UserId, User>,
                              emailOk: string -> bool, passwordProblems: string -> seq<string>, u: UserId)
    requires TextField(Field(data, Username), Some(150), NoCheck).Ok?
    requires u in users && EqualsIgnoringCase(users[u].username, Trim(Field(data, Username).value))
    ensures var r := ValidateRegistration(data, users, emailOk, passwordProblems);
            r.Err? && Username in r.error && r.error[Username] == [UsernameTaken]
  {
    assert RegisterField(data, users, emailOk, passwordProblems, Username) == Err([UsernameTaken]);
  }

  /** A well-formed e-mail address that equals an existing one ignoring case is refused. */
  lemma TakenEmailRejected(data: map<RegisterKey, Sent<string>>, users: map<UserId, User>,
                           emailOk: string -> bool, passwordProblems: string -> seq<string>, u: UserId)
    requires TextField(Field(data, Email), None, EmailCheck(emailOk)).Ok?
    requires u in users && EqualsIgnoringCase(users[u].email, Trim(Field(data, Email).value))
    ensures var r := ValidateRegistration(data, users, emailOk, passwordProblems);
            r.Err? && Email in r.error && r.error[Email] == [EmailTaken]
  {
    assert RegisterField(data, users, emailOk, passwordProblems, Email) == Err([EmailTaken]);
  }

  /** A `user_type` outside seeker/provider/admin is refused with the choice message. */
  lemma UnknownUserTypeRejected(data: map<RegisterKey, Sent<string>>, users: map<UserId, User>,
                                emailOk: string -> bool, passwordProblems: string -> seq<string>)
    requires Field(data, UserTypeKey).Given? && ParseUserType(Field(data, UserTypeKey).value).None?
    ensures var r := ValidateRegistration(data, users, emailOk, passwordProblems);
            r.Err? && UserTypeKey in r.error
            && r.error[UserTypeKey] == [InvalidChoice(Field(data, UserTypeKey).value)]
  {
    assert RegisterField(data, users, emailOk, passwordProblems, UserTypeKey).Err?;
  }

  /** Every field passes its own checks. */
  predicate RegisterFieldsPass(data: map<RegisterKey, Sent<string>>, users: map<UserId, User>,
                               emailOk: string -> bool, passwordProblems: string -> seq<string>)
  {
    && RegisterField(data, users, emailOk, passwordProblems, Username).Ok?
    && RegisterField(data, users, emailOk, passwordProblems, Email).Ok?
    && RegisterField(data, users, emailOk, passwordProblems, FirstName).Ok?
    && RegisterField(data, users, emailOk, passwordProblems, LastName).Ok?
    && RegisterField(data, users, emailOk, passwordProblems, Password).Ok?
    && RegisterField(data, users, emailOk, passwordProblems, Password2).Ok?
    && RegisterField(data, users, emailOk, passwordProblems, UserTypeKey).Ok?
  }

  /** When every field passes but the two passwords differ after trimming, the
      only error is the mismatch, under `password2`. */
  lemma MismatchReportedOnPassword2(data: map<RegisterKey, Sent<string>>, users: map<UserId, User>,
                                    emailOk: string -> bool, passwordProblems: string -> seq<string>)
    requires RegisterFieldsPass(data, users, emailOk, passwordProblems)
    requires Cleaned(data, users, emailOk, passwordProblems).password
             != Cleaned(data, users, emailOk, passwordProblems).password2
    ensures ValidateRegistration(data, users, emailOk, passwordProblems) == Err(map[Password2 := [PasswordMismatch]])
  {
    NoFieldErrorsIff(data, users, emailOk, passwordProblems);
  }

  /** A request is accepted exactly when every field passes and the trimmed
      passwords agree. */
  lemma RegistrationAcceptedIff(data: map<RegisterKey, Sent<string>>, users: map<UserId, User>,
                                emailOk: string -> bool, passwordProblems: string -> seq<string>)
    ensures ValidateRegistration(data, users, emailOk, passwordProblems).Ok? <==>
            && RegisterFieldsPass(data, users, emailOk, passwordProblems)
            && Cleaned(data, users, emailOk, passwordProblems).password
               == Cleaned(data, users, emailOk, passwordProblems).password2
  {
    NoFieldErrorsIff(data, users, emailOk, passwordProblems);
  }

  /** A value in a response body. */
  datatype Value = IntValue(i: int) | StrValue(s: string)

  /** `to_representation` of a registered user: its public fields, plus
      `user_type` when it has a profile. */
  function RegisterRepresentation(u: User, profile: Option<Profile>): (r: map<string, Value>)
    ensures "password" !in r && "password2" !in r
    ensures r.Keys == {"id", "username", "email", "first_name", "last_name"}
                      + (if profile.Some? then {"user_type"} else {})
    ensures r["id"] == IntValue(u.id) && r["username"] == StrValue(u.username) && r["email"] == StrValue(u.email)
    ensures r["first_name"] == StrValue(u.firstName) && r["last_name"] == StrValue(u.lastName)
    ensures profile.Some? ==> r["user_type"] == StrValue(UserTypeCode(profile.value.userType))
  {
    var base := map["id" := IntValue(u.id), "username" := StrValue(u.username), "email" := StrValue(u.email),
                    "first_name" := StrValue(u.firstName), "last_name" := StrValue(u.lastName)];
    if profile.Some? then base["user_type" := StrValue(UserTypeCode(profile.value.userType))] else base
  }

  /** `create`: `create_user` inserts the user with the validated
      `password` (never `password2`) and the normalised e-mail address, then
      the profile the post_save receiver created gets the requested type. */
  method CreateRegisteredUser(store: Store, reg: Registration) returns (id: UserId)
    requires store.Valid() && !UsernameInUse(reg.username, store.users)
    modifies store
    ensures store.Valid()
    ensures id !in old(store.users)
    ensures store.users == old(store.users)[id := User(id, reg.username, NormalizeEmail(reg.email), reg.firstName, reg.lastName, reg.password)]
    ensures id in store.profiles && store.profiles[id].userType == reg.userType && store.profiles[id].needs == {}
    ensures store.profiles.Keys == old(store.profiles).Keys + {id}
    ensures forall u :: u in old(store.profiles) ==> store.profiles[u] == old(store.profiles)[u]
    ensures store.features == old(store.features) && store.places == old(store.places) && store.reviews == old(store.reviews)
  {
    assert !Models.UsernameTaken(store.users, reg.username);
    ghost var profiles0, next := store.profiles, store.nextProfileId;
    var r := store.CreateUser(reg.username, NormalizeEmail(reg.email), reg.firstName, reg.lastName, reg.password);
    assert r.Ok?;
    id := r.value;
    assert store.profiles == profiles0[id := Profile(next, id, DefaultUserType, {})];
    if UserTypeCode(reg.userType) != "" && id in store.profiles {
      store.SaveProfile(id, reg.userType, store.profiles[id].needs);
    }
  }

  /** `PrimaryKeyRelatedField(many=True)`: every id must name an existing
      feature; the first one that does not is reported. */
  function RelatedIds(ids: seq<FeatureId>, known: set<FeatureId>): (r: Result<set<FeatureId>, seq<string>>)
    ensures r.Ok? <==> forall i :: 0 <= i < |ids| ==> ids[i] in known
    ensures r.Ok? ==> r.value == set i | 0 <= i < |ids| :: ids[i]
    ensures r.Ok? ==> r.value <= known
    ensures r.Err? ==> exists i :: 0 <= i < |ids| && ids[i] !in known && r.error == [InvalidPk(ids[i])]
                                   && forall j :: 0 <= j < i ==> ids[j] in known
    ensures r.Err? ==> r.error != []
    decreases |ids|
  {
    if ids == [] then Ok({})
    else if ids[0] !in known then Err([InvalidPk(ids[0])])
    else
      match RelatedIds(ids[1..], known)
      case Err(e) =>
        var i :| 0 <= i < |ids[1..]| && ids[1..][i] !in known && e == [InvalidPk(ids[1..][i])]
                 && forall j :: 0 <= j < i ==> ids[1..][j] in known;
        assert forall j :: 0 <= j < i + 1 ==> ids[j] in known by {
          forall j | 0 <= j < i + 1 ensures ids[j] in known {
            if j > 0 { assert ids[j] == ids[1..][j - 1]; }
          }
        }
        assert ids[i + 1] == ids[1..][i];
        Err(e)
      case Ok(rest) =>
        assert forall i :: 0 <= i < |ids| ==> ids[i] in known by {
          forall i | 0 <= i < |ids| ensures ids[i] in known {
            if i > 0 { assert ids[i] == ids[1..][i - 1]; }
          }
        }
        assert (set i | 0 <= i < |ids| :: ids[i]) == {ids[0]} + rest by {
          forall x | x in {ids[0]} + rest ensures x in (set i | 0 <= i < |ids| :: ids[i]) {
            if x != ids[0] {
              var j :| 0 <= j < |ids[1..]| && ids[1..][j] == x;
              assert ids[j + 1] == x;
            }
          }
          forall x | x in (set i | 0 <= i < |ids| :: ids[i]) ensures x in {ids[0]} + rest {
            var j :| 0 <= j < |ids| && ids[j] == x;
            if j > 0 { assert ids[1..][j - 1] == x; }
          }
        }
        Ok({ids[0]} + rest)
  }

  /** An optional many-to-many id field (`needs_ids`, `feature_ids`,
      `verified_feature_ids`, `missing_feature_ids`): omitted keeps the
      relation, supplied (even empty) replaces it wholesale. */
  function ApplyRelation(current: set<FeatureId>, supplied: Option<seq<FeatureId>>, known: set<FeatureId>)
    : (r: Result<set<FeatureId>, seq<string>>)
    ensures supplied.None? ==> r == Ok(current)
    ensures supplied.Some? ==> r == RelatedIds(supplied.value, known)
  {
    match supplied
    case None => Ok(current)
    case Some(ids) => RelatedIds(ids, known)
  }

  /** Supplying the empty list clears the relation. */
  lemma EmptyListClearsRelation(current: set<FeatureId>, known: set<FeatureId>)
    ensures ApplyRelation(current, Some([]), known) == Ok({})
  {
  }

  /** A supplied list of existing ids becomes the relation, whatever it was. */
  lemma SuppliedIdsReplaceRelation(current: set<FeatureId>, ids: seq<FeatureId>, known: set<FeatureId>)
    requires forall i :: 0 <= i < |ids| ==> ids[i] in known
    ensures ApplyRelation(current, Some(ids), known).Ok?
    ensures forall f :: f in ApplyRelation(current, Some(ids), known).value <==> f in ids
  {
    var s := ApplyRelation(current, Some(ids), known).value;
    forall f ensures f in s <==> f in ids {
      if f in ids {
        var i :| 0 <= i < |ids| && ids[i] == f;
      }
    }
  }

  const NotNull := "This field may not be null."
  const InvalidUrl := "Enter a valid URL."

  /** One field of a request body: left out, sent as `null`, or sent with a
      value. */
  datatype Sent<+T> = Absent | Null | Given(value: T)

  /** The messages of a field's result; none when it passes. */
  function Problems<T>(r: Result<T, seq<string>>): (e: seq<string>)
    requires r.Err? ==> r.error != []
    ensures e == [] <==> r.Ok?
  {
    match r
    case Ok(_) => []
    case Err(e) => e
  }

  /** A required text field sent in a request is refused: left out of a
      full request, `null`, blank once trimmed, too long or holding a NUL
      character. */
  predicate RequiredRefused(v: Sent<string>, partial: bool, maxLength: Option<nat>)
  {
    (v.Absent? && !partial) || v.Null? || (v.Given? && !TextPasses(Trim(v.value), maxLength, NoCheck))
  }

  /** A required text field (`allow_blank` and `allow_null` off). Left out of
      a partial update it is skipped (`None`); otherwise it is the trimmed
      text. */
  function RequiredText(v: Sent<string>, partial: bool, maxLength: Option<nat>)
    : (r: Result<Option<string>, seq<string>>)
    ensures r.Err? <==> RequiredRefused(v, partial, maxLength)
    ensures r.Err? ==> r.error != []
    ensures v.Absent? && !partial ==> r == Err([Required])
    ensures v.Null? ==> r == Err([NotNull])
    ensures v.Given? && Trim(v.value) == "" ==> r == Err([Blank])
    ensures r.Ok? ==> (r.value.None? <==> v.Absent?)
    ensures r.Ok? && r.value.Some? ==> r.value.value == Trim(v.value) && TextPasses(r.value.value, maxLength, NoCheck)
  {
    match v
    case Absent => if partial then Ok(None) else Err([Required])
    case Null => Err([NotNull])
    case Given(s) =>
      match TextField(Given(s), maxLength, NoCheck)
      case Ok(t) => Ok(Some(t))
      case Err(e) => Err(e)
  }

  /** An optional text field sent in a request is refused: its trimmed text
      is not blank and is too long, holds a NUL character or fails the
      extra check. */
  predicate OptionalRefused(v: Sent<string>, maxLength: Option<nat>, extra: string -> seq<string>)
  {
    v.Given? && Trim(v.value) != "" && !TextPasses(Trim(v.value), maxLength, extra)
  }

  /** An optional text field (`allow_blank`, `allow_null`, not required):
      left out and `null` pass through; a blank value is stored as the
      empty string without further checks; any other value is trimmed and
      checked. */
  function OptionalText(v: Sent<string>, maxLength: Option<nat>, extra: string -> seq<string>)
    : (r: Result<Sent<string>, seq<string>>)
    ensures r.Err? <==> OptionalRefused(v, maxLength, extra)
    ensures r.Err? ==> r.error != []
    ensures v.Absent? ==> r == Ok(Absent)
    ensures v.Null? ==> r == Ok(Null)
    ensures r.Ok? && v.Given? ==> r.value == Given(Trim(v.value))
    ensures r.Ok? && v.Given? && Trim(v.value) != "" ==> TextPasses(Trim(v.value), maxLength, extra)
  {
    match v
    case Absent => Ok(Absent)
    case Null => Ok(Null)
    case Given(s) =>
      if Trim(s) == "" then Ok(Given(""))
      else match TextField(Given(s), maxLength, extra)
        case Ok(t) => Ok(Given(t))
        case Err(e) => Err(e)
  }

  /** The `URLField` check; the URL syntax itself is a parameter. */
  function UrlCheck(urlOk: string -> bool): string -> seq<string>
  {
    s => if urlOk(s) then [] else [InvalidUrl]
  }

  /** `place_type`, a choice field: the code is taken as sent, not trimmed. */
  function PlaceTypeField(v: Sent<string>, partial: bool): (r: Result<Option<PlaceType>, seq<string>>)
    ensures r.Err? <==> (v.Absent? && !partial) || v.Null? || (v.Given? && ParsePlaceType(v.value).None?)
    ensures r.Err? ==> r.error != []
    ensures v.Given? && ParsePlaceType(v.value).None? ==> r == Err([InvalidChoice(v.value)])
    ensures r.Ok? ==> (r.value.None? <==> v.Absent?)
    ensures r.Ok? && r.value.Some? ==> PlaceTypeCode(r.value.value) == v.value
  {
    match v
    case Absent => if partial then Ok(None) else Err([Required])
    case Null => Err([NotNull])
    case Given(s) =>
      match ParsePlaceType(s)
      case Some(t) =>
        PlaceTypeCodes(t, s);
        Ok(Some(t))
      case None => Err([InvalidChoice(s)])
  }

  /** `feature_ids`: optional, not nullable; every id must exist. */
  function FeatureIdsField(v: Sent<seq<FeatureId>>, known: set<FeatureId>): (r: Result<Option<set<FeatureId>>, seq<string>>)
    ensures r.Err? <==> v.Null? || (v.Given? && RelatedIds(v.value, known).Err?)
    ensures r.Err? ==> r.error != []
    ensures r.Ok? ==> (r.value.None? <==> v.Absent?)
    ensures r.Ok? && r.value.Some? ==> r.value.value == RelatedIds(v.value, known).value && r.value.value <= known
  {
    match v
    case Absent => Ok(None)
    case Null => Err([NotNull])
    case Given(ids) =>
      match RelatedIds(ids, known)
      case Ok(f) => Ok(Some(f))
      case Err(e) => Err(e)
  }

  /** The writable fields of a place request, together with what the client
      may send for the read-only `owner`, `created_at` and `updated_at`. */
  datatype PlaceInput = PlaceInput(name: Sent<string>, address: Sent<string>, placeType: Sent<string>,
                                   description: Sent<string>, website: Sent<string>, phoneNumber: Sent<string>,
                                   featureIds: Sent<seq<FeatureId>>,
                                   owner: Option<UserId>, createdAt: Option<nat>, updatedAt: Option<nat>)

  /** The writable fields of PlaceSerializer. */
  datatype PlaceField = NameKey | AddressKey | PlaceTypeKey | DescriptionKey | WebsiteKey | PhoneNumberKey | FeatureIdsKey

  /** When one place field is refused. */
  predicate PlaceFieldRefused(input: PlaceInput, partial: bool, known: set<FeatureId>, urlOk: string -> bool,
                              k: PlaceField)
  {
    match k
    case NameKey => RequiredRefused(input.name, partial, Some(200))
    case AddressKey => RequiredRefused(input.address, partial, None)
    case PlaceTypeKey => (input.placeType.Absent? && !partial) || input.placeType.Null?
                         || (input.placeType.Given? && ParsePlaceType(input.placeType.value).None?)
    case DescriptionKey => OptionalRefused(input.description, None, NoCheck)
    case WebsiteKey => OptionalRefused(input.website, Some(200), UrlCheck(urlOk))
    case PhoneNumberKey => OptionalRefused(input.phoneNumber, Some(20), NoCheck)
    case FeatureIdsKey => input.featureIds.Null? || (input.featureIds.Given? && RelatedIds(input.featureIds.value, known).Err?)
  }

  /** The messages of one place field; none when it passes. */
  function PlaceFieldMessages(input: PlaceInput, partial: bool, known: set<FeatureId>, urlOk: string -> bool,
                              k: PlaceField): seq<string>
  {
    match k
    case NameKey => Problems(RequiredText(input.name, partial, Some(200)))
    case AddressKey => Problems(RequiredText(input.address, partial, None))
    case PlaceTypeKey => Problems(PlaceTypeField(input.placeType, partial))
    case DescriptionKey => Problems(OptionalText(input.description, None, NoCheck))
    case WebsiteKey => Problems(OptionalText(input.website, Some(200), UrlCheck(urlOk)))
    case PhoneNumberKey => Problems(OptionalText(input.phoneNumber, Some(20), NoCheck))
    case FeatureIdsKey => Problems(FeatureIdsField(input.featureIds, known))
  }

  /** A place field has messages exactly when it is refused. */
  lemma PlaceFieldMessagesIff(input: PlaceInput, partial: bool, known: set<FeatureId>, urlOk: string -> bool,
                              k: PlaceField)
    ensures PlaceFieldMessages(input, partial, known, urlOk, k) != [] <==> PlaceFieldRefused(input, partial, known, urlOk, k)
  {
  }

  /** The field errors of a place request (`partial` for PATCH): `name` (at
      most 200 characters), `address` and `place_type` are required on a
      full request, never null, never blank; `description`, `website` (at
      most 200 characters and a valid URL) and `phone_number` (at most 20)
      may be left out, null or blank; `feature_ids` must name existing
      features. */
  function PlaceErrors(input: PlaceInput, partial: bool, known: set<FeatureId>, urlOk: string -> bool)
    : (r: Errors<PlaceField>)
    ensures forall k :: k in r <==> PlaceFieldMessages(input, partial, known, urlOk, k) != []
    ensures forall k :: k in r ==> r[k] == PlaceFieldMessages(input, partial, known, urlOk, k)
  {
    var r := map k | k in {NameKey, AddressKey, PlaceTypeKey, DescriptionKey, WebsiteKey, PhoneNumberKey, FeatureIdsKey}
                     && PlaceFieldMessages(input, partial, known, urlOk, k) != []
              :: PlaceFieldMessages(input, partial, known, urlOk, k);
    r
  }

  /** The validated data of a place request. A required field or
      `feature_ids` is `None` when it was left out; an optional text field
      keeps the three ways it can be sent. */
  datatype PlaceEdit = PlaceEdit(name: Option<string>, address: Option<string>, placeType: Option<PlaceType>,
                                 description: Sent<string>, website: Sent<string>, phoneNumber: Sent<string>,
                                 features: Option<set<FeatureId>>)

  /** `is_valid()` on a place request: refused exactly when some field has
      an error, with every field's messages; otherwise the cleaned values,
      with every required field present on a full request and only existing
      features. */
  function ValidatePlace(input: PlaceInput, partial: bool, known: set<FeatureId>, urlOk: string -> bool)
    : (r: Result<PlaceEdit, Errors<PlaceField>>)
    ensures r.Err? <==> PlaceErrors(input, partial, known, urlOk) != map[]
    ensures r.Err? ==> r.error == PlaceErrors(input, partial, known, urlOk)
    ensures r.Ok? && !partial ==> r.value.name.Some? && r.value.address.Some? && r.value.placeType.Some?
    ensures r.Ok? && r.value.features.Some? ==> r.value.features.value <= known
  {
    var errors := PlaceErrors(input, partial, known, urlOk);
    if errors != map[] then Err(errors)
    else
      PassingRequiredFields(input, partial, known, urlOk);
      PassingOptionalFields(input, partial, known, urlOk);
      Ok(PlaceEdit(RequiredText(input.name, partial, Some(200)).value,
                   RequiredText(input.address, partial, None).value,
                   PlaceTypeField(input.placeType, partial).value,
                   OptionalText(input.description, None, NoCheck).value,
                   OptionalText(input.website, Some(200), UrlCheck(urlOk)).value,
                   OptionalText(input.phoneNumber, Some(20), NoCheck).value,
                   FeatureIdsField(input.featureIds, known).value))
  }

  /** With no field errors, the required fields and `feature_ids` give values. */
  lemma PassingRequiredFields(input: PlaceInput, partial: bool, known: set<FeatureId>, urlOk: string -> bool)
    requires PlaceErrors(input, partial, known, urlOk) == map[]
    ensures RequiredText(input.name, partial, Some(200)).Ok?
    ensures RequiredText(input.address, partial, None).Ok?
    ensures PlaceTypeField(input.placeType, partial).Ok?
    ensures FeatureIdsField(input.featureIds, known).Ok?
  {
    assert PlaceFieldMessages(input, partial, known, urlOk, NameKey) == [];
    assert PlaceFieldMessages(input, partial, known, urlOk, AddressKey) == [];
    assert PlaceFieldMessages(input, partial, known, urlOk, PlaceTypeKey) == [];
    assert PlaceFieldMessages(input, partial, known, urlOk, FeatureIdsKey) == [];
  }

  /** With no field errors, the optional text fields give values. */
  lemma PassingOptionalFields(input: PlaceInput, partial: bool, known: set<FeatureId>, urlOk: string -> bool)
    requires PlaceErrors(input, partial, known, urlOk) == map[]
    ensures OptionalText(input.description, None, NoCheck).Ok?
    ensures OptionalText(input.website, Some(200), UrlCheck(urlOk)).Ok?
    ensures OptionalText(input.phoneNumber, Some(20), NoCheck).Ok?
  {
    assert PlaceFieldMessages(input, partial, known, urlOk, DescriptionKey) == [];
    assert PlaceFieldMessages(input, partial, known, urlOk, WebsiteKey) == [];
    assert PlaceFieldMessages(input, partial, known, urlOk, PhoneNumberKey) == [];
  }

  /** What an accepted place request stores for the required fields and
      `feature_ids`: a field left out stays out; `name` and `address` are
      the trimmed non-blank texts, the name at most 200 characters;
      `place_type` is the code sent. */
  lemma ValidPlaceRequiredFields(input: PlaceInput, partial: bool, known: set<FeatureId>, urlOk: string -> bool)
    requires ValidatePlace(input, partial, known, urlOk).Ok?
    ensures var e := ValidatePlace(input, partial, known, urlOk).value;
            && (e.name.None? <==> input.name.Absent?)
            && (e.address.None? <==> input.address.Absent?)
            && (e.placeType.None? <==> input.placeType.Absent?)
            && (e.features.None? <==> input.featureIds.Absent?)
            && (e.name.Some? ==> input.name.Given? && e.name.value == Trim(input.name.value)
                                 && e.name.value != "" && |e.name.value| <= 200)
            && (e.address.Some? ==> input.address.Given? && e.address.value == Trim(input.address.value)
                                    && e.address.value != "")
            && (e.placeType.Some? ==> input.placeType.Given? && PlaceTypeCode(e.placeType.value) == input.placeType.value)
  {
    PassingRequiredFields(input, partial, known, urlOk);
  }

  /** What an accepted place request stores for the optional texts: left
      out and `null` as sent, a value trimmed; a non-blank website is a
      valid URL of at most 200 characters and a phone number has at most 20
      characters. */
  lemma ValidPlaceOptionalFields(input: PlaceInput, partial: bool, known: set<FeatureId>, urlOk: string -> bool)
    requires ValidatePlace(input, partial, known, urlOk).Ok?
    ensures var e := ValidatePlace(input, partial, known, urlOk).value;
            && (input.description.Given? ==> e.description == Given(Trim(input.description.value)))
            && (input.website.Given? ==> e.website == Given(Trim(input.website.value)))
            && (input.phoneNumber.Given? ==> e.phoneNumber == Given(Trim(input.phoneNumber.value)))
            && (!input.description.Given? ==> e.description == input.description)
            && (!input.website.Given? ==> e.website == input.website)
            && (!input.phoneNumber.Given? ==> e.phoneNumber == input.phoneNumber)
            && (e.website.Given? && e.website.value != "" ==> |e.website.value| <= 200 && urlOk(e.website.value))
            && (e.phoneNumber.Given? ==> |e.phoneNumber.value| <= 20)
  {
    PassingOptionalFields(input, partial, known, urlOk);
    var website := OptionalText(input.website, Some(200), UrlCheck(urlOk));
    if website.value.Given? && website.value.value != "" {
      assert UrlCheck(urlOk)(website.value.value) == [];
    }
  }

  /** What a client sends for the read-only `owner`, `created_at` and
      `updated_at` makes no difference to the validated data. */
  lemma ReadOnlyPlaceFieldsIgnored(a: PlaceInput, b: PlaceInput, partial: bool, known: set<FeatureId>,
                                   urlOk: string -> bool)
    requires a.(owner := None, createdAt := None, updatedAt := None) == b.(owner := None, createdAt := None, updatedAt := None)
    ensures ValidatePlace(a, partial, known, urlOk) == ValidatePlace(b, partial, known, urlOk)
  {
    assert a.name == b.name && a.address == b.address && a.placeType == b.placeType;
    assert a.description == b.description && a.website == b.website && a.phoneNumber == b.phoneNumber;
    assert a.featureIds == b.featureIds;
    forall k ensures PlaceFieldMessages(a, partial, known, urlOk, k) == PlaceFieldMessages(b, partial, known, urlOk, k) {
    }
    assert PlaceErrors(a, partial, known, urlOk) == PlaceErrors(b, partial, known, urlOk);
  }

  /** A blank required field is refused on a full request and on a partial
      one alike, with DRF's "blank" message. */
  lemma BlankNameRefused(input: PlaceInput, partial: bool, known: set<FeatureId>, urlOk: string -> bool)
    requires input.name.Given? && Trim(input.name.value) == ""
    ensures ValidatePlace(input, partial, known, urlOk).Err?
    ensures PlaceErrors(input, partial, known, urlOk)[NameKey] == [Blank]
  {
    assert PlaceFieldMessages(input, partial, known, urlOk, NameKey) == [Blank];
  }

  /** A stored optional text: left out keeps it, `null` clears it, a value
      replaces it. */
  function Stored(current: Option<string>, v: Sent<string>): (r: Option<string>)
    ensures v.Absent? ==> r == current
    ensures v.Null? ==> r.None?
    ensures v.Given? ==> r == Some(v.value)
  {
    match v
    case Absent => current
    case Null => None
    case Given(t) => Some(t)
  }

  /** `serializer.save()` on an existing place: every field in the validated
      data is written, every other field is kept. */
  function ApplyPlace(p: Place, e: PlaceEdit): (q: Place)
    ensures q.id == p.id && q.owner == p.owner && q.createdAt == p.createdAt && q.updatedAt == p.updatedAt
    ensures q.name == if e.name.Some? then e.name.value else p.name
    ensures q.address == if e.address.Some? then e.address.value else p.address
    ensures q.placeType == if e.placeType.Some? then e.placeType.value else p.placeType
    ensures q.features == if e.features.Some? then e.features.value else p.features
  {
    p.(name := if e.name.Some? then e.name.value else p.name,
       address := if e.address.Some? then e.address.value else p.address,
       placeType := if e.placeType.Some? then e.placeType.value else p.placeType,
       description := Stored(p.description, e.description),
       website := Stored(p.website, e.website),
       phoneNumber := Stored(p.phoneNumber, e.phoneNumber),
       features := if e.features.Some? then e.features.value else p.features)
  }

  /** An update that sends nothing leaves the place as it was. */
  lemma EmptyEditKeepsPlace(p: Place)
    ensures ApplyPlace(p, PlaceEdit(None, None, None, Absent, Absent, Absent, None)) == p
  {
  }

  /** Saving the same validated data twice is saving it once. */
  lemma ApplyPlaceIdempotent(p: Place, e: PlaceEdit)
    ensures ApplyPlace(ApplyPlace(p, e), e) == ApplyPlace(p, e)
  {
  }

  /** An update that sends only some fields changes only those: the other
      fields of the stored place are kept. */
  lemma PartialUpdateKeepsOmitted(p: Place, input: PlaceInput, known: set<FeatureId>, urlOk: string -> bool)
    requires ValidatePlace(input, true, known, urlOk).Ok?
    ensures var q := ApplyPlace(p, ValidatePlace(input, true, known, urlOk).value);
            && (input.name.Absent? ==> q.name == p.name)
            && (input.address.Absent? ==> q.address == p.address)
            && (input.placeType.Absent? ==> q.placeType == p.placeType)
            && (input.description.Absent? ==> q.description == p.description)
            && (input.website.Absent? ==> q.website == p.website)
            && (input.phoneNumber.Absent? ==> q.phoneNumber == p.phoneNumber)
            && (input.featureIds.Absent? ==> q.features == p.features)
  {
  }

  /** The writable fields of a review request, together with what the client
      sends for the read-only `user`, `created_at` and `updated_at`. */
  datatype ReviewInput = ReviewInput(place: Sent<int>, rating: Sent<int>, accessibilityRating: Sent<int>,
                                     comment: Sent<string>, verification: Sent<string>,
                                     verifiedFeatureIds: Sent<seq<FeatureId>>,
                                     missingFeatureIds: Sent<seq<FeatureId>>,
                                     user: Option<UserId>, createdAt: Option<nat>, updatedAt: Option<nat>)

  /** The stored comment: trimmed, the empty string when blank, none when
      left out or `null`. */
  function CleanComment(v: Sent<string>): (r: Option<string>)
    ensures r.None? <==> !v.Given?
    ensures r.Some? ==> r.value == Trim(v.value)
    ensures r.Some? && r.value != "" ==> !IsPyWhitespace(r.value[0]) && !IsPyWhitespace(r.value[|r.value| - 1])
  {
    if v.Given? then Some(Trim(v.value)) else None
  }

  /** `place`, a required primary key: it must name an existing place. */
  function ReviewPlaceField(v: Sent<int>, placeIds: set<PlaceId>): (r: Result<PlaceId, seq<string>>)
    ensures r.Ok? <==> v.Given? && v.value in placeIds
    ensures r.Ok? ==> r.value == v.value
    ensures v.Absent? ==> r == Err([Required])
    ensures v.Null? ==> r == Err([NotNull])
    ensures v.Given? && v.value !in placeIds ==> r == Err([InvalidPk(v.value)])
  {
    match v
    case Absent => Err([Required])
    case Null => Err([NotNull])
    case Given(id) => if id in placeIds then Ok(id) else Err([InvalidPk(id)])
  }

  /** A rating, a choice among 1..5: `rating` is required and not nullable,
      `accessibility_rating` may be left out or `null`. */
  function StarsField(v: Sent<int>, required: bool): (r: Result<Option<int>, seq<string>>)
    ensures r.Err? <==> (required && !v.Given?) || (v.Given? && !IsStars(v.value))
    ensures r.Err? ==> r.error != []
    ensures required && v.Absent? ==> r == Err([Required])
    ensures required && v.Null? ==> r == Err([NotNull])
    ensures v.Given? && !IsStars(v.value) ==> r == Err([InvalidChoice(IntText(v.value))])
    ensures r.Ok? ==> (r.value.Some? <==> v.Given?)
    ensures r.Ok? && r.value.Some? ==> r.value.value == v.value && IsStars(r.value.value)
  {
    match v
    case Absent => if required then Err([Required]) else Ok(None)
    case Null => if required then Err([NotNull]) else Ok(None)
    case Given(n) => if IsStars(n) then Ok(Some(n)) else Err([InvalidChoice(IntText(n))])
  }

  /** `accessibility_verification`, a choice with a model default: it may be
      left out, but not sent as `null`; the code is taken as sent, not
      trimmed. */
  function VerificationField(v: Sent<string>): (r: Result<Option<Verification>, seq<string>>)
    ensures r.Err? <==> v.Null? || (v.Given? && ParseVerification(v.value).None?)
    ensures r.Err? ==> r.error != []
    ensures v.Given? && ParseVerification(v.value).None? ==> r == Err([InvalidChoice(v.value)])
    ensures r.Ok? ==> (r.value.None? <==> v.Absent?)
    ensures r.Ok? && r.value.Some? ==> VerificationCode(r.value.value) == v.value
  {
    match v
    case Absent => Ok(None)
    case Null => Err([NotNull])
    case Given(code) =>
      match ParseVerification(code)
      case Some(x) => VerificationCodes(x, code); Ok(Some(x))
      case None => Err([InvalidChoice(code)])
  }

  /** The fields of ReviewSerializer that a request writes. */
  datatype ReviewKey = PlaceKey | RatingKey | AccessibilityRatingKey | CommentKey | VerificationKey
                     | VerifiedIdsKey | MissingIdsKey

  /** The messages of one review field; none when it passes. */
  function ReviewField(input: ReviewInput, placeIds: set<PlaceId>, featureIds: set<FeatureId>, k: ReviewKey)
    : seq<string>
  {
    match k
    case PlaceKey => Problems(ReviewPlaceField(input.place, placeIds))
    case RatingKey => Problems(StarsField(input.rating, true))
    case AccessibilityRatingKey => Problems(StarsField(input.accessibilityRating, false))
    case CommentKey => Problems(OptionalText(input.comment, None, NoCheck))
    case VerificationKey => Problems(VerificationField(input.verification))
    case VerifiedIdsKey => Problems(FeatureIdsField(input.verifiedFeatureIds, featureIds))
    case MissingIdsKey => Problems(FeatureIdsField(input.missingFeatureIds, featureIds))
  }

  /** The field errors of a review request: `place` must be sent and name
      an existing place; `rating` must be sent and be one of 1..5;
      `accessibility_rating`, when sent, one of 1..5; a comment must hold no
      NUL character; a verification code, when sent, must name a choice;
      and an id list, when sent, must not be `null` and must name existing
      features only. */
  function ReviewErrors(input: ReviewInput, placeIds: set<PlaceId>, featureIds: set<FeatureId>): (r: Errors<ReviewKey>)
    ensures PlaceKey in r <==> !(input.place.Given? && input.place.value in placeIds)
    ensures RatingKey in r <==> !(input.rating.Given? && IsStars(input.rating.value))
    ensures AccessibilityRatingKey in r <==> input.accessibilityRating.Given? && !IsStars(input.accessibilityRating.value)
    ensures CommentKey in r <==> OptionalRefused(input.comment, None, NoCheck)
    ensures VerificationKey in r <==> input.verification.Null?
                                      || (input.verification.Given? && ParseVerification(input.verification.value).None?)
    ensures VerifiedIdsKey in r <==> input.verifiedFeatureIds.Null?
                                     || (input.verifiedFeatureIds.Given? && RelatedIds(input.verifiedFeatureIds.value, featureIds).Err?)
    ensures MissingIdsKey in r <==> input.missingFeatureIds.Null?
                                    || (input.missingFeatureIds.Given? && RelatedIds(input.missingFeatureIds.value, featureIds).Err?)
    ensures forall k :: k in r ==> r[k] == ReviewField(input, placeIds, featureIds, k)
  {
    map k | k in {PlaceKey, RatingKey, AccessibilityRatingKey, CommentKey, VerificationKey, VerifiedIdsKey, MissingIdsKey}
                 && ReviewField(input, placeIds, featureIds, k) != []
          :: ReviewField(input, placeIds, featureIds, k)
  }

  /** A review request without `place`, or with `place` sent as `null` (what
      `parseInt` of a route id that is not a number becomes in JSON), is
      refused under `place`. */
  lemma PlaceRequired(input: ReviewInput, placeIds: set<PlaceId>, featureIds: set<FeatureId>)
    requires !input.place.Given?
    ensures PlaceKey in ReviewErrors(input, placeIds, featureIds)
    ensures ReviewErrors(input, placeIds, featureIds)[PlaceKey] == if input.place.Absent? then [Required] else [NotNull]
  {
  }

  /** The validated data of a review request. The verification and the id
      lists are `None` when they were left out. */
  datatype ReviewEdit = ReviewEdit(place: PlaceId, rating: int, accessibilityRating: Option<int>,
                                   comment: Option<string>, verification: Option<Verification>,
                                   verified: Option<set<FeatureId>>, missing: Option<set<FeatureId>>)

  /** `is_valid()` on a review request: refused exactly when some field has
      an error, with every field's messages; otherwise an existing place,
      ratings among 1..5 and existing features. */
  function ValidateReview(input: ReviewInput, placeIds: set<PlaceId>, featureIds: set<FeatureId>)
    : (r: Result<ReviewEdit, Errors<ReviewKey>>)
    ensures r.Err? <==> ReviewErrors(input, placeIds, featureIds) != map[]
    ensures r.Err? ==> r.error == ReviewErrors(input, placeIds, featureIds)
    ensures r.Ok? ==> && r.value.place in placeIds && IsStars(r.value.rating)
                      && (r.value.accessibilityRating.Some? ==> IsStars(r.value.accessibilityRating.value))
                      && (r.value.verified.Some? ==> r.value.verified.value <= featureIds)
                      && (r.value.missing.Some? ==> r.value.missing.value <= featureIds)
  {
    var errors := ReviewErrors(input, placeIds, featureIds);
    if errors != map[] then Err(errors)
    else
      PassingReviewFields(input, placeIds, featureIds);
      Ok(ReviewEdit(ReviewPlaceField(input.place, placeIds).value,
                    StarsField(input.rating, true).value.value,
                    StarsField(input.accessibilityRating, false).value,
                    CleanComment(input.comment),
                    VerificationField(input.verification).value,
                    FeatureIdsField(input.verifiedFeatureIds, featureIds).value,
                    FeatureIdsField(input.missingFeatureIds, featureIds).value))
  }

  /** With no field errors, every review field gives a value. */
  lemma PassingReviewFields(input: ReviewInput, placeIds: set<PlaceId>, featureIds: set<FeatureId>)
    requires ReviewErrors(input, placeIds, featureIds) == map[]
    ensures ReviewPlaceField(input.place, placeIds).Ok?
    ensures StarsField(input.rating, true).Ok? && StarsField(input.rating, true).value.Some?
    ensures StarsField(input.accessibilityRating, false).Ok?
    ensures VerificationField(input.verification).Ok?
    ensures FeatureIdsField(input.verifiedFeatureIds, featureIds).Ok?
    ensures FeatureIdsField(input.missingFeatureIds, featureIds).Ok?
  {
    assert PlaceKey !in ReviewErrors(input, placeIds, featureIds);
    assert RatingKey !in ReviewErrors(input, placeIds, featureIds);
    assert AccessibilityRatingKey !in ReviewErrors(input, placeIds, featureIds);
    assert VerificationKey !in ReviewErrors(input, placeIds, featureIds);
    assert VerifiedIdsKey !in ReviewErrors(input, placeIds, featureIds);
    assert MissingIdsKey !in ReviewErrors(input, placeIds, featureIds);
  }

  /** What an accepted review request stores: the place and ratings as
      sent, the trimmed comment, the verification whose code was sent, and
      the features the id lists name; a field left out stays out. */
  lemma ValidReviewFields(input: ReviewInput, placeIds: set<PlaceId>, featureIds: set<FeatureId>)
    requires ValidateReview(input, placeIds, featureIds).Ok?
    ensures var e := ValidateReview(input, placeIds, featureIds).value;
            && input.place == Given(e.place as int) && input.rating == Given(e.rating)
            && (e.accessibilityRating.Some? <==> input.accessibilityRating.Given?)
            && (e.accessibilityRating.Some? ==> input.accessibilityRating.value == e.accessibilityRating.value)
            && e.comment == CleanComment(input.comment)
            && (e.verification.None? <==> input.verification.Absent?)
            && (e.verification.Some? ==> VerificationCode(e.verification.value) == input.verification.value)
            && (e.verified.None? <==> input.verifiedFeatureIds.Absent?)
            && (e.verified.Some? ==> e.verified.value == RelatedIds(input.verifiedFeatureIds.value, featureIds).value)
            && (e.missing.None? <==> input.missingFeatureIds.Absent?)
            && (e.missing.Some? ==> e.missing.value == RelatedIds(input.missingFeatureIds.value, featureIds).value)
  {
    PassingReviewFields(input, placeIds, featureIds);
  }

  /** What a client sends for the read-only `user`, `created_at` and
      `updated_at` makes no difference to the validated data. */
  lemma ReadOnlyReviewFieldsIgnored(a: ReviewInput, b: ReviewInput, placeIds: set<PlaceId>, featureIds: set<FeatureId>)
    requires a.(user := None, createdAt := None, updatedAt := None) == b.(user := None, createdAt := None, updatedAt := None)
    ensures ValidateReview(a, placeIds, featureIds) == ValidateReview(b, placeIds, featureIds)
  {
    assert a.place == b.place && a.rating == b.rating && a.accessibilityRating == b.accessibilityRating;
    assert a.comment == b.comment && a.verification == b.verification;
    assert a.verifiedFeatureIds == b.verifiedFeatureIds && a.missingFeatureIds == b.missingFeatureIds;
    forall k ensures ReviewField(a, placeIds, featureIds, k) == ReviewField(b, placeIds, featureIds, k) {
    }
    assert ReviewErrors(a, placeIds, featureIds) == ReviewErrors(b, placeIds, featureIds);
  }
}
