/**
 The registration page: a four-field form, its validator, the per-field
 error messages it shows, and the submit flow that posts the form to the
 registration endpoint. The network call is a parameter: the outcome the
 `fetch` promise settled with.
 */
module Register {
  import opened Wrappers
  import opened JsStrings

  // ---------------------------------------------------------------------
  // Form data

  datatype Field = FullName | Email | Password | ConfirmPassword

  datatype RegisterForm = RegisterForm(fullName: string, email: string, password: string, confirmPassword: string)
  {
    function Get(f: Field): string {
      match f
      case FullName => fullName
      case Email => email
      case Password => password
      case ConfirmPassword => confirmPassword
    }

    /** `{ ...prev, [field]: value }` */
    function With(f: Field, v: string): (r: RegisterForm)
      ensures r.Get(f) == v
      ensures forall g :: g != f ==> r.Get(g) == Get(g)
    {
      match f
      case FullName => this.(fullName := v)
      case Email => this.(email := v)
      case Password => this.(password := v)
      case ConfirmPassword => this.(confirmPassword := v)
    }
  }

  const EmptyForm := RegisterForm("", "", "", "")

  // ---------------------------------------------------------------------
  // Messages

  const FullNameRequired := "Nome completo é obrigatório"
  const EmailRequired := "Email é obrigatório"
  const EmailInvalid := "Email inválido"
  const PasswordRequired := "Senha é obrigatória"
  const PasswordTooShort := "A senha deve ter pelo menos 6 caracteres"
  const PasswordsDiffer := "As senhas não coincidem"

  const MinPasswordLength := 6

  /** The messages the validator can attach to a field. */
  function MessagesFor(f: Field): set<string> {
    match f
    case FullName => {FullNameRequired}
    case Email => {EmailRequired, EmailInvalid}
    case Password => {PasswordRequired, PasswordTooShort}
    case ConfirmPassword => {PasswordsDiffer}
  }

  // ---------------------------------------------------------------------
  // The e-mail pattern /\S+@\S+\.\S+/, searched anywhere in the string

  /** `s[i..j]` is a match: `s[i..p]` is `\S+`, `s[p]` is `@`, `s[p+1..q]` is
      `\S+`, `s[q]` is `.` and `s[q+1..j]` is `\S+`. The runs may themselves
      contain `@` and `.`. */
  ghost predicate EmailMatchAt(s: string, i: int, p: int, q: int, j: int) {
    && 0 <= i < p && p + 1 < q && q + 1 < j <= |s|
    && s[p] == '@' && s[q] == '.'
    && NoWhiteSpaceIn(s, i, j)
  }

  /** What `/\S+@\S+\.\S+/.test(s)` answers: some substring matches. */
  ghost predicate EmailRegexTest(s: string)
    ensures EmailRegexTest(s) ==> 5 <= |s|
  {
    exists i, p, q, j :: EmailMatchAt(s, i, p, q, j)
  }

  /** The shortest possible match, with `@` at `p` and `.` at `q`: a
      non-whitespace character, `@`, at least one non-whitespace character,
      `.`, and a non-whitespace character. */
  predicate ShortestMatchAt(s: string, p: int, q: int) {
    && 1 <= p && p + 1 < q < |s| - 1
    && s[p] == '@' && s[q] == '.'
    && !IsWhiteSpace(s[p - 1]) && !IsWhiteSpace(s[q + 1])
    && NoWhiteSpaceIn(s, p + 1, q)
  }

  /** The e-mail test the validator runs: some shortest match exists
      (`EmailShapeIsRegexTest` shows this is the regular-expression test). */
  predicate HasEmailShape(s: string)
    ensures HasEmailShape(s) ==> 5 <= |s| && '@' in s && '.' in s
  {
    exists p, q | 1 <= p && p + 1 < q < |s| - 1 :: ShortestMatchAt(s, p, q)
  }

  /** A shortest match is a match of the whole pattern. */
  lemma ShortestMatch(s: string, p: int, q: int)
    requires ShortestMatchAt(s, p, q)
    ensures EmailMatchAt(s, p - 1, p, q, q + 2)
  {
  }

  /** The shortest-match test and the regular-expression test agree. */
  lemma EmailShapeIsRegexTest(s: string)
    ensures HasEmailShape(s) <==> EmailRegexTest(s)
  {
    if HasEmailShape(s) {
      var p, q :| 1 <= p && p + 1 < q < |s| - 1 && ShortestMatchAt(s, p, q);
      ShortestMatch(s, p, q);
    }
    if EmailRegexTest(s) {
      var i, p, q, j :| EmailMatchAt(s, i, p, q, j);
      assert i <= p - 1 && q + 1 < j;
      assert !IsWhiteSpace(s[p - 1]) && !IsWhiteSpace(s[q + 1]);
      assert NoWhiteSpaceIn(s, p + 1, q);
      assert ShortestMatchAt(s, p, q);
    }
  }

  /** Any string the pattern accepts has a non-whitespace character. */
  lemma EmailRegexTestNotBlank(s: string)
    requires EmailRegexTest(s)
    ensures !AllWhiteSpace(s)
  {
  }

  /** The pattern is not anchored: text with a space before the match is
      accepted, and so is a second `@`. */
  lemma EmailPatternUnanchored()
    ensures HasEmailShape("joao silva@mail.com")
    ensures HasEmailShape("a@b@c.d")
    ensures !HasEmailShape("a@.b")
    ensures !HasEmailShape("@mail.com")
  {
    var named := "joao silva@mail.com";
    assert named[10] == '@' && named[15] == '.' && !IsWhiteSpace(named[9]) && !IsWhiteSpace(named[16]);
    assert NoWhiteSpaceIn(named, 11, 15);
    assert ShortestMatchAt(named, 10, 15);
    var twoAts := "a@b@c.d";
    assert twoAts[1] == '@' && twoAts[5] == '.' && !IsWhiteSpace(twoAts[0]) && !IsWhiteSpace(twoAts[6]);
    assert NoWhiteSpaceIn(twoAts, 2, 5);
    assert ShortestMatchAt(twoAts, 1, 5);
  }

  // ---------------------------------------------------------------------
  // The validator

  /** The error the validator attaches to field `f` of `form`, if any. */
  function FieldError(form: RegisterForm, f: Field): (r: Option<string>)
    ensures r.Some? ==> r.value in MessagesFor(f)
  {
    match f
    case FullName =>
      if Trim(form.fullName) == [] then Some(FullNameRequired) else None
    case Email =>
      if Trim(form.email) == [] then Some(EmailRequired)
      else if !HasEmailShape(form.email) then Some(EmailInvalid)
      else None
    case Password =>
      if form.password == [] then Some(PasswordRequired)
      else if JsLength(form.password) < MinPasswordLength then Some(PasswordTooShort)
      else None
    case ConfirmPassword =>
      if form.password != form.confirmPassword then Some(PasswordsDiffer) else None
  }

  /** The error map the validator computes for `form`. */
  function FormErrors(form: RegisterForm): (r: map<Field, string>)
    ensures forall f :: f in r ==> r[f] in MessagesFor(f)
  {
    map f | f in {FullName, Email, Password, ConfirmPassword} && FieldError(form, f).Some? :: FieldError(form, f).value
  }

  /** A field's message is one of that field's messages; a field gets at most
      one (the map holds a single value per key). */
  lemma FormErrorsMessages(form: RegisterForm, f: Field)
    ensures f in FormErrors(form) <==> FieldError(form, f).Some?
    ensures f in FormErrors(form) ==> FormErrors(form)[f] in MessagesFor(f)
  {
  }

  /** `m` with the error of field `f`, if `form` has one. */
  function WithFieldError(form: RegisterForm, m: map<Field, string>, f: Field): map<Field, string> {
    if FieldError(form, f).Some? then m[f := FieldError(form, f).value] else m
  }

  /** Checking the fields one after the other, in the validator's order,
      builds the error map. */
  lemma FormErrorsInOrder(form: RegisterForm)
    ensures FormErrors(form) ==
      WithFieldError(form, WithFieldError(form, WithFieldError(form, WithFieldError(form, map[], FullName), Email), Password), ConfirmPassword)
  {
    var m := WithFieldError(form, WithFieldError(form, WithFieldError(form, WithFieldError(form, map[], FullName), Email), Password), ConfirmPassword);
    forall f ensures (f in m <==> f in FormErrors(form)) && (f in m ==> m[f] == FormErrors(form)[f]) {
      FormErrorsMessages(form, f);
    }
  }

  /** The name is required: blank after `trim()` is an error. */
  lemma FullNameErrorIff(form: RegisterForm)
    ensures FullName in FormErrors(form) <==> AllWhiteSpace(form.fullName)
    ensures FullName in FormErrors(form) ==> FormErrors(form)[FullName] == FullNameRequired
  {
  }

  /** The two e-mail errors exclude each other. */
  lemma EmailErrorCases(form: RegisterForm)
    ensures AllWhiteSpace(form.email) ==>
      Email in FormErrors(form) && FormErrors(form)[Email] == EmailRequired
    ensures !AllWhiteSpace(form.email) && !EmailRegexTest(form.email) ==>
      Email in FormErrors(form) && FormErrors(form)[Email] == EmailInvalid
    ensures Email !in FormErrors(form) <==> EmailRegexTest(form.email)
  {
    TrimEmptyIffAllWhiteSpace(form.email);
    EmailShapeIsRegexTest(form.email);
    if EmailRegexTest(form.email) {
      EmailRegexTestNotBlank(form.email);
    }
  }

  /** The two password errors exclude each other; `length` counts UTF-16
      code units. */
  lemma PasswordErrorCases(form: RegisterForm)
    ensures form.password == [] ==>
      Password in FormErrors(form) && FormErrors(form)[Password] == PasswordRequired
    ensures 1 <= JsLength(form.password) < MinPasswordLength ==>
      Password in FormErrors(form) && FormErrors(form)[Password] == PasswordTooShort
    ensures Password !in FormErrors(form) <==> JsLength(form.password) >= MinPasswordLength
  {
  }

  /** The confirmation error depends only on the two passwords being equal,
      whether or not the password itself is acceptable. */
  lemma ConfirmErrorIff(form: RegisterForm)
    ensures ConfirmPassword in FormErrors(form) <==> form.password != form.confirmPassword
    ensures ConfirmPassword in FormErrors(form) ==> FormErrors(form)[ConfirmPassword] == PasswordsDiffer
  {
  }

  /** The fields whose values the rule for `g` reads. */
  function ReadsOf(g: Field): set<Field> {
    match g
    case FullName => {FullName}
    case Email => {Email}
    case Password => {Password}
    case ConfirmPassword => {Password, ConfirmPassword}
  }

  /** Editing a field the rule for `g` does not read leaves `g`'s error as
      it was: only a password edit can change the confirmation error. */
  lemma ErrorDependsOnlyOnReads(form: RegisterForm, f: Field, v: string, g: Field)
    requires f !in ReadsOf(g)
    ensures FieldError(form.With(f, v), g) == FieldError(form, g)
  {
  }

  /** A form every rule accepts. None of the "required" guards fires on it:
      the trimmed name and e-mail and the password are all non-empty. */
  ghost predicate Acceptable(form: RegisterForm)
    ensures Acceptable(form) ==> Trim(form.fullName) != [] && Trim(form.email) != [] && form.password != []
  {
    && !AllWhiteSpace(form.fullName)
    && EmailRegexTest(form.email)
    && JsLength(form.password) >= MinPasswordLength
    && form.password == form.confirmPassword
  }

  /** The validator reports no error exactly for acceptable forms. */
  lemma FormValidIff(form: RegisterForm)
    ensures FormErrors(form) == map[] <==> Acceptable(form)
  {
    FullNameErrorIff(form);
    EmailErrorCases(form);
    PasswordErrorCases(form);
    ConfirmErrorIff(form);
    if !Acceptable(form) {
      var f :| f in {FullName, Email, Password, ConfirmPassword} && f in FormErrors(form);
    }
  }

  // ---------------------------------------------------------------------
  // Submitting: what the registration endpoint can answer

  /** A value a rejected promise or `throw` carries. */
  datatype Thrown = ErrorObject(message: string) | OtherValue

  /** The body of the response: not JSON (`response.json()` rejects, so
      `data` stays `{}`), or an object whose `message` is a string or absent. */
  datatype ResponseBody = NotJson | JsonObject(message: Option<string>)

  datatype FetchOutcome = Rejected(reason: Thrown) | Responded(ok: bool, body: ResponseBody)

  /** The JSON body posted to `/api/auth/register`. */
  datatype RegisterRequest = RegisterRequest(username: string, email: string, password: string)

  /** The toast shown when the request settles; a success also schedules
      navigation to `/login`. */
  datatype Toast = Registered | RegisterFailed(description: string)

  const RegisterErrorFallback := "Erro ao registrar"
  const UnknownErrorDescription := "Algo deu errado."

  /** `data.message`, or "" when the body has none. */
  function ServerMessage(body: ResponseBody): (m: string)
    ensures m != "" ==> body.JsonObject? && body.message == Some(m)
    ensures body.JsonObject? && body.message.Some? ==> m == body.message.value
  {
    match body
    case NotJson => ""
    case JsonObject(None) => ""
    case JsonObject(Some(m)) => m
  }

  /** The toast for a settled request. */
  function SettleToast(outcome: FetchOutcome): (t: Toast)
    ensures t.Registered? <==> outcome.Responded? && outcome.ok
    ensures outcome.Responded? && !outcome.ok ==>
      t == RegisterFailed(if ServerMessage(outcome.body) != "" then ServerMessage(outcome.body) else RegisterErrorFallback)
    ensures outcome.Rejected? ==>
      t == RegisterFailed(if outcome.reason.ErrorObject? then outcome.reason.message else UnknownErrorDescription)
  {
    match outcome
    case Rejected(reason) =>
      RegisterFailed(match reason case ErrorObject(m) => m case OtherValue => UnknownErrorDescription)
    case Responded(ok, body) =>
      // `throw new Error(data.message || "Erro ao registrar")`, caught below it
      var m := ServerMessage(body);
      if ok then Registered else RegisterFailed(if m != "" then m else RegisterErrorFallback)
  }

  /** A refusal by the server always carries a non-empty description. */
  lemma RefusalDescribed(outcome: FetchOutcome)
    requires outcome.Responded? && !outcome.ok
    ensures SettleToast(outcome).description != ""
    ensures SettleToast(outcome).description == ServerMessage(outcome.body) <==> ServerMessage(outcome.body) != ""
  {
  }

  /** The result of one submit: no request at all, or the request posted
      and the toast it ended with. */
  datatype SubmitResult = NotSent | Sent(request: RegisterRequest, toast: Toast)

  // ---------------------------------------------------------------------
  // The page's state

  class RegisterPage {
    var formData: RegisterForm
    var errors: map<Field, string>
    var isLoading: bool

    /** Every message on display is one the validator produces for that
        field, or has been cleared to "". */
    ghost predicate Valid()
      reads this
    {
      forall f :: f in errors ==> errors[f] == "" || errors[f] in MessagesFor(f)
    }

    /** The form shows an error under field `f` (`errors.f &&` in the markup). */
    predicate ShowsError(f: Field)
      reads this
    {
      f in errors && errors[f] != ""
    }

    constructor ()
      ensures Valid()
      ensures formData == EmptyForm && errors == map[] && !isLoading
    {
      formData := EmptyForm;
      errors := map[];
      isLoading := false;
    }

    /** `validateForm`: computes the error map field by field, stores it and
        reports whether it is empty. */
    method ValidateForm() returns (ok: bool)
      requires Valid()
      modifies this
      ensures Valid()
      ensures errors == FormErrors(formData)
      ensures ok <==> errors == map[]
      ensures formData == old(formData) && isLoading == old(isLoading)
    {
      var form := formData;
      var newErrors: map<Field, string> := map[];
      if Trim(form.fullName) == [] {
        newErrors := newErrors[FullName := FullNameRequired];
      }
      if Trim(form.email) == [] {
        newErrors := newErrors[Email := EmailRequired];
      } else if !HasEmailShape(form.email) {
        newErrors := newErrors[Email := EmailInvalid];
      }
      if form.password == [] {
        newErrors := newErrors[Password := PasswordRequired];
      } else if JsLength(form.password) < MinPasswordLength {
        newErrors := newErrors[Password := PasswordTooShort];
      }
      if form.password != form.confirmPassword {
        newErrors := newErrors[ConfirmPassword := PasswordsDiffer];
      }
      FormErrorsInOrder(form);
      forall f | f in newErrors ensures newErrors[f] in MessagesFor(f) {
        FormErrorsMessages(form, f);
      }
      errors := newErrors;
      ok := |newErrors| == 0;
    }

    /** `handleChange`: stores the new value and clears an error on display
        under that field. */
    method HandleChange(field: Field, value: string)
      requires Valid()
      modifies this
      ensures Valid()
      ensures formData == old(formData).With(field, value)
      ensures errors == if old(ShowsError(field)) then old(errors)[field := ""] else old(errors)
      ensures !ShowsError(field)
      ensures isLoading == old(isLoading)
    {
      formData := formData.With(field, value);
      if field in errors && errors[field] != "" {
        errors := errors[field := ""];
      }
    }

    /** The first half of `handleSubmit`, up to the `await fetch`: validate,
        and when the form is acceptable raise `isLoading` and build the
        request body. */
    method SubmitStart() returns (request: Option<RegisterRequest>)
      requires Valid()
      modifies this
      ensures Valid()
      ensures formData == old(formData) && errors == FormErrors(formData)
      ensures request.None? <==> !Acceptable(formData)
      ensures request.None? ==> isLoading == old(isLoading)
      ensures request.Some? ==>
                isLoading && request.value == RegisterRequest(formData.fullName, formData.email, formData.password)
    {
      var valid := ValidateForm();
      FormValidIff(formData);
      if !valid {
        return None;
      }
      isLoading := true;
      request := Some(RegisterRequest(formData.fullName, formData.email, formData.password));
    }

    /** The rest of `handleSubmit`, once the request has settled with
        `outcome`: the toast, and `isLoading` lowered in `finally`. */
    method SubmitSettle(outcome: FetchOutcome) returns (toast: Toast)
      requires Valid()
      modifies this
      ensures Valid()
      ensures !isLoading
      ensures toast == SettleToast(outcome)
      ensures formData == old(formData) && errors == old(errors)
    {
      toast := SettleToast(outcome);
      isLoading := false;
    }

    /** `handleSubmit` as a whole, with the server answering `outcome`. */
    method HandleSubmit(outcome: FetchOutcome) returns (r: SubmitResult)
      requires Valid()
      modifies this
      ensures Valid()
      ensures formData == old(formData) && errors == FormErrors(formData)
      ensures r.NotSent? <==> !Acceptable(formData)
      ensures r.NotSent? ==> isLoading == old(isLoading)
      ensures r.Sent? ==>
                && !isLoading
                && r.request == RegisterRequest(formData.fullName, formData.email, formData.password)
                && r.toast == SettleToast(outcome)
    {
      var request := SubmitStart();
      if request.None? {
        return NotSent;
      }
      var toast := SubmitSettle(outcome);
      r := Sent(request.value, toast);
    }
  }
}
