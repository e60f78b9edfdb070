/**
 * The sign-in / registration page: the ordered chain of form checks, the
 * form's field updates, the switch between the two modes, and what a submit
 * does to the page's state. The sign-in and sign-up calls themselves are
 * external; their success or failure is a parameter.
 */
module Auth {
  import opened JsText

  datatype FormData = FormData(email: string, password: string, phone: string, countryCode: string, name: string)

  const EmptyForm := FormData("", "", "", "", "")

  datatype Field = Email | Password | Phone | CountryCode | Name

  /** The reasons `validateForm` refuses a form, in the order it tests them. */
  datatype Rejection = MissingFields | InvalidEmail | PasswordTooShort | InvalidPhone | InvalidCountryCode | MissingName

  datatype Verdict = Accepted | Rejected(reason: Rejection)

  const MinPasswordLength := 6

  /** The position of a check in the chain. */
  function Rank(r: Rejection): nat {
    match r
    case MissingFields => 0
    case InvalidEmail => 1
    case PasswordTooShort => 2
    case InvalidPhone => 3
    case InvalidCountryCode => 4
    case MissingName => 5
  }

  /** The character class `[\d\s\-\(\)]`. */
  predicate IsPhoneChar(c: char) {
    ('0' <= c <= '9') || IsWhitespace(c) || c == '-' || c == '(' || c == ')'
  }

  predicate AllPhoneChars(s: string) {
    forall i :: 0 <= i < |s| ==> IsPhoneChar(s[i])
  }

  /** `phone.match(/^\+?[\d\s\-\(\)]+$/)` succeeds. */
  predicate PhoneMatches(phone: string)
    ensures PhoneMatches(phone) ==> phone != "" && phone != "+"
    ensures PhoneMatches(phone) ==> forall i :: 1 <= i < |phone| ==> IsPhoneChar(phone[i])
  {
    if phone != [] && phone[0] == '+' then |phone| > 1 && AllPhoneChars(phone[1..])
    else phone != [] && AllPhoneChars(phone)
  }

  /**
   * The phone pattern read character by character: at least one character
   * that is not a lone `+`, a `+` allowed only in front, everything else from
   * the class.
   */
  lemma PhoneMatchesChars(phone: string)
    ensures PhoneMatches(phone) <==>
      && phone != "" && phone != "+"
      && forall i :: 0 <= i < |phone| ==> IsPhoneChar(phone[i]) || (i == 0 && phone[i] == '+')
  {
    if phone != [] && phone[0] == '+' {
      assert forall i :: 1 <= i < |phone| ==> phone[i] == phone[1..][i - 1];
    }
  }

  /** The check named `r` lets the form through. */
  predicate Passes(f: FormData, isLogin: bool, r: Rejection) {
    match r
    case MissingFields => f.email != "" && f.password != "" && f.phone != "" && f.countryCode != ""
    case InvalidEmail => '@' in f.email
    case PasswordTooShort => Utf16Length(f.password) >= MinPasswordLength
    case InvalidPhone => PhoneMatches(f.phone)
    case InvalidCountryCode => f.countryCode != "" && f.countryCode[0] == '+'
    case MissingName => isLogin || f.name != ""
  }

  /**
   * `validateForm`: the first failing check decides the verdict, and the form
   * is accepted exactly when every check passes.
   */
  function Validate(f: FormData, isLogin: bool): (v: Verdict)
    ensures v == Accepted <==> forall r :: Passes(f, isLogin, r)
    ensures v.Rejected? ==> !Passes(f, isLogin, v.reason)
    ensures v.Rejected? ==> forall r :: Rank(r) < Rank(v.reason) ==> Passes(f, isLogin, r)
  {
    if f.email == "" || f.password == "" || f.phone == "" || f.countryCode == "" then
      assert !Passes(f, isLogin, MissingFields);
      Rejected(MissingFields)
    else if '@' !in f.email then
      assert !Passes(f, isLogin, InvalidEmail);
      Rejected(InvalidEmail)
    else if Utf16Length(f.password) < MinPasswordLength then
      assert !Passes(f, isLogin, PasswordTooShort);
      Rejected(PasswordTooShort)
    else if !PhoneMatches(f.phone) then
      assert !Passes(f, isLogin, InvalidPhone);
      Rejected(InvalidPhone)
    else if !(f.countryCode[0] == '+') then
      assert !Passes(f, isLogin, InvalidCountryCode);
      Rejected(InvalidCountryCode)
    else if !isLogin && f.name == "" then
      assert !Passes(f, isLogin, MissingName);
      Rejected(MissingName)
    else Accepted
  }

  /** An empty required field is reported as missing fields whatever else is wrong. */
  lemma EmptyRequiredFieldRejected(f: FormData, isLogin: bool)
    requires f.email == "" || f.password == "" || f.phone == "" || f.countryCode == ""
    ensures Validate(f, isLogin) == Rejected(MissingFields)
  {
  }

  /** A password shorter than six code units never passes; six characters always pass that check. */
  lemma PasswordBoundary(f: FormData, isLogin: bool)
    ensures Utf16Length(f.password) < MinPasswordLength ==> Validate(f, isLogin) != Accepted
    ensures |f.password| >= MinPasswordLength ==> Passes(f, isLogin, PasswordTooShort)
  {
  }

  /** In login mode the name never matters; in register mode an empty name is refused. */
  lemma NameOnlyWhenRegistering(f: FormData, name: string)
    ensures Validate(f, true) == Validate(f.(name := name), true)
    ensures Validate(f.(name := ""), false) != Accepted
  {
  }

  // ---------------------------------------------------------------------------
  // The page's state

  datatype AuthPage = AuthPage(isLogin: bool, form: FormData)

  /** The page as it mounts: login mode with every field empty. */
  const InitialPage := AuthPage(true, EmptyForm)

  function Get(f: FormData, field: Field): string {
    match field
    case Email => f.email
    case Password => f.password
    case Phone => f.phone
    case CountryCode => f.countryCode
    case Name => f.name
  }

  /** `handleInputChange(field, value)`: only the named field takes the new value. */
  function InputChange(p: AuthPage, field: Field, value: string): (r: AuthPage)
    ensures r.isLogin == p.isLogin
    ensures forall g :: Get(r.form, g) == if g == field then value else Get(p.form, g)
  {
    var f := p.form;
    var f' := match field
      case Email => f.(email := value)
      case Password => f.(password := value)
      case Phone => f.(phone := value)
      case CountryCode => f.(countryCode := value)
      case Name => f.(name := value);
    p.(form := f')
  }

  /** The "Sign up" / "Sign in" link: flip the mode and clear all five fields. */
  function ToggleMode(p: AuthPage): (r: AuthPage)
    ensures r.isLogin == !p.isLogin
    ensures forall g :: Get(r.form, g) == ""
  {
    AuthPage(!p.isLogin, EmptyForm)
  }

  /** The tab strip: select the mode by the tab's value; the fields are kept. */
  function SelectTab(p: AuthPage, tab: string): (r: AuthPage)
    ensures r.isLogin <==> tab == "login"
    ensures r.form == p.form
  {
    p.(isLogin := tab == "login")
  }

  datatype SubmitOutcome =
    | Invalid(reason: Rejection)
    | LoginSucceeded
    | LoginFailed
    | Registered
    | RegistrationFailed

  datatype Submission = Submission(outcome: SubmitOutcome, page: AuthPage)

  /**
   * `handleSubmit`, given whether the external sign-in or sign-up call
   * succeeds: an invalid form is refused with the verdict's reason; a login
   * leaves the page as it is (a success navigates away); a successful
   * registration switches to login mode with an empty form; a failed one
   * keeps everything.
   */
  function Submit(p: AuthPage, backendSucceeds: bool): (s: Submission)
    ensures Validate(p.form, p.isLogin).Rejected? <==> s.outcome.Invalid?
    ensures s.outcome.Invalid? ==> s.outcome.reason == Validate(p.form, p.isLogin).reason
    ensures s.outcome == LoginSucceeded <==> p.isLogin && backendSucceeds && Validate(p.form, p.isLogin) == Accepted
    ensures s.outcome == LoginFailed <==> p.isLogin && !backendSucceeds && Validate(p.form, p.isLogin) == Accepted
    ensures s.outcome == Registered <==> !p.isLogin && backendSucceeds && Validate(p.form, p.isLogin) == Accepted
    ensures s.outcome == RegistrationFailed <==> !p.isLogin && !backendSucceeds && Validate(p.form, p.isLogin) == Accepted
    ensures s.outcome == Registered ==> s.page == InitialPage && forall g :: Get(s.page.form, g) == ""
    ensures s.outcome != Registered ==> s.page == p
  {
    var v := Validate(p.form, p.isLogin);
    assert v == Accepted && !p.isLogin ==> p.form.name != "" by {
      if v == Accepted && !p.isLogin {
        assert Passes(p.form, p.isLogin, MissingName);
      }
    }
    match v
    case Rejected(r) => Submission(Invalid(r), p)
    case Accepted =>
      if p.isLogin then
        Submission(if backendSucceeds then LoginSucceeded else LoginFailed, p)
      else if p.form.name == "" then
        // The second name check of the register branch; Validate already
        // refused an empty name in register mode, so this never decides.
        Submission(Invalid(MissingName), p)
      else if backendSucceeds then
        Submission(Registered, InitialPage)
      else
        Submission(RegistrationFailed, p)
  }

  /**
   * The page as it mounts refuses a submit for missing fields and stays as it
   * is, and toggling the mode twice brings it back.
   */
  lemma InitialPageBehaviour(backendSucceeds: bool)
    ensures Submit(InitialPage, backendSucceeds) == Submission(Invalid(MissingFields), InitialPage)
    ensures ToggleMode(ToggleMode(InitialPage)) == InitialPage
    ensures !ToggleMode(InitialPage).isLogin
  {
  }
}
