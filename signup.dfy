/**
 * The signup form of `Signup.js`: its fields and error message, the ordered
 * validation chain of `handleSubmit`, `validatePassword`, and what the form
 * does with the controller's answer.
 */
module Signup {
  import opened Common
  import opened Text
  import opened Numbers
  import opened AcademicYear
  import opened Accounts

  /** The `form` state: every field is the text of its input. */
  datatype Fields = Fields(
    username: string,
    password: string,
    confirmPassword: string,
    name: string,
    email: string,
    major: string,
    credits: string)

  /** The `name` attribute of each input. */
  datatype Field = Username | Password | ConfirmPassword | Name | Email | Major | Credits

  const Blank := Fields("", "", "", "", "", "", "")

  function Get(f: Fields, which: Field): string {
    match which
    case Username => f.username
    case Password => f.password
    case ConfirmPassword => f.confirmPassword
    case Name => f.name
    case Email => f.email
    case Major => f.major
    case Credits => f.credits
  }

  /** `{...f, [name]: value}`: one field replaced, the others kept. */
  function Set(f: Fields, which: Field, value: string): (g: Fields)
    ensures Get(g, which) == value
    ensures forall other :: other != which ==> Get(g, other) == Get(f, other)
  {
    match which
    case Username => f.(username := value)
    case Password => f.(password := value)
    case ConfirmPassword => f.(confirmPassword := value)
    case Name => f.(name := value)
    case Email => f.(email := value)
    case Major => f.(major := value)
    case Credits => f.(credits := value)
  }

  const RequiredMessage := "Please fill in all required fields (username, password, name, email)."
  const EmailDomainMessage := "Please use your NJIT email address (@njit.edu)."
  const MismatchMessage := "Passwords do not match."
  const TooShortMessage := "Password must be at least 8 characters."
  const NoUppercaseMessage := "Password should include at least one uppercase letter."
  const NoLowercaseMessage := "Password should include at least one lowercase letter."
  const NoDigitMessage := "Password should include at least one digit."
  const NoSpecialMessage := "Password should include at least one special character."
  const UnableMessage := "Unable to create account."
  const CrashMessage := "An error occurred while creating your account."

  const Domain := "@njit.edu"
  const SpecialCharacters := "!@#$%^&*(),.?\":{}|<>"

  /** One of username, password, email and name is empty. */
  predicate MissingRequired(f: Fields) {
    f.username == "" || f.password == "" || f.email == "" || f.name == ""
  }

  /** A character of the class `[^@\s]`. */
  predicate LocalChar(c: char) {
    c != '@' && !IsWhitespace(c)
  }

  predicate AllLocal(s: string) {
    forall i :: 0 <= i < |s| ==> LocalChar(s[i])
  }

  /** `/^[^@\s]+@njit\.edu$/.test(email)`. */
  predicate IsNjitEmail(email: string) {
    && |email| > |Domain|
    && email[|email| - |Domain|..] == Domain
    && AllLocal(email[..|email| - |Domain|])
  }

  /** An address is accepted exactly when it is a non-empty local part without `@` or white space, then `@njit.edu`. */
  lemma NjitEmailOf(local: string)
    ensures IsNjitEmail(local + Domain) <==> local != "" && AllLocal(local)
  {
    var e := local + Domain;
    assert e[|e| - |Domain|..] == Domain && e[..|e| - |Domain|] == local;
  }

  /** A plain NJIT address is accepted. */
  lemma NjitEmailAccepted()
    ensures IsNjitEmail("jd42@njit.edu")
  {
    NjitEmailOf("jd42");
    assert "jd42@njit.edu" == "jd42" + Domain;
  }

  /** The domain is matched case-sensitively and must end the address. */
  lemma NjitDomainExact()
    ensures !IsNjitEmail("jd42@NJIT.edu")
    ensures !IsNjitEmail("jd42@njit.edu.com")
  {
    var upper := "jd42@NJIT.edu";
    assert upper[|upper| - |Domain|..][1] != Domain[1];
    var longer := "jd42@njit.edu.com";
    assert longer[|longer| - |Domain|..][0] != Domain[0];
  }

  /** The local part may not be empty. */
  lemma NjitEmptyLocalPart()
    ensures !IsNjitEmail("@njit.edu")
  {
    NjitEmailOf("");
    assert "@njit.edu" == "" + Domain;
  }

  /** The local part may not hold white space. */
  lemma NjitSpaceInLocalPart()
    ensures !IsNjitEmail("j d@njit.edu")
  {
    NjitEmailOf("j d");
    assert "j d@njit.edu" == "j d" + Domain;
    assert !LocalChar("j d"[1]);
  }

  /** The local part may not hold a second `@`. */
  lemma NjitSecondAt()
    ensures !IsNjitEmail("a@b@njit.edu")
  {
    NjitEmailOf("a@b");
    assert "a@b@njit.edu" == "a@b" + Domain;
    assert !LocalChar("a@b"[1]);
  }

  predicate HasUppercase(s: string) {
    exists i :: 0 <= i < |s| && 'A' <= s[i] <= 'Z'
  }

  predicate HasLowercase(s: string) {
    exists i :: 0 <= i < |s| && 'a' <= s[i] <= 'z'
  }

  predicate HasDigit(s: string) {
    exists i :: 0 <= i < |s| && IsDigit(s[i])
  }

  predicate HasSpecial(s: string) {
    exists i :: 0 <= i < |s| && s[i] in SpecialCharacters
  }

  /** All five strength checks pass. */
  predicate StrongPassword(pwd: string) {
    |pwd| >= 8 && HasUppercase(pwd) && HasLowercase(pwd) && HasDigit(pwd) && HasSpecial(pwd)
  }

  /**
   * `validatePassword(pwd)`: "" when the password is strong, otherwise the
   * message of the first check that fails, in the order length, uppercase,
   * lowercase, digit, special character.
   */
  function PasswordProblem(pwd: string): (msg: string)
    ensures msg == "" <==> StrongPassword(pwd)
    ensures msg == TooShortMessage <==> |pwd| < 8
    ensures msg == NoUppercaseMessage <==> |pwd| >= 8 && !HasUppercase(pwd)
    ensures msg == NoLowercaseMessage <==> |pwd| >= 8 && HasUppercase(pwd) && !HasLowercase(pwd)
    ensures msg == NoDigitMessage <==>
      |pwd| >= 8 && HasUppercase(pwd) && HasLowercase(pwd) && !HasDigit(pwd)
    ensures msg == NoSpecialMessage <==>
      |pwd| >= 8 && HasUppercase(pwd) && HasLowercase(pwd) && HasDigit(pwd) && !HasSpecial(pwd)
  {
    if |pwd| < 8 then TooShortMessage
    else if !HasUppercase(pwd) then NoUppercaseMessage
    else if !HasLowercase(pwd) then NoLowercaseMessage
    else if !HasDigit(pwd) then NoDigitMessage
    else if !HasSpecial(pwd) then NoSpecialMessage
    else ""
  }

  /** "abc12345" is long enough but has no uppercase letter. */
  lemma WeakPasswordExample()
    ensures PasswordProblem("abc12345") == NoUppercaseMessage
  {
    var weak := "abc12345";
    forall i | 0 <= i < |weak| ensures !('A' <= weak[i] <= 'Z') {
    }
    assert |weak| == 8 && !HasUppercase(weak);
  }

  /** "Abc123!@" passes every check. */
  lemma StrongPasswordExample()
    ensures PasswordProblem("Abc123!@") == ""
  {
    var strong := "Abc123!@";
    assert 'A' <= strong[0] <= 'Z' && 'a' <= strong[1] <= 'z' && IsDigit(strong[3]);
    assert strong[6] == SpecialCharacters[0];
  }

  /** The test account's password passes every check. */
  lemma TestPasswordStrong()
    ensures PasswordProblem(TestAccount.password) == ""
  {
    var test := TestAccount.password;
    assert 'A' <= test[0] <= 'Z' && 'a' <= test[1] <= 'z' && IsDigit(test[4]);
    assert test[7] == SpecialCharacters[0];
  }

  /** Every check of `handleSubmit` passes, so the form calls `onLogin`. */
  predicate Acceptable(f: Fields) {
    && !MissingRequired(f)
    && IsNjitEmail(f.email)
    && f.password == f.confirmPassword
    && StrongPassword(f.password)
  }

  /** The payload as `handleSubmit` builds it. It has no email field. */
  function SignupPayloadAsWritten(f: Fields): Payload {
    Payload(
      Some(SignupRequest),
      if f.username != "" then f.username else f.email,
      None,
      f.password,
      f.name,
      f.major,
      Some(NumberOrZero(f.credits)))
  }

  /**
   * The payload with the validated email, which the controller's duplicate
   * check reads: the intended payload, against which the corrected lemmas
   * below are stated.
   */
  function SignupPayload(f: Fields): Payload {
    SignupPayloadAsWritten(f).(email := Some(f.email))
  }

  /**
   * As written, once one account has been created through the form, every
   * later signup through the form with a new username is refused as a
   * duplicate email: the first account was stored without an email, and the
   * later payload's missing email equals that missing email.
   */
  lemma AsWrittenSecondSignupRefused(users: map<string, Account>, order: seq<string>, f1: Fields, f2: Fields)
    requires StoreOk(users, order)
    requires Acceptable(f1) && Acceptable(f2)
    requires SignupRefusal(users, order, SignupPayloadAsWritten(f1)).None?
    requires f2.username != f1.username && f2.username !in users
    ensures var p1 := SignupPayloadAsWritten(f1);
      SignupRefusal(users[f1.username := NewAccount(p1)], order + [f1.username], SignupPayloadAsWritten(f2))
        == Some(EmailTakenMessage)
  {
    var p1 := SignupPayloadAsWritten(f1);
    SignupKeepsStoreOk(users, order, p1);
    var users' := users[f1.username := NewAccount(p1)];
    DuplicateEmailReported(users', order + [f1.username], SignupPayloadAsWritten(f2), f1.username);
  }

  /** With the email in the payload, a signup with a new username and a new email goes through. */
  lemma FreshSignupAccepted(users: map<string, Account>, order: seq<string>, f: Fields)
    requires StoreOk(users, order)
    requires Acceptable(f)
    requires f.username !in users
    requires forall k :: k in users ==> users[k].email != Some(f.email)
    ensures SignupRefusal(users, order, SignupPayload(f)) == None
  {
    SignupRefusedIff(users, order, SignupPayload(f));
  }

  /**
   * With the email in the payload, the scenario of `AsWrittenSecondSignupRefused`
   * goes through when the two emails differ; the store then holds both emails.
   */
  lemma CorrectedSecondSignupAccepted(users: map<string, Account>, order: seq<string>, f1: Fields, f2: Fields)
    requires StoreOk(users, order)
    requires Acceptable(f1) && Acceptable(f2)
    requires SignupRefusal(users, order, SignupPayload(f1)).None?
    requires f2.username != f1.username && f2.username !in users
    requires f2.email != f1.email && forall k :: k in users ==> users[k].email != Some(f2.email)
    ensures var p1 := SignupPayload(f1);
      SignupRefusal(users[f1.username := NewAccount(p1)], order + [f1.username], SignupPayload(f2)) == None
  {
    var p1 := SignupPayload(f1);
    SignupKeepsStoreOk(users, order, p1);
    FreshSignupAccepted(users[f1.username := NewAccount(p1)], order + [f1.username], f2);
  }

  /** The year the form estimates is the year the dashboard shows after the signup. */
  lemma EstimateIsDashboardYear(f: Fields)
    ensures WithYear(NewAccount(SignupPayloadAsWritten(f))).year == ComputeYear(NumberOrZero(f.credits))
  {
  }

  /** The state of the `Signup` component. */
  class SignupForm {
    var form: Fields
    var error: string

    constructor()
      ensures form == Blank && error == ""
    {
      form, error := Blank, "";
    }

    /** `handleChange`: one field takes the typed text and the error is cleared. */
    method HandleChange(which: Field, value: string)
      modifies this
      ensures form == Set(old(form), which, value) && error == ""
    {
      form := Set(form, which, value);
      error := "";
    }

    /** The Reset button. */
    method Reset()
      modifies this
      ensures form == Blank && error == ""
    {
      form, error := Blank, "";
    }

    /** The year shown under the credits input while typing. */
    function EstimatedYear(): Year
      reads this
    {
      ComputeYear(NumberOrZero(form.credits))
    }

    /**
     * `handleSubmit` up to the call of `onLogin`: the first failing check sets
     * its message; when all pass, the payload to send is returned.
     */
    method Submit() returns (payload: Option<Payload>)
      modifies this
      ensures form == old(form)
      ensures payload.Some? <==> Acceptable(form)
      ensures payload.Some? ==> payload.value == SignupPayloadAsWritten(form) && error == old(error)
      ensures MissingRequired(form) ==> error == RequiredMessage
      ensures !MissingRequired(form) && !IsNjitEmail(form.email) ==> error == EmailDomainMessage
      ensures !MissingRequired(form) && IsNjitEmail(form.email) && form.password != form.confirmPassword ==>
        error == MismatchMessage
      ensures !MissingRequired(form) && IsNjitEmail(form.email) && form.password == form.confirmPassword &&
              !StrongPassword(form.password) ==>
        error == PasswordProblem(form.password)
    {
      if form.username == "" || form.password == "" || form.email == "" || form.name == "" {
        error := RequiredMessage;
        return None;
      }
      if !IsNjitEmail(form.email) {
        error := EmailDomainMessage;
        return None;
      }
      if form.password != form.confirmPassword {
        error := MismatchMessage;
        return None;
      }
      var pwdErr := PasswordProblem(form.password);
      if pwdErr != "" {
        error := pwdErr;
        return None;
      }
      return Some(SignupPayloadAsWritten(form));
    }

    /**
     * The rest of `handleSubmit`: a refused signup shows its message (or a
     * fallback); a missing answer makes `res.success` throw, which the catch
     * turns into its own message.
     */
    method HandleResponse(res: Option<Response>)
      modifies this
      ensures form == old(form)
      ensures res.None? ==> error == CrashMessage
      ensures res.Some? && !res.value.success ==> error == MessageOr(res.value.message, UnableMessage)
      ensures res.Some? && res.value.success ==> error == old(error)
    {
      if res.None? {
        error := CrashMessage;
        return;
      }
      if !res.value.success {
        error := MessageOr(res.value.message, UnableMessage);
      }
    }
  }
}
