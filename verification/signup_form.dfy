/**
 * The sign-up form (`src/features/authentication/SignupForm.jsx`): the field
 * rules react-hook-form checks and the user record `onSubmit` sends.
 */
module SignupForm {
  import opened Wrappers
  import Text
  import CreateGuestForm

  /** A character `\s` matches: JavaScript's white space and line terminators. */
  predicate IsSpace(c: char) {
    c == ' ' || c == '\t' || c == '\n' || c == '\r' || c == '\U{B}' || c == '\U{C}' ||
    c == '\U{A0}' || c == '\U{1680}' || ('\U{2000}' <= c <= '\U{200A}') || c == '\U{2028}' ||
    c == '\U{2029}' || c == '\U{202F}' || c == '\U{205F}' || c == '\U{3000}' || c == '\U{FEFF}'
  }

  predicate NoSpace(s: string) { forall i :: 0 <= i < |s| ==> !IsSpace(s[i]) }

  /**
   * `/\S+@\S+\.\S+/.test(s)`, which is not anchored: somewhere in `s` a
   * non-space character, '@' at `at`, at least one non-space character, '.'
   * at `dot`, and a non-space character.
   */
  predicate ContainsEmailShape(s: string) {
    exists at, dot | 0 <= at < |s| && 0 <= dot < |s| :: ShapeAt(s, at, dot)
  }

  predicate ShapeAt(s: string, at: int, dot: int) {
    0 < at && at + 1 < dot && dot + 1 < |s| && s[at] == '@' && s[dot] == '.' &&
    !IsSpace(s[at - 1]) && NoSpace(s[at + 1..dot]) && !IsSpace(s[dot + 1])
  }

  /** The characters the guest form allows in an address are none of them space. */
  lemma LocalCharIsNotSpace(c: char)
    requires CreateGuestForm.IsLocalChar(c)
    ensures !IsSpace(c)
  {
  }

  lemma DomainIsNotSpace(d: string)
    requires CreateGuestForm.AllDomain(d)
    ensures NoSpace(d)
  {
    forall i | 0 <= i < |d| ensures !IsSpace(d[i]) {
      LocalCharIsNotSpace(d[i]);
    }
  }

  /** Every address the guest form accepts is accepted here too. */
  lemma GuestEmailPassesSignup(s: string)
    requires CreateGuestForm.MatchesEmailPattern(s)
    ensures ContainsEmailShape(s)
  {
    var at, dot :| 0 <= at < |s| && 0 <= dot < |s| && CreateGuestForm.EmailSplit(s, at, dot);
    var local, domain, top := s[..at], s[at + 1..dot], s[dot + 1..];
    assert local[at - 1] == s[at - 1] && top[0] == s[dot + 1];
    LocalCharIsNotSpace(local[at - 1]);
    LocalCharIsNotSpace(top[0]);
    DomainIsNotSpace(domain);
    assert ShapeAt(s, at, dot);
  }

  /** No '@', no match. */
  lemma WithoutAtSignNoMatch(s: string)
    requires '@' !in s
    ensures !ContainsEmailShape(s)
  {
  }

  datatype SignupValues = SignupValues(fullName: string, email: string, password: string, passwordConfirm: string)

  datatype Field = FullName | Email | Password | PasswordConfirm

  const MinPasswordLength := 8

  function FullNameRule(v: SignupValues): (err: Option<string>)
    ensures err.Some? <==> v.fullName == ""
  {
    if v.fullName == "" then Some("This field is required") else None
  }

  function EmailRule(v: SignupValues): (err: Option<string>)
    ensures err.None? <==> ContainsEmailShape(v.email)
  {
    if v.email == "" then Some("This field is required")
    else if !ContainsEmailShape(v.email) then Some("Please enter a valid email address")
    else None
  }

  function PasswordRule(v: SignupValues): (err: Option<string>)
    ensures err.None? <==> |v.password| >= MinPasswordLength
  {
    if v.password == "" then Some("This field is required")
    else if |v.password| < MinPasswordLength then Some("Password needs a minimum of 8 characters")
    else None
  }

  function PasswordConfirmRule(v: SignupValues): (err: Option<string>)
    ensures err.None? <==> v.passwordConfirm != "" && v.passwordConfirm == v.password
  {
    if v.passwordConfirm == "" then Some("This field is required")
    else if v.passwordConfirm != v.password then Some("Passwords need to match")
    else None
  }

  function Rule(v: SignupValues, f: Field): Option<string> {
    match f
    case FullName => FullNameRule(v)
    case Email => EmailRule(v)
    case Password => PasswordRule(v)
    case PasswordConfirm => PasswordConfirmRule(v)
  }

  function Errors(v: SignupValues): (errors: map<Field, string>)
    ensures forall f :: f in errors <==> Rule(v, f).Some?
    ensures forall f :: f in errors ==> errors[f] == Rule(v, f).value
  {
    map f | f in {FullName, Email, Password, PasswordConfirm} && Rule(v, f).Some? :: Rule(v, f).value
  }

  /** What `signup` receives: the name, the email and the password, and not the confirmation. */
  datatype NewUser = NewUser(fullName: string, email: string, password: string)

  /** Submitting the form: the errors when a rule is broken, otherwise the new user. */
  function Submit(v: SignupValues): (r: Result<NewUser, map<Field, string>>)
    ensures r.Failure? <==> exists f :: Rule(v, f).Some?
    ensures r.Failure? ==> r.error == Errors(v)
    ensures r.Success? ==> r.value == NewUser(v.fullName, v.email, v.password)
  {
    if exists f :: Rule(v, f).Some? then Failure(Errors(v))
    else Success(NewUser(v.fullName, v.email, v.password))
  }

  /** A user is signed up only with a name, a plausible email, and a confirmed password of at least 8 characters. */
  lemma {:induction false} AdmittedUser(v: SignupValues)
    requires Submit(v).Success?
    ensures var u := Submit(v).value;
      u.fullName != "" && ContainsEmailShape(u.email) && |u.password| >= 8 && v.passwordConfirm == u.password
  {
    assert Rule(v, FullName).None? && Rule(v, Email).None?;
    assert Rule(v, Password).None? && Rule(v, PasswordConfirm).None?;
  }
}
