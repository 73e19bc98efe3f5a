/**
 * The registration form's rules: name, e-mail, password with a complexity
 * pattern, and a confirmation that must match. The match is an object-level
 * refinement whose issue is reported on `confirmPassword`; it is evaluated
 * even when field checks have failed, since zod's string checks do not abort
 * the parse.
 */
module RegisterSchema {
  import opened Text
  import opened ZodChecks
  import LoginSchema

  datatype RegisterForm = RegisterForm(name: string, email: string, password: string, confirmPassword: string)

  /** `/^[a-zA-Z\s]+$/`. */
  predicate NameChars(s: string) {
    |s| >= 1 && forall k :: 0 <= k < |s| ==> IsAsciiLetter(s[k]) || IsWhitespace(s[k])
  }

  /** The text before the first line terminator: what `.*` can cross. */
  function FirstLine(s: string): (t: string)
    ensures |t| <= |s| && t == s[..|t|]
    ensures forall k :: 0 <= k < |t| ==> !IsLineTerminator(t[k])
    ensures |t| < |s| ==> IsLineTerminator(s[|t|])
  {
    if s == [] || IsLineTerminator(s[0]) then [] else [s[0]] + FirstLine(s[1..])
  }

  /**
   * `/^(?=.*[a-z])(?=.*[A-Z])(?=.*\d)/`: a lower-case letter, an upper-case
   * letter and a digit, each before the first line terminator.
   */
  predicate Complex(s: string) {
    var t := FirstLine(s);
    (exists k :: 0 <= k < |t| && IsAsciiLower(t[k]))
    && (exists k :: 0 <= k < |t| && IsAsciiUpper(t[k]))
    && (exists k :: 0 <= k < |t| && IsDigit(t[k]))
  }

  function NameIssues(name: string): (issues: seq<Issue>)
    ensures forall i :: i in issues ==> i.path == "name"
  {
    Min(name, 1, "name", "register.errors.nameRequired")
    + Min(name, 2, "name", "register.errors.nameMinLength")
    + Max(name, 100, "name", "register.errors.nameMaxLength")
    + Check(NameChars(name), "name", "register.errors.nameInvalid")
  }

  function EmailIssues(email: string, isEmail: string -> bool): (issues: seq<Issue>)
    ensures forall i :: i in issues ==> i.path == "email"
  {
    Min(email, 1, "email", "register.errors.emailRequired")
    + Check(isEmail(email), "email", "register.errors.emailInvalid")
  }

  function PasswordIssues(password: string): (issues: seq<Issue>)
    ensures forall i :: i in issues ==> i.path == "password"
  {
    Min(password, 1, "password", "register.errors.passwordRequired")
    + Min(password, 6, "password", "register.errors.passwordMinLength")
    + Max(password, 100, "password", "register.errors.passwordMaxLength")
    + Check(Complex(password), "password", "register.errors.passwordComplexity")
  }

  const MismatchIssue: Issue := Issue("confirmPassword", "register.errors.passwordsDoNotMatch")

  /** `createRegisterSchema(...).safeParse(form)`: the field issues, then the refinement's. */
  function RegisterIssues(form: RegisterForm, isEmail: string -> bool): (issues: seq<Issue>)
    ensures form.password != form.confirmPassword <==> |issues| > 0 && issues[|issues| - 1] == MismatchIssue
  {
    var fields := NameIssues(form.name) + EmailIssues(form.email, isEmail) + PasswordIssues(form.password);
    var confirm := Min(form.confirmPassword, 1, "confirmPassword", "register.errors.confirmPasswordRequired");
    var matching := Check(form.password == form.confirmPassword, "confirmPassword", MismatchIssue.messageId);
    assert MismatchIssue !in fields + confirm;
    fields + confirm + matching
  }

  /** A valid name has 2 to 100 characters, all ASCII letters or whitespace. */
  lemma NameValidIff(name: string)
    ensures NameIssues(name) == [] <==>
      2 <= |name| <= 100 && forall k :: 0 <= k < |name| ==> IsAsciiLetter(name[k]) || IsWhitespace(name[k])
  {
  }

  /** A valid password has 6 to 100 characters and passes the complexity pattern. */
  lemma PasswordValidIff(password: string)
    ensures PasswordIssues(password) == [] <==> 6 <= |password| <= 100 && Complex(password)
  {
  }

  /** The whole form is accepted exactly when every field rule and the match hold. */
  lemma RegisterValidIff(form: RegisterForm, isEmail: string -> bool)
    ensures RegisterIssues(form, isEmail) == [] <==>
      NameIssues(form.name) == [] && form.email != "" && isEmail(form.email)
      && PasswordIssues(form.password) == [] && form.confirmPassword == form.password
  {
  }

  /** Every password accepted at registration is accepted at login. */
  lemma RegisterPasswordPassesLogin(password: string)
    requires PasswordIssues(password) == []
    ensures LoginSchema.PasswordIssues(password) == []
  {
  }

  /** A complex password has a lower-case letter, an upper-case letter and a digit. */
  lemma ComplexHasClasses(s: string)
    requires Complex(s)
    ensures exists k :: 0 <= k < |s| && IsAsciiLower(s[k])
    ensures exists k :: 0 <= k < |s| && IsAsciiUpper(s[k])
    ensures exists k :: 0 <= k < |s| && IsDigit(s[k])
  {
    var t := FirstLine(s);
    var a :| 0 <= a < |t| && IsAsciiLower(t[a]);
    var b :| 0 <= b < |t| && IsAsciiUpper(t[b]);
    var c :| 0 <= c < |t| && IsDigit(t[c]);
    assert s[a] == t[a] && s[b] == t[b] && s[c] == t[c];
  }

  /** `.` does not cross a line break: "\nAb1cdef" has all three classes yet fails the pattern. */
  lemma LineBreakHidesClasses()
    ensures !Complex("\nAb1cdef")
  {
    assert FirstLine("\nAb1cdef") == [];
  }
}
