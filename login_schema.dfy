/**
 * The login form's rules: a required, well-formed e-mail and a password of
 * at least six characters. zod's `.email()` format check is the parameter
 * `isEmail`.
 */
module LoginSchema {
  import opened ZodChecks
  import AppConstants

  datatype LoginForm = LoginForm(email: string, password: string)

  const LoginPasswordMin: nat := 6

  /** The issues of the `email` field. */
  function EmailIssues(email: string, isEmail: string -> bool): seq<Issue> {
    Min(email, 1, "email", "login.errors.emailRequired")
    + Check(isEmail(email), "email", "login.errors.emailInvalid")
  }

  /** The issues of the `password` field. */
  function PasswordIssues(password: string): seq<Issue> {
    Min(password, 1, "password", "login.errors.passwordRequired")
    + Min(password, LoginPasswordMin, "password", "login.errors.passwordMinLength")
  }

  /** `createLoginSchema(...).safeParse(form)`: every issue, field by field. */
  function LoginIssues(form: LoginForm, isEmail: string -> bool): (issues: seq<Issue>)
    ensures forall k :: 0 <= k < |issues| ==> issues[k].path in {"email", "password"}
  {
    EmailIssues(form.email, isEmail) + PasswordIssues(form.password)
  }

  /** The form is accepted exactly when the e-mail is non-empty and well-formed and the password has 6 or more characters. */
  lemma LoginValidIff(form: LoginForm, isEmail: string -> bool)
    ensures LoginIssues(form, isEmail) == [] <==>
      form.email != "" && isEmail(form.email) && |form.password| >= 6
  {
  }

  /** No upper bound and no complexity rule: any password of 6 or more characters passes. */
  lemma AnyLongPasswordPasses(password: string)
    requires |password| >= 6
    ensures PasswordIssues(password) == []
  {
  }

  /** An empty e-mail gets both the "required" and the "invalid" issue when the format check rejects it. */
  lemma EmptyEmailTwoIssues(isEmail: string -> bool)
    requires !isEmail("")
    ensures EmailIssues("", isEmail) ==
      [Issue("email", "login.errors.emailRequired"), Issue("email", "login.errors.emailInvalid")]
  {
  }

  /** The login minimum is `Validations.PasswordLength`. */
  lemma MinimumIsPasswordLength()
    ensures LoginPasswordMin == AppConstants.PasswordLength
  {
  }
}
