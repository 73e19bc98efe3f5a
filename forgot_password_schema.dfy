/** The forgot-password form: one field, a required and well-formed e-mail. */
module ForgotPasswordSchema {
  import opened ZodChecks
  import LoginSchema

  datatype ForgotPasswordForm = ForgotPasswordForm(email: string)

  /** `createForgotPasswordSchema(...).safeParse(form)`. */
  function ForgotPasswordIssues(form: ForgotPasswordForm, isEmail: string -> bool): (issues: seq<Issue>)
    ensures forall k :: 0 <= k < |issues| ==> issues[k].path == "email"
  {
    Min(form.email, 1, "email", "forgotPassword.errors.emailRequired")
    + Check(isEmail(form.email), "email", "forgotPassword.errors.emailInvalid")
  }

  /**
   * The form accepts exactly the e-mails the login form's e-mail rule
   * accepts, and reports the same number of issues on the same path.
   */
  lemma SameEmailsAsLogin(email: string, isEmail: string -> bool)
    ensures ForgotPasswordIssues(ForgotPasswordForm(email), isEmail) == [] <==> LoginSchema.EmailIssues(email, isEmail) == []
    ensures |ForgotPasswordIssues(ForgotPasswordForm(email), isEmail)| == |LoginSchema.EmailIssues(email, isEmail)|
  {
  }
}
