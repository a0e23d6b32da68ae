/**
 The same registration body put to both API versions. The rule sets look
 alike but the two validators differ in the order their messages are kept
 and in when the confirmation is compared.
 */
module AuthContrast {
  import opened Base
  import opened Oracles
  import opened Records
  import opened Validation
  import AuthV1Middleware
  import AuthV2Middleware

  /** A missing e-mail: v2 keeps the first message ("enter your email"), v1 the last ("enter a valid email"). */
  lemma MissingEmailMessagesDiffer(env: Env, d: Directory, b: RegistrationBody)
    requires RejectsEmptyEmail(env)
    requires !b.email.Truthy()
    ensures AuthV2Middleware.ValidateRegistrationInput(env, d, b).Reject?
    ensures "email" in AuthV2Middleware.ValidateRegistrationInput(env, d, b).errors
    ensures AuthV2Middleware.ValidateRegistrationInput(env, d, b).errors["email"] == MsgEmail
    ensures AuthV1Middleware.ValidateRegistration(env, d, b).Reject?
    ensures "email" in AuthV1Middleware.ValidateRegistration(env, d, b).errors
    ensures AuthV1Middleware.ValidateRegistration(env, d, b).errors["email"] == MsgValidEmail
  {
    AuthV2Middleware.MissingEmailReportsEnterEmail(env, d, b);
    AuthV1Middleware.V1MissingEmailReportsInvalid(env, d, b);
  }

  /** A short password with a different confirmation: only v1 reports the mismatch. */
  lemma ShortPasswordMismatchOnlyInV1(env: Env, d: Directory, b: RegistrationBody)
    requires b.password.Truthy() && Utf16Length(b.password.s) < MinPasswordLength
    requires b.confirmPassword.Truthy() && b.confirmPassword != b.password
    ensures "confirm_password" !in AuthV2Middleware.ValidateRegistrationInput(env, d, b).errors
    ensures AuthV1Middleware.ValidateRegistration(env, d, b).Reject?
    ensures "confirm_password" in AuthV1Middleware.ValidateRegistration(env, d, b).errors
    ensures AuthV1Middleware.ValidateRegistration(env, d, b).errors["confirm_password"] == MsgMismatch
  {
    AuthV2Middleware.ShortPasswordOnlyLengthError(env, d, b);
    AuthV1Middleware.V1MismatchReportedIffDifferent(env, d, b);
  }
}
