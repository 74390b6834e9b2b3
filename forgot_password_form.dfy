/** The forgot-password form: one email field and one error message. */
module ForgotPasswordForm {
  import opened Basics
  import opened FormErrors

  class Form {
    var email: string
    var error: string

    constructor ()
      ensures email == "" && error == ""
    {
      email, error := "", "";
    }

    method SetEmail(text: string)
      modifies this`email
      ensures email == text
    {
      email := text;
    }

    /** `handleSubmit`, with `validateEmail` as a parameter: an invalid email
        sets the error and sends nothing; a valid one clears the error and calls
        `onSubmit` once with the email exactly as typed (not trimmed). */
    method HandleSubmit(validateEmail: string -> bool) returns (submitted: Option<string>)
      modifies this`error
      ensures error != "" <==> !validateEmail(email)
      ensures !validateEmail(email) ==> error == InvalidEmailMessage && submitted.None?
      ensures validateEmail(email) ==> error == "" && submitted == Some(email)
    {
      if !validateEmail(email) {
        error := InvalidEmailMessage;
        return None;
      }
      error := "";
      submitted := Some(email);
    }
  }
}
