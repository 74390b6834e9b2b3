/** The login form: on submit it builds an error record field by field and
    either shows it or, when it is empty, clears the errors and logs in. */
module LoginForm {
  import opened Basics
  import opened Text
  import opened FormErrors

  const ShortPasswordMessage := "Password must be at least 6 characters"

  /** The `onLogin(email, password)` call. */
  datatype Credentials = Credentials(email: string, password: string)

  class Form {
    var email: string
    var password: string
    var errors: Errors

    constructor ()
      ensures email == "" && password == "" && errors == map[]
    {
      email, password, errors := "", "", map[];
    }

    method SetEmail(text: string)
      modifies this`email
      ensures email == text
    {
      email := text;
    }

    method SetPassword(text: string)
      modifies this`password
      ensures password == text
    {
      password := text;
    }

    /** `handleSubmit`, with `validateEmail` as a parameter. An email error is
        recorded exactly when the email is invalid, a password error exactly
        when the password is shorter than 6 UTF-16 code units; `onLogin` is
        called exactly when neither is, with the fields unchanged. On failure
        the errors hold exactly the failed fields; on success they are cleared. */
    method HandleSubmit(validateEmail: string -> bool) returns (login: Option<Credentials>)
      modifies this`errors
      ensures errors.Keys <= {Email, Password}
      ensures Email in errors <==> !validateEmail(email)
      ensures Email in errors ==> errors[Email] == Message(InvalidEmailMessage)
      ensures Password in errors <==> Utf16Length(password) < 6
      ensures Password in errors ==> errors[Password] == Message(ShortPasswordMessage)
      ensures login.Some? <==> errors == map[]
      ensures login.Some? ==> login.value == Credentials(email, password)
    {
      var newErrors: Errors := map[];
      if !validateEmail(email) {
        newErrors := newErrors[Email := Message(InvalidEmailMessage)];
      }
      if Utf16Length(password) < 6 {
        newErrors := newErrors[Password := Message(ShortPasswordMessage)];
      }
      if |newErrors| > 0 {
        errors := newErrors;
        return None;
      }
      errors := map[];
      login := Some(Credentials(email, password));
    }
  }
}
