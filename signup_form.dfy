/** The signup form: on submit all three checks run, each adding its field to
    the error record, and `onSignup` fires only when the record is empty. */
module SignupForm {
  import opened Basics
  import opened FormErrors

  const MismatchMessage := "Passwords do not match"

  /** What `validatePassword` answers: whether the password is acceptable and
      the messages explaining why not. */
  datatype PasswordCheck = PasswordCheck(isValid: bool, errors: seq<string>)

  /** The `onSignup(email, password)` call. */
  datatype Signup = Signup(email: string, password: string)

  /** The value stored for a rejected password: the first reported message, or
      `undefined` when the validator reported none. */
  function FirstError(check: PasswordCheck): (entry: Entry)
    ensures entry.Message? <==> |check.errors| > 0
    ensures entry.Message? ==> entry.text == check.errors[0]
  {
    if |check.errors| > 0 then Message(check.errors[0]) else Undefined
  }

  class Form {
    var email: string
    var password: string
    var confirmPassword: string
    var errors: Errors

    constructor ()
      ensures email == "" && password == "" && confirmPassword == "" && errors == map[]
    {
      email, password, confirmPassword, errors := "", "", "", map[];
    }

    method SetFields(email: string, password: string, confirmPassword: string)
      modifies this`email, this`password, this`confirmPassword
      ensures this.email == email && this.password == password
      ensures this.confirmPassword == confirmPassword
    {
      this.email, this.password, this.confirmPassword := email, password, confirmPassword;
    }

    /** `handleSubmit`, with `validateEmail` and `validatePassword` as
        parameters. Each of the three fields is in error exactly when its own
        check fails, independently of the others; `onSignup` is called exactly
        when none is. A failed password check blocks the signup even if the
        validator gave no message. */
    method HandleSubmit(validateEmail: string -> bool, validatePassword: string -> PasswordCheck)
      returns (signup: Option<Signup>)
      modifies this`errors
      ensures errors.Keys <= {Email, Password, ConfirmPassword}
      ensures Email in errors <==> !validateEmail(email)
      ensures Email in errors ==> errors[Email] == Message(InvalidEmailMessage)
      ensures Password in errors <==> !validatePassword(password).isValid
      ensures Password in errors ==> errors[Password] == FirstError(validatePassword(password))
      ensures ConfirmPassword in errors <==> password != confirmPassword
      ensures ConfirmPassword in errors ==> errors[ConfirmPassword] == Message(MismatchMessage)
      ensures signup.Some? <==> errors == map[]
      ensures signup.Some? ==> signup.value == Signup(email, password)
    {
      var newErrors: Errors := map[];
      if !validateEmail(email) {
        newErrors := newErrors[Email := Message(InvalidEmailMessage)];
      }
      var passwordValidation := validatePassword(password);
      if !passwordValidation.isValid {
        newErrors := newErrors[Password := FirstError(passwordValidation)];
      }
      if password != confirmPassword {
        newErrors := newErrors[ConfirmPassword := Message(MismatchMessage)];
      }
      if |newErrors| > 0 {
        errors := newErrors;
        return None;
      }
      errors := map[];
      signup := Some(Signup(email, password));
    }
  }
}
