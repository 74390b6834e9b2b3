/** The per-field error record the authentication forms build on submit. It is
    a JavaScript object: a field is in error when its key is present, whatever
    its value, and a value may be `undefined`. */
module FormErrors {

  datatype Field = Email | Password | ConfirmPassword

  /** The value stored under a key: a message, or `undefined`. */
  datatype Entry = Message(text: string) | Undefined

  /** The record: present keys and their values. `Object.keys(errors).length`
      is the number of keys. */
  type Errors = map<Field, Entry>

  const InvalidEmailMessage := "Please enter a valid email address"
}
