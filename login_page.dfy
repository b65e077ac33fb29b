/**
 * The login form's initial values, its two validators, and the error it
 * shows when the login route turns the request down.
 */
module LoginPage {
  import opened Wrappers
  import opened Text
  import ContactPage

  datatype LoginValues = LoginValues(email: string, password: string)

  const InitialValues := LoginValues("", "")

  const PasswordMessage := "Password must have at least 6 characters"
  const FallbackMessage := "Login failed"

  /** The email rule and message are the contact form's: `^\S+@\S+$`. */
  function EmailError(value: string): (e: Option<string>)
    ensures e.None? <==>
      exists i :: 0 < i < |value| - 1 && value[i] == '@' && NoSpace(value[..i]) && NoSpace(value[i + 1..])
    ensures e.Some? ==> e.value == ContactPage.EmailMessage
  {
    ContactPage.EmailError(value)
  }

  /** At least six characters, counted without trimming. */
  function PasswordError(value: string): (e: Option<string>)
    ensures e.None? <==> |value| >= 6
    ensures e.Some? ==> e.value == PasswordMessage
  {
    if |value| < 6 then Some(PasswordMessage) else None
  }

  /** Nothing is trimmed: six spaces make an acceptable password. */
  lemma SixSpacesPass()
    ensures PasswordError("      ") == None
  {
  }

  /** The empty form fails both checks. */
  lemma InitialValuesFail()
    ensures EmailError(InitialValues.email) == Some(ContactPage.EmailMessage)
    ensures PasswordError(InitialValues.password) == Some(PasswordMessage)
  {
  }

  /** The error shown for a refused login: the server's message, or `Login failed` when it sent none. */
  function ShownError(message: Option<string>): (shown: string)
    ensures shown != ""
    ensures Truthy(message) ==> shown == message.value
    ensures !Truthy(message) ==> shown == FallbackMessage
  {
    if Truthy(message) then message.value else FallbackMessage
  }
}
