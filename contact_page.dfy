/**
 * The contact form's initial values and its four field validators. A
 * validator answers `None` for a value it accepts and its fixed message
 * otherwise.
 */
module ContactPage {
  import opened Wrappers
  import opened Text

  datatype ContactValues = ContactValues(name: string, email: string, subject: string, message: string)

  const InitialValues := ContactValues("", "", "", "")

  const NameMessage := "Name must have at least 2 letters"
  const EmailMessage := "Invalid email"
  const SubjectMessage := "Subject is required"
  const MessageMessage := "Message must be at least 10 characters long"

  /** The name needs two characters once trimmed: that is, two that are not whitespace. */
  function NameError(value: string): (e: Option<string>)
    ensures e.None? <==> CountNonSpace(value) >= 2
    ensures e.Some? ==> e.value == NameMessage
  {
    TrimmedLength(value);
    if |Trim(value)| < 2 then Some(NameMessage) else None
  }

  /**
   * `^\S+@\S+$`: no whitespace anywhere, and an `@` with at least one
   * character on each side.
   */
  function EmailError(value: string): (e: Option<string>)
    ensures e.None? <==>
      exists i :: 0 < i < |value| - 1 && value[i] == '@' && NoSpace(value[..i]) && NoSpace(value[i + 1..])
    ensures e.Some? ==> e.value == EmailMessage
  {
    EmailPatternMeaning(value);
    if MatchesEmailPattern(value) then None else Some(EmailMessage)
  }

  /** The subject needs one character that is not whitespace. */
  function SubjectError(value: string): (e: Option<string>)
    ensures e.None? <==> CountNonSpace(value) > 0
    ensures e.Some? ==> e.value == SubjectMessage
  {
    TrimmedLength(value);
    if |Trim(value)| == 0 then Some(SubjectMessage) else None
  }

  /**
   * The message needs ten characters once trimmed: from its first to its
   * last non-whitespace character it spans at least ten, whitespace inside
   * included; ten that are not whitespace always suffice.
   */
  function MessageError(value: string): (e: Option<string>)
    ensures e.None? <==> exists i, j :: (0 <= i && i + 10 <= j <= |value|
      && AllSpace(value[..i]) && AllSpace(value[j..]) && !IsSpace(value[i]) && !IsSpace(value[j - 1]))
    ensures CountNonSpace(value) >= 10 ==> e.None?
    ensures e.Some? ==> e.value == MessageMessage
  {
    TrimmedLength(value);
    TrimmedSpan(value);
    if |Trim(value)| < 10 then Some(MessageMessage) else None
  }

  /** The trimmed text is at least ten long exactly when such a span exists. */
  lemma TrimmedSpan(value: string)
    ensures |Trim(value)| >= 10 <==> exists i, j :: (0 <= i && i + 10 <= j <= |value|
      && AllSpace(value[..i]) && AllSpace(value[j..]) && !IsSpace(value[i]) && !IsSpace(value[j - 1]))
  {
    var r := Trim(value);
    if |r| >= 10 {
      var i, j :| 0 <= i <= j <= |value| && r == value[i..j] && AllSpace(value[..i]) && AllSpace(value[j..]);
      assert value[i] == r[0] && value[j - 1] == r[|r| - 1];
    }
    forall i, j | 0 <= i && i + 10 <= j <= |value| && AllSpace(value[..i]) && AllSpace(value[j..])
      && !IsSpace(value[i]) && !IsSpace(value[j - 1])
      ensures |r| >= 10
    {
      TrimBetween(value, i, j);
    }
  }

  /** The errors the form shows, field by field. */
  datatype ContactErrors = ContactErrors(name: Option<string>, email: Option<string>, subject: Option<string>, message: Option<string>)

  /**
   * All four validators at once: the form passes only when the name has two
   * non-whitespace characters, the subject one, the message ten once
   * trimmed, and the email an `@` between two whitespace-free runs.
   */
  function Validate(v: ContactValues): (r: ContactErrors)
    ensures r == ContactErrors(None, None, None, None) ==>
      && CountNonSpace(v.name) >= 2 && CountNonSpace(v.subject) > 0 && |Trim(v.message)| >= 10
      && '@' in v.email && NoSpace(v.email)
    ensures CountNonSpace(v.name) < 2 ==> r.name == Some(NameMessage)
    ensures CountNonSpace(v.subject) == 0 ==> r.subject == Some(SubjectMessage)
  {
    ContactErrors(NameError(v.name), EmailError(v.email), SubjectError(v.subject), MessageError(v.message))
  }

  /** The empty form fails all four checks, each with its own message. */
  lemma InitialValuesFail()
    ensures Validate(InitialValues) ==
      ContactErrors(Some(NameMessage), Some(EmailMessage), Some(SubjectMessage), Some(MessageMessage))
  {
  }
}
