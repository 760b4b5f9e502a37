/** The profile page's form: its schema and its default values. */
module ProfileForm {
  import opened Wrappers
  import opened FormSchema

  /** The form's fields; `None` is a field never filled in. */
  datatype ProfileFormValues = ProfileFormValues(
    name: Option<string>, email: Option<string>, bio: Option<string>,
    company: Option<string>, role: Option<string>)

  const NameMessage: string := "Name must be at least 2 characters"
  const EmailMessage: string := "Invalid email address"
  const BioMessage: string := "Bio must not exceed 160 characters"

  const DefaultValues: ProfileFormValues := ProfileFormValues(
    Some("John Doe"), Some("john@example.com"), Some("AI enthusiast and computer vision specialist"),
    Some("Vision Studio"), Some("Senior Developer"))

  /** `profileFormSchema`: the issues of each field, in the schema's field
      order. `company` and `role` are optional strings, so nothing about them
      is ever an issue. */
  function ProfileIssues(values: ProfileFormValues, isEmail: string -> bool): (r: seq<Issue>)
    ensures |r| <= 3
    ensures forall k :: 0 <= k < |r| ==> r[k].path in {"name", "email", "bio"}
    ensures forall k, m :: 0 <= k < m < |r| ==> r[k].path != r[m].path
  {
    MinLength("name", values.name, 2, NameMessage)
    + Email("email", values.email, isEmail, EmailMessage)
    + MaxLength("bio", values.bio, 160, BioMessage)
  }

  /** The schema accepts exactly a name of at least 2 characters, a valid
      e-mail address and a bio of at most 160 characters. */
  lemma AcceptsIff(values: ProfileFormValues, isEmail: string -> bool)
    ensures ProfileIssues(values, isEmail) == [] <==>
      && values.name.Some? && |values.name.value| >= 2
      && values.email.Some? && isEmail(values.email.value)
      && values.bio.Some? && |values.bio.value| <= 160
  {
  }

  /** A name shorter than 2 characters is reported with its message. */
  lemma ShortNameRejected(values: ProfileFormValues, isEmail: string -> bool)
    requires values.name.Some? && |values.name.value| < 2
    ensures TooSmall("name", 2, NameMessage) in ProfileIssues(values, isEmail)
  {
  }

  /** An address failing the e-mail check is reported with its message. */
  lemma InvalidEmailRejected(values: ProfileFormValues, isEmail: string -> bool)
    requires values.email.Some? && !isEmail(values.email.value)
    ensures InvalidString("email", EmailMessage) in ProfileIssues(values, isEmail)
  {
    assert ProfileIssues(values, isEmail)[|MinLength("name", values.name, 2, NameMessage)|]
      == InvalidString("email", EmailMessage);
  }

  /** A bio is accepted up to 160 characters, the empty one included, and
      rejected beyond. */
  lemma BioLimit(values: ProfileFormValues, isEmail: string -> bool)
    requires values.bio.Some?
    ensures var issues := ProfileIssues(values, isEmail);
      && (|values.bio.value| <= 160 ==> forall i :: 0 <= i < |issues| ==> issues[i].path != "bio")
      && (|values.bio.value| > 160 ==> TooBig("bio", 160, BioMessage) in issues)
  {
  }

  /** `company` and `role` never affect the outcome, whether absent or any
      string. */
  lemma OptionalFieldsIgnored(values: ProfileFormValues, company: Option<string>, role: Option<string>, isEmail: string -> bool)
    ensures ProfileIssues(values.(company := company, role := role), isEmail) == ProfileIssues(values, isEmail)
  {
  }

  /** The default name and bio meet their length limits, so the defaults are
      accepted whenever the default address passes the e-mail check. */
  lemma DefaultsAccepted(isEmail: string -> bool)
    requires isEmail(DefaultValues.email.value)
    ensures |DefaultValues.name.value| >= 2 && |DefaultValues.bio.value| <= 160
    ensures ProfileIssues(DefaultValues, isEmail) == []
  {
    AcceptsIff(DefaultValues, isEmail);
  }
}
