/** The field checks the dashboard's forms declare with zod: a string of a
    minimum or maximum length, one of a fixed list of strings, or an e-mail
    address. A field that was never filled in is `None`, which a string
    field rejects as "Required". */
module FormSchema {
  import opened Wrappers

  /** One validation issue, reported against the field at `path`. */
  datatype Issue =
    | Required(path: string)
    | TooSmall(path: string, minimum: nat, message: string)
    | TooBig(path: string, maximum: nat, message: string)
    | InvalidEnumValue(path: string, options: seq<string>)
    | InvalidString(path: string, message: string)

  /** `z.string().min(minimum, message)`. */
  function MinLength(path: string, value: Option<string>, minimum: nat, message: string): (r: seq<Issue>)
    ensures r == [] <==> value.Some? && |value.value| >= minimum
    ensures value.Some? && |value.value| < minimum ==> r == [TooSmall(path, minimum, message)]
    ensures value.None? ==> r == [Required(path)]
  {
    match value
    case None => [Required(path)]
    case Some(s) => if |s| < minimum then [TooSmall(path, minimum, message)] else []
  }

  /** `z.string().max(maximum, message)`. */
  function MaxLength(path: string, value: Option<string>, maximum: nat, message: string): (r: seq<Issue>)
    ensures r == [] <==> value.Some? && |value.value| <= maximum
    ensures value.Some? && |value.value| > maximum ==> r == [TooBig(path, maximum, message)]
    ensures value.None? ==> r == [Required(path)]
  {
    match value
    case None => [Required(path)]
    case Some(s) => if |s| > maximum then [TooBig(path, maximum, message)] else []
  }

  /** `z.enum(options)`. */
  function OneOf(path: string, value: Option<string>, options: seq<string>): (r: seq<Issue>)
    ensures r == [] <==> value.Some? && value.value in options
    ensures value.Some? && value.value !in options ==> r == [InvalidEnumValue(path, options)]
    ensures value.None? ==> r == [Required(path)]
  {
    match value
    case None => [Required(path)]
    case Some(s) => if s in options then [] else [InvalidEnumValue(path, options)]
  }

  /** `z.string().email(message)`, with the address check `isEmail` given. */
  function Email(path: string, value: Option<string>, isEmail: string -> bool, message: string): (r: seq<Issue>)
    ensures r == [] <==> value.Some? && isEmail(value.value)
    ensures value.Some? && !isEmail(value.value) ==> r == [InvalidString(path, message)]
    ensures value.None? ==> r == [Required(path)]
  {
    match value
    case None => [Required(path)]
    case Some(s) => if isEmail(s) then [] else [InvalidString(path, message)]
  }
}
