/**
 * The .NET exceptions the backend raises and catches, with the `Message`
 * text each one reports.
 */
module DotNet {
  import opened Common

  datatype Exception =
    | ArgumentNullException(nullParam: string)
    | ArgumentException(text: string, paramName: Option<string>)
    | InvalidOperationException(text: string)
    | ApplicationException(text: string, inner: Exception)
    | JsonException(text: string)
    | GoogleApiException(text: string)
    | OtherException(text: string)

  /** `catch (ArgumentException)` also catches its subclass `ArgumentNullException`. */
  predicate IsArgumentException(e: Exception) {
    e.ArgumentException? || e.ArgumentNullException?
  }

  /** The " (Parameter 'name')" suffix argument exceptions add to their message. */
  function ParameterSuffix(paramName: Option<string>): (s: string)
    ensures paramName.None? || paramName.value == "" ==> s == ""
  {
    match paramName
    case Some(p) => if p != "" then " (Parameter '" + p + "')" else ""
    case None => ""
  }

  /** `ex.Message`. */
  function Message(e: Exception): (m: string)
    ensures e.ArgumentException? ==> |e.text| <= |m| && m[..|e.text|] == e.text
    ensures e.ArgumentException? && e.paramName.None? ==> m == e.text
  {
    match e
    case ArgumentNullException(p) => "Value cannot be null." + ParameterSuffix(Some(p))
    case ArgumentException(text, p) => text + ParameterSuffix(p)
    case InvalidOperationException(text) => text
    case ApplicationException(text, _) => text
    case JsonException(text) => text
    case GoogleApiException(text) => text
    case OtherException(text) => text
  }

  /** `string.IsNullOrEmpty`. */
  predicate IsNullOrEmpty(s: Option<string>) {
    s.None? || s.value == ""
  }
}
