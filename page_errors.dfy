/**
 * The error text both submission pages show when a request fails:
 * `err.response?.data?.detail || err.message || <default>`, where an absent
 * value and the empty string both fall through.
 */
module PageErrors {
  import opened Wrappers

  predicate Truthy(s: Option<string>) {
    s.Some? && s.value != ""
  }

  function ErrorText(detail: Option<string>, message: Option<string>, fallback: string): (r: string)
    ensures r == fallback || (r != "" && (Some(r) == detail || Some(r) == message))
    ensures fallback != "" ==> r != ""
  {
    if Truthy(detail) then detail.value else if Truthy(message) then message.value else fallback
  }

  /** The server's detail wins, then the error's own message, then the page's default; the text is never empty. */
  lemma ErrorTextPreference(detail: Option<string>, message: Option<string>, fallback: string)
    ensures Truthy(detail) ==> ErrorText(detail, message, fallback) == detail.value
    ensures !Truthy(detail) && Truthy(message) ==> ErrorText(detail, message, fallback) == message.value
    ensures !Truthy(detail) && !Truthy(message) ==> ErrorText(detail, message, fallback) == fallback
    ensures fallback != "" ==> ErrorText(detail, message, fallback) != ""
  {
  }
}
