/**
 * User-visible strings of the viewer: `window.discogsBlocksL10n?.<key> || '<English default>'`.
 * The optional global object is a map from key names to display strings.
 */
module Messages {

  datatype MessageKey =
    | NoUsername | LoadingCollection | UserNotFound | AuthFailed | RateLimitExceeded
    | FetchFailed | ErrorLoading | InvalidResponse | Previous | Next | PageInfo

  function KeyName(k: MessageKey): string {
    match k
    case NoUsername => "noUsername"
    case LoadingCollection => "loadingCollection"
    case UserNotFound => "userNotFound"
    case AuthFailed => "authFailed"
    case RateLimitExceeded => "rateLimitExceeded"
    case FetchFailed => "fetchFailed"
    case ErrorLoading => "errorLoading"
    case InvalidResponse => "invalidResponse"
    case Previous => "previous"
    case Next => "next"
    case PageInfo => "pageInfo"
  }

  /** The built-in English texts (src/view.js:32, 40, 65-78, 89, 194-196). */
  function DefaultText(k: MessageKey): string {
    match k
    case NoUsername => "No username provided"
    case LoadingCollection => "Loading collection..."
    case UserNotFound => "User not found. Please check the username."
    case AuthFailed => "Authentication failed. Please check your API key."
    case RateLimitExceeded => "Rate limit exceeded. Please try again later or add an API key."
    case FetchFailed => "Failed to fetch collection:"
    case ErrorLoading => "Error loading collection:"
    case InvalidResponse => "Invalid response from Discogs API"
    case Previous => "Previous"
    case Next => "Next"
    case PageInfo => "Page %1$s of %2$s"
  }

  /** A localized text when one is supplied and non-empty, the English default otherwise. */
  function Message(l10n: map<string, string>, k: MessageKey): (text: string)
    ensures text != ""
    ensures KeyName(k) in l10n && l10n[KeyName(k)] != "" ==> text == l10n[KeyName(k)]
    ensures !(KeyName(k) in l10n && l10n[KeyName(k)] != "") ==> text == DefaultText(k)
  {
    var key := KeyName(k);
    if key in l10n && l10n[key] != "" then l10n[key] else DefaultText(k)
  }
}
