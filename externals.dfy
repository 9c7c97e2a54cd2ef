/**
 * What the site builder takes from libraries it calls and from the network:
 * ISO date parsing and formatting, URL path helpers, and the outcome of a
 * download. Each is a parameter of the model.
 */
module Externals {

  /** A parsed ISO timestamp: its position on the time line and its calendar year. */
  datatype Instant = Instant(stamp: int, year: int)

  /** How fetching one file ended. */
  datatype Fetch =
    | AlreadyPresent   // the local copy exists, nothing is fetched
    | Downloaded       // the fetch succeeded
    | HttpFailure      // the server refused; the failure is only logged
    | InvalidUrl       // the URL cannot be fetched at all (a `ValueError`)

  datatype Env = Env(
    /** `isoparse(s).strftime("%d %b, %Y")` */
    formatDate: string -> string,
    /** `isoparse(s)` */
    parseInstant: string -> Instant,
    /** The last path segment of a URL with its query and fragment removed. */
    baseName: string -> string,
    /** `urllib.parse.unquote` */
    unquote: string -> string,
    /** The download outcome for a file URL. */
    fetch: string -> Fetch)
}
