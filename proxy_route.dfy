/**
 * What both Express proxies decide about a `/proxy` request before anything is
 * fetched, and the host both refuse.
 */
module ProxyRoute {
  import opened Wrappers

  /** The one host the proxies refuse, wherever it occurs in the target. */
  const BlockedHost := "chromebook.ccpsnet.net"

  datatype Outcome =
    | BadRequest(message: string)   // 400
    | Forbidden(message: string)    // 403
    | Redirect(location: string)    // 302 to another proxy address
    | Fetch(target: string)         // go on to fetch the target

  /** A query parameter as JavaScript's `!` sees it: missing and empty are both falsy. */
  predicate Truthy(param: Option<string>) {
    param.Some? && param.value != ""
  }
}
