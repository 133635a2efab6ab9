/**
 * The script `inject.js` puts into proxied pages: a URL mapping to the proxy
 * route, and wrappers around `window.fetch` and `XMLHttpRequest.prototype.open`
 * that send every string URL through the proxy, resolved against the target
 * the current page was fetched from.
 */
module Inject {
  import opened Wrappers
  import opened Text
  import opened UriComponent
  import opened WebUrl
  import opened ProxyRoute

  /**
   * `rewriteUrl(url)` on a page whose `location.origin` is `origin`: empty
   * text and references already on the proxy stay as they are, references
   * starting with `http` are wrapped into the proxy address, and relative
   * references are left to the browser.
   */
  function RewriteUrl(url: string, origin: string): (r: string)
    ensures r == url || r == ProxyAddress(url)
    ensures r == ProxyAddress(url) && r != url <==>
      url != "" && !StartsWith(url, origin + "/proxy") && StartsWith(url, "http")
  {
    if url == "" then url
    else if StartsWith(url, origin + "/proxy") then url
    else if StartsWith(url, "http") then
      assert ProxyAddress(url)[0] == '/' && url[0] == 'h';
      ProxyAddress(url)
    else url
  }

  /** A proxy address never starts with `http`. */
  lemma ProxyAddressIsRelative(target: string)
    ensures !StartsWith(ProxyAddress(target), "http")
  {
    assert ProxyAddress(target)[0] == '/';
  }

  /** Mapping a mapped reference again changes nothing. */
  lemma RewriteUrlIdempotent(url: string, origin: string)
    ensures RewriteUrl(RewriteUrl(url, origin), origin) == RewriteUrl(url, origin)
  {
    var r := RewriteUrl(url, origin);
    if r != url {
      ProxyAddressIsRelative(url);
    }
  }

  /** A reference the mapping changed leads to the proxy route, and its `url` parameter is the original reference. */
  lemma RewriteUrlReadsBack(url: string, origin: string)
    requires RewriteUrl(url, origin) != url
    ensures PathOf(RewriteUrl(url, origin)) == "/proxy"
    ensures SearchParamGet(SearchOf(RewriteUrl(url, origin)), "url") == Some(url)
  {
    ProxyAddressTarget(url);
  }

  // ---------------------------------------------------------------------------
  // The fetch and XMLHttpRequest wrappers

  /** A JavaScript object the wrappers pass along without looking into it. */
  type Handle = nat

  /** The first argument of `fetch` (and the URL argument of `open`). */
  datatype Resource =
    | UrlString(url: string)
    | UrlObject(handle: Handle)   // a `Request` or `URL` object

  datatype FetchCall = FetchCall(input: Resource, init: Option<Handle>)

  /** An optional argument of `open`: left out of the call, passed as `undefined`, or passed with a value. */
  datatype Arg<T> = Omitted | Undefined | Given(value: T)

  datatype OpenCall = OpenCall(
    verb: string, url: Resource, async: Arg<bool>, user: Arg<string>, password: Arg<string>)

  /**
   * The optional argument the `open` wrapper hands on: it always passes all
   * five arguments, so one the page left out arrives as `undefined`.
   */
  function Passed<T>(a: Arg<T>): (r: Arg<T>)
    ensures !r.Omitted?
    ensures !a.Omitted? ==> r == a
    ensures a.Omitted? ==> r.Undefined?
  {
    if a.Omitted? then Undefined else a
  }

  /**
   * Whether the browser's `open` makes the request asynchronous: yes when
   * `async` is left out, otherwise `async` converted to a boolean, which
   * turns `undefined` into false.
   */
  function IsAsync(async: Arg<bool>): bool {
    match async
    case Omitted => true
    case Undefined => false
    case Given(b) => b
  }

  /**
   * The wrapper keeps a request asynchronous exactly when the page passed
   * `async` itself: an `open` call that leaves it out, and would have been
   * asynchronous, reaches the browser as a synchronous one.
   */
  lemma PassedAsync(async: Arg<bool>)
    ensures IsAsync(Passed(async)) == (async.Given? && async.value)
    ensures IsAsync(Passed(async)) != IsAsync(async) <==> async.Omitted?
  {
  }

  /**
   * The absolute URL a string reference is sent to: the page's `url` query
   * parameter names the target it shows, and the reference is resolved
   * against that target; `None` when there is no such parameter or when the
   * `URL` constructor throws on the target or the reference.
   */
  function Resolved(ref: string, search: string, parse: BasicUrlParser): Option<string> {
    var currentTarget := SearchParamGet(search, "url");
    if Truthy(currentTarget) then NewUrl(parse, ref, currentTarget) else None
  }

  /** The `URL` constructor throws inside a wrapper's `try` block. */
  predicate Throws(input: Resource, search: string, parse: BasicUrlParser) {
    && input.UrlString?
    && Truthy(SearchParamGet(search, "url"))
    && Resolved(input.url, search, parse).None?
  }

  /** What a wrapper hands to the browser's own function in place of `input`. */
  function Forwarded(input: Resource, search: string, parse: BasicUrlParser): (r: Resource)
    ensures input.UrlObject? ==> r == input
    ensures input.UrlString? && Resolved(input.url, search, parse).Some? ==>
      r == UrlString(ProxyAddress(Resolved(input.url, search, parse).value))
    ensures input.UrlString? && Resolved(input.url, search, parse).None? ==> r == input
  {
    match input
    case UrlObject(_) => input
    case UrlString(ref) =>
      match Resolved(ref, search, parse)
      case None => input
      case Some(absoluteUrl) => UrlString(ProxyAddress(absoluteUrl))
  }

  /** A forwarded string leads to the proxy route, and its `url` parameter is the resolved URL. */
  lemma ForwardedReadsBack(ref: string, search: string, parse: BasicUrlParser)
    requires Resolved(ref, search, parse).Some?
    ensures Forwarded(UrlString(ref), search, parse).UrlString?
    ensures var forwarded := Forwarded(UrlString(ref), search, parse).url;
      && PathOf(forwarded) == "/proxy"
      && SearchParamGet(SearchOf(forwarded), "url") == Resolved(ref, search, parse)
  {
    ProxyAddressTarget(Resolved(ref, search, parse).value);
  }

  /**
   * On a page the proxy serves for `target` (its address is `ProxyAddress(target)`),
   * a string reference is resolved against `target` itself: the same absolute
   * URL the server-side rewriters give an attribute with that value.
   */
  lemma ResolvedOnProxiedPage(ref: string, target: string, parse: BasicUrlParser)
    requires target != ""
    ensures Resolved(ref, SearchOf(ProxyAddress(target)), parse) == NewUrl(parse, ref, Some(target))
  {
    ProxyAddressTarget(target);
  }

  /** Off the proxy route (no `url` parameter), nothing is redirected. */
  lemma NoTargetNoRewrite(input: Resource, search: string, parse: BasicUrlParser)
    requires SearchParamGet(search, "url").None?
    ensures Forwarded(input, search, parse) == input
  {
  }

  /**
   * For an absolute `http` reference that resolves to itself, the wrappers and
   * `rewriteUrl` agree.
   */
  lemma ForwardedAgreesWithRewriteUrl(ref: string, search: string, origin: string, parse: BasicUrlParser)
    requires Resolved(ref, search, parse) == Some(ref)
    requires StartsWith(ref, "http") && !StartsWith(ref, origin + "/proxy")
    ensures Forwarded(UrlString(ref), search, parse) == UrlString(RewriteUrl(ref, origin))
  {
    assert ref != "" by { assert ref[0] == 'h'; }
  }

  /**
   * The page's `window`: the two wrapped functions record, in order, the
   * calls they hand to the browser's own `fetch` and `open`, and the errors
   * they log when resolution throws.
   */
  class Page {
    const search: string        // `window.location.search`
    const parse: BasicUrlParser  // the `URL` constructor
    var fetchCalls: seq<FetchCall>
    var openCalls: seq<OpenCall>
    var errorLog: seq<string>

    constructor(search: string, parse: BasicUrlParser)
      ensures this.search == search && this.parse == parse
      ensures fetchCalls == [] && openCalls == [] && errorLog == []
    {
      this.search := search;
      this.parse := parse;
      fetchCalls := [];
      openCalls := [];
      errorLog := [];
    }

    /**
     * The `url` of a call after the wrapper's step-by-step reassignment; a
     * failed resolution is logged with `message` and leaves the URL unchanged.
     */
    method MapUrl(input: Resource, message: string) returns (url: Resource)
      modifies this`errorLog
      ensures url == Forwarded(input, search, parse)
      ensures errorLog == old(errorLog) + if Throws(input, search, parse) then [message] else []
    {
      url := input;
      if input.UrlString? {
        var currentTarget := SearchParamGet(search, "url");
        if currentTarget.Some? && currentTarget.value != "" {
          var absoluteUrl := NewUrl(parse, input.url, Some(currentTarget.value));
          if absoluteUrl.Some? {
            url := UrlString(ProxyAddress(absoluteUrl.value));
          } else {
            errorLog := errorLog + [message];
          }
        }
      }
    }

    /** The `window.fetch` wrapper. */
    method Fetch(input: Resource, init: Option<Handle>)
      modifies this`fetchCalls, this`errorLog
      ensures fetchCalls == old(fetchCalls) + [FetchCall(Forwarded(input, search, parse), init)]
      ensures openCalls == old(openCalls)
    {
      var url := MapUrl(input, "Error rewriting fetch URL:");
      fetchCalls := fetchCalls + [FetchCall(url, init)];
    }

    /**
     * The `XMLHttpRequest.prototype.open` wrapper: the URL is forwarded, the
     * method as it is, and the three optional arguments always, as `Passed` says.
     */
    method Open(verb: string, url: Resource, async: Arg<bool>, user: Arg<string>, password: Arg<string>)
      modifies this`openCalls, this`errorLog
      ensures openCalls == old(openCalls) + [OpenCall(verb, Forwarded(url, search, parse), Passed(async), Passed(user), Passed(password))]
      ensures fetchCalls == old(fetchCalls)
    {
      var newUrl := MapUrl(url, "Error rewriting XHR URL:");
      openCalls := openCalls + [OpenCall(verb, newUrl, Passed(async), Passed(user), Passed(password))];
    }
  }
}
