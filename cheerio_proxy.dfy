/**
 * The Express proxy of `server.js`: it turns what the user typed into a target
 * (adding `https://`, or sending free text to a search engine), refuses the
 * blocked host, and rewrites the links, resources and forms of a fetched HTML
 * document so that they go through the proxy again.
 */
module CheerioProxy {
  import opened Wrappers
  import opened Text
  import opened UriComponent
  import opened WebUrl
  import opened ProxyRoute

  /** `isValidUrl(string)`: the URL constructor accepts the text on its own. */
  function IsValidUrl(s: string, parse: BasicUrlParser): (valid: bool)
    ensures valid <==> parse(s, None).Some?
  {
    NewUrl(parse, s, None).Some?
  }

  const HttpScheme := "http://"
  const HttpsScheme := "https://"
  const SearchAddress := "https://www.google.com/search?q="

  predicate HasHttpScheme(t: string) {
    StartsWith(t, HttpScheme) || StartsWith(t, HttpsScheme)
  }

  /** Free text: it holds no `.`, or it holds a space. */
  predicate LooksLikeSearch(t: string) {
    !Contains(t, ".") || Contains(t, " ")
  }

  /**
   * The target the route fetches for what the user typed: an `http://` or
   * `https://` address is kept, something that looks like a host name gets
   * `https://` in front, and anything else becomes a web search for it.
   */
  function Promote(t: string): (r: string)
    ensures HasHttpScheme(r)
    ensures HasHttpScheme(t) ==> r == t
    ensures !HasHttpScheme(t) && !LooksLikeSearch(t) ==> r == HttpsScheme + t
    ensures !HasHttpScheme(t) && LooksLikeSearch(t) ==> r == SearchAddress + Encode(t)
  {
    if !StartsWith(t, HttpScheme) && !StartsWith(t, HttpsScheme) then
      if Contains(t, ".") && !Contains(t, " ") then
        assert StartsWith(HttpsScheme + t, HttpsScheme);
        HttpsScheme + t
      else
        SearchAddressHasScheme(Encode(t));
        SearchAddress + Encode(t)
    else t
  }

  /** A search address is an `https://` address whatever the query. */
  lemma SearchAddressHasScheme(query: string)
    ensures StartsWith(SearchAddress + query, HttpsScheme)
  {
    assert (SearchAddress + query)[..|HttpsScheme|] == HttpsScheme;
  }

  /** Promoting a promoted target changes nothing. */
  lemma PromoteIdempotent(t: string)
    ensures Promote(Promote(t)) == Promote(t)
  {
  }

  /** The search engine's `q` parameter reads back as exactly what the user typed. */
  lemma SearchQueryReadsBack(t: string)
    requires !HasHttpScheme(t) && LooksLikeSearch(t)
    ensures Promote(t) == SearchAddress + Encode(t)
    ensures SearchParamGet("?q=" + Encode(t), "q") == Some(t)
  {
    SearchParamGetEncoded("q", t);
    assert "?" + "q" + "=" == "?q=";
  }

  /** Every character of the blocked host is one `encodeURIComponent` keeps. */
  lemma BlockedHostUnreserved()
    ensures forall i :: 0 <= i < |BlockedHost| ==> IsUnreserved(BlockedHost[i])
  {
    assert BlockedHost == ['c', 'h', 'r', 'o', 'm', 'e', 'b', 'o', 'o', 'k', '.',
      'c', 'c', 'p', 's', 'n', 'e', 't', '.', 'n', 'e', 't'];
  }

  /** Text naming the blocked host still names it after promotion, whichever branch is taken. */
  lemma PromoteKeepsBlockedHost(t: string)
    requires Contains(t, BlockedHost)
    ensures Contains(Promote(t), BlockedHost)
  {
    if !HasHttpScheme(t) {
      if LooksLikeSearch(t) {
        BlockedHostUnreserved();
        EncodeKeepsUnreservedText(t, BlockedHost);
        ContainsAfter(SearchAddress, Encode(t), BlockedHost);
      } else {
        ContainsAfter(HttpsScheme, t, BlockedHost);
      }
    }
  }

  /**
   * The decisions of the `/proxy` route before the fetch: the `url` parameter
   * is required, it is promoted to an address, and an address naming the
   * blocked host is refused; anything else is fetched as it is, without
   * validation.
   */
  method Handle(url: Option<string>) returns (outcome: Outcome)
    ensures outcome == BadRequest("URL is required") <==> !Truthy(url)
    ensures outcome.Forbidden? <==> Truthy(url) && Contains(Promote(url.value), BlockedHost)
    ensures outcome.Forbidden? ==> outcome.message == "Blocked domain"
    ensures outcome.Fetch? <==> Truthy(url) && !Contains(Promote(url.value), BlockedHost)
    ensures outcome.Fetch? ==> url.Some? && outcome.target == Promote(url.value)
  {
    if !Truthy(url) {
      return BadRequest("URL is required");
    }
    var targetUrl := url.value;
    if !StartsWith(targetUrl, HttpScheme) && !StartsWith(targetUrl, HttpsScheme) {
      if Contains(targetUrl, ".") && !Contains(targetUrl, " ") {
        targetUrl := HttpsScheme + targetUrl;
      } else {
        targetUrl := SearchAddress + Encode(targetUrl);
      }
    }
    assert targetUrl == Promote(url.value);
    if Contains(targetUrl, BlockedHost) {
      return Forbidden("Blocked domain");
    }
    outcome := Fetch(targetUrl);
  }

  // ---------------------------------------------------------------------------
  // rewriteUrls

  /** An element of the parsed document: its (lower-case) tag name and attributes. */
  datatype Element = Element(tag: string, attrs: map<string, string>)

  /** `$(el).attr(name)` as a condition: present and not empty. */
  predicate HasValue(e: Element, name: string) {
    name in e.attrs && e.attrs[name] != ""
  }

  /**
   * `$(el).attr(name, '/proxy?url=' + encodeURIComponent(absoluteUrl))` when
   * the attribute resolves against the base; left as it is when the URL
   * constructor throws.
   */
  function Proxied(e: Element, name: string, baseUrl: string, parse: BasicUrlParser): (r: Element)
    requires name in e.attrs
    ensures r.tag == e.tag && r.attrs.Keys == e.attrs.Keys
    ensures forall n :: n in e.attrs && n != name ==> r.attrs[n] == e.attrs[n]
    ensures NewUrl(parse, e.attrs[name], Some(baseUrl)).None? ==> r == e
    ensures NewUrl(parse, e.attrs[name], Some(baseUrl)).Some? ==>
      r.attrs[name] == ProxyAddress(NewUrl(parse, e.attrs[name], Some(baseUrl)).value)
  {
    match NewUrl(parse, e.attrs[name], Some(baseUrl))
    case None => e
    case Some(absoluteUrl) => e.(attrs := e.attrs[name := ProxyAddress(absoluteUrl)])
  }

  /** Links the anchor callback leaves alone: fragments and `javascript:` URLs. */
  predicate Exempt(href: string) {
    StartsWith(href, "#") || StartsWith(href, "javascript:")
  }

  /** The callback of `$('a').each(...)`: fragments and `javascript:` links are skipped. */
  function RewriteAnchor(e: Element, baseUrl: string, parse: BasicUrlParser): (r: Element)
    ensures r.tag == e.tag && r.attrs.Keys == e.attrs.Keys
    ensures forall n :: n in e.attrs && n != "href" ==> r.attrs[n] == e.attrs[n]
    ensures !HasValue(e, "href") || Exempt(e.attrs["href"]) || NewUrl(parse, e.attrs["href"], Some(baseUrl)).None? ==> r == e
    ensures HasValue(e, "href") && !Exempt(e.attrs["href"]) && NewUrl(parse, e.attrs["href"], Some(baseUrl)).Some? ==>
      r.attrs["href"] == ProxyAddress(NewUrl(parse, e.attrs["href"], Some(baseUrl)).value)
  {
    if HasValue(e, "href") && !Exempt(e.attrs["href"]) then
      Proxied(e, "href", baseUrl, parse)
    else e
  }

  const ResourceTags: set<string> := {"img", "script", "link", "iframe"}

  /**
   * The callback of `$('img, script, link, iframe').each(...)`: `src` is
   * rewritten with no exceptions, and `href` too on a `link`. Both values are
   * read before either is changed.
   */
  function RewriteResource(e: Element, baseUrl: string, parse: BasicUrlParser): (r: Element)
    ensures r.tag == e.tag && r.attrs.Keys == e.attrs.Keys
    ensures forall n :: n in e.attrs && n != "src" && n != "href" ==> r.attrs[n] == e.attrs[n]
    ensures "href" in e.attrs && e.tag != "link" ==> r.attrs["href"] == e.attrs["href"]
    ensures "src" in e.attrs && (e.attrs["src"] == "" || NewUrl(parse, e.attrs["src"], Some(baseUrl)).None?) ==>
      r.attrs["src"] == e.attrs["src"]
    ensures HasValue(e, "src") && NewUrl(parse, e.attrs["src"], Some(baseUrl)).Some? ==>
      r.attrs["src"] == ProxyAddress(NewUrl(parse, e.attrs["src"], Some(baseUrl)).value)
    ensures e.tag == "link" && HasValue(e, "href") && NewUrl(parse, e.attrs["href"], Some(baseUrl)).Some? ==>
      r.attrs["href"] == ProxyAddress(NewUrl(parse, e.attrs["href"], Some(baseUrl)).value)
  {
    var withSrc := if HasValue(e, "src") then Proxied(e, "src", baseUrl, parse) else e;
    if HasValue(e, "href") && e.tag == "link" then Proxied(withSrc, "href", baseUrl, parse) else withSrc
  }

  /** The callback of `$('form').each(...)`. */
  function RewriteForm(e: Element, baseUrl: string, parse: BasicUrlParser): (r: Element)
    ensures r.tag == e.tag && r.attrs.Keys == e.attrs.Keys
    ensures forall n :: n in e.attrs && n != "action" ==> r.attrs[n] == e.attrs[n]
    ensures !HasValue(e, "action") || NewUrl(parse, e.attrs["action"], Some(baseUrl)).None? ==> r == e
    ensures HasValue(e, "action") && NewUrl(parse, e.attrs["action"], Some(baseUrl)).Some? ==>
      r.attrs["action"] == ProxyAddress(NewUrl(parse, e.attrs["action"], Some(baseUrl)).value)
  {
    if HasValue(e, "action") then Proxied(e, "action", baseUrl, parse) else e
  }

  /** One pass of `rewriteUrls`: its callback on the elements its selector picks. */
  function AnchorPass(e: Element, baseUrl: string, parse: BasicUrlParser): Element {
    if e.tag == "a" then RewriteAnchor(e, baseUrl, parse) else e
  }

  function ResourcePass(e: Element, baseUrl: string, parse: BasicUrlParser): Element {
    if e.tag in ResourceTags then RewriteResource(e, baseUrl, parse) else e
  }

  function FormPass(e: Element, baseUrl: string, parse: BasicUrlParser): Element {
    if e.tag == "form" then RewriteForm(e, baseUrl, parse) else e
  }

  /** What `rewriteUrls` does to one element, by its tag. */
  function RewriteElement(e: Element, baseUrl: string, parse: BasicUrlParser): (r: Element)
    ensures r.tag == e.tag && r.attrs.Keys == e.attrs.Keys
    ensures e.tag != "a" && e.tag !in ResourceTags && e.tag != "form" ==> r == e
  {
    if e.tag == "a" then RewriteAnchor(e, baseUrl, parse)
    else if e.tag in ResourceTags then RewriteResource(e, baseUrl, parse)
    else if e.tag == "form" then RewriteForm(e, baseUrl, parse)
    else e
  }

  /** The three selectors pick disjoint elements, so the three passes amount to one rewrite per element. */
  lemma PassesCompose(e: Element, baseUrl: string, parse: BasicUrlParser)
    ensures FormPass(ResourcePass(AnchorPass(e, baseUrl, parse), baseUrl, parse), baseUrl, parse)
      == RewriteElement(e, baseUrl, parse)
  {
    var a := AnchorPass(e, baseUrl, parse);
    assert a.tag == e.tag;
    var r := ResourcePass(a, baseUrl, parse);
    assert r.tag == e.tag;
  }

  /**
   * One `$(selector).each(callback)`: the pass visits the elements in document
   * order and replaces each by what the callback makes of it.
   */
  method EachElement(doc: array<Element>, pass: Element -> Element)
    modifies doc
    ensures forall i :: 0 <= i < doc.Length ==> doc[i] == pass(old(doc[i]))
  {
    for i := 0 to doc.Length
      invariant forall k :: 0 <= k < i ==> doc[k] == pass(old(doc[k]))
      invariant forall k :: i <= k < doc.Length ==> doc[k] == old(doc[k])
    {
      doc[i] := pass(doc[i]);
    }
  }

  /**
   * `rewriteUrls(html, baseUrl)` on the parsed document: the three `each`
   * passes in order, each changing the elements in place.
   */
  method RewriteUrls(doc: array<Element>, baseUrl: string, parse: BasicUrlParser)
    modifies doc
    ensures forall i :: 0 <= i < doc.Length ==> doc[i] == RewriteElement(old(doc[i]), baseUrl, parse)
  {
    ghost var original := doc[..];
    EachElement(doc, e => AnchorPass(e, baseUrl, parse));
    ghost var anchored := doc[..];
    EachElement(doc, e => ResourcePass(e, baseUrl, parse));
    ghost var resourced := doc[..];
    EachElement(doc, e => FormPass(e, baseUrl, parse));
    forall k | 0 <= k < doc.Length
      ensures doc[k] == RewriteElement(original[k], baseUrl, parse)
    {
      assert anchored[k] == AnchorPass(original[k], baseUrl, parse);
      assert resourced[k] == ResourcePass(anchored[k], baseUrl, parse);
      PassesCompose(original[k], baseUrl, parse);
    }
  }

  /** The attributes `rewriteUrls` may change on an element with this tag. */
  function Rewritable(tag: string): set<string> {
    if tag == "a" then {"href"}
    else if tag == "link" then {"src", "href"}
    else if tag in ResourceTags then {"src"}
    else if tag == "form" then {"action"}
    else {}
  }

  /**
   * The rewrite keeps the element's tag and attribute names, and leaves every
   * attribute its tag does not name untouched.
   */
  lemma RewriteElementKeepsShape(e: Element, baseUrl: string, parse: BasicUrlParser)
    ensures var r := RewriteElement(e, baseUrl, parse);
      && r.tag == e.tag && r.attrs.Keys == e.attrs.Keys
      && forall n :: n in e.attrs && n !in Rewritable(e.tag) ==> r.attrs[n] == e.attrs[n]
  {
  }

  /**
   * An attribute the rewrite changed now holds the proxy address of the URL
   * its old value resolves to, and that address's `url` parameter reads back
   * as that URL.
   */
  lemma ChangedAttributeIsProxyAddress(e: Element, name: string, baseUrl: string, parse: BasicUrlParser)
    requires name in e.attrs
    requires RewriteElement(e, baseUrl, parse).attrs[name] != e.attrs[name]
    ensures name in Rewritable(e.tag) && e.attrs[name] != ""
    ensures NewUrl(parse, e.attrs[name], Some(baseUrl)).Some?
    ensures var absoluteUrl := NewUrl(parse, e.attrs[name], Some(baseUrl)).value;
      && RewriteElement(e, baseUrl, parse).attrs[name] == ProxyAddress(absoluteUrl)
      && SearchParamGet(SearchOf(ProxyAddress(absoluteUrl)), "url") == Some(absoluteUrl)
  {
    RewriteElementKeepsShape(e, baseUrl, parse);
    ProxyAddressTarget(NewUrl(parse, e.attrs[name], Some(baseUrl)).value);
  }

  /**
   * Conversely, every attribute the pass for its tag looks at is rewritten when
   * it is non-empty, not an exempt link, and resolves against the base.
   */
  lemma RewrittenWhenResolvable(e: Element, name: string, baseUrl: string, parse: BasicUrlParser)
    requires name in Rewritable(e.tag) && HasValue(e, name)
    requires e.tag == "a" ==> !StartsWith(e.attrs[name], "#") && !StartsWith(e.attrs[name], "javascript:")
    requires NewUrl(parse, e.attrs[name], Some(baseUrl)).Some?
    ensures RewriteElement(e, baseUrl, parse).attrs[name] == ProxyAddress(NewUrl(parse, e.attrs[name], Some(baseUrl)).value)
  {
  }

  /**
   * Fragment and `javascript:` links are never rewritten; resource and form
   * URLs have no such exceptions.
   */
  lemma AnchorExemptions(e: Element, baseUrl: string, parse: BasicUrlParser)
    requires e.tag == "a" && "href" in e.attrs
    requires StartsWith(e.attrs["href"], "#") || StartsWith(e.attrs["href"], "javascript:")
    ensures RewriteElement(e, baseUrl, parse) == e
  {
  }

  // ---------------------------------------------------------------------------
  // Answering with the fetched content

  datatype Fetched =
    | Received(contentType: Option<string>)   // the body is the document or raw bytes
    | Failed(message: string)                  // the request failed or the status was not 2xx

  datatype Reply =
    | Content(contentType: Option<string>)     // 200, with this `Content-Type`
    | ServerError(message: string)             // 500

  /** `contentType && contentType.includes('text/html')` */
  predicate IsHtml(contentType: Option<string>) {
    Truthy(contentType) && Contains(contentType.value, "text/html")
  }

  /**
   * The answer for a fetched target: an HTML page is rewritten against the
   * target and sent as `text/html`; other content goes out unchanged with the
   * upstream `Content-Type`; a failed fetch is a 500 with the error text.
   */
  method Respond(doc: array<Element>, fetched: Fetched, targetUrl: string, parse: BasicUrlParser) returns (reply: Reply)
    modifies doc
    ensures fetched.Failed? ==> reply == ServerError("Error fetching URL: " + fetched.message)
    ensures fetched.Received? && IsHtml(fetched.contentType) ==> reply == Content(Some("text/html"))
    ensures fetched.Received? && !IsHtml(fetched.contentType) ==> reply == Content(fetched.contentType)
    ensures fetched.Received? && IsHtml(fetched.contentType) ==>
      forall i :: 0 <= i < doc.Length ==> doc[i] == RewriteElement(old(doc[i]), targetUrl, parse)
    ensures !(fetched.Received? && IsHtml(fetched.contentType)) ==> doc[..] == old(doc[..])
  {
    if fetched.Failed? {
      return ServerError("Error fetching URL: " + fetched.message);
    }
    var contentType := fetched.contentType;
    if contentType.Some? && contentType.value != "" && Contains(contentType.value, "text/html") {
      RewriteUrls(doc, targetUrl, parse);
      reply := Content(Some("text/html"));
    } else {
      reply := Content(contentType);
    }
  }
}
