# Proxy server and browser shims: a Dafny model

This project models the core of a small web-unblocking proxy:

- **The browser WebSocket shim** (`public/ws-polyfill.js`). `ProxiedWebSocket` replaces `WebSocket`. It maps the requested URL onto the real target and receives relayed frames over a server-sent event stream. It posts sends and the close notice back over HTTP.
- **The regex-rewriting proxy** (`src/server.js`). Its `/proxy` route validates the `url` parameter, refuses a blocked host and repairs a missing scheme by redirecting. It fetches the target, forwards the upstream headers and rewrites `href`/`src`/`action` attributes in HTML with a regular expression.
- **The DOM-rewriting proxy** (`server.js`). Its `/proxy` route promotes what the user typed to an address or a web search and refuses a blocked host. It rewrites links, resources and forms of the parsed document in three in-place passes.
- **The injected page script** (`inject.js`). It contains `rewriteUrl` and the wrappers around `fetch` and `XMLHttpRequest.prototype.open`.
- **The Unblocker response middleware** (`index.js`). It deletes the headers that stop a page from being framed.

Shared pieces:

- `Text`: the JavaScript string operations the code uses.
- `UriComponent`: `encodeURIComponent`, and query decoding as `URLSearchParams`/Express do it.
- `WebUrl`: the `URL` constructor, kept abstract as a parser function passed in, plus the one proxy address form `'/proxy?url=' + encodeURIComponent(target)` that every rewriter produces.
- `ProxyRoute`: the outcomes of a `/proxy` request and the blocked host.

Where the code changes state step by step, the model does too:

- `ProxiedWebSocket` is a class. Each of its methods is proved to follow a function on a `Socket` value, and the lemmas about runs of events are stated on those functions.
- The DOM rewriter changes an `array<Element>` in place. Of the two route handlers of `server.js`, only `Respond` changes that array, through `RewriteUrls`.
- The header-forwarding loop of `src/server.js` writes into a response object's header map.
- The page's wrappers append the calls they pass on to logs held by a `Page` object.
- The Unblocker middleware deletes keys from a `ResponseData` object's header map.

Where this differs from the design the repository describes, the model follows the code:

- The Unblocker middleware deletes `x-frame-options`, `content-security-policy` and `x-content-type-options` only when they hold a truthy value. It keeps `content-security-policy-report-only`.
- A failed fetch is answered with status 500, not a 502-class status.
- `send` before open throws an error, rather than giving a 400-class answer.
- The shim never enters `CLOSING` (`WsPolyfill.NeverClosing`).
- Neither HTML rewriter skips values that are already proxy addresses. A rewritten document rewritten again therefore wraps its proxy addresses a second time. Only the client-side `rewriteUrl` is idempotent (`Inject.RewriteUrlIdempotent`).

## Model

| member | source | states |
|---|---|---|
| Text.IndexOfFrom | src/server.js:47 | `indexOf` gives the first occurrence at or after the start, and `None` exactly when there is none |
| Text.ContainsIff | src/server.js:47 | `includes` holds exactly when the text occurs at some position |
| Text.ReplaceLeadingPattern | public/ws-polyfill.js:25-26 | `replace` of a pattern the string starts with swaps exactly that prefix |
| Text.ReplaceFirst | public/ws-polyfill.js:25-26 | `replace` with a string pattern leaves the string alone when the pattern does not occur |
| Text.ContainsAfter | server.js:82-90 | text found in a string is still found with anything put in front |
| Text.ContainsInside | src/server.js:87 | a string contains any text placed inside it |
| Text.ToLower | src/server.js:81 | `toLowerCase` keeps the length and lowers each ASCII letter |
| UriComponent.HexRoundTrip | src/server.js:26 | the hex digit of a nibble reads back as that nibble |
| UriComponent.Utf8 | src/server.js:26 | the UTF-8 encoding of a scalar value has 1 to 4 bytes, and is the single byte of its code exactly when it is ASCII |
| UriComponent.DecodeOneUtf8 | src/server.js:26 | decoding the UTF-8 bytes of a character gives back the character and consumes exactly its bytes |
| UriComponent.Utf8RoundTrip | src/server.js:26 | decoding the UTF-8 of a string gives back the string |
| UriComponent.Encode | src/server.js:26 | `encodeURIComponent` output is made only of unreserved characters and `%XX` escapes, and text of unreserved characters is unchanged |
| UriComponent.EncodeAppend | src/server.js:26 | encoding distributes over concatenation |
| UriComponent.EncodeLacks | src/server.js:26 | a character absent from the text and not used in `%XX` escapes (such as `&` or `=`) is absent from its encoding |
| UriComponent.EncodeKeepsUnreservedText | server.js:85 | text made of unreserved characters occurs unchanged in the encoding of any string containing it |
| UriComponent.FormDecode | src/server.js:40 | a query value is decoded as `+` for space and `%XX` for a byte, read as UTF-8; its contract is `DecodeEncode` |
| UriComponent.FormBytesPercent | src/server.js:40 | percent-decoding escapes gives back the escaped bytes |
| UriComponent.FormBytesEncode | src/server.js:40 | percent-decoding an encoded string gives back its UTF-8 bytes |
| UriComponent.DecodeEncode | src/server.js:40 | query-value decoding inverts `encodeURIComponent` |
| UriComponent.QueryGetEncoded | src/server.js:40 | in `name=` + encoded value, the first `name` parameter reads back as the value |
| UriComponent.QueryGet | src/server.js:40 | the decoded value of the first pair with the name; its contract is `QueryGetEncoded` |
| UriComponent.SearchParamGet | inject.js:31-32 | `URLSearchParams(search).get(name)` drops a leading `?` and reads the first pair with the name; its contract is `SearchParamGetEncoded` |
| UriComponent.IndexOfChar | inject.js:31-32 | `indexOf` of one character finds its first occurrence, and finds nothing exactly when the character is absent |
| UriComponent.SearchParamGetEncoded | inject.js:31-32 | `URLSearchParams(search).get(name)` on `?name=` + encoded value gives back the value |
| WebUrl.NewUrl | src/server.js:25 | the URL constructor parses a given base first, fails if the base fails, and otherwise resolves the input against it |
| WebUrl.ProxyAddress | src/server.js:17-26 | a proxy address starts with `/proxy?url=` and continues only with encoded characters |
| WebUrl.ProxyAddressParts | src/server.js:26 | a proxy address has path `/proxy` and search `?url=` + the encoded target |
| WebUrl.WithoutFragment | inject.js:31 | the address before its first `#`: a prefix without `#`, and the whole address when it has none |
| WebUrl.PathOf | src/server.js:39 | the path is a prefix of the address that holds neither `?` nor `#` |
| WebUrl.SearchOf | inject.js:31 | `location.search` is empty or `?` and a non-empty query without `#`; the address starts with its path followed by its search, and without a fragment it is exactly the two; without a `?` the search is empty |
| WebUrl.FragmentIgnored | inject.js:31 | a fragment changes neither the path nor the search of an address |
| WebUrl.ProxyAddressNoFragment | src/server.js:26 | a proxy address holds no `#`, since `encodeURIComponent` escapes it |
| WebUrl.ProxyAddressTarget | src/server.js:39-40 | a proxy address leads to the `/proxy` route, and its `url` parameter reads back as the target |
| WebUrl.ProxyAddressInjective | src/server.js:26 | different targets have different proxy addresses |
| WsPolyfill.TargetBase | public/ws-polyfill.js:19-27 | the base is what follows `/service/`, with a collapsed `http:/` or `https:/` repaired, and `""` on other pages |
| WsPolyfill.TargetBaseHasBothSlashes | public/ws-polyfill.js:25-26 | after the repair, an `http:/` or `https:/` base has both slashes |
| WsPolyfill.SocketUrl | public/ws-polyfill.js:29-43 | `ws:`/`wss:` URLs are kept; others are resolved against the base with `http` turned into `ws` (so `https:` becomes `wss:`), or kept when resolution throws |
| WsPolyfill.NoServicePathKeepsUrl | public/ws-polyfill.js:20-43 | off a `/service/` page the empty base makes resolution fail, so the URL is kept as given |
| WsPolyfill.CloseCode | public/ws-polyfill.js:135 | `code \|\| 1000`: a missing or zero code becomes 1000 |
| WsPolyfill.Opened | public/ws-polyfill.js:45-61 | a new socket holds its URL and session, is `CONNECTING`, has fired nothing and has asked only for its event stream |
| WsPolyfill.CloseSocket | public/ws-polyfill.js:116-140 | `close` always ends `CLOSED`; on a closed socket it changes nothing; otherwise the stream is gone, the last request is the close notice for this session, and `onclose`, when installed, gets `code \|\| 1000` and `reason \|\| ''` |
| WsPolyfill.Deliver | public/ws-polyfill.js:67-85 | a closed stream dispatches nothing; on a live stream `open` sets `OPEN` and fires `onopen`, a data frame fires `onmessage` with the socket's URL as origin, `error` fires `onerror` and keeps the state, `close` is `close(code, reason)`, and any other type changes nothing; each handler fires only when installed |
| WsPolyfill.StreamFailed | public/ws-polyfill.js:87-91 | a stream error on a live socket fires `onerror` and then `onclose` with code 1000, closes the socket and drops the stream; on a closed stream it does nothing |
| WsPolyfill.AfterSend | public/ws-polyfill.js:94-109 | `send` posts the data for this session exactly when `OPEN`, and otherwise changes nothing |
| WsPolyfill.SendRejected | public/ws-polyfill.js:110-113 | a rejected post fires `onerror` when it is installed and changes nothing else |
| WsPolyfill.Consistent | public/ws-polyfill.js:45-140 | a consistent socket is never `CLOSING` and never buffers |
| WsPolyfill.OpenedConsistent | public/ws-polyfill.js:45-61 | a new socket is in a consistent state |
| WsPolyfill.StepKeepsConsistent | public/ws-polyfill.js:63-140 | every callback and method keeps the socket consistent |
| WsPolyfill.RunKeepsConsistent | public/ws-polyfill.js:63-140 | after any sequence of events the socket is consistent and never `CLOSING`; the server is told of the close, and `onclose` is called, at most once |
| WsPolyfill.NeverClosing | public/ws-polyfill.js:47-118 | a socket is only ever `CONNECTING`, `OPEN` or `CLOSED` |
| WsPolyfill.CloseIdempotent | public/ws-polyfill.js:116-118 | closing a closed socket changes nothing |
| WsPolyfill.CloseEffects | public/ws-polyfill.js:116-140 | closing a live socket sets `CLOSED`, closes the stream, posts one close notice and fires one close event with `code \|\| 1000` and `reason \|\| ''` |
| WsPolyfill.ClosedStaysClosed | public/ws-polyfill.js:116-123 | once closed, no later event reopens the socket, posts anything or fires another close event |
| WsPolyfill.StepOnClosed | public/ws-polyfill.js:116-123 | one event on a closed socket leaves it closed and makes no request |
| WsPolyfill.MessagesInOrder | public/ws-polyfill.js:73-79 | relayed data frames reach `onmessage` in the order received, with the socket's URL as origin |
| WsPolyfill.SendWaitsForOpen | public/ws-polyfill.js:70-109 | a new socket refuses `send` until the stream reports `open`, and afterwards posts each send |
| WsPolyfill.ProxiedWebSocket.constructor | public/ws-polyfill.js:13-61 | the new object holds the resolved URL, is `CONNECTING` with no handlers, and has opened one event stream |
| WsPolyfill.Fire | public/ws-polyfill.js:72 | an event is added to the handler calls exactly when its handler is installed, and nothing else changes |
| WsPolyfill.ProxiedWebSocket.FireIf | public/ws-polyfill.js:72 | a handler is called only when installed |
| WsPolyfill.ProxiedWebSocket.Close | public/ws-polyfill.js:116-140 | the object's new state is `CloseSocket` of its old state, and stays consistent |
| WsPolyfill.ProxiedWebSocket.OnStreamMessage | public/ws-polyfill.js:67-85 | the object's new state is `Deliver` of its old state and the message |
| WsPolyfill.ProxiedWebSocket.OnStreamError | public/ws-polyfill.js:87-91 | the error handler runs and then the socket closes |
| WsPolyfill.ProxiedWebSocket.Send | public/ws-polyfill.js:94-109 | `send` throws unless `OPEN`, and otherwise posts the data once |
| WsPolyfill.ProxiedWebSocket.OnSendRejected | public/ws-polyfill.js:110-113 | a failed post fires `onerror` and changes nothing else |
| RegexProxy.MatchedAt | src/server.js:34 | a match at a position spells out `attr=` quote value quote there |
| RegexProxy.MatchedIsMatch | src/server.js:34 | the text of a match is itself matched at position 0 |
| RegexProxy.AttributeAt | src/server.js:34 | the alternation `href\|src\|action` (case-insensitive) finds a name occurring at the position |
| RegexProxy.AttributeAtComplete | src/server.js:34 | any attribute name occurring at a position is the one the alternation picks |
| RegexProxy.CloseQuote | src/server.js:34 | the lazy `(.*?)\2` stops at the first matching quote before any line terminator, or fails when there is none |
| RegexProxy.MatchFrom | src/server.js:34 | a name, `=`, a quote and a closing quote make exactly one match |
| RegexProxy.MatchUnique | src/server.js:34 | at most one match starts at a position |
| RegexProxy.NoMatchWithoutName | src/server.js:34 | no match starts where no attribute name starts |
| RegexProxy.NoMatchWithoutQuote | src/server.js:34 | no match starts where the name is not followed by `=` and a quote |
| RegexProxy.NoMatchWithoutClose | src/server.js:34 | no match starts where the quote is never closed on that line |
| RegexProxy.MatchAfterName | src/server.js:34 | once the alternation has picked a name, the attempt finds the match there if there is one, and only then |
| RegexProxy.MatchAfterQuote | src/server.js:34 | once a name, `=` and a quote are in place, the lazy value up to the closing quote is the only match |
| RegexProxy.MatchAt | src/server.js:34 | the match attempt at a position finds the match there if there is one, and only then |
| RegexProxy.Scan | src/server.js:34-36 | a global scan lists only positions at or after its start where the pattern matches, with that match |
| RegexProxy.ScanCovers | src/server.js:34-36 | the scan skips no match: a match at or after the start lies inside a listed match |
| RegexProxy.ScanInOrder | src/server.js:34-36 | when every match ends within the text, the scan lists its matches in order and without overlap |
| RegexProxy.MatchesFit | src/server.js:34 | every match of the pattern ends within the text |
| RegexProxy.Matches | src/server.js:34-36 | the global scan lists matches in order, without overlap, each a match at its position |
| RegexProxy.MatchesComplete | src/server.js:34-36 | every match at or after the start of the scan is listed, or starts inside a listed match that consumed it |
| RegexProxy.MatchesFirst | src/server.js:34-36 | a match at the start of the scan is listed first |
| RegexProxy.InOrderAt | src/server.js:34-36 | listed matches split at any one of them into those before it, which end before it starts, and those after it |
| RegexProxy.SpliceAt | src/server.js:36 | the splice at any listed match is the splice of the text before it, the replacer's result for it, and the splice after it |
| RegexProxy.Replace | src/server.js:36 | `replace` copies the text between matches and puts the replacer's result in place of each match; its contracts are `ReplaceEachMatch` and `ReplaceIdentity` |
| RegexProxy.ReplaceEachMatch | src/server.js:36 | `replace` puts the replacer's result in place of every listed match, wherever it stands |
| RegexProxy.UrlReplacer | src/server.js:36 | `replaceUrl` as the callback passed to `replace`; its contract is `ReplaceUrl`'s |
| RegexProxy.ReplaceUrl | src/server.js:20-30 | an empty, `data:` or `#` value, or one that does not resolve, keeps its match; otherwise the match becomes `attr=` quote + proxy address of the resolved URL + quote |
| RegexProxy.RewriteHtml | src/server.js:12-37 | `rewriteHtml` replaces every match with `replaceUrl`; its contracts are `RewriteHtmlEachMatch`, `NoMatchNoChange` and `ExemptValuesNoChange` |
| RegexProxy.RewriteHtmlEachMatch | src/server.js:12-37 | every `href`/`src`/`action` match of the page, wherever it stands, is replaced by `replaceUrl`'s result for it, between the rewrites of the text before and after it |
| RegexProxy.RewriteHtmlLeadingMatch | src/server.js:12-37 | a page that starts with a match starts, after the rewrite, with that match's replacement |
| RegexProxy.SpliceIdentity | src/server.js:36 | replacing matches by their own text gives back the text |
| RegexProxy.ReplaceIdentity | src/server.js:36 | a replacer that returns each match unchanged leaves the string unchanged |
| RegexProxy.NoMatchNoChange | src/server.js:12-37 | HTML with no `href`/`src`/`action` match is returned unchanged |
| RegexProxy.ExemptValuesNoChange | src/server.js:20-22 | when every matched value is empty, `data:` or `#`, the HTML is unchanged |
| RegexProxy.KeptMatch | src/server.js:21-22 | an exempt value keeps its match |
| RegexProxy.ProxyAddressFitsQuote | src/server.js:26 | a proxy address holds no double quote or line terminator, and no single quote when the target has none |
| RegexProxy.ReplacedMatchIsProxyAddress | src/server.js:24-26 | a rewritten match is `attr=` quote + the proxy address of the resolved URL + quote; it is itself one whole match, and its `url` parameter reads back as the resolved URL |
| RegexProxy.Route | src/server.js:39-65 | a missing or empty `url` is a 400; the blocked host is refused before validation; a parsing target is fetched; one that parses only with `https://` is redirected to that form's proxy address; otherwise a 400 `Invalid URL` |
| RegexProxy.ContainsAfterPrefix | src/server.js:47-59 | text starting with no character of a prefix occurs after the prefix only inside the rest |
| RegexProxy.RedirectLeadsToFetch | src/server.js:58-61 | following the redirect brings the route back with `https://` + target, which it then fetches |
| RegexProxy.BlockedHostNotAdded | src/server.js:47-59 | putting `https://` in front of a target cannot make it name the blocked host |
| RegexProxy.ServerResponse.constructor | src/server.js:79-83 | a response starts with no headers |
| RegexProxy.ServerResponse.SetHeader | src/server.js:82 | `setHeader` stores the value under the lower-cased name and changes nothing else |
| RegexProxy.ForwardAll | src/server.js:79-83 | the header map after forwarding the upstream headers in order; its contracts are `ForwardAllKeys`, `ForwardAllValues` and `ForwardAllUntouched` |
| RegexProxy.ForwardHeaders | src/server.js:79-83 | the loop's header map is `ForwardAll` of the old map and the upstream headers |
| RegexProxy.ForwardAllKeys | src/server.js:79-83 | a name is in the forwarded map exactly when it was there before or is a non-skipped upstream name; skipped names keep their old values |
| RegexProxy.ForwardAllValues | src/server.js:79-83 | with distinct names, every non-skipped upstream header is forwarded with its value |
| RegexProxy.ForwardAllUntouched | src/server.js:79-83 | a name no upstream header has keeps its old value |
| RegexProxy.ContentType | src/server.js:85 | the content type is the value of the first `content-type` header, and `''` when there is none |
| RegexProxy.Relay | src/server.js:67-100 | a failed fetch is a 500 with the error text; otherwise the headers are forwarded, the status is 200 and the body is rewritten exactly when the content type contains `text/html` |
| CheerioProxy.IsValidUrl | server.js:13-20 | `isValidUrl` holds exactly when the URL constructor accepts the text without a base |
| CheerioProxy.Promote | server.js:80-87 | the target always starts with `http://` or `https://`: kept if it already does, `https://` added to a dotted spaceless text, otherwise a search URL for the encoded text |
| CheerioProxy.PromoteIdempotent | server.js:80-87 | promoting a promoted target changes nothing |
| CheerioProxy.SearchQueryReadsBack | server.js:84-85 | the search engine's `q` parameter reads back as exactly what the user typed |
| CheerioProxy.BlockedHostUnreserved | server.js:90 | the blocked host is made of characters `encodeURIComponent` keeps |
| CheerioProxy.PromoteKeepsBlockedHost | server.js:80-90 | text naming the blocked host still names it after promotion, so it is refused on every branch |
| CheerioProxy.Handle | server.js:73-92 | a missing or empty `url` is a 400; the promoted target is refused with `Blocked domain` exactly when it names the blocked host; otherwise it is fetched without validation |
| CheerioProxy.Proxied | server.js:30-35 | an attribute whose value resolves against the base now holds the proxy address of the result; when the `URL` constructor throws the element is unchanged; other attributes, the tag and the attribute names are kept |
| CheerioProxy.RewriteAnchor | server.js:27-37 | a link's non-empty `href` that does not start with `#` or `javascript:` and resolves becomes the proxy address of the result; every other link is unchanged |
| CheerioProxy.RewriteResource | server.js:40-57 | a non-empty resolvable `src` becomes its proxy address, and so does a `link`'s `href`; other `href`s and unresolvable or empty values are kept |
| CheerioProxy.RewriteForm | server.js:60-68 | a non-empty resolvable `action` becomes its proxy address; every other form is unchanged |
| CheerioProxy.RewriteElement | server.js:23-71 | the per-element rewrite keeps tag and attribute names, and leaves elements other than links, resources and forms unchanged |
| CheerioProxy.RewrittenWhenResolvable | server.js:29-66 | every non-empty attribute named for its tag that resolves (and, on a link, is not `#` or `javascript:`) is rewritten to the proxy address of the result |
| CheerioProxy.PassesCompose | server.js:27-68 | the three selectors pick disjoint elements, so the three passes amount to one per-element rewrite |
| CheerioProxy.EachElement | server.js:27 | an `each` pass replaces every element by its callback's result |
| CheerioProxy.RewriteUrls | server.js:23-71 | after the three passes each element is its per-tag rewrite of the original |
| CheerioProxy.RewriteElementKeepsShape | server.js:23-71 | the rewrite keeps tag and attribute names and touches no attribute its tag does not name |
| CheerioProxy.ChangedAttributeIsProxyAddress | server.js:29-66 | a changed attribute was non-empty and named for its tag, resolved against the base, and now holds the proxy address of the result, whose `url` parameter reads back as that URL |
| CheerioProxy.AnchorExemptions | server.js:29 | `#` and `javascript:` links are never rewritten |
| CheerioProxy.Respond | server.js:94-119 | a failed fetch is a 500 with the error text; HTML is rewritten in place against the target and sent as `text/html`; other content keeps the upstream content type and the document is untouched |
| Inject.RewriteUrl | inject.js:5-22 | the result is the URL or its proxy address, and it is the proxy address exactly when the URL is non-empty, not already on this origin's proxy, and starts with `http` |
| Inject.ProxyAddressIsRelative | inject.js:10-11 | a proxy address never starts with `http` |
| Inject.RewriteUrlIdempotent | inject.js:5-22 | mapping a mapped URL again changes nothing |
| Inject.RewriteUrlReadsBack | inject.js:10-11 | a changed URL leads to the proxy route, and its `url` parameter is the original URL |
| Inject.Resolved | inject.js:31-38 | the absolute URL a string reference goes to: resolved against the page's `url` parameter, `None` without one or when the constructor throws; its contracts are `ResolvedOnProxiedPage` and `NoTargetNoRewrite` |
| Inject.Forwarded | inject.js:26-44 | objects pass through; a string is replaced by the proxy address of its resolution when that succeeds, and otherwise kept |
| Inject.ForwardedReadsBack | inject.js:36-39 | a forwarded string leads to the proxy route, and its `url` parameter is the resolved URL |
| Inject.ResolvedOnProxiedPage | inject.js:31-38 | on the proxy page for a target, references resolve against that target, as the server-side rewriters resolve them |
| Inject.NoTargetNoRewrite | inject.js:34 | without a `url` parameter, nothing is redirected |
| Inject.ForwardedAgreesWithRewriteUrl | inject.js:5-39 | for an absolute `http` URL that resolves to itself, the wrappers and `rewriteUrl` agree |
| Inject.Passed | inject.js:50-66 | the `open` wrapper always passes five arguments, so an optional argument left out arrives as `undefined` and one given arrives unchanged |
| Inject.PassedAsync | inject.js:50-66 | the request stays asynchronous exactly when the page passed `async` as true; an `open` call that leaves `async` out becomes synchronous |
| Inject.Page.constructor | inject.js:25-49 | a page starts with no calls and no logged errors |
| Inject.Page.MapUrl | inject.js:27-43 | the URL handed on is `Forwarded(input)`, and one error is logged exactly when the `URL` constructor throws |
| Inject.Page.Fetch | inject.js:26-46 | the browser's `fetch` receives the forwarded input and the same `init` |
| Inject.Page.Open | inject.js:50-66 | the browser's `open` receives the method and the forwarded URL, and `async`, user and password as `Passed` gives them |
| UnblockerServer.Stripped | index.js:13-24 | a header survives exactly when it is not a listed one with a truthy value, and every survivor keeps its value |
| UnblockerServer.StrippedHasNoFramingHeaders | index.js:15-23 | afterwards no listed header holds a truthy value, and a listed header holding `''` is kept |
| UnblockerServer.StrippedIdempotent | index.js:13-24 | running the middleware twice gives the same headers as running it once |
| UnblockerServer.DeleteIfTruthy | index.js:15-23 | one test deletes the name exactly when it holds a truthy value, and keeps every other header with its value |
| UnblockerServer.ThreeTestsStrip | index.js:15-23 | the three delete-if-truthy tests in a row remove exactly the headers `Stripped` drops |
| UnblockerServer.ResponseData.constructor | index.js:13 | the data object holds the given headers |
| UnblockerServer.ResponseData.StripFramingHeaders | index.js:13-24 | the callback's in-place deletions leave exactly `Stripped` of the old headers |

## Left out

- I/O of both Express servers is not modelled: `app.listen`, static files, `res.send`/`res.redirect`/`res.status`. Handler results are values (`Outcome`, `Reply`).
- The outbound `axios` request is a parameter of the model: its result, or its failure message.
- Request and response bodies are strings. Buffers, the UTF-8 decoding of `response.data` and binary pass-through are not modelled.
- The cheerio HTML parser and serializer are not modelled. The document is an array of elements with lower-case tag names and attribute maps.
- The WHATWG URL parser is a function passed in, not implemented. Properties that need a fact about it take that fact as a precondition (`WebUrl.RejectsEmptyWithoutBase`).
- `generateUUID` uses `Math.random`; the session identifier is a parameter of the shim's constructor.
- The shim's network I/O is not executed. `EventSource`, the `fetch` posts, JSON parsing of events and DOM event objects become entries in the `requests` and `fired` logs, and handler calls are entries in `fired`.
- `console` output is not modelled, except the wrappers' error messages in `inject.js`, which are kept as a log.
- The server-sent event routes (`/events` in `server.js`, `/status` in `src/server.js`) are not modelled: they are timers and streaming writes.
- `public/script.js` is not part of this model. It is a form handler that only navigates.
- The Unblocker library's own rewriting is not modelled. Only the inline middleware of `index.js` is.
- UriComponent.FormDecode: decoding is strict UTF-8 and gives `None` on invalid byte sequences. `URLSearchParams` and Express substitute U+FFFD or keep the raw text there. Only values produced by `encodeURIComponent` are needed, and for those they agree.
- Query strings that repeat a key are read as the first value. Express's array-valued query parameters are not modelled.
- RegexProxy.Route: the blocked-host refusal is proved only for a single string `url` parameter. With a repeated `url` key Express makes the value an array, and `Array.prototype.includes` (src/server.js:47) then tests for an element equal to the host rather than a substring, so the 403 is skipped and the blocklist is bypassed.
- CheerioProxy.Handle: the blocked-host refusal is proved only for a single string `url` parameter. With a repeated `url` key the value is an array, and `targetUrl.startsWith` (server.js:81) throws, so the request fails before the host is tested.
- WsPolyfill.ProxiedWebSocket.constructor: the URL must be a string. A `URL` object makes `url.startsWith` (public/ws-polyfill.js:31) throw a `TypeError`, which the model does not capture.
- Text.ToLower: lower-cases ASCII letters only. Header names and HTML attribute names are ASCII.
- Positions are counted in Unicode scalar values, not UTF-16 code units. No property here depends on the difference.
- RegexProxy.MatchAt: the `i` flag is treated as ASCII case folding, which is what a non-Unicode regular expression does for the ASCII names `href`, `src` and `action`.
- RegexProxy.ReplacedMatchIsProxyAddress: with a single quote, it needs the resolved URL to hold no `'`. `encodeURIComponent` leaves `'` in place, so such a rewritten value ends the attribute early.
- RegexProxy.Relay: the upstream status is not relayed and the reply is always 200, as in the code. Array-valued upstream headers (`set-cookie`) are treated as single strings.
- CheerioProxy.Respond: `res.set('Content-Type', undefined)` for a response without a content type is kept as `None`. Express's charset handling is not modelled.
- UnblockerServer.ResponseData.StripFramingHeaders: header values are strings or lists. Other JavaScript values a middleware could see there are not modelled.
- Inject: the wrappers read `window.location.search` when they are called. The model fixes it for the life of a `Page`, since the script is re-injected on every navigation.
