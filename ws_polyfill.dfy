/**
 * The browser-side `ProxiedWebSocket` that stands in for `WebSocket`: it maps
 * the requested URL onto the real target, listens on a server-sent event
 * stream for what the server relays from the real socket, and posts sends and
 * the close notice back over HTTP.
 *
 * The object is modelled twice: `Socket` is its state as a value with one
 * function per callback or method, and the class `ProxiedWebSocket` updates its
 * fields in place and is proved to follow those functions. Event handlers are
 * modelled by whether one is installed; what an installed handler is called
 * with is appended to `fired`, and every request the object makes of the
 * network is appended to `requests`.
 */
module WsPolyfill {
  import opened Wrappers
  import opened Text
  import opened UriComponent
  import opened WebUrl

  const CONNECTING := 0
  const OPEN := 1
  const CLOSING := 2
  const CLOSED := 3

  /** Status code 1000, "normal closure" (section 7.4.1 of RFC 6455). */
  const NormalClosure := 1000

  const ServicePrefix := "/service/"

  /** An `http:` URL that lost one of its two slashes. */
  predicate CollapsedHttp(s: string) {
    StartsWith(s, "http:/") && !StartsWith(s, "http://")
  }

  /** An `https:` URL that lost one of its two slashes. */
  predicate CollapsedHttps(s: string) {
    StartsWith(s, "https:/") && !StartsWith(s, "https://")
  }

  /**
   * The real target base recovered from the page's path: what follows
   * `/service/`, with a collapsed `http:/` or `https:/` repaired; `""` on any
   * other page.
   */
  function TargetBase(pathname: string): (base: string)
    ensures !StartsWith(pathname, ServicePrefix) ==> base == ""
    ensures StartsWith(pathname, ServicePrefix) ==>
      var rest := pathname[|ServicePrefix|..];
      && (CollapsedHttp(rest) ==> base == "http://" + rest[6..])
      && (CollapsedHttps(rest) ==> base == "https://" + rest[7..])
      && (!CollapsedHttp(rest) && !CollapsedHttps(rest) ==> base == rest)
  {
    if !StartsWith(pathname, ServicePrefix) then ""
    else
      var rest := pathname[|ServicePrefix|..];
      var fixedHttp :=
        if CollapsedHttp(rest) then (ReplaceLeadingPattern(rest, "http:/", "http://"); ReplaceFirst(rest, "http:/", "http://"))
        else rest;
      if CollapsedHttps(fixedHttp) then (ReplaceLeadingPattern(fixedHttp, "https:/", "https://"); ReplaceFirst(fixedHttp, "https:/", "https://"))
      else fixedHttp
  }

  /** After the repair, a base that names an http(s) URL has both slashes. */
  lemma TargetBaseHasBothSlashes(pathname: string)
    requires StartsWith(pathname, ServicePrefix)
    requires var rest := pathname[|ServicePrefix|..]; StartsWith(rest, "http:/") || StartsWith(rest, "https:/")
    ensures StartsWith(TargetBase(pathname), "http://") || StartsWith(TargetBase(pathname), "https://")
  {
    var rest := pathname[|ServicePrefix|..];
    if !CollapsedHttp(rest) && !CollapsedHttps(rest) {
      if StartsWith(rest, "http:/") {
        assert StartsWith(rest, "http://");
      } else {
        assert StartsWith(rest, "https://");
      }
    }
  }

  /**
   * The URL the socket reports and connects to: a `ws:` or `wss:` URL as
   * given; anything else resolved against the target base, with its leading
   * `http` turned into `ws`; the URL as given when resolution throws.
   */
  function SocketUrl(url: string, base: string, parse: BasicUrlParser): (r: string)
    ensures StartsWith(url, "ws://") || StartsWith(url, "wss://") ==> r == url
    ensures !StartsWith(url, "ws://") && !StartsWith(url, "wss://") ==>
      match NewUrl(parse, url, Some(base))
      case None => r == url
      case Some(href) =>
        && (StartsWith(href, "http") ==> r == "ws" + href[4..])
        && (StartsWith(href, "https:") ==> StartsWith(r, "wss:"))
        && (StartsWith(href, "http:") ==> StartsWith(r, "ws:"))
        && (!StartsWith(href, "http") ==> r == href)
  {
    if StartsWith(url, "ws://") || StartsWith(url, "wss://") then url
    else
      match NewUrl(parse, url, Some(base))
      case None => url
      case Some(href) =>
        if StartsWith(href, "http") then (ReplaceLeadingPattern(href, "http", "ws"); ReplaceFirst(href, "http", "ws")) else href
  }

  /**
   * Off a `/service/` page the base is `""`, which the URL constructor cannot
   * parse, so every URL that is not already `ws:`/`wss:` is kept as given.
   */
  lemma NoServicePathKeepsUrl(url: string, pathname: string, parse: BasicUrlParser)
    requires RejectsEmptyWithoutBase(parse)
    requires !StartsWith(pathname, ServicePrefix)
    ensures SocketUrl(url, TargetBase(pathname), parse) == url
  {
  }

  /** The address of the downstream event stream for a socket. */
  function ConnectUrl(finalUrl: string, sessionId: string): string {
    "/api/ws-connect?target=" + Encode(finalUrl) + "&session=" + sessionId
  }

  datatype Handlers = Handlers(onopen: bool, onmessage: bool, onerror: bool, onclose: bool)

  /** What an installed handler is called with. */
  datatype DomEvent =
    | OpenEvent
    | MessageEvent(data: string, origin: string)
    | ErrorEvent
    | CloseEvent(code: int, reason: string, wasClean: bool)

  /** A parsed event of the downstream stream; `code` and `reason` may be missing. */
  datatype Downstream =
    | OpenMessage
    | DataMessage(data: string)
    | ErrorMessage
    | CloseMessage(code: Option<int>, reason: Option<string>)
    | OtherMessage(kind: string)

  /** What the object asks of the network. */
  datatype Request =
    | ConnectStream(url: string)
    | CloseStream
    | PostSend(session: string, data: string)
    | PostClose(session: string)

  datatype Socket = Socket(
    url: string,
    readyState: int,
    bufferedAmount: int,
    handlers: Handlers,
    eventSource: Option<string>,
    sessionId: string,
    fired: seq<DomEvent>,
    requests: seq<Request>)

  /** `code || 1000`: a missing or zero code is a normal closure. */
  function CloseCode(code: Option<int>): (r: int)
    ensures code.None? ==> r == NormalClosure
    ensures code.Some? ==> r == (if code.value == 0 then NormalClosure else code.value)
  {
    if code.None? || code.value == 0 then NormalClosure else code.value
  }

  /** A socket just constructed: connecting, nothing buffered, no handler, one stream opened. */
  function Opened(finalUrl: string, sessionId: string): (s: Socket)
    ensures s.url == finalUrl && s.sessionId == sessionId
    ensures s.readyState == CONNECTING && s.eventSource.Some? && s.fired == []
    ensures s.requests == [ConnectStream(s.eventSource.value)]
  {
    var sse := ConnectUrl(finalUrl, sessionId);
    Socket(finalUrl, CONNECTING, 0, Handlers(false, false, false, false), Some(sse), sessionId, [], [ConnectStream(sse)])
  }

  /** Calls a handler if one is installed. */
  function Fire(s: Socket, installed: bool, e: DomEvent): (r: Socket)
    ensures r.fired == s.fired + (if installed then [e] else [])
    ensures r.(fired := s.fired) == s
  {
    if installed then s.(fired := s.fired + [e]) else s
  }

  /** `close(code, reason)` */
  function CloseSocket(s: Socket, code: Option<int>, reason: Option<string>): (r: Socket)
    ensures r.readyState == CLOSED
    ensures s.readyState == CLOSED ==> r == s
    ensures s.readyState != CLOSED ==> r.eventSource.None? && |r.requests| > 0 && r.requests[|r.requests| - 1] == PostClose(s.sessionId)
    ensures r.url == s.url && r.sessionId == s.sessionId && r.handlers == s.handlers
    ensures s.readyState != CLOSED ==>
      r.fired == s.fired + (if s.handlers.onclose then [CloseEvent(CloseCode(code), reason.GetOr(""), true)] else [])
  {
    if s.readyState == CLOSED then s
    else
      var s1 := s.(readyState := CLOSED);
      var s2 := if s1.eventSource.Some? then s1.(eventSource := None, requests := s1.requests + [CloseStream]) else s1;
      var s3 := s2.(requests := s2.requests + [PostClose(s.sessionId)]);
      Fire(s3, s3.handlers.onclose, CloseEvent(CloseCode(code), reason.GetOr(""), true))
  }

  /** The stream's `onmessage` callback; a closed stream dispatches nothing. */
  function Deliver(s: Socket, m: Downstream): (r: Socket)
    ensures s.eventSource.None? ==> r == s
    ensures !m.CloseMessage? ==> r.requests == s.requests && r.eventSource == s.eventSource
    ensures m.CloseMessage? && s.eventSource.Some? ==> r.readyState == CLOSED
    ensures m.OpenMessage? && s.eventSource.Some? ==>
      r == s.(readyState := OPEN, fired := s.fired + (if s.handlers.onopen then [OpenEvent] else []))
    ensures m.DataMessage? && s.eventSource.Some? ==>
      r == s.(fired := s.fired + (if s.handlers.onmessage then [MessageEvent(m.data, s.url)] else []))
    ensures m.ErrorMessage? && s.eventSource.Some? ==>
      r == s.(fired := s.fired + (if s.handlers.onerror then [ErrorEvent] else []))
    ensures m.CloseMessage? && s.eventSource.Some? ==> r == CloseSocket(s, m.code, m.reason)
    ensures m.OtherMessage? ==> r == s
  {
    if s.eventSource.None? then s
    else
      match m
      case OpenMessage => Fire(s.(readyState := OPEN), s.handlers.onopen, OpenEvent)
      case DataMessage(d) => Fire(s, s.handlers.onmessage, MessageEvent(d, s.url))
      case ErrorMessage => Fire(s, s.handlers.onerror, ErrorEvent)
      case CloseMessage(code, reason) => CloseSocket(s, code, reason)
      case OtherMessage(_) => s
  }

  /** The stream's `onerror` callback: report the error, then close. */
  function StreamFailed(s: Socket): (r: Socket)
    ensures s.eventSource.None? ==> r == s
    ensures s.eventSource.Some? ==> r.readyState == CLOSED
    ensures s.eventSource.Some? && s.readyState != CLOSED ==> r.eventSource.None?
    ensures s.eventSource.Some? && s.readyState != CLOSED ==>
      r.fired == s.fired + (if s.handlers.onerror then [ErrorEvent] else [])
        + (if s.handlers.onclose then [CloseEvent(NormalClosure, "", true)] else [])
  {
    if s.eventSource.None? then s
    else CloseSocket(Fire(s, s.handlers.onerror, ErrorEvent), None, None)
  }

  /** `send(data)` is allowed only while open; it throws otherwise. */
  predicate CanSend(s: Socket) {
    s.readyState == OPEN
  }

  /** `send(data)`: one upstream post when open, nothing (the call throws) otherwise. */
  function AfterSend(s: Socket, data: string): (r: Socket)
    ensures r.readyState == s.readyState && r.fired == s.fired && r.eventSource == s.eventSource
    ensures s.readyState == OPEN ==> r.requests == s.requests + [PostSend(s.sessionId, data)]
    ensures s.readyState != OPEN ==> r == s
  {
    if CanSend(s) then s.(requests := s.requests + [PostSend(s.sessionId, data)]) else s
  }

  /** A rejected upstream post reports an error and changes nothing else. */
  function SendRejected(s: Socket): (r: Socket)
    ensures r.(fired := s.fired) == s
    ensures r.fired == s.fired + (if s.handlers.onerror then [ErrorEvent] else [])
  {
    Fire(s, s.handlers.onerror, ErrorEvent)
  }

  /** Everything that can happen to a socket after construction. */
  datatype Input =
    | Stream(m: Downstream)
    | StreamError
    | SendCall(data: string)
    | CloseCall(code: Option<int>, reason: Option<string>)
    | SendFailure
    | Assign(h: Handlers)

  function Step(s: Socket, i: Input): Socket {
    match i
    case Stream(m) => Deliver(s, m)
    case StreamError => StreamFailed(s)
    case SendCall(d) => AfterSend(s, d)
    case CloseCall(c, r) => CloseSocket(s, c, r)
    case SendFailure => SendRejected(s)
    case Assign(h) => s.(handlers := h)
  }

  function Run(s: Socket, ins: seq<Input>): Socket
    decreases |ins|
  {
    if ins == [] then s else Run(Step(s, ins[0]), ins[1..])
  }

  function CountCloseEvents(es: seq<DomEvent>): nat {
    if es == [] then 0
    else CountCloseEvents(es[..|es| - 1]) + (if es[|es| - 1].CloseEvent? then 1 else 0)
  }

  function CountCloseNotices(rs: seq<Request>): nat {
    if rs == [] then 0
    else CountCloseNotices(rs[..|rs| - 1]) + (if rs[|rs| - 1].PostClose? then 1 else 0)
  }

  lemma CountAppendEvent(es: seq<DomEvent>, e: DomEvent)
    ensures CountCloseEvents(es + [e]) == CountCloseEvents(es) + (if e.CloseEvent? then 1 else 0)
  {
    assert (es + [e])[..|es|] == es;
  }

  lemma CountAppendRequest(rs: seq<Request>, r: Request)
    ensures CountCloseNotices(rs + [r]) == CountCloseNotices(rs) + (if r.PostClose? then 1 else 0)
  {
    assert (rs + [r])[..|rs|] == rs;
  }

  /**
   * What holds of every socket: `readyState` is 0, 1 or 3 (CLOSING is never
   * assigned), nothing is ever buffered, the stream is open exactly until the
   * socket is closed, the server is told of the close once and only after it,
   * and `onclose` has been called at most that often.
   */
  ghost predicate Consistent(s: Socket)
    ensures Consistent(s) ==> s.readyState != CLOSING && s.bufferedAmount == 0
  {
    && (s.readyState == CONNECTING || s.readyState == OPEN || s.readyState == CLOSED)
    && s.bufferedAmount == 0
    && (s.eventSource.None? <==> s.readyState == CLOSED)
    && CountCloseNotices(s.requests) == (if s.readyState == CLOSED then 1 else 0)
    && CountCloseEvents(s.fired) <= CountCloseNotices(s.requests)
  }

  lemma OpenedConsistent(finalUrl: string, sessionId: string)
    ensures Consistent(Opened(finalUrl, sessionId))
  {
    CountAppendRequest([], ConnectStream(ConnectUrl(finalUrl, sessionId)));
  }

  lemma FireKeepsConsistent(s: Socket, installed: bool, e: DomEvent)
    requires Consistent(s)
    requires !e.CloseEvent?
    ensures Consistent(Fire(s, installed, e))
  {
    CountAppendEvent(s.fired, e);
  }

  lemma CloseKeepsConsistent(s: Socket, code: Option<int>, reason: Option<string>)
    requires Consistent(s)
    ensures Consistent(CloseSocket(s, code, reason))
  {
    if s.readyState != CLOSED {
      var t := CloseSocket(s, code, reason);
      var e := CloseEvent(CloseCode(code), reason.GetOr(""), true);
      assert t.requests == s.requests + [CloseStream] + [PostClose(s.sessionId)];
      assert t.fired == if s.handlers.onclose then s.fired + [e] else s.fired;
      assert t.readyState == CLOSED && t.eventSource.None? && t.bufferedAmount == 0;
      CountAppendRequest(s.requests, CloseStream);
      CountAppendRequest(s.requests + [CloseStream], PostClose(s.sessionId));
      CountAppendEvent(s.fired, e);
    }
  }

  lemma StepKeepsConsistent(s: Socket, i: Input)
    requires Consistent(s)
    ensures Consistent(Step(s, i))
  {
    match i
    case Stream(m) =>
      if s.eventSource.Some? {
        match m
        case OpenMessage => FireKeepsConsistent(s.(readyState := OPEN), s.handlers.onopen, OpenEvent);
        case DataMessage(d) => FireKeepsConsistent(s, s.handlers.onmessage, MessageEvent(d, s.url));
        case ErrorMessage => FireKeepsConsistent(s, s.handlers.onerror, ErrorEvent);
        case CloseMessage(code, reason) => CloseKeepsConsistent(s, code, reason);
        case OtherMessage(_) =>
      }
    case StreamError =>
      if s.eventSource.Some? {
        FireKeepsConsistent(s, s.handlers.onerror, ErrorEvent);
        CloseKeepsConsistent(Fire(s, s.handlers.onerror, ErrorEvent), None, None);
      }
    case SendCall(d) =>
      if CanSend(s) {
        CountAppendRequest(s.requests, PostSend(s.sessionId, d));
      }
    case CloseCall(c, r) => CloseKeepsConsistent(s, c, r);
    case SendFailure => FireKeepsConsistent(s, s.handlers.onerror, ErrorEvent);
    case Assign(h) =>
  }

  /**
   * Whatever happens to a socket, it stays consistent: CLOSING never shows,
   * and the close notice and `onclose` happen at most once.
   */
  lemma {:induction false} RunKeepsConsistent(s: Socket, ins: seq<Input>)
    requires Consistent(s)
    ensures Consistent(Run(s, ins))
    ensures Run(s, ins).readyState != CLOSING
    ensures CountCloseNotices(Run(s, ins).requests) <= 1
    ensures CountCloseEvents(Run(s, ins).fired) <= 1
    decreases |ins|
  {
    if ins != [] {
      StepKeepsConsistent(s, ins[0]);
      RunKeepsConsistent(Step(s, ins[0]), ins[1..]);
    }
  }

  /** A socket is never seen CLOSING, from construction on. */
  lemma NeverClosing(finalUrl: string, sessionId: string, ins: seq<Input>)
    ensures Run(Opened(finalUrl, sessionId), ins).readyState in {CONNECTING, OPEN, CLOSED}
  {
    OpenedConsistent(finalUrl, sessionId);
    RunKeepsConsistent(Opened(finalUrl, sessionId), ins);
  }

  /** `close` on a closed socket does nothing, so a second `close` is a no-op. */
  lemma CloseIdempotent(s: Socket, c1: Option<int>, r1: Option<string>, c2: Option<int>, r2: Option<string>)
    ensures CloseSocket(CloseSocket(s, c1, r1), c2, r2) == CloseSocket(s, c1, r1)
  {
  }

  /**
   * Closing a live socket sets CLOSED, closes the stream, tells the server once
   * and calls `onclose` once, with code `code || 1000` and reason `reason || ''`.
   */
  lemma CloseEffects(s: Socket, code: Option<int>, reason: Option<string>)
    requires Consistent(s) && s.readyState != CLOSED
    ensures var t := CloseSocket(s, code, reason);
      && t.readyState == CLOSED && t.eventSource.None?
      && t.requests == s.requests + [CloseStream, PostClose(s.sessionId)]
      && t.fired == s.fired + (if s.handlers.onclose then [CloseEvent(CloseCode(code), reason.GetOr(""), true)] else [])
  {
  }

  /**
   * After close the socket is inert: no stream event, error, send or close
   * changes its state or its requests, and only a rejected send or a handler
   * assignment can still touch it.
   */
  lemma {:induction false} ClosedStaysClosed(s: Socket, ins: seq<Input>)
    requires Consistent(s) && s.readyState == CLOSED
    ensures Run(s, ins).readyState == CLOSED
    ensures Run(s, ins).eventSource.None?
    ensures Run(s, ins).requests == s.requests
    ensures CountCloseEvents(Run(s, ins).fired) == CountCloseEvents(s.fired)
    decreases |ins|
  {
    if ins != [] {
      StepOnClosed(s, ins[0]);
      StepKeepsConsistent(s, ins[0]);
      ClosedStaysClosed(Step(s, ins[0]), ins[1..]);
    }
  }

  lemma StepOnClosed(s: Socket, i: Input)
    requires Consistent(s) && s.readyState == CLOSED
    ensures Step(s, i).readyState == CLOSED && Step(s, i).eventSource.None?
    ensures Step(s, i).requests == s.requests
    ensures CountCloseEvents(Step(s, i).fired) == CountCloseEvents(s.fired)
  {
    match i
    case SendFailure =>
      CountAppendEvent(s.fired, ErrorEvent);
    case Assign(h) =>
    case Stream(m) =>
    case StreamError =>
    case SendCall(d) =>
    case CloseCall(c, r) =>
  }

  function DataMessages(ds: seq<string>): (r: seq<Input>)
    ensures |r| == |ds|
  {
    if ds == [] then [] else [Stream(DataMessage(ds[0]))] + DataMessages(ds[1..])
  }

  function MessageEvents(ds: seq<string>, origin: string): (r: seq<DomEvent>)
    ensures |r| == |ds|
  {
    if ds == [] then [] else [MessageEvent(ds[0], origin)] + MessageEvents(ds[1..], origin)
  }

  /**
   * Messages relayed down the stream reach `onmessage` one for one and in the
   * order they arrive, each with the socket's URL as origin, and leave
   * `readyState` as it was.
   */
  lemma {:induction false} MessagesInOrder(s: Socket, ds: seq<string>)
    requires s.eventSource.Some? && s.handlers.onmessage
    ensures Run(s, DataMessages(ds)).fired == s.fired + MessageEvents(ds, s.url)
    ensures Run(s, DataMessages(ds)).readyState == s.readyState
    ensures Run(s, DataMessages(ds)).requests == s.requests
    decreases |ds|
  {
    if ds != [] {
      var t := Step(s, Stream(DataMessage(ds[0])));
      assert t.fired == s.fired + [MessageEvent(ds[0], s.url)];
      assert DataMessages(ds)[1..] == DataMessages(ds[1..]);
      MessagesInOrder(t, ds[1..]);
      assert s.fired + [MessageEvent(ds[0], s.url)] + MessageEvents(ds[1..], s.url)
          == s.fired + MessageEvents(ds, s.url);
    }
  }

  /**
   * A new socket refuses `send` until the stream reports `open`, and accepts
   * it afterwards; the `open` event reaches `onopen` when one is installed.
   */
  lemma SendWaitsForOpen(finalUrl: string, sessionId: string, h: Handlers, data: string)
    ensures var s := Opened(finalUrl, sessionId).(handlers := h);
      && !CanSend(s) && AfterSend(s, data) == s
      && var t := Deliver(s, OpenMessage);
         && CanSend(t) && t.fired == (if h.onopen then [OpenEvent] else [])
         && AfterSend(t, data).requests == t.requests + [PostSend(sessionId, data)]
  {
  }

  /** The object itself, updated in place as the JavaScript object is. */
  class ProxiedWebSocket {
    const url: string
    const protocols: seq<string>
    const sessionId: string
    var readyState: int
    var bufferedAmount: int
    var onopen: bool
    var onmessage: bool
    var onerror: bool
    var onclose: bool
    var eventSource: Option<string>
    var fired: seq<DomEvent>
    var requests: seq<Request>

    function Model(): Socket
      reads this
    {
      Socket(url, readyState, bufferedAmount, Handlers(onopen, onmessage, onerror, onclose),
             eventSource, sessionId, fired, requests)
    }

    ghost predicate Valid()
      reads this
    {
      Consistent(Model())
    }

    /**
     * `new WebSocket(url, protocols)` on a page whose path is `pathname`; the
     * session identifier, random in the source, is a parameter.
     */
    constructor (url: string, protocols: seq<string>, pathname: string, sessionId: string, parse: BasicUrlParser)
      ensures Valid()
      ensures Model() == Opened(SocketUrl(url, TargetBase(pathname), parse), sessionId)
      ensures this.protocols == protocols
    {
      var targetBase := "";
      if StartsWith(pathname, ServicePrefix) {
        targetBase := pathname[|ServicePrefix|..];
        if CollapsedHttp(targetBase) {
          targetBase := ReplaceFirst(targetBase, "http:/", "http://");
        }
        if CollapsedHttps(targetBase) {
          targetBase := ReplaceFirst(targetBase, "https:/", "https://");
        }
      }
      assert targetBase == TargetBase(pathname);
      var finalUrl := url;
      if !StartsWith(url, "ws://") && !StartsWith(url, "wss://") {
        var resolved := NewUrl(parse, url, Some(targetBase));
        if resolved.Some? {
          finalUrl := resolved.value;
          if StartsWith(finalUrl, "http") {
            finalUrl := ReplaceFirst(finalUrl, "http", "ws");
          }
        }
      }
      assert finalUrl == SocketUrl(url, targetBase, parse);
      this.url := finalUrl;
      this.protocols := protocols;
      this.sessionId := sessionId;
      readyState := CONNECTING;
      bufferedAmount := 0;
      onopen, onmessage, onerror, onclose := false, false, false, false;
      var sse := ConnectUrl(finalUrl, sessionId);
      eventSource := Some(sse);
      fired := [];
      requests := [ConnectStream(sse)];
      OpenedConsistent(finalUrl, sessionId);
    }

    method FireIf(installed: bool, e: DomEvent)
      modifies this
      ensures Model() == Fire(old(Model()), installed, e)
    {
      if installed {
        fired := fired + [e];
      }
    }

    /** `close(code, reason)` */
    method Close(code: Option<int>, reason: Option<string>)
      requires Valid()
      modifies this
      ensures Valid()
      ensures Model() == CloseSocket(old(Model()), code, reason)
    {
      CloseKeepsConsistent(Model(), code, reason);
      if readyState == CLOSED {
        return;
      }
      readyState := CLOSED;
      if eventSource.Some? {
        requests := requests + [CloseStream];
        eventSource := None;
      }
      requests := requests + [PostClose(sessionId)];
      FireIf(onclose, CloseEvent(CloseCode(code), reason.GetOr(""), true));
    }

    /** The stream's `onmessage` callback. */
    method OnStreamMessage(m: Downstream)
      requires Valid()
      modifies this
      ensures Valid()
      ensures Model() == Deliver(old(Model()), m)
    {
      StepKeepsConsistent(Model(), Stream(m));
      if eventSource.None? {
        return;
      }
      match m
      case OpenMessage =>
        readyState := OPEN;
        FireIf(onopen, OpenEvent);
      case DataMessage(d) =>
        FireIf(onmessage, MessageEvent(d, url));
      case ErrorMessage =>
        FireIf(onerror, ErrorEvent);
      case CloseMessage(code, reason) =>
        Close(code, reason);
      case OtherMessage(_) =>
    }

    /** The stream's `onerror` callback. */
    method OnStreamError()
      requires Valid()
      modifies this
      ensures Valid()
      ensures Model() == StreamFailed(old(Model()))
    {
      StepKeepsConsistent(Model(), StreamError);
      if eventSource.None? {
        return;
      }
      FireKeepsConsistent(Model(), onerror, ErrorEvent);
      FireIf(onerror, ErrorEvent);
      Close(None, None);
    }

    /** `send(data)`; the error is the message of the exception it throws. */
    method Send(data: string) returns (error: Option<string>)
      requires Valid()
      modifies this
      ensures Valid()
      ensures error == (if old(readyState) == OPEN then None else Some("WebSocket is not open"))
      ensures Model() == AfterSend(old(Model()), data)
    {
      StepKeepsConsistent(Model(), SendCall(data));
      if readyState != OPEN {
        return Some("WebSocket is not open");
      }
      requests := requests + [PostSend(sessionId, data)];
      error := None;
    }

    /** The rejection handler of the upstream post made by `send`. */
    method OnSendRejected()
      requires Valid()
      modifies this
      ensures Valid()
      ensures Model() == SendRejected(old(Model()))
    {
      StepKeepsConsistent(Model(), SendFailure);
      FireIf(onerror, ErrorEvent);
    }
  }
}
