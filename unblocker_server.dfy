/**
 * The response middleware `index.js` gives the Unblocker proxy: before a
 * proxied response goes out, the headers that stop a page from being shown in
 * a frame are deleted from the response's header object.
 */
module UnblockerServer {
  /** A header value as Node.js keeps it: one string, or a list for repeated headers. */
  datatype HeaderValue = Single(value: string) | Multiple(values: seq<string>)

  /** JavaScript truthiness of a present value: only the empty string is falsy (a list is an object). */
  predicate IsTruthy(v: HeaderValue) {
    !(v.Single? && v.value == "")
  }

  /** The headers the middleware deletes, in the order it tests them. */
  const FrameOptions := "x-frame-options"
  const SecurityPolicy := "content-security-policy"
  const TypeOptions := "x-content-type-options"

  predicate Listed(name: string) {
    name == FrameOptions || name == SecurityPolicy || name == TypeOptions
  }

  /** A header the middleware deletes: a listed one holding a truthy value. */
  predicate Deleted(headers: map<string, HeaderValue>, name: string) {
    name in headers && Listed(name) && IsTruthy(headers[name])
  }

  /** The header object once the middleware has run. */
  function Stripped(headers: map<string, HeaderValue>): (r: map<string, HeaderValue>)
    ensures forall name :: name in r <==> name in headers && !Deleted(headers, name)
    ensures forall name :: name in r ==> r[name] == headers[name]
  {
    map name | name in headers && !Deleted(headers, name) :: headers[name]
  }

  /** After the middleware no listed header holds a truthy value, and a falsy one is kept. */
  lemma StrippedHasNoFramingHeaders(headers: map<string, HeaderValue>)
    ensures forall name :: Listed(name) && name in Stripped(headers) ==> !IsTruthy(Stripped(headers)[name])
    ensures forall name :: Listed(name) && name in headers && !IsTruthy(headers[name]) ==>
      name in Stripped(headers) && Stripped(headers)[name] == headers[name]
  {
  }

  /** Running the middleware twice leaves the headers as running it once. */
  lemma StrippedIdempotent(headers: map<string, HeaderValue>)
    ensures Stripped(Stripped(headers)) == Stripped(headers)
  {
    var once := Stripped(headers);
    assert forall name :: name in once ==> !Deleted(once, name);
  }

  /** One test of the callback: delete `name` if it holds a truthy value. */
  function DeleteIfTruthy(headers: map<string, HeaderValue>, name: string): (r: map<string, HeaderValue>)
    ensures name in r <==> name in headers && !IsTruthy(headers[name])
    ensures forall n :: n in r ==> n in headers && r[n] == headers[n]
    ensures forall n :: n != name && n in headers ==> n in r
  {
    if name in headers && IsTruthy(headers[name]) then headers - {name} else headers
  }

  /** The three tests in a row delete exactly the headers `Stripped` drops. */
  lemma ThreeTestsStrip(headers: map<string, HeaderValue>)
    ensures DeleteIfTruthy(DeleteIfTruthy(DeleteIfTruthy(headers, FrameOptions), SecurityPolicy), TypeOptions)
      == Stripped(headers)
  {
    var h1 := DeleteIfTruthy(headers, FrameOptions);
    var h2 := DeleteIfTruthy(h1, SecurityPolicy);
    var h3 := DeleteIfTruthy(h2, TypeOptions);
    assert forall name :: name in h3 <==> name in headers && !Deleted(headers, name);
  }

  /** The `data` object the Unblocker library hands to each response middleware. */
  class ResponseData {
    var headers: map<string, HeaderValue>

    constructor(headers: map<string, HeaderValue>)
      ensures this.headers == headers
    {
      this.headers := headers;
    }

    /** The middleware callback: three tests, each deleting its header in place. */
    method StripFramingHeaders()
      modifies this
      ensures headers == Stripped(old(headers))
    {
      ThreeTestsStrip(headers);
      if FrameOptions in headers && IsTruthy(headers[FrameOptions]) {
        headers := headers - {FrameOptions};
      }
      if SecurityPolicy in headers && IsTruthy(headers[SecurityPolicy]) {
        headers := headers - {SecurityPolicy};
      }
      if TypeOptions in headers && IsTruthy(headers[TypeOptions]) {
        headers := headers - {TypeOptions};
      }
    }
  }
}
