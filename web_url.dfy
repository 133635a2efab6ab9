/**
 * URL parsing, which the proxy delegates to the platform's `URL` class, and the
 * one proxy-addressed form that every rewriter of the project produces.
 */
module WebUrl {
  import opened Wrappers
  import opened Text
  import opened UriComponent

  /**
   * The basic URL parser (section 4.4 of the WHATWG URL Standard), kept
   * abstract: it takes an input string and, optionally, the serialization of an
   * already parsed base URL, and gives the serialization (`href`) of the parsed
   * URL, or `None` for failure.
   */
  type BasicUrlParser = (string, Option<string>) -> Option<string>

  /**
   * Empty input without a base has no scheme, and the URL Standard's parser
   * fails on it; a parser that behaves so is all some properties need.
   */
  predicate RejectsEmptyWithoutBase(parse: BasicUrlParser) {
    parse("", None) == None
  }

  /**
   * `new URL(input, base).href`, or `None` where the constructor throws: a base
   * that is given is parsed first, and if that fails the constructor throws
   * without looking at `input`.
   */
  function NewUrl(parse: BasicUrlParser, input: string, base: Option<string>): (r: Option<string>)
    ensures base.None? ==> r == parse(input, None)
    ensures base.Some? && parse(base.value, None).None? ==> r.None?
    ensures base.Some? && parse(base.value, None).Some? ==> r == parse(input, parse(base.value, None))
  {
    match base
    case None => parse(input, None)
    case Some(b) =>
      match parse(b, None)
      case None => None
      case Some(baseHref) => parse(input, Some(baseHref))
  }

  /** The prefix every proxy-addressed reference starts with. */
  const ProxyPrefix := "/proxy?url="

  /** `'/proxy?url=' + encodeURIComponent(target)` */
  function ProxyAddress(target: string): (r: string)
    ensures StartsWith(r, ProxyPrefix)
    ensures forall i :: |ProxyPrefix| <= i < |r| ==> IsEncodedChar(r[i])
  {
    ProxyPrefix + Encode(target)
  }

  /** A reference without its fragment: everything before the first `#`. */
  function WithoutFragment(ref: string): (r: string)
    ensures StartsWith(ref, r) && Lacks(r, '#')
    ensures Lacks(ref, '#') ==> r == ref
  {
    IndexOfChar(ref, '#');
    match IndexOf(ref, "#")
    case None => ref
    case Some(k) => ref[..k]
  }

  /** The path of a reference: what comes before its query and its fragment. */
  function PathOf(ref: string): (r: string)
    ensures StartsWith(ref, r) && Lacks(r, '?') && Lacks(r, '#')
  {
    var body := WithoutFragment(ref);
    IndexOfChar(body, '?');
    match IndexOf(body, "?")
    case None => body
    case Some(i) =>
      assert body[..i] <= body;
      body[..i]
  }

  /**
   * `location.search` of a page at `ref`: `?` and the query, which runs up to
   * the fragment, or `""` when the query is missing or empty. The address is
   * its path, then its search, then what the search leaves out.
   */
  function SearchOf(ref: string): (r: string)
    ensures r != "" ==> 2 <= |r| && r[0] == '?' && Lacks(r, '#')
    ensures r != "" ==> StartsWith(ref, PathOf(ref) + r)
    ensures Lacks(ref, '?') ==> r == ""
    ensures Lacks(ref, '#') && r != "" ==> ref == PathOf(ref) + r
  {
    var body := WithoutFragment(ref);
    IndexOfChar(body, '?');
    match IndexOf(body, "?")
    case None => ""
    case Some(i) =>
      if i + 1 == |body| then ""
      else
        assert body[..i] + body[i..] == body;
        assert body[i] == '?' && body[i] == ref[i];
        body[i..]
  }

  /** A fragment changes neither the path nor the search of a reference. */
  lemma FragmentIgnored(ref: string, fragment: string)
    requires Lacks(ref, '#')
    ensures PathOf(ref + "#" + fragment) == PathOf(ref)
    ensures SearchOf(ref + "#" + fragment) == SearchOf(ref)
  {
    var whole := ref + "#" + fragment;
    IndexOfChar(whole, '#');
    assert whole[|ref|] == '#';
    var k := IndexOf(whole, "#").value;
    assert k == |ref|;
    assert WithoutFragment(whole) == whole[..|ref|] == ref;
  }

  /** A proxy address has no fragment: `#` is neither in the prefix nor in an encoding. */
  lemma ProxyAddressNoFragment(target: string)
    ensures Lacks(ProxyAddress(target), '#')
  {
    var r := ProxyAddress(target);
    forall i | 0 <= i < |r| ensures r[i] != '#' {
      if i < |ProxyPrefix| {
        assert r[i] == ProxyPrefix[i];
      } else {
        assert IsEncodedChar(r[i]);
      }
    }
  }

  lemma IndexOfProxyPrefix(target: string)
    ensures IndexOf(ProxyAddress(target), "?") == Some(6)
  {
    var r := ProxyAddress(target);
    assert OccursAt(r, "?", 6);
    forall j | 0 <= j < 6 ensures !OccursAt(r, "?", j) {
      assert r[j] == ProxyPrefix[j];
    }
  }

  lemma ProxyAddressParts(target: string)
    ensures PathOf(ProxyAddress(target)) == "/proxy"
    ensures SearchOf(ProxyAddress(target)) == "?url=" + Encode(target)
  {
    var r := ProxyAddress(target);
    ProxyAddressNoFragment(target);
    IndexOfProxyPrefix(target);
    assert r[..6] == "/proxy";
    assert r[6..] == "?url=" + Encode(target);
  }

  /**
   * A proxy-addressed reference leads to the `/proxy` route, and the `url`
   * parameter read back from it is exactly the target it was built from.
   */
  lemma ProxyAddressTarget(target: string)
    ensures PathOf(ProxyAddress(target)) == "/proxy"
    ensures SearchParamGet(SearchOf(ProxyAddress(target)), "url") == Some(target)
  {
    ProxyAddressParts(target);
    UrlParamReadsBack(target);
  }

  lemma UrlParamReadsBack(target: string)
    ensures SearchParamGet("?url=" + Encode(target), "url") == Some(target)
  {
    assert "url"[0] == 'u' && "url"[1] == 'r' && "url"[2] == 'l';
    SearchParamGetEncoded("url", target);
    UrlQueryPrefix();
  }

  lemma UrlQueryPrefix()
    ensures "?" + "url" + "=" == "?url="
  {
  }

  /** Two targets with the same proxy address are the same target. */
  lemma ProxyAddressInjective(a: string, b: string)
    requires ProxyAddress(a) == ProxyAddress(b)
    ensures a == b
  {
    ProxyAddressTarget(a);
    ProxyAddressTarget(b);
  }
}
