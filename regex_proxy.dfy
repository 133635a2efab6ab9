/**
 * The Express proxy of `src/server.js`: the `/proxy` route's decisions, the
 * forwarding of upstream headers, and the regular-expression rewriter that
 * points `href`, `src` and `action` values of an HTML page back at the proxy.
 */
module RegexProxy {
  import opened Wrappers
  import opened Text
  import opened UriComponent
  import opened WebUrl
  import opened ProxyRoute

  // ---------------------------------------------------------------------------
  // The pattern /(href|src|action)=(['"])(.*?)\2/gi

  /** The characters `.` does not match. */
  predicate IsLineTerminator(c: char) {
    c == '\n' || c == '\r' || c == '\U{2028}' || c == '\U{2029}'
  }

  predicate IsQuote(c: char) {
    c == '\'' || c == '"'
  }

  /** `href|src|action` under the `i` flag. */
  predicate IsAttributeName(a: string) {
    var l := ToLower(a);
    l == "href" || l == "src" || l == "action"
  }

  /** One match: the attribute as spelt, the quote, and the text between the quotes. */
  datatype Match = Match(attr: string, quote: char, value: string) {
    function Matched(): string {
      attr + "=" + [quote] + value + [quote]
    }
  }

  /** `q` at `j` closes a value opened at `i`: no quote `q` and no line terminator comes before it. */
  predicate ClosesAt(s: string, i: nat, j: nat, q: char) {
    && i <= j < |s| && s[j] == q
    && forall k :: i <= k < j ==> s[k] != q && !IsLineTerminator(s[k])
  }

  /**
   * `m` is a match of the pattern starting at `p`: a name, `=`, a quote, and
   * the value up to the first closing quote of the same kind, with no line
   * terminator in between (the lazy `.*?` stops at the first closing quote).
   */
  predicate IsMatchAt(s: string, p: nat, m: Match) {
    var e := p + |m.attr|;
    && IsAttributeName(m.attr)
    && IsQuote(m.quote)
    && OccursAt(s, m.attr, p)
    && e + 1 < |s| && s[e] == '=' && s[e + 1] == m.quote
    && OccursAt(s, m.value, e + 2)
    && ClosesAt(s, e + 2, e + 2 + |m.value|, m.quote)
  }

  /** The text a match covers is the match's own spelling. */
  lemma MatchedAt(s: string, p: nat, m: Match)
    requires IsMatchAt(s, p, m)
    ensures OccursAt(s, m.Matched(), p)
  {
    var t := m.Matched();
    var n := |m.attr|;
    forall k | 0 <= k < |t| ensures s[p + k] == t[k] {
      if k < n {
        assert t[k] == m.attr[k] == s[p..p + n][k];
      } else if n + 2 <= k < n + 2 + |m.value| {
        assert t[k] == m.value[k - n - 2] == s[p + n + 2..p + n + 2 + |m.value|][k - n - 2];
      }
    }
  }

  /** A match's own spelling is a match of the pattern. */
  lemma MatchedIsMatch(m: Match)
    requires IsAttributeName(m.attr) && IsQuote(m.quote)
    requires forall k :: 0 <= k < |m.value| ==> m.value[k] != m.quote && !IsLineTerminator(m.value[k])
    ensures IsMatchAt(m.Matched(), 0, m)
  {
    var t := m.Matched();
    var n := |m.attr|;
    assert t[..n] == m.attr;
    assert t[n + 2..n + 2 + |m.value|] == m.value;
    forall k | n + 2 <= k < n + 2 + |m.value| ensures t[k] != m.quote && !IsLineTerminator(t[k]) {
      assert t[k] == m.value[k - n - 2];
    }
  }

  lemma LowerHead(a: string, name: string)
    requires ToLower(a) == name && name != []
    ensures |a| == |name| && LowerChar(a[0]) == name[0]
  {
    assert ToLower(a)[0] == name[0];
  }

  lemma NameLength(a: string)
    requires IsAttributeName(a)
    ensures LowerChar(a[0]) == 'h' ==> ToLower(a) == "href"
    ensures LowerChar(a[0]) == 's' ==> ToLower(a) == "src"
    ensures LowerChar(a[0]) == 'a' ==> ToLower(a) == "action"
  {
    LowerHead(a, ToLower(a));
  }

  /** The alternative of `(href|src|action)` that matches at `p`, as spelt there. */
  function AttributeAt(s: string, p: nat): (r: Option<string>)
    ensures r.Some? ==> IsAttributeName(r.value) && OccursAt(s, r.value, p)
  {
    if p + 4 <= |s| && ToLower(s[p..p + 4]) == "href" then Some(s[p..p + 4])
    else if p + 3 <= |s| && ToLower(s[p..p + 3]) == "src" then Some(s[p..p + 3])
    else if p + 6 <= |s| && ToLower(s[p..p + 6]) == "action" then Some(s[p..p + 6])
    else None
  }

  /** Every name that occurs at `p` is the one `AttributeAt` finds. */
  lemma AttributeAtComplete(s: string, p: nat, a: string)
    requires IsAttributeName(a) && OccursAt(s, a, p)
    ensures AttributeAt(s, p) == Some(a)
  {
    NameLength(a);
    var r := AttributeAt(s, p);
    if r.Some? {
      AttributeUnique(s, p, r.value, a);
    }
  }

  /** `(.*?)\2` from `i`: the first `q`, unless a line terminator comes before it. */
  function CloseQuote(s: string, i: nat, q: char): (r: Option<nat>)
    requires i <= |s|
    requires !IsLineTerminator(q)
    decreases |s| - i
    ensures r.Some? ==> ClosesAt(s, i, r.value, q)
    ensures r.None? ==> forall j :: !ClosesAt(s, i, j, q)
  {
    if i == |s| then None
    else if s[i] == q then Some(i)
    else if IsLineTerminator(s[i]) then
      assert forall j :: !ClosesAt(s, i, j, q) by {
        forall j | i <= j < |s| ensures !ClosesAt(s, i, j, q) {
          if j == i {
            assert s[j] != q;
          } else {
            assert i <= i < j;
          }
        }
      }
      None
    else
      var r := CloseQuote(s, i + 1, q);
      assert forall j :: ClosesAt(s, i, j, q) ==> ClosesAt(s, i + 1, j, q);
      r
  }

  /** A value opened at `i` has one closing quote. */
  lemma ClosesUnique(s: string, i: nat, j: nat, j': nat, q: char)
    requires ClosesAt(s, i, j, q) && ClosesAt(s, i, j', q)
    ensures j == j'
  {
  }

  /** Two names of the alternation cannot both start at one position. */
  lemma AttributeUnique(s: string, p: nat, a: string, b: string)
    requires IsAttributeName(a) && OccursAt(s, a, p)
    requires IsAttributeName(b) && OccursAt(s, b, p)
    ensures a == b
  {
    NameLength(a);
    NameLength(b);
    assert a[0] == s[p] == b[0];
  }

  /** A name, `=`, a quote and a closing quote make a match. */
  lemma MatchFrom(s: string, p: nat, a: string, q: char, j: nat)
    requires IsAttributeName(a) && OccursAt(s, a, p)
    requires p + |a| + 1 < |s| && s[p + |a|] == '=' && s[p + |a| + 1] == q && IsQuote(q)
    requires ClosesAt(s, p + |a| + 2, j, q)
    ensures IsMatchAt(s, p, Match(a, q, s[p + |a| + 2..j]))
    ensures forall m :: IsMatchAt(s, p, m) ==> m == Match(a, q, s[p + |a| + 2..j])
  {
    forall m | IsMatchAt(s, p, m) ensures m == Match(a, q, s[p + |a| + 2..j]) {
      MatchUnique(s, p, m, Match(a, q, s[p + |a| + 2..j]));
    }
  }

  /** At most one match starts at each position. */
  lemma MatchUnique(s: string, p: nat, m: Match, m': Match)
    requires IsMatchAt(s, p, m) && IsMatchAt(s, p, m')
    ensures m == m'
  {
    AttributeUnique(s, p, m.attr, m'.attr);
    var e := p + |m.attr|;
    ClosesUnique(s, e + 2, e + 2 + |m.value|, e + 2 + |m'.value|, m.quote);
    assert m.value == s[e + 2..e + 2 + |m.value|] == m'.value;
  }

  /** Without a name at `p` there is no match at `p`. */
  lemma NoMatchWithoutName(s: string, p: nat)
    requires AttributeAt(s, p).None?
    ensures forall m :: !IsMatchAt(s, p, m)
  {
    forall m ensures !IsMatchAt(s, p, m) {
      if IsMatchAt(s, p, m) {
        AttributeAtComplete(s, p, m.attr);
      }
    }
  }

  /** Without `=` and a quote after the name there is no match at `p`. */
  lemma NoMatchWithoutQuote(s: string, p: nat, a: string)
    requires AttributeAt(s, p) == Some(a)
    requires !(p + |a| + 1 < |s| && s[p + |a|] == '=' && IsQuote(s[p + |a| + 1]))
    ensures forall m :: !IsMatchAt(s, p, m)
  {
    forall m ensures !IsMatchAt(s, p, m) {
      if IsMatchAt(s, p, m) {
        AttributeAtComplete(s, p, m.attr);
      }
    }
  }

  /** Without a closing quote there is no match at `p`. */
  lemma NoMatchWithoutClose(s: string, p: nat, a: string, i: nat, q: char)
    requires AttributeAt(s, p) == Some(a)
    requires i == p + |a| + 2 <= |s| && q == s[i - 1]
    requires forall j :: !ClosesAt(s, i, j, q)
    ensures forall m :: !IsMatchAt(s, p, m)
  {
    forall m ensures !IsMatchAt(s, p, m) {
      if IsMatchAt(s, p, m) {
        AttributeAtComplete(s, p, m.attr);
      }
    }
  }

  /** The match of the pattern that starts at `p`, if any. */
  function MatchAt(s: string, p: nat): (r: Option<Match>)
    ensures r.Some? ==> IsMatchAt(s, p, r.value)
    ensures forall m :: IsMatchAt(s, p, m) ==> r == Some(m)
  {
    match AttributeAt(s, p)
    case None =>
      NoMatchWithoutName(s, p);
      None
    case Some(a) => MatchAfterName(s, p, a)
  }

  /** The rest of the match attempt once the alternation has picked the name `a`: `=` and a quote must follow. */
  function MatchAfterName(s: string, p: nat, a: string): (r: Option<Match>)
    requires AttributeAt(s, p) == Some(a)
    ensures r.Some? ==> IsMatchAt(s, p, r.value)
    ensures forall m :: IsMatchAt(s, p, m) ==> r == Some(m)
  {
    var e := p + |a|;
    if e + 1 < |s| && s[e] == '=' && IsQuote(s[e + 1]) then
      MatchAfterQuote(s, p, a)
    else
      NoMatchWithoutQuote(s, p, a);
      None
  }

  /** The last step of the match attempt: the lazy value runs up to the closing quote. */
  function MatchAfterQuote(s: string, p: nat, a: string): (r: Option<Match>)
    requires AttributeAt(s, p) == Some(a)
    requires p + |a| + 1 < |s| && s[p + |a|] == '=' && IsQuote(s[p + |a| + 1])
    ensures r.Some? ==> IsMatchAt(s, p, r.value)
    ensures forall m :: IsMatchAt(s, p, m) ==> r == Some(m)
  {
    var e := p + |a|;
    var q := s[e + 1];
    match CloseQuote(s, e + 2, q)
    case None =>
      NoMatchWithoutClose(s, p, a, e + 2, q);
      None
    case Some(j) =>
      MatchFrom(s, p, a, q, j);
      Some(Match(a, q, s[e + 2..j]))
  }

  // ---------------------------------------------------------------------------
  // rewriteHtml and replaceUrl

  /** Values `replaceUrl` returns untouched without resolving them. */
  predicate Exempt(value: string) {
    value == "" || StartsWith(value, "data:") || StartsWith(value, "#")
  }

  /** `replaceUrl`: the replacement for one match. */
  function ReplaceUrl(m: Match, baseUrl: string, parse: BasicUrlParser): (r: string)
    ensures Exempt(m.value) || NewUrl(parse, m.value, Some(baseUrl)).None? ==> r == m.Matched()
    ensures !Exempt(m.value) && NewUrl(parse, m.value, Some(baseUrl)).Some? ==>
      r == Match(m.attr, m.quote, ProxyAddress(NewUrl(parse, m.value, Some(baseUrl)).value)).Matched()
  {
    if m.value == "" then m.Matched()
    else if StartsWith(m.value, "data:") || StartsWith(m.value, "#") then m.Matched()
    else
      match NewUrl(parse, m.value, Some(baseUrl))
      case None => m.Matched()
      case Some(absoluteUrl) => m.attr + "=" + [m.quote] + ProxyPrefix + Encode(absoluteUrl) + [m.quote]
  }

  /** A match and where it starts. */
  datatype Found = Found(pos: nat, m: Match) {
    function End(): nat {
      pos + |m.Matched()|
    }
  }

  /** Matches that follow each other from `from` on without overlapping and end by `n`. */
  ghost predicate InOrder(n: nat, from: nat, ms: seq<Found>)
    decreases |ms|
  {
    ms == [] || (from <= ms[0].pos && ms[0].End() <= n && InOrder(n, ms[0].End(), ms[1..]))
  }

  /**
   * The scan of `String.prototype.replace` with a global pattern over the
   * positions `from` to `n`, `next(q)` being the match that starts at `q`, if
   * any: a match found is taken and the scan resumes after it (matches are
   * never empty); otherwise it moves on by one position.
   */
  function Scan(n: nat, next: nat -> Option<Match>, from: nat): (ms: seq<Found>)
    decreases if from < n then n - from else 0
    ensures forall i :: 0 <= i < |ms| ==> from <= ms[i].pos < n && next(ms[i].pos) == Some(ms[i].m)
  {
    if from >= n then []
    else match next(from)
      case Some(m) => [Found(from, m)] + Scan(n, next, from + |m.Matched()|)
      case None => Scan(n, next, from + 1)
  }

  /** The scan skips no match: every match at or after `from` lies inside a listed one. */
  lemma {:induction false} ScanCovers(n: nat, next: nat -> Option<Match>, from: nat, p: nat) returns (i: nat)
    requires from <= p < n && next(p).Some?
    ensures i < |Scan(n, next, from)|
    ensures Scan(n, next, from)[i].pos <= p < Scan(n, next, from)[i].End()
    decreases n - from
  {
    var ms := Scan(n, next, from);
    match next(from)
    case Some(m) =>
      var end := from + |m.Matched()|;
      assert ms == [Found(from, m)] + Scan(n, next, end);
      if end <= p {
        var k := ScanCovers(n, next, end, p);
        i := k + 1;
      } else {
        i := 0;
      }
    case None =>
      i := ScanCovers(n, next, from + 1, p);
  }

  /** The pattern's match at each position. */
  function MatchesOf(s: string): nat -> Option<Match> {
    (q: nat) => MatchAt(s, q)
  }

  /** The matches of the global pattern from `from` on, as `replace` visits them. */
  function Matches(s: string, from: nat): (ms: seq<Found>)
    requires from <= |s|
    ensures InOrder(|s|, from, ms)
    ensures forall i :: 0 <= i < |ms| ==> IsMatchAt(s, ms[i].pos, ms[i].m)
  {
    MatchesFit(s);
    ScanInOrder(|s|, MatchesOf(s), from);
    Scan(|s|, MatchesOf(s), from)
  }

  /** Matches that `next` finds end by `n`. */
  ghost predicate Fits(n: nat, next: nat -> Option<Match>) {
    forall q: nat :: q < n && next(q).Some? ==> q + |next(q).value.Matched()| <= n
  }

  /** The pattern's matches end within the text. */
  lemma MatchesFit(s: string)
    ensures Fits(|s|, MatchesOf(s))
  {
    forall q: nat | q < |s| && MatchesOf(s)(q).Some?
      ensures q + |MatchesOf(s)(q).value.Matched()| <= |s|
    {
      MatchedAt(s, q, MatchAt(s, q).value);
    }
  }

  /** A scan whose matches fit lists them in order. */
  lemma {:induction false} ScanInOrder(n: nat, next: nat -> Option<Match>, from: nat)
    requires from <= n && Fits(n, next)
    ensures InOrder(n, from, Scan(n, next, from))
    decreases n - from
  {
    var ms := Scan(n, next, from);
    if from < n {
      match next(from)
      case Some(m) =>
        var end := from + |m.Matched()|;
        ScanInOrder(n, next, end);
        assert ms[1..] == Scan(n, next, end);
      case None =>
        ScanInOrder(n, next, from + 1);
    }
  }

  /**
   * The scan skips no match: a match that starts at or after `from` either is
   * listed or starts inside a listed match.
   */
  lemma MatchesComplete(s: string, from: nat, p: nat)
    requires from <= p < |s| && MatchAt(s, p).Some?
    ensures exists i :: 0 <= i < |Matches(s, from)| && Matches(s, from)[i].pos <= p < Matches(s, from)[i].End()
  {
    var i := ScanCovers(|s|, MatchesOf(s), from, p);
    var ms := Matches(s, from);
    assert ms == Scan(|s|, MatchesOf(s), from);
    assert 0 <= i < |ms| && ms[i].pos <= p < ms[i].End();
  }

  /** A match that starts where the scan starts is the first one listed. */
  lemma MatchesFirst(s: string, from: nat, m: Match)
    requires from <= |s| && IsMatchAt(s, from, m)
    ensures |Matches(s, from)| > 0 && Matches(s, from)[0] == Found(from, m)
  {
  }

  /** The text from `from` on with each of `ms` replaced by what `replacer` returns for it. */
  function Splice(s: string, from: nat, ms: seq<Found>, replacer: Match -> string): string
    requires from <= |s| && InOrder(|s|, from, ms)
    decreases |ms|
  {
    if ms == [] then s[from..]
    else s[from..ms[0].pos] + replacer(ms[0].m) + Splice(s, ms[0].End(), ms[1..], replacer)
  }

  /** `s.replace(regex, replacer)` */
  function Replace(s: string, replacer: Match -> string): string {
    Splice(s, 0, Matches(s, 0), replacer)
  }

  /** `replaceUrl` as the replacer `rewriteHtml` hands to `replace`. */
  function UrlReplacer(baseUrl: string, parse: BasicUrlParser): Match -> string {
    m => ReplaceUrl(m, baseUrl, parse)
  }

  /** `rewriteHtml(html, baseUrl)` */
  function RewriteHtml(html: string, baseUrl: string, parse: BasicUrlParser): string {
    Replace(html, UrlReplacer(baseUrl, parse))
  }

  /** Taking off the first match shifts every later index by one. */
  lemma ShiftTail(ms: seq<Found>, i: nat)
    requires 0 < i < |ms|
    ensures ms[1..][i - 1] == ms[i] && ms[1..][i..] == ms[i + 1..]
    ensures ms[..i][0] == ms[0] && ms[..i][1..] == ms[1..][..i - 1]
  {
  }

  /** A slice of a prefix is the same slice of the whole. */
  lemma SliceOfPrefix(s: string, p: nat, a: nat, b: nat)
    requires a <= b <= p <= |s|
    ensures s[..p][a..b] == s[a..b]
  {
  }

  /** Matches in order split at any one of them into the matches before it and those after it. */
  lemma {:induction false} InOrderAt(n: nat, from: nat, ms: seq<Found>, i: nat)
    requires InOrder(n, from, ms) && i < |ms|
    ensures from <= ms[i].pos <= ms[i].End() <= n
    ensures InOrder(ms[i].pos, from, ms[..i]) && InOrder(n, ms[i].End(), ms[i + 1..])
    decreases i
  {
    if i == 0 {
      assert ms[..0] == [] && ms[1..] == ms[i + 1..];
    } else {
      InOrderAt(n, ms[0].End(), ms[1..], i - 1);
      ShiftTail(ms, i);
    }
  }

  /** The splice with its first match taken off. */
  lemma SpliceFirst(s: string, from: nat, ms: seq<Found>, replacer: Match -> string)
    requires from <= |s| && InOrder(|s|, from, ms) && ms != []
    ensures Splice(s, from, ms, replacer)
      == (s[from..ms[0].pos] + replacer(ms[0].m)) + Splice(s, ms[0].End(), ms[1..], replacer)
  {
  }

  lemma Regroup(head: string, before: string, x: string, after: string)
    ensures head + (before + x + after) == (head + before) + x + after
  {
    AppendAssoc(before, x, after);
    AppendAssoc(head, before + x, after);
    AppendAssoc(head, before, x);
  }

  /**
   * The splice at any one of its matches: the spliced text before the match,
   * the match's replacement, then the spliced text after it.
   */
  lemma {:induction false} SpliceAt(s: string, from: nat, ms: seq<Found>, replacer: Match -> string, i: nat)
    requires from <= |s| && InOrder(|s|, from, ms) && i < |ms|
    ensures from <= ms[i].pos <= ms[i].End() <= |s|
    ensures InOrder(ms[i].pos, from, ms[..i]) && InOrder(|s|, ms[i].End(), ms[i + 1..])
    ensures Splice(s, from, ms, replacer)
      == Splice(s[..ms[i].pos], from, ms[..i], replacer) + replacer(ms[i].m) + Splice(s, ms[i].End(), ms[i + 1..], replacer)
    decreases i
  {
    InOrderAt(|s|, from, ms, i);
    var f := ms[0];
    SpliceFirst(s, from, ms, replacer);
    if i == 0 {
      assert ms[..0] == [] && ms[1..] == ms[i + 1..];
      SliceOfPrefix(s, f.pos, from, f.pos);
      assert s[..f.pos][from..] == s[..f.pos][from..f.pos];
    } else {
      var p := ms[i].pos;
      SpliceAt(s, f.End(), ms[1..], replacer, i - 1);
      ShiftTail(ms, i);
      SpliceFirst(s[..p], from, ms[..i], replacer);
      SliceOfPrefix(s, p, from, f.pos);
      Regroup(s[from..f.pos] + replacer(f.m), Splice(s[..p], f.End(), ms[1..][..i - 1], replacer),
        replacer(ms[i].m), Splice(s, ms[i].End(), ms[i + 1..], replacer));
    }
  }

  /**
   * `replace` replaces every match it lists: the result is the replaced text
   * before the `i`-th match, the replacer's result for it, and the replaced
   * text after it.
   */
  lemma ReplaceEachMatch(s: string, replacer: Match -> string, i: nat)
    requires i < |Matches(s, 0)|
    ensures var ms := Matches(s, 0);
      && ms[i].End() <= |s| && InOrder(ms[i].pos, 0, ms[..i]) && InOrder(|s|, ms[i].End(), ms[i + 1..])
      && Replace(s, replacer)
        == Splice(s[..ms[i].pos], 0, ms[..i], replacer) + replacer(ms[i].m) + Splice(s, ms[i].End(), ms[i + 1..], replacer)
  {
    SpliceAt(s, 0, Matches(s, 0), replacer, i);
  }

  /**
   * Every `href`, `src` and `action` match of the page is rewritten by
   * `replaceUrl`, wherever it stands: the rewritten page is the rewrite of the
   * text before it, its replacement, and the rewrite of the text after it.
   */
  lemma RewriteHtmlEachMatch(html: string, baseUrl: string, parse: BasicUrlParser, i: nat)
    requires i < |Matches(html, 0)|
    ensures var ms := Matches(html, 0);
      && ms[i].End() <= |html| && InOrder(ms[i].pos, 0, ms[..i]) && InOrder(|html|, ms[i].End(), ms[i + 1..])
      && RewriteHtml(html, baseUrl, parse)
        == Splice(html[..ms[i].pos], 0, ms[..i], UrlReplacer(baseUrl, parse))
          + ReplaceUrl(ms[i].m, baseUrl, parse)
          + Splice(html, ms[i].End(), ms[i + 1..], UrlReplacer(baseUrl, parse))
  {
    ReplaceEachMatch(html, UrlReplacer(baseUrl, parse), i);
  }

  /**
   * The rewrite does replace: a page that starts with a match starts, after
   * the rewrite, with that match's replacement.
   */
  lemma RewriteHtmlLeadingMatch(html: string, baseUrl: string, parse: BasicUrlParser, m: Match)
    requires IsMatchAt(html, 0, m)
    ensures StartsWith(RewriteHtml(html, baseUrl, parse), ReplaceUrl(m, baseUrl, parse))
  {
    MatchesFirst(html, 0, m);
    var ms := Matches(html, 0);
    var r := ReplaceUrl(m, baseUrl, parse);
    var rest := Splice(html, ms[0].End(), ms[1..], UrlReplacer(baseUrl, parse));
    assert html[0..0] == [];
    assert RewriteHtml(html, baseUrl, parse) == [] + r + rest;
    assert ([] + r + rest)[..|r|] == r;
  }

  /**
   * Text outside the matches is copied as it is: when every match is replaced
   * by itself, the text comes out unchanged.
   */
  lemma {:induction false} SpliceIdentity(s: string, from: nat, ms: seq<Found>, replacer: Match -> string)
    requires from <= |s| && InOrder(|s|, from, ms)
    requires forall i :: 0 <= i < |ms| ==> OccursAt(s, ms[i].m.Matched(), ms[i].pos)
    requires forall i :: 0 <= i < |ms| ==> replacer(ms[i].m) == ms[i].m.Matched()
    ensures Splice(s, from, ms, replacer) == s[from..]
    decreases |ms|
  {
    if ms != [] {
      var f := ms[0];
      SpliceIdentity(s, f.End(), ms[1..], replacer);
      assert s[f.pos..f.End()] == f.m.Matched();
      SliceJoin(s, from, f.pos, f.End());
      SliceRest(s, from, f.End());
    }
  }

  /** Every match in a page is replaced by itself: the page comes back identical. */
  lemma ReplaceIdentity(s: string, replacer: Match -> string)
    requires forall p, m :: IsMatchAt(s, p, m) ==> replacer(m) == m.Matched()
    ensures Replace(s, replacer) == s
  {
    var ms := Matches(s, 0);
    forall i | 0 <= i < |ms| ensures OccursAt(s, ms[i].m.Matched(), ms[i].pos) {
      MatchedAt(s, ms[i].pos, ms[i].m);
    }
    SpliceIdentity(s, 0, ms, replacer);
  }

  /** A page without a single `href`, `src` or `action` match comes back identical. */
  lemma NoMatchNoChange(html: string, baseUrl: string, parse: BasicUrlParser)
    requires forall p, m :: !IsMatchAt(html, p, m)
    ensures RewriteHtml(html, baseUrl, parse) == html
  {
    ReplaceIdentity(html, UrlReplacer(baseUrl, parse));
  }

  /**
   * A page whose every matched value is empty, a `data:` URI or a fragment, or
   * cannot be resolved against the base, comes back identical.
   */
  lemma ExemptValuesNoChange(html: string, baseUrl: string, parse: BasicUrlParser)
    requires forall p, m :: IsMatchAt(html, p, m) ==> Exempt(m.value) || NewUrl(parse, m.value, Some(baseUrl)).None?
    ensures RewriteHtml(html, baseUrl, parse) == html
  {
    var replacer := UrlReplacer(baseUrl, parse);
    forall p, m | IsMatchAt(html, p, m) ensures replacer(m) == m.Matched() {
      KeptMatch(m, baseUrl, parse);
    }
    ReplaceIdentity(html, replacer);
  }

  /** `replaceUrl` returns an exempt or unresolvable match as it is. */
  lemma KeptMatch(m: Match, baseUrl: string, parse: BasicUrlParser)
    requires Exempt(m.value) || NewUrl(parse, m.value, Some(baseUrl)).None?
    ensures ReplaceUrl(m, baseUrl, parse) == m.Matched()
  {
  }

  /** The proxy address of a URL holds no line terminator, and no `q` unless `q` is `'` and so is a character of the URL. */
  lemma ProxyAddressFitsQuote(url: string, q: char)
    requires q == '"' || forall i :: 0 <= i < |url| ==> url[i] != '\''
    requires IsQuote(q)
    ensures forall k :: 0 <= k < |ProxyAddress(url)| ==>
      ProxyAddress(url)[k] != q && !IsLineTerminator(ProxyAddress(url)[k])
  {
    var v := ProxyAddress(url);
    assert ProxyPrefix == ['/', 'p', 'r', 'o', 'x', 'y', '?', 'u', 'r', 'l', '='];
    if q == '\'' {
      EncodeLacks(url, '\'');
    }
    forall k | 0 <= k < |v| ensures v[k] != q && !IsLineTerminator(v[k]) {
      if k < |ProxyPrefix| {
        assert v[k] == ProxyPrefix[k];
      } else {
        var c := Encode(url)[k - |ProxyPrefix|];
        assert v[k] == c;
        assert IsEncodedChar(c);
      }
    }
  }


  /**
   * A replaced match is again one match of the pattern, with the same
   * attribute spelling and quote and the proxy address of the resolved URL as
   * its value, whose `url` parameter reads back as that URL. This holds for a
   * double quote always, and for a single quote when the resolved URL has no
   * `'` (which `encodeURIComponent` leaves in place).
   */
  lemma ReplacedMatchIsProxyAddress(m: Match, baseUrl: string, parse: BasicUrlParser, absoluteUrl: string)
    requires IsAttributeName(m.attr) && IsQuote(m.quote)
    requires !Exempt(m.value)
    requires NewUrl(parse, m.value, Some(baseUrl)) == Some(absoluteUrl)
    requires m.quote == '"' || forall i :: 0 <= i < |absoluteUrl| ==> absoluteUrl[i] != '\''
    ensures var r := ReplaceUrl(m, baseUrl, parse);
      && r == Match(m.attr, m.quote, ProxyAddress(absoluteUrl)).Matched()
      && MatchAt(r, 0) == Some(Match(m.attr, m.quote, ProxyAddress(absoluteUrl)))
      && SearchParamGet(SearchOf(ProxyAddress(absoluteUrl)), "url") == Some(absoluteUrl)
  {
    var v := ProxyAddress(absoluteUrl);
    var m' := Match(m.attr, m.quote, v);
    assert ReplaceUrl(m, baseUrl, parse) == m'.Matched();
    ProxyAddressFitsQuote(absoluteUrl, m.quote);
    MatchedIsMatch(m');
    ProxyAddressTarget(absoluteUrl);
  }

  // ---------------------------------------------------------------------------
  // The /proxy route

  /**
   * The decisions of the `/proxy` route before any request leaves: the `url`
   * query parameter (missing or empty are both falsy) is required, a target
   * naming the blocked host is refused before it is even validated, a target
   * that parses is fetched, and one that parses only with `https://` in front
   * is redirected to the proxy address of that form.
   */
  function Route(url: Option<string>, parse: BasicUrlParser): (r: Outcome)
    ensures r == BadRequest("URL is required") <==> !Truthy(url)
    ensures r.Forbidden? <==> Truthy(url) && Contains(url.value, BlockedHost)
    ensures r.Fetch? <==>
      Truthy(url) && !Contains(url.value, BlockedHost) && parse(url.value, None).Some?
    ensures r.Fetch? ==> r.target == url.value
    ensures r.Redirect? <==>
      && Truthy(url) && !Contains(url.value, BlockedHost)
      && parse(url.value, None).None? && parse("https://" + url.value, None).Some?
    ensures r.Redirect? ==> r.location == ProxyAddress("https://" + url.value)
    ensures r == BadRequest("Invalid URL") <==>
      && Truthy(url) && !Contains(url.value, BlockedHost)
      && parse(url.value, None).None? && parse("https://" + url.value, None).None?
  {
    if !Truthy(url) then BadRequest("URL is required")
    else if Contains(url.value, BlockedHost) then Forbidden("Access to this domain is blocked by policy.")
    else if NewUrl(parse, url.value, None).Some? then Fetch(url.value)
    else
      var fixedUrl := "https://" + url.value;
      if NewUrl(parse, fixedUrl, None).Some? then Redirect(ProxyAddress(fixedUrl))
      else BadRequest("Invalid URL")
  }

  /** Text that starts with no character of `p`'s can only occur in `p + t` inside `t`. */
  lemma ContainsAfterPrefix(p: string, t: string, b: string)
    requires b != [] && forall i :: 0 <= i < |p| ==> p[i] != b[0]
    requires Contains(p + t, b)
    ensures Contains(t, b)
  {
    var i := IndexOf(p + t, b).value;
    assert (p + t)[i] == b[0];
    assert i >= |p|;
    var j := i - |p|;
    assert j + |b| <= |t|;
    forall k | 0 <= k < |b| ensures t[j + k] == b[k] {
      assert (p + t)[i..i + |b|][k] == b[k];
    }
    assert OccursAt(t, b, j);
    ContainsIff(t, b);
  }

  /**
   * Following the redirect leads to a fetch: the route, given the `url`
   * parameter of the redirect's location, fetches the repaired target.
   */
  lemma RedirectLeadsToFetch(url: Option<string>, parse: BasicUrlParser)
    requires Route(url, parse).Redirect?
    ensures var next := SearchParamGet(SearchOf(Route(url, parse).location), "url");
      next == Some("https://" + url.value) && Route(next, parse) == Fetch("https://" + url.value)
  {
    var fixedUrl := "https://" + url.value;
    ProxyAddressTarget(fixedUrl);
    BlockedHostNotAdded(url.value);
  }

  /** Putting `https://` in front of a target does not make it name the blocked host. */
  lemma BlockedHostNotAdded(t: string)
    requires !Contains(t, BlockedHost)
    ensures !Contains("https://" + t, BlockedHost)
  {
    assert BlockedHost[0] == 'c';
    assert forall i :: 0 <= i < |"https://"| ==> "https://"[i] != 'c' by {
      assert "https://" == ['h', 't', 't', 'p', 's', ':', '/', '/'];
    }
    if Contains("https://" + t, BlockedHost) {
      ContainsAfterPrefix("https://", t, BlockedHost);
    }
  }

  // ---------------------------------------------------------------------------
  // Forwarding the upstream headers

  datatype Header = Header(name: string, value: string)

  /** The headers not copied to the reply, compared in lower case. */
  const SkippedHeaders: seq<string> := ["content-length", "content-encoding", "transfer-encoding"]

  predicate Skipped(name: string) {
    ToLower(name) in SkippedHeaders
  }

  /**
   * The reply's header store, as Node keeps it: names are compared without
   * case and stored lower-cased, and setting a name again replaces its value.
   */
  class ServerResponse {
    var headers: map<string, string>

    constructor ()
      ensures headers == map[]
    {
      headers := map[];
    }

    /** `res.setHeader(name, value)` */
    method SetHeader(name: string, value: string)
      modifies this
      ensures headers == old(headers)[ToLower(name) := value]
    {
      headers := headers[ToLower(name) := value];
    }
  }

  /** The header store after copying `hs` in order into `out`, skipping the listed ones. */
  function ForwardAll(out: map<string, string>, hs: seq<Header>): map<string, string>
    decreases |hs|
  {
    if hs == [] then out
    else ForwardAll(if Skipped(hs[0].name) then out else out[ToLower(hs[0].name) := hs[0].value], hs[1..])
  }

  /** The `forEach` over the upstream header names. */
  method ForwardHeaders(res: ServerResponse, hs: seq<Header>)
    modifies res
    ensures res.headers == ForwardAll(old(res.headers), hs)
  {
    var i := 0;
    while i < |hs|
      invariant 0 <= i <= |hs|
      invariant ForwardAll(res.headers, hs[i..]) == ForwardAll(old(res.headers), hs)
    {
      assert hs[i..][1..] == hs[i + 1..];
      if !Skipped(hs[i].name) {
        res.SetHeader(hs[i].name, hs[i].value);
      }
      i := i + 1;
    }
  }

  /** Upstream header names are distinct even without case, as in an object of lower-cased keys. */
  predicate DistinctNames(hs: seq<Header>) {
    forall i, j :: 0 <= i < j < |hs| ==> ToLower(hs[i].name) != ToLower(hs[j].name)
  }

  /**
   * What forwarding keeps: a skipped name is never added, every other header
   * is present under its lower-cased name, and nothing else is added.
   */
  lemma {:induction false} ForwardAllKeys(out: map<string, string>, hs: seq<Header>)
    ensures forall k :: k in ForwardAll(out, hs) <==>
      k in out || exists i :: 0 <= i < |hs| && !Skipped(hs[i].name) && ToLower(hs[i].name) == k
    ensures forall k :: k in SkippedHeaders && k in out ==> ForwardAll(out, hs)[k] == out[k]
    decreases |hs|
  {
    if hs != [] {
      var out' := if Skipped(hs[0].name) then out else out[ToLower(hs[0].name) := hs[0].value];
      ForwardAllKeys(out', hs[1..]);
      forall k ensures k in ForwardAll(out, hs) <==>
        k in out || exists i :: 0 <= i < |hs| && !Skipped(hs[i].name) && ToLower(hs[i].name) == k
      {
        if exists i :: 0 <= i < |hs[1..]| && !Skipped(hs[1..][i].name) && ToLower(hs[1..][i].name) == k {
          var i :| 0 <= i < |hs[1..]| && !Skipped(hs[1..][i].name) && ToLower(hs[1..][i].name) == k;
          assert hs[i + 1] == hs[1..][i];
        }
        if exists i :: 0 <= i < |hs| && !Skipped(hs[i].name) && ToLower(hs[i].name) == k {
          var i :| 0 <= i < |hs| && !Skipped(hs[i].name) && ToLower(hs[i].name) == k;
          if i > 0 {
            assert hs[1..][i - 1] == hs[i];
          }
        }
      }
    }
  }

  /** With distinct names, every header that is not skipped keeps its value. */
  lemma {:induction false} ForwardAllValues(out: map<string, string>, hs: seq<Header>)
    requires DistinctNames(hs)
    ensures forall i :: 0 <= i < |hs| && !Skipped(hs[i].name) ==>
      ToLower(hs[i].name) in ForwardAll(out, hs) && ForwardAll(out, hs)[ToLower(hs[i].name)] == hs[i].value
    decreases |hs|
  {
    if hs != [] {
      var out' := if Skipped(hs[0].name) then out else out[ToLower(hs[0].name) := hs[0].value];
      assert DistinctNames(hs[1..]) by {
        forall i, j | 0 <= i < j < |hs[1..]| ensures ToLower(hs[1..][i].name) != ToLower(hs[1..][j].name) {
          assert hs[1..][i] == hs[i + 1] && hs[1..][j] == hs[j + 1];
        }
      }
      ForwardAllValues(out', hs[1..]);
      ForwardAllKeys(out', hs[1..]);
      forall i | 0 <= i < |hs| && !Skipped(hs[i].name)
        ensures ToLower(hs[i].name) in ForwardAll(out, hs) && ForwardAll(out, hs)[ToLower(hs[i].name)] == hs[i].value
      {
        if i > 0 {
          assert hs[1..][i - 1] == hs[i];
        } else {
          ForwardAllUntouched(out', hs[1..], ToLower(hs[0].name));
        }
      }
    }
  }

  /** A name that no later header carries keeps the value it had. */
  lemma {:induction false} ForwardAllUntouched(out: map<string, string>, hs: seq<Header>, k: string)
    requires forall i :: 0 <= i < |hs| ==> ToLower(hs[i].name) != k
    ensures k in out ==> k in ForwardAll(out, hs) && ForwardAll(out, hs)[k] == out[k]
    decreases |hs|
  {
    if hs != [] {
      var out' := if Skipped(hs[0].name) then out else out[ToLower(hs[0].name) := hs[0].value];
      ForwardAllUntouched(out', hs[1..], k);
    }
  }

  // ---------------------------------------------------------------------------
  // Relaying the fetched page

  datatype Fetched =
    | Received(headers: seq<Header>, body: string)
    | Failed(message: string)

  datatype Reply = Reply(status: int, body: string)

  /** `response.headers['content-type'] || ''` */
  function ContentType(hs: seq<Header>): (r: string)
    ensures (forall i :: 0 <= i < |hs| ==> hs[i].name != "content-type") ==> r == ""
    ensures forall i ::
      (0 <= i < |hs| && hs[i].name == "content-type" && forall j :: 0 <= j < i ==> hs[j].name != "content-type")
      ==> r == hs[i].value
  {
    if hs == [] then ""
    else if hs[0].name == "content-type" then hs[0].value
    else ContentType(hs[1..])
  }

  /**
   * What the route sends for a target it fetched: the upstream status is not
   * relayed (the reply is 200), the headers are forwarded, and an HTML page is
   * rewritten against the target; a failed fetch is a 500 with the error text.
   */
  method Relay(res: ServerResponse, targetUrl: string, fetched: Fetched, parse: BasicUrlParser) returns (reply: Reply)
    modifies res
    ensures fetched.Failed? ==> res.headers == old(res.headers)
    ensures fetched.Failed? ==> reply == Reply(500, "Error fetching URL: " + fetched.message)
    ensures fetched.Received? ==> res.headers == ForwardAll(old(res.headers), fetched.headers)
    ensures fetched.Received? ==> reply.status == 200
    ensures fetched.Received? && Contains(ContentType(fetched.headers), "text/html") ==>
      reply.body == RewriteHtml(fetched.body, targetUrl, parse)
    ensures fetched.Received? && !Contains(ContentType(fetched.headers), "text/html") ==>
      reply.body == fetched.body
  {
    if fetched.Failed? {
      return Reply(500, "Error fetching URL: " + fetched.message);
    }
    ForwardHeaders(res, fetched.headers);
    var contentType := ContentType(fetched.headers);
    if Contains(contentType, "text/html") {
      reply := Reply(200, RewriteHtml(fetched.body, targetUrl, parse));
    } else {
      reply := Reply(200, fetched.body);
    }
  }
}
