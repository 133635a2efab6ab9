/**
 * `encodeURIComponent` (ECMA-262, section 19.2.6.5) and the decoding that reads
 * it back: the application/x-www-form-urlencoded parser behind
 * `URLSearchParams` and Express's query object (section 5.1 of the WHATWG URL
 * Standard).
 */
module UriComponent {
  import opened Wrappers
  import opened Text

  type Byte = b: int | 0 <= b < 256

  /** The characters `encodeURIComponent` leaves as they are. */
  predicate IsUnreserved(c: char) {
    || ('A' <= c <= 'Z') || ('a' <= c <= 'z') || ('0' <= c <= '9')
    || c == '-' || c == '_' || c == '.' || c == '!' || c == '~'
    || c == '*' || c == '\'' || c == '(' || c == ')'
  }

  /** An upper-case hexadecimal digit, as `encodeURIComponent` writes them. */
  function HexDigit(n: int): (c: char)
    requires 0 <= n < 16
    ensures IsUnreserved(c)
  {
    if n < 10 then ('0' as int + n) as char else ('A' as int + n - 10) as char
  }

  /** The value of a hexadecimal digit of either case. */
  function HexValue(c: char): (r: Option<int>)
    ensures r.Some? ==> 0 <= r.value < 16
  {
    if '0' <= c <= '9' then Some(c as int - '0' as int)
    else if 'A' <= c <= 'F' then Some(c as int - 'A' as int + 10)
    else if 'a' <= c <= 'f' then Some(c as int - 'a' as int + 10)
    else None
  }

  lemma HexRoundTrip(n: int)
    requires 0 <= n < 16
    ensures HexValue(HexDigit(n)) == Some(n)
  {
  }

  /** The UTF-8 encoding of one Unicode scalar value. */
  function Utf8(c: char): (bs: seq<Byte>)
    ensures 1 <= |bs| <= 4
    ensures |bs| == 1 <==> c as int < 0x80
    ensures |bs| == 1 ==> bs[0] == c as int
  {
    var n := c as int;
    if n < 0x80 then [n]
    else if n < 0x800 then [0xC0 + n / 64, 0x80 + n % 64]
    else if n < 0x10000 then [0xE0 + n / 4096, 0x80 + (n / 64) % 64, 0x80 + n % 64]
    else [0xF0 + n / 262144, 0x80 + (n / 4096) % 64, 0x80 + (n / 64) % 64, 0x80 + n % 64]
  }

  /** The UTF-8 encoding of a string. */
  function Utf8Bytes(s: string): seq<Byte> {
    if s == [] then [] else Utf8(s[0]) + Utf8Bytes(s[1..])
  }

  predicate IsContinuation(b: Byte) {
    0x80 <= b < 0xC0
  }

  /**
   * The scalar value at the start of `bs` and the number of bytes it takes;
   * `None` for a sequence that is not well-formed UTF-8 (a stray continuation
   * byte, a truncated sequence, an overlong form, a surrogate, or a value
   * above U+10FFFF).
   */
  function DecodeOne(bs: seq<Byte>): (r: Option<(char, nat)>)
    requires bs != []
    ensures r.Some? ==> 1 <= r.value.1 <= |bs|
  {
    var b0 := bs[0] as int;
    if b0 < 0x80 then
      Some((b0 as char, 1))
    else if 0xC0 <= b0 < 0xE0 && |bs| >= 2 && IsContinuation(bs[1]) then
      var cp := (b0 - 0xC0) * 64 + (bs[1] as int - 0x80);
      if cp >= 0x80 then Some((cp as char, 2)) else None
    else if 0xE0 <= b0 < 0xF0 && |bs| >= 3 && IsContinuation(bs[1]) && IsContinuation(bs[2]) then
      var cp := (b0 - 0xE0) * 4096 + (bs[1] as int - 0x80) * 64 + (bs[2] as int - 0x80);
      if cp >= 0x800 && !(0xD800 <= cp < 0xE000) then Some((cp as char, 3)) else None
    else if 0xF0 <= b0 < 0xF8 && |bs| >= 4 && IsContinuation(bs[1]) && IsContinuation(bs[2]) && IsContinuation(bs[3]) then
      var cp := (b0 - 0xF0) * 262144 + (bs[1] as int - 0x80) * 4096 + (bs[2] as int - 0x80) * 64 + (bs[3] as int - 0x80);
      if 0x10000 <= cp <= 0x10FFFF then Some((cp as char, 4)) else None
    else
      None
  }

  /** Strict UTF-8 decoding: `None` unless the whole sequence is well-formed. */
  function Utf8Decode(bs: seq<Byte>): Option<string>
    decreases |bs|
  {
    if bs == [] then Some([])
    else
      match DecodeOne(bs)
      case None => None
      case Some((c, n)) =>
        match Utf8Decode(bs[n..])
        case None => None
        case Some(rest) => Some([c] + rest)
  }

  /** Splitting off the low six bits. */
  lemma Low6(n: int)
    requires n >= 0
    ensures n == (n / 64) * 64 + n % 64 && 0 <= n % 64 < 64
  {
  }

  lemma DecodeTwo(c: char, rest: seq<Byte>)
    requires 0x80 <= c as int < 0x800
    ensures DecodeOne(Utf8(c) + rest) == Some((c, 2))
  {
    Low6(c as int);
  }

  lemma DecodeThree(c: char, rest: seq<Byte>)
    requires 0x800 <= c as int < 0x10000
    ensures DecodeOne(Utf8(c) + rest) == Some((c, 3))
  {
    var n := c as int;
    Low6(n);
    Low6(n / 64);
    assert n / 64 / 64 == n / 4096;
    var bs := Utf8(c) + rest;
    var cp := (bs[0] as int - 0xE0) * 4096 + (bs[1] as int - 0x80) * 64 + (bs[2] as int - 0x80);
    assert cp == n;
  }

  lemma DecodeFour(c: char, rest: seq<Byte>)
    requires 0x10000 <= c as int
    ensures DecodeOne(Utf8(c) + rest) == Some((c, 4))
  {
    var n := c as int;
    Low6(n);
    Low6(n / 64);
    Low6(n / 4096);
    assert n / 64 / 64 == n / 4096;
    assert n / 4096 / 64 == n / 262144;
    var bs := Utf8(c) + rest;
    var cp := (bs[0] as int - 0xF0) * 262144 + (bs[1] as int - 0x80) * 4096 + (bs[2] as int - 0x80) * 64 + (bs[3] as int - 0x80);
    assert cp == n;
  }

  /** Decoding the first character's bytes gives the character and its byte count back. */
  lemma DecodeOneUtf8(c: char, rest: seq<Byte>)
    ensures DecodeOne(Utf8(c) + rest) == Some((c, |Utf8(c)|))
  {
    var n := c as int;
    if n < 0x80 {
    } else if n < 0x800 {
      DecodeTwo(c, rest);
    } else if n < 0x10000 {
      DecodeThree(c, rest);
    } else {
      DecodeFour(c, rest);
    }
  }

  /** Decoding inverts encoding, for every string. */
  lemma {:induction false} Utf8RoundTrip(s: string)
    ensures Utf8Decode(Utf8Bytes(s)) == Some(s)
  {
    if s != [] {
      var bs := Utf8Bytes(s);
      DecodeOneUtf8(s[0], Utf8Bytes(s[1..]));
      assert bs[|Utf8(s[0])|..] == Utf8Bytes(s[1..]);
      Utf8RoundTrip(s[1..]);
      assert [s[0]] + s[1..] == s;
    }
  }

  /** `%XX` for one byte. */
  function PercentByte(b: Byte): string {
    ['%', HexDigit(b / 16), HexDigit(b % 16)]
  }

  function PercentBytes(bs: seq<Byte>): string {
    if bs == [] then [] else PercentByte(bs[0]) + PercentBytes(bs[1..])
  }

  /** One character of `encodeURIComponent`'s output. */
  function EncodeChar(c: char): string {
    if IsUnreserved(c) then [c] else PercentBytes(Utf8(c))
  }

  /** A character `encodeURIComponent` can produce. */
  predicate IsEncodedChar(c: char) {
    IsUnreserved(c) || c == '%'
  }

  lemma PercentBytesChars(bs: seq<Byte>)
    ensures forall i :: 0 <= i < |PercentBytes(bs)| ==> IsEncodedChar(PercentBytes(bs)[i])
  {
    if bs != [] {
      PercentBytesChars(bs[1..]);
    }
  }

  /**
   * `encodeURIComponent(s)`. Lone surrogates, on which the JavaScript function
   * throws, are not Dafny characters, so the function is total here.
   */
  function Encode(s: string): (r: string)
    ensures forall i :: 0 <= i < |r| ==> IsEncodedChar(r[i])
    ensures (forall i :: 0 <= i < |s| ==> IsUnreserved(s[i])) ==> r == s
  {
    if s == [] then []
    else
      PercentBytesChars(Utf8(s[0]));
      EncodeChar(s[0]) + Encode(s[1..])
  }

  /** `Encode` works character by character. */
  lemma EncodeCons(s: string)
    requires s != []
    ensures Encode(s) == EncodeChar(s[0]) + Encode(s[1..])
  {
  }

  lemma {:induction false} EncodeAppend(a: string, b: string)
    ensures Encode(a + b) == Encode(a) + Encode(b)
  {
    if a == [] {
      assert a + b == b;
    } else {
      var ab := a + b;
      assert ab[0] == a[0] && ab[1..] == a[1..] + b;
      EncodeCons(ab);
      EncodeCons(a);
      EncodeAppend(a[1..], b);
      AppendAssoc(EncodeChar(a[0]), Encode(a[1..]), Encode(b));
    }
  }

  /** A character of a `%XX` escape as `encodeURIComponent` writes it. */
  predicate IsEscapeChar(c: char) {
    c == '%' || ('0' <= c <= '9') || ('A' <= c <= 'F')
  }

  lemma PercentBytesEscapeChars(bs: seq<Byte>)
    ensures forall i :: 0 <= i < |PercentBytes(bs)| ==> IsEscapeChar(PercentBytes(bs)[i])
  {
    if bs != [] {
      PercentBytesEscapeChars(bs[1..]);
    }
  }

  /**
   * A character that cannot be part of an escape appears in an encoding only
   * where it appeared in the input, so one the input lacks the output lacks.
   * (This is how `'`, which `encodeURIComponent` keeps, can reach its output.)
   */
  lemma {:induction false} EncodeLacks(s: string, c: char)
    requires !IsEscapeChar(c)
    requires forall i :: 0 <= i < |s| ==> s[i] != c
    ensures forall i :: 0 <= i < |Encode(s)| ==> Encode(s)[i] != c
  {
    if s != [] {
      PercentBytesEscapeChars(Utf8(s[0]));
      EncodeLacks(s[1..], c);
      assert Encode(s) == EncodeChar(s[0]) + Encode(s[1..]);
    }
  }

  /**
   * Text made only of unreserved characters, such as a host name, is still
   * present in the encoding of any string that contains it.
   */
  lemma EncodeKeepsUnreservedText(s: string, t: string)
    requires Contains(s, t)
    requires forall i :: 0 <= i < |t| ==> IsUnreserved(t[i])
    ensures Contains(Encode(s), t)
  {
    var i := IndexOf(s, t).value;
    var a, b := s[..i], s[i + |t|..];
    assert s == a + t + b;
    EncodeAppend(a + t, b);
    EncodeAppend(a, t);
    ContainsInside(Encode(a), t, Encode(b));
  }

  /**
   * The bytes of one form-encoded component: `+` is a space, `%` and two
   * hexadecimal digits is that byte, and any other character is its UTF-8
   * encoding (a `%` not followed by two digits stays a `%`).
   */
  function FormBytes(s: string): seq<Byte>
    decreases |s|
  {
    if s == [] then []
    else if s[0] == '%' && |s| >= 3 && HexValue(s[1]).Some? && HexValue(s[2]).Some? then
      [HexValue(s[1]).value * 16 + HexValue(s[2]).value] + FormBytes(s[3..])
    else if s[0] == '+' then [0x20] + FormBytes(s[1..])
    else Utf8(s[0]) + FormBytes(s[1..])
  }

  /** A form-encoded component decoded to a string; `None` if its bytes are not UTF-8. */
  function FormDecode(s: string): Option<string> {
    Utf8Decode(FormBytes(s))
  }

  /** One `%XX` escape reads back as its byte. */
  lemma FormBytesEscape(b: Byte, tail: string)
    ensures FormBytes(PercentByte(b) + tail) == [b] + FormBytes(tail)
  {
    HexRoundTrip(b / 16);
    HexRoundTrip(b % 16);
    var s := PercentByte(b) + tail;
    assert s[0] == '%' && s[1] == HexDigit(b / 16) && s[2] == HexDigit(b % 16);
    assert s[3..] == tail;
  }

  lemma {:induction false} FormBytesPercent(bs: seq<Byte>, rest: string)
    ensures FormBytes(PercentBytes(bs) + rest) == bs + FormBytes(rest)
  {
    if bs == [] {
      assert PercentBytes(bs) + rest == rest;
    } else {
      var b := bs[0];
      AppendAssoc(PercentByte(b), PercentBytes(bs[1..]), rest);
      FormBytesEscape(b, PercentBytes(bs[1..]) + rest);
      FormBytesPercent(bs[1..], rest);
      AppendAssoc([b], bs[1..], FormBytes(rest));
      assert [b] + bs[1..] == bs;
    }
  }


  lemma {:induction false} FormBytesEncode(s: string)
    ensures FormBytes(Encode(s)) == Utf8Bytes(s)
  {
    if s != [] {
      var e := Encode(s);
      if IsUnreserved(s[0]) {
        assert e == [s[0]] + Encode(s[1..]);
        assert e[1..] == Encode(s[1..]);
      } else {
        assert e == PercentBytes(Utf8(s[0])) + Encode(s[1..]);
        FormBytesPercent(Utf8(s[0]), Encode(s[1..]));
      }
      FormBytesEncode(s[1..]);
    }
  }

  /** Reading a component back gives exactly the string that was encoded. */
  lemma DecodeEncode(s: string)
    ensures FormDecode(Encode(s)) == Some(s)
  {
    FormBytesEncode(s);
    Utf8RoundTrip(s);
  }

  /** Splits one `name=value` sequence at its first `=`. */
  function SplitPair(seq_: string): (string, string) {
    match IndexOf(seq_, "=")
    case None => (seq_, "")
    case Some(j) => (seq_[..j], seq_[j + 1..])
  }

  /**
   * The decoded value of the first pair called `name` in a query string without
   * its `?`; `None` when there is none.
   */
  function QueryGet(query: string, name: string): Option<string>
    decreases |query|
  {
    var (head, rest) :=
      match IndexOf(query, "&")
      case None => (query, None)
      case Some(i) => (query[..i], Some(query[i + 1..]));
    var (n, v) := SplitPair(head);
    if head != "" && FormDecode(n) == Some(name) then FormDecode(v)
    else
      match rest
      case None => None
      case Some(r) => QueryGet(r, name)
  }

  /** `new URLSearchParams(search).get(name)`: a leading `?` is dropped first. */
  function SearchParamGet(search: string, name: string): Option<string> {
    QueryGet(if StartsWith(search, "?") then search[1..] else search, name)
  }

  /** `c` does not occur in `s`. */
  predicate Lacks(s: string, c: char) {
    forall i :: 0 <= i < |s| ==> s[i] != c
  }

  /** `indexOf` of one character finds its first occurrence, and nothing when it is absent. */
  lemma IndexOfChar(s: string, c: char)
    ensures IndexOf(s, [c]).None? ==> Lacks(s, c)
    ensures IndexOf(s, [c]).Some? ==> IndexOf(s, [c]).value < |s| && s[IndexOf(s, [c]).value] == c
    ensures IndexOf(s, [c]).Some? ==> Lacks(s[..IndexOf(s, [c]).value], c)
  {
    forall j | 0 <= j < |s| ensures OccursAt(s, [c], j) <==> s[j] == c {
      assert s[j..j + 1] == [s[j]];
    }
  }

  lemma LacksIndexOf(s: string, c: char)
    requires Lacks(s, c)
    ensures IndexOf(s, [c]).None?
  {
    forall j: nat | j <= |s| ensures !OccursAt(s, [c], j) {
      if j < |s| {
        assert s[j..j + 1] == [s[j]];
      }
    }
  }

  lemma IndexOfNamePair(name: string, value: string)
    requires forall i :: 0 <= i < |name| ==> IsUnreserved(name[i])
    ensures IndexOf(name + "=" + value, "=") == Some(|name|)
  {
    var q := name + "=" + value;
    assert OccursAt(q, "=", |name|);
    forall j | 0 <= j < |name| ensures !OccursAt(q, "=", j) {
      assert q[j] == name[j];
    }
  }

  lemma EncodedPairHasOneSequence(name: string, value: string)
    requires forall i :: 0 <= i < |name| ==> IsUnreserved(name[i])
    ensures IndexOf(name + "=" + Encode(value), "&").None?
  {
    var e := Encode(value);
    var q := name + "=" + e;
    assert Lacks(q, '&') by {
      forall i | 0 <= i < |q| ensures q[i] != '&' {
        if i > |name| {
          assert q[i] == e[i - |name| - 1];
        } else if i < |name| {
          assert q[i] == name[i];
        }
      }
    }
    LacksIndexOf(q, '&');
  }

  /** `name=` + `encodeURIComponent(value)` reads back as `value`. */
  lemma QueryGetEncoded(name: string, value: string)
    requires name != "" && forall i :: 0 <= i < |name| ==> IsUnreserved(name[i])
    ensures QueryGet(name + "=" + Encode(value), name) == Some(value)
  {
    var q := name + "=" + Encode(value);
    IndexOfNamePair(name, Encode(value));
    EncodedPairHasOneSequence(name, value);
    assert SplitPair(q) == (name, Encode(value)) by {
      assert q[..|name|] == name;
      assert q[|name| + 1..] == Encode(value);
    }
    DecodeEncode(name);
    DecodeEncode(value);
  }

  /** The same read through `URLSearchParams`, from a search string that starts with `?`. */
  lemma SearchParamGetEncoded(name: string, value: string)
    requires name != "" && forall i :: 0 <= i < |name| ==> IsUnreserved(name[i])
    ensures SearchParamGet("?" + name + "=" + Encode(value), name) == Some(value)
  {
    AppendAssoc("?", name, "=");
    AppendAssoc("?", name + "=", Encode(value));
    DropPrefix("?", name + "=" + Encode(value));
    QueryGetEncoded(name, value);
  }
}
