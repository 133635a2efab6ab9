/**
 * The few JavaScript string operations the proxy relies on, over Dafny strings
 * (sequences of Unicode scalar values).
 */
module Text {
  import opened Wrappers

  /** `s.startsWith(p)` */
  predicate StartsWith(s: string, p: string) {
    p <= s
  }

  /** `t` occurs in `s` starting at index `i`. */
  predicate OccursAt(s: string, t: string, i: nat) {
    i + |t| <= |s| && s[i..i + |t|] == t
  }

  /** `s.indexOf(t, i)`: the first occurrence of `t` at or after `i`. */
  function IndexOfFrom(s: string, t: string, i: nat): (r: Option<nat>)
    requires i <= |s|
    decreases |s| - i
    ensures r.Some? ==> i <= r.value && OccursAt(s, t, r.value)
    ensures r.Some? ==> forall j :: i <= j < r.value ==> !OccursAt(s, t, j)
    ensures r.None? ==> forall j :: i <= j <= |s| ==> !OccursAt(s, t, j)
  {
    if OccursAt(s, t, i) then Some(i)
    else if i == |s| then None
    else IndexOfFrom(s, t, i + 1)
  }

  /** `s.indexOf(t)` */
  function IndexOf(s: string, t: string): Option<nat> {
    IndexOfFrom(s, t, 0)
  }

  /** `s.includes(t)` */
  predicate Contains(s: string, t: string) {
    IndexOf(s, t).Some?
  }

  lemma ContainsIff(s: string, t: string)
    ensures Contains(s, t) <==> exists i: nat :: OccursAt(s, t, i)
  {
    if !Contains(s, t) {
      forall i: nat ensures !OccursAt(s, t, i) {
        if i > |s| {
          assert !OccursAt(s, t, i);
        }
      }
    }
  }

  /**
   * `s.replace(pat, rep)` with a string pattern: only the first occurrence is
   * replaced. (The replacement strings the proxy uses hold no `$`, so the
   * replacement-pattern syntax of `String.prototype.replace` plays no part.)
   */
  function ReplaceFirst(s: string, pat: string, rep: string): (r: string)
    ensures IndexOf(s, pat).None? ==> r == s
  {
    match IndexOf(s, pat)
    case None => s
    case Some(i) => s[..i] + rep + s[i + |pat|..]
  }

  /** Replacing a pattern the string starts with replaces that prefix. */
  lemma ReplaceLeadingPattern(s: string, pat: string, rep: string)
    requires StartsWith(s, pat)
    ensures ReplaceFirst(s, pat, rep) == rep + s[|pat|..]
  {
    assert OccursAt(s, pat, 0);
  }

  /** Adjacent slices join up. */
  lemma SliceJoin(s: string, i: nat, j: nat, k: nat)
    requires i <= j <= k <= |s|
    ensures s[i..j] + s[j..k] == s[i..k]
  {
  }

  /** Text found in `t` is still found with anything put in front of it. */
  lemma ContainsAfter(p: string, t: string, b: string)
    requires Contains(t, b)
    ensures Contains(p + t, b)
  {
    var i := IndexOf(t, b).value;
    assert (p + t)[|p| + i..|p| + i + |b|] == t[i..i + |b|];
    assert OccursAt(p + t, b, |p| + i);
    ContainsIff(p + t, b);
  }

  /** Concatenation is associative. */
  lemma AppendAssoc<T>(x: seq<T>, y: seq<T>, z: seq<T>)
    ensures x + (y + z) == (x + y) + z
  {
  }

  /** Dropping a prefix from a concatenation leaves the rest. */
  lemma DropPrefix(p: string, t: string)
    ensures (p + t)[|p|..] == t
  {
  }

  /** A slice followed by the rest is the whole suffix. */
  lemma SliceRest(s: string, i: nat, j: nat)
    requires i <= j <= |s|
    ensures s[i..j] + s[j..] == s[i..]
  {
  }

  /** A string that contains `t` still contains it with anything put around it. */
  lemma ContainsInside(a: string, t: string, b: string)
    ensures Contains(a + t + b, t)
  {
    assert OccursAt(a + t + b, t, |a|) by {
      assert (a + t + b)[|a|..|a| + |t|] == t;
    }
    ContainsIff(a + t + b, t);
  }

  /** `toLowerCase`, on the ASCII letters (header names and HTML names are ASCII). */
  function LowerChar(c: char): (r: char)
    ensures 'A' <= c <= 'Z' ==> r as int == c as int + 32
    ensures !('A' <= c <= 'Z') ==> r == c
  {
    if 'A' <= c <= 'Z' then (c as int + 32) as char else c
  }

  function ToLower(s: string): (r: string)
    ensures |r| == |s|
    ensures forall i :: 0 <= i < |s| ==> r[i] == LowerChar(s[i])
  {
    if s == [] then [] else [LowerChar(s[0])] + ToLower(s[1..])
  }
}
