/**
 * The two string operations the answer check applies: JavaScript's `String.prototype.trim`
 * and `String.prototype.toUpperCase` (the latter restricted to ASCII letters).
 */
module Strings {

  /** The characters `trim` removes: ECMAScript WhiteSpace (tab, VT, FF, space, NBSP, BOM and the
      Unicode space separators) and LineTerminator (LF, CR, LS, PS). */
  predicate IsWhitespace(c: char) {
    || c == '\t' || c == '\n' || c == '\U{0B}' || c == '\U{0C}' || c == '\r' || c == ' '
    || c == '\U{A0}' || c == '\U{1680}' || ('\U{2000}' <= c <= '\U{200A}')
    || c == '\U{2028}' || c == '\U{2029}' || c == '\U{202F}' || c == '\U{205F}'
    || c == '\U{3000}' || c == '\U{FEFF}'
  }

  predicate AllWhitespace(s: string) {
    forall i :: 0 <= i < |s| ==> IsWhitespace(s[i])
  }

  /** Neither the first nor the last character is whitespace: what `trim` leaves. */
  predicate Trimmed(s: string) {
    s == [] || (!IsWhitespace(s[0]) && !IsWhitespace(s[|s| - 1]))
  }

  /** The number of leading whitespace characters. */
  function Lead(s: string): (k: nat)
    ensures k <= |s|
    ensures forall i :: 0 <= i < k ==> IsWhitespace(s[i])
    ensures k < |s| ==> !IsWhitespace(s[k])
  {
    if |s| > 0 && IsWhitespace(s[0]) then 1 + Lead(s[1..]) else 0
  }

  /** The number of trailing whitespace characters. */
  function Trail(s: string): (k: nat)
    ensures k <= |s|
    ensures forall i :: |s| - k <= i < |s| ==> IsWhitespace(s[i])
    ensures k < |s| ==> !IsWhitespace(s[|s| - 1 - k])
  {
    if |s| > 0 && IsWhitespace(s[|s| - 1]) then 1 + Trail(s[..|s| - 1]) else 0
  }

  /** Drops the leading whitespace. */
  function TrimStart(s: string): string {
    s[Lead(s)..]
  }

  /** Drops the trailing whitespace. */
  function TrimEnd(s: string): string {
    s[..|s| - Trail(s)]
  }

  /** JavaScript's `s.trim()`. */
  function Trim(s: string): (r: string)
    ensures Trimmed(r)
    ensures |r| <= |s|
  {
    TrimEnd(TrimStart(s))
  }

  /** What `toUpperCase` does to one character, for the ASCII letters. */
  function UpperChar(c: char): char {
    if 'a' <= c <= 'z' then (c as int - 32) as char else c
  }

  /** JavaScript's `s.toUpperCase()`, restricted to ASCII letters. */
  function Upper(s: string): string {
    seq(|s|, i requires 0 <= i < |s| => UpperChar(s[i]))
  }

  /** What `Upper` does, character by character: it leaves no lower-case ASCII letter, maps each
      one to the capital 32 code points below it, and keeps every other character. */
  lemma UpperSpec(s: string)
    ensures |Upper(s)| == |s|
    ensures forall i :: 0 <= i < |s| ==> !('a' <= Upper(s)[i] <= 'z')
    ensures forall i :: 0 <= i < |s| && !('a' <= s[i] <= 'z') ==> Upper(s)[i] == s[i]
    ensures forall i :: 0 <= i < |s| && 'a' <= s[i] <= 'z' ==> Upper(s)[i] as int + 32 == s[i] as int
  {
  }

  /** `Lead` is the only count with its two properties. */
  lemma LeadUnique(s: string, k: nat)
    requires k <= |s|
    requires forall i :: 0 <= i < k ==> IsWhitespace(s[i])
    requires k < |s| ==> !IsWhitespace(s[k])
    ensures Lead(s) == k
  {
  }

  /** `Trail` is the only count with its two properties. */
  lemma TrailUnique(s: string, k: nat)
    requires k <= |s|
    requires forall i :: |s| - k <= i < |s| ==> IsWhitespace(s[i])
    requires k < |s| ==> !IsWhitespace(s[|s| - 1 - k])
    ensures Trail(s) == k
  {
  }

  /**
   * `Trim` is determined by its result's shape: whenever `s` splits into whitespace, a
   * part with no whitespace at either end, and whitespace, that part is `Trim(s)`; and
   * `Trim(s)` itself is such a part.
   */
  lemma TrimCharacterised(a: string, r: string, b: string)
    requires AllWhitespace(a) && AllWhitespace(b) && Trimmed(r)
    ensures Trim(a + r + b) == r
  {
    var s := a + r + b;
    if r == [] {
      LeadUnique(s, |s|);
      assert TrimStart(s) == [];
    } else {
      assert s[|a|] == r[0];
      LeadUnique(s, |a|);
      var t := TrimStart(s);
      assert t == r + b;
      assert t[|t| - 1 - |b|] == r[|r| - 1];
      TrailUnique(t, |b|);
      assert TrimEnd(t) == r;
    }
  }

  /** `Trim(s)` is `s` with some whitespace taken off each end. */
  lemma TrimDecomposes(s: string) returns (a: string, b: string)
    ensures s == a + Trim(s) + b
    ensures AllWhitespace(a) && AllWhitespace(b)
  {
    var t := TrimStart(s);
    a := s[..Lead(s)];
    b := t[|t| - Trail(t)..];
    assert s == a + t;
    assert t == Trim(s) + b;
  }

  /** Whitespace around a string never changes what `trim` returns. */
  lemma {:induction false} TrimIgnoresPadding(w1: string, s: string, w2: string)
    requires AllWhitespace(w1) && AllWhitespace(w2)
    ensures Trim(w1 + s + w2) == Trim(s)
  {
    var a, b := TrimDecomposes(s);
    var r := Trim(s);
    assert w1 + s + w2 == (w1 + a) + r + (b + w2);
    TrimCharacterised(w1 + a, r, b + w2);
  }

  lemma UpperConcat(s: string, t: string)
    ensures Upper(s + t) == Upper(s) + Upper(t)
  {
    var l, r := Upper(s + t), Upper(s) + Upper(t);
    forall i | 0 <= i < |l| ensures l[i] == r[i] {
      if i < |s| { assert (s + t)[i] == s[i]; } else { assert (s + t)[i] == t[i - |s|]; }
    }
  }

  /** Upper-casing twice is upper-casing once. */
  lemma UpperIdempotent(s: string)
    ensures Upper(Upper(s)) == Upper(s)
  {
  }

  /** Upper-casing and trimming commute, because upper-casing maps whitespace to whitespace
      and every other character to a non-whitespace one. */
  lemma {:induction false} UpperTrimCommute(s: string)
    ensures Upper(Trim(s)) == Trim(Upper(s))
  {
    var a, b := TrimDecomposes(s);
    var r := Trim(s);
    UpperConcat(a + r, b);
    UpperConcat(a, r);
    assert Upper(s) == Upper(a) + Upper(r) + Upper(b);
    TrimCharacterised(Upper(a), Upper(r), Upper(b));
  }
}
