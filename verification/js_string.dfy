/**
 * The few pieces of JavaScript's string semantics the task tracker relies on:
 * `String.prototype.trim`, `String.prototype.toUpperCase` and `Array.prototype.join`.
 */
module JsString {

  /**
   * The code points `trim` removes: the WhiteSpace and LineTerminator productions of
   * ECMA-262 (sections 12.2 and 12.3), that is TAB, VT, FF, SP, NBSP, ZWNBSP, every
   * character of Unicode category Zs, LF, CR, LS and PS.
   */
  predicate IsWhitespace(c: char) {
    || c == '\t' || c == '\n' || c == '\U{B}' || c == '\U{C}' || c == '\r'
    || c == ' ' || c == '\U{A0}' || c == '\U{1680}'
    || ('\U{2000}' <= c <= '\U{200A}')
    || c == '\U{2028}' || c == '\U{2029}' || c == '\U{202F}' || c == '\U{205F}'
    || c == '\U{3000}' || c == '\U{FEFF}'
  }

  /** A string made of whitespace only (the empty string included). */
  predicate IsBlank(s: string) {
    forall i :: 0 <= i < |s| ==> IsWhitespace(s[i])
  }

  /** Drops the leading whitespace. Its properties are `TrimStartSpec`. */
  function TrimStart(s: string): string {
    if |s| > 0 && IsWhitespace(s[0]) then TrimStart(s[1..]) else s
  }

  /** Drops the trailing whitespace. Its properties are `TrimEndSpec`. */
  function TrimEnd(s: string): string {
    if |s| > 0 && IsWhitespace(s[|s| - 1]) then TrimEnd(s[..|s| - 1]) else s
  }

  /** What `TrimStart` keeps is a suffix that starts with a non-whitespace character; what it drops is blank. */
  lemma {:induction false} TrimStartSpec(s: string)
    ensures var r := TrimStart(s); |r| <= |s| && r == s[|s| - |r|..]
    ensures IsBlank(s[..|s| - |TrimStart(s)|])
    ensures TrimStart(s) == [] || !IsWhitespace(TrimStart(s)[0])
  {
    if |s| > 0 && IsWhitespace(s[0]) {
      TrimStartSpec(s[1..]);
      var r := TrimStart(s[1..]);
      var dropped := s[..|s| - |r|];
      assert s[1..][..|s| - 1 - |r|] == dropped[1..];
      assert IsBlank(dropped) by {
        forall i | 0 <= i < |dropped| ensures IsWhitespace(dropped[i]) {
          if i > 0 {
            assert dropped[i] == dropped[1..][i - 1];
          }
        }
      }
    }
  }

  /** What `TrimEnd` keeps is a prefix that ends with a non-whitespace character; what it drops is blank. */
  lemma {:induction false} TrimEndSpec(s: string)
    ensures var r := TrimEnd(s); |r| <= |s| && r == s[..|r|]
    ensures IsBlank(s[|TrimEnd(s)|..])
    ensures TrimEnd(s) == [] || !IsWhitespace(TrimEnd(s)[|TrimEnd(s)| - 1])
  {
    if |s| > 0 && IsWhitespace(s[|s| - 1]) {
      TrimEndSpec(s[..|s| - 1]);
      var r := TrimEnd(s[..|s| - 1]);
      var dropped := s[|r|..];
      assert s[..|s| - 1][|r|..] == dropped[..|dropped| - 1];
      assert IsBlank(dropped) by {
        forall i | 0 <= i < |dropped| ensures IsWhitespace(dropped[i]) {
          if i < |dropped| - 1 {
            assert dropped[i] == dropped[..|dropped| - 1][i];
          }
        }
      }
    }
  }

  /** `s.trim()`: removes the whitespace at both ends. Its properties are the lemmas below. */
  function Trim(s: string): string {
    TrimEnd(TrimStart(s))
  }

  /** A string trims to nothing exactly when it is blank. */
  lemma {:induction false} TrimEmptyIffBlank(s: string)
    ensures Trim(s) == [] <==> IsBlank(s)
  {
    TrimStartSpec(s);
    var front := TrimStart(s);
    TrimEndSpec(front);
    var r := TrimEnd(front);
    if r == [] {
      BlankConcat(s[..|s| - |front|], front);
      assert s == s[..|s| - |front|] + front;
    } else {
      assert r[0] == front[0] == s[|s| - |front|];
    }
  }

  /** A non-empty trimmed string starts and ends with a non-whitespace character. */
  lemma {:induction false} TrimEnds(s: string)
    ensures var r := Trim(s); r != [] ==> !IsWhitespace(r[0]) && !IsWhitespace(r[|r| - 1])
  {
    TrimStartSpec(s);
    var front := TrimStart(s);
    TrimEndSpec(front);
    var r := TrimEnd(front);
    if r != [] {
      assert r[0] == front[0];
    }
  }

  /** What `trim` keeps is the infix of the input that starts where the leading whitespace ends. */
  lemma {:induction false} TrimIsInfix(s: string)
    ensures var r := Trim(s); var k := |s| - |TrimStart(s)|; 0 <= k && k + |r| <= |s| && r == s[k..k + |r|]
  {
    TrimStartSpec(s);
    var front := TrimStart(s);
    TrimEndSpec(front);
    var r := TrimEnd(front);
    var k := |s| - |front|;
    assert front == s[k..];
    assert r == front[..|r|];
  }

  /** Two blank strings make a blank string; `TrimEmptyIffBlank` rests on this. */
  lemma BlankConcat(a: string, b: string)
    requires IsBlank(a) && IsBlank(b)
    ensures IsBlank(a + b)
  {
    forall i | 0 <= i < |a + b| ensures IsWhitespace((a + b)[i]) {
      if i < |a| {
        assert (a + b)[i] == a[i];
      } else {
        assert (a + b)[i] == b[i - |a|];
      }
    }
  }

  /** Trimming twice is trimming once. */
  lemma {:induction false} TrimIdempotent(s: string)
    ensures Trim(Trim(s)) == Trim(s)
  {
    var r := Trim(s);
    TrimEnds(s);
    if r != [] {
      assert TrimStart(r) == r;
      assert TrimEnd(r) == r;
    }
  }

  /**
   * `c.toUpperCase()` for the characters the task tracker's inputs can turn into an
   * allowed status: the ASCII letters, and the lower-case letters whose full upper-case
   * mapping (Unicode SpecialCasing) consists of ASCII letters only. Every other character
   * is kept as it is.
   */
  function UpperChar(c: char): (r: string)
    ensures |r| >= 1
  {
    if 'a' <= c <= 'z' then [(c as int - 32) as char]
    else if c == '\U{DF}' then "SS"      // sharp s
    else if c == '\U{131}' then "I"      // dotless i
    else if c == '\U{17F}' then "S"      // long s
    else if c == '\U{FB00}' then "FF"
    else if c == '\U{FB01}' then "FI"
    else if c == '\U{FB02}' then "FL"
    else if c == '\U{FB03}' then "FFI"
    else if c == '\U{FB04}' then "FFL"
    else if c == '\U{FB05}' || c == '\U{FB06}' then "ST"
    else [c]
  }

  /** `s.toUpperCase()`, character by character. */
  function ToUpperCase(s: string): (r: string)
    ensures |r| >= |s|
  {
    if s == [] then [] else UpperChar(s[0]) + ToUpperCase(s[1..])
  }

  predicate IsAscii(s: string) {
    forall i :: 0 <= i < |s| ==> s[i] < '\U{80}'
  }

  /** The characters of the three status names: upper-case ASCII letters and the underscore. */
  predicate IsUpperName(n: string) {
    forall i :: 0 <= i < |n| ==> ('A' <= n[i] <= 'Z' || n[i] == '_')
  }

  function AsciiLower(c: char): char {
    if 'A' <= c <= 'Z' then (c as int + 32) as char else c
  }

  /** `s` spells `n` with any mix of ASCII upper and lower case. */
  predicate CaseVariant(s: string, n: string) {
    |s| == |n| && forall i :: 0 <= i < |s| ==> s[i] == n[i] || s[i] == AsciiLower(n[i])
  }

  /** Every spelling of an upper-case name in mixed ASCII case upper-cases to that name. */
  lemma {:induction false} UpperOfCaseVariant(s: string, n: string)
    requires IsUpperName(n) && CaseVariant(s, n)
    ensures ToUpperCase(s) == n
  {
    if s != [] {
      assert CaseVariant(s[1..], n[1..]) by {
        forall i | 0 <= i < |s| - 1 ensures s[1..][i] == n[1..][i] || s[1..][i] == AsciiLower(n[1..][i]) {
          assert s[1..][i] == s[i + 1];
        }
      }
      UpperOfCaseVariant(s[1..], n[1..]);
      assert UpperChar(s[0]) == [n[0]];
      assert n == [n[0]] + n[1..];
    }
  }

  /** Conversely, an ASCII string that upper-cases to an upper-case name is a mixed-case spelling of it. */
  lemma {:induction false} CaseVariantOfUpper(s: string, n: string)
    requires IsAscii(s) && IsUpperName(n) && ToUpperCase(s) == n
    ensures CaseVariant(s, n)
  {
    if s != [] {
      var head := UpperChar(s[0]);
      assert |head| == 1 && head[0] == n[0];
      assert ToUpperCase(s[1..]) == n[1..];
      assert IsAscii(s[1..]) by {
        forall i | 0 <= i < |s| - 1 ensures s[1..][i] < '\U{80}' {
          assert s[1..][i] == s[i + 1];
        }
      }
      assert IsUpperName(n[1..]) by {
        forall i | 0 <= i < |n| - 1 ensures 'A' <= n[1..][i] <= 'Z' || n[1..][i] == '_' {
          assert n[1..][i] == n[i + 1];
        }
      }
      CaseVariantOfUpper(s[1..], n[1..]);
      forall i | 0 <= i < |s| ensures s[i] == n[i] || s[i] == AsciiLower(n[i]) {
        if i > 0 {
          assert s[i] == s[1..][i - 1] && n[i] == n[1..][i - 1];
        }
      }
    }
  }

  /** Upper-casing works character by character, so it distributes over concatenation. */
  lemma {:induction false} ToUpperCaseConcat(a: string, b: string)
    ensures ToUpperCase(a + b) == ToUpperCase(a) + ToUpperCase(b)
  {
    if a == [] {
      assert a + b == b;
    } else {
      assert (a + b)[1..] == a[1..] + b;
      ToUpperCaseConcat(a[1..], b);
    }
  }

  /** `xs.join(sep)`. */
  function Join(xs: seq<string>, sep: string): (r: string)
    ensures |xs| == 1 ==> r == xs[0]
  {
    if xs == [] then "" else if |xs| == 1 then xs[0] else xs[0] + sep + Join(xs[1..], sep)
  }
}
