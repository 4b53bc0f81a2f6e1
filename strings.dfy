/**
 * The handful of JavaScript string operations the portal's decision logic
 * uses: `toLowerCase` (restricted to ASCII), `includes`, `startsWith`,
 * `endsWith` and `trim`.
 */
module Strings {

  /** `s.startsWith(p)` */
  predicate StartsWith(s: string, p: string) {
    |p| <= |s| && s[..|p|] == p
  }

  /** `s.endsWith(p)` */
  predicate EndsWith(s: string, p: string) {
    |p| <= |s| && s[|s| - |p|..] == p
  }

  /** `t` occurs in `s` at position `i`. */
  predicate OccursAt(s: string, t: string, i: int) {
    0 <= i && i + |t| <= |s| && s[i..i + |t|] == t
  }

  /** `s.includes(t)`: scans `s` from the left for an occurrence of `t`. */
  function Includes(s: string, t: string): (b: bool)
    decreases |s|
  {
    StartsWith(s, t) || (|s| > 0 && Includes(s[1..], t))
  }

  /** `includes` holds exactly when `t` occurs somewhere in `s`. */
  lemma {:induction false} IncludesIffOccurs(s: string, t: string)
    ensures Includes(s, t) <==> exists i :: OccursAt(s, t, i)
    decreases |s|
  {
    if StartsWith(s, t) {
      assert OccursAt(s, t, 0);
    } else if |s| == 0 {
      assert forall i :: !OccursAt(s, t, i);
    } else {
      IncludesIffOccurs(s[1..], t);
      if Includes(s[1..], t) {
        var i :| OccursAt(s[1..], t, i);
        assert s[i + 1..i + 1 + |t|] == s[1..][i..i + |t|];
        assert OccursAt(s, t, i + 1);
      } else {
        forall i | 0 < i && OccursAt(s, t, i) ensures OccursAt(s[1..], t, i - 1) {
          assert s[1..][i - 1..i - 1 + |t|] == s[i..i + |t|];
        }
      }
    }
  }

  /** Every string includes the empty string. */
  lemma IncludesEmpty(s: string)
    ensures Includes(s, "")
  {
    assert StartsWith(s, "");
  }

  predicate IsAsciiUpper(c: char) {
    'A' <= c <= 'Z'
  }

  function LowerChar(c: char): char {
    if IsAsciiUpper(c) then (c as int + 32) as char else c
  }

  /** `s.toLowerCase()` on the ASCII letters; every other character is kept. */
  function ToLower(s: string): (r: string)
    ensures |r| == |s|
  {
    if s == [] then [] else [LowerChar(s[0])] + ToLower(s[1..])
  }

  /** Lower-casing works character by character. */
  lemma {:induction false} ToLowerChars(s: string)
    ensures forall i :: 0 <= i < |s| ==> ToLower(s)[i] == LowerChar(s[i])
  {
    if s != [] {
      ToLowerChars(s[1..]);
    }
  }

  /** Lower-casing twice changes nothing. */
  lemma ToLowerIdempotent(s: string)
    ensures ToLower(ToLower(s)) == ToLower(s)
  {
    ToLowerChars(s);
    ToLowerChars(ToLower(s));
  }

  /** The characters `String.prototype.trim` removes (white space and line terminators). */
  predicate IsJsWhitespace(c: char) {
    c == '\t' || c == '\n' || c == '\U{000B}' || c == '\U{000C}' || c == '\r' || c == ' '
    || c == '\U{00A0}' || c == '\U{1680}' || ('\U{2000}' <= c <= '\U{200A}')
    || c == '\U{2028}' || c == '\U{2029}' || c == '\U{202F}' || c == '\U{205F}'
    || c == '\U{3000}' || c == '\U{FEFF}'
  }

  /** `s.trimStart()` */
  function TrimStart(s: string): string {
    if s != [] && IsJsWhitespace(s[0]) then TrimStart(s[1..]) else s
  }

  /** `s.trimEnd()` */
  function TrimEnd(s: string): string {
    if s != [] && IsJsWhitespace(s[|s| - 1]) then TrimEnd(s[..|s| - 1]) else s
  }

  /** `s.trim()` */
  function Trim(s: string): string {
    TrimEnd(TrimStart(s))
  }

  /** `trimStart` removes exactly the leading white space. */
  lemma {:induction false} TrimStartShape(s: string)
    ensures var r := TrimStart(s);
      && |r| <= |s| && s[|s| - |r|..] == r
      && (r == [] || !IsJsWhitespace(r[0]))
      && forall i :: 0 <= i < |s| - |r| ==> IsJsWhitespace(s[i])
  {
    if s != [] && IsJsWhitespace(s[0]) {
      TrimStartShape(s[1..]);
      forall i | 1 <= i < |s| - |TrimStart(s)| ensures IsJsWhitespace(s[i]) {
        assert s[i] == s[1..][i - 1];
      }
    }
  }

  /** `trimEnd` removes exactly the trailing white space. */
  lemma {:induction false} TrimEndShape(s: string)
    ensures var r := TrimEnd(s);
      && |r| <= |s| && s[..|r|] == r
      && (r == [] || !IsJsWhitespace(r[|r| - 1]))
      && forall i :: |r| <= i < |s| ==> IsJsWhitespace(s[i])
  {
    if s != [] && IsJsWhitespace(s[|s| - 1]) {
      TrimEndShape(s[..|s| - 1]);
      forall i | |TrimEnd(s)| <= i < |s| - 1 ensures IsJsWhitespace(s[i]) {
        assert s[i] == s[..|s| - 1][i];
      }
    }
  }

  /** A trimmed string neither starts nor ends with white space. */
  lemma TrimShape(s: string)
    ensures var r := Trim(s);
      r == [] || (!IsJsWhitespace(r[0]) && !IsJsWhitespace(r[|r| - 1]))
  {
    TrimStartShape(s);
    var t := TrimStart(s);
    TrimEndShape(t);
    var r := TrimEnd(t);
    if r != [] {
      assert r[0] == t[0];
    }
  }

  /** `s` with every white-space character dropped. */
  function DropWhitespace(s: string): string {
    if s == [] then []
    else (if IsJsWhitespace(s[0]) then [] else [s[0]]) + DropWhitespace(s[1..])
  }

  lemma {:induction false} DropWhitespaceAppend(a: string, b: string)
    ensures DropWhitespace(a + b) == DropWhitespace(a) + DropWhitespace(b)
    decreases |a|
  {
    if a == [] {
      assert a + b == b;
    } else {
      assert (a + b)[1..] == a[1..] + b;
      DropWhitespaceAppend(a[1..], b);
    }
  }

  /** Trimming the front only removes white space. */
  lemma TrimStartKeepsNonWhitespace(s: string)
    ensures DropWhitespace(TrimStart(s)) == DropWhitespace(s)
  {
    TrimStartShape(s);
    var t := TrimStart(s);
    var front := s[..|s| - |t|];
    assert forall i :: 0 <= i < |front| ==> IsJsWhitespace(front[i]) by {
      forall i | 0 <= i < |front| ensures IsJsWhitespace(front[i]) {
        assert front[i] == s[i];
      }
    }
    AllWhitespaceDrops(front);
    assert s == front + t;
    DropWhitespaceAppend(front, t);
  }

  /** Trimming the end only removes white space. */
  lemma TrimEndKeepsNonWhitespace(s: string)
    ensures DropWhitespace(TrimEnd(s)) == DropWhitespace(s)
  {
    TrimEndShape(s);
    var u := TrimEnd(s);
    var back := s[|u|..];
    assert forall i :: 0 <= i < |back| ==> IsJsWhitespace(back[i]) by {
      forall i | 0 <= i < |back| ensures IsJsWhitespace(back[i]) {
        assert back[i] == s[|u| + i];
      }
    }
    AllWhitespaceDrops(back);
    assert s == u + back;
    DropWhitespaceAppend(u, back);
  }

  /** Trimming only removes white space. */
  lemma TrimKeepsNonWhitespace(s: string)
    ensures DropWhitespace(Trim(s)) == DropWhitespace(s)
  {
    TrimStartKeepsNonWhitespace(s);
    TrimEndKeepsNonWhitespace(TrimStart(s));
  }

  lemma {:induction false} AllWhitespaceDrops(s: string)
    requires forall i :: 0 <= i < |s| ==> IsJsWhitespace(s[i])
    ensures DropWhitespace(s) == []
  {
    if s != [] {
      AllWhitespaceDrops(s[1..]);
    }
  }

  /** A string that neither starts nor ends with white space is its own trim. */
  lemma TrimUnpadded(s: string)
    requires s != [] && !IsJsWhitespace(s[0]) && !IsJsWhitespace(s[|s| - 1])
    ensures Trim(s) == s
  {
    assert TrimStart(s) == s;
  }

  /** Decimal digits of `n`, as JavaScript prints a non-negative integer. */
  function DecimalString(n: nat): (r: string)
    ensures |r| > 0
    ensures forall i :: 0 <= i < |r| ==> '0' <= r[i] <= '9'
    ensures n > 0 ==> r[0] != '0'
  {
    if n < 10 then [('0' as int + n) as char]
    else DecimalString(n / 10) + [('0' as int + n % 10) as char]
  }

  /** The number a string of decimal digits denotes, most significant digit first. */
  function DigitsValue(s: string): int {
    if s == [] then 0 else 10 * DigitsValue(s[..|s| - 1]) + (s[|s| - 1] as int - '0' as int)
  }

  /** Reading the printed digits back gives the number. */
  lemma {:induction false} DecimalStringValue(n: nat)
    ensures DigitsValue(DecimalString(n)) == n
  {
    if n >= 10 {
      var init := DecimalString(n / 10);
      var r := DecimalString(n);
      assert r == init + [('0' as int + n % 10) as char];
      assert r[..|r| - 1] == init;
      DecimalStringValue(n / 10);
    }
  }
}
