/** String helpers shared by the todo handlers, the todo containers and the
    security utilities: the ECMAScript whitespace set, `String.prototype.trim`,
    `startsWith` / `includes`, the UTF-16 length that JavaScript's `.length`
    reports, and the decimal rendering of a millisecond timestamp that
    `Date.now().toString()` produces. */
module Strings {

  /** ECMAScript WhiteSpace and LineTerminator code points: the set that both
      `String.prototype.trim` and the regular-expression class `\s` use. */
  predicate IsJsWhitespace(c: char) {
    c == '\t' || c == '\n' || c == '\U{000B}' || c == '\U{000C}' || c == '\r' ||
    c == ' ' || c == '\U{00A0}' || c == '\U{1680}' ||
    ('\U{2000}' <= c <= '\U{200A}') ||
    c == '\U{2028}' || c == '\U{2029}' || c == '\U{202F}' || c == '\U{205F}' ||
    c == '\U{3000}' || c == '\U{FEFF}'
  }

  predicate AllWhitespace(s: string) {
    forall i :: 0 <= i < |s| ==> IsJsWhitespace(s[i])
  }

  predicate NoWhitespace(s: string) {
    forall i :: 0 <= i < |s| ==> !IsJsWhitespace(s[i])
  }

  /** Drops the leading whitespace: what is left is a suffix of `s`, and what
      was dropped is all whitespace. */
  function TrimStart(s: string): (r: string)
    ensures |r| <= |s| && r == s[|s| - |r|..]
    ensures forall i :: 0 <= i < |s| - |r| ==> IsJsWhitespace(s[i])
    ensures r == [] || !IsJsWhitespace(r[0])
    ensures s != [] && IsJsWhitespace(s[0]) ==> |r| < |s|
  {
    if s != [] && IsJsWhitespace(s[0]) then TrimStart(s[1..]) else s
  }

  /** Drops the trailing whitespace: what is left is a prefix of `s`, and what
      was dropped is all whitespace. */
  function TrimEnd(s: string): (r: string)
    ensures |r| <= |s| && r == s[..|r|]
    ensures forall i :: |r| <= i < |s| ==> IsJsWhitespace(s[i])
    ensures r == [] || !IsJsWhitespace(r[|r| - 1])
  {
    if s != [] && IsJsWhitespace(s[|s| - 1]) then TrimEnd(s[..|s| - 1]) else s
  }

  /** `s` is `r` with whitespace added before and after it, one character
      at a time (`SurroundsSplit` gives the two added pieces). */
  predicate Surrounds(s: string, r: string)
    decreases |s|
  {
    || s == r
    || (s != [] && IsJsWhitespace(s[0]) && Surrounds(s[1..], r))
    || (s != [] && IsJsWhitespace(s[|s| - 1]) && Surrounds(s[..|s| - 1], r))
  }

  /** The whitespace `Surrounds` adds forms a prefix and a suffix. */
  lemma {:induction false} SurroundsSplit(s: string, r: string)
    requires Surrounds(s, r)
    ensures exists pre, post :: s == pre + r + post && AllWhitespace(pre) && AllWhitespace(post)
    decreases |s|
  {
    if s == r {
      var pre, post := [], [];
      assert s == pre + r + post && AllWhitespace(pre) && AllWhitespace(post);
    } else if s != [] && IsJsWhitespace(s[0]) && Surrounds(s[1..], r) {
      SurroundsSplit(s[1..], r);
      var pre, post :| s[1..] == pre + r + post && AllWhitespace(pre) && AllWhitespace(post);
      WidenPrefix(s, pre, r, post);
    } else {
      var u := s[..|s| - 1];
      SurroundsSplit(u, r);
      var pre, post :| u == pre + r + post && AllWhitespace(pre) && AllWhitespace(post);
      WidenSuffix(s, pre, r, post);
    }
  }

  /** One more whitespace character in front joins the prefix. */
  lemma WidenPrefix(s: string, pre: string, r: string, post: string)
    requires s != [] && IsJsWhitespace(s[0]) && AllWhitespace(pre)
    requires s[1..] == pre + r + post
    ensures s == ([s[0]] + pre) + r + post && AllWhitespace([s[0]] + pre)
  {
    assert s == [s[0]] + s[1..];
    ConcatAssoc([s[0]], pre, r);
    ConcatAssoc([s[0]], pre + r, post);
  }

  /** One more whitespace character behind joins the suffix. */
  lemma WidenSuffix(s: string, pre: string, r: string, post: string)
    requires s != [] && IsJsWhitespace(s[|s| - 1]) && AllWhitespace(post)
    requires s[..|s| - 1] == pre + r + post
    ensures s == pre + r + (post + [s[|s| - 1]]) && AllWhitespace(post + [s[|s| - 1]])
  {
    assert s == s[..|s| - 1] + [s[|s| - 1]];
    ConcatAssoc(pre + r, post, [s[|s| - 1]]);
  }

  /** `String.prototype.trim`: a contiguous piece of `s`, with only whitespace
      before and after it in `s`, and no whitespace at either of its ends. */
  function Trim(s: string): (r: string)
    ensures |r| <= |s|
    ensures Surrounds(s, r)
    ensures r == [] || (!IsJsWhitespace(r[0]) && !IsJsWhitespace(r[|r| - 1]))
    ensures r == [] <==> AllWhitespace(s)
  {
    TrimSpec(s);
    TrimEnd(TrimStart(s))
  }

  /** The contract of `Trim`, for its two steps. */
  lemma TrimSpec(s: string)
    ensures var r := TrimEnd(TrimStart(s));
      && |r| <= |s|
      && Surrounds(s, r)
      && (r == [] || (!IsJsWhitespace(r[0]) && !IsJsWhitespace(r[|r| - 1])))
      && (r == [] <==> AllWhitespace(s))
  {
    TrimPadded(s);
    TrimEmpty(s);
    TrimEnds(s);
  }

  /** The two steps of `Trim` keep a piece of `s` with whitespace around it. */
  lemma TrimPadded(s: string)
    ensures Surrounds(s, TrimEnd(TrimStart(s)))
  {
    TrimEndSurrounded(TrimStart(s));
    TrimStartSurrounds(s, TrimEnd(TrimStart(s)));
  }

  /** `TrimEnd` only drops whitespace at the end. */
  lemma {:induction false} TrimEndSurrounded(t: string)
    ensures Surrounds(t, TrimEnd(t))
    decreases |t|
  {
    if t != [] && IsJsWhitespace(t[|t| - 1]) {
      TrimEndSurrounded(t[..|t| - 1]);
    }
  }

  /** `TrimStart` only drops whitespace at the start. */
  lemma {:induction false} TrimStartSurrounds(s: string, r: string)
    requires Surrounds(TrimStart(s), r)
    ensures Surrounds(s, r)
    decreases |s|
  {
    if s != [] && IsJsWhitespace(s[0]) {
      TrimStartSurrounds(s[1..], r);
    }
  }

  /** The two steps of `Trim` leave nothing exactly when all is whitespace. */
  lemma TrimEmpty(s: string)
    ensures TrimEnd(TrimStart(s)) == [] <==> AllWhitespace(s)
  {
    var t := TrimStart(s);
    var lo := |s| - |t|;
    TrimStartDropped(s);
    if TrimEnd(t) == [] {
      assert s[..lo] == s;
    } else {
      assert t[0] == s[lo];
    }
  }

  /** The two steps of `Trim` leave no whitespace at either end. */
  lemma TrimEnds(s: string)
    ensures var r := TrimEnd(TrimStart(s));
      r == [] || (!IsJsWhitespace(r[0]) && !IsJsWhitespace(r[|r| - 1]))
  {
    var t := TrimStart(s);
    var r := TrimEnd(t);
    if r != [] {
      assert r[0] == t[0];
    }
  }

  /** What `TrimStart` drops is whitespace. */
  lemma TrimStartDropped(s: string)
    ensures AllWhitespace(s[..|s| - |TrimStart(s)|])
  {
    var k := |s| - |TrimStart(s)|;
    forall i | 0 <= i < k ensures IsJsWhitespace(s[..k][i]) {
      assert s[..k][i] == s[i];
    }
  }

  /** What `TrimEnd` drops is whitespace. */
  lemma TrimEndDropped(t: string)
    ensures AllWhitespace(t[|TrimEnd(t)|..])
  {
    var k := |TrimEnd(t)|;
    forall i | 0 <= i < |t| - k ensures IsJsWhitespace(t[k..][i]) {
      assert t[k..][i] == t[k + i];
    }
  }

  /** The result of trimming has nothing left to trim. */
  lemma TrimIdempotent(s: string)
    ensures Trim(Trim(s)) == Trim(s)
  {
    var r := Trim(s);
    if r != [] {
      assert TrimStart(r) == r;
      assert TrimEnd(r) == r;
    }
  }

  predicate StartsWith(s: string, prefix: string) {
    |prefix| <= |s| && s[..|prefix|] == prefix
  }

  /** `String.prototype.includes`: `sub` occurs somewhere in `s`. */
  predicate Contains(s: string, sub: string)
    decreases |s|
  {
    StartsWith(s, sub) || (s != [] && Contains(s[1..], sub))
  }

  /** JavaScript's `.length`: the number of UTF-16 code units, two for a code
      point above U+FFFF. */
  function Utf16Length(s: string): (n: nat)
    ensures |s| <= n <= 2 * |s|
  {
    if s == [] then 0 else (if s[0] as int > 0xFFFF then 2 else 1) + Utf16Length(s[1..])
  }

  function DigitChar(d: nat): (c: char)
    requires d < 10
    ensures '0' <= c <= '9'
  {
    (48 + d) as char
  }

  /** `n.toString()` for a non-negative integer: its decimal digits, with no
      leading zero. */
  function DecimalString(n: nat): (r: string)
    ensures r != []
    ensures forall i :: 0 <= i < |r| ==> '0' <= r[i] <= '9'
    ensures n >= 10 ==> |r| >= 2 && r[0] != '0'
    ensures n < 10 ==> |r| == 1
    decreases n
  {
    if n < 10 then [DigitChar(n)] else DecimalString(n / 10) + [DigitChar(n % 10)]
  }

  /** Distinct timestamps render as distinct strings: two ids made from the clock
      collide only when they were made in the same millisecond. */
  lemma {:induction false} DecimalStringInjective(a: nat, b: nat)
    requires DecimalString(a) == DecimalString(b)
    ensures a == b
    decreases a
  {
    var ra, rb := DecimalString(a), DecimalString(b);
    if a < 10 && b < 10 {
      assert ra[0] == DigitChar(a) && rb[0] == DigitChar(b);
    } else if a >= 10 && b >= 10 {
      assert ra == DecimalString(a / 10) + [DigitChar(a % 10)];
      assert rb == DecimalString(b / 10) + [DigitChar(b % 10)];
      assert ra[|ra| - 1] == DigitChar(a % 10) && rb[|rb| - 1] == DigitChar(b % 10);
      assert DecimalString(a / 10) == ra[..|ra| - 1] == rb[..|rb| - 1] == DecimalString(b / 10);
      DecimalStringInjective(a / 10, b / 10);
    }
  }

  // ---------------------------------------------------------------------------
  // How trimming acts on concatenations

  /** Leading whitespace before a piece is dropped entirely. */
  lemma {:induction false} TrimStartWhitespace(x: string, y: string)
    requires AllWhitespace(x)
    ensures TrimStart(x + y) == TrimStart(y)
    decreases |x|
  {
    if x == [] {
      assert x + y == y;
    } else {
      assert (x + y)[0] == x[0] && (x + y)[1..] == x[1..] + y;
      TrimStartWhitespace(x[1..], y);
    }
  }

  /** Once a piece holds text, trimming the start never reaches past it. */
  lemma {:induction false} TrimStartText(x: string, y: string)
    requires !AllWhitespace(x)
    ensures TrimStart(x + y) == TrimStart(x) + y
    decreases |x|
  {
    assert (x + y)[0] == x[0];
    if IsJsWhitespace(x[0]) {
      var i :| 0 <= i < |x| && !IsJsWhitespace(x[i]);
      assert x[1..][i - 1] == x[i];
      assert (x + y)[1..] == x[1..] + y;
      TrimStartText(x[1..], y);
    }
  }

  /** Trailing whitespace after a piece is dropped entirely. */
  lemma {:induction false} TrimEndWhitespace(x: string, y: string)
    requires AllWhitespace(y)
    ensures TrimEnd(x + y) == TrimEnd(x)
    decreases |y|
  {
    if y == [] {
      assert x + y == x;
    } else {
      var z := y[..|y| - 1];
      assert (x + y)[|x + y| - 1] == y[|y| - 1] && (x + y)[..|x + y| - 1] == x + z;
      TrimEndWhitespace(x, z);
    }
  }

  /** Once a piece holds text, trimming the end never reaches before it. */
  lemma {:induction false} TrimEndText(x: string, y: string)
    requires !AllWhitespace(y)
    ensures TrimEnd(x + y) == x + TrimEnd(y)
    decreases |y|
  {
    assert (x + y)[|x + y| - 1] == y[|y| - 1];
    if IsJsWhitespace(y[|y| - 1]) {
      var z := y[..|y| - 1];
      var i :| 0 <= i < |y| && !IsJsWhitespace(y[i]);
      assert z[i] == y[i];
      assert (x + y)[..|x + y| - 1] == x + z;
      TrimEndText(x, z);
    }
  }

  /** Leading whitespace stops at a non-whitespace character. */
  lemma TrimStartBefore(x: string, z: string)
    requires z != [] && !IsJsWhitespace(z[0])
    ensures TrimStart(x + z) == (if AllWhitespace(x) then [] else TrimStart(x)) + z
  {
    if AllWhitespace(x) {
      TrimStartWhitespace(x, z);
      var empty: string := [];
      assert TrimStart(z) == z == empty + z;
    } else {
      TrimStartText(x, z);
    }
  }

  /** Trailing whitespace stops at a non-whitespace character. */
  lemma TrimEndAfter(w: string, y: string)
    requires w != [] && !IsJsWhitespace(w[|w| - 1])
    ensures TrimEnd(w + y) == w + (if AllWhitespace(y) then [] else TrimEnd(y))
  {
    if AllWhitespace(y) {
      TrimEndWhitespace(w, y);
      var empty: string := [];
      assert TrimEnd(w) == w == w + empty;
    } else {
      TrimEndText(w, y);
    }
  }

  /** Regrouping a concatenation, kept as a separate step so that the
      lemmas above need not prove sequence extensionality in a context full
      of facts about trimming. */
  lemma ConcatAssoc(a: string, b: string, c: string)
    ensures a + b + c == a + (b + c)
  {
  }

  /** Trimming drops the leading whitespace, then the trailing. */
  lemma TrimSteps(s: string)
    ensures Trim(s) == TrimEnd(TrimStart(s))
  {
  }

  /** Trimming the start of `x + m + y`, where `m` starts with text, only
      touches `x`. */
  lemma TrimStartInfix(x: string, m: string, y: string)
    requires m != [] && !IsJsWhitespace(m[0])
    ensures TrimStart(x + m + y) == (if AllWhitespace(x) then [] else TrimStart(x)) + m + y
  {
    var x', z := if AllWhitespace(x) then [] else TrimStart(x), m + y;
    assert z[0] == m[0];
    ConcatAssoc(x, m, y);
    TrimStartBefore(x, z);
    ConcatAssoc(x', m, y);
  }

  /** Trimming the end of `x + m + y`, where `m` ends with text, only
      touches `y`. */
  lemma TrimEndInfix(x: string, m: string, y: string)
    requires m != [] && !IsJsWhitespace(m[|m| - 1])
    ensures TrimEnd(x + m + y) == x + m + (if AllWhitespace(y) then [] else TrimEnd(y))
  {
    var w := x + m;
    assert w[|w| - 1] == m[|m| - 1];
    TrimEndAfter(w, y);
  }

  /** A piece with no whitespace at either end survives trimming. */
  lemma TrimKeepsInfix(x: string, m: string, y: string)
    requires m != [] && !IsJsWhitespace(m[0]) && !IsJsWhitespace(m[|m| - 1])
    ensures Contains(TrimEnd(TrimStart(x + m + y)), m)
  {
    var x' := if AllWhitespace(x) then [] else TrimStart(x);
    var y' := if AllWhitespace(y) then [] else TrimEnd(y);
    TrimStartInfix(x, m, y);
    TrimEndInfix(x', m, y);
    ContainsInfix(x', m, y');
  }

  /** A piece of a concatenation is contained in it. */
  lemma {:induction false} ContainsInfix(a: string, b: string, c: string)
    ensures Contains(a + b + c, b)
    decreases |a|
  {
    if a == [] {
      assert (a + b + c)[..|b|] == b;
    } else {
      assert (a + b + c)[1..] == a[1..] + b + c;
      ContainsInfix(a[1..], b, c);
    }
  }
}
