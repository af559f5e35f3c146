/** The string utilities of `src/utils/security.ts`: the HTML escaper
    `sanitizeHtml`, the hexadecimal rendering of the random bytes behind
    `generateNonce`, the open-redirect guard `validateRedirect`, and the
    Content-Security-Policy header built by `generateCSP`. The random source
    and the same-origin test, which depend on the browser, are parameters. */
module Security {
  import opened Wrappers
  import opened Strings

  // ---------------------------------------------------------------------
  // sanitizeHtml

  /** `s.replace(/c/g, rep)` for a one-character pattern: every occurrence of
      `c`, left to right, becomes `rep`. */
  function ReplaceAll(s: string, c: char, rep: string): (r: string)
    ensures c !in s ==> r == s
    ensures |rep| >= 1 ==> |r| >= |s|
  {
    if s == [] then [] else (if s[0] == c then rep else [s[0]]) + ReplaceAll(s[1..], c, rep)
  }

  /** Replacing a character works piece by piece. */
  lemma {:induction false} ReplaceAllConcat(a: string, b: string, c: char, rep: string)
    ensures ReplaceAll(a + b, c, rep) == ReplaceAll(a, c, rep) + ReplaceAll(b, c, rep)
    decreases |a|
  {
    if a != [] {
      assert (a + b)[0] == a[0] && (a + b)[1..] == a[1..] + b;
      ReplaceAllConcat(a[1..], b, c, rep);
      var head := if a[0] == c then rep else [a[0]];
      assert ReplaceAll(a, c, rep) == head + ReplaceAll(a[1..], c, rep);
      ConcatAssoc(head, ReplaceAll(a[1..], c, rep), ReplaceAll(b, c, rep));
    } else {
      assert a + b == b;
    }
  }

  /** The five characters the escaper rewrites. */
  predicate IsMarkup(c: char) {
    c == '&' || c == '<' || c == '>' || c == '"' || c == '\''
  }

  /** The entity each markup character becomes; any other character stays. */
  function EscapeChar(c: char): (r: string)
    ensures IsMarkup(c) ==> |r| >= 4 && r[0] == '&' && r[|r| - 1] == ';'
    ensures !IsMarkup(c) ==> r == [c]
  {
    match c
    case '&' => "&amp;"
    case '<' => "&lt;"
    case '>' => "&gt;"
    case '"' => "&quot;"
    case '\'' => "&#039;"
    case _ => [c]
  }

  /** The escaper as a per-character map: the reference definition that
      `sanitizeHtml` is proved equal to. Its output never holds `<`, `>`,
      `"` or `'`, is at least as long as its input, and is its input when
      there is nothing to escape. */
  function Escape(s: string): (r: string)
    ensures |r| >= |s|
    ensures forall i :: 0 <= i < |r| ==> r[i] != '<' && r[i] != '>' && r[i] != '"' && r[i] != '\''
    ensures (forall i :: 0 <= i < |s| ==> !IsMarkup(s[i])) ==> r == s
  {
    if s == [] then []
    else
      var head, tail := EscapeChar(s[0]), Escape(s[1..]);
      assert forall i :: 0 <= i < |head| ==> head[i] != '<' && head[i] != '>' && head[i] != '"' && head[i] != '\'';
      head + tail
  }

  /** `sanitizeHtml(html)`: five global replacements, `&` first so that no
      entity produced by a later step is escaped again. The chain is the
      per-character escaper, so none of `<`, `>`, `"`, `'` survives. */
  function SanitizeHtml(html: string): (r: string)
    ensures r == Escape(html)
    ensures forall i :: 0 <= i < |r| ==> r[i] != '<' && r[i] != '>' && r[i] != '"' && r[i] != '\''
    ensures (forall i :: 0 <= i < |html| ==> !IsMarkup(html[i])) ==> r == html
    ensures |r| >= |html|
  {
    SanitizeIsEscape(html);
    Chain(html)
  }

  /** The replacement chain of `sanitizeHtml`, in the order the source
      applies it. */
  function Chain(s: string): string {
    ReplaceAll(ReplaceAll(ReplaceAll(ReplaceAll(ReplaceAll(
      s, '&', "&amp;"), '<', "&lt;"), '>', "&gt;"), '"', "&quot;"), '\'', "&#039;")
  }

  lemma ChainConcat(a: string, b: string)
    ensures Chain(a + b) == Chain(a) + Chain(b)
  {
    var a1, b1 := ReplaceAll(a, '&', "&amp;"), ReplaceAll(b, '&', "&amp;");
    ReplaceAllConcat(a, b, '&', "&amp;");
    var a2, b2 := ReplaceAll(a1, '<', "&lt;"), ReplaceAll(b1, '<', "&lt;");
    ReplaceAllConcat(a1, b1, '<', "&lt;");
    var a3, b3 := ReplaceAll(a2, '>', "&gt;"), ReplaceAll(b2, '>', "&gt;");
    ReplaceAllConcat(a2, b2, '>', "&gt;");
    var a4, b4 := ReplaceAll(a3, '"', "&quot;"), ReplaceAll(b3, '"', "&quot;");
    ReplaceAllConcat(a3, b3, '"', "&quot;");
    ReplaceAllConcat(a4, b4, '\'', "&#039;");
  }

  /** Replacing in a one-character string. */
  lemma ReplaceOne(x: char, c: char, rep: string)
    ensures ReplaceAll([x], c, rep) == if x == c then rep else [x]
  {
    assert [x][1..] == [];
  }

  /** The replacements after the first one leave an entity alone. */
  lemma ChainTail(e: string)
    requires forall i :: 0 <= i < |e| ==> e[i] != '<' && e[i] != '>' && e[i] != '"' && e[i] != '\''
    ensures ReplaceAll(e, '<', "&lt;") == e
    ensures ReplaceAll(e, '>', "&gt;") == e
    ensures ReplaceAll(e, '"', "&quot;") == e
    ensures ReplaceAll(e, '\'', "&#039;") == e
  {
    assert '<' !in e && '>' !in e && '"' !in e && '\'' !in e;
  }

  /** On one character the chain is `EscapeChar`: once a character has been
      replaced by its entity, no later step finds anything to replace. */
  lemma ChainChar(c: char)
    ensures Chain([c]) == EscapeChar(c)
  {
    var e := EscapeChar(c);
    ReplaceOne(c, '&', "&amp;");
    ReplaceOne(c, '<', "&lt;");
    ReplaceOne(c, '>', "&gt;");
    ReplaceOne(c, '"', "&quot;");
    ReplaceOne(c, '\'', "&#039;");
    if IsMarkup(c) {
      ChainTail(e);
    }
  }

  lemma {:induction false} SanitizeIsEscape(s: string)
    ensures Chain(s) == Escape(s)
    decreases |s|
  {
    if s != [] {
      assert s == [s[0]] + s[1..];
      ChainConcat([s[0]], s[1..]);
      ChainChar(s[0]);
      SanitizeIsEscape(s[1..]);
    }
  }

  /** Decodes the five entities `sanitizeHtml` produces and keeps every other
      character. */
  function Unescape(s: string): (r: string)
    decreases |s|
  {
    if s == [] then []
    else if StartsWith(s, "&amp;") then "&" + Unescape(s[5..])
    else if StartsWith(s, "&lt;") then "<" + Unescape(s[4..])
    else if StartsWith(s, "&gt;") then ">" + Unescape(s[4..])
    else if StartsWith(s, "&quot;") then "\"" + Unescape(s[6..])
    else if StartsWith(s, "&#039;") then "'" + Unescape(s[6..])
    else [s[0]] + Unescape(s[1..])
  }

  /** A string whose first or second character differs from a pattern's
      does not start with it. */
  lemma DiffersEarly(s: string, p: string, k: nat)
    requires k < |s| && k < |p| && s[k] != p[k]
    ensures !StartsWith(s, p)
  {
    if |p| <= |s| {
      assert s[..|p|][k] == s[k];
    }
  }

  /** Decoding an escaped character followed by anything decodes the
      character and then the rest. */
  lemma UnescapeEntity(c: char, rest: string)
    ensures Unescape(EscapeChar(c) + rest) == [c] + Unescape(rest)
  {
    var s := EscapeChar(c) + rest;
    if c == '&' {
      assert s[..5] == "&amp;" && s[5..] == rest;
    } else if c == '<' {
      assert s[..4] == "&lt;" && s[4..] == rest;
      DiffersEarly(s, "&amp;", 1);
    } else if c == '>' {
      assert s[..4] == "&gt;" && s[4..] == rest;
      DiffersEarly(s, "&amp;", 1);
      DiffersEarly(s, "&lt;", 1);
    } else if c == '"' {
      assert s[..6] == "&quot;" && s[6..] == rest;
      DiffersEarly(s, "&amp;", 1);
      DiffersEarly(s, "&lt;", 1);
      DiffersEarly(s, "&gt;", 1);
    } else if c == '\'' {
      assert s[..6] == "&#039;" && s[6..] == rest;
      DiffersEarly(s, "&amp;", 1);
      DiffersEarly(s, "&lt;", 1);
      DiffersEarly(s, "&gt;", 1);
      DiffersEarly(s, "&quot;", 1);
    } else {
      assert s[0] == c && s[1..] == rest;
      DiffersEarly(s, "&amp;", 0);
      DiffersEarly(s, "&lt;", 0);
      DiffersEarly(s, "&gt;", 0);
      DiffersEarly(s, "&quot;", 0);
      DiffersEarly(s, "&#039;", 0);
    }
  }

  /** Escaping loses nothing: decoding the entities gives the input back. */
  lemma {:induction false} UnescapeSanitize(html: string)
    ensures Unescape(SanitizeHtml(html)) == html
    decreases |html|
  {
    if html != [] {
      UnescapeEntity(html[0], Escape(html[1..]));
      UnescapeSanitize(html[1..]);
      assert Escape(html) == EscapeChar(html[0]) + Escape(html[1..]);
      assert html == [html[0]] + html[1..];
    }
  }

  // ---------------------------------------------------------------------
  // generateNonce

  /** An element of a `Uint8Array`. */
  type Byte = b: int | 0 <= b < 256

  /** The number of bytes in a nonce. */
  const NonceBytes := 16

  predicate IsLowerHex(c: char) {
    '0' <= c <= '9' || 'a' <= c <= 'f'
  }

  function HexDigit(d: int): (c: char)
    requires 0 <= d < 16
    ensures IsLowerHex(c)
  {
    if d < 10 then (48 + d) as char else (87 + d) as char
  }

  /** The value of a lower-case hexadecimal digit; any other character
      reads as zero. */
  function HexValue(c: char): (d: int)
    ensures 0 <= d < 16
    ensures !IsLowerHex(c) ==> d == 0
  {
    if '0' <= c <= '9' then c as int - 48 else if 'a' <= c <= 'f' then c as int - 87 else 0
  }

  /** `n.toString(16)` for a non-negative integer: lower-case hexadecimal
      digits without a leading zero. */
  function ToHexString(n: nat): (r: string)
    ensures r != [] && forall i :: 0 <= i < |r| ==> IsLowerHex(r[i])
    ensures |r| == 1 <==> n < 16
    ensures r[0] == '0' ==> n == 0
    decreases n
  {
    if n < 16 then [HexDigit(n)] else ToHexString(n / 16) + [HexDigit(n % 16)]
  }

  /** `s.padStart(targetLength, fill)` with a one-character fill: the fill is
      repeated in front until the target length is reached. */
  function PadStart(s: string, targetLength: nat, fill: char): (r: string)
    ensures |r| == if |s| >= targetLength then |s| else targetLength
    ensures r[|r| - |s|..] == s
    ensures forall i :: 0 <= i < |r| - |s| ==> r[i] == fill
  {
    if |s| >= targetLength then s else seq(targetLength - |s|, _ => fill) + s
  }

  /** The two lower-case digits of a byte: the high and the low nibble. */
  function HexByte(b: Byte): string {
    [HexDigit(b / 16), HexDigit(b % 16)]
  }

  /** `byte.toString(16).padStart(2, '0')` is the two-digit form of the byte:
      a byte below 16 gets a leading zero, any other has two digits already. */
  lemma PaddedHexByte(b: Byte)
    ensures PadStart(ToHexString(b), 2, '0') == HexByte(b)
  {
    assert b / 16 < 16 && (b < 16 ==> b / 16 == 0 && b % 16 == b);
    if b >= 16 {
      assert ToHexString(b) == ToHexString(b / 16) + [HexDigit(b % 16)];
    }
  }

  /** `Array.from(bytes).map(HexByte).join('')`: two lower-case hexadecimal
      digits per byte, in order. */
  function HexEncode(bytes: seq<Byte>): (r: string)
    ensures |r| == 2 * |bytes|
  {
    if bytes == [] then [] else HexByte(bytes[0]) + HexEncode(bytes[1..])
  }

  /** Byte `i` is rendered at positions `2 * i` and `2 * i + 1`. */
  lemma {:induction false} HexEncodeAt(bytes: seq<Byte>, i: nat)
    requires i < |bytes|
    ensures HexEncode(bytes)[2 * i] == HexDigit(bytes[i] / 16)
    ensures HexEncode(bytes)[2 * i + 1] == HexDigit(bytes[i] % 16)
  {
    var r, head, tail := HexEncode(bytes), HexByte(bytes[0]), HexEncode(bytes[1..]);
    assert r == head + tail;
    if i == 0 {
      assert r[0] == head[0] && r[1] == head[1];
    } else {
      HexEncodeAt(bytes[1..], i - 1);
      var j := 2 * (i - 1);
      assert r[2 * i] == tail[j] && r[2 * i + 1] == tail[j + 1];
      assert bytes[1..][i - 1] == bytes[i];
    }
  }

  /** Reads back a string of hexadecimal digit pairs, one value per pair; an
      odd last digit is ignored. */
  function HexDecode(s: string): seq<int> {
    if |s| < 2 then [] else [HexValue(s[0]) * 16 + HexValue(s[1])] + HexDecode(s[2..])
  }

  /** Each digit reads back as its value. */
  lemma HexDigitValue(d: int)
    requires 0 <= d < 16
    ensures HexValue(HexDigit(d)) == d
  {
  }

  /** A byte's two digits read back as that byte. */
  lemma ByteDigits(b: Byte)
    ensures HexValue(HexDigit(b / 16)) * 16 + HexValue(HexDigit(b % 16)) == b
  {
    HexDigitValue(b / 16);
    HexDigitValue(b % 16);
  }

  /** Decoding reads the first pair of digits, then the rest. */
  lemma HexDecodePair(hi: char, lo: char, tail: string)
    ensures HexDecode([hi, lo] + tail) == [HexValue(hi) * 16 + HexValue(lo)] + HexDecode(tail)
  {
    var s := [hi, lo] + tail;
    assert s[2..] == tail;
  }

  /** The encoding loses nothing: distinct byte arrays give distinct nonces. */
  lemma {:induction false} HexRoundTrip(bytes: seq<Byte>)
    ensures HexDecode(HexEncode(bytes)) == bytes
  {
    if bytes != [] {
      var b, tail := bytes[0], HexEncode(bytes[1..]);
      assert HexEncode(bytes) == [HexDigit(b / 16), HexDigit(b % 16)] + tail;
      HexDecodePair(HexDigit(b / 16), HexDigit(b % 16), tail);
      ByteDigits(b);
      HexRoundTrip(bytes[1..]);
      assert bytes == [b] + bytes[1..];
    }
  }

  /** `generateNonce()`. The 16 bytes start as zeros and are overwritten by
      the browser's random source when there is one (`random`). The nonce is
      32 lower-case hexadecimal digits that decode back to the bytes, all
      zero digits when there is no random source. */
  function GenerateNonce(random: Option<seq<Byte>>): (nonce: string)
    requires random.Some? ==> |random.value| == NonceBytes
    ensures |nonce| == 2 * NonceBytes
    ensures forall i :: 0 <= i < |nonce| ==> IsLowerHex(nonce[i])
    ensures random.Some? ==> HexDecode(nonce) == random.value
    ensures random.None? ==> forall i :: 0 <= i < |nonce| ==> nonce[i] == '0'
  {
    var randomBytes: seq<Byte> := if random.Some? then random.value else seq(NonceBytes, _ => 0);
    var nonce := HexEncode(randomBytes);
    HexRoundTrip(randomBytes);
    assert forall i :: 0 <= i < |nonce| ==> IsLowerHex(nonce[i]) && (random.None? ==> nonce[i] == '0') by {
      forall i | 0 <= i < |nonce| ensures IsLowerHex(nonce[i]) && (random.None? ==> nonce[i] == '0') {
        var k := i / 2;
        HexEncodeAt(randomBytes, k);
        assert i == 2 * k || i == 2 * k + 1;
      }
    }
    nonce
  }

  // ---------------------------------------------------------------------
  // validateRedirect

  const DefaultPath := "/"

  /** A path relative to the current origin: one leading slash, not two. */
  predicate IsRelativePath(url: string)
    ensures IsRelativePath(url) <==> |url| >= 1 && url[0] == '/' && (|url| == 1 || url[1] != '/')
  {
    StartsWith(url, "/") && !StartsWith(url, "//")
  }

  /** `validateRedirect(url)`, where `isSameOrigin` is the browser-dependent
      test of the same file. A missing or empty url gives `/`; a relative
      path is kept unless it contains `..`; any other url is kept exactly
      when it is of the same origin. The answer is the input or `/`, and
      whatever is not `/` is a relative path without `..` or of the same
      origin. */
  function ValidateRedirect(url: Option<string>, isSameOrigin: string -> bool): (r: string)
    ensures r == DefaultPath || (url.Some? && r == url.value)
    ensures url.None? || url.value == [] ==> r == DefaultPath
    ensures url.Some? && IsRelativePath(url.value) ==>
      (r == url.value <==> !Contains(url.value, "..") || url.value == DefaultPath)
    ensures url.Some? && url.value != [] && !IsRelativePath(url.value) ==>
      (r == url.value <==> isSameOrigin(url.value))
    ensures r != DefaultPath ==> (IsRelativePath(r) && !Contains(r, "..")) || isSameOrigin(r)
  {
    match url
    case None => DefaultPath
    case Some(u) =>
      if u == [] then DefaultPath
      else if IsRelativePath(u) then (if !Contains(u, "..") then u else DefaultPath)
      else if isSameOrigin(u) then u
      else DefaultPath
  }

  // ---------------------------------------------------------------------
  // generateCSP

  /** `s.replace(/\s+/g, ' ')`: every maximal run of whitespace becomes one
      space, so no two whitespace characters are left in a row and the only
      one left is the space; text without whitespace is unchanged. */
  function CollapseWhitespace(s: string): (r: string)
    ensures Collapsed(r) && |r| <= |s|
    ensures NoWhitespace(s) ==> r == s
    ensures NonWhitespace(r) == NonWhitespace(s)
  {
    CollapseIsCollapsed(s, false);
    CollapseKeepsText(s, false);
    CollapseRun(s, false)
  }

  /** The collapsing scan, left to right; `inRun` tells whether the previous
      character was whitespace, whose run has already produced its space. A
      scan that starts inside a run produces no leading whitespace. */
  function CollapseRun(s: string, inRun: bool): (r: string)
    ensures |r| <= |s|
    ensures inRun && r != [] ==> !IsJsWhitespace(r[0])
    ensures NoWhitespace(s) ==> r == s
  {
    if s == [] then []
    else if IsJsWhitespace(s[0]) then
      (if inRun then CollapseRun(s[1..], true) else " " + CollapseRun(s[1..], true))
    else [s[0]] + CollapseRun(s[1..], false)
  }

  /** The characters of `s` that are not whitespace, in order. */
  function NonWhitespace(s: string): (r: string)
    ensures NoWhitespace(r) && |r| <= |s|
    ensures NoWhitespace(s) ==> r == s
  {
    if s == [] then []
    else if IsJsWhitespace(s[0]) then NonWhitespace(s[1..])
    else [s[0]] + NonWhitespace(s[1..])
  }

  /** The scan keeps every character that is not whitespace, in order. */
  lemma {:induction false} CollapseKeepsText(s: string, inRun: bool)
    ensures NonWhitespace(CollapseRun(s, inRun)) == NonWhitespace(s)
    decreases |s|
  {
    if s != [] {
      var w := IsJsWhitespace(s[0]);
      var rest := CollapseRun(s[1..], w);
      CollapseKeepsText(s[1..], w);
      var c := if w then (if inRun then [] else " ") else [s[0]];
      assert CollapseRun(s, inRun) == c + rest;
      if c != [] {
        assert (c + rest)[0] == c[0] && (c + rest)[1..] == rest;
      }
    }
  }

  /** A non-empty run of whitespace becomes exactly one space when the scan
      meets it outside a run, and nothing inside one. */
  lemma {:induction false} RunIsOneSpace(w: string)
    requires w != [] && AllWhitespace(w)
    ensures CollapseRun(w, false) == " " && CollapseRun(w, true) == []
    decreases |w|
  {
    if |w| > 1 {
      RunIsOneSpace(w[1..]);
    }
  }

  /** Whether the scan is inside a run after reading `s`. */
  function InRunAfter(s: string, inRun: bool): bool {
    if s == [] then inRun else IsJsWhitespace(s[|s| - 1])
  }

  /** No whitespace but single spaces. */
  ghost predicate Collapsed(s: string) {
    && (forall i :: 0 <= i < |s| && IsJsWhitespace(s[i]) ==> s[i] == ' ')
    && (forall i :: 0 <= i < |s| - 1 ==> !(IsJsWhitespace(s[i]) && IsJsWhitespace(s[i + 1])))
  }

  /** Collapsed, and nothing for `trim` to remove. */
  ghost predicate Normalized(s: string) {
    Collapsed(s) && (s == [] || (!IsJsWhitespace(s[0]) && !IsJsWhitespace(s[|s| - 1])))
  }

  /** The collapsed string has no two whitespace characters in a row and no
      whitespace but the space. */
  lemma {:induction false} CollapseIsCollapsed(s: string, inRun: bool)
    ensures Collapsed(CollapseRun(s, inRun))
  {
    if s != [] {
      var rest := CollapseRun(s[1..], IsJsWhitespace(s[0]));
      CollapseIsCollapsed(s[1..], IsJsWhitespace(s[0]));
      var r := CollapseRun(s, inRun);
      if !(IsJsWhitespace(s[0]) && inRun) {
        var c := if IsJsWhitespace(s[0]) then ' ' else s[0];
        assert r == [c] + rest;
        assert forall i :: 1 <= i < |r| ==> r[i] == rest[i - 1];
      }
    }
  }

  /** The scan works piece by piece: the second piece is read in the run
      state the first one leaves. */
  lemma {:induction false} CollapseConcat(x: string, y: string, inRun: bool)
    ensures CollapseRun(x + y, inRun) == CollapseRun(x, inRun) + CollapseRun(y, InRunAfter(x, inRun))
    decreases |x|
  {
    if x == [] {
      assert x + y == y;
    } else {
      var t, w := x[1..], IsJsWhitespace(x[0]);
      assert (x + y)[0] == x[0] && (x + y)[1..] == t + y;
      var c := if w then (if inRun then [] else " ") else [x[0]];
      assert CollapseRun(x + y, inRun) == c + CollapseRun(t + y, w);
      assert CollapseRun(x, inRun) == c + CollapseRun(t, w);
      CollapseConcat(t, y, w);
      ConcatAssoc(c, CollapseRun(t, w), CollapseRun(y, InRunAfter(x, inRun)));
      assert InRunAfter(t, w) == InRunAfter(x, inRun) by {
        if t != [] { assert t[|t| - 1] == x[|x| - 1]; }
      }
    }
  }

  /** A collapsed piece with no whitespace at either end passes through the
      scan unchanged, whether or not the scan starts inside a run. */
  lemma {:induction false} CollapseFixed(a: string, inRun: bool)
    requires Normalized(a)
    ensures CollapseRun(a, inRun) == a
    decreases |a|
  {
    if |a| > 1 {
      var t := a[1..];
      assert t[0] == a[1] && t[|t| - 1] == a[|a| - 1];
      if IsJsWhitespace(a[1]) {
        assert !IsJsWhitespace(a[2]) && a[1] == ' ';
        var u := t[1..];
        assert u[0] == a[2] && u[|u| - 1] == a[|a| - 1];
        assert Collapsed(u) by {
          assert forall i :: 0 <= i < |u| ==> u[i] == a[i + 2];
        }
        CollapseFixed(u, true);
        assert a == [a[0]] + ([a[1]] + u);
      } else {
        assert Collapsed(t) by {
          assert forall i :: 0 <= i < |t| ==> t[i] == a[i + 1];
        }
        CollapseFixed(t, false);
        assert a == [a[0]] + t;
      }
    }
  }

  /** Every piece of a collapsed string is collapsed. */
  lemma InfixCollapsed(pre: string, r: string, post: string)
    requires Collapsed(pre + r + post)
    ensures Collapsed(r)
  {
    var s := pre + r + post;
    assert forall i :: 0 <= i < |r| ==> r[i] == s[|pre| + i];
  }

  /** Trimming a collapsed string leaves it normalized. */
  lemma TrimCollapsed(s: string)
    requires Collapsed(s)
    ensures Normalized(Trim(s))
  {
    var r := Trim(s);
    SurroundsSplit(s, r);
    var pre, post :| s == pre + r + post && AllWhitespace(pre) && AllWhitespace(post);
    InfixCollapsed(pre, r, post);
  }

  /** The directives of the policy, one per line of the template: eleven of
      them, each closed by a semicolon. */
  function CspDirectives(nonce: string): (d: seq<string>)
    ensures |d| == 11
    ensures forall i :: 0 <= i < |d| ==> d[i] != [] && d[i][|d[i]| - 1] == ';'
  {
    [ "default-src 'self';",
      "script-src 'self' 'nonce-" + nonce + "' 'strict-dynamic';",
      "style-src 'self' 'nonce-" + nonce + "';",
      "img-src 'self' blob: data:;",
      "font-src 'self';",
      "object-src 'none';",
      "base-uri 'self';",
      "form-action 'self';",
      "frame-ancestors 'none';",
      "block-all-mixed-content;",
      "upgrade-insecure-requests;" ]
  }

  /** The indentation before each line of the template literal. */
  const LineBreak := "\n    "

  /** Every line of the template literal: a newline and four spaces of
      indentation before each directive. */
  function IndentedLines(lines: seq<string>): (r: string)
    ensures r == [] <==> lines == []
    ensures lines != [] ==> StartsWith(r, LineBreak)
  {
    if lines == [] then [] else LineBreak + lines[0] + IndentedLines(lines[1..])
  }

  /** The template literal of `generateCSP`: the indented directives, then a
      newline and the two spaces before the closing backtick. */
  function CspTemplate(nonce: string): (r: string)
    ensures StartsWith(r, LineBreak)
    ensures |r| >= 3 && r[|r| - 3..] == "\n  "
  {
    IndentedLines(CspDirectives(nonce)) + "\n  "
  }

  /** `generateCSP(nonce)`: the template with its whitespace runs collapsed
      and trimmed. The header has no leading or trailing whitespace, no two
      whitespace characters in a row, and no whitespace but the space. */
  function GenerateCsp(nonce: string): (csp: string)
    ensures Normalized(csp)
  {
    var collapsed := CollapseWhitespace(CspTemplate(nonce));
    CollapseIsCollapsed(CspTemplate(nonce), false);
    TrimCollapsed(collapsed);
    Trim(collapsed)
  }

  /** The template around its line `k`. */
  lemma {:induction false} IndentedSplit(lines: seq<string>, k: nat)
    requires k < |lines|
    ensures IndentedLines(lines) == IndentedLines(lines[..k]) + LineBreak + lines[k] + IndentedLines(lines[k + 1..])
  {
    if k > 0 {
      var tail := lines[1..];
      IndentedSplit(tail, k - 1);
      assert tail[..k - 1] == lines[1..k];
      assert tail[k - 1] == lines[k];
      assert tail[k..] == lines[k + 1..];
      assert lines[..k][1..] == lines[1..k];
      var front := LineBreak + lines[0];
      assert IndentedLines(lines[..k]) == front + IndentedLines(lines[1..k]);
      ConcatAssoc(front, IndentedLines(lines[1..k]) + LineBreak + lines[k], IndentedLines(lines[k + 1..]));
    } else {
      assert lines[..0] == [] && lines[1..] == lines[k + 1..];
    }
  }

  /** A normalized piece between two others passes through the scan
      unchanged. */
  lemma CollapseAround(before: string, line: string, after: string)
    requires Normalized(line)
    ensures CollapseRun(before + line + after, false)
      == CollapseRun(before, false) + line + CollapseRun(after, InRunAfter(before + line, false))
  {
    CollapseConcat(before + line, after, false);
    CollapseConcat(before, line, false);
    CollapseFixed(line, InRunAfter(before, false));
  }

  /** Every directive that is normalized appears unchanged in the header. */
  lemma LineSurvives(lines: seq<string>, k: nat, closing: string)
    requires k < |lines| && lines[k] != [] && Normalized(lines[k])
    ensures Contains(Trim(CollapseWhitespace(IndentedLines(lines) + closing)), lines[k])
  {
    var before, line, after := IndentedLines(lines[..k]) + LineBreak, lines[k], IndentedLines(lines[k + 1..]) + closing;
    assert IndentedLines(lines) + closing == before + line + after by {
      IndentedSplit(lines, k);
      ConcatAssoc(before + line, IndentedLines(lines[k + 1..]), closing);
    }
    CollapseAround(before, line, after);
    TrimKeepsNormalized(CollapseRun(before, false), line, CollapseRun(after, InRunAfter(before + line, false)));
  }

  /** Trimming keeps a normalized piece that has text around it. */
  lemma TrimKeepsNormalized(x: string, m: string, y: string)
    requires m != [] && Normalized(m)
    ensures Contains(Trim(x + m + y), m)
  {
    TrimKeepsInfix(x, m, y);
    TrimSteps(x + m + y);
  }

  /** Printable ASCII text with single inner spaces. */
  ghost predicate PlainText(s: string) {
    && (forall i :: 0 <= i < |s| ==> ' ' <= s[i] <= '~')
    && (forall i :: 0 <= i < |s| - 1 ==> !(s[i] == ' ' && s[i + 1] == ' '))
    && (s != [] ==> s[0] != ' ' && s[|s| - 1] != ' ')
  }

  /** Among printable ASCII characters, only the space is whitespace. */
  lemma PlainTextNormalized(s: string)
    requires PlainText(s)
    ensures Normalized(s)
  {
  }

  /** A word without whitespace between two non-empty normalized pieces
      keeps the whole normalized. */
  lemma SandwichNormalized(p: string, w: string, q: string)
    requires p != [] && q != [] && Normalized(p) && Normalized(q) && NoWhitespace(w)
    ensures Normalized(p + w + q)
  {
    var r := p + w + q;
    var n := |p| + |w|;
    forall i | 0 <= i < |r| ensures IsJsWhitespace(r[i]) ==> r[i] == ' ' {
      if i < |p| { assert r[i] == p[i]; }
      else if i < n { assert r[i] == w[i - |p|]; }
      else { assert r[i] == q[i - n]; }
    }
    forall i | 0 <= i < |r| - 1 && IsJsWhitespace(r[i]) ensures !IsJsWhitespace(r[i + 1]) {
      if i + 1 < |p| { assert r[i] == p[i] && r[i + 1] == p[i + 1]; }
      else if i >= n { assert r[i] == q[i - n] && r[i + 1] == q[i + 1 - n]; }
    }
    assert r[0] == p[0] && r[|r| - 1] == q[|q| - 1];
  }

  /** The `script-src` directive stays normalized around a nonce free of
      whitespace. */
  lemma ScriptDirectiveNormalized(nonce: string)
    requires NoWhitespace(nonce)
    ensures Normalized("script-src 'self' 'nonce-" + nonce + "' 'strict-dynamic';")
  {
    var p, q := "script-src 'self' 'nonce-", "' 'strict-dynamic';";
    assert PlainText(p);
    assert PlainText(q);
    PlainTextNormalized(p);
    PlainTextNormalized(q);
    SandwichNormalized(p, nonce, q);
  }

  /** So does the `style-src` directive. */
  lemma StyleDirectiveNormalized(nonce: string)
    requires NoWhitespace(nonce)
    ensures Normalized("style-src 'self' 'nonce-" + nonce + "';")
  {
    var p, q := "style-src 'self' 'nonce-", "';";
    assert PlainText(p);
    assert PlainText(q);
    PlainTextNormalized(p);
    PlainTextNormalized(q);
    SandwichNormalized(p, nonce, q);
  }

  /** With a nonce free of whitespace, the header names the nonce as a source
      of both `script-src` and `style-src`, with the directives written as in
      the template. */
  lemma CspNamesNonce(nonce: string)
    requires NoWhitespace(nonce)
    ensures Contains(GenerateCsp(nonce), "script-src 'self' 'nonce-" + nonce + "' 'strict-dynamic';")
    ensures Contains(GenerateCsp(nonce), "style-src 'self' 'nonce-" + nonce + "';")
  {
    var d := CspDirectives(nonce);
    ScriptDirectiveNormalized(nonce);
    StyleDirectiveNormalized(nonce);
    LineSurvives(d, 1, "\n  ");
    LineSurvives(d, 2, "\n  ");
  }
}
