/**
 The string helpers of the quiz's script (js/app.js): trimming of the search
 box, the image-path normaliser and the HTML escaper used when a question
 title is rendered as markup.
 */
module Text {
  import opened JsValues

  /**
   The characters `String.prototype.trim` removes: the ECMAScript WhiteSpace
   and LineTerminator code points.
   */
  predicate IsWhitespace(c: char) {
    || c == '\t' || c == '\n' || c == '\U{B}' || c == '\U{C}' || c == '\r'
    || c == ' ' || c == '\U{A0}' || c == '\U{1680}'
    || ('\U{2000}' <= c <= '\U{200A}')
    || c == '\U{2028}' || c == '\U{2029}' || c == '\U{202F}' || c == '\U{205F}'
    || c == '\U{3000}' || c == '\U{FEFF}'
  }

  /** The index of the first character at or after `i` that is not whitespace, or `|s|`. */
  function SkipLeading(s: string, i: nat): (k: nat)
    requires i <= |s|
    ensures i <= k <= |s|
    ensures forall j :: i <= j < k ==> IsWhitespace(s[j])
    ensures k < |s| ==> !IsWhitespace(s[k])
    decreases |s| - i
  {
    if i < |s| && IsWhitespace(s[i]) then SkipLeading(s, i + 1) else i
  }

  /** The end of `s[lo..hi]` once its trailing whitespace is dropped. */
  function SkipTrailing(s: string, lo: nat, hi: nat): (k: nat)
    requires lo <= hi <= |s|
    ensures lo <= k <= hi
    ensures forall j :: k <= j < hi ==> IsWhitespace(s[j])
    ensures k > lo ==> !IsWhitespace(s[k - 1])
    decreases hi
  {
    if hi > lo && IsWhitespace(s[hi - 1]) then SkipTrailing(s, lo, hi - 1) else hi
  }

  /**
   `s.trim()`: a slice of `s` that neither starts nor ends with whitespace, and
   that is empty exactly when `s` is all whitespace.
   */
  function Trim(s: string): (r: string)
    ensures r == "" <==> forall i :: 0 <= i < |s| ==> IsWhitespace(s[i])
    ensures r != "" ==> !IsWhitespace(r[0]) && !IsWhitespace(r[|r| - 1])
    ensures |r| <= |s|
    ensures exists lo, hi ::
      && 0 <= lo <= hi <= |s| && r == s[lo..hi]
      && (forall j :: 0 <= j < lo ==> IsWhitespace(s[j]))
      && (forall j :: hi <= j < |s| ==> IsWhitespace(s[j]))
  {
    var lo := SkipLeading(s, 0);
    var hi := SkipTrailing(s, lo, |s|);
    assert hi > lo ==> s[lo..hi][0] == s[lo] && s[lo..hi][hi - lo - 1] == s[hi - 1];
    s[lo..hi]
  }

  /** Trimming twice trims nothing more. */
  lemma TrimIdempotent(s: string)
    ensures Trim(Trim(s)) == Trim(s)
  {
    var r := Trim(s);
    if r != "" {
      assert SkipLeading(r, 0) == 0;
      assert SkipTrailing(r, 0, |r|) == |r|;
      assert r[0..|r|] == r;
    }
  }

  // ---------------------------------------------------------------------------
  // normalizeImage

  /** Every backslash of `s` turned into a forward slash, everything else kept. */
  function SlashBackslashes(s: string): (r: string)
    ensures |r| == |s|
    ensures forall i :: 0 <= i < |s| ==> r[i] == (if s[i] == '\\' then '/' else s[i])
  {
    if s == "" then ""
    else [if s[0] == '\\' then '/' else s[0]] + SlashBackslashes(s[1..])
  }

  /** The image path as the page uses it: empty when missing, with `/` as the only separator. */
  function NormalizeImage(path: JsString): (r: string)
    ensures !path.Truthy() ==> r == ""
    ensures '\\' !in r
    ensures path.Truthy() ==> |r| == |path.s|
    ensures path.Truthy() ==> forall i :: 0 <= i < |r| ==> (r[i] == '/' <==> path.s[i] in {'/', '\\'})
    ensures path.Truthy() ==> forall i :: 0 <= i < |r| && path.s[i] != '\\' ==> r[i] == path.s[i]
  {
    if !path.Truthy() then "" else SlashBackslashes(path.s)
  }

  /** Normalising an already normalised path changes nothing. */
  lemma NormalizeImageIdempotent(path: JsString)
    ensures NormalizeImage(Str(NormalizeImage(path))) == NormalizeImage(path)
  {
    var r := NormalizeImage(path);
    if r != "" {
      assert NormalizeImage(Str(r)) == r;
    }
  }

  // ---------------------------------------------------------------------------
  // escapeHtml

  /** `s.replace(/c/g, rep)`: each occurrence of `c` replaced by `rep`. */
  function ReplaceChar(s: string, c: char, rep: string): (r: string)
    ensures forall d :: d in r ==> (d in s && d != c) || d in rep
    ensures c !in s ==> r == s
  {
    if s == "" then ""
    else (if s[0] == c then rep else [s[0]]) + ReplaceChar(s[1..], c, rep)
  }

  /** The three replacements of `escapeHtml`, in the source's order. */
  function EscapeHtml(s: string): (r: string)
    ensures '<' !in r && '>' !in r
  {
    ReplaceChar(ReplaceChar(ReplaceChar(s, '&', "&amp;"), '<', "&lt;"), '>', "&gt;")
  }

  /** The escape of one character. */
  function EscapeChar(c: char): string {
    if c == '&' then "&amp;" else if c == '<' then "&lt;" else if c == '>' then "&gt;" else [c]
  }

  /** A one-pass escaper: each character replaced by its own escape. */
  function EscapeEach(s: string): string {
    if s == "" then "" else EscapeChar(s[0]) + EscapeEach(s[1..])
  }

  /** The decoder for the three entities `escapeHtml` produces. */
  function Unescape(s: string): string {
    if s == "" then ""
    else if |s| >= 5 && s[..5] == "&amp;" then "&" + Unescape(s[5..])
    else if |s| >= 4 && s[..4] == "&lt;" then "<" + Unescape(s[4..])
    else if |s| >= 4 && s[..4] == "&gt;" then ">" + Unescape(s[4..])
    else [s[0]] + Unescape(s[1..])
  }

  lemma {:induction false} ReplaceCharAppend(a: string, b: string, c: char, rep: string)
    ensures ReplaceChar(a + b, c, rep) == ReplaceChar(a, c, rep) + ReplaceChar(b, c, rep)
  {
    if a != "" {
      assert (a + b)[1..] == a[1..] + b;
      ReplaceCharAppend(a[1..], b, c, rep);
    } else {
      assert a + b == b;
    }
  }

  lemma ReplaceCharSingle(c: char, x: char, rep: string)
    ensures ReplaceChar([c], x, rep) == if c == x then rep else [c]
  {
    assert [c][1..] == "";
  }

  /** `escapeHtml` distributes over concatenation. */
  lemma EscapeHtmlAppend(a: string, b: string)
    ensures EscapeHtml(a + b) == EscapeHtml(a) + EscapeHtml(b)
  {
    var a1, b1 := ReplaceChar(a, '&', "&amp;"), ReplaceChar(b, '&', "&amp;");
    ReplaceCharAppend(a, b, '&', "&amp;");
    var a2, b2 := ReplaceChar(a1, '<', "&lt;"), ReplaceChar(b1, '<', "&lt;");
    ReplaceCharAppend(a1, b1, '<', "&lt;");
    ReplaceCharAppend(a2, b2, '>', "&gt;");
  }

  /** On one character, the three passes give that character's escape. */
  lemma EscapeHtmlSingle(c: char)
    ensures EscapeHtml([c]) == EscapeChar(c)
  {
    ReplaceCharSingle(c, '&', "&amp;");
    var s1 := ReplaceChar([c], '&', "&amp;");
    if c == '&' {
      assert s1 == "&amp;";
      assert '<' !in s1 && '>' !in s1;
    } else {
      ReplaceCharSingle(c, '<', "&lt;");
      var s2 := ReplaceChar(s1, '<', "&lt;");
      if c == '<' {
        assert s2 == "&lt;";
        assert '>' !in s2;
      } else {
        ReplaceCharSingle(c, '>', "&gt;");
      }
    }
  }

  /**
   Because `&` is replaced first, the three sequential passes escape each
   character independently: no entity is escaped twice.
   */
  lemma {:induction false} EscapeHtmlIsPerChar(s: string)
    ensures EscapeHtml(s) == EscapeEach(s)
  {
    if s != "" {
      assert s == [s[0]] + s[1..];
      EscapeHtmlAppend([s[0]], s[1..]);
      EscapeHtmlSingle(s[0]);
      EscapeHtmlIsPerChar(s[1..]);
    } else {
      assert EscapeHtml(s) == "";
    }
  }

  /** Decoding undoes the one-pass escaper. */
  lemma {:induction false} UnescapeEscapeEach(s: string)
    ensures Unescape(EscapeEach(s)) == s
  {
    if s != "" {
      var c, t := s[0], s[1..];
      var e := EscapeEach(s);
      UnescapeEscapeEach(t);
      assert e == EscapeChar(c) + EscapeEach(t);
      var k := |EscapeChar(c)|;
      assert e[..k] == EscapeChar(c) && e[k..] == EscapeEach(t);
      if c != '&' && k >= 2 {
        assert e[1] == EscapeChar(c)[1];
      }
      assert s == [c] + t;
    }
  }

  /** `escapeHtml` loses nothing: decoding its output gives back the input. */
  lemma EscapeHtmlRoundTrip(s: string)
    ensures Unescape(EscapeHtml(s)) == s
  {
    EscapeHtmlIsPerChar(s);
    UnescapeEscapeEach(s);
  }
}
