/**
 * The injection screens the two ingestion controllers apply to text
 * fields: one SQL pattern and four XSS patterns, all case-insensitive.
 * Each regular expression is written out as a predicate saying where in
 * the string it can match; `pattern.test(s)` holds exactly when such a
 * position exists.
 */
module InjectionPatterns {
  import opened JsStrings

  // ------------------------------------------------------------ SQL

  /** The alternatives of the SQL pattern that must stand as whole words. */
  const SqlKeywords: seq<string> := ["or", "and", "union", "select", "insert", "delete", "update", "drop"]

  /** `\b` at position `p`: exactly one of the characters around `p` is a word character. */
  predicate WordBoundary(s: string, p: nat)
    requires p <= |s|
  {
    var before := p > 0 && IsWordChar(s[p - 1]);
    var after := p < |s| && IsWordChar(s[p]);
    before != after
  }

  /** `\b<w>\b` matches at `i` (case-insensitively), for a keyword `w` of word characters. */
  predicate WholeWordAt(s: string, i: nat, w: string) {
    i + |w| <= |s| && MatchesAtCI(s, i, w) && WordBoundary(s, i) && WordBoundary(s, i + |w|)
  }

  /** One alternative of `('|(\\)|;|--|\bor\b|…|\bdrop\b)` matches at `i`. */
  predicate SqlMatchAt(s: string, i: nat)
    requires i < |s|
  {
    s[i] == '\'' || s[i] == '\\' || s[i] == ';' || MatchesAt(s, i, "--")
    || exists k | 0 <= k < |SqlKeywords| :: WholeWordAt(s, i, SqlKeywords[k])
  }

  /** The SQL injection pattern matches somewhere in `s`. */
  predicate SqlPattern(s: string) {
    exists i | 0 <= i < |s| :: SqlMatchAt(s, i)
  }

  // ------------------------------------------------------------ XSS

  /**
   * `/<tag\b[^<]*(?:(?!<\/tag>)<[^<]*)*<\/tag>/i`: an opening `<tag`
   * followed by a word boundary, and a closing `</tag>` somewhere after
   * it. The middle part of the expression consumes any text up to the
   * first closing tag, so these two positions are all it needs.
   */
  predicate ElementPattern(s: string, open: string, close: string) {
    exists i, j | 0 <= i && i + |open| <= j <= |s| ::
      MatchesAtCI(s, i, open) && WordBoundary(s, i + |open|) && MatchesAtCI(s, j, close)
  }

  predicate ScriptPattern(s: string) { ElementPattern(s, "<script", "</script>") }

  predicate IframePattern(s: string) { ElementPattern(s, "<iframe", "</iframe>") }

  /** `/javascript:/i`. */
  predicate JavascriptPattern(s: string) {
    exists i | 0 <= i <= |s| :: MatchesAtCI(s, i, "javascript:")
  }

  predicate AllWordChars(s: string, from: nat, to: nat)
    requires from <= to <= |s|
  {
    forall p | from <= p < to :: IsWordChar(s[p])
  }

  predicate AllWhitespace(s: string, from: nat, to: nat)
    requires from <= to <= |s|
  {
    forall p | from <= p < to :: IsWhitespace(s[p])
  }

  /** `/on\w+\s*=/i` matches at `i`: `on`, one or more word characters, optional whitespace, `=`. */
  predicate OnHandlerAt(s: string, i: nat) {
    exists j, k | i + 2 < j <= k < |s| ::
      MatchesAtCI(s, i, "on") && AllWordChars(s, i + 2, j) && AllWhitespace(s, j, k) && s[k] == '='
  }

  predicate OnHandlerPattern(s: string) {
    exists i | 0 <= i < |s| :: OnHandlerAt(s, i)
  }

  /** One of the four XSS patterns matches `s`. */
  predicate XssPattern(s: string) {
    ScriptPattern(s) || IframePattern(s) || JavascriptPattern(s) || OnHandlerPattern(s)
  }

  // ---------------------------------------------------------- lemmas

  /** A single quote anywhere trips the SQL screen, so a name such as `O'Brien` is refused. */
  lemma QuoteTripsSql(s: string, i: nat)
    requires i < |s| && s[i] == '\''
    ensures SqlPattern(s)
  {
    assert SqlMatchAt(s, i);
  }

  /** A keyword standing alone between non-word characters trips the SQL screen in any letter case. */
  lemma KeywordTripsSql(pre: string, w: string, post: string, k: nat)
    requires k < |SqlKeywords| && Lower(w) == SqlKeywords[k]
    requires pre == [] || !IsWordChar(pre[|pre| - 1])
    requires post == [] || !IsWordChar(post[0])
    ensures SqlPattern(pre + w + post)
  {
    KeywordsAreLowerCaseWords();
    var s := pre + w + post;
    var i := |pre|;
    var kw := SqlKeywords[k];
    assert |w| == |kw| > 0;
    assert s[i..i + |w|] == w;
    assert IsWordChar(s[i]) by {
      assert LowerAscii(w[0]) == kw[0];
      FoldedLetterIsWordChar(w[0]);
    }
    assert IsWordChar(s[i + |w| - 1]) by {
      assert LowerAscii(w[|w| - 1]) == kw[|w| - 1];
      FoldedLetterIsWordChar(w[|w| - 1]);
    }
    assert WordBoundary(s, i);
    assert WordBoundary(s, i + |w|);
    assert WholeWordAt(s, i, kw);
    assert SqlMatchAt(s, i);
  }

  /** A keyword inside a longer word is not a whole word there: `Portland` holds `or` but not `\bor\b`. */
  lemma EmbeddedKeywordIsNotWholeWord(s: string, i: nat, w: string)
    requires 0 < i && i + |w| <= |s| && |w| > 0
    requires IsWordChar(s[i - 1]) && IsWordChar(s[i])
    ensures !WholeWordAt(s, i, w)
  {
  }

  /** `on<name>=` anywhere is an event-handler attribute for the XSS screen. */
  lemma HandlerAttributeTripsXss(pre: string, name: string, post: string)
    requires |name| > 0 && forall p | 0 <= p < |name| :: IsWordChar(name[p])
    ensures XssPattern(pre + "on" + name + "=" + post)
  {
    var s := pre + "on" + name + "=" + post;
    var i := |pre|;
    var j := i + 2 + |name|;
    assert s[i..i + 2] == "on";
    assert Lower("on") == "on";
    assert AllWordChars(s, i + 2, j) by {
      forall p | i + 2 <= p < j ensures IsWordChar(s[p]) {
        assert s[p] == name[p - i - 2];
      }
    }
    assert AllWhitespace(s, j, j);
    assert s[j] == '=';
    assert OnHandlerAt(s, i);
  }

  /**
   * An element `<tag>…</tag>` anywhere matches its element pattern, in
   * any letter case: the opening tag is followed by `>`, which gives the
   * word boundary, and the closing tag comes after it.
   */
  lemma ElementTripsPattern(pre: string, openTag: string, body: string, closeTag: string, post: string,
                            open: string, close: string)
    requires Lower(openTag) == open && Lower(closeTag) == close
    requires |open| > 0 && 'a' <= open[|open| - 1] <= 'z'
    ensures ElementPattern(pre + openTag + ">" + body + closeTag + post, open, close)
  {
    var s := pre + openTag + ">" + body + closeTag + post;
    var i := |pre|;
    var n := |openTag|;
    var j := i + n + 1 + |body|;
    assert s[i..i + n] == openTag;
    assert s[j..j + |closeTag|] == closeTag;
    assert s[i + n - 1] == openTag[n - 1];
    assert LowerAscii(openTag[n - 1]) == open[n - 1];
    FoldedLetterIsWordChar(openTag[n - 1]);
    assert s[i + n] == '>';
    assert WordBoundary(s, i + n);
    assert MatchesAtCI(s, i, open) && MatchesAtCI(s, j, close);
  }

  /**
   * A `<script>` or `<iframe>` element anywhere trips the XSS screen,
   * whatever the letter case of its tags.
   */
  lemma TagElementTripsXss(pre: string, openTag: string, body: string, closeTag: string, post: string, tag: string)
    requires tag == "script" || tag == "iframe"
    requires Lower(openTag) == "<" + tag && Lower(closeTag) == "</" + tag + ">"
    ensures XssPattern(pre + openTag + ">" + body + closeTag + post)
  {
    if tag == "script" {
      assert "<" + tag == "<script" && "</" + tag + ">" == "</script>";
      ElementTripsPattern(pre, openTag, body, closeTag, post, "<script", "</script>");
    } else {
      assert "<" + tag == "<iframe" && "</" + tag + ">" == "</iframe>";
      ElementTripsPattern(pre, openTag, body, closeTag, post, "<iframe", "</iframe>");
    }
  }

  /** A `javascript:` scheme anywhere, in any letter case, trips the XSS screen. */
  lemma JavascriptSchemeTripsXss(pre: string, scheme: string, post: string)
    requires Lower(scheme) == "javascript:"
    ensures XssPattern(pre + scheme + post)
  {
    var s := pre + scheme + post;
    assert s[|pre|..|pre| + |scheme|] == scheme;
    assert MatchesAtCI(s, |pre|, "javascript:");
  }

  /** The classic probe. */
  const ScriptAlert := "<script" + ">" + "alert(1)" + "</script>"

  /** `<script>alert(1)</script>` trips the XSS screen and not the SQL screen. */
  lemma ScriptAlertIsXssOnly()
    ensures XssPattern(ScriptAlert) && !SqlPattern(ScriptAlert)
  {
    assert ScriptAlert == [] + "<script" + ">" + "alert(1)" + "</script>" + [];
    TagElementTripsXss([], "<script", "alert(1)", "</script>", [], "script");
    ScriptAlertNotSql();
  }

  lemma ScriptAlertNotSql()
    ensures !SqlPattern(ScriptAlert)
  {
    var s := ScriptAlert;
    assert forall p | 0 <= p < |s| :: s[p] != '\'' && s[p] != '\\' && s[p] != ';' && s[p] != '-';
    ProbeAvoids(0);
    ProbeAvoids(1);
    ProbeAvoids(2);
    ProbeAvoids(3);
    ProbeAvoids(4);
    ProbeAvoids(5);
    ProbeAvoids(6);
    ProbeAvoids(7);
    forall i | 0 <= i < |s| ensures !SqlMatchAt(s, i) {
      assert !MatchesAt(s, i, "--") by {
        assert i + 2 <= |s| ==> s[i..i + 2][0] == s[i];
      }
    }
  }

  /** The probe holds keyword `k` nowhere: no two adjacent characters of it begin that keyword. */
  lemma ProbeAvoids(k: nat)
    requires k < |SqlKeywords|
    ensures forall i | 0 <= i < |ScriptAlert| :: !WholeWordAt(ScriptAlert, i, SqlKeywords[k])
  {
    var s := ScriptAlert;
    var kw := SqlKeywords[k];
    assert |kw| >= 2;
    assert forall p | 0 <= p < |s| - 1 :: !(LowerAscii(s[p]) == kw[0] && LowerAscii(s[p + 1]) == kw[1]);
    NoPairNoMatch(s, kw);
  }

  /** A pattern of two or more characters cannot match where its first two characters never appear together. */
  lemma NoPairNoMatch(s: string, pat: string)
    requires |pat| >= 2
    requires forall p | 0 <= p < |s| - 1 :: !(LowerAscii(s[p]) == pat[0] && LowerAscii(s[p + 1]) == pat[1])
    ensures forall i | 0 <= i < |s| :: !MatchesAtCI(s, i, pat)
  {
    forall i | 0 <= i < |s| ensures !MatchesAtCI(s, i, pat) {
      if i + |pat| <= |s| {
        var w := s[i..i + |pat|];
        assert Lower(w)[0] == LowerAscii(s[i]);
        assert Lower(w)[1] == LowerAscii(s[i + 1]);
      }
    }
  }

  /** Text made of digits and dots, such as an IPv4 address or a timestamp, passes both screens. */
  lemma NumericTextIsClean(s: string)
    requires forall p | 0 <= p < |s| :: '0' <= s[p] <= '9' || s[p] == '.'
    ensures !SqlPattern(s) && !XssPattern(s)
  {
    KeywordsAreLowerCaseWords();
    forall i | 0 <= i < |s| ensures !SqlMatchAt(s, i) {
      assert i + 2 <= |s| ==> s[i..i + 2][0] == s[i];
      forall k | 0 <= k < |SqlKeywords| ensures !WholeWordAt(s, i, SqlKeywords[k]) {
        NoLetterMatch(s, i, SqlKeywords[k]);
      }
    }
    forall i, j | 0 <= i && i + 7 <= j <= |s| ensures !(MatchesAtCI(s, i, "<script") && MatchesAtCI(s, j, "</script>")) {
      NoAngleMatch(s, i, "<script");
    }
    forall i, j | 0 <= i && i + 7 <= j <= |s| ensures !(MatchesAtCI(s, i, "<iframe") && MatchesAtCI(s, j, "</iframe>")) {
      NoAngleMatch(s, i, "<iframe");
    }
    forall i | 0 <= i <= |s| ensures !MatchesAtCI(s, i, "javascript:") {
      NoLetterMatch(s, i, "javascript:");
    }
    forall i | 0 <= i < |s| ensures !OnHandlerAt(s, i) {
      NoLetterMatch(s, i, "on");
    }
  }

  /** Every SQL keyword is a non-empty run of lower-case ASCII letters. */
  lemma KeywordsAreLowerCaseWords()
    ensures forall k | 0 <= k < |SqlKeywords| ::
      |SqlKeywords[k]| > 0 && forall p | 0 <= p < |SqlKeywords[k]| :: 'a' <= SqlKeywords[k][p] <= 'z'
  {
  }

  lemma FoldedLetterIsWordChar(c: char)
    requires 'a' <= LowerAscii(c) <= 'z'
    ensures IsWordChar(c)
  {
  }

  /** A pattern that starts with a lower-case letter cannot match where `s` holds no letter. */
  lemma NoLetterMatch(s: string, i: nat, pat: string)
    requires |pat| > 0 && 'a' <= pat[0] <= 'z'
    requires i < |s| ==> '0' <= s[i] <= '9' || s[i] == '.'
    ensures !MatchesAtCI(s, i, pat)
  {
  }

  /** A pattern that starts with `<` cannot match where `s` holds a digit or a dot. */
  lemma NoAngleMatch(s: string, i: nat, pat: string)
    requires |pat| > 0 && pat[0] == '<'
    requires i < |s| ==> '0' <= s[i] <= '9' || s[i] == '.'
    ensures !MatchesAtCI(s, i, pat)
  {
  }

  // --------------------------------------------------- field lists

  /** What both screens answer when the SQL pattern, or else an XSS pattern, matches. */
  const SqlMessage := "检测到潜在的SQL注入攻击"
  const XssMessage := "检测到潜在的XSS攻击"

  /** The SQL pattern matches one of `fields` (the screens skip empty fields, which never match). */
  predicate AnySql(fields: seq<string>) {
    exists k | 0 <= k < |fields| :: SqlPattern(fields[k])
  }

  /** One of the XSS patterns matches one of `fields`. */
  predicate AnyXss(fields: seq<string>) {
    exists k | 0 <= k < |fields| :: XssPattern(fields[k])
  }
}
