/** The three entries of `DISALLOWED_PATTERNS` (constants.ts), each written out as
    the set of strings its regular expression finds a match in. */
module DisallowedPatterns {
  import opened Strings

  /** `\w`: an ASCII letter, digit or underscore. */
  predicate IsWordChar(c: char) {
    'a' <= c <= 'z' || 'A' <= c <= 'Z' || '0' <= c <= '9' || c == '_'
  }

  /** The case folding of the `i` flag without `u`: only ASCII letters fold. */
  function LowerAscii(c: char): char {
    if 'A' <= c <= 'Z' then (c as int + 32) as char else c
  }

  /** The lower-case `sub` occurs at `i` in `s` when ASCII case is ignored. */
  predicate OccursAtIgnoringCase(s: string, sub: string, i: int) {
    0 <= i && i + |sub| <= |s| && forall m | 0 <= m < |sub| :: LowerAscii(s[i + m]) == sub[m]
  }

  /** A match of `/<script\b[^>]*>([\s\S]*?)<\/script>/gm` that starts at `i`:
      "<script" is followed by a character that ends the word (`\b`), `k` is the
      first '>' from there on (`[^>]*>`), and "</script>" starts at `j` after it.
      The pattern is case-sensitive. */
  predicate ScriptElementAt(s: string, i: int, k: int, j: int) {
    && OccursAt(s, "<script", i)
    && i + 7 <= k < j
    && k < |s|
    && !IsWordChar(s[i + 7])
    && s[k] == '>'
    && (forall m | i + 7 <= m < k :: s[m] != '>')
    && OccursAt(s, "</script>", j)
  }

  predicate MatchesScriptElement(s: string) {
    exists i, k, j | 0 <= i <= k < j <= |s| :: ScriptElementAt(s, i, k, j)
  }

  /** `/javascript:/i`. */
  predicate MatchesScriptUri(s: string) {
    exists i | 0 <= i <= |s| :: OccursAtIgnoringCase(s, "javascript:", i)
  }

  /** A match of `/on\w+=/i` at `i`: "on" in either case, one or more word
      characters, then '=' at `j`. */
  predicate EventHandlerAt(s: string, i: int, j: int) {
    && OccursAtIgnoringCase(s, "on", i)
    && i + 2 < j < |s|
    && (forall m | i + 2 <= m < j :: IsWordChar(s[m]))
    && s[j] == '='
  }

  predicate MatchesEventHandler(s: string) {
    exists i, j | 0 <= i < j < |s| :: EventHandlerAt(s, i, j)
  }

  /** Some entry of `DISALLOWED_PATTERNS` matches `s`. */
  predicate Disallowed(s: string) {
    MatchesScriptElement(s) || MatchesScriptUri(s) || MatchesEventHandler(s)
  }

  /** A script element such as `<script>alert(1)</script>` anywhere in the text
      is caught by the first pattern. */
  lemma ScriptElementCaught(s: string, i: int)
    requires OccursAt(s, "<script>alert(1)</script>", i)
    ensures MatchesScriptElement(s) && Disallowed(s)
  {
    var w := "<script>alert(1)</script>";
    assert s[i..i + 7] == w[..7];
    assert s[i + 16..i + 25] == w[16..];
    assert s[i + 7] == w[7];
    assert ScriptElementAt(s, i, i + 7, i + 16);
  }

  /** The script URI scheme is caught whatever the case of its letters. */
  lemma ScriptUriCaught(s: string, i: int)
    requires OccursAt(s, "javascript:", i) || OccursAt(s, "JavaScript:", i)
    ensures MatchesScriptUri(s) && Disallowed(s)
  {
    assert OccursAtIgnoringCase(s, "javascript:", i);
  }

  /** Letter case does not matter to the script URI pattern: two texts that
      agree once ASCII case is folded either both match or both do not, so
      `JAVASCRIPT:` is caught exactly as `javascript:` is. */
  lemma ScriptUriIgnoresCase(s: string, t: string)
    requires |s| == |t|
    requires forall k | 0 <= k < |s| :: LowerAscii(s[k]) == LowerAscii(t[k])
    ensures MatchesScriptUri(s) <==> MatchesScriptUri(t)
  {
    forall i | 0 <= i <= |s|
      ensures OccursAtIgnoringCase(s, "javascript:", i) <==> OccursAtIgnoringCase(t, "javascript:", i)
    {
    }
  }

  /** An inline handler attribute such as `onerror=` is caught by the third
      pattern, and so is any word holding "on" before word characters and '=',
      such as `conditions=`. */
  lemma EventHandlerCaught(s: string, i: int)
    requires OccursAt(s, "onerror=", i) || OccursAt(s, "conditions=", i)
    ensures MatchesEventHandler(s) && Disallowed(s)
  {
    if OccursAt(s, "onerror=", i) {
      var w := "onerror=";
      forall m | 0 <= m < |w| ensures s[i + m] == w[m] {
        assert s[i + m] == s[i..i + |w|][m];
      }
      assert s[i] == 'o' && s[i + 1] == 'n' && s[i + 7] == '=';
      assert OccursAtIgnoringCase(s, "on", i);
      assert EventHandlerAt(s, i, i + 7);
    } else {
      var w := "conditions=";
      forall m | 0 <= m < |w| ensures s[i + m] == w[m] {
        assert s[i + m] == s[i..i + |w|][m];
      }
      assert s[i + 7] == 'o' && s[i + 8] == 'n' && s[i + 9] == 's' && s[i + 10] == '=';
      assert OccursAtIgnoringCase(s, "on", i + 7);
      assert EventHandlerAt(s, i + 7, i + 10);
    }
  }

  /** Text holding none of '>', ':' and '=' matches no disallowed pattern. */
  lemma PlainTextAllowed(s: string)
    requires forall k | 0 <= k < |s| :: s[k] != '>' && s[k] != ':' && s[k] != '='
    ensures !Disallowed(s)
  {
    forall i, k, j | 0 <= i <= k < j <= |s| ensures !ScriptElementAt(s, i, k, j) {
    }
    forall i | 0 <= i <= |s| ensures !OccursAtIgnoringCase(s, "javascript:", i) {
      if i + 11 <= |s| {
        assert LowerAscii(s[i + 10]) != "javascript:"[10];
      }
    }
  }
}
