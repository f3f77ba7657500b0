/** Index-backed prefix search (src/services/search.ts), over PostgreSQL's LIKE (its documentation, section 9.7.1). */
module PrefixSearch {
  import opened Common

  const MAX_TERM := 64

  /** What trimming and lower-casing do to text; both belong to the host language. */
  datatype Text = Text(trim: string -> string, lower: string -> string)

  /** `text.replaceAll(c, by)` for a single character `c`. */
  function ReplaceAll(text: string, c: char, with: string): string {
    if text == "" then "" else (if text[0] == c then with else [text[0]]) + ReplaceAll(text[1..], c, with)
  }

  function Normalized(host: Text, term: string): string {
    var trimmed := host.trim(term);
    host.lower(trimmed[..if |trimmed| < MAX_TERM then |trimmed| else MAX_TERM])
  }

  function Escaped(text: string): string {
    ReplaceAll(ReplaceAll(ReplaceAll(text, '\\', "\\\\"), '%', "\\%"), '_', "\\_")
  }

  function PrefixPattern(host: Text, term: Option<string>): Option<string> {
    if term.None? || Normalized(host, term.value) == "" then None
    else Some(Escaped(Normalized(host, term.value)) + "%")
  }

  // ---- LIKE with backslash as the escape character ----

  ghost predicate Like(s: string, pattern: string)
    decreases |pattern|, |s|
  {
    if pattern == "" then s == ""
    else if pattern[0] == '%' then exists i :: 0 <= i <= |s| && Like(s[i..], pattern[1..])
    else if pattern[0] == '_' then s != "" && Like(s[1..], pattern[1..])
    else if pattern[0] == '\\' then
      |pattern| >= 2 && s != "" && s[0] == pattern[1] && Like(s[1..], pattern[2..])
    else s != "" && s[0] == pattern[0] && Like(s[1..], pattern[1..])
  }

  // ---- Three passes are one escape per character ----

  function EscapeChar(c: char): string {
    if c == '\\' || c == '%' || c == '_' then ['\\', c] else [c]
  }

  function EscapeEach(text: string): string {
    if text == "" then "" else EscapeChar(text[0]) + EscapeEach(text[1..])
  }

  lemma {:induction false} ReplaceAllOfBoth(a: string, b: string, c: char, with: string)
    ensures ReplaceAll(a + b, c, with) == ReplaceAll(a, c, with) + ReplaceAll(b, c, with)
  {
    if a == "" {
      assert a + b == b;
    } else {
      assert (a + b)[1..] == a[1..] + b;
      ReplaceAllOfBoth(a[1..], b, c, with);
    }
  }

  lemma EscapedChar(c: char)
    ensures Escaped([c]) == EscapeChar(c)
  {
    assert ReplaceAll([c], '\\', "\\\\") == if c == '\\' then "\\\\" else [c];
    assert "\\\\"[1..] == "\\" && "\\%"[1..] == "%" && "\\_"[1..] == "_";
    assert ReplaceAll("\\\\", '%', "\\%") == "\\\\";
    assert ReplaceAll("\\\\", '_', "\\_") == "\\\\";
    assert ReplaceAll("\\%", '_', "\\_") == "\\%";
  }

  /** The backslash first, then `%`, then `_`: nothing is escaped twice and nothing is missed. */
  lemma {:induction false} ThreePassesEscapeEachOnce(text: string)
    ensures Escaped(text) == EscapeEach(text)
  {
    if text != "" {
      var head, tail := text[..1], text[1..];
      assert text == head + tail && head == [text[0]];
      var p1 := ReplaceAll(head, '\\', "\\\\");
      ReplaceAllOfBoth(head, tail, '\\', "\\\\");
      ReplaceAllOfBoth(p1, ReplaceAll(tail, '\\', "\\\\"), '%', "\\%");
      ReplaceAllOfBoth(ReplaceAll(p1, '%', "\\%"), ReplaceAll(ReplaceAll(tail, '\\', "\\\\"), '%', "\\%"), '_', "\\_");
      EscapedChar(text[0]);
      ThreePassesEscapeEachOnce(tail);
    }
  }

  lemma {:induction false} EscapedLikeIsPrefix(s: string, text: string)
    ensures Like(s, EscapeEach(text) + "%") <==> text <= s
  {
    var pattern := EscapeEach(text) + "%";
    if text == "" {
      assert pattern == "%" && pattern[1..] == "";
      assert s[|s|..] == "" && Like(s[|s|..], "");
    } else {
      var rest := EscapeEach(text[1..]) + "%";
      if s != "" {
        EscapedLikeIsPrefix(s[1..], text[1..]);
        assert text <= s <==> text[0] == s[0] && text[1..] <= s[1..];
      }
      if |EscapeChar(text[0])| == 2 {
        assert pattern[0] == '\\' && pattern[1] == text[0] && pattern[2..] == rest;
      } else {
        assert pattern[0] == text[0] && pattern[1..] == rest;
      }
    }
  }

  /** The pattern matches exactly the strings that start with what was typed, whatever characters it holds. */
  lemma PatternMatchesExactlyThePrefix(host: Text, term: string, s: string)
    requires PrefixPattern(host, Some(term)).Some?
    ensures Like(s, PrefixPattern(host, Some(term)).value) <==> Normalized(host, term) <= s
  {
    ThreePassesEscapeEachOnce(Normalized(host, term));
    EscapedLikeIsPrefix(s, Normalized(host, term));
  }

  /** A term is searched for trimmed and lower-cased, and no further than its first 64 characters. */
  lemma LongTermsAreCut(host: Text, term: string)
    ensures |host.trim(term)| <= 64 ==> Normalized(host, term) == host.lower(host.trim(term))
    ensures |host.trim(term)| > 64 ==> Normalized(host, term) == host.lower(host.trim(term)[..64])
    ensures PrefixPattern(host, Some(term)).None? <==> Normalized(host, term) == ""
  {
    if |host.trim(term)| <= 64 { assert host.trim(term)[..|host.trim(term)|] == host.trim(term); }
  }
}
