/** Search by LIKE patterns: escaping, and what the patterns match under SQLite's LIKE with a backslash as escape. */
module LikePatterns {
  import opened Text

  // ----- SQLite's LIKE -----

  function Lower(c: char): char {
    if 'A' <= c <= 'Z' then ((c as int) - ('A' as int) + ('a' as int)) as char else c
  }

  /** Equal, or ASCII letters that differ in case only. */
  predicate SameChar(a: char, b: char) {
    Lower(a) == Lower(b)
  }

  /** text LIKE pattern ESCAPE '\' */
  predicate Matches(pattern: string, text: string)
    decreases |pattern| + |text|
  {
    if pattern == "" then text == ""
    else if pattern[0] == '\\' then
      |pattern| > 1 && text != "" && SameChar(pattern[1], text[0]) && Matches(pattern[2..], text[1..])
    else if pattern[0] == '%' then
      Matches(pattern[1..], text) || (text != "" && Matches(pattern, text[1..]))
    else if pattern[0] == '_' then
      text != "" && Matches(pattern[1..], text[1..])
    else
      text != "" && SameChar(pattern[0], text[0]) && Matches(pattern[1..], text[1..])
  }

  // ----- escaping -----

  predicate Special(c: char) {
    c == '\\' || c == '%' || c == '_'
  }

  function Escaped(s: string): string {
    if s == "" then "" else
      var c := s[|s| - 1];
      Escaped(s[..|s| - 1]) + if Special(c) then ['\\', c] else [c]
  }

  method EscapeLike(value: string) returns (b: string)
    ensures b == Escaped(value)
  {
    b := "";
    for i := 0 to |value|
      invariant b == Escaped(value[..i])
    {
      assert value[..i + 1][..i] == value[..i];
      if value[i] == '\\' || value[i] == '%' || value[i] == '_' {
        b := b + ['\\'];
      }
      b := b + [value[i]];
    }
    assert value[..|value|] == value;
  }

  method LikePattern(value: string) returns (pattern: string)
    ensures forall text :: Matches(pattern, text) <==> Contains(text, Trim(value))
  {
    var escaped := EscapeLike(Trim(value));
    pattern := "%" + escaped + "%";
    forall text ensures Matches(pattern, text) <==> Contains(text, Trim(value)) {
      PatternFinds(Trim(value), text);
    }
  }

  // ----- what the pattern means -----

  predicate SameText(a: string, b: string) {
    |a| == |b| && forall i :: 0 <= i < |a| ==> SameChar(a[i], b[i])
  }

  predicate OccursAt(text: string, i: nat, s: string) {
    i + |s| <= |text| && SameText(s, text[i..i + |s|])
  }

  /** s occurs literally, but for the case of ASCII letters. */
  ghost predicate Contains(text: string, s: string) {
    exists i: nat :: OccursAt(text, i, s)
  }

  lemma {:induction false} PercentTakesAll(text: string)
    ensures Matches("%", text)
    decreases |text|
  {
    assert "%"[1..] == "";
    if text != "" { PercentTakesAll(text[1..]); }
  }

  lemma {:induction false} EscapedFront(s: string)
    requires s != ""
    ensures Escaped(s) == (if Special(s[0]) then ['\\', s[0]] else [s[0]]) + Escaped(s[1..])
    decreases |s|
  {
    if |s| > 1 {
      EscapedFront(s[..|s| - 1]);
      assert s[..|s| - 1][1..] == s[1..][..|s| - 2];
    } else {
      assert s[..0] == "" && s[1..] == "";
    }
  }

  /** Followed by %, an escaped text matches exactly what starts with it. */
  lemma {:induction false} PrefixMatches(s: string, text: string)
    ensures Matches(Escaped(s) + "%", text) <==> OccursAt(text, 0, s)
    decreases |s|
  {
    if s == "" {
      assert Escaped(s) + "%" == "%";
      PercentTakesAll(text);
    } else {
      EscapedFront(s);
      var p, rest := Escaped(s) + "%", Escaped(s[1..]) + "%";
      assert p[if Special(s[0]) then 2 else 1..] == rest;
      if text == "" {
      } else {
        PrefixMatches(s[1..], text[1..]);
        OccursStep(text, s);
      }
    }
  }

  lemma OccursStep(text: string, s: string)
    requires s != "" && text != ""
    ensures OccursAt(text, 0, s) <==> SameChar(s[0], text[0]) && OccursAt(text[1..], 0, s[1..])
  {
    if |s| <= |text| {
      var t := text[0..|s|];
      assert t[1..] == text[1..][0..|s| - 1];
      if SameChar(s[0], text[0]) && SameText(s[1..], t[1..]) {
        forall i | 0 <= i < |s| ensures SameChar(s[i], t[i]) {
          if i > 0 { assert s[i] == s[1..][i - 1] && t[i] == t[1..][i - 1]; }
        }
      }
    }
  }

  /** With % on both sides it matches exactly the texts that contain it, whatever characters it has. */
  lemma {:induction false} PatternFinds(s: string, text: string)
    ensures Matches("%" + Escaped(s) + "%", text) <==> Contains(text, s)
    decreases |text|
  {
    var pattern := "%" + Escaped(s) + "%";
    assert pattern[1..] == Escaped(s) + "%";
    PrefixMatches(s, text);
    if text == "" {
    } else {
      PatternFinds(s, text[1..]);
      ContainsStep(text, s);
    }
  }

  lemma ContainsStep(text: string, s: string)
    requires text != ""
    ensures Contains(text, s) <==> OccursAt(text, 0, s) || Contains(text[1..], s)
  {
    if Contains(text, s) {
      var i: nat :| OccursAt(text, i, s);
      if i > 0 {
        assert text[i..i + |s|] == text[1..][i - 1..i - 1 + |s|];
        assert OccursAt(text[1..], i - 1, s);
      }
    }
    if Contains(text[1..], s) {
      var i: nat :| OccursAt(text[1..], i, s);
      assert text[i + 1..i + 1 + |s|] == text[1..][i..i + |s|];
      assert OccursAt(text, i + 1, s);
    }
  }
}
