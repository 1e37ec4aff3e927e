/** Trimming of white space around a text. */
module Text {

  predicate Space(c: char) {
    || c in {'\t', '\n', '\U{000B}', '\U{000C}', '\r', ' ', '\U{0085}', '\U{00A0}', '\U{1680}'}
    || '\U{2000}' <= c <= '\U{200A}'
    || c in {'\U{2028}', '\U{2029}', '\U{202F}', '\U{205F}', '\U{3000}'}
  }

  function Trim(s: string): string
    decreases |s|
  {
    if s == "" then s
    else if Space(s[0]) then Trim(s[1..])
    else if Space(s[|s| - 1]) then Trim(s[..|s| - 1])
    else s
  }

  lemma {:induction false} TrimmedIsBare(s: string)
    ensures var t := Trim(s); t != "" ==> !Space(t[0]) && !Space(t[|t| - 1])
    ensures Trim(Trim(s)) == Trim(s)
    decreases |s|
  {
    if s == "" {
    } else if Space(s[0]) {
      TrimmedIsBare(s[1..]);
    } else if Space(s[|s| - 1]) {
      TrimmedIsBare(s[..|s| - 1]);
    }
  }

  ghost predicate SpaceBetween(s: string, a: nat, b: nat)
    requires b <= |s|
  {
    forall i :: a <= i < b ==> Space(s[i])
  }

  /** t is s from a to b, with white space only before and behind it, and none at its ends. */
  ghost predicate IsInner(s: string, t: string, a: nat, b: nat) {
    && a <= b <= |s| && t == s[a..b] && SpaceBetween(s, 0, a) && SpaceBetween(s, b, |s|)
    && (t != "" ==> !Space(t[0]) && !Space(t[|t| - 1]))
  }

  /** Trimming takes away the white space around a text and nothing else. */
  lemma {:induction false} TrimmedIsInner(s: string) returns (a: nat, b: nat)
    ensures IsInner(s, Trim(s), a, b)
    decreases |s|
  {
    if s == "" {
      return 0, 0;
    }
    var n := |s| - 1;
    if Space(s[0]) {
      var i, j := TrimmedIsInner(s[1..]);
      LaterInner(s, Trim(s), i, j);
      return i + 1, j + 1;
    }
    if Space(s[n]) {
      a, b := TrimmedIsInner(s[..n]);
      EarlierInner(s, Trim(s), a, b);
      return;
    }
    assert s[0..|s|] == s;
    return 0, |s|;
  }

  lemma LaterInner(s: string, t: string, a: nat, b: nat)
    requires s != "" && Space(s[0]) && IsInner(s[1..], t, a, b)
    ensures IsInner(s, t, a + 1, b + 1)
  {
    assert s[1..][a..b] == s[a + 1..b + 1];
    forall i | 0 < i < |s| && (i < a + 1 || b + 1 <= i) ensures Space(s[i]) {
      assert Space(s[1..][i - 1]);
    }
  }

  lemma EarlierInner(s: string, t: string, a: nat, b: nat)
    requires s != "" && Space(s[|s| - 1]) && IsInner(s[..|s| - 1], t, a, b)
    ensures IsInner(s, t, a, b)
  {
    var n := |s| - 1;
    assert s[..n][a..b] == s[a..b];
    forall i | 0 <= i < n && (i < a || b <= i) ensures Space(s[i]) {
      assert Space(s[..n][i]);
    }
  }

  /** There is only one such text. */
  lemma OneInner(s: string, t: string, a: nat, b: nat, u: string, c: nat, d: nat)
    requires IsInner(s, t, a, b) && IsInner(s, u, c, d)
    ensures t == u
  {
    if t != "" {
      InnerCovers(s, t, a, b, u, c, d);
    }
    if u != "" {
      InnerCovers(s, u, c, d, t, a, b);
    }
  }

  lemma InnerCovers(s: string, t: string, a: nat, b: nat, u: string, c: nat, d: nat)
    requires IsInner(s, t, a, b) && IsInner(s, u, c, d) && t != ""
    ensures c <= a && b <= d
  {
    assert t[0] == s[a] && t[|t| - 1] == s[b - 1];
  }
}
