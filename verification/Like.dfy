/**
 * Searching by name (internal/web/clients.go, internal/web/projects.go): the query text is escaped and
 * put between two percent signs for SQL's LIKE ... ESCAPE '\'. The result is a plain containment test,
 * whatever wildcards or backslashes the text holds.
 */
module Like {
  import opened Basics

  /** The replacements of escapeLike, in one pass. */
  function EscapeLike(s: string): string {
    if s == "" then ""
    else (if s[0] == '\\' || s[0] == '%' || s[0] == '_' then ['\\', s[0]] else [s[0]]) + EscapeLike(s[1..])
  }

  /** LIKE ignores the case of ASCII letters only. */
  function Fold(c: char): char { if 'A' <= c <= 'Z' then (c as int + 32) as char else c }

  predicate SameLetter(a: char, b: char) { Fold(a) == Fold(b) }

  /** SQL's wildcard matcher with '\' as the escape character. */
  predicate Matches(p: string, s: string)
    decreases |p| + |s|
  {
    if p == "" then s == ""
    else if p[0] == '%' then Matches(p[1..], s) || (s != "" && Matches(p, s[1..]))
    else if p[0] == '_' then s != "" && Matches(p[1..], s[1..])
    else if p[0] == '\\' then |p| > 1 && s != "" && SameLetter(p[1], s[0]) && Matches(p[2..], s[1..])
    else s != "" && SameLetter(p[0], s[0]) && Matches(p[1..], s[1..])
  }

  /** q stands in s at position i, up to the case of ASCII letters. */
  predicate StandsAt(q: string, s: string, i: nat) {
    i + |q| <= |s| && forall k | 0 <= k < |q| :: SameLetter(q[k], s[i + k])
  }

  lemma {:induction false} AnyTail(s: string)
    ensures Matches("%", s)
  {
    if s == "" {
      assert "%"[1..] == "";
    } else {
      AnyTail(s[1..]);
    }
  }

  /** An escaped text matches itself and nothing else, letter by letter. */
  lemma {:induction false} EscapedMatches(q: string, s: string)
    ensures Matches(EscapeLike(q) + "%", s) <==> StandsAt(q, s, 0)
  {
    hide Fold;
    var p := EscapeLike(q) + "%";
    if q == "" {
      assert p == "%";
      AnyTail(s);
    } else {
      var rest := EscapeLike(q[1..]) + "%";
      if q[0] == '\\' || q[0] == '%' || q[0] == '_' {
        assert p == ['\\', q[0]] + rest && p[2..] == rest;
      } else {
        assert p == [q[0]] + rest && p[1..] == rest;
      }
      if s != "" {
        EscapedMatches(q[1..], s[1..]);
        StandsNext(q, s);
      }
    }
  }

  lemma StandsNext(q: string, s: string)
    requires q != "" && s != ""
    ensures StandsAt(q, s, 0) <==> SameLetter(q[0], s[0]) && StandsAt(q[1..], s[1..], 0)
  {
    if SameLetter(q[0], s[0]) && StandsAt(q[1..], s[1..], 0) {
      forall k | 0 <= k < |q|
        ensures SameLetter(q[k], s[k])
      {
        if k > 0 {
          assert SameLetter(q[1..][k - 1], s[1..][k - 1]);
        }
      }
    }
    if StandsAt(q, s, 0) {
      assert SameLetter(q[0], s[0 + 0]);
      forall k | 0 <= k < |q| - 1
        ensures SameLetter(q[1..][k], s[1..][k])
      {
        assert SameLetter(q[k + 1], s[0 + (k + 1)]);
      }
    }
  }

  /** A leading percent sign tries every suffix. */
  lemma {:induction false} TriesSuffixes(p: string, s: string)
    ensures Matches("%" + p, s) <==> exists i: nat :: SuffixMatches(p, s, i)
    decreases |s|
  {
    assert ("%" + p)[1..] == p && s[0..] == s;
    if SuffixMatches(p, s, 0) {
    } else if s == "" {
      assert forall i: nat :: i > 0 ==> !SuffixMatches(p, s, i);
    } else {
      TriesSuffixes(p, s[1..]);
      forall i: nat
        ensures SuffixMatches(p, s[1..], i) <==> SuffixMatches(p, s, i + 1)
      {
        assert i < |s| ==> s[1..][i..] == s[i + 1..];
      }
      if i: nat :| SuffixMatches(p, s[1..], i) {
        assert SuffixMatches(p, s, i + 1);
      }
      if i: nat :| SuffixMatches(p, s, i) {
        assert i > 0 && SuffixMatches(p, s[1..], i - 1);
      }
    }
  }

  predicate SuffixMatches(p: string, s: string, i: nat) { i <= |s| && Matches(p, s[i..]) }

  lemma StandsInSuffix(q: string, s: string, i: nat)
    requires i <= |s|
    ensures StandsAt(q, s[i..], 0) <==> StandsAt(q, s, i)
  {
    if i + |q| <= |s| {
      assert forall k | 0 <= k < |q| :: s[i..][k] == s[i + k];
    }
  }

  /** The search finds s exactly when s contains the query text, up to the case of ASCII letters. */
  lemma SearchIsContainment(q: string, s: string)
    ensures Matches("%" + EscapeLike(q) + "%", s) <==> exists i: nat :: StandsAt(q, s, i)
  {
    hide Matches, EscapeLike, StandsAt;
    var p := EscapeLike(q) + "%";
    assert "%" + EscapeLike(q) + "%" == "%" + p;
    TriesSuffixes(p, s);
    forall i: nat
      ensures SuffixMatches(p, s, i) <==> StandsAt(q, s, i)
    {
      if i <= |s| {
        EscapedMatches(q, s[i..]);
        StandsInSuffix(q, s, i);
      } else {
        StandsWithin(q, s, i);
      }
    }
  }

  lemma StandsWithin(q: string, s: string, i: nat)
    ensures StandsAt(q, s, i) ==> i <= |s|
  {
  }

  /** The same letter, exactly: equal, or the two cases of one of the 26 letters. */
  lemma LetterCase(a: char, b: char)
    ensures SameLetter(a, b) <==>
      a == b || ('A' <= a <= 'Z' && b as int == a as int + 32) || ('A' <= b <= 'Z' && a as int == b as int + 32)
  {
  }
}
