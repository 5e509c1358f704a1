/**
 * String helpers used by the evaluation harness and the bindings: Rust's
 * `Ord` on `String` (lexicographic by character), ASCII lower-casing, and the
 * `starts_with` / `ends_with` / `contains` / `replace` family.
 */
module Strings {

  /** `a <= b` in Rust's lexicographic order on strings. */
  predicate StrLe(a: string, b: string)
    decreases |a|
  {
    if |a| == 0 then true
    else if |b| == 0 then false
    else if a[0] < b[0] then true
    else if b[0] < a[0] then false
    else StrLe(a[1..], b[1..])
  }

  /** `a < b` in Rust's lexicographic order on strings. */
  predicate StrLt(a: string, b: string) {
    StrLe(a, b) && a != b
  }

  lemma {:induction false} StrLeReflexive(a: string)
    ensures StrLe(a, a)
    decreases |a|
  {
    if |a| > 0 {
      StrLeReflexive(a[1..]);
    }
  }

  lemma {:induction false} StrLeTotal(a: string, b: string)
    ensures StrLe(a, b) || StrLe(b, a)
    decreases |a|
  {
    if |a| > 0 && |b| > 0 && a[0] == b[0] {
      StrLeTotal(a[1..], b[1..]);
    }
  }

  lemma {:induction false} StrLeTransitive(a: string, b: string, c: string)
    requires StrLe(a, b) && StrLe(b, c)
    ensures StrLe(a, c)
    decreases |a|
  {
    if |a| > 0 && |b| > 0 && |c| > 0 && a[0] == b[0] && b[0] == c[0] {
      StrLeTransitive(a[1..], b[1..], c[1..]);
    }
  }

  lemma {:induction false} StrLeAntisymmetric(a: string, b: string)
    requires StrLe(a, b) && StrLe(b, a)
    ensures a == b
    decreases |a|
  {
    if |a| > 0 {
      StrLeAntisymmetric(a[1..], b[1..]);
      assert a == [a[0]] + a[1..];
      assert b == [b[0]] + b[1..];
    }
  }

  /** ASCII lower-casing of one character. */
  function LowerChar(c: char): char {
    if 'A' <= c <= 'Z' then (c as int + 32) as char else c
  }

  /** `s.to_lowercase()` restricted to ASCII letters. */
  function ToLower(s: string): (r: string)
    ensures |r| == |s|
    ensures forall i :: 0 <= i < |s| ==> r[i] == LowerChar(s[i])
  {
    if |s| == 0 then "" else [LowerChar(s[0])] + ToLower(s[1..])
  }

  /** Lower-casing twice changes nothing more than lower-casing once. */
  lemma ToLowerIdempotent(s: string)
    ensures ToLower(ToLower(s)) == ToLower(s)
  {
  }

  /** A word of lower-case letters is its own lower-casing. */
  lemma LowerLettersFixed(s: string)
    requires forall i :: 0 <= i < |s| ==> 'a' <= s[i] <= 'z'
    ensures ToLower(s) == s
  {
    assert forall i :: 0 <= i < |s| ==> ToLower(s)[i] == s[i];
  }

  predicate StartsWith(s: string, prefix: string) {
    |prefix| <= |s| && s[..|prefix|] == prefix
  }

  predicate EndsWith(s: string, suffix: string) {
    |suffix| <= |s| && s[|s| - |suffix|..] == suffix
  }

  /** `s.contains(pattern)`: some position of `s` starts with `pattern`. */
  predicate Contains(s: string, pattern: string)
    decreases |s|
  {
    StartsWith(s, pattern) || (|s| > 0 && Contains(s[1..], pattern))
  }

  /** A string that starts with `pattern` contains it. */
  lemma StartsWithContains(s: string, pattern: string)
    requires StartsWith(s, pattern)
    ensures Contains(s, pattern)
  {
  }

  /**
   * `s.replace(pattern, replacement)`: every non-overlapping occurrence of
   * `pattern`, scanning left to right, is replaced.
   */
  function ReplaceAll(s: string, pattern: string, replacement: string): (r: string)
    requires |pattern| > 0
    ensures !Contains(s, pattern) ==> r == s
    decreases |s|
  {
    if |s| < |pattern| then s
    else if s[..|pattern|] == pattern then replacement + ReplaceAll(s[|pattern|..], pattern, replacement)
    else [s[0]] + ReplaceAll(s[1..], pattern, replacement)
  }

  /** No character of `s` satisfies `bad`. */
  predicate Avoids(s: string, bad: char -> bool) {
    forall i :: 0 <= i < |s| ==> !bad(s[i])
  }

  /** Replacing by a string that avoids `bad` inside one that avoids it yields one that avoids it. */
  lemma {:induction false} ReplaceAllAvoids(s: string, pattern: string, replacement: string, bad: char -> bool)
    requires |pattern| > 0
    requires Avoids(s, bad) && Avoids(replacement, bad)
    ensures Avoids(ReplaceAll(s, pattern, replacement), bad)
    decreases |s|
  {
    if |s| >= |pattern| {
      if s[..|pattern|] == pattern {
        ReplaceAllAvoids(s[|pattern|..], pattern, replacement, bad);
      } else {
        ReplaceAllAvoids(s[1..], pattern, replacement, bad);
      }
    }
  }

  /**
   * Replacing every `c` by a string without `c` leaves no `c`: the result has
   * no occurrence of the pattern, since the replacement cannot create one.
   */
  lemma {:induction false} ReplaceCharRemoves(s: string, c: char, replacement: string)
    requires c !in replacement
    ensures Avoids(ReplaceAll(s, [c], replacement), x => x == c)
    ensures !Contains(ReplaceAll(s, [c], replacement), [c])
    decreases |s|
  {
    if |s| >= 1 {
      ReplaceCharRemoves(s[1..], c, replacement);
      if s[..1] != [c] {
        assert s[0] != c by {
          assert s[..1] == [s[0]];
        }
      }
    }
    AvoidsNotContains(ReplaceAll(s, [c], replacement), c, x => x == c);
  }

  /** A string avoiding the character `c` does not contain `[c]`. */
  lemma {:induction false} AvoidsNotContains(s: string, c: char, bad: char -> bool)
    requires bad(c) && Avoids(s, bad)
    ensures !Contains(s, [c])
    decreases |s|
  {
    if |s| > 0 {
      assert s[..1] == [s[0]];
      assert Avoids(s[1..], bad);
      AvoidsNotContains(s[1..], c, bad);
    }
  }

  /** A string without upper-case ASCII letters is its own lower-casing. */
  lemma LowerFixed(s: string, bad: char -> bool)
    requires forall c :: 'A' <= c <= 'Z' ==> bad(c)
    requires Avoids(s, bad)
    ensures ToLower(s) == s
  {
    assert forall i :: 0 <= i < |s| ==> ToLower(s)[i] == s[i];
  }
}
