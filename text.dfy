/**
 * The handful of Python `str` operations the service relies on, written out over `seq<char>`:
 * `startswith`, `replace`, `strip`/`isspace`, and the ASCII letter and digit classes that the
 * album-key patterns use.
 */
module Text {

  /** Python's `s.startswith(p)`. */
  predicate StartsWith(s: string, p: string) {
    |p| <= |s| && s[..|p|] == p
  }

  /** `pat` occurs in `s` starting at position `i`. */
  predicate OccursAt(s: string, pat: string, i: int) {
    0 <= i && i + |pat| <= |s| && s[i..i + |pat|] == pat
  }

  /** Python's `pat in s`. */
  predicate Contains(s: string, pat: string) {
    exists i | 0 <= i <= |s| :: OccursAt(s, pat, i)
  }

  /** The character class `[A-Za-z0-9]`. */
  predicate IsAlnum(c: char) {
    'a' <= c <= 'z' || 'A' <= c <= 'Z' || '0' <= c <= '9'
  }

  predicate AllAlnum(s: string) {
    forall i :: 0 <= i < |s| ==> IsAlnum(s[i])
  }

  /** ASCII lower-casing: the case folding that `re.IGNORECASE` applies to ASCII letters. */
  function Lower(c: char): (d: char)
    ensures IsAlnum(c) <==> IsAlnum(d)
    ensures !('A' <= d <= 'Z')
  {
    if 'A' <= c <= 'Z' then (c as int + 32) as char else c
  }

  /** ASCII upper-casing, the inverse of `Lower` on lower-case letters. */
  function Upper(c: char): (d: char)
    ensures Lower(d) == Lower(c)
  {
    if 'a' <= c <= 'z' then (c as int - 32) as char else c
  }

  /**
   * Python's `s.replace(pat, rep)` for a non-empty `pat`: the occurrences of `pat` are found
   * from left to right, without overlapping, and each is replaced by `rep`.
   */
  function Replace(s: string, pat: string, rep: string): string
    requires pat != []
    decreases |s|
  {
    if |s| < |pat| then s
    else if s[..|pat|] == pat then rep + Replace(s[|pat|..], pat, rep)
    else [s[0]] + Replace(s[1..], pat, rep)
  }

  /** A first character that does not start `pat` is kept, and the rest is processed after it. */
  lemma ReplaceSkip(c: char, s: string, pat: string, rep: string)
    requires pat != [] && !StartsWith([c] + s, pat)
    ensures Replace([c] + s, pat, rep) == [c] + Replace(s, pat, rep)
  {
    assert ([c] + s)[1..] == s;
  }

  /** A leading occurrence of `pat` is replaced, and the rest is processed after it. */
  lemma ReplaceHit(s: string, pat: string, rep: string)
    requires pat != []
    ensures Replace(pat + s, pat, rep) == rep + Replace(s, pat, rep)
  {
    assert (pat + s)[..|pat|] == pat;
    assert (pat + s)[|pat|..] == s;
  }

  /** A stretch `a` in which no occurrence of `pat` starts is kept as it is. */
  lemma {:induction false} ReplaceSkipAll(a: string, t: string, pat: string, rep: string)
    requires pat != [] && forall i :: 0 <= i < |a| ==> !StartsWith((a + t)[i..], pat)
    ensures Replace(a + t, pat, rep) == a + Replace(t, pat, rep)
    decreases |a|
  {
    if a != [] {
      assert [a[0]] + (a[1..] + t) == a + t;
      assert (a + t)[0..] == a + t;
      ReplaceSkip(a[0], a[1..] + t, pat, rep);
      forall i | 0 <= i < |a[1..]|
        ensures !StartsWith((a[1..] + t)[i..], pat)
      {
        assert (a[1..] + t)[i..] == (a + t)[i + 1..];
      }
      ReplaceSkipAll(a[1..], t, pat, rep);
    }
  }

  /** An occurrence of `pat` in `s[1..]` is one in `s`, one position further on. */
  lemma ContainsTail(s: string, pat: string)
    requires s != [] && Contains(s[1..], pat)
    ensures Contains(s, pat)
  {
    var i :| 0 <= i <= |s[1..]| && OccursAt(s[1..], pat, i);
    assert s[i + 1..i + 1 + |pat|] == s[1..][i..i + |pat|];
    assert OccursAt(s, pat, i + 1);
  }

  /** An occurrence of `pat` in `s` that is not at position 0 is one in `s[1..]`. */
  lemma ContainsShift(s: string, pat: string)
    requires Contains(s, pat) && !StartsWith(s, pat)
    ensures s != [] && Contains(s[1..], pat)
  {
    var i :| 0 <= i <= |s| && OccursAt(s, pat, i);
    if i == 0 {
      assert false;
    }
    assert s[1..][i - 1..i - 1 + |pat|] == s[i..i + |pat|];
    assert OccursAt(s[1..], pat, i - 1);
  }

  /** A string that lacks one of the characters of `pat` does not contain `pat`. */
  lemma LacksChar(s: string, pat: string, k: nat)
    requires k < |pat| && forall i :: 0 <= i < |s| ==> s[i] != pat[k]
    ensures !Contains(s, pat)
  {
    forall i | 0 <= i <= |s|
      ensures !OccursAt(s, pat, i)
    {
      if i + |pat| <= |s| {
        assert s[i..i + |pat|][k] == s[i + k];
      }
    }
  }

  /** Replacing a pattern that does not occur leaves the string unchanged. */
  lemma {:induction false} ReplaceAbsent(s: string, pat: string, rep: string)
    requires pat != [] && !Contains(s, pat)
    ensures Replace(s, pat, rep) == s
    decreases |s|
  {
    if |s| >= |pat| {
      if s[..|pat|] == pat {
        assert OccursAt(s, pat, 0);
        assert false;
      }
      if Contains(s[1..], pat) {
        ContainsTail(s, pat);
        assert false;
      }
      ReplaceAbsent(s[1..], pat, rep);
      assert s == [s[0]] + s[1..];
    }
  }

  /**
   * When the replacement holds fewer copies of `c` than the pattern, replacing never adds
   * copies of `c`, and removes at least one as soon as the pattern occurs.
   */
  lemma {:induction false} ReplaceDropsChar(s: string, pat: string, rep: string, c: char)
    requires pat != [] && multiset(rep)[c] < multiset(pat)[c]
    ensures multiset(Replace(s, pat, rep))[c] <= multiset(s)[c]
    ensures Contains(s, pat) ==> multiset(Replace(s, pat, rep))[c] < multiset(s)[c]
    decreases |s|
  {
    if |s| >= |pat| {
      if s[..|pat|] == pat {
        ReplaceDropsChar(s[|pat|..], pat, rep, c);
        assert s == s[..|pat|] + s[|pat|..];
        assert multiset(s) == multiset(pat) + multiset(s[|pat|..]);
      } else {
        ReplaceDropsChar(s[1..], pat, rep, c);
        assert s == [s[0]] + s[1..];
        assert multiset(s) == multiset([s[0]]) + multiset(s[1..]);
        if Contains(s, pat) {
          ContainsShift(s, pat);
        }
      }
    }
  }

  /**
   * Replacing with something no longer than the pattern never lengthens the string, and
   * shortens it by at least the difference as soon as the pattern occurs.
   */
  lemma {:induction false} ReplaceLength(s: string, pat: string, rep: string)
    requires pat != [] && |rep| <= |pat|
    ensures |Replace(s, pat, rep)| <= |s|
    ensures Contains(s, pat) ==> |Replace(s, pat, rep)| <= |s| - (|pat| - |rep|)
    decreases |s|
  {
    if |s| >= |pat| {
      if s[..|pat|] == pat {
        ReplaceLength(s[|pat|..], pat, rep);
      } else {
        ReplaceLength(s[1..], pat, rep);
        if Contains(s, pat) {
          ContainsShift(s, pat);
        }
      }
    }
  }

  /**
   * Python's `str.isspace` for one character: the code points that `str.strip()` with no
   * argument removes.
   */
  predicate IsSpace(c: char) {
    var n := c as int;
    0x09 <= n <= 0x0D || 0x1C <= n <= 0x20 || n == 0x85 || n == 0xA0 || n == 0x1680
    || 0x2000 <= n <= 0x200A || n == 0x2028 || n == 0x2029 || n == 0x202F || n == 0x205F
    || n == 0x3000
  }

  /** Every character is whitespace (the empty string included). */
  predicate IsBlank(s: string) {
    forall i :: 0 <= i < |s| ==> IsSpace(s[i])
  }

  /** `s.lstrip()`. */
  function TrimStart(s: string): string {
    if s != [] && IsSpace(s[0]) then TrimStart(s[1..]) else s
  }

  /** `s.rstrip()`. */
  function TrimEnd(s: string): string {
    if s != [] && IsSpace(s[|s| - 1]) then TrimEnd(s[..|s| - 1]) else s
  }

  /** Python's `s.strip()`. */
  function Strip(s: string): string {
    TrimEnd(TrimStart(s))
  }

  /** `s.strip()` is empty exactly when `s` is all whitespace. */
  lemma {:induction false} StripEmptyIffBlank(s: string)
    ensures Strip(s) == [] <==> IsBlank(s)
  {
    TrimStartBlank(s);
    TrimEndEmpty(TrimStart(s));
  }

  lemma {:induction false} TrimStartBlank(s: string)
    ensures TrimStart(s) == [] <==> IsBlank(s)
    ensures TrimStart(s) != [] ==> !IsSpace(TrimStart(s)[0])
    decreases |s|
  {
    if s != [] && IsSpace(s[0]) {
      TrimStartBlank(s[1..]);
      assert IsBlank(s) <==> IsBlank(s[1..]) by {
        if IsBlank(s[1..]) {
          forall i | 0 <= i < |s| ensures IsSpace(s[i]) {
            if i > 0 { assert s[i] == s[1..][i - 1]; }
          }
        }
      }
    }
  }

  lemma {:induction false} TrimEndEmpty(s: string)
    ensures TrimEnd(s) == [] <==> (s == [] || IsBlank(s))
    ensures s != [] && !IsSpace(s[0]) ==> TrimEnd(s) != []
    decreases |s|
  {
    if s != [] && IsSpace(s[|s| - 1]) {
      TrimEndEmpty(s[..|s| - 1]);
      assert IsBlank(s) <==> IsBlank(s[..|s| - 1]) by {
        if IsBlank(s[..|s| - 1]) {
          forall i | 0 <= i < |s| ensures IsSpace(s[i]) {
            if i < |s| - 1 { assert s[i] == s[..|s| - 1][i]; }
          }
        }
      }
    }
  }
}
