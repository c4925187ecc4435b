/** The few operations on Python `str` values that the scanner relies on:
    `str.lower`, `str.startswith`, the `in` substring test, `split("#")[0]`
    and `rstrip("/")`. */
module Text {

  /** `c.lower()` for the ASCII letters; every other character is kept. */
  function LowerChar(c: char): char
  {
    if 'A' <= c <= 'Z' then (c as int - 'A' as int + 'a' as int) as char else c
  }

  /** `s.lower()`, character by character: same length, each ASCII
      capital becomes the small letter 32 code points later, every other
      character is kept. */
  function Lower(s: string): (r: string)
    ensures |r| == |s|
    ensures forall i | 0 <= i < |s| && 'A' <= s[i] <= 'Z' :: r[i] as int == s[i] as int + 32 && 'a' <= r[i] <= 'z'
    ensures forall i | 0 <= i < |s| && !('A' <= s[i] <= 'Z') :: r[i] == s[i]
  {
    seq(|s|, i requires 0 <= i < |s| => LowerChar(s[i]))
  }

  /** `s.startswith(p)`. */
  predicate StartsWith(s: string, p: string)
  {
    |p| <= |s| && s[..|p|] == p
  }

  /** `p` occurs in `s` starting at position `i`. */
  ghost predicate OccursAt(p: string, s: string, i: int)
  {
    0 <= i <= |s| - |p| && s[i..i + |p|] == p
  }

  /** Reference meaning of `p in s`: `p` occurs at some position of `s`. */
  ghost predicate Occurs(p: string, s: string)
  {
    exists i :: OccursAt(p, s, i)
  }

  /** `p in s`, scanning `s` from the left. */
  function Contains(p: string, s: string): bool
    decreases |s|
  {
    if |s| < |p| then false
    else if s[..|p|] == p then true
    else Contains(p, s[1..])
  }

  /** The scan agrees with the reference meaning, in both directions. */
  lemma {:induction false} ContainsIff(p: string, s: string)
    ensures Contains(p, s) <==> Occurs(p, s)
    decreases |s|
  {
    if |s| < |p| {
    } else if s[..|p|] == p {
      assert OccursAt(p, s, 0);
    } else {
      ContainsIff(p, s[1..]);
      if Occurs(p, s) {
        var i :| OccursAt(p, s, i);
        assert i != 0;
        assert s[1..][i - 1..i - 1 + |p|] == s[i..i + |p|];
        assert OccursAt(p, s[1..], i - 1);
      }
      if Occurs(p, s[1..]) {
        var j :| OccursAt(p, s[1..], j);
        assert s[j + 1..j + 1 + |p|] == s[1..][j..j + |p|];
        assert OccursAt(p, s, j + 1);
      }
    }
  }

  /** `s.split("#")[0]`: the part of `s` before its first `#`, or all of `s`
      when it has none. */
  function BeforeHash(s: string): (r: string)
    ensures r <= s
    ensures '#' !in r
    ensures |r| < |s| ==> s[|r|] == '#'
  {
    if s == [] || s[0] == '#' then [] else [s[0]] + BeforeHash(s[1..])
  }

  /** Cutting `a + "#" + b` keeps exactly `a` when `a` has no `#`, and a
      string without `#` is kept whole. */
  lemma BeforeHashOf(a: string, b: string)
    requires '#' !in a
    ensures BeforeHash(a + "#" + b) == a
    ensures BeforeHash(a) == a
  {
    var s := a + "#" + b;
    assert s[..|a|] == a && s[|a|] == '#';
    assert forall i | 0 <= i < |a| :: s[i] == a[i];
  }

  /** `s.rstrip("/")`: `s` without its trailing run of slashes. */
  function TrimTrailingSlashes(s: string): (r: string)
    ensures r <= s
    ensures r == [] || r[|r| - 1] != '/'
    ensures forall i | |r| <= i < |s| :: s[i] == '/'
  {
    if s != [] && s[|s| - 1] == '/' then TrimTrailingSlashes(s[..|s| - 1]) else s
  }
}
