/**
 * The JavaScript string primitives the analysers rely on: the character
 * classes of regular expressions, `toLowerCase`, `includes` and `trim`.
 */
module Text {

  /** `\d` in a regular expression without the `u` flag: the ASCII digits only. */
  predicate IsDigit(c: char) {
    '0' <= c <= '9'
  }

  /**
   * The ECMAScript WhiteSpace and LineTerminator characters: exactly what `\s`
   * matches and what `String.prototype.trim` removes.
   */
  predicate IsSpace(c: char) {
    var n := c as int;
    || n == 0x09 || n == 0x0A || n == 0x0B || n == 0x0C || n == 0x0D
    || n == 0x20 || n == 0xA0 || n == 0x1680 || 0x2000 <= n <= 0x200A
    || n == 0x2028 || n == 0x2029 || n == 0x202F || n == 0x205F
    || n == 0x3000 || n == 0xFEFF
  }

  /** The ASCII part of `toLowerCase`: `A`..`Z` become `a`..`z`, everything else is kept. */
  function LowerChar(c: char): char {
    if 'A' <= c <= 'Z' then (c as int + 32) as char else c
  }

  /** `s.toLowerCase()`, character by character. */
  function Lower(s: string): (r: string)
    ensures |r| == |s|
    ensures forall i :: 0 <= i < |s| ==> r[i] == LowerChar(s[i])
  {
    if s == [] then [] else [LowerChar(s[0])] + Lower(s[1..])
  }

  /** Lowercasing a lowercased string changes nothing. */
  lemma LowerIdempotent(s: string)
    ensures Lower(Lower(s)) == Lower(s)
  {
    assert forall i :: 0 <= i < |s| ==> Lower(Lower(s))[i] == Lower(s)[i];
  }

  /** `k` sits in `t` starting at position `i`. */
  ghost predicate OccursAt(k: string, t: string, i: int) {
    0 <= i && i + |k| <= |t| && t[i..i + |k|] == k
  }

  /** `k` is a substring of `t`. */
  ghost predicate Occurs(k: string, t: string) {
    exists i :: OccursAt(k, t, i)
  }

  /** An occurrence of a key without capital letters survives lowercasing the text. */
  lemma LowerKeepsLowercaseKey(k: string, s: string, i: int)
    requires OccursAt(k, s, i)
    requires forall q :: 0 <= q < |k| ==> !('A' <= k[q] <= 'Z')
    ensures OccursAt(k, Lower(s), i)
  {
    var t := Lower(s);
    forall q | 0 <= q < |k|
      ensures t[i..i + |k|][q] == k[q]
    {
      assert s[i..i + |k|][q] == s[i + q];
    }
    assert t[i..i + |k|] == k;
  }

  /** Lowercasing keeps whitespace-only text whitespace-only. */
  lemma LowerKeepsBlank(s: string)
    requires forall q :: 0 <= q < |s| ==> IsSpace(s[q])
    ensures forall q :: 0 <= q < |s| ==> IsSpace(Lower(s)[q])
  {
  }

  /** A key holding a character that the text lacks does not occur in it. */
  lemma AbsentCharExcludes(k: string, t: string, q: int)
    requires 0 <= q < |k| && k[q] !in t
    ensures !Occurs(k, t)
  {
  }

  /** Compares `k` with `t` from position `i` on, one character at a time. */
  predicate StartsAt(t: string, k: string, i: nat)
    decreases |k|
  {
    |k| == 0 || (i < |t| && t[i] == k[0] && StartsAt(t, k[1..], i + 1))
  }

  lemma {:induction false} StartsAtOccurs(t: string, k: string, i: nat)
    requires i <= |t|
    ensures StartsAt(t, k, i) <==> OccursAt(k, t, i)
    decreases |k|
  {
    if |k| > 0 && i < |t| {
      StartsAtOccurs(t, k[1..], i + 1);
      if i + |k| <= |t| {
        assert t[i..i + |k|] == [t[i]] + t[i + 1..i + 1 + |k[1..]|];
        assert k == [k[0]] + k[1..];
      }
    }
  }

  /** The scan behind `t.includes(k)`, trying the start positions from `from` upwards. */
  function IncludesFrom(t: string, k: string, from: nat): (b: bool)
    ensures b <==> exists i :: from <= i && OccursAt(k, t, i)
    decreases |t| - from
  {
    if from + |k| > |t| then false
    else
      StartsAtOccurs(t, k, from);
      if StartsAt(t, k, from) then true
      else IncludesFrom(t, k, from + 1)
  }

  /** `t.includes(k)`: true exactly when `k` is a substring of `t` (the empty key included). */
  function Includes(t: string, k: string): (b: bool)
    ensures b <==> Occurs(k, t)
  {
    IncludesFrom(t, k, 0)
  }

  /** `trimStart`: drops the leading whitespace and nothing else. */
  function TrimStart(s: string): (r: string)
    ensures |r| <= |s| && r == s[|s| - |r|..]
    ensures forall i :: 0 <= i < |s| - |r| ==> IsSpace(s[i])
    ensures r != [] ==> !IsSpace(r[0])
  {
    if s != [] && IsSpace(s[0]) then TrimStart(s[1..]) else s
  }

  /** `trimEnd`: drops the trailing whitespace and nothing else. */
  function TrimEnd(s: string): (r: string)
    ensures |r| <= |s| && r == s[..|r|]
    ensures forall i :: |r| <= i < |s| ==> IsSpace(s[i])
    ensures r != [] ==> !IsSpace(r[|r| - 1])
  {
    if s != [] && IsSpace(s[|s| - 1]) then TrimEnd(s[..|s| - 1]) else s
  }

  /** `r` is `s` from position `lo` on with only whitespace cut from either end. */
  ghost predicate TrimmedAt(s: string, r: string, lo: int) {
    && 0 <= lo <= |s| - |r|
    && r == s[lo..lo + |r|]
    && (forall i :: 0 <= i < lo ==> IsSpace(s[i]))
    && (forall i :: lo + |r| <= i < |s| ==> IsSpace(s[i]))
  }

  /**
   * `s.trim()`: the part of `s` between its leading and its trailing
   * whitespace; empty exactly when `s` is whitespace only.
   */
  function Trim(s: string): (r: string)
    ensures r == [] <==> forall i :: 0 <= i < |s| ==> IsSpace(s[i])
    ensures r != [] ==> !IsSpace(r[0]) && !IsSpace(r[|r| - 1])
    ensures exists lo :: TrimmedAt(s, r, lo)
  {
    var front := TrimStart(s);
    var r := TrimEnd(front);
    var lo := |s| - |front|;
    assert r == s[lo..lo + |r|];
    assert TrimmedAt(s, r, lo);
    r
  }

  /** Text with a non-whitespace character trims to a non-empty slice that starts and ends with non-whitespace. */
  lemma TrimNonBlank(s: string)
    requires exists i :: 0 <= i < |s| && !IsSpace(s[i])
    ensures var r := Trim(s);
            r != [] && !IsSpace(r[0]) && !IsSpace(r[|r| - 1]) && exists lo :: TrimmedAt(s, r, lo)
  {
  }
}
