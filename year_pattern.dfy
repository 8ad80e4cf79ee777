/**
 * The regular expression `/(\d{2,4})\s*years?/i` as `String.prototype.match`
 * runs it: start positions tried left to right, `\d{2,4}` and `\s*` greedy
 * and giving back one character at a time. The analysers read only capture
 * group 1; the start of the match is kept to state which match is the
 * leftmost one.
 */
module YearPattern {
  import opened Wrappers
  import opened Text

  /** A successful match: where it starts and what `(\d{2,4})` captured. */
  datatype RegexMatch = RegexMatch(index: nat, group: string)

  /** `year` in any letter case starts at position `p` (the `i` flag). */
  predicate YearAt(s: string, p: nat) {
    && p + 4 <= |s|
    && LowerChar(s[p]) == 'y' && LowerChar(s[p + 1]) == 'e'
    && LowerChar(s[p + 2]) == 'a' && LowerChar(s[p + 3]) == 'r'
  }

  /** The `k` characters from position `i` are digits. */
  ghost predicate DigitSpan(s: string, i: nat, k: nat) {
    i + k <= |s| && forall q :: i <= q < i + k ==> IsDigit(s[q])
  }

  /** The `j` characters from position `p` are whitespace. */
  ghost predicate SpaceSpan(s: string, p: nat, j: nat) {
    p + j <= |s| && forall q :: p <= q < p + j ==> IsSpace(s[q])
  }

  /** The pattern matches from `i` with `k` digits and `j` whitespace characters before `year`. */
  ghost predicate PatternAt(s: string, i: nat, k: nat, j: nat) {
    2 <= k <= 4 && DigitSpan(s, i, k) && SpaceSpan(s, i + k, j) && YearAt(s, i + k + j)
  }

  /** Some match of the pattern starts at `i`. */
  ghost predicate MatchesAt(s: string, i: nat) {
    exists k: nat, j: nat :: PatternAt(s, i, k, j)
  }

  /** `m` is a match of the pattern in `s`, its group being the digits it starts with. */
  ghost predicate IsMatch(s: string, m: RegexMatch) {
    && m.index + |m.group| <= |s|
    && m.group == s[m.index..m.index + |m.group|]
    && exists j: nat :: PatternAt(s, m.index, |m.group|, j)
  }

  /** `m` is a match and no match starts further left. */
  ghost predicate IsLeftmost(s: string, m: RegexMatch) {
    IsMatch(s, m) && forall i: nat :: i < m.index ==> !MatchesAt(s, i)
  }

  /** The greedy `\d{2,4}` first looks at the whole run of digits from `i`. */
  function DigitRun(s: string, i: nat): (n: nat)
    requires i <= |s|
    ensures DigitSpan(s, i, n)
    ensures i + n < |s| ==> !IsDigit(s[i + n])
    decreases |s| - i
  {
    if i < |s| && IsDigit(s[i]) then 1 + DigitRun(s, i + 1) else 0
  }

  /** The greedy `\s*` first takes the whole run of whitespace from `p`. */
  function SpaceRun(s: string, p: nat): (n: nat)
    requires p <= |s|
    ensures SpaceSpan(s, p, n)
    ensures p + n < |s| ==> !IsSpace(s[p + n])
    decreases |s| - p
  {
    if p < |s| && IsSpace(s[p]) then 1 + SpaceRun(s, p + 1) else 0
  }

  /** `\s*` holds `j` characters from `p`; try `year` after them, then give one back. */
  function TrySpaces(s: string, p: nat, j: nat): (r: Option<nat>)
    requires SpaceSpan(s, p, j)
    ensures r.Some? ==> r.value <= j && YearAt(s, p + r.value)
    ensures r.None? ==> forall q: nat :: p <= q <= p + j ==> !YearAt(s, q)
  {
    if YearAt(s, p + j) then Some(j)
    else if j == 0 then None
    else TrySpaces(s, p, j - 1)
  }

  /** `\d{2,4}` holds `k` digits from `i`; try the rest of the pattern, then give one back. */
  function TryDigits(s: string, i: nat, k: nat): (r: Option<RegexMatch>)
    requires DigitSpan(s, i, k) && k <= 4
    ensures r.Some? ==> r.value.index == i && |r.value.group| <= k && IsMatch(s, r.value)
    ensures r.None? ==> forall k': nat, j: nat :: k' <= k ==> !PatternAt(s, i, k', j)
    decreases k
  {
    if k < 2 then None
    else
      var p := i + k;
      var run := SpaceRun(s, p);
      match TrySpaces(s, p, run)
      case Some(j) =>
        assert PatternAt(s, i, k, j);
        Some(RegexMatch(i, s[i..p]))
      case None =>
        assert forall j: nat :: SpaceSpan(s, p, j) ==> j <= run;
        TryDigits(s, i, k - 1)
  }

  /** One attempt of the regex engine at start position `i`. */
  function MatchAt(s: string, i: nat): (r: Option<RegexMatch>)
    requires i <= |s|
    ensures r.Some? ==> r.value.index == i && IsMatch(s, r.value)
    ensures r.None? ==> !MatchesAt(s, i)
  {
    var run := DigitRun(s, i);
    TryDigits(s, i, if run < 4 then run else 4)
  }

  /** The engine's scan over start positions `i`, `i + 1`, …, `|s|`. */
  function SearchFrom(s: string, i: nat): (r: Option<RegexMatch>)
    requires i <= |s|
    ensures r.Some? ==> i <= r.value.index && IsMatch(s, r.value)
                        && forall i': nat :: i <= i' < r.value.index ==> !MatchesAt(s, i')
    ensures r.None? ==> forall i': nat :: i <= i' ==> !MatchesAt(s, i')
    decreases |s| - i
  {
    match MatchAt(s, i)
    case Some(m) => Some(m)
    case None => if i == |s| then None else SearchFrom(s, i + 1)
  }

  /**
   * `s.match(/(\d{2,4})\s*years?/i)`: the leftmost match, its capture being
   * two to four ASCII digits; none exactly when the pattern occurs nowhere.
   */
  function YearMatch(s: string): (r: Option<RegexMatch>)
    ensures r.Some? ==> IsLeftmost(s, r.value)
    ensures r.Some? ==> 2 <= |r.value.group| <= 4 && forall c :: c in r.value.group ==> IsDigit(c)
    ensures r.None? <==> forall i: nat :: !MatchesAt(s, i)
  {
    var r := SearchFrom(s, 0);
    assert r.Some? ==> MatchesAt(s, r.value.index);
    r
  }

  /**
   * Two matches at one position capture the same number of digits: a digit
   * can be neither whitespace nor `y`, so the greedy group must end where the
   * run of digits ends.
   */
  lemma {:induction false} CaptureDetermined(s: string, i: nat, k: nat, j: nat, k': nat, j': nat)
    requires PatternAt(s, i, k, j) && PatternAt(s, i, k', j')
    ensures k == k' && j == j'
  {
    assert !IsDigit(s[i + k]) && !IsDigit(s[i + k']);
    assert k == k';
    assert !IsSpace(s[i + k + j]) && !IsSpace(s[i + k + j']);
  }

  /** The leftmost match is unique: the specification leaves `YearMatch` no choice. */
  lemma {:induction false} LeftmostUnique(s: string, m: RegexMatch, m': RegexMatch)
    requires IsLeftmost(s, m) && IsLeftmost(s, m')
    ensures m == m'
  {
    var j :| PatternAt(s, m.index, |m.group|, j);
    var j' :| PatternAt(s, m'.index, |m'.group|, j');
    if m.index < m'.index {
      assert MatchesAt(s, m.index);
    } else if m'.index < m.index {
      assert MatchesAt(s, m'.index);
    } else {
      CaptureDetermined(s, m.index, |m.group|, j, |m'.group|, j');
    }
  }

  /** `t` is `s` with every character passed through the ASCII case map. */
  ghost predicate CaseFolded(s: string, t: string) {
    |t| == |s| && forall q :: 0 <= q < |s| ==> t[q] == LowerChar(s[q])
  }

  /** Case folding cannot create, remove or move a match. */
  lemma PatternIgnoresCase(s: string, t: string, i: nat, k: nat, j: nat)
    requires CaseFolded(s, t)
    ensures PatternAt(t, i, k, j) <==> PatternAt(s, i, k, j)
  {
  }

  /** A match starts at `i` in the text exactly when one starts there in its case-folded form. */
  lemma MatchesAtIgnoresCase(s: string, t: string, i: nat)
    requires CaseFolded(s, t)
    ensures MatchesAt(t, i) <==> MatchesAt(s, i)
  {
    if MatchesAt(s, i) {
      var k: nat, j: nat :| PatternAt(s, i, k, j);
      PatternIgnoresCase(s, t, i, k, j);
    }
    if MatchesAt(t, i) {
      var k: nat, j: nat :| PatternAt(t, i, k, j);
      PatternIgnoresCase(s, t, i, k, j);
    }
  }

  /** A match of the text is a match of its case-folded form: its digits are left as they are. */
  lemma MatchIgnoresCase(s: string, t: string, m: RegexMatch)
    requires CaseFolded(s, t) && IsMatch(s, m)
    ensures IsMatch(t, m)
  {
    var j: nat :| PatternAt(s, m.index, |m.group|, j);
    PatternIgnoresCase(s, t, m.index, |m.group|, j);
    assert t[m.index..m.index + |m.group|] == s[m.index..m.index + |m.group|];
  }

  /** The leftmost match of the text is the leftmost match of its case-folded form. */
  lemma LeftmostIgnoresCase(s: string, t: string, m: RegexMatch)
    requires CaseFolded(s, t) && IsLeftmost(s, m)
    ensures IsLeftmost(t, m)
  {
    MatchIgnoresCase(s, t, m);
    forall i: nat | i < m.index
      ensures !MatchesAt(t, i)
    {
      MatchesAtIgnoresCase(s, t, i);
    }
  }

  /** Case-folded texts give the same match. */
  lemma {:induction false} YearMatchFolded(s: string, t: string)
    requires CaseFolded(s, t)
    ensures YearMatch(t) == YearMatch(s)
  {
    var r := YearMatch(s);
    if r.Some? {
      var m := r.value;
      LeftmostIgnoresCase(s, t, m);
      var j: nat :| PatternAt(t, m.index, |m.group|, j);
      assert MatchesAt(t, m.index);
      LeftmostUnique(t, r.value, YearMatch(t).value);
    } else {
      forall i: nat
        ensures !MatchesAt(t, i)
      {
        MatchesAtIgnoresCase(s, t, i);
      }
    }
  }

  /** The pattern is case-insensitive: the text and its lowercase form give the same match. */
  lemma YearMatchIgnoresCase(s: string)
    ensures YearMatch(Lower(s)) == YearMatch(s)
  {
    YearMatchFolded(s, Lower(s));
  }

  /** A leftmost match is what the search returns. */
  lemma LeftmostIsYearMatch(s: string, m: RegexMatch)
    requires IsLeftmost(s, m)
    ensures YearMatch(s) == Some(m)
  {
    var j: nat :| PatternAt(s, m.index, |m.group|, j);
    assert MatchesAt(s, m.index);
    LeftmostUnique(s, m, YearMatch(s).value);
  }

  /** Every match starts with two digits. */
  lemma MatchStartsWithDigits(s: string, i: nat)
    ensures MatchesAt(s, i) ==> i + 1 < |s| && IsDigit(s[i]) && IsDigit(s[i + 1])
  {
  }

  /** A run longer than four digits is matched by its last four. */
  lemma LongRunKeepsLastFour()
    ensures YearMatch("12345 years") == Some(RegexMatch(1, "2345"))
  {
    var s := "12345 years";
    assert PatternAt(s, 1, 4, 1);
    assert s[1..5] == "2345";
    assert !MatchesAt(s, 0) by {
      forall k: nat, j: nat
        ensures !PatternAt(s, 0, k, j)
      {
        assert k <= 4 ==> IsDigit(s[k]);
      }
    }
    LeftmostIsYearMatch(s, RegexMatch(1, "2345"));
  }

  /** A single digit is too short for the group. */
  lemma SingleDigitNoMatch()
    ensures YearMatch("1 year") == None
  {
    var s := "1 year";
    forall i: nat
      ensures !MatchesAt(s, i)
    {
      MatchStartsWithDigits(s, i);
    }
  }

  /** None of the first `n` characters of `s` is a digit. */
  predicate NoDigitBefore(s: string, n: nat)
    requires n <= |s|
  {
    n == 0 || (!IsDigit(s[n - 1]) && NoDigitBefore(s, n - 1))
  }

  /** No match starts before the first digit. */
  lemma {:induction false} NoMatchBefore(s: string, n: nat)
    requires n <= |s| && NoDigitBefore(s, n)
    ensures forall i: nat :: i < n ==> !MatchesAt(s, i)
  {
    if n > 0 {
      NoMatchBefore(s, n - 1);
      MatchStartsWithDigits(s, n - 1);
    }
  }

  /** The year pattern would match this text at the three digits "500". */
  lemma HampiTextHasAge()
    ensures YearMatch("hampi is 500 years old") == Some(RegexMatch(9, "500"))
  {
    var s := "hampi is 500 years old";
    assert NoDigitBefore("hampi is 500 years old", 9);
    NoMatchBefore(s, 9);
    assert PatternAt(s, 9, 3, 1);
    assert s[9..12] == "500";
    LeftmostIsYearMatch(s, RegexMatch(9, "500"));
  }
}
