/** Vowel and consonant runs: the scorer's counters, and what bounded runs say about length. */
module Phonetics {
  import opened Ascii

  /** The k characters from position i are all vowels (or all non-vowels). */
  predicate Uniform(s: string, i: nat, k: nat, vowels: bool) {
    i + k <= |s| && forall p :: i <= p < i + k ==> IsVowel(s[p]) == vowels
  }

  /** Some window of length k is uniform: what /[AEIOU]{k,}/i and /[^AEIOU]{k,}/i test for. */
  predicate HasRun(s: string, vowels: bool, k: nat) {
    exists i: nat | i <= |s| :: Uniform(s, i, k, vowels)
  }

  lemma ShorterRun(s: string, vowels: bool, k: nat, l: nat)
    requires HasRun(s, vowels, k) && l <= k
    ensures HasRun(s, vowels, l)
  {
    var i: nat :| i <= |s| && Uniform(s, i, k, vowels);
    assert Uniform(s, i, l, vowels);
  }

  /** r is the length of the longest uniform window. */
  ghost predicate LongestRun(s: string, vowels: bool, r: nat) {
    HasRun(s, vowels, r) && forall k :: r < k ==> !HasRun(s, vowels, k)
  }

  /** Length of the longest run, counting up and resetting in one pass. */
  method MaxRun(name: string, ofVowels: bool) returns (max: nat)
    ensures LongestRun(name, ofVowels, max)
  {
    max := 0;
    var cur := 0;
    assert Uniform(name, 0, 0, ofVowels);
    for n := 0 to |name|
      invariant cur <= n && cur <= max
      invariant Uniform(name, n - cur, cur, ofVowels)
      invariant cur < n ==> IsVowel(name[n - cur - 1]) != ofVowels
      invariant HasRun(name, ofVowels, max)
      invariant forall i: nat, k: nat {:trigger Uniform(name, i, k, ofVowels)} ::
        i + k <= n && max < k ==> !Uniform(name, i, k, ofVowels)
    {
      if IsVowel(name[n]) == ofVowels {
        cur := cur + 1;
        assert Uniform(name, n + 1 - cur, cur, ofVowels);
        if cur > max { max := cur; }
      } else {
        cur := 0;
      }
    }
  }

  lemma LongestRunAtMost(s: string, vowels: bool, r: nat, k: nat)
    requires LongestRun(s, vowels, r)
    ensures r <= k <==> !HasRun(s, vowels, k + 1)
  {
    if r > k { ShorterRun(s, vowels, r, k + 1); }
  }

  ghost predicate BoundaryAt(s: string, i: nat) {
    i + 1 < |s| && IsVowel(s[i]) != IsVowel(s[i + 1])
  }

  /** The places where a vowel meets a non-vowel. */
  ghost function Boundaries(s: string): set<nat> {
    set i: nat | i < |s| && BoundaryAt(s, i)
  }

  lemma BoundariesSnoc(s: string, n: nat)
    requires 0 < n < |s|
    ensures |Boundaries(s[..n + 1])| ==
      |Boundaries(s[..n])| + (if IsVowel(s[n - 1]) != IsVowel(s[n]) then 1 else 0)
  {
    var shorter, longer := Boundaries(s[..n]), Boundaries(s[..n + 1]);
    forall i: nat ensures i in longer <==> i in shorter || (i == n - 1 && BoundaryAt(s, i)) {
      assert i < n ==> BoundaryAt(s[..n + 1], i) == BoundaryAt(s, i);
      assert i + 1 < n ==> BoundaryAt(s[..n], i) == BoundaryAt(s, i);
    }
    assert longer == if BoundaryAt(s, n - 1) then shorter + {n - 1} else shorter;
  }

  method CountAlternations(name: string) returns (count: nat)
    ensures count == |Boundaries(name)|
  {
    count := 0;
    assert Boundaries(name[..if |name| == 0 then 0 else 1]) == {};
    var i := 0;
    while i < |name| - 1
      invariant 0 <= i && (|name| > 0 ==> i < |name|)
      invariant count == |Boundaries(name[..if |name| == 0 then 0 else i + 1])|
    {
      BoundariesSnoc(name, i + 1);
      if IsVowel(name[i]) != IsVowel(name[i + 1]) { count := count + 1; }
      i := i + 1;
    }
    assert name[..if |name| == 0 then 0 else i + 1] == name;
  }

  /** No vowel run of three, no consonant run of four. */
  ghost predicate BoundedRuns(s: string) {
    !HasRun(s, true, 3) && !HasRun(s, false, 4)
  }

  lemma RunContains(s: string, i: nat, k: nat, vowels: bool, n: nat)
    requires Uniform(s, i, k, vowels)
    ensures n <= k ==> HasRun(s, vowels, n)
  {
    if n <= k { assert Uniform(s, i, n, vowels); }
  }

  lemma RunWithinBounds(s: string, i: nat, k: nat, vowels: bool)
    requires BoundedRuns(s) && Uniform(s, i, k, vowels)
    ensures k <= if vowels then 2 else 3
  {
    RunContains(s, i, k, vowels, if vowels then 3 else 4);
  }

  /** Follows the last run of a prefix: what precedes it is at most five characters per two
      completed runs. */
  lemma {:induction false} RunsSoFar(s: string, n: nat) returns (cur: nat)
    requires BoundedRuns(s) && 0 < n <= |s|
    ensures 0 < cur <= n && Uniform(s, n - cur, cur, IsVowel(s[n - 1]))
    ensures 2 * (n - cur) <= 5 * |Boundaries(s[..n])| + if IsVowel(s[n - 1]) then 1 else 0
    ensures cur <= if IsVowel(s[n - 1]) then 2 else 3
    decreases n
  {
    if n == 1 {
      cur := 1;
    } else {
      var before := RunsSoFar(s, n - 1);
      BoundariesSnoc(s, n - 1);
      cur := if IsVowel(s[n - 2]) == IsVowel(s[n - 1]) then before + 1 else 1;
      RunWithinBounds(s, n - cur, cur, IsVowel(s[n - 1]));
    }
  }

  /** Bounded runs bound the length by the number of alternations: five characters per two
      runs, which is within three per run. */
  lemma BoundedRunsBoundLength(s: string)
    requires BoundedRuns(s)
    ensures 2 * |s| <= 5 * (|Boundaries(s)| + 1) + 1
    ensures |s| <= 3 * (|Boundaries(s)| + 1)
  {
    if s != "" {
      var cur := RunsSoFar(s, |s|);
      assert s[..|s|] == s;
    }
  }
}
