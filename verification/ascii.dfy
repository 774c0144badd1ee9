/** Character classes on ASCII strings, as the naming engine and the slug builder use them. */
module Ascii {

  function LowerChar(c: char): char {
    if 'A' <= c <= 'Z' then c + 32 as char else c
  }

  function UpperChar(c: char): char {
    if 'a' <= c <= 'z' then c - 32 as char else c
  }

  function ToLower(s: string): (r: string)
    ensures |r| == |s| && forall i :: 0 <= i < |s| ==> r[i] == LowerChar(s[i])
  {
    seq(|s|, i requires 0 <= i < |s| => LowerChar(s[i]))
  }

  predicate IsVowel(c: char) {
    UpperChar(c) == 'A' || UpperChar(c) == 'E' || UpperChar(c) == 'I' || UpperChar(c) == 'O' || UpperChar(c) == 'U'
  }

  predicate OccursAt(s: string, t: string, i: nat) {
    i + |t| <= |s| && s[i..i + |t|] == t
  }

  predicate Contains(s: string, t: string) {
    exists i | 0 <= i <= |s| :: OccursAt(s, t, i)
  }

  predicate EndsWith(s: string, t: string) {
    |t| <= |s| && s[|s| - |t|..] == t
  }

  predicate IsSpace(c: char) {
    c == ' ' || c == '\t' || c == '\n' || c == '\r' || c as int == 11 || c as int == 12
  }

  const SPACE: char -> bool := c => IsSpace(c)

  function StripLeft(s: string, drop: char -> bool): string {
    if s != "" && drop(s[0]) then StripLeft(s[1..], drop) else s
  }

  function StripRight(s: string, drop: char -> bool): string {
    if s != "" && drop(s[|s| - 1]) then StripRight(s[..|s| - 1], drop) else s
  }

  function Trim(s: string): string {
    StripRight(StripLeft(s, SPACE), SPACE)
  }

  function Clamp(value: int): int {
    if value < 0 then 0 else if value > 100 then 100 else value
  }

  // ---------------------------------------------------------------- what they mean

  /** Letters change case in place; everything else stays. */
  lemma CaseIs(c: char)
    ensures
      if 'A' <= c <= 'Z'
      then 'a' <= LowerChar(c) <= 'z' && LowerChar(c) as int - 'a' as int == c as int - 'A' as int
      else LowerChar(c) == c
    ensures
      if 'a' <= c <= 'z'
      then 'A' <= UpperChar(c) <= 'Z' && UpperChar(c) as int - 'A' as int == c as int - 'a' as int
      else UpperChar(c) == c
    ensures IsVowel(c) <==> c in {'A', 'E', 'I', 'O', 'U', 'a', 'e', 'i', 'o', 'u'}
  {
  }

  lemma ContainsIff(s: string, t: string)
    ensures Contains(s, t) <==> exists p: string, q: string :: s == p + t + q
  {
    if Contains(s, t) {
      var i :| 0 <= i <= |s| && OccursAt(s, t, i);
      assert s == s[..i] + t + s[i + |t|..];
    }
    forall p: string, q: string | s == p + t + q ensures Contains(s, t) {
      assert OccursAt(s, t, |p|);
    }
  }

  lemma EndsWithIff(s: string, t: string)
    ensures EndsWith(s, t) <==> exists p: string :: s == p + t
  {
    if EndsWith(s, t) { assert s == s[..|s| - |t|] + t; }
  }

  predicate White(c: char) {
    c in {' ', '\t', '\n', '\r', 11 as char, 12 as char}
  }

  predicate AllWhite(s: string) {
    forall i :: 0 <= i < |s| ==> White(s[i])
  }

  lemma {:induction false} StripLeftIs(s: string) returns (p: string)
    ensures s == p + StripLeft(s, SPACE) && AllWhite(p)
    ensures StripLeft(s, SPACE) == "" || !White(StripLeft(s, SPACE)[0])
    decreases |s|
  {
    p := "";
    if s != "" && IsSpace(s[0]) {
      p := StripLeftIs(s[1..]);
      p := [s[0]] + p;
    }
  }

  lemma {:induction false} StripRightIs(s: string) returns (q: string)
    ensures s == StripRight(s, SPACE) + q && AllWhite(q)
    ensures StripRight(s, SPACE) == "" || !White(StripRight(s, SPACE)[|StripRight(s, SPACE)| - 1])
    ensures StripRight(s, SPACE) != "" ==> s != "" && StripRight(s, SPACE)[0] == s[0]
    decreases |s|
  {
    q := "";
    if s != "" && IsSpace(s[|s| - 1]) {
      q := StripRightIs(s[..|s| - 1]);
      q := q + [s[|s| - 1]];
    }
  }

  /** Trimming takes white space off both ends, and all of it. */
  lemma TrimIs(s: string)
    ensures exists p: string, q: string :: s == p + Trim(s) + q && AllWhite(p) && AllWhite(q)
    ensures Trim(s) == "" || (!White(Trim(s)[0]) && !White(Trim(s)[|Trim(s)| - 1]))
  {
    var p := StripLeftIs(s);
    var q := StripRightIs(StripLeft(s, SPACE));
    assert s == p + (Trim(s) + q) == p + Trim(s) + q;
  }

  lemma TrimmedAwayIff(s: string)
    ensures Trim(s) == "" <==> AllWhite(s)
  {
    TrimIs(s);
    var p, q :| s == p + Trim(s) + q && AllWhite(p) && AllWhite(q);
    if Trim(s) != "" { assert s[|p|] == Trim(s)[0]; }
  }

  /** The nearest value of the range. */
  lemma ClampIs(value: int, other: int)
    requires 0 <= other <= 100
    ensures 0 <= Clamp(value) <= 100
    ensures if value < Clamp(value) then Clamp(value) <= other else value > Clamp(value) ==> other <= Clamp(value)
  {
  }
}
