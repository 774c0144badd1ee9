/** Edit distance: the table the scorer fills, and why it is the true minimum edit count.

    The reference definition is a chain of whole strings in which neighbours differ by one
    inserted, deleted or substituted character; the distance is the length of a shortest chain.
    The table takes the diagonal whenever two characters match, without a minimum, so its
    optimality rests on the difference bounds between neighbouring cells (CellNeighbours). */
module EditDistance {

  // ---------------------------------------------------------------- reference definition

  /** t is s with one character inserted at position i. */
  ghost predicate InsertedAt(s: string, t: string, i: nat) {
    i <= |s| && |t| == |s| + 1 && t[..i] == s[..i] && t[i + 1..] == s[i..]
  }

  /** t is s with the character at position i substituted. */
  ghost predicate SubstitutedAt(s: string, t: string, i: nat) {
    i < |s| && |t| == |s| && t[..i] == s[..i] && t[i + 1..] == s[i + 1..]
  }

  ghost predicate EditAt(s: string, t: string, i: nat) {
    InsertedAt(s, t, i) || InsertedAt(t, s, i) || SubstitutedAt(s, t, i)
  }

  ghost predicate OneEdit(s: string, t: string) {
    exists i: nat :: EditAt(s, t, i)
  }

  /** A chain from a to b: every string is one edit away from the one before it. */
  ghost predicate Chain(p: seq<string>, a: string, b: string) {
    && |p| > 0 && p[0] == a && p[|p| - 1] == b
    && forall k :: 0 <= k < |p| - 1 ==> OneEdit(p[k], p[k + 1])
  }

  /** d single-character edits turn a into b, and no fewer do. */
  ghost predicate LeastEdits(a: string, b: string, d: nat) {
    && (exists p :: Chain(p, a, b) && |p| == d + 1)
    && (forall p :: Chain(p, a, b) ==> d + 1 <= |p|)
  }

  // ---------------------------------------------------------------- the table

  function Min3(x: nat, y: nat, z: nat): nat {
    if x <= y && x <= z then x else if y <= z then y else z
  }

  /** What the table holds at row i, column j: the diagonal on a match, else one more than
      the least of the three neighbours. */
  ghost function Cell(a: string, b: string, i: nat, j: nat): nat
    requires i <= |a| && j <= |b|
  {
    if i == 0 then j
    else if j == 0 then i
    else if a[i - 1] == b[j - 1] then Cell(a, b, i - 1, j - 1)
    else 1 + Min3(Cell(a, b, i - 1, j), Cell(a, b, i, j - 1), Cell(a, b, i - 1, j - 1))
  }

  ghost function Distance(a: string, b: string): nat {
    Cell(a, b, |a|, |b|)
  }

  ghost predicate Near(x: int, y: int) {
    x <= y + 1 && y <= x + 1
  }

  /** Neighbouring cells differ by at most one, and a diagonal step never decreases. */
  lemma {:induction false} CellNeighbours(a: string, b: string, i: nat, j: nat)
    requires i <= |a| && j <= |b|
    ensures i > 0 ==> Near(Cell(a, b, i, j), Cell(a, b, i - 1, j))
    ensures j > 0 ==> Near(Cell(a, b, i, j), Cell(a, b, i, j - 1))
    ensures i > 0 && j > 0 ==>
      Cell(a, b, i - 1, j - 1) <= Cell(a, b, i, j) <= Cell(a, b, i - 1, j - 1) + 1
    decreases i + j
  {
    if i > 0 { CellNeighbours(a, b, i - 1, j); }
    if j > 0 { CellNeighbours(a, b, i, j - 1); }
    if i > 0 && j > 0 {
      CornerBounds(Cell(a, b, i - 1, j - 1), Cell(a, b, i - 1, j), Cell(a, b, i, j - 1), a[i - 1] == b[j - 1],
        Cell(a, b, i, j));
    }
  }

  /** Cells computed alike from neighbours that are near are near. */
  lemma CornersNear(d: nat, u: nat, l: nat, d': nat, u': nat, l': nat, matches: bool)
    requires Near(d, d') && Near(u, u') && Near(l, l')
    ensures Near(if matches then d else 1 + Min3(u, l, d), if matches then d' else 1 + Min3(u', l', d'))
  {
  }

  lemma CornerBounds(diagonal: nat, up: nat, left: nat, matches: bool, cell: nat)
    requires Near(up, diagonal) && Near(left, diagonal)
    requires cell == if matches then diagonal else 1 + Min3(up, left, diagonal)
    ensures Near(cell, up) && Near(cell, left) && diagonal <= cell <= diagonal + 1
  {
  }

  /** Taking the diagonal on a match is the same as taking the textbook minimum over all
      three moves: the shortcut in the table loses nothing. */
  lemma GreedyDiagonalIsMinimum(a: string, b: string, i: nat, j: nat)
    requires 0 < i <= |a| && 0 < j <= |b|
    ensures Cell(a, b, i, j) ==
      Min3(Cell(a, b, i - 1, j) + 1, Cell(a, b, i, j - 1) + 1,
           Cell(a, b, i - 1, j - 1) + (if a[i - 1] == b[j - 1] then 0 else 1))
  {
    CellNeighbours(a, b, i, j);
  }

  // ---------------------------------------------------------------- no chain is shorter

  /** A cell depends only on the prefixes it covers. */
  lemma {:induction false} CellPrefix(a: string, b: string, c: string, i: nat, j: nat)
    requires i <= |a| && j <= |b| && j <= |c| && b[..j] == c[..j]
    ensures Cell(a, b, i, j) == Cell(a, c, i, j)
    decreases i + j
  {
    if i > 0 && j > 0 {
      assert b[j - 1] == b[..j][j - 1] == c[..j][j - 1] == c[j - 1];
      assert b[..j - 1] == b[..j][..j - 1] == c[..j][..j - 1] == c[..j - 1];
      CellPrefix(a, b, c, i - 1, j);
      CellPrefix(a, b, c, i, j - 1);
      CellPrefix(a, b, c, i - 1, j - 1);
    }
  }

  lemma InsertedShifts(b: string, c: string, k: nat, j: nat)
    requires InsertedAt(b, c, k) && k < j <= |b|
    ensures c[j] == b[j - 1]
  {
    assert c[j] == c[k + 1..][j - k - 1] == b[k..][j - k - 1];
  }

  /** One character inserted into the second string moves every later cell by at most one. */
  lemma {:induction false} CellInsert(a: string, b: string, c: string, k: nat, i: nat, j: nat)
    requires InsertedAt(b, c, k) && k <= j <= |b| && i <= |a|
    ensures Near(Cell(a, b, i, j), Cell(a, c, i, j + 1))
    decreases i + j
  {
    if i == 0 {
    } else if j == k {
      CellPrefix(a, b, c, i, k);
      CellNeighbours(a, c, i, k + 1);
    } else {
      InsertedShifts(b, c, k, j);
      CellInsert(a, b, c, k, i - 1, j);
      CellInsert(a, b, c, k, i, j - 1);
      CellInsert(a, b, c, k, i - 1, j - 1);
      CornersNear(Cell(a, b, i - 1, j - 1), Cell(a, b, i - 1, j), Cell(a, b, i, j - 1),
                  Cell(a, c, i - 1, j), Cell(a, c, i - 1, j + 1), Cell(a, c, i, j), a[i - 1] == b[j - 1]);
    }
  }

  lemma {:induction false} CellSubstitute(a: string, b: string, c: string, k: nat, i: nat, j: nat)
    requires SubstitutedAt(b, c, k) && k < j <= |b| && i <= |a|
    ensures Near(Cell(a, b, i, j), Cell(a, c, i, j))
    decreases i + j
  {
    if i == 0 {
    } else if j == k + 1 {
      CellSubstitute(a, b, c, k, i - 1, j);
      CellPrefix(a, b, c, i, k);
      CellPrefix(a, b, c, i - 1, k);
      CellNeighbours(a, b, i, j);
      CellNeighbours(a, c, i, j);
    } else {
      assert c[j - 1] == c[k + 1..][j - k - 2] == b[k + 1..][j - k - 2] == b[j - 1];
      CellSubstitute(a, b, c, k, i - 1, j);
      CellSubstitute(a, b, c, k, i, j - 1);
      CellSubstitute(a, b, c, k, i - 1, j - 1);
      CornersNear(Cell(a, b, i - 1, j - 1), Cell(a, b, i - 1, j), Cell(a, b, i, j - 1),
                  Cell(a, c, i - 1, j - 1), Cell(a, c, i - 1, j), Cell(a, c, i, j - 1), a[i - 1] == b[j - 1]);
    }
  }

  /** One edit of the target moves the distance by at most one. */
  lemma DistanceOneEdit(a: string, b: string, c: string)
    requires OneEdit(b, c)
    ensures Near(Distance(a, b), Distance(a, c))
  {
    var k: nat :| EditAt(b, c, k);
    if InsertedAt(b, c, k) {
      CellInsert(a, b, c, k, |a|, |b|);
    } else if InsertedAt(c, b, k) {
      CellInsert(a, c, b, k, |a|, |c|);
    } else {
      CellSubstitute(a, b, c, k, |a|, |b|);
    }
  }

  lemma {:induction false} CellSelf(a: string, i: nat)
    requires i <= |a|
    ensures Cell(a, a, i, i) == 0
  {
    if i > 0 { CellSelf(a, i - 1); }
  }

  lemma {:induction false} ChainAtLeastDistance(p: seq<string>, a: string, b: string)
    requires Chain(p, a, b)
    ensures Distance(a, b) + 1 <= |p|
    decreases |p|
  {
    if |p| == 1 {
      CellSelf(a, |a|);
    } else {
      var shorter := p[..|p| - 1];
      ChainAtLeastDistance(shorter, a, shorter[|shorter| - 1]);
      DistanceOneEdit(a, p[|p| - 2], p[|p| - 1]);
    }
  }

  // ---------------------------------------------------------------- a chain that short exists

  ghost function AppendToAll(p: seq<string>, c: char): (r: seq<string>)
    ensures |r| == |p| && forall k :: 0 <= k < |p| ==> r[k] == p[k] + [c]
  {
    seq(|p|, k requires 0 <= k < |p| => p[k] + [c])
  }

  lemma OneEditAppend(s: string, t: string, c: char)
    requires OneEdit(s, t)
    ensures OneEdit(s + [c], t + [c])
  {
    var i: nat :| EditAt(s, t, i);
    var s', t' := s + [c], t + [c];
    assert s'[..i] == s[..i] && t'[..i] == t[..i];
    if InsertedAt(s, t, i) {
      assert t'[i + 1..] == t[i + 1..] + [c] && s'[i..] == s[i..] + [c];
    } else if InsertedAt(t, s, i) {
      assert s'[i + 1..] == s[i + 1..] + [c] && t'[i..] == t[i..] + [c];
    } else {
      assert s'[i + 1..] == s[i + 1..] + [c] && t'[i + 1..] == t[i + 1..] + [c];
    }
    assert EditAt(s', t', i);
  }

  lemma ChainAppend(p: seq<string>, a: string, b: string, c: char)
    requires Chain(p, a, b)
    ensures Chain(AppendToAll(p, c), a + [c], b + [c])
  {
    var q := AppendToAll(p, c);
    forall k | 0 <= k < |q| - 1 ensures OneEdit(q[k], q[k + 1]) {
      OneEditAppend(p[k], p[k + 1], c);
    }
  }

  lemma ChainSnoc(p: seq<string>, a: string, b: string, c: string)
    requires Chain(p, a, b) && OneEdit(b, c)
    ensures Chain(p + [c], a, c)
  {
    var q := p + [c];
    forall k | 0 <= k < |q| - 1 ensures OneEdit(q[k], q[k + 1]) {
      if k == |p| - 1 { assert q[k] == b && q[k + 1] == c; } else { assert q[k + 1] == p[k + 1]; }
    }
  }

  lemma ChainCons(p: seq<string>, a: string, b: string, c: string)
    requires OneEdit(a, b) && Chain(p, b, c)
    ensures Chain([a] + p, a, c)
  {
    var q := [a] + p;
    forall k | 0 <= k < |q| - 1 ensures OneEdit(q[k], q[k + 1]) {
      if k > 0 { assert q[k] == p[k - 1] && q[k + 1] == p[k]; }
    }
  }

  lemma LastInserted(p: seq<string>, a: string, b: string, j: nat)
    requires 0 < j <= |b| && Chain(p, a, b[..j - 1])
    ensures Chain(p + [b[..j]], a, b[..j])
  {
    assert InsertedAt(b[..j - 1], b[..j], j - 1);
    assert EditAt(b[..j - 1], b[..j], j - 1);
    ChainSnoc(p, a, b[..j - 1], b[..j]);
  }

  lemma LastDeleted(p: seq<string>, a: string, i: nat, b: string)
    requires 0 < i <= |a| && Chain(p, a[..i - 1], b)
    ensures Chain([a[..i]] + p, a[..i], b)
  {
    assert InsertedAt(a[..i - 1], a[..i], i - 1);
    assert EditAt(a[..i], a[..i - 1], i - 1);
    ChainCons(p, a[..i], a[..i - 1], b);
  }

  lemma LastKept(p: seq<string>, a: string, i: nat, b: string, j: nat)
    requires 0 < i <= |a| && 0 < j <= |b| && Chain(p, a[..i - 1], b[..j - 1])
    ensures Chain(AppendToAll(p, a[i - 1]), a[..i], b[..j - 1] + [a[i - 1]])
    ensures a[i - 1] == b[j - 1] ==> b[..j - 1] + [a[i - 1]] == b[..j]
  {
    ChainAppend(p, a[..i - 1], b[..j - 1], a[i - 1]);
    assert a[..i] == a[..i - 1] + [a[i - 1]];
  }

  lemma LastSubstituted(p: seq<string>, a: string, b: string, j: nat, c: char)
    requires 0 < j <= |b| && Chain(p, a, b[..j - 1] + [c])
    ensures Chain(p + [b[..j]], a, b[..j])
  {
    var s, t := b[..j - 1] + [c], b[..j];
    assert SubstitutedAt(s, t, j - 1);
    assert EditAt(s, t, j - 1);
    ChainSnoc(p, a, s, t);
  }

  /** The cell's value is the length of an actual chain between the two prefixes. */
  lemma {:induction false} CellChain(a: string, b: string, i: nat, j: nat)
    returns (p: seq<string>)
    requires i <= |a| && j <= |b|
    ensures Chain(p, a[..i], b[..j]) && |p| == Cell(a, b, i, j) + 1
    decreases i + j
  {
    if i == 0 && j == 0 {
      p := [""];
    } else if i == 0 || (j > 0 && Cell(a, b, i, j) == 1 + Cell(a, b, i, j - 1)) {
      p := CellChain(a, b, i, j - 1);
      LastInserted(p, a[..i], b, j);
      p := p + [b[..j]];
    } else if j == 0 || Cell(a, b, i, j) == 1 + Cell(a, b, i - 1, j) {
      p := CellChain(a, b, i - 1, j);
      LastDeleted(p, a, i, b[..j]);
      p := [a[..i]] + p;
    } else {
      p := CellChain(a, b, i - 1, j - 1);
      LastKept(p, a, i, b, j);
      p := AppendToAll(p, a[i - 1]);
      if a[i - 1] != b[j - 1] {
        LastSubstituted(p, a[..i], b, j, a[i - 1]);
        p := p + [b[..j]];
      }
    }
  }

  /** The corner of the table is the least number of single-character edits. */
  lemma DistanceIsLeast(a: string, b: string)
    ensures LeastEdits(a, b, Distance(a, b))
  {
    var p := CellChain(a, b, |a|, |b|);
    assert a[..|a|] == a && b[..|b|] == b;
    forall q | Chain(q, a, b) ensures Distance(a, b) + 1 <= |q| {
      ChainAtLeastDistance(q, a, b);
    }
  }

  // ---------------------------------------------------------------- the loop

  /** The borders, every row above row i, and row i left of column j are done. */
  ghost predicate FilledTo(dp: array2<nat>, a: string, b: string, i: nat, j: nat)
    reads dp
  {
    && dp.Length0 == |a| + 1 && dp.Length1 == |b| + 1
    && forall x, y :: 0 <= x <= |a| && 0 <= y <= |b| && (x < i || y == 0 || (x == i && y < j)) ==>
      dp[x, y] == Cell(a, b, x, y)
  }

  /** Fills the whole table row by row and returns its corner. */
  method Levenshtein(a: string, b: string) returns (d: nat)
    ensures d == Distance(a, b)
    ensures LeastEdits(a, b, d)
  {
    var m, n := |a|, |b|;
    var dp := new nat[m + 1, n + 1]((i: nat, j: nat) => if i == 0 then j else if j == 0 then i else 0);
    for i := 1 to m + 1
      invariant FilledTo(dp, a, b, i, 0)
    {
      for j := 1 to n + 1
        invariant FilledTo(dp, a, b, i, j)
      {
        var cell :=
          if a[i - 1] == b[j - 1] then dp[i - 1, j - 1]
          else 1 + Min3(dp[i - 1, j], dp[i, j - 1], dp[i - 1, j - 1]);
        assert cell == Cell(a, b, i, j);
        dp[i, j] := cell;
      }
    }
    d := dp[m, n];
    DistanceIsLeast(a, b);
  }

  // ---------------------------------------------------------------- edit distance is a metric

  lemma DistanceZeroIffEqual(a: string, b: string)
    ensures Distance(a, b) == 0 <==> a == b
  {
    if a == b {
      CellSelf(a, |a|);
    } else {
      DistanceIsLeast(a, b);
      var p :| Chain(p, a, b) && |p| == Distance(a, b) + 1;
    }
  }

  ghost function Reversed(p: seq<string>): (r: seq<string>)
    ensures |r| == |p| && forall k :: 0 <= k < |p| ==> r[k] == p[|p| - 1 - k]
  {
    seq(|p|, k requires 0 <= k < |p| => p[|p| - 1 - k])
  }

  lemma OneEditSymmetric(s: string, t: string)
    requires OneEdit(s, t)
    ensures OneEdit(t, s)
  {
    var i: nat :| EditAt(s, t, i);
    assert EditAt(t, s, i);
  }

  lemma ChainReversed(p: seq<string>, a: string, b: string)
    requires Chain(p, a, b)
    ensures Chain(Reversed(p), b, a)
  {
    var r := Reversed(p);
    forall k | 0 <= k < |r| - 1 ensures OneEdit(r[k], r[k + 1]) {
      var l := |p| - 2 - k;
      assert OneEdit(p[l], p[l + 1]);
      OneEditSymmetric(p[l], p[l + 1]);
    }
  }

  lemma DistanceAtMostReverse(a: string, b: string)
    ensures Distance(a, b) <= Distance(b, a)
  {
    DistanceIsLeast(b, a);
    var p :| Chain(p, b, a) && |p| == Distance(b, a) + 1;
    ChainReversed(p, b, a);
    ChainAtLeastDistance(Reversed(p), a, b);
  }

  lemma DistanceSymmetric(a: string, b: string)
    ensures Distance(a, b) == Distance(b, a)
  {
    DistanceAtMostReverse(a, b);
    DistanceAtMostReverse(b, a);
  }

  lemma DistanceTriangle(a: string, b: string, c: string)
    ensures Distance(a, c) <= Distance(a, b) + Distance(b, c)
  {
    DistanceIsLeast(a, b);
    DistanceIsLeast(b, c);
    var p :| Chain(p, a, b) && |p| == Distance(a, b) + 1;
    var q :| Chain(q, b, c) && |q| == Distance(b, c) + 1;
    var r := p + q[1..];
    forall k | 0 <= k < |r| - 1 ensures OneEdit(r[k], r[k + 1]) {
      if k < |p| - 1 {
        assert r[k] == p[k] && r[k + 1] == p[k + 1];
      } else {
        var l := k - (|p| - 1);
        assert r[k] == q[l] && r[k + 1] == q[l + 1];
      }
    }
    assert Chain(r, a, c);
    ChainAtLeastDistance(r, a, c);
  }

  lemma {:induction false} CellAtLeastLengthDifference(a: string, b: string, i: nat, j: nat)
    requires i <= |a| && j <= |b|
    ensures i - j <= Cell(a, b, i, j) && j - i <= Cell(a, b, i, j)
    decreases i + j
  {
    if i > 0 && j > 0 {
      CellAtLeastLengthDifference(a, b, i - 1, j);
      CellAtLeastLengthDifference(a, b, i, j - 1);
      CellAtLeastLengthDifference(a, b, i - 1, j - 1);
    }
  }
}
