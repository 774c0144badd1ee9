/** The trademark-safety score: a scan over a set of known names with a length pre-check and an
    early exit, both of which are right only because edit distance is a metric. */
module TrademarkSafety {
  import opened Ascii
  import opened EditDistance

  /** Within one edit means the same string or a single-character edit of it. */
  lemma WithinOneEdit(a: string, b: string)
    ensures Distance(a, b) <= 1 <==> a == b || OneEdit(a, b)
  {
    DistanceIsLeast(a, b);
    if Distance(a, b) <= 1 {
      var p :| Chain(p, a, b) && |p| == Distance(a, b) + 1;
    } else if a == b {
      DistanceZeroIffEqual(a, b);
    }
    assert OneEdit(a, b) ==> Chain([a, b], a, b);
  }

  /** The length pre-check never hides a name the distance test would catch. */
  lemma PreCheckIsLossless(known: string, lower: string)
    requires Distance(known, lower) <= 1
    ensures -1 <= |known| - |lower| <= 1
  {
    CellAtLeastLengthDifference(known, lower, |known|, |lower|);
  }

  /** 0 for a known name, 52 for a single edit of one, 82 otherwise. */
  ghost function SafetyScore(lower: string, known: set<string>): int {
    if lower in known then 0
    else if exists k :: k in known && OneEdit(k, lower) then 52
    else 82
  }

  /** Every order of visiting the set gives the same score. */
  method ScoreTrademarkSafety(name: string, known: set<string>) returns (score: int)
    ensures score == SafetyScore(ToLower(name), known)
  {
    var lower := ToLower(name);
    var raw := 82;
    if lower in known { raw := 20; }
    var unvisited := known;
    var hit := false;
    while unvisited != {} && !hit
      invariant unvisited <= known
      invariant !hit ==> raw == if lower in known then 20 else 82
      invariant !hit ==> forall k :: k in known && k !in unvisited ==> Distance(k, lower) > 1
      invariant hit ==> raw == if lower in known then -10 else 52
      invariant hit ==> exists k :: k in known && Distance(k, lower) <= 1
      decreases unvisited, !hit
    {
      var k :| k in unvisited;
      unvisited := unvisited - {k};
      if Distance(k, lower) <= 1 { PreCheckIsLossless(k, lower); }
      if -1 <= |k| - |lower| <= 1 {
        var d := Levenshtein(k, lower);
        if d <= 1 {
          raw := raw - 30;
          hit := true;
        }
      }
    }
    score := Clamp(raw);
    forall k: string ensures Distance(k, lower) <= 1 <==> k == lower || OneEdit(k, lower) {
      WithinOneEdit(k, lower);
    }
    assert lower in known ==> Distance(lower, lower) <= 1;
  }
}
