/** The web engine end to end: generated names, deduplicated, filtered, scored and ranked. */
module WebEngine {
  import opened Common
  import opened Ascii
  import opened Selection
  import opened NameFilters
  import opened NamingPipeline

  /** A generated name that can win: the first in any casing, passing the filters, at the threshold. */
  ghost predicate Eligible(all: seq<string>, input: Input, lexicon: Lexicon, score: string -> int, p: nat) {
    && p < |all| && !SeenBefore(all, p, ToLower(all[p]))
    && ApplyFilters(all[p], input, lexicon).Pass? && score(all[p]) >= 65
  }

  /** No other eligible name scores higher, and none generated earlier scores as high. */
  ghost predicate BestGenerated(all: seq<string>, input: Input, lexicon: Lexicon, score: string -> int, p: nat) {
    && Eligible(all, input, lexicon, score, p)
    && forall q: nat :: Eligible(all, input, lexicon, score, q) ==>
      score(all[q]) < score(all[p]) || (score(all[q]) == score(all[p]) && p <= q)
  }

  ghost predicate SomeEligible(all: seq<string>, input: Input, lexicon: Lexicon, score: string -> int) {
    exists p: nat :: Eligible(all, input, lexicon, score, p)
  }

  ghost predicate WinsOverall(all: seq<string>, input: Input, lexicon: Lexicon, score: string -> int, name: string) {
    exists p: nat :: BestGenerated(all, input, lexicon, score, p) && name == all[p]
  }

  /** The candidates are the names at f, the passing ones those of them at g. */
  ghost predicate Chosen(all: seq<string>, input: Input, lexicon: Lexicon, candidates: seq<string>, passed: seq<string>,
                         f: seq<nat>, g: seq<nat>)
  {
    && SelectsAt(all, FirstPositions(all), candidates, f)
    && SelectsAt(candidates, Passing(candidates, input, lexicon), passed, g)
  }

  lemma PassedIsEligible(all: seq<string>, input: Input, lexicon: Lexicon, score: string -> int,
                         candidates: seq<string>, passed: seq<string>, f: seq<nat>, g: seq<nat>, i: nat)
    requires Chosen(all, input, lexicon, candidates, passed, f, g) && i < |passed|
    ensures all[f[g[i]]] == passed[i]
    ensures score(passed[i]) >= SCORE_THRESHOLD ==> Eligible(all, input, lexicon, score, f[g[i]])
  {
    assert f[g[i]] in FirstPositions(all) && g[i] in Passing(candidates, input, lexicon);
  }

  lemma EligibleIsPassed(all: seq<string>, input: Input, lexicon: Lexicon, score: string -> int,
                         candidates: seq<string>, passed: seq<string>, f: seq<nat>, g: seq<nat>, q: nat)
    returns (k: nat)
    requires Chosen(all, input, lexicon, candidates, passed, f, g) && Eligible(all, input, lexicon, score, q)
    ensures k < |passed| && f[g[k]] == q && passed[k] == all[q]
  {
    assert q in FirstPositions(all);
    var c :| 0 <= c < |f| && f[c] == q;
    assert c in Passing(candidates, input, lexicon);
    k :| 0 <= k < |g| && g[k] == c;
  }

  /** The best of the passing names is the best of all generated names. */
  lemma BestOverall(all: seq<string>, input: Input, lexicon: Lexicon, score: string -> int, candidates: seq<string>,
                    passed: seq<string>, f: seq<nat>, g: seq<nat>, i: nat)
    requires Chosen(all, input, lexicon, candidates, passed, f, g) && Best(passed, score, i)
    ensures BestGenerated(all, input, lexicon, score, f[g[i]]) && all[f[g[i]]] == passed[i]
  {
    PassedIsEligible(all, input, lexicon, score, candidates, passed, f, g, i);
    forall q: nat | Eligible(all, input, lexicon, score, q)
      ensures score(all[q]) < score(passed[i]) || (score(all[q]) == score(passed[i]) && f[g[i]] <= q)
    {
      var k := EligibleIsPassed(all, input, lexicon, score, candidates, passed, f, g, q);
      assert i < k ==> g[i] < g[k];
    }
  }

  lemma ThresholdIffEligible(all: seq<string>, input: Input, lexicon: Lexicon, score: string -> int,
                             candidates: seq<string>, passed: seq<string>, f: seq<nat>, g: seq<nat>)
    requires Chosen(all, input, lexicon, candidates, passed, f, g)
    ensures ThresholdReached(passed, score) <==> SomeEligible(all, input, lexicon, score)
  {
    if ThresholdReached(passed, score) {
      var j: nat :| j < |passed| && score(passed[j]) >= SCORE_THRESHOLD;
      PassedIsEligible(all, input, lexicon, score, candidates, passed, f, g, j);
    }
    if SomeEligible(all, input, lexicon, score) {
      var q: nat :| Eligible(all, input, lexicon, score, q);
      var k := EligibleIsPassed(all, input, lexicon, score, candidates, passed, f, g, q);
    }
  }

  lemma ThresholdLifts(all: seq<string>, input: Input, lexicon: Lexicon, score: string -> int,
                       candidates: seq<string>, passed: seq<string>)
    requires Selects(all, FirstPositions(all), candidates)
    requires Selects(candidates, Passing(candidates, input, lexicon), passed)
    ensures ThresholdReached(passed, score) <==> SomeEligible(all, input, lexicon, score)
  {
    var f :| SelectsAt(all, FirstPositions(all), candidates, f);
    var g :| SelectsAt(candidates, Passing(candidates, input, lexicon), passed, g);
    ThresholdIffEligible(all, input, lexicon, score, candidates, passed, f, g);
  }

  /** What the ranking says of the passing names holds of all generated ones. */
  lemma WinnerLifts(all: seq<string>, input: Input, lexicon: Lexicon, score: string -> int,
                    candidates: seq<string>, passed: seq<string>, name: string)
    requires Selects(all, FirstPositions(all), candidates)
    requires Selects(candidates, Passing(candidates, input, lexicon), passed)
    requires Wins(passed, score, name)
    ensures WinsOverall(all, input, lexicon, score, name)
  {
    var f :| SelectsAt(all, FirstPositions(all), candidates, f);
    var g :| SelectsAt(candidates, Passing(candidates, input, lexicon), passed, g);
    WinnerLiftsAt(all, input, lexicon, score, candidates, passed, f, g, name);
  }

  lemma WinnerLiftsAt(all: seq<string>, input: Input, lexicon: Lexicon, score: string -> int,
                      candidates: seq<string>, passed: seq<string>, f: seq<nat>, g: seq<nat>, name: string)
    requires Chosen(all, input, lexicon, candidates, passed, f, g) && Wins(passed, score, name)
    ensures WinsOverall(all, input, lexicon, score, name)
  {
    var i: nat :| Best(passed, score, i) && name == passed[i];
    BestOverall(all, input, lexicon, score, candidates, passed, f, g, i);
  }

  /** There is a winner exactly when some generated name is eligible; it is the earliest of the
      highest-scoring eligible names, with the strategy the linear scan gives it. */
  method RunWebEngine(entries: seq<Entry>, input: Input, lexicon: Lexicon, score: string -> int) returns (r: Report)
    ensures r.winner.Some? <==> SomeEligible(Flatten(entries), input, lexicon, score)
    ensures r.winner.Some? ==> WinsOverall(Flatten(entries), input, lexicon, score, r.winner.value.name)
    ensures r.winner.Some? ==> r.winner.value.strategy == ResolveStrategy(r.winner.value.name, entries)
  {
    var candidates := DedupeByEntry(entries);
    var passed, rejected := FilterCandidates(candidates, input, lexicon);
    r := RankCandidates(passed, entries, score);
    ThresholdLifts(Flatten(entries), input, lexicon, score, candidates, passed);
    if r.winner.Some? { WinnerLifts(Flatten(entries), input, lexicon, score, candidates, passed, r.winner.value.name); }
  }
}
