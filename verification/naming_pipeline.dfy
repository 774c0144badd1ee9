/** From generated names to a winner: first-wins deduplication, the name index that replaces a
    linear scan, and the thresholded stable ranking. */
module NamingPipeline {
  import opened Common
  import opened Ascii
  import opened Selection

  datatype Strategy = Invented | Latin | Greek | Phonetic | Meaning | Technology | Minimal | OneWord

  /** One strategy with the names it generated; the list keeps the order of the entries. */
  datatype Entry = Entry(strategy: Strategy, names: seq<string>)

  // ---------------------------------------------------------------- deduplication

  ghost function Flatten(entries: seq<Entry>): seq<string> {
    if entries == [] then [] else Flatten(entries[..|entries| - 1]) + entries[|entries| - 1].names
  }

  ghost predicate SeenBefore(all: seq<string>, n: nat, key: string) {
    exists j :: 0 <= j < n && j < |all| && ToLower(all[j]) == key
  }

  /** The positions holding a name not seen earlier in any casing. */
  ghost function FirstPositions(all: seq<string>): set<nat> {
    set i: nat | i < |all| && !SeenBefore(all, i, ToLower(all[i]))
  }

  lemma FirstPositionsSnoc(all: seq<string>, name: string)
    ensures FirstPositions(all + [name]) ==
      FirstPositions(all) + if SeenBefore(all, |all|, ToLower(name)) then {} else {|all|}
  {
    var longer := all + [name];
    forall i: nat, key | i <= |all| ensures SeenBefore(longer, i, key) == SeenBefore(all, i, key) {
      if SeenBefore(all, i, key) {
        var j :| 0 <= j < i && j < |all| && ToLower(all[j]) == key;
        assert longer[j] == all[j];
      }
    }
  }

  /** The state of the dedup loop after the names in done. */
  ghost predicate DedupedSoFar(done: seq<string>, seen: set<string>, candidates: seq<string>) {
    && Selects(done, FirstPositions(done), candidates)
    && forall key :: key in seen <==> SeenBefore(done, |done|, key)
  }

  lemma SeenSnoc(done: seq<string>, name: string, key: string)
    ensures SeenBefore(done + [name], |done| + 1, key) <==> SeenBefore(done, |done|, key) || key == ToLower(name)
  {
    var longer := done + [name];
    if SeenBefore(done, |done|, key) {
      var j :| 0 <= j < |done| && j < |done| && ToLower(done[j]) == key;
      assert longer[j] == done[j];
    }
    assert longer[|done|] == name;
  }

  lemma DedupStep(done: seq<string>, seen: set<string>, candidates: seq<string>, name: string)
    requires DedupedSoFar(done, seen, candidates)
    ensures ToLower(name) in seen ==> DedupedSoFar(done + [name], seen, candidates)
    ensures ToLower(name) !in seen ==> DedupedSoFar(done + [name], seen + {ToLower(name)}, candidates + [name])
  {
    var f :| SelectsAt(done, FirstPositions(done), candidates, f);
    assert SelectsAt(done + [name], FirstPositions(done), candidates, f);
    FirstPositionsSnoc(done, name);
    forall key ensures SeenBefore(done + [name], |done| + 1, key) <==> key in seen || key == ToLower(name) {
      SeenSnoc(done, name, key);
    }
    if ToLower(name) in seen {
      assert FirstPositions(done + [name]) == FirstPositions(done);
    } else {
      SelectsSnoc(done + [name], FirstPositions(done), candidates, f, |done|);
    }
  }

  /** Over one flat list of names (the full engine). */
  method DedupeFlat(all: seq<string>) returns (candidates: seq<string>)
    ensures Selects(all, FirstPositions(all), candidates)
  {
    var seen: set<string> := {};
    candidates := [];
    assert SelectsAt(all[..0], FirstPositions(all[..0]), [], []);
    for n := 0 to |all|
      invariant DedupedSoFar(all[..n], seen, candidates)
    {
      var name := all[n];
      var key := ToLower(name);
      DedupStep(all[..n], seen, candidates, name);
      assert all[..n + 1] == all[..n] + [name];
      if key !in seen {
        seen := seen + {key};
        candidates := candidates + [name];
      }
    }
    assert all[..|all|] == all;
  }

  lemma FlattenSnoc(entries: seq<Entry>, m: nat)
    requires m < |entries|
    ensures Flatten(entries[..m + 1]) == Flatten(entries[..m]) + entries[m].names
  {
    assert entries[..m + 1][..m] == entries[..m];
  }

  /** Entry by entry (the web engine): the same candidates as over the flat list. */
  method DedupeByEntry(entries: seq<Entry>) returns (candidates: seq<string>)
    ensures Selects(Flatten(entries), FirstPositions(Flatten(entries)), candidates)
  {
    var seen: set<string> := {};
    candidates := [];
    assert SelectsAt(Flatten(entries[..0]), FirstPositions(Flatten(entries[..0])), [], []);
    for m := 0 to |entries|
      invariant DedupedSoFar(Flatten(entries[..m]), seen, candidates)
    {
      var names := entries[m].names;
      ghost var before := Flatten(entries[..m]);
      FlattenSnoc(entries, m);
      assert before + names[..0] == before;
      for n := 0 to |names|
        invariant DedupedSoFar(before + names[..n], seen, candidates)
      {
        var key := ToLower(names[n]);
        DedupStep(before + names[..n], seen, candidates, names[n]);
        assert before + names[..n] + [names[n]] == before + names[..n + 1];
        if key !in seen {
          seen := seen + {key};
          candidates := candidates + [names[n]];
        }
      }
      assert names[..|names|] == names;
    }
    assert entries[..|entries|] == entries;
  }

  /** The two loops return equal lists: the choice of positions leaves nothing open. */
  lemma DedupersAgree(entries: seq<Entry>, flat: seq<string>, byEntry: seq<string>)
    requires Selects(Flatten(entries), FirstPositions(Flatten(entries)), flat)
    requires Selects(Flatten(entries), FirstPositions(Flatten(entries)), byEntry)
    ensures flat == byEntry
  {
    var all := Flatten(entries);
    var f :| SelectsAt(all, FirstPositions(all), flat, f);
    var g :| SelectsAt(all, FirstPositions(all), byEntry, g);
    SelectsUnique(all, FirstPositions(all), flat, f, byEntry, g);
  }

  ghost predicate Represented(candidates: seq<string>, key: string) {
    exists k :: 0 <= k < |candidates| && ToLower(candidates[k]) == key
  }

  lemma OccurrenceRepresented(all: seq<string>, candidates: seq<string>, f: seq<nat>, i: nat)
    requires SelectsAt(all, FirstPositions(all), candidates, f) && i < |all|
    ensures Represented(candidates, ToLower(all[i]))
  {
    var first := EarliestOccurrence(all, i);
    assert first in FirstPositions(all);
    var k :| 0 <= k < |f| && f[k] == first;
    assert ToLower(candidates[k]) == ToLower(all[first]);
  }

  lemma CandidatesDiffer(all: seq<string>, candidates: seq<string>, f: seq<nat>, k: nat, l: nat)
    requires SelectsAt(all, FirstPositions(all), candidates, f) && k < l < |candidates|
    ensures ToLower(candidates[k]) != ToLower(candidates[l])
  {
    assert f[l] in FirstPositions(all) && f[k] < f[l];
  }

  /** What being the first occurrences means: every generated name is represented, by its
      earliest casing, and no two candidates differ only in case. */
  lemma {:induction false} FirstOccurrencesCover(all: seq<string>, candidates: seq<string>)
    requires Selects(all, FirstPositions(all), candidates)
    ensures forall i: nat :: i < |all| ==> Represented(candidates, ToLower(all[i]))
    ensures forall k, l :: 0 <= k < l < |candidates| ==> ToLower(candidates[k]) != ToLower(candidates[l])
  {
    var f :| SelectsAt(all, FirstPositions(all), candidates, f);
    forall i: nat | i < |all| ensures Represented(candidates, ToLower(all[i])) {
      OccurrenceRepresented(all, candidates, f, i);
    }
    forall k, l | 0 <= k < l < |candidates| ensures ToLower(candidates[k]) != ToLower(candidates[l]) {
      CandidatesDiffer(all, candidates, f, k, l);
    }
  }

  lemma {:induction false} EarliestOccurrence(all: seq<string>, i: nat) returns (first: nat)
    requires i < |all|
    ensures first <= i && ToLower(all[first]) == ToLower(all[i])
    ensures !SeenBefore(all, first, ToLower(all[first]))
    decreases i
  {
    if SeenBefore(all, i, ToLower(all[i])) {
      var j: nat :| 0 <= j < i && j < |all| && ToLower(all[j]) == ToLower(all[i]);
      first := EarliestOccurrence(all, j);
    } else {
      first := i;
    }
  }

  // ---------------------------------------------------------------- the strategy index

  ghost predicate Generates(names: seq<string>, key: string) {
    exists k :: 0 <= k < |names| && ToLower(names[k]) == key
  }

  predicate SomeName(names: seq<string>, key: string)
    ensures SomeName(names, key) <==> Generates(names, key)
  {
    names != [] && (ToLower(names[0]) == key
      || (assert forall k :: 0 < k < |names| ==> names[k] == names[1..][k - 1]; SomeName(names[1..], key)))
  }

  /** The linear scan: the first strategy that generated the name in any casing. */
  function ResolveStrategy(name: string, entries: seq<Entry>): Strategy {
    if entries == [] then Invented
    else if SomeName(entries[0].names, ToLower(name)) then entries[0].strategy
    else ResolveStrategy(name, entries[1..])
  }

  function Lookup(index: map<string, Strategy>, name: string): Strategy {
    if ToLower(name) in index then index[ToLower(name)] else Invented
  }

  /** Key is resolved by the first of the entries that generates it. */
  ghost predicate FirstGenerator(entries: seq<Entry>, m: int, key: string) {
    && 0 <= m < |entries| && Generates(entries[m].names, key)
    && forall l :: 0 <= l < m ==> !Generates(entries[l].names, key)
  }

  ghost predicate IndexOf(entries: seq<Entry>, index: map<string, Strategy>) {
    && (forall key :: key in index ==> exists m :: FirstGenerator(entries, m, key) && index[key] == entries[m].strategy)
    && (forall key, m :: FirstGenerator(entries, m, key) ==> key in index)
  }

  lemma {:induction false} ScanFindsFirst(entries: seq<Entry>, m: nat, name: string)
    requires FirstGenerator(entries, m, ToLower(name))
    ensures ResolveStrategy(name, entries) == entries[m].strategy
    decreases m
  {
    if m > 0 {
      assert !Generates(entries[0].names, ToLower(name));
      assert FirstGenerator(entries[1..], m - 1, ToLower(name));
      ScanFindsFirst(entries[1..], m - 1, name);
    }
  }

  lemma FirstShifts(entries: seq<Entry>, m: int, key: string)
    requires entries != [] && !Generates(entries[0].names, key)
    ensures FirstGenerator(entries[1..], m, key) ==> FirstGenerator(entries, m + 1, key)
  {
    if FirstGenerator(entries[1..], m, key) {
      assert forall l :: 0 < l <= m ==> entries[l] == entries[1..][l - 1];
    }
  }

  lemma {:induction false} ScanFindsNone(entries: seq<Entry>, name: string)
    requires forall m :: !FirstGenerator(entries, m, ToLower(name))
    ensures ResolveStrategy(name, entries) == Invented
  {
    if entries != [] {
      assert !FirstGenerator(entries, 0, ToLower(name));
      assert !Generates(entries[0].names, ToLower(name));
      forall m ensures !FirstGenerator(entries[1..], m, ToLower(name)) {
        FirstShifts(entries, m, ToLower(name));
      }
      ScanFindsNone(entries[1..], name);
    }
  }

  lemma IndexAgreesWithScan(entries: seq<Entry>, index: map<string, Strategy>, name: string)
    requires IndexOf(entries, index)
    ensures Lookup(index, name) == ResolveStrategy(name, entries)
  {
    var key := ToLower(name);
    if key in index {
      var m :| FirstGenerator(entries, m, key) && index[key] == entries[m].strategy;
      ScanFindsFirst(entries, m, name);
    } else {
      ScanFindsNone(entries, name);
    }
  }

  /** The index after some entries and the first n names of the next one. */
  ghost predicate IndexSoFar(entries: seq<Entry>, strategy: Strategy, names: seq<string>,
                             index: map<string, Strategy>) {
    IndexOf(entries + [Entry(strategy, names)], index)
  }

  lemma IndexStep(entries: seq<Entry>, strategy: Strategy, names: seq<string>, index: map<string, Strategy>,
                  name: string)
    requires IndexSoFar(entries, strategy, names, index)
    ensures IndexSoFar(entries, strategy, names + [name],
                       if ToLower(name) in index then index else index[ToLower(name) := strategy])
  {
    var was, now := entries + [Entry(strategy, names)], entries + [Entry(strategy, names + [name])];
    var index' := if ToLower(name) in index then index else index[ToLower(name) := strategy];
    var last := |entries|;
    forall key ensures Generates(names + [name], key) <==> Generates(names, key) || key == ToLower(name) {
      if Generates(names, key) {
        var k :| 0 <= k < |names| && ToLower(names[k]) == key;
        assert (names + [name])[k] == names[k];
      }
      assert (names + [name])[|names|] == name;
    }
    forall m, key | m != last ensures FirstGenerator(now, m, key) == FirstGenerator(was, m, key) {
      if 0 <= m < last { assert forall l :: 0 <= l <= m ==> now[l] == was[l]; }
    }
    forall key ensures FirstGenerator(now, last, key) <==>
      FirstGenerator(was, last, key) || (key == ToLower(name) && key !in index)
    {
      assert forall l :: 0 <= l < last ==> now[l] == was[l];
      if key == ToLower(name) && FirstGenerator(now, last, key) && !Generates(names, key) {
        assert forall m :: !FirstGenerator(was, m, key);
      }
      if key == ToLower(name) && key !in index {
        NoGenerator(was, key);
      }
    }
    forall key | key in index' ensures exists m :: FirstGenerator(now, m, key) && index'[key] == now[m].strategy {
      if key in index {
        var m :| FirstGenerator(was, m, key) && index[key] == was[m].strategy;
        assert FirstGenerator(now, m, key) && index'[key] == now[m].strategy;
      } else {
        assert FirstGenerator(now, last, key) && index'[key] == now[last].strategy;
      }
    }
  }

  /** If no entry is the first to generate a key, no entry generates it. */
  lemma NoGenerator(entries: seq<Entry>, key: string)
    requires forall m :: !FirstGenerator(entries, m, key)
    ensures forall l :: 0 <= l < |entries| ==> !Generates(entries[l].names, key)
  {
    var n := 0;
    while n < |entries|
      invariant 0 <= n <= |entries|
      invariant forall l :: 0 <= l < n ==> !Generates(entries[l].names, key)
    {
      assert !FirstGenerator(entries, n, key);
      n := n + 1;
    }
  }

  lemma IndexNextEntry(entries: seq<Entry>, index: map<string, Strategy>, strategy: Strategy)
    requires IndexOf(entries, index)
    ensures IndexSoFar(entries, strategy, [], index)
  {
    var now := entries + [Entry(strategy, [])];
    assert !exists key :: Generates([], key);
    forall m, key ensures FirstGenerator(now, m, key) == FirstGenerator(entries, m, key) {
      if 0 <= m < |entries| { assert forall l :: 0 <= l <= m ==> now[l] == entries[l]; }
    }
    forall key | key in index ensures exists m :: FirstGenerator(now, m, key) && index[key] == now[m].strategy {
      var m :| FirstGenerator(entries, m, key) && index[key] == entries[m].strategy;
      assert FirstGenerator(now, m, key) && index[key] == now[m].strategy;
    }
  }

  /** First write wins; the finished index answers every name as the scan would. */
  method BuildIndex(entries: seq<Entry>) returns (index: map<string, Strategy>)
    ensures forall name :: Lookup(index, name) == ResolveStrategy(name, entries)
  {
    index := map[];
    for m := 0 to |entries|
      invariant IndexOf(entries[..m], index)
    {
      var Entry(strategy, names) := entries[m];
      IndexNextEntry(entries[..m], index, strategy);
      for n := 0 to |names|
        invariant IndexSoFar(entries[..m], strategy, names[..n], index)
      {
        var key := ToLower(names[n]);
        IndexStep(entries[..m], strategy, names[..n], index, names[n]);
        assert names[..n] + [names[n]] == names[..n + 1];
        if key !in index { index := index[key := strategy]; }
      }
      assert names[..|names|] == names && entries[m] == Entry(strategy, names);
      assert entries[..m] + [Entry(strategy, names)] == entries[..m + 1];
    }
    assert entries[..|entries|] == entries;
    forall name ensures Lookup(index, name) == ResolveStrategy(name, entries) {
      IndexAgreesWithScan(entries, index, name);
    }
  }

  // ---------------------------------------------------------------- threshold, ranking, tiers

  datatype Candidate = Candidate(name: string, score: int, strategy: Strategy)

  const SCORE_THRESHOLD := 65

  /** The candidate at i outranks the one at j: a higher score, or an equal one met earlier. */
  predicate Outranks(items: seq<Candidate>, i: nat, j: nat)
    requires i < |items| && j < |items|
  {
    items[i].score > items[j].score || (items[i].score == items[j].score && i < j)
  }

  ghost predicate Placed(order: seq<nat>, i: nat) {
    exists k :: 0 <= k < |order| && order[k] == i
  }

  /** order lists every position once, best first. */
  ghost predicate RankedBy(items: seq<Candidate>, sorted: seq<Candidate>, order: seq<nat>) {
    && |order| == |sorted| == |items|
    && (forall k :: 0 <= k < |order| ==> order[k] < |items| && sorted[k] == items[order[k]])
    && (forall k, l :: 0 <= k < l < |order| ==> Outranks(items, order[k], order[l]))
    && (forall i: nat :: i < |items| ==> Placed(order, i))
  }

  /** What the language's stable descending sort promises. */
  ghost predicate Ranked(items: seq<Candidate>, sorted: seq<Candidate>) {
    exists order :: RankedBy(items, sorted, order)
  }

  lemma InsertInOrder(items: seq<Candidate>, sorted: seq<Candidate>, order: seq<nat>, c: Candidate, at: nat,
                      order': seq<nat>)
    requires RankedBy(items, sorted, order) && at <= |sorted|
    requires forall k :: 0 <= k < at ==> sorted[k].score >= c.score
    requires forall k :: at <= k < |sorted| ==> sorted[k].score < c.score
    requires order' == order[..at] + [|items|] + order[at..]
    ensures forall k :: 0 <= k < |order'| ==> order'[k] <= |items|
    ensures forall k, l :: 0 <= k < l < |order'| ==> Outranks(items + [c], order'[k], order'[l])
  {
    forall k, l | 0 <= k < l < |order'| ensures Outranks(items + [c], order'[k], order'[l]) {
      var k0, l0 := if k < at then k else k - 1, if l < at then l else l - 1;
      assert k != at ==> order'[k] == order[k0];
      assert l != at ==> order'[l] == order[l0];
      assert k != at && l != at ==> Outranks(items, order[k0], order[l0]);
    }
  }

  lemma InsertRanked(items: seq<Candidate>, sorted: seq<Candidate>, order: seq<nat>, c: Candidate, at: nat)
    requires RankedBy(items, sorted, order) && at <= |sorted|
    requires forall k :: 0 <= k < at ==> sorted[k].score >= c.score
    requires forall k :: at <= k < |sorted| ==> sorted[k].score < c.score
    ensures RankedBy(items + [c], sorted[..at] + [c] + sorted[at..], order[..at] + [|items|] + order[at..])
  {
    var order' := order[..at] + [|items|] + order[at..];
    InsertInOrder(items, sorted, order, c, at, order');
    forall i: nat | i <= |items| ensures Placed(order', i) {
      if i < |items| {
        assert Placed(order, i);
        var k :| 0 <= k < |order| && order[k] == i;
        assert order'[if k < at then k else k + 1] == i;
      } else {
        assert order'[at] == i;
      }
    }
  }

  /** Everything before an item that is not below the score is not below it either. */
  lemma FrontIsAbove(items: seq<Candidate>, sorted: seq<Candidate>, order: seq<nat>, score: int, at: nat)
    requires RankedBy(items, sorted, order) && at <= |sorted| && (at > 0 ==> sorted[at - 1].score >= score)
    ensures forall k :: 0 <= k < at ==> sorted[k].score >= score
  {
    forall k | 0 <= k < at - 1 ensures sorted[k].score >= score {
      assert Outranks(items, order[k], order[at - 1]);
    }
  }

  /** Sorts by descending score, keeping equal scores in their original order. */
  method SortByScore(items: seq<Candidate>) returns (sorted: seq<Candidate>)
    ensures Ranked(items, sorted)
  {
    sorted := [];
    ghost var order: seq<nat> := [];
    for n := 0 to |items|
      invariant RankedBy(items[..n], sorted, order)
    {
      var at := |sorted|;
      while at > 0 && sorted[at - 1].score < items[n].score
        invariant 0 <= at <= |sorted|
        invariant forall k :: at <= k < |sorted| ==> sorted[k].score < items[n].score
      {
        at := at - 1;
      }
      FrontIsAbove(items[..n], sorted, order, items[n].score, at);
      InsertRanked(items[..n], sorted, order, items[n], at);
      sorted, order := sorted[..at] + [items[n]] + sorted[at..], order[..at] + [n] + order[at..];
      assert items[..n + 1] == items[..n] + [items[n]];
    }
    assert items[..|items|] == items;
  }

  ghost predicate Best(names: seq<string>, score: string -> int, i: nat) {
    && i < |names| && score(names[i]) >= 65
    && forall j :: 0 <= j < |names| ==>
      score(names[j]) <= score(names[i]) && (j < i ==> score(names[j]) < score(names[i]))
  }

  ghost function AboveThreshold(names: seq<string>, score: string -> int): set<nat> {
    set i: nat | i < |names| && score(names[i]) >= 65
  }

  ghost function NamesOf(items: seq<Candidate>): (r: seq<string>)
    ensures |r| == |items| && forall k :: 0 <= k < |r| ==> r[k] == items[k].name
  {
    Each(items, (c: Candidate) => c.name)
  }

  datatype Report = Report(scored: seq<Candidate>, top25: seq<Candidate>, top10: seq<Candidate>,
    winner: Option<Candidate>)

  /** The scored candidates are the names at positions f, each with its own score. */
  ghost predicate ScoredAt(names: seq<string>, score: string -> int, items: seq<Candidate>, f: seq<nat>) {
    && SelectsAt(names, AboveThreshold(names, score), NamesOf(items), f)
    && forall k :: 0 <= k < |items| ==> items[k].score == score(names[f[k]])
  }

  ghost predicate Scored(names: seq<string>, score: string -> int, items: seq<Candidate>) {
    exists f :: ScoredAt(names, score, items, f)
  }

  ghost predicate ThresholdReached(names: seq<string>, score: string -> int) {
    exists j: nat :: j < |names| && score(names[j]) >= SCORE_THRESHOLD
  }

  ghost predicate Wins(names: seq<string>, score: string -> int, name: string) {
    exists i: nat :: Best(names, score, i) && name == names[i]
  }

  /** The first ranked candidate is at least as good as every name at the threshold, and
      strictly better than the earlier ones. */
  lemma FirstBeats(names: seq<string>, score: string -> int, items: seq<Candidate>, sorted: seq<Candidate>,
                   f: seq<nat>, order: seq<nat>, j: nat)
    requires ScoredAt(names, score, items, f) && RankedBy(items, sorted, order)
    requires j < |names| && score(names[j]) >= SCORE_THRESHOLD
    ensures items != [] && score(names[j]) <= items[order[0]].score
    ensures j < f[order[0]] ==> score(names[j]) < items[order[0]].score
  {
    assert j in AboveThreshold(names, score);
    var k: nat :| k < |f| && f[k] == j;
    assert Placed(order, k);
    var l :| 0 <= l < |order| && order[l] == k;
    assert l > 0 ==> Outranks(items, order[0], order[l]);
  }

  lemma HeadIsBest(names: seq<string>, score: string -> int, items: seq<Candidate>, sorted: seq<Candidate>,
                   f: seq<nat>, order: seq<nat>)
    requires ScoredAt(names, score, items, f) && RankedBy(items, sorted, order) && sorted != []
    ensures Best(names, score, f[order[0]]) && sorted[0].name == names[f[order[0]]]
  {
    var i := f[order[0]];
    assert i in AboveThreshold(names, score) && NamesOf(items)[order[0]] == names[i];
    forall j | 0 <= j < |names|
      ensures score(names[j]) <= score(names[i]) && (j < i ==> score(names[j]) < score(names[i]))
    {
      if score(names[j]) >= SCORE_THRESHOLD { FirstBeats(names, score, items, sorted, f, order, j); }
    }
  }

  /** The head of the ranking is the earliest name of highest score among those at the
      threshold, and the ranking is empty exactly when no name reaches it. */
  lemma {:induction false} WinnerIsEarliestBest(names: seq<string>, score: string -> int, items: seq<Candidate>,
                                                sorted: seq<Candidate>)
    requires Scored(names, score, items) && Ranked(items, sorted)
    ensures sorted != [] <==> ThresholdReached(names, score)
    ensures sorted != [] ==> Wins(names, score, sorted[0].name)
  {
    var f :| ScoredAt(names, score, items, f);
    var order :| RankedBy(items, sorted, order);
    if sorted != [] {
      HeadIsBest(names, score, items, sorted, f, order);
    } else {
      forall j: nat | j < |names| ensures score(names[j]) < SCORE_THRESHOLD {
        if score(names[j]) >= SCORE_THRESHOLD { FirstBeats(names, score, items, sorted, f, order, j); }
      }
    }
  }

  /** Scores the filtered names and keeps those at the threshold. */
  method ScoreNames(names: seq<string>, entries: seq<Entry>, score: string -> int) returns (scored: seq<Candidate>)
    ensures Scored(names, score, scored)
    ensures forall c :: c in scored ==> c.strategy == ResolveStrategy(c.name, entries)
  {
    var index := BuildIndex(entries);
    scored := [];
    ghost var f: seq<nat>, out: seq<string> := [], [];
    for n := 0 to |names|
      invariant forall i :: i in AboveThreshold(names[..n], score) ==> i < n
      invariant SelectsAt(names, AboveThreshold(names[..n], score), out, f) && |out| == |scored|
      invariant forall k :: 0 <= k < |scored| ==>
        out[k] == scored[k].name && scored[k].score == score(out[k])
          && scored[k].strategy == ResolveStrategy(out[k], entries)
    {
      var name := names[n];
      SelectsSnoc(names, AboveThreshold(names[..n], score), out, f, n);
      assert AboveThreshold(names[..n + 1], score) ==
        if score(name) >= SCORE_THRESHOLD then AboveThreshold(names[..n], score) + {n}
        else AboveThreshold(names[..n], score);
      if score(name) >= SCORE_THRESHOLD {
        scored := scored + [Candidate(name, score(name), Lookup(index, name))];
        f, out := f + [n], out + [name];
      }
    }
    assert names[..|names|] == names;
    assert NamesOf(scored) == out;
    assert ScoredAt(names, score, scored, f);
  }

  lemma HeadIsScored(items: seq<Candidate>, sorted: seq<Candidate>)
    requires Ranked(items, sorted)
    ensures sorted != [] ==> sorted[0] in items
  {
    var order :| RankedBy(items, sorted, order);
  }

  function Top(sorted: seq<Candidate>, n: nat): seq<Candidate> {
    if |sorted| < n then sorted else sorted[..n]
  }

  /** The first n of the ranking, or all of it if there are fewer. */
  ghost predicate Tier(sorted: seq<Candidate>, n: nat, tier: seq<Candidate>) {
    tier <= sorted && |tier| == if n <= |sorted| then n else |sorted|
  }

  /** Ranks the scored names and cuts the tiers. The winner is the earliest name of highest
      score, and exists exactly when some name reaches the threshold. */
  method RankCandidates(names: seq<string>, entries: seq<Entry>, score: string -> int) returns (r: Report)
    ensures Scored(names, score, r.scored)
    ensures forall c :: c in r.scored ==> c.strategy == ResolveStrategy(c.name, entries)
    ensures exists sorted :: Ranked(r.scored, sorted) && Tier(sorted, 25, r.top25) && Tier(sorted, 10, r.top10)
    ensures r.winner.Some? <==> ThresholdReached(names, score)
    ensures r.winner.Some? ==> Wins(names, score, r.winner.value.name)
    ensures r.winner.Some? ==> r.winner.value.strategy == ResolveStrategy(r.winner.value.name, entries)
  {
    var scored := ScoreNames(names, entries, score);
    ghost var sorted;
    r, sorted := CutTiers(scored);
    HeadIsScored(scored, sorted);
    WinnerIsEarliestBest(names, score, scored, sorted);
  }

  method CutTiers(scored: seq<Candidate>) returns (r: Report, ghost sorted: seq<Candidate>)
    ensures Ranked(scored, sorted)
    ensures r.scored == scored && Tier(sorted, 25, r.top25) && Tier(sorted, 10, r.top10)
    ensures r.winner == if sorted == [] then None else Some(sorted[0])
  {
    var ranking := SortByScore(scored);
    var top10 := Top(ranking, 10);
    r := Report(scored, Top(ranking, 25), top10, if top10 == [] then None else Some(top10[0]));
    sorted := ranking;
  }

  /** Ranking is a function of the list: no two stable descending sorts differ, so every tier
      is determined. */
  lemma {:induction false} RankingUnique(items: seq<Candidate>, s: seq<Candidate>, o: seq<nat>, s': seq<Candidate>,
                                         o': seq<nat>, n: nat)
    requires RankedBy(items, s, o) && RankedBy(items, s', o') && n <= |items|
    ensures o[..n] == o'[..n] && s[..n] == s'[..n]
    decreases n
  {
    if n > 0 {
      RankingUnique(items, s, o, s', o', n - 1);
      assert forall k :: 0 <= k < n - 1 ==> o[k] == o[..n - 1][k] && o'[k] == o'[..n - 1][k];
      var i, i' := o[n - 1], o'[n - 1];
      assert Placed(o', i) && Placed(o, i');
      var k' :| 0 <= k' < |o'| && o'[k'] == i;
      var k :| 0 <= k < |o| && o[k] == i';
      assert k' >= n - 1 && k >= n - 1;
      assert i == i';
      assert o[..n] == o[..n - 1] + [i] && o'[..n] == o'[..n - 1] + [i];
      assert s[..n] == s[..n - 1] + [items[i]] && s'[..n] == s'[..n - 1] + [items[i]];
    }
  }
}
