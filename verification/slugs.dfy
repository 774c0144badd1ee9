/** Site slugs: the normal form slugify produces, and the search for a free numbered variant. */
module Slugs {
  import opened Ascii

  predicate IsWordChar(c: char) {
    'a' <= c <= 'z' || '0' <= c <= '9'
  }

  // ---------------------------------------------------------------- the replacement chain

  /** Every maximal run of non-word characters becomes one hyphen. */
  function HyphenateRuns(s: string, inRun: bool): string {
    if s == "" then ""
    else if IsWordChar(s[0]) then [s[0]] + HyphenateRuns(s[1..], false)
    else (if inRun then "" else "-") + HyphenateRuns(s[1..], true)
  }

  /** Two or more hyphens in a row become one. */
  function CollapseHyphens(s: string, afterHyphen: bool): string {
    if s == "" then ""
    else if s[0] == '-' then (if afterHyphen then "" else "-") + CollapseHyphens(s[1..], true)
    else [s[0]] + CollapseHyphens(s[1..], false)
  }

  const HYPHEN: char -> bool := c => c == '-'

  function Slugify(value: string): string {
    var trimmed := Trim(ToLower(value));
    var stripped := StripRight(StripLeft(HyphenateRuns(trimmed, false), HYPHEN), HYPHEN);
    CollapseHyphens(stripped, false)
  }

  // ---------------------------------------------------------------- the normal form

  /** The maximal word-character runs of a string, in order. */
  ghost function Words(s: string): (ws: seq<string>)
    ensures s != "" && IsWordChar(s[0]) ==> ws != []
  {
    if s == "" then []
    else if !IsWordChar(s[0]) then Words(s[1..])
    else if |s| > 1 && IsWordChar(s[1]) then
      var rest := Words(s[1..]);
      [[s[0]] + rest[0]] + rest[1..]
    else [[s[0]]] + Words(s[1..])
  }

  ghost function Joined(ws: seq<string>): string {
    if ws == [] then "" else if |ws| == 1 then ws[0] else ws[0] + "-" + Joined(ws[1..])
  }

  ghost predicate Leading(s: string) { s != "" && !IsWordChar(s[0]) }

  ghost predicate Trailing(s: string) { s != "" && !IsWordChar(s[|s| - 1]) }

  ghost predicate AllWords(ws: seq<string>) {
    forall w :: w in ws ==> w != "" && forall i :: 0 <= i < |w| ==> IsWordChar(w[i])
  }

  lemma {:induction false} WordsAreWords(s: string)
    ensures AllWords(Words(s))
    decreases |s|
  {
    if s != "" { WordsAreWords(s[1..]); }
  }

  /** A string whose last character is a word character has a word. */
  lemma {:induction false} WordlessTrails(s: string)
    requires s != "" && Words(s) == []
    ensures Trailing(s)
    decreases |s|
  {
    if |s| > 1 && !IsWordChar(s[0]) { WordlessTrails(s[1..]); }
  }

  /** The hyphen between a word and what follows it. */
  ghost function Gap(rest: string): string {
    if Leading(rest) && Words(rest) != [] then "-" else ""
  }

  ghost function Tail(s: string): string {
    if Trailing(s) && Words(s) != [] then "-" else ""
  }

  lemma JoinedFirst(first: string, rest: seq<string>)
    ensures Joined([first] + rest) == first + (if rest == [] then "" else "-" + Joined(rest))
  {
    assert ([first] + rest)[1..] == rest;
    assert first + "-" + Joined(rest) == first + ("-" + Joined(rest));
  }

  /** Prepending a word character extends the first word or starts a new one. */
  lemma WordsCons(s: string)
    requires s != "" && IsWordChar(s[0])
    ensures Joined(Words(s)) == [s[0]] + (Gap(s[1..]) + Joined(Words(s[1..]))) && Words(s) != []
  {
    var c, t := [s[0]], s[1..];
    var ws := Words(t);
    if t != "" && IsWordChar(t[0]) {
      ExtendFirst(c, ws);
      assert Words(s) == [c + ws[0]] + ws[1..];
      assert Gap(t) + Joined(ws) == Joined(ws);
    } else {
      JoinedFirst(c, ws);
      assert Words(s) == [c] + ws;
      assert Gap(t) + Joined(ws) == if ws == [] then "" else "-" + Joined(ws);
    }
  }

  lemma ConcatAssociates(a: string, b: string, c: string)
    ensures (a + b) + c == a + (b + c)
  {
  }

  lemma ExtendFirst(c: string, ws: seq<string>)
    requires ws != []
    ensures Joined([c + ws[0]] + ws[1..]) == c + Joined(ws)
  {
    ExtendHead(c, ws[0], ws[1..]);
    assert [ws[0]] + ws[1..] == ws;
  }

  lemma ExtendHead(c: string, first: string, rest: seq<string>)
    ensures Joined([c + first] + rest) == c + Joined([first] + rest)
  {
    JoinedFirst(c + first, rest);
    JoinedFirst(first, rest);
    ConcatAssociates(c, first, if rest == [] then "" else "-" + Joined(rest));
  }

  ghost predicate Shaped(s: string) {
    && HyphenateRuns(s, true) == Joined(Words(s)) + Tail(s)
    && HyphenateRuns(s, false) == (if Leading(s) then "-" else "") + (Joined(Words(s)) + Tail(s))
  }

  lemma HyphenatedWord(s: string)
    requires s != "" && IsWordChar(s[0]) && Words(s) != []
    requires HyphenateRuns(s[1..], false) ==
      (if Leading(s[1..]) then "-" else "") + (Joined(Words(s[1..])) + Tail(s[1..]))
    ensures HyphenateRuns(s[1..], false) == Gap(s[1..]) + Joined(Words(s[1..])) + Tail(s)
  {
    var t := s[1..];
    if t != "" {
      assert t[|t| - 1] == s[|s| - 1];
      if Words(t) == [] { WordlessTrails(t); }
    }
  }

  lemma HyphenateFirst(s: string)
    requires s != "" && IsWordChar(s[0])
    ensures HyphenateRuns(s, true) == [s[0]] + HyphenateRuns(s[1..], false)
    ensures HyphenateRuns(s, false) == [s[0]] + HyphenateRuns(s[1..], false)
  {
  }

  lemma ShapedWord(s: string)
    requires s != "" && IsWordChar(s[0]) && Shaped(s[1..])
    ensures Shaped(s)
  {
    var t := s[1..];
    WordsCons(s);
    HyphenatedWord(s);
    HyphenateFirst(s);
    ConcatAssociates([s[0]], Gap(t) + Joined(Words(t)), Tail(s));
  }

  lemma ShapedGap(s: string)
    requires s != "" && !IsWordChar(s[0]) && Shaped(s[1..])
    ensures Shaped(s)
  {
    var t := s[1..];
    assert t != "" ==> t[|t| - 1] == s[|s| - 1];
    assert Words(s) == Words(t) && Tail(s) == Tail(t);
  }

  /** Hyphenating keeps the words, with a hyphen at an end that had other characters. */
  lemma {:induction false} HyphenatedShape(s: string)
    ensures HyphenateRuns(s, true) == Joined(Words(s)) + Tail(s)
    ensures HyphenateRuns(s, false) == (if Leading(s) then "-" else "") + (Joined(Words(s)) + Tail(s))
    decreases |s|
  {
    if s != "" {
      HyphenatedShape(s[1..]);
      if IsWordChar(s[0]) { ShapedWord(s); } else { ShapedGap(s); }
    }
  }

  lemma {:induction false} JoinedEnds(ws: seq<string>)
    requires AllWords(ws) && ws != []
    ensures Joined(ws) != "" && IsWordChar(Joined(ws)[0]) && IsWordChar(Joined(ws)[|Joined(ws)| - 1])
    decreases |ws|
  {
    assert ws[0] in ws;
    if |ws| > 1 {
      assert forall w :: w in ws[1..] ==> w in ws;
      JoinedEnds(ws[1..]);
    }
  }

  lemma {:induction false} CollapseWord(w: string, rest: string)
    requires forall i :: 0 <= i < |w| ==> IsWordChar(w[i])
    ensures w != "" ==> CollapseHyphens(w + rest, true) == w + CollapseHyphens(rest, false)
    ensures CollapseHyphens(w + rest, false) == w + CollapseHyphens(rest, false)
    decreases |w|
  {
    if w == "" {
      assert w + rest == rest;
    } else {
      assert (w + rest)[1..] == w[1..] + rest;
      CollapseWord(w[1..], rest);
      CollapseFirst(w + rest);
      ConcatAssociates([w[0]], w[1..], CollapseHyphens(rest, false));
      assert w == [w[0]] + w[1..];
    }
  }

  lemma CollapseFirst(s: string)
    requires s != "" && s[0] != '-'
    ensures CollapseHyphens(s, true) == [s[0]] + CollapseHyphens(s[1..], false)
    ensures CollapseHyphens(s, false) == [s[0]] + CollapseHyphens(s[1..], false)
  {
  }

  /** A joined list of words has no double hyphen to collapse. */
  lemma {:induction false} CollapseJoined(ws: seq<string>)
    requires AllWords(ws)
    ensures CollapseHyphens(Joined(ws), false) == Joined(ws)
    ensures ws != [] ==> CollapseHyphens(Joined(ws), true) == Joined(ws)
    decreases |ws|
  {
    if ws != [] {
      assert ws[0] in ws;
      var rest := if ws[1..] == [] then "" else "-" + Joined(ws[1..]);
      JoinedFirst(ws[0], ws[1..]);
      assert [ws[0]] + ws[1..] == ws;
      CollapseWord(ws[0], rest);
      if |ws| > 1 {
        assert forall w :: w in ws[1..] ==> w in ws;
        CollapseJoined(ws[1..]);
        assert rest[1..] == Joined(ws[1..]);
      }
    }
  }

  lemma {:induction false} WordsStripLeft(s: string)
    ensures Words(StripLeft(s, SPACE)) == Words(s)
    decreases |s|
  {
    if s != "" && IsSpace(s[0]) { WordsStripLeft(s[1..]); }
  }

  lemma {:induction false} WordsDropLast(s: string)
    requires Trailing(s)
    ensures Words(s) == Words(s[..|s| - 1])
    decreases |s|
  {
    if |s| > 1 {
      assert s[1..][..|s| - 2] == s[..|s| - 1][1..];
      WordsDropLast(s[1..]);
    }
  }

  lemma {:induction false} WordsStripRight(s: string)
    ensures Words(StripRight(s, SPACE)) == Words(s)
    decreases |s|
  {
    if s != "" && IsSpace(s[|s| - 1]) {
      WordsDropLast(s);
      WordsStripRight(s[..|s| - 1]);
    }
  }

  lemma StripHead(t: string, head: string)
    requires t != "" && IsWordChar(t[0]) && (head == "" || head == "-")
    ensures StripLeft(head + t, HYPHEN) == t
  {
    if head == "-" { assert (head + t)[1..] == t; } else { assert head + t == t; }
  }

  lemma StripTail(j: string, tail: string)
    requires j != "" && IsWordChar(j[|j| - 1]) && (tail == "" || tail == "-")
    ensures StripRight(j + tail, HYPHEN) == j
  {
    if tail == "-" { assert (j + tail)[..|j|] == j; } else { assert j + tail == j; }
  }

  /** Stripping hyphens off both ends of the hyphenated text leaves the joined words. */
  lemma StrippedIsJoined(s: string)
    ensures StripRight(StripLeft(HyphenateRuns(s, false), HYPHEN), HYPHEN) == Joined(Words(s))
  {
    HyphenatedShape(s);
    if Words(s) != [] {
      WordsAreWords(s);
      JoinedEnds(Words(s));
      StripHead(Joined(Words(s)) + Tail(s), if Leading(s) then "-" else "");
      StripTail(Joined(Words(s)), Tail(s));
    } else if s != "" {
      WordlessLeads(s);
      assert HyphenateRuns(s, false) == "-";
    }
  }

  lemma WordlessLeads(s: string)
    requires s != "" && Words(s) == []
    ensures Leading(s)
  {
  }

  /** The whole chain is: take the words, join them with single hyphens. The final collapse and
      the trim decide nothing. */
  lemma SlugifyIsJoinedWords(value: string)
    ensures Slugify(value) == Joined(Words(ToLower(value)))
  {
    var lower := ToLower(value);
    var left := StripLeft(lower, SPACE);
    WordsStripLeft(lower);
    WordsStripRight(left);
    StrippedIsJoined(StripRight(left, SPACE));
    WordsAreWords(lower);
    CollapseJoined(Words(lower));
  }

  /** Empty, or hyphen-separated words. */
  ghost predicate IsSlug(s: string) {
    exists ws :: AllWords(ws) && s == Joined(ws)
  }

  lemma {:induction false} WordsOfJoined(ws: seq<string>)
    requires AllWords(ws)
    ensures Words(Joined(ws)) == ws
    decreases |ws|
  {
    if ws != [] {
      assert ws[0] in ws;
      assert forall w :: w in ws[1..] ==> w in ws;
      WordsOfJoined(ws[1..]);
      JoinedFirst(ws[0], ws[1..]);
      assert [ws[0]] + ws[1..] == ws;
      if |ws| == 1 {
        WordsOfPrefix(ws[0], "");
        assert ws[0] + "" == ws[0];
      } else {
        var rest := "-" + Joined(ws[1..]);
        assert rest[1..] == Joined(ws[1..]);
        WordsOfPrefix(ws[0], rest);
      }
    }
  }

  lemma {:induction false} JoinedIsLower(ws: seq<string>)
    requires AllWords(ws)
    ensures ToLower(Joined(ws)) == Joined(ws)
    decreases |ws|
  {
    if ws != [] {
      assert ws[0] in ws;
      assert forall w :: w in ws[1..] ==> w in ws;
      JoinedIsLower(ws[1..]);
      LowerFixed(Joined(ws[1..]));
      assert forall i :: 0 <= i < |Joined(ws)| ==> LowerChar(Joined(ws)[i]) == Joined(ws)[i];
    }
  }

  lemma LowerFixed(s: string)
    requires ToLower(s) == s
    ensures forall i :: 0 <= i < |s| ==> LowerChar(s[i]) == s[i]
  {
    assert forall i :: 0 <= i < |s| ==> ToLower(s)[i] == LowerChar(s[i]);
  }

  lemma {:induction false} WordsOfPrefix(w: string, rest: string)
    requires w != "" && (forall i :: 0 <= i < |w| ==> IsWordChar(w[i])) && (rest == "" || Leading(rest))
    ensures Words(w + rest) == [w] + Words(rest)
    decreases |w|
  {
    var s := w + rest;
    assert s[1..] == w[1..] + rest;
    if |w| > 1 {
      WordsOfPrefix(w[1..], rest);
      assert [w[0]] + w[1..] == w;
      assert ([w[1..]] + Words(rest))[1..] == Words(rest);
    } else {
      assert w == [w[0]];
      assert s[1..] == rest;
    }
  }

  /** Slugify always lands in the normal form and leaves a normal form alone. */
  lemma SlugifyNormalises(value: string)
    ensures IsSlug(Slugify(value))
    ensures Slugify(Slugify(value)) == Slugify(value)
  {
    SlugifyIsJoinedWords(value);
    WordsAreWords(ToLower(value));
    SlugFixed(Slugify(value));
  }

  lemma SlugFixed(s: string)
    requires IsSlug(s)
    ensures Slugify(s) == s
  {
    var ws :| AllWords(ws) && s == Joined(ws);
    WordsOfJoined(ws);
    JoinedIsLower(ws);
    SlugifyIsJoinedWords(s);
  }

  /** The letters a to z and the digits of a string, in order. */
  ghost function Lettered(s: string): string {
    if s == "" then ""
    else (if 'a' <= s[0] <= 'z' || '0' <= s[0] <= '9' then [s[0]] else "") + Lettered(s[1..])
  }

  lemma LetteredCons(c: char, s: string)
    ensures Lettered([c] + s) == (if 'a' <= c <= 'z' || '0' <= c <= '9' then [c] else "") + Lettered(s)
  {
    assert ([c] + s)[1..] == s;
  }

  /** Slugifying keeps exactly the letters and digits of the lower-cased text. */
  lemma {:induction false} JoinedKeepsLetters(s: string)
    ensures Lettered(Joined(Words(s))) == Lettered(s)
    decreases |s|
  {
    if s != "" {
      var t := s[1..];
      JoinedKeepsLetters(t);
      if IsWordChar(s[0]) {
        WordsCons(s);
        LetteredCons(s[0], Gap(t) + Joined(Words(t)));
        GapKeepsLetters(t);
      }
    }
  }

  lemma GapKeepsLetters(t: string)
    ensures Lettered(Gap(t) + Joined(Words(t))) == Lettered(Joined(Words(t)))
  {
    LetteredCons('-', Joined(Words(t)));
    if Gap(t) == "" { assert Gap(t) + Joined(Words(t)) == Joined(Words(t)); }
  }

  lemma LettersKept(value: string)
    ensures Lettered(Slugify(value)) == Lettered(ToLower(value))
  {
    SlugifyIsJoinedWords(value);
    JoinedKeepsLetters(ToLower(value));
  }

  /** A letter or digit, or a hyphen between two of them. */
  ghost predicate SlugCharacterAt(s: string, i: nat)
    requires i < |s|
  {
    || IsWordChar(s[i])
    || (s[i] == '-' && 0 < i < |s| - 1 && IsWordChar(s[i - 1]) && IsWordChar(s[i + 1]))
  }

  lemma {:induction false} JoinedHyphens(ws: seq<string>, i: nat)
    requires AllWords(ws) && i < |Joined(ws)|
    ensures SlugCharacterAt(Joined(ws), i)
    decreases |ws|
  {
    assert ws[0] in ws;
    var n := |ws[0]|;
    if |ws| > 1 && n <= i {
      var s, rest := Joined(ws), Joined(ws[1..]);
      assert forall w :: w in ws[1..] ==> w in ws;
      assert s == (ws[0] + "-") + rest;
      JoinedEnds(ws[1..]);
      if i > n {
        var k := i - n - 1;
        JoinedHyphens(ws[1..], k);
        assert s[i] == rest[k];
        assert k > 0 ==> s[i - 1] == rest[k - 1];
        assert k + 1 < |rest| ==> s[i + 1] == rest[k + 1];
      }
    }
  }

  /** A slug holds only letters, digits and single hyphens, none of them at an end. */
  lemma SlugCharacters(value: string, i: nat)
    requires i < |Slugify(value)|
    ensures var slug := Slugify(value);
      || 'a' <= slug[i] <= 'z' || '0' <= slug[i] <= '9'
      || (slug[i] == '-' && 0 < i < |slug| - 1 && slug[i - 1] != '-' && slug[i + 1] != '-')
  {
    SlugifyIsJoinedWords(value);
    WordsAreWords(ToLower(value));
    JoinedHyphens(Words(ToLower(value)), i);
  }

  // ---------------------------------------------------------------- the free-slug search

  function Digit(d: nat): char
    requires d < 10
  {
    '0' + d as char
  }

  function Decimal(n: nat): string {
    if n < 10 then [Digit(n)] else Decimal(n / 10) + [Digit(n % 10)]
  }

  ghost function DecimalValue(s: string): int {
    if s == "" then 0 else 10 * DecimalValue(s[..|s| - 1]) + (s[|s| - 1] as int - '0' as int)
  }

  lemma {:induction false} DecimalRoundTrip(n: nat)
    ensures DecimalValue(Decimal(n)) == n
  {
    var s := Decimal(n);
    if n >= 10 {
      DecimalRoundTrip(n / 10);
      assert s[..|s| - 1] == Decimal(n / 10);
    } else {
      assert s[..|s| - 1] == "";
    }
  }

  /** base, base-2, base-3, ... */
  function Numbered(base: string, n: nat): string {
    if n <= 1 then base else base + "-" + Decimal(n)
  }

  lemma NumberedInjective(base: string, m: nat, n: nat)
    requires 1 <= m && 1 <= n && Numbered(base, m) == Numbered(base, n)
    ensures m == n
  {
    var p, q := Numbered(base, m), Numbered(base, n);
    if m > 1 && n > 1 {
      assert p[|base| + 1..] == Decimal(m) && q[|base| + 1..] == Decimal(n);
      DecimalRoundTrip(m);
      DecimalRoundTrip(n);
    }
  }

  /** Probes the numbered variants in turn: the name's words joined by hyphens, or "sitio" without
      words, then that text with -2, -3 and so on. The result is free, every smaller variant is
      taken, and there are at most as many failed probes as existing slugs. */
  method UniqueSlug(name: string, existing: set<string>) returns (slug: string, ghost probes: nat)
    ensures slug !in existing
    ensures var words := Words(ToLower(name));
      var base := if words == [] then "sitio" else Joined(words);
      && 1 <= probes <= |existing| + 1
      && slug == (if probes == 1 then base else base + "-" + Decimal(probes))
      && (probes > 1 ==> base in existing)
      && (forall j :: 2 <= j < probes ==> base + "-" + Decimal(j) in existing)
    ensures IsSlug(slug) && Slugify(slug) == slug
  {
    var base := BaseSlug(name);
    var candidate := base;
    var counter := 2;
    ghost var clashes: set<string> := {};
    while candidate in existing
      invariant counter >= 2 && candidate == Numbered(base, counter - 1)
      invariant clashes <= existing && |clashes| == counter - 2
      invariant forall j :: 1 <= j < counter - 1 ==> Numbered(base, j) in clashes
      invariant forall c :: c in clashes ==> exists j :: 1 <= j < counter - 1 && c == Numbered(base, j)
      decreases |existing| - |clashes|
    {
      if candidate in clashes {
        var j :| 1 <= j < counter - 1 && candidate == Numbered(base, j);
        NumberedInjective(base, j, counter - 1);
      }
      SubsetSmaller(clashes + {candidate}, existing);
      clashes := clashes + {candidate};
      candidate := base + "-" + Decimal(counter);
      counter := counter + 1;
    }
    SubsetSmaller(clashes, existing);
    slug := candidate;
    probes := counter - 1;
    FreeMeans(existing, name, probes);
  }

  lemma SubsetSmaller(a: set<string>, b: set<string>)
    requires a <= b
    ensures |a| <= |b|
  {
    assert b == a + (b - a);
  }

  function BaseSlug(name: string): string {
    if Slugify(name) == "" then "sitio" else Slugify(name)
  }

  lemma BaseIs(name: string)
    ensures var words := Words(ToLower(name)); BaseSlug(name) == if words == [] then "sitio" else Joined(words)
    ensures BaseSlug(name) != "" && IsSlug(BaseSlug(name))
  {
    var words := Words(ToLower(name));
    SlugifyIsJoinedWords(name);
    WordsAreWords(ToLower(name));
    if words == [] {
      assert AllWords(["sitio"]) && Joined(["sitio"]) == "sitio";
    } else {
      JoinedEnds(words);
    }
  }

  lemma FreeMeans(existing: set<string>, name: string, k: nat)
    requires SmallestFree(existing, BaseSlug(name), k)
    ensures var words := Words(ToLower(name));
      var base := if words == [] then "sitio" else Joined(words);
      && Numbered(BaseSlug(name), k) == (if k == 1 then base else base + "-" + Decimal(k))
      && (k > 1 ==> base in existing)
      && (forall j :: 2 <= j < k ==> base + "-" + Decimal(j) in existing)
    ensures var slug := Numbered(BaseSlug(name), k); IsSlug(slug) && Slugify(slug) == slug
  {
    var base := BaseSlug(name);
    BaseIs(name);
    NumberedIsSlug(base, k);
    SlugFixed(Numbered(base, k));
    assert k > 1 ==> Numbered(base, 1) in existing;
    forall j | 2 <= j < k ensures base + "-" + Decimal(j) in existing {
      assert Numbered(base, j) in existing;
    }
  }

  lemma {:induction false} JoinedSnoc(ws: seq<string>, w: string)
    requires ws != []
    ensures Joined(ws + [w]) == Joined(ws) + "-" + w
    decreases |ws|
  {
    assert (ws + [w])[1..] == ws[1..] + [w];
    if |ws| > 1 {
      JoinedSnoc(ws[1..], w);
      ConcatAssociates(ws[0] + "-", Joined(ws[1..]) + "-", w);
      ConcatAssociates(ws[0] + "-", Joined(ws[1..]), "-");
    } else {
      assert Joined(ws[1..] + [w]) == w;
    }
  }

  lemma {:induction false} DecimalIsWord(n: nat)
    ensures Decimal(n) != "" && forall c :: c in Decimal(n) ==> '0' <= c <= '9'
  {
    if n >= 10 { DecimalIsWord(n / 10); }
  }

  /** A numbered variant of a slug is a slug. */
  lemma NumberedIsSlug(base: string, k: nat)
    requires IsSlug(base) && base != ""
    ensures IsSlug(Numbered(base, k))
  {
    if k > 1 {
      var ws :| AllWords(ws) && base == Joined(ws);
      DecimalIsWord(k);
      JoinedSnoc(ws, Decimal(k));
      assert forall i :: 0 <= i < |Decimal(k)| ==> Decimal(k)[i] in Decimal(k);
      assert AllWords(ws + [Decimal(k)]);
    }
  }

  ghost predicate SmallestFree(existing: set<string>, base: string, k: nat) {
    1 <= k && Numbered(base, k) !in existing && forall j :: 1 <= j < k ==> Numbered(base, j) in existing
  }
}
