/** Which candidate names survive the filters, and what the survivors look like to the scorer. */
module NameFilters {
  import opened Ascii
  import opened Phonetics
  import opened Selection

  datatype Input = Input(min: int, max: int, forbiddenWords: seq<string>, forbiddenSuffixes: seq<string>)

  /** The engine's word lists: their contents are data, every result holds for all of them. */
  datatype Lexicon = Lexicon(negativeFragments: seq<string>, englishWords: set<string>,
                             spanishWords: set<string>, companies: set<string>)

  datatype Reason =
    | TooShort | TooLong | ForbiddenWord(word: string) | ForbiddenSuffix(suffix: string)
    | Pattern(index: nat) | Negative(fragment: string) | EnglishWord | SpanishWord
    | ExistingCompany | ConsonantRun | VowelRun | NoVowels

  datatype FilterResult = Pass | Fail(reason: Reason)

  // ---------------------------------------------------------------- the individual filters

  function FilterLength(name: string, input: Input): FilterResult {
    if |name| < input.min then Fail(TooShort) else if |name| > input.max then Fail(TooLong) else Pass
  }

  function FilterForbiddenWords(lower: string, words: seq<string>): (r: FilterResult)
    ensures r.Pass? <==> forall w :: w in words ==> !Contains(lower, ToLower(w))
  {
    if words == [] then Pass
    else if Contains(lower, ToLower(words[0])) then Fail(ForbiddenWord(words[0]))
    else FilterForbiddenWords(lower, words[1..])
  }

  function FilterForbiddenSuffixes(lower: string, suffixes: seq<string>): (r: FilterResult)
    ensures r.Pass? <==> forall x :: x in suffixes ==> !EndsWith(lower, ToLower(x))
  {
    if suffixes == [] then Pass
    else if EndsWith(lower, ToLower(suffixes[0])) then Fail(ForbiddenSuffix(suffixes[0]))
    else FilterForbiddenSuffixes(lower, suffixes[1..])
  }

  predicate TripledAt(name: string, i: nat) {
    && i + 2 < |name| && name[i] != '\n' && name[i] != '\r'
    && LowerChar(name[i]) == LowerChar(name[i + 1]) == LowerChar(name[i + 2])
  }

  /** One character three times in a row, ignoring case. */
  predicate HasTriple(name: string) {
    exists i: nat | i < |name| :: TripledAt(name, i)
  }

  lemma HasTripleIff(name: string)
    ensures HasTriple(name) <==>
      exists p: string, a: char, b: char, c: char, q: string ::
        name == p + [a, b, c] + q && a != '\n' && a != '\r' && LowerChar(a) == LowerChar(b) == LowerChar(c)
  {
    if HasTriple(name) {
      var i: nat :| i < |name| && TripledAt(name, i);
      assert name == name[..i] + [name[i], name[i + 1], name[i + 2]] + name[i + 3..];
    }
    forall p: string, a: char, b: char, c: char, q: string
      | name == p + [a, b, c] + q && a != '\n' && a != '\r' && LowerChar(a) == LowerChar(b) == LowerChar(c)
      ensures HasTriple(name)
    {
      assert name[|p|] == a && name[|p| + 1] == b && name[|p| + 2] == c;
      assert TripledAt(name, |p|);
    }
  }

  /** The seven phonetic patterns, in the order they are tried. */
  function FilterPhonetics(name: string): FilterResult {
    var lower := ToLower(name);
    if HasTriple(name) then Fail(Pattern(0))
    else if HasRun(name, true, 4) then Fail(Pattern(1))
    else if HasRun(name, false, 5) then Fail(Pattern(2))
    else if name != "" && IsVowel(name[0]) then Fail(Pattern(3))
    else if Contains(lower, "gh") then Fail(Pattern(4))
    else if Contains(lower, "wr") then Fail(Pattern(5))
    else if Contains(lower, "kn") then Fail(Pattern(6))
    else Pass
  }

  function FilterNegativeMeanings(lower: string, fragments: seq<string>): (r: FilterResult)
    ensures r.Pass? <==> forall f :: f in fragments ==> !Contains(lower, f)
  {
    if fragments == [] then Pass
    else if Contains(lower, fragments[0]) then Fail(Negative(fragments[0]))
    else FilterNegativeMeanings(lower, fragments[1..])
  }

  function FilterDictionaryWords(lower: string, lexicon: Lexicon): FilterResult {
    if lower in lexicon.englishWords then Fail(EnglishWord)
    else if lower in lexicon.spanishWords then Fail(SpanishWord)
    else Pass
  }

  function FilterKnownCompanies(lower: string, lexicon: Lexicon): FilterResult {
    if lower in lexicon.companies then Fail(ExistingCompany) else Pass
  }

  function FilterConsecutiveConsonants(name: string): FilterResult {
    if HasRun(name, false, 4) then Fail(ConsonantRun) else Pass
  }

  function FilterExcessiveVowels(name: string): FilterResult {
    if HasRun(name, true, 3) then Fail(VowelRun) else Pass
  }

  function FilterAllConsonants(name: string): FilterResult {
    if !HasRun(name, true, 1) then Fail(NoVowels) else Pass
  }

  function FirstFailure(checks: seq<FilterResult>): (r: FilterResult)
    ensures r.Pass? <==> forall k :: 0 <= k < |checks| ==> checks[k].Pass?
    ensures r.Fail? ==> exists k :: 0 <= k < |checks| && checks[k] == r && forall j :: 0 <= j < k ==> checks[j].Pass?
  {
    if checks == [] then Pass
    else if checks[0].Fail? then checks[0]
    else
      var rest := FirstFailure(checks[1..]);
      assert forall k :: 0 < k < |checks| ==> checks[k] == checks[1..][k - 1];
      rest
  }

  /** All ten checks, in the order they are made. */
  function Checks(name: string, input: Input, lexicon: Lexicon): seq<FilterResult> {
    var lower := ToLower(name);
    [ FilterLength(name, input),
      FilterForbiddenWords(lower, input.forbiddenWords),
      FilterForbiddenSuffixes(lower, input.forbiddenSuffixes),
      FilterPhonetics(name),
      FilterNegativeMeanings(lower, lexicon.negativeFragments),
      FilterDictionaryWords(lower, lexicon),
      FilterKnownCompanies(lower, lexicon),
      FilterConsecutiveConsonants(name),
      FilterExcessiveVowels(name),
      FilterAllConsonants(name) ]
  }

  function ApplyFilters(name: string, input: Input, lexicon: Lexicon): FilterResult {
    FirstFailure(Checks(name, input, lexicon))
  }

  // ---------------------------------------------------------------- what survival means

  /** The conditions a surviving name meets, with the subsumed patterns left out. */
  ghost predicate Survives(name: string, input: Input, lexicon: Lexicon) {
    var lower := ToLower(name);
    && input.min <= |name| <= input.max
    && (forall w :: w in input.forbiddenWords ==> !Contains(lower, ToLower(w)))
    && (forall x :: x in input.forbiddenSuffixes ==> !EndsWith(lower, ToLower(x)))
    && !HasTriple(name)
    && name != "" && !IsVowel(name[0])
    && !Contains(lower, "gh") && !Contains(lower, "wr") && !Contains(lower, "kn")
    && (forall f :: f in lexicon.negativeFragments ==> !Contains(lower, f))
    && lower !in lexicon.englishWords + lexicon.spanishWords + lexicon.companies
    && BoundedRuns(name) && HasRun(name, true, 1)
  }

  lemma PhoneticsGivenRuns(name: string)
    requires BoundedRuns(name) && HasRun(name, true, 1)
    ensures name != ""
    ensures var lower := ToLower(name);
      FilterPhonetics(name).Pass? <==>
        !HasTriple(name) && !IsVowel(name[0]) && !Contains(lower, "gh") && !Contains(lower, "wr")
          && !Contains(lower, "kn")
  {
    if HasRun(name, true, 4) { ShorterRun(name, true, 4, 3); }
    if HasRun(name, false, 5) { ShorterRun(name, false, 5, 4); }
  }

  lemma AllChecks(name: string, input: Input, lexicon: Lexicon)
    ensures var checks := Checks(name, input, lexicon);
      ApplyFilters(name, input, lexicon).Pass? <==>
        (&& checks[0].Pass? && checks[1].Pass? && checks[2].Pass? && checks[3].Pass? && checks[4].Pass?
         && checks[5].Pass? && checks[6].Pass? && checks[7].Pass? && checks[8].Pass? && checks[9].Pass?)
  {
  }

  /** A name passes exactly when it meets those conditions: the four-vowel and five-consonant
      patterns decide nothing the run filters do not. */
  lemma PassIffSurvives(name: string, input: Input, lexicon: Lexicon)
    ensures ApplyFilters(name, input, lexicon).Pass? <==> Survives(name, input, lexicon)
  {
    AllChecks(name, input, lexicon);
    if BoundedRuns(name) && HasRun(name, true, 1) { PhoneticsGivenRuns(name); }
  }

  // ---------------------------------------------------------------- what a rejection means

  /** The first word of the list with the property. */
  ghost predicate FirstSuch(words: seq<string>, bad: string -> bool, w: string) {
    exists k :: 0 <= k < |words| && words[k] == w && bad(w) && forall j :: 0 <= j < k ==> !bad(words[j])
  }

  ghost function Containing(lower: string, folded: bool): string -> bool {
    w => Contains(lower, if folded then ToLower(w) else w)
  }

  ghost function Ending(lower: string): string -> bool { w => EndsWith(lower, ToLower(w)) }

  /** What the name did to earn the reason, earlier reasons aside. */
  ghost predicate Offends(name: string, input: Input, lexicon: Lexicon, reason: Reason) {
    var lower := ToLower(name);
    match reason
    case TooShort => |name| < input.min
    case TooLong => |name| > input.max
    case ForbiddenWord(w) => FirstSuch(input.forbiddenWords, Containing(lower, true), w)
    case ForbiddenSuffix(x) => FirstSuch(input.forbiddenSuffixes, Ending(lower), x)
    case Pattern(index) =>
      || (index == 0 && HasTriple(name))
      || (index == 1 && HasRun(name, true, 4))
      || (index == 2 && HasRun(name, false, 5))
      || (index == 3 && name != "" && name[0] in "AEIOUaeiou")
      || (index == 4 && Contains(lower, "gh"))
      || (index == 5 && Contains(lower, "wr"))
      || (index == 6 && Contains(lower, "kn"))
    case Negative(f) => FirstSuch(lexicon.negativeFragments, Containing(lower, false), f)
    case EnglishWord => lower in lexicon.englishWords
    case SpanishWord => lower in lexicon.spanishWords
    case ExistingCompany => lower in lexicon.companies
    case ConsonantRun => HasRun(name, false, 4)
    case VowelRun => HasRun(name, true, 3)
    case NoVowels => forall i :: 0 <= i < |name| ==> name[i] !in "AEIOUaeiou"
  }

  /** The place of a reason in the order the checks are made. */
  ghost function Place(reason: Reason): nat {
    match reason
    case TooShort => 0
    case TooLong => 1
    case ForbiddenWord(_) => 2
    case ForbiddenSuffix(_) => 3
    case Pattern(index) => if index < 7 then 4 + index else 18
    case Negative(_) => 11
    case EnglishWord => 12
    case SpanishWord => 13
    case ExistingCompany => 14
    case ConsonantRun => 15
    case VowelRun => 16
    case NoVowels => 17
  }

  ghost function Offence(name: string, input: Input, lexicon: Lexicon): Reason -> bool {
    reason => Offends(name, input, lexicon, reason)
  }

  /** A check that looks for the offences with places from lo up to hi and reports the first. */
  ghost predicate Judges(check: FilterResult, offence: Reason -> bool, lo: nat, hi: nat) {
    match check
    case Pass => forall r: Reason :: lo <= Place(r) < hi ==> !offence(r)
    case Fail(r) =>
      && lo <= Place(r) < hi && offence(r)
      && forall other: Reason :: lo <= Place(other) < Place(r) ==> !offence(other)
  }

  lemma {:induction false} JudgesAll(checks: seq<FilterResult>, offence: Reason -> bool, bounds: seq<nat>)
    requires |bounds| == |checks| + 1
    requires forall k :: 0 <= k < |checks| ==>
      bounds[k] <= bounds[k + 1] && Judges(checks[k], offence, bounds[k], bounds[k + 1])
    ensures bounds[0] <= bounds[|checks|] && Judges(FirstFailure(checks), offence, bounds[0], bounds[|checks|])
    decreases |checks|
  {
    if checks != [] {
      assert Judges(checks[0], offence, bounds[0], bounds[1]);
      JudgesAll(checks[1..], offence, bounds[1..]);
    }
  }

  lemma {:induction false} WordsJudged(lower: string, words: seq<string>)
    ensures var r := FilterForbiddenWords(lower, words);
      if r.Pass? then forall w :: !FirstSuch(words, Containing(lower, true), w)
      else r.reason.ForbiddenWord? && FirstSuch(words, Containing(lower, true), r.reason.word)
    decreases |words|
  {
    if words != [] {
      WordsJudged(lower, words[1..]);
      FirstSuchCons(words, Containing(lower, true));
    }
  }

  lemma {:induction false} SuffixesJudged(lower: string, suffixes: seq<string>)
    ensures var r := FilterForbiddenSuffixes(lower, suffixes);
      if r.Pass? then forall w :: !FirstSuch(suffixes, Ending(lower), w)
      else r.reason.ForbiddenSuffix? && FirstSuch(suffixes, Ending(lower), r.reason.suffix)
    decreases |suffixes|
  {
    if suffixes != [] {
      SuffixesJudged(lower, suffixes[1..]);
      FirstSuchCons(suffixes, Ending(lower));
    }
  }

  lemma {:induction false} FragmentsJudged(lower: string, fragments: seq<string>)
    ensures var r := FilterNegativeMeanings(lower, fragments);
      if r.Pass? then forall w :: !FirstSuch(fragments, Containing(lower, false), w)
      else r.reason.Negative? && FirstSuch(fragments, Containing(lower, false), r.reason.fragment)
    decreases |fragments|
  {
    if fragments != [] {
      FragmentsJudged(lower, fragments[1..]);
      FirstSuchCons(fragments, Containing(lower, false));
    }
  }

  lemma FirstSuchCons(words: seq<string>, bad: string -> bool)
    requires words != []
    ensures bad(words[0]) ==> FirstSuch(words, bad, words[0])
    ensures !bad(words[0]) ==> forall w :: FirstSuch(words[1..], bad, w) <==> FirstSuch(words, bad, w)
  {
    if !bad(words[0]) {
      forall w ensures FirstSuch(words[1..], bad, w) <==> FirstSuch(words, bad, w) {
        FirstSuchRest(words, bad, w);
      }
    }
  }

  lemma FirstSuchRest(words: seq<string>, bad: string -> bool, w: string)
    requires words != [] && !bad(words[0])
    ensures FirstSuch(words[1..], bad, w) <==> FirstSuch(words, bad, w)
  {
    var rest := words[1..];
    assert forall j :: 0 < j < |words| ==> words[j] == rest[j - 1];
    if k :| 0 <= k < |rest| && rest[k] == w && bad(w) && forall j :: 0 <= j < k ==> !bad(rest[j]) {
      assert words[k + 1] == w;
    }
    if k :| 0 <= k < |words| && words[k] == w && bad(w) && forall j :: 0 <= j < k ==> !bad(words[j]) {
      assert rest[k - 1] == w;
      assert forall j :: 0 <= j < k - 1 ==> rest[j] == words[j + 1];
    }
  }

  lemma VowelIff(c: char)
    ensures IsVowel(c) <==> c in "AEIOUaeiou"
  {
    CaseIs(c);
    var all := "AEIOUaeiou";
    assert all[0] == 'A' && all[1] == 'E' && all[2] == 'I' && all[3] == 'O' && all[4] == 'U';
    assert all[5] == 'a' && all[6] == 'e' && all[7] == 'i' && all[8] == 'o' && all[9] == 'u';
  }

  lemma PatternsJudged(name: string, input: Input, lexicon: Lexicon)
    ensures Judges(FilterPhonetics(name), Offence(name, input, lexicon), 4, 11)
  {
    if name != "" { VowelIff(name[0]); }
  }

  lemma PhoneticsJudged(name: string, input: Input, lexicon: Lexicon)
    ensures Judges(Checks(name, input, lexicon)[3], Offence(name, input, lexicon), 4, 11)
  {
    PatternsJudged(name, input, lexicon);
  }

  lemma NoVowelsJudged(name: string, input: Input, lexicon: Lexicon)
    ensures Judges(Checks(name, input, lexicon)[9], Offence(name, input, lexicon), 17, 18)
  {
    VowelRunIff(name);
  }

  lemma VowelRunIff(name: string)
    ensures HasRun(name, true, 1) <==> exists i :: 0 <= i < |name| && name[i] in "AEIOUaeiou"
  {
    forall i | 0 <= i < |name| ensures IsVowel(name[i]) <==> name[i] in "AEIOUaeiou" { VowelIff(name[i]); }
    forall i: nat | i < |name| ensures Uniform(name, i, 1, true) <==> IsVowel(name[i]) {
      if IsVowel(name[i]) { assert Uniform(name, i, 1, true); }
    }
  }

  lemma LengthJudged(name: string, input: Input, lexicon: Lexicon)
    ensures Judges(Checks(name, input, lexicon)[0], Offence(name, input, lexicon), 0, 2)
  {
  }

  ghost predicate ForbidsWords(offence: Reason -> bool, words: seq<string>, bad: string -> bool) {
    forall w :: offence(ForbiddenWord(w)) == FirstSuch(words, bad, w)
  }

  ghost predicate ForbidsSuffixes(offence: Reason -> bool, suffixes: seq<string>, bad: string -> bool) {
    forall x :: offence(ForbiddenSuffix(x)) == FirstSuch(suffixes, bad, x)
  }

  lemma WordsOffend(name: string, input: Input, lexicon: Lexicon)
    ensures ForbidsWords(Offence(name, input, lexicon), input.forbiddenWords, Containing(ToLower(name), true))
  {
  }

  lemma SuffixesOffend(name: string, input: Input, lexicon: Lexicon)
    ensures ForbidsSuffixes(Offence(name, input, lexicon), input.forbiddenSuffixes, Ending(ToLower(name)))
  {
  }

  lemma WordsInRange(check: FilterResult, offence: Reason -> bool, words: seq<string>, bad: string -> bool)
    requires ForbidsWords(offence, words, bad)
    requires
      if check.Pass? then forall w :: !FirstSuch(words, bad, w)
      else check.reason.ForbiddenWord? && FirstSuch(words, bad, check.reason.word)
    ensures Judges(check, offence, 2, 3)
  {
  }

  lemma SuffixesInRange(check: FilterResult, offence: Reason -> bool, suffixes: seq<string>, bad: string -> bool)
    requires ForbidsSuffixes(offence, suffixes, bad)
    requires
      if check.Pass? then forall x :: !FirstSuch(suffixes, bad, x)
      else check.reason.ForbiddenSuffix? && FirstSuch(suffixes, bad, check.reason.suffix)
    ensures Judges(check, offence, 3, 4)
  {
  }

  lemma WordsRange(lower: string, words: seq<string>, offence: Reason -> bool)
    requires ForbidsWords(offence, words, Containing(lower, true))
    ensures Judges(FilterForbiddenWords(lower, words), offence, 2, 3)
  {
    WordsJudged(lower, words);
    WordsInRange(FilterForbiddenWords(lower, words), offence, words, Containing(lower, true));
  }

  lemma SuffixesRange(lower: string, suffixes: seq<string>, offence: Reason -> bool)
    requires ForbidsSuffixes(offence, suffixes, Ending(lower))
    ensures Judges(FilterForbiddenSuffixes(lower, suffixes), offence, 3, 4)
  {
    SuffixesJudged(lower, suffixes);
    SuffixesInRange(FilterForbiddenSuffixes(lower, suffixes), offence, suffixes, Ending(lower));
  }

  lemma ForbiddenChecks(name: string, input: Input, lexicon: Lexicon)
    ensures Checks(name, input, lexicon)[1] == FilterForbiddenWords(ToLower(name), input.forbiddenWords)
    ensures Checks(name, input, lexicon)[2] == FilterForbiddenSuffixes(ToLower(name), input.forbiddenSuffixes)
  {
  }

  lemma ForbiddenWordsJudged(name: string, input: Input, lexicon: Lexicon)
    ensures Judges(Checks(name, input, lexicon)[1], Offence(name, input, lexicon), 2, 3)
  {
    WordsOffend(name, input, lexicon);
    ForbiddenChecks(name, input, lexicon);
    WordsRange(ToLower(name), input.forbiddenWords, Offence(name, input, lexicon));
  }

  lemma ForbiddenSuffixesJudged(name: string, input: Input, lexicon: Lexicon)
    ensures Judges(Checks(name, input, lexicon)[2], Offence(name, input, lexicon), 3, 4)
  {
    SuffixesOffend(name, input, lexicon);
    ForbiddenChecks(name, input, lexicon);
    SuffixesRange(ToLower(name), input.forbiddenSuffixes, Offence(name, input, lexicon));
  }

  lemma NegativeJudged(name: string, input: Input, lexicon: Lexicon)
    ensures Judges(Checks(name, input, lexicon)[4], Offence(name, input, lexicon), 11, 12)
  {
    FragmentsJudged(ToLower(name), lexicon.negativeFragments);
  }

  lemma DictionaryJudged(name: string, input: Input, lexicon: Lexicon)
    ensures Judges(Checks(name, input, lexicon)[5], Offence(name, input, lexicon), 12, 14)
  {
  }

  lemma CompaniesJudged(name: string, input: Input, lexicon: Lexicon)
    ensures Judges(Checks(name, input, lexicon)[6], Offence(name, input, lexicon), 14, 15)
  {
  }

  lemma ConsonantRunsJudged(name: string, input: Input, lexicon: Lexicon)
    ensures Judges(Checks(name, input, lexicon)[7], Offence(name, input, lexicon), 15, 16)
  {
  }

  lemma VowelRunsJudged(name: string, input: Input, lexicon: Lexicon)
    ensures Judges(Checks(name, input, lexicon)[8], Offence(name, input, lexicon), 16, 17)
  {
  }

  /** Ten checks in a row, each looking where the one before it stops. */
  lemma TenJudged(c: seq<FilterResult>, offence: Reason -> bool)
    requires |c| == 10 && Judges(c[0], offence, 0, 2) && Judges(c[1], offence, 2, 3) && Judges(c[2], offence, 3, 4)
    requires Judges(c[3], offence, 4, 11) && Judges(c[4], offence, 11, 12) && Judges(c[5], offence, 12, 14)
    requires Judges(c[6], offence, 14, 15) && Judges(c[7], offence, 15, 16) && Judges(c[8], offence, 16, 17)
    requires Judges(c[9], offence, 17, 18)
    ensures Judges(FirstFailure(c), offence, 0, 18)
  {
    JudgesAll(c, offence, [0, 2, 3, 4, 11, 12, 14, 15, 16, 17, 18]);
  }

  /** The reason with which a name is rejected is the earliest thing it did wrong. */
  lemma RejectedFor(name: string, input: Input, lexicon: Lexicon)
    ensures Judges(ApplyFilters(name, input, lexicon), Offence(name, input, lexicon), 0, 18)
  {
    LengthJudged(name, input, lexicon);
    ForbiddenWordsJudged(name, input, lexicon);
    ForbiddenSuffixesJudged(name, input, lexicon);
    PhoneticsJudged(name, input, lexicon);
    NegativeJudged(name, input, lexicon);
    DictionaryJudged(name, input, lexicon);
    CompaniesJudged(name, input, lexicon);
    ConsonantRunsJudged(name, input, lexicon);
    VowelRunsJudged(name, input, lexicon);
    NoVowelsJudged(name, input, lexicon);
    TenJudged(Checks(name, input, lexicon), Offence(name, input, lexicon));
  }

  lemma FirstSuchUnique(words: seq<string>, bad: string -> bool, v: string, w: string)
    requires FirstSuch(words, bad, v) && FirstSuch(words, bad, w)
    ensures v == w
  {
  }

  lemma OffenceAtPlace(name: string, input: Input, lexicon: Lexicon, r: Reason, other: Reason)
    requires Offends(name, input, lexicon, r) && Offends(name, input, lexicon, other) && Place(r) == Place(other)
    ensures r == other
  {
    var lower := ToLower(name);
    match r
    case ForbiddenWord(w) => FirstSuchUnique(input.forbiddenWords, Containing(lower, true), w, other.word);
    case ForbiddenSuffix(x) => FirstSuchUnique(input.forbiddenSuffixes, Ending(lower), x, other.suffix);
    case Negative(f) => FirstSuchUnique(lexicon.negativeFragments, Containing(lower, false), f, other.fragment);
    case _ =>
  }

  /** A name is rejected for a reason exactly when the reason holds of it and no earlier one does. */
  lemma RejectedForIff(name: string, input: Input, lexicon: Lexicon, reason: Reason)
    ensures ApplyFilters(name, input, lexicon) == Fail(reason) <==>
      && Offends(name, input, lexicon, reason)
      && forall other: Reason :: Offends(name, input, lexicon, other) ==> Place(reason) <= Place(other)
  {
    RejectedFor(name, input, lexicon);
    OffencesPlaced(name, input, lexicon);
    JudgedIff(ApplyFilters(name, input, lexicon), Offence(name, input, lexicon), reason);
    assert Offence(name, input, lexicon)(reason) == Offends(name, input, lexicon, reason);
  }

  /** Offences have a place of their own among the eighteen. */
  ghost predicate Placed(offence: Reason -> bool) {
    && (forall r: Reason :: offence(r) ==> Place(r) < 18)
    && forall r: Reason, other: Reason :: offence(r) && offence(other) && Place(r) == Place(other) ==> r == other
  }

  lemma OffencesPlaced(name: string, input: Input, lexicon: Lexicon)
    ensures Placed(Offence(name, input, lexicon))
  {
    var offence := Offence(name, input, lexicon);
    forall r: Reason, other: Reason | offence(r) && offence(other) && Place(r) == Place(other) ensures r == other {
      OffenceAtPlace(name, input, lexicon, r, other);
    }
  }

  lemma JudgedIff(result: FilterResult, offence: Reason -> bool, reason: Reason)
    requires Judges(result, offence, 0, 18) && Placed(offence)
    ensures result == Fail(reason) <==>
      offence(reason) && forall other: Reason :: offence(other) ==> Place(reason) <= Place(other)
  {
  }

  /** Every surviving name: vowel runs of one or two, consonant runs of one to three, at least
      one alternation, and at most three characters per alternation block. */
  lemma SurvivorShape(name: string, input: Input, lexicon: Lexicon, vowelRun: nat, consonantRun: nat)
    requires ApplyFilters(name, input, lexicon).Pass?
    requires LongestRun(name, true, vowelRun) && LongestRun(name, false, consonantRun)
    ensures 1 <= vowelRun <= 2 && 1 <= consonantRun <= 3
    ensures 1 <= |Boundaries(name)|
    ensures 2 * |name| <= 5 * (|Boundaries(name)| + 1) + 1
    ensures |name| <= 3 * (|Boundaries(name)| + 1)
  {
    PassIffSurvives(name, input, lexicon);
    SurvivorRuns(name, vowelRun, consonantRun);
    SurvivorAlternates(name);
    BoundedRunsBoundLength(name);
  }

  lemma SurvivorRuns(name: string, vowelRun: nat, consonantRun: nat)
    requires BoundedRuns(name) && HasRun(name, true, 1) && name != "" && !IsVowel(name[0])
    requires LongestRun(name, true, vowelRun) && LongestRun(name, false, consonantRun)
    ensures 1 <= vowelRun <= 2 && 1 <= consonantRun <= 3
  {
    LongestRunAtMost(name, true, vowelRun, 2);
    LongestRunAtMost(name, true, vowelRun, 0);
    LongestRunAtMost(name, false, consonantRun, 3);
    LongestRunAtMost(name, false, consonantRun, 0);
    assert Uniform(name, 0, 1, false);
  }

  lemma SurvivorAlternates(name: string)
    requires HasRun(name, true, 1) && name != "" && !IsVowel(name[0])
    ensures Boundaries(name) != {}
  {
    var v: nat :| v <= |name| && Uniform(name, v, 1, true);
    FirstBoundary(name, v);
  }

  lemma {:induction false} FirstBoundary(name: string, v: nat)
    requires v < |name| && !IsVowel(name[0]) && IsVowel(name[v])
    ensures Boundaries(name) != {}
  {
    if IsVowel(name[v - 1]) {
      FirstBoundary(name, v - 1);
    } else {
      assert BoundaryAt(name, v - 1);
      assert v - 1 in Boundaries(name);
    }
  }

  // ---------------------------------------------------------------- the pronunciation score

  function LengthBonus(len: nat): int {
    if 4 <= len <= 6 then 12 else if len == 7 then 6 else 0
  }

  function ClosingBonus(name: string): int {
    if name != "" && UpperChar(name[|name| - 1]) in {'X', 'K', 'N', 'R'} then 5 else 0
  }

  /** The score for given run lengths: bonuses and penalties, clamped to 0..100. */
  ghost function PronunciationScore(name: string, vowelRun: nat, consonantRun: nat): int {
    var lower := ToLower(name);
    var swing := if |Boundaries(name)| < 5 then 3 * |Boundaries(name)| else 15;
    var cluster := (if consonantRun >= 3 then (consonantRun - 2) * 12 else 0) + (if consonantRun >= 2 then 4 else 0);
    var vowels := if vowelRun >= 3 then (vowelRun - 2) * 10 else 0;
    var length := if |name| in {4, 5, 6} then 12 else if |name| == 7 then 6 else 0;
    var closing := if name != "" && name[|name| - 1] in {'X', 'K', 'N', 'R', 'x', 'k', 'n', 'r'} then 5 else 0;
    var awkward :=
      (if Contains(lower, "gh") then 8 else 0) + (if Contains(lower, "wr") then 8 else 0)
      + (if Contains(lower, "kn") then 8 else 0) + (if Contains(lower, "ph") then 4 else 0);
    Clamp(70 + length + swing - cluster - vowels - awkward + closing)
  }

  /** The running total: each bonus or penalty adjusts it in turn. */
  method AddUp(len: nat, alternations: nat, vowelRun: nat, consonantRun: nat,
               gh: bool, wr: bool, kn: bool, ph: bool, closing: int)
    returns (raw: int)
    ensures raw == 70 + LengthBonus(len) + (if alternations < 5 then 3 * alternations else 15)
      - (if consonantRun >= 3 then (consonantRun - 2) * 12 else 0) - (if consonantRun >= 2 then 4 else 0)
      - (if vowelRun >= 3 then (vowelRun - 2) * 10 else 0)
      - (if gh then 8 else 0) - (if wr then 8 else 0) - (if kn then 8 else 0) - (if ph then 4 else 0) + closing
  {
    raw := 70;
    if 4 <= len <= 6 { raw := raw + 12; } else if len == 7 { raw := raw + 6; }
    raw := raw + if alternations * 3 < 15 then alternations * 3 else 15;
    if consonantRun >= 3 { raw := raw - (consonantRun - 2) * 12; }
    if consonantRun >= 2 { raw := raw - 4; }
    if vowelRun >= 3 { raw := raw - (vowelRun - 2) * 10; }
    if gh { raw := raw - 8; }
    if wr { raw := raw - 8; }
    if kn { raw := raw - 8; }
    if ph { raw := raw - 4; }
    raw := raw + closing;
  }

  lemma BonusesAre(name: string)
    ensures LengthBonus(|name|) == if |name| in {4, 5, 6} then 12 else if |name| == 7 then 6 else 0
    ensures ClosingBonus(name) ==
      if name != "" && name[|name| - 1] in {'X', 'K', 'N', 'R', 'x', 'k', 'n', 'r'} then 5 else 0
  {
    if name != "" { CaseIs(name[|name| - 1]); }
  }

  method ScorePronunciation(name: string) returns (score: int)
    ensures exists v: nat, c: nat ::
      LongestRun(name, true, v) && LongestRun(name, false, c) && score == PronunciationScore(name, v, c)
  {
    var consonantRun := MaxRun(name, false);
    var vowelRun := MaxRun(name, true);
    var alternations := CountAlternations(name);
    var lower := ToLower(name);
    var closing := ClosingBonus(name);
    var raw := AddUp(|name|, alternations, vowelRun, consonantRun,
                     Contains(lower, "gh"), Contains(lower, "wr"), Contains(lower, "kn"), Contains(lower, "ph"),
                     closing);
    score := Clamp(raw);
    BonusesAre(name);
    assert score == PronunciationScore(name, vowelRun, consonantRun);
  }

  /** On a surviving name the vowel-run, GH, WR and KN penalties never fire, the consonant
      penalty is one of three constants, and the score stays between 56 and 100. */
  lemma {:induction false} SurvivorScore(name: string, input: Input, lexicon: Lexicon, vowelRun: nat, consonantRun: nat)
    requires ApplyFilters(name, input, lexicon).Pass?
    requires LongestRun(name, true, vowelRun) && LongestRun(name, false, consonantRun)
    ensures name != "" && PronunciationScore(name, vowelRun, consonantRun) ==
      Clamp(70 + (if |name| in {4, 5, 6} then 12 else if |name| == 7 then 6 else 0)
            + (if |Boundaries(name)| < 5 then 3 * |Boundaries(name)| else 15)
            - (if consonantRun == 3 then 16 else if consonantRun == 2 then 4 else 0)
            - (if Contains(ToLower(name), "ph") then 4 else 0)
            + (if name[|name| - 1] in {'X', 'K', 'N', 'R', 'x', 'k', 'n', 'r'} then 5 else 0))
    ensures 56 <= PronunciationScore(name, vowelRun, consonantRun) <= 100
  {
    SurvivorShape(name, input, lexicon, vowelRun, consonantRun);
    PassIffSurvives(name, input, lexicon);
  }

  lemma SharpRuns(name: string)
    requires name == "SPHEASPL"
    ensures LongestRun(name, true, 2) && LongestRun(name, false, 3) && Boundaries(name) == {2, 4}
  {
    assert Uniform(name, 3, 2, true) && Uniform(name, 0, 3, false);
    forall k | 2 < k ensures !HasRun(name, true, k) {
      forall i: nat ensures !Uniform(name, i, k, true) {
        assert i + k <= |name| ==> !IsVowel(name[i]) || !IsVowel(name[i + 2]);
      }
    }
    forall k | 3 < k ensures !HasRun(name, false, k) {
      forall i: nat ensures !Uniform(name, i, k, false) {
        assert IsVowel(name[3]) && IsVowel(name[4]);
      }
    }
    assert BoundaryAt(name, 2) && BoundaryAt(name, 4);
  }

  lemma SharpSurvives(name: string, input: Input, lexicon: Lexicon)
    requires name == "SPHEASPL" && input == Input(8, 8, [], []) && lexicon == Lexicon([], {}, {}, {})
    requires LongestRun(name, true, 2) && LongestRun(name, false, 3)
    ensures Survives(name, input, lexicon)
  {
    var lower := ToLower(name);
    assert name[0] != name[1] && name[1] != name[2] && name[2] != name[3] && name[3] != name[4] && name[4] != name[5]
      && name[5] != name[6] && name[6] != name[7];
    forall i: nat ensures !TripledAt(name, i) {
    }
    assert lower == "spheaspl";
    forall t, i: nat | t in ["gh", "wr", "kn"] ensures !OccursAt(lower, t, i) {
      assert i + 2 <= |lower| ==> lower[i..i + 2][0] != t[0];
    }
    assert "gh" in ["gh", "wr", "kn"] && "wr" in ["gh", "wr", "kn"] && "kn" in ["gh", "wr", "kn"];
    ShorterRun(name, true, 2, 1);
  }

  /** The lower bound is attained. */
  lemma SurvivorScoreSharp(name: string, input: Input, lexicon: Lexicon)
    requires name == "SPHEASPL" && input == Input(8, 8, [], []) && lexicon == Lexicon([], {}, {}, {})
    ensures ApplyFilters(name, input, lexicon).Pass?
    ensures LongestRun(name, true, 2) && LongestRun(name, false, 3) && PronunciationScore(name, 2, 3) == 56
  {
    SharpRuns(name);
    SharpSurvives(name, input, lexicon);
    PassIffSurvives(name, input, lexicon);
    assert ToLower(name) == "spheaspl" && OccursAt(ToLower(name), "ph", 1);
    SurvivorScore(name, input, lexicon, 2, 3);
  }

  // ---------------------------------------------------------------- filtering a list

  datatype Rejection = Rejection(name: string, reason: Reason)

  ghost function PositionsWhere(names: seq<string>, keep: string -> bool): set<nat> {
    set i: nat | i < |names| && keep(names[i])
  }

  ghost function RejectedNames(rejected: seq<Rejection>): (r: seq<string>)
    ensures |r| == |rejected| && forall k :: 0 <= k < |r| ==> r[k] == rejected[k].name
  {
    Each(rejected, (x: Rejection) => x.name)
  }

  lemma SelectsStep(names: seq<string>, keep: string -> bool, n: nat, out: seq<string>, f: seq<nat>)
    requires n < |names| && SelectsAt(names, PositionsWhere(names[..n], keep), out, f)
    ensures keep(names[n]) ==> SelectsAt(names, PositionsWhere(names[..n + 1], keep), out + [names[n]], f + [n])
    ensures !keep(names[n]) ==> SelectsAt(names, PositionsWhere(names[..n + 1], keep), out, f)
  {
    var before, after := PositionsWhere(names[..n], keep), PositionsWhere(names[..n + 1], keep);
    assert forall i: nat :: i < n ==> names[..n + 1][i] == names[..n][i];
    assert after == if keep(names[n]) then before + {n} else before;
    if keep(names[n]) { SelectsSnoc(names, before, out, f, n); }
  }

  ghost function Kept(judge: string -> FilterResult): string -> bool { x => judge(x).Pass? }

  ghost function Dropped(judge: string -> FilterResult): string -> bool { x => judge(x).Fail? }

  /** Part way through: the first n names have been judged, and out lists the rejected names. */
  ghost predicate PartitionedSoFar(names: seq<string>, judge: string -> FilterResult, n: nat, passed: seq<string>,
                                   rejected: seq<Rejection>, out: seq<string>, f: seq<nat>, g: seq<nat>)
    requires n <= |names|
  {
    && SelectsAt(names, PositionsWhere(names[..n], Kept(judge)), passed, f)
    && SelectsAt(names, PositionsWhere(names[..n], Dropped(judge)), out, g)
    && |out| == |rejected| && |passed| + |rejected| == n
    && forall k :: 0 <= k < |rejected| ==>
         judge(rejected[k].name) == Fail(rejected[k].reason) && out[k] == rejected[k].name
  }

  lemma PartitionStep(names: seq<string>, judge: string -> FilterResult, n: nat, passed: seq<string>,
                      rejected: seq<Rejection>, out: seq<string>, f: seq<nat>, g: seq<nat>)
    requires n < |names| && PartitionedSoFar(names, judge, n, passed, rejected, out, f, g)
    ensures var x := names[n];
      if judge(x).Pass? then PartitionedSoFar(names, judge, n + 1, passed + [x], rejected, out, f + [n], g)
      else PartitionedSoFar(names, judge, n + 1, passed, rejected + [Rejection(x, judge(x).reason)], out + [x], f,
        g + [n])
  {
    SelectsStep(names, Kept(judge), n, passed, f);
    SelectsStep(names, Dropped(judge), n, out, g);
  }

  /** The loop, for any verdict: a stable partition of the list. */
  method Partition(names: seq<string>, judge: string -> FilterResult)
    returns (passed: seq<string>, rejected: seq<Rejection>)
    ensures Selects(names, PositionsWhere(names, Kept(judge)), passed)
    ensures Selects(names, PositionsWhere(names, Dropped(judge)), RejectedNames(rejected))
    ensures forall k :: 0 <= k < |rejected| ==> judge(rejected[k].name) == Fail(rejected[k].reason)
    ensures |passed| + |rejected| == |names|
  {
    passed, rejected := [], [];
    ghost var f: seq<nat>, g: seq<nat>, out: seq<string> := [], [], [];
    for n := 0 to |names|
      invariant PartitionedSoFar(names, judge, n, passed, rejected, out, f, g)
    {
      PartitionStep(names, judge, n, passed, rejected, out, f, g);
      var result := judge(names[n]);
      if result.Pass? {
        passed, f := passed + [names[n]], f + [n];
      } else {
        rejected, out, g := rejected + [Rejection(names[n], result.reason)], out + [names[n]], g + [n];
      }
    }
    PartitionDone(names, judge, passed, rejected, out, f, g);
  }

  lemma PartitionDone(names: seq<string>, judge: string -> FilterResult, passed: seq<string>,
                      rejected: seq<Rejection>, out: seq<string>, f: seq<nat>, g: seq<nat>)
    requires PartitionedSoFar(names, judge, |names|, passed, rejected, out, f, g)
    ensures Selects(names, PositionsWhere(names, Kept(judge)), passed)
    ensures Selects(names, PositionsWhere(names, Dropped(judge)), RejectedNames(rejected))
  {
    assert names[..|names|] == names;
    assert RejectedNames(rejected) == out;
  }

  ghost function Passing(names: seq<string>, input: Input, lexicon: Lexicon): set<nat> {
    set i: nat | i < |names| && ApplyFilters(names[i], input, lexicon).Pass?
  }

  ghost function Failing(names: seq<string>, input: Input, lexicon: Lexicon): set<nat> {
    set i: nat | i < |names| && ApplyFilters(names[i], input, lexicon).Fail?
  }

  /** A stable partition: both outputs keep the input order, every name lands in exactly one of
      them, and each rejection carries the first failing check. */
  method FilterCandidates(names: seq<string>, input: Input, lexicon: Lexicon)
    returns (passed: seq<string>, rejected: seq<Rejection>)
    ensures Selects(names, Passing(names, input, lexicon), passed)
    ensures Selects(names, Failing(names, input, lexicon), RejectedNames(rejected))
    ensures forall k :: 0 <= k < |rejected| ==>
      ApplyFilters(rejected[k].name, input, lexicon) == Fail(rejected[k].reason)
    ensures |passed| + |rejected| == |names|
  {
    var judge := (x: string) => ApplyFilters(x, input, lexicon);
    passed, rejected := Partition(names, judge);
    assert PositionsWhere(names, Kept(judge)) == Passing(names, input, lexicon);
    assert PositionsWhere(names, Dropped(judge)) == Failing(names, input, lexicon);
  }
}
