/**
 The deterministic match policy (backend/ai/match_policy.py): caps on the scores a model proposes,
 the choice of citations, and the outcome that is derived from both. Weights are exact hundredths
 and sums are rounded half to even.
 */
module MatchPolicy {
  import opened Wrappers

  datatype Dimension = Skill | Experience | Intent | Language | Location | Transferability | Qualification

  const DIMENSIONS := [Skill, Experience, Intent, Language, Location, Transferability, Qualification]

  datatype Status = Unknown | Present | Preferred | Required | NotRequired | Exclusion

  datatype Quote = Quote(id: string, dimension: Dimension, positive: bool, status: Status, text: string, hash: string)

  /** What was extracted from a document once and for all; None where the field is missing or of
      another type. */
  datatype Summary = Summary(
    observedSkills: set<string>, negatedSkills: set<string>,
    requiredSkills: set<string>, preferredSkills: set<string>, presentSkills: set<string>,
    excludedSkills: set<string>, requiredGroups: Option<seq<set<string>>>,
    requiredYears: Option<int>, observedYears: Option<int>,
    requiredLanguages: Option<map<string, int>>, languageGroups: seq<map<string, int>>,
    observedLanguages: Option<map<string, int>>,
    requiredRank: Option<int>, observedRank: Option<int>)

  datatype DocId = Profile | JobRow(row: nat) | Elsewhere(name: string)

  /** `quotes` in the order of their identities. */
  datatype Document = Document(id: DocId, isJob: bool, quotes: seq<Quote>, summary: Summary)

  /** Tokenization: the terms that carry meaning, the tokens that are not generic, and the text
      with case and spacing ignored. */
  datatype Lexicon = Lexicon(terms: string -> set<string>, tokens: string -> set<string>, plain: string -> string)

  type Row = map<Dimension, int>

  // ---- Quotes ----

  function QuotesOf(quotes: seq<Quote>, d: Dimension): seq<Quote> {
    if quotes == [] then []
    else (if quotes[0].dimension == d then [quotes[0]] else []) + QuotesOf(quotes[1..], d)
  }

  lemma {:induction false} QuotesOfMember(quotes: seq<Quote>, d: Dimension, q: Quote)
    ensures q in QuotesOf(quotes, d) <==> q in quotes && q.dimension == d
  {
    if quotes != [] {
      QuotesOfMember(quotes[1..], d, q);
      assert q in quotes <==> q == quotes[0] || q in quotes[1..];
    }
  }

  predicate Positive(q: Quote) {
    q.positive && q.status != Unknown && q.status != NotRequired && q.status != Exclusion
  }

  predicate Overlap(x: Lexicon, a: Quote, b: Quote) {
    x.terms(a.text) * x.terms(b.text) != {}
  }

  /** Two quotes that support each other. */
  predicate Supports(x: Lexicon, j: Quote, c: Quote) {
    Positive(j) && Positive(c) && Overlap(x, j, c)
  }

  predicate HasSupport(x: Lexicon, d: Dimension, candidate: Document, job: Document) {
    if d == Skill || d == Transferability then
      var c, j := candidate.summary, job.summary;
      (c.observedSkills - c.negatedSkills) * (j.requiredSkills + j.preferredSkills + j.presentSkills) != {}
    else
      exists j, c :: j in QuotesOf(job.quotes, d) && c in QuotesOf(candidate.quotes, d) && Supports(x, j, c)
  }

  function PairsAt(x: Lexicon, d: Dimension, candidate: Document, job: Document): set<(string, string)> {
    set j, c | j in QuotesOf(job.quotes, d) && c in QuotesOf(candidate.quotes, d) && Supports(x, j, c)
      :: (x.plain(j.text), x.plain(c.text))
  }

  // ---- Mandatory requirements ----

  predicate Unmet(g: set<string>, c: Summary) {
    g != {} && g * c.observedSkills - c.negatedSkills == {}
  }

  predicate SkillsMissing(c: Summary, j: Summary) {
    || (if j.requiredGroups.Some?
        then exists g :: g in j.requiredGroups.value && Unmet(g, c)
        else exists t :: t in j.requiredSkills && (t !in c.observedSkills || t in c.negatedSkills))
    || j.excludedSkills * c.observedSkills != {}
  }

  predicate SpeaksOneOf(observed: map<string, int>, group: map<string, int>) {
    exists l :: l in group && l in observed && observed[l] >= group[l]
  }

  predicate FallsShort(l: string, observed: map<string, int>, required: map<string, int>)
    requires l in required
  {
    l !in observed || observed[l] < required[l]
  }

  predicate LanguageMissing(c: Summary, j: Summary) {
    && j.requiredLanguages.Some? && c.observedLanguages.Some?
    && if exists g :: g in j.languageGroups && g != map[]
       then exists g :: g in j.languageGroups && g != map[] && !SpeaksOneOf(c.observedLanguages.value, g)
       else exists l :: l in j.requiredLanguages.value && FallsShort(l, c.observedLanguages.value, j.requiredLanguages.value)
  }

  /** The mandatory requirements of a job the candidate does not meet, dimension by dimension. */
  predicate Mismatched(x: Lexicon, d: Dimension, candidate: Document, job: Document) {
    var c, j := candidate.summary, job.summary;
    match d
    case Skill => SkillsMissing(c, j)
    case Transferability => SkillsMissing(c, j)
    case Experience =>
      j.requiredYears.Some? && (c.observedYears.None? || c.observedYears.value < j.requiredYears.value)
    case Language => LanguageMissing(c, j)
    case Qualification =>
      && j.requiredRank.Some? && j.requiredRank.value > 0
      && (c.observedRank.None? || c.observedRank.value < j.requiredRank.value)
    case Location =>
      && (exists q :: q in QuotesOf(job.quotes, Location) && q.status == Required)
      && !HasSupport(x, Location, candidate, job)
    case Intent => false
  }

  method MissesSkills(c: Summary, j: Summary) returns (missing: bool)
    ensures missing == SkillsMissing(c, j)
  {
    hide Unmet;
    missing := false;
    if j.requiredGroups.Some? {
      var groups := j.requiredGroups.value;
      for k := 0 to |groups|
        invariant missing <==> exists i :: 0 <= i < k && Unmet(groups[i], c)
      {
        missing := missing || Unmet(groups[k], c);
      }
    } else {
      missing := exists t :: t in j.requiredSkills && (t !in c.observedSkills || t in c.negatedSkills);
    }
    missing := missing || j.excludedSkills * c.observedSkills != {};
  }

  /** `_mandatory_mismatch_dimensions` */
  method MandatoryMismatches(x: Lexicon, candidate: Document, job: Document) returns (mismatches: set<Dimension>)
    ensures forall d :: d in mismatches <==> Mismatched(x, d, candidate, job)
  {
    hide SkillsMissing, LanguageMissing, HasSupport;
    var c, j := candidate.summary, job.summary;
    mismatches := {};
    var skills := MissesSkills(c, j);
    if skills {
      mismatches := mismatches + {Skill, Transferability};
    }
    if j.requiredYears.Some? && (c.observedYears.None? || c.observedYears.value < j.requiredYears.value) {
      mismatches := mismatches + {Experience};
    }
    if LanguageMissing(c, j) {
      mismatches := mismatches + {Language};
    }
    if j.requiredRank.Some? && j.requiredRank.value > 0
       && (c.observedRank.None? || c.observedRank.value < j.requiredRank.value) {
      mismatches := mismatches + {Qualification};
    }
    if (exists q :: q in QuotesOf(job.quotes, Location) && q.status == Required) && !HasSupport(x, Location, candidate, job) {
      mismatches := mismatches + {Location};
    }
  }

  // ---- Enforcing the policy on one row ----

  function MandatoryCap(d: Dimension): int {
    match d
    case Intent => 20
    case Language => 30
    case _ => 40
  }

  predicate Informative(q: Quote) {
    q.positive || q.status == NotRequired || q.status == Exclusion
  }

  /** The job says nothing about the dimension, or only that it is not required. */
  predicate Silent(d: Dimension, job: Document) {
    forall q :: q in QuotesOf(job.quotes, d) && Informative(q) ==> q.status == NotRequired
  }

  predicate AsksPositively(d: Dimension, job: Document) {
    exists q :: q in QuotesOf(job.quotes, d) && Informative(q) && Positive(q)
  }

  function Clamp(n: int): int {
    if n < 0 then 0 else if n > 100 then 100 else n
  }

  function Min(a: int, b: int): int {
    if a <= b then a else b
  }

  function Proposed(row: Row, d: Dimension): int {
    Clamp(if d in row then row[d] else 50)
  }

  /** A proposal counts as the nearest score on the scale, and a missing one as 50. */
  lemma ProposedExactly(row: Row, d: Dimension, other: int)
    ensures 0 <= Proposed(row, d) <= 100
    ensures d !in row ==> Proposed(row, d) == 50
    ensures d in row && 0 <= other <= 100 ==> Distance(row[d], Proposed(row, d)) <= Distance(row[d], other)
  {
  }

  /** One dimension under the policy. */
  function Capped(x: Lexicon, d: Dimension, candidate: Document, job: Document, score: int): int {
    if Silent(d, job) then 50
    else if Mismatched(x, d, candidate, job) then Min(score, MandatoryCap(d))
    else if AsksPositively(d, job) && !HasSupport(x, d, candidate, job) then Min(score, 55)
    else if HasSupport(x, d, candidate, job) && score < 45 then 45
    else score
  }

  function CappedRow(x: Lexicon, candidate: Document, job: Document, row: Row): Row {
    map d | d in DIMENSIONS :: Capped(x, d, candidate, job, Proposed(row, d))
  }

  function Weight(d: Dimension): nat {
    match d
    case Skill => 25
    case Experience => 20
    case Intent => 20
    case Language => 10
    case Location => 10
    case Transferability => 10
    case Qualification => 5
  }

  predicate Complete(row: Row) {
    forall d :: d in DIMENSIONS ==> d in row
  }

  predicate InRange(row: Row) {
    forall d :: d in row ==> 0 <= row[d] <= 100
  }

  /** In hundredths. */
  function Weighted(row: Row): int
    requires Complete(row)
  {
    row[Skill] * Weight(Skill) + row[Experience] * Weight(Experience) + row[Intent] * Weight(Intent)
    + row[Language] * Weight(Language) + row[Location] * Weight(Location)
    + row[Transferability] * Weight(Transferability) + row[Qualification] * Weight(Qualification)
  }

  /** Python's `round` of hundredths. */
  function Rounded(n: int): int {
    var q, r := n / 100, n % 100;
    if r > 50 || (r == 50 && q % 2 == 1) then q + 1 else q
  }

  function RowScore(row: Row): int
    requires Complete(row)
  {
    Rounded(Weighted(row))
  }

  /** The distinct pairs of quotes that support a dimension standing above 55. */
  function SupportPairs(x: Lexicon, candidate: Document, job: Document, row: Row): set<(string, string)> {
    set d, p | d in DIMENSIONS && d in row && row[d] > 55 && p in PairsAt(x, d, candidate, job) :: p
  }

  function Lowered(row: Row): Row {
    map d | d in row :: Min(row[d], 79)
  }

  predicate Unsupported(x: Lexicon, candidate: Document, job: Document, row: Row)
    requires Complete(row)
  {
    RowScore(row) >= 80 && |SupportPairs(x, candidate, job, row)| < 2
  }

  function EnforcedRow(x: Lexicon, candidate: Document, job: Document, row: Row): (r: Row)
    ensures Complete(r)
  {
    var capped := CappedRow(x, candidate, job, row);
    if Unsupported(x, candidate, job, capped) then Lowered(capped) else capped
  }

  method EnforceDimension(x: Lexicon, d: Dimension, candidate: Document, job: Document, proposed: int, mismatches: set<Dimension>)
    returns (score: int)
    requires d in mismatches <==> Mismatched(x, d, candidate, job)
    ensures score == Capped(x, d, candidate, job, proposed)
  {
    hide HasSupport, Mismatched, Silent, AsksPositively;
    score := proposed;
    if Silent(d, job) {
      score := 50;
    } else if d in mismatches {
      score := Min(score, MandatoryCap(d));
    } else if AsksPositively(d, job) && !HasSupport(x, d, candidate, job) {
      score := Min(score, 55);
    } else if HasSupport(x, d, candidate, job) && score < 45 {
      score := 45;
    }
  }

  /** One row of `enforce_match_score_policy`. */
  method EnforceRow(x: Lexicon, candidate: Document, job: Document, row: Row) returns (enforced: Row)
    ensures enforced == EnforcedRow(x, candidate, job, row)
  {
    hide Capped, Mismatched, SupportPairs, Weighted, Rounded;
    var mismatches := MandatoryMismatches(x, candidate, job);
    enforced := map[];
    for k := 0 to |DIMENSIONS|
      invariant forall d :: d in enforced <==> d in DIMENSIONS[..k]
      invariant forall d :: d in enforced ==> enforced[d] == Capped(x, d, candidate, job, Proposed(row, d))
    {
      var d := DIMENSIONS[k];
      var score := EnforceDimension(x, d, candidate, job, Proposed(row, d), mismatches);
      enforced := enforced[d := score];
      assert DIMENSIONS[..k + 1] == DIMENSIONS[..k] + [d];
    }
    assert DIMENSIONS[..|DIMENSIONS|] == DIMENSIONS;
    assert enforced == CappedRow(x, candidate, job, row);
    if RowScore(enforced) >= 80 && |SupportPairs(x, candidate, job, enforced)| < 2 {
      enforced := Lowered(enforced);
    }
  }

  // ---- The policy is a projection ----

  lemma CappedInRange(x: Lexicon, candidate: Document, job: Document, row: Row)
    ensures Complete(CappedRow(x, candidate, job, row)) && InRange(CappedRow(x, candidate, job, row))
  {
    hide Silent, Mismatched, AsksPositively, HasSupport;
  }

  lemma AllDimensions(d: Dimension)
    ensures d in DIMENSIONS
  {
    assert DIMENSIONS[0] == Skill && DIMENSIONS[1] == Experience && DIMENSIONS[2] == Intent && DIMENSIONS[3] == Language;
    assert DIMENSIONS[4] == Location && DIMENSIONS[5] == Transferability && DIMENSIONS[6] == Qualification;
  }

  /** Scores stay on the scale. */
  lemma EnforcedInRange(x: Lexicon, candidate: Document, job: Document, row: Row)
    ensures InRange(EnforcedRow(x, candidate, job, row)) && Complete(EnforcedRow(x, candidate, job, row))
  {
    hide CappedRow, Unsupported;
    CappedInRange(x, candidate, job, row);
  }

  /** A capped score is a fixed point of its cap, and so is the same score cut at 79. */
  lemma CapIsIdempotent(x: Lexicon, d: Dimension, candidate: Document, job: Document, score: int)
    ensures var s := Capped(x, d, candidate, job, score);
            Capped(x, d, candidate, job, s) == s && Capped(x, d, candidate, job, Min(s, 79)) == Min(s, 79)
  {
    hide Silent, Mismatched, AsksPositively, HasSupport;
  }

  lemma RoundedMonotone(a: int, b: int)
    requires a <= b
    ensures Rounded(a) <= Rounded(b)
  {
  }

  lemma LowWeighted(row: Row, bound: nat)
    requires Complete(row) && forall d :: d in row ==> row[d] <= bound
    ensures RowScore(row) <= bound
  {
    AllDimensions(Skill);
    assert Weighted(row) <= bound * 100;
    RoundedMonotone(Weighted(row), bound * 100);
  }

  lemma LoweredIsLow(row: Row)
    requires Complete(row)
    ensures Complete(Lowered(row)) && RowScore(Lowered(row)) <= 79
  {
    LowWeighted(Lowered(row), 79);
  }

  /** Enforcing the policy twice is enforcing it once, across the cap on the whole row as well:
      whatever rows are proposed and whatever the documents say. */
  lemma EnforcementIsIdempotent(x: Lexicon, candidate: Document, job: Document, row: Row)
    ensures var once := EnforcedRow(x, candidate, job, row);
            EnforcedRow(x, candidate, job, once) == once
  {
    hide Capped, Unsupported, Weighted, Rounded;
    var capped := CappedRow(x, candidate, job, row);
    var once := EnforcedRow(x, candidate, job, row);
    EnforcedInRange(x, candidate, job, row);
    forall d | d in DIMENSIONS
      ensures Capped(x, d, candidate, job, Proposed(once, d)) == once[d]
    {
      CapIsIdempotent(x, d, candidate, job, Proposed(row, d));
    }
    forall d: Dimension ensures d in DIMENSIONS {
      AllDimensions(d);
    }
    assert CappedRow(x, candidate, job, once) == once;
    if once != capped {
      LoweredIsLow(capped);
      LowIsSupported(x, candidate, job, once);
    }
  }

  lemma LowIsSupported(x: Lexicon, candidate: Document, job: Document, row: Row)
    requires Complete(row) && RowScore(row) <= 79
    ensures !Unsupported(x, candidate, job, row)
  {
  }

  /** A row that reaches 80 has two distinct pairs of supporting quotes, each for a dimension that
      stands above 55 in the enforced row itself. */
  lemma HighRowsAreSupported(x: Lexicon, candidate: Document, job: Document, row: Row)
    requires RowScore(EnforcedRow(x, candidate, job, row)) >= 80
    ensures |SupportPairs(x, candidate, job, EnforcedRow(x, candidate, job, row))| >= 2
    ensures var r := EnforcedRow(x, candidate, job, row);
      exists d, j, c, d', j', c' ::
        && IsPair(x, candidate, job, r, d, j, c) && IsPair(x, candidate, job, r, d', j', c')
        && (x.plain(j.text) != x.plain(j'.text) || x.plain(c.text) != x.plain(c'.text))
  {
    hide CappedRow, SupportPairs, Weighted, Rounded;
    LoweredIsLow(CappedRow(x, candidate, job, row));
    TwoPairs(x, candidate, job, EnforcedRow(x, candidate, job, row));
  }

  /** A quote of the job and one of the candidate for the same dimension, which stands above 55: both
      positive and settled, and with a term in common. */
  predicate IsPair(x: Lexicon, candidate: Document, job: Document, row: Row, d: Dimension, j: Quote, c: Quote) {
    && d in row && row[d] > 55
    && j in job.quotes && c in candidate.quotes && j.dimension == d == c.dimension
    && j.positive && c.positive
    && j.status in {Present, Preferred, Required} && c.status in {Present, Preferred, Required}
    && exists t :: t in x.terms(j.text) && t in x.terms(c.text)
  }

  lemma PairIs(x: Lexicon, candidate: Document, job: Document, row: Row, p: (string, string)) returns (d: Dimension, j: Quote, c: Quote)
    requires p in SupportPairs(x, candidate, job, row)
    ensures IsPair(x, candidate, job, row, d, j, c) && p == (x.plain(j.text), x.plain(c.text))
  {
    hide QuotesOf;
    d :| d in DIMENSIONS && d in row && row[d] > 55 && p in PairsAt(x, d, candidate, job);
    j, c :| j in QuotesOf(job.quotes, d) && c in QuotesOf(candidate.quotes, d) && Supports(x, j, c)
      && p == (x.plain(j.text), x.plain(c.text));
    QuotesOfMember(job.quotes, d, j);
    QuotesOfMember(candidate.quotes, d, c);
    var t :| t in x.terms(j.text) * x.terms(c.text);
  }

  lemma TwoPairs(x: Lexicon, candidate: Document, job: Document, row: Row)
    requires |SupportPairs(x, candidate, job, row)| >= 2
    ensures exists d, j, c, d', j', c' ::
      && IsPair(x, candidate, job, row, d, j, c) && IsPair(x, candidate, job, row, d', j', c')
      && (x.plain(j.text) != x.plain(j'.text) || x.plain(c.text) != x.plain(c'.text))
  {
    hide SupportPairs, IsPair;
    var pairs := SupportPairs(x, candidate, job, row);
    var p :| p in pairs;
    assert |pairs - {p}| == |pairs| - 1;
    var q :| q in pairs - {p};
    var d, j, c := PairIs(x, candidate, job, row, p);
    var d', j', c' := PairIs(x, candidate, job, row, q);
  }

  /** The overall score is the weighted mean of the seven scores, rounded to the nearest whole number
      and halfway to the even one. */
  lemma RowScoreIsNearest(row: Row)
    requires Complete(row)
    ensures var mean := 25 * row[Skill] + 20 * row[Experience] + 20 * row[Intent] + 10 * row[Language]
                        + 10 * row[Location] + 10 * row[Transferability] + 5 * row[Qualification];
            var off := 100 * RowScore(row) - mean;
      -50 <= off <= 50 && (off == 50 || off == -50 ==> RowScore(row) % 2 == 0)
  {
    AllDimensions(Skill);
    RoundedIsNearest(Weighted(row));
  }

  lemma RoundedIsNearest(n: int)
    ensures var off := 100 * Rounded(n) - n;
      -50 <= off <= 50 && (off == 50 || off == -50 ==> Rounded(n) % 2 == 0)
  {
  }

  /** The skills of a job are met exactly when, of every group of alternatives (or of the required
      skills, each by itself), the candidate shows one that is not negated, and shows no excluded one. */
  lemma SkillsAreMetExactly(c: Summary, j: Summary)
    ensures !SkillsMissing(c, j) <==>
      && (forall t :: t in j.excludedSkills ==> t !in c.observedSkills)
      && (j.requiredGroups.Some? ==> forall g :: g in j.requiredGroups.value && g != {} ==>
            exists t :: t in g && t in c.observedSkills && t !in c.negatedSkills)
      && (j.requiredGroups.None? ==> forall t :: t in j.requiredSkills ==> t in c.observedSkills && t !in c.negatedSkills)
  {
    assert j.excludedSkills * c.observedSkills == {} <==> forall t :: t in j.excludedSkills ==> t !in c.observedSkills by {
      assert forall t :: t in j.excludedSkills && t in c.observedSkills ==> t in j.excludedSkills * c.observedSkills;
    }
    if j.requiredGroups.Some? {
      forall g | g in j.requiredGroups.value
        ensures Unmet(g, c) <==> g != {} && !exists t :: t in g && t in c.observedSkills && t !in c.negatedSkills
      {
        assert forall t :: t in g && t in c.observedSkills && t !in c.negatedSkills ==> t in g * c.observedSkills - c.negatedSkills;
      }
    }
  }

  /** The languages of a job are met exactly when nothing is asked or known, or when the candidate
      speaks one language of every group of alternatives at its level, or, without groups, every
      language at its level. */
  lemma LanguagesAreMetExactly(c: Summary, j: Summary)
    ensures !LanguageMissing(c, j) <==>
      || j.requiredLanguages.None? || c.observedLanguages.None?
      || (var observed, groups := c.observedLanguages.value, j.languageGroups;
          var grouped := exists g :: g in groups && g != map[];
          if grouped
          then forall g :: g in groups && g != map[] ==> exists l :: l in g && l in observed && observed[l] >= g[l]
          else forall l :: l in j.requiredLanguages.value ==> l in observed && observed[l] >= j.requiredLanguages.value[l])
  {
  }

  /** The policy raises a score in two cases only: to 50 where the job asks for nothing, and to 45
      where a requirement that is met was scored lower. Everywhere else it can only lower it. */
  lemma OnlySupportRaises(x: Lexicon, candidate: Document, job: Document, row: Row, d: Dimension)
    requires d in EnforcedRow(x, candidate, job, row)
    requires EnforcedRow(x, candidate, job, row)[d] > Proposed(row, d)
    ensures Silent(d, job) || (HasSupport(x, d, candidate, job) && !Mismatched(x, d, candidate, job))
    ensures EnforcedRow(x, candidate, job, row)[d] == (if Silent(d, job) then 50 else 45)
  {
    hide Silent, Mismatched, AsksPositively, HasSupport, Unsupported;
    AllDimensions(d);
  }

  /** What the policy leaves of a dimension, by what the documents say about it. */
  lemma EnforcedWithin(x: Lexicon, candidate: Document, job: Document, row: Row, d: Dimension)
    ensures d in EnforcedRow(x, candidate, job, row)
    ensures var s := EnforcedRow(x, candidate, job, row)[d];
            && (Silent(d, job) ==> s == 50)
            && (!Silent(d, job) && Mismatched(x, d, candidate, job) ==>
                  s <= 40 && (d == Language ==> s <= 30) && (d == Intent ==> s <= 20))
            && (!Silent(d, job) && AsksPositively(d, job) && !HasSupport(x, d, candidate, job) ==> s <= 55)
            && (!Silent(d, job) && HasSupport(x, d, candidate, job) && !Mismatched(x, d, candidate, job) ==> s >= 45)
  {
    hide Silent, Mismatched, AsksPositively, HasSupport, Unsupported;
    AllDimensions(d);
  }

  function Distance(a: int, b: int): nat {
    if a <= b then b - a else a - b
  }

  // ---- Which scores a profile lets stand ----

  /** What the policy makes of a dimension the job asks about, by what one profile has to offer. */
  datatype Standing = Barred | Unbacked | Backed | Open

  function StandingOf(x: Lexicon, d: Dimension, candidate: Document, job: Document): Standing {
    if Mismatched(x, d, candidate, job) then Barred
    else if HasSupport(x, d, candidate, job) then Backed
    else if AsksPositively(d, job) then Unbacked
    else Open
  }

  /** The scores that are left as they are. */
  predicate Stands(x: Lexicon, d: Dimension, candidate: Document, job: Document, score: int) {
    && (Silent(d, job) ==> score == 50)
    && (!Silent(d, job) ==>
          match StandingOf(x, d, candidate, job)
          case Barred => score <= (match d case Intent => 20 case Language => 30 case _ => 40)
          case Unbacked => score <= 55
          case Backed => score >= 45
          case Open => true)
  }

  predicate RowStands(x: Lexicon, candidate: Document, job: Document, row: Row)
    requires Complete(row)
  {
    && (forall d :: d in DIMENSIONS ==> Stands(x, d, candidate, job, row[d]))
    && !Unsupported(x, candidate, job, row)
  }

  /** A score a profile lets stand is kept; any other one is moved, to 55 or below. */
  lemma CapKeepsWhatStands(x: Lexicon, d: Dimension, candidate: Document, job: Document, score: int)
    ensures Capped(x, d, candidate, job, score) == score <==> Stands(x, d, candidate, job, score)
    ensures Capped(x, d, candidate, job, score) != score ==> Capped(x, d, candidate, job, score) <= 55
  {
    hide Silent, Mismatched, AsksPositively, HasSupport;
  }

  /** What the policy makes of a score is the nearest one that stands. */
  lemma CapIsNearest(x: Lexicon, d: Dimension, candidate: Document, job: Document, score: int, other: int)
    requires 0 <= score <= 100
    ensures Stands(x, d, candidate, job, Capped(x, d, candidate, job, score))
    ensures Stands(x, d, candidate, job, other) ==>
      Distance(score, Capped(x, d, candidate, job, score)) <= Distance(score, other)
  {
    hide Silent, Mismatched, AsksPositively, HasSupport;
  }

  /** The cap on a whole row takes nothing from a score up to 79, and leaves every other one as it
      stands or at 79. */
  lemma RowCapOnlyTrims(x: Lexicon, candidate: Document, job: Document, row: Row, d: Dimension)
    requires Stands(x, d, candidate, job, Proposed(row, d))
    ensures var s := EnforcedRow(x, candidate, job, row);
      d in s && (s[d] == Proposed(row, d) || (s[d] == 79 && Proposed(row, d) > 79 && RowScore(CappedRow(x, candidate, job, row)) >= 80))
  {
    hide Capped, Stands, SupportPairs, RowScore;
    AllDimensions(d);
    CapKeepsWhatStands(x, d, candidate, job, Proposed(row, d));
  }

  /** The policy leaves a row alone exactly when every dimension stands and the row as a whole is
      not a high one without support. */
  lemma EnforcementKeepsExactly(x: Lexicon, candidate: Document, job: Document, row: Row)
    requires Complete(row) && InRange(row)
    ensures EnforcedRow(x, candidate, job, row) == row <==> RowStands(x, candidate, job, row)
  {
    hide Capped, Stands, Unsupported, RowScore;
    var capped := CappedRow(x, candidate, job, row);
    forall d: Dimension
      ensures d in DIMENSIONS && (capped[d] == row[d] <==> Stands(x, d, candidate, job, row[d]))
      ensures capped[d] != row[d] ==> Min(capped[d], 79) != row[d]
    {
      AllDimensions(d);
      CapKeepsWhatStands(x, d, candidate, job, row[d]);
    }
    if capped == row && Unsupported(x, candidate, job, row) {
      LoweredChanges(x, candidate, job, row);
    } else if d: Dimension :| capped[d] != row[d] {
      assert EnforcedRow(x, candidate, job, row)[d] != row[d];
    }
  }

  lemma LoweredChanges(x: Lexicon, candidate: Document, job: Document, row: Row)
    requires Complete(row) && Unsupported(x, candidate, job, row)
    ensures Lowered(row) != row
  {
    LoweredIsLow(row);
  }

  /** One profile leaves every score alone that another one does. */
  predicate Follows(after: Standing, before: Standing) {
    match after
    case Barred => before == Barred
    case Unbacked => before == Barred || before == Unbacked
    case Backed => before == Backed
    case Open => true
  }

  /** When two profiles are read one after the other, the second leaves whatever the first has
      made of a score alone, exactly when the job asks nothing or its standing follows. */
  lemma SecondProfileAgreesExactly(x: Lexicon, d: Dimension, first: Document, second: Document, job: Document)
    ensures (forall score :: 0 <= score <= 100 ==>
               Stands(x, d, second, job, Capped(x, d, first, job, score)))
       <==> Silent(d, job) || Follows(StandingOf(x, d, second, job), StandingOf(x, d, first, job))
  {
    hide Silent, Mismatched, AsksPositively, HasSupport;
    if !Silent(d, job) && !Follows(StandingOf(x, d, second, job), StandingOf(x, d, first, job)) {
      assert !Stands(x, d, second, job, Capped(x, d, first, job, 0))
          || !Stands(x, d, second, job, Capped(x, d, first, job, 100));
    }
  }
}
