/**
 From enforced scores to what the user sees (backend/ai/match_policy.py:368-553): the choice of a
 candidate quote for every job quote that matters, the assessment of each pair, and the visible
 score, recommendation and verdict.
 */
module MatchOutcome {
  import opened Wrappers
  import opened MatchPolicy
  import opened Ordering

  datatype Assessment = Strength | Weakness | Gap | Risk | Insufficient

  datatype Citation = Citation(dimension: Dimension, assessment: Assessment, job: Quote, candidate: Quote)

  datatype Recommendation = StrongFit | Consider | WeakFit | InsufficientEvidence

  datatype Outcome = Outcome(score: int, recommendation: Recommendation, worth: bool)

  function RiskCap(d: Dimension): Option<int> {
    match d
    case Intent => Some(20)
    case Language => Some(30)
    case Qualification => Some(40)
    case _ => None
  }

  // ---- One pair of quotes ----

  /** `derive_citation_assessment` */
  function Assess(x: Lexicon, d: Dimension, score: int, j: Quote, c: Quote): Assessment {
    var met := c.positive && c.status != NotRequired && c.status != Exclusion;
    if j.status == NotRequired then Insufficient
    else if !j.positive || score == 50 then Insufficient
    else if RiskCap(d).Some? && score <= RiskCap(d).value
            && (j.status == Required || !met || x.tokens(j.text) * x.tokens(c.text) == {})
    then Risk
    else if !met || score < 45 then Gap
    else if score >= 60 then Strength
    else Weakness
  }

  /** The job asks for something, and the score says something about it. */
  predicate Asks(j: Quote, score: int) {
    j.positive && j.status != NotRequired && score != 50
  }

  /** The candidate has something to show. */
  predicate Offers(c: Quote) {
    c.positive && c.status != NotRequired && c.status != Exclusion
  }

  /** Each assessment by itself, whatever the order of the tests: nothing asked or nothing known; a
      score low enough for a dimension that carries a risk, where the job requires it or the two
      quotes have nothing in common; and else what the candidate offers, by 45 and 60. */
  lemma AssessedExactly(x: Lexicon, d: Dimension, score: int, j: Quote, c: Quote)
    ensures var a := Assess(x, d, score, j, c);
            var low := (d == Intent && score <= 20) || (d == Language && score <= 30) || (d == Qualification && score <= 40);
      && (a == Insufficient <==> !Asks(j, score))
      && (a == Risk <==>
            && Asks(j, score) && low
            && (j.status == Required || !Offers(c) || !exists t :: t in x.tokens(j.text) && t in x.tokens(c.text)))
      && (a == Strength <==> Asks(j, score) && Offers(c) && score >= 60)
      && (a == Weakness <==> Asks(j, score) && Offers(c) && 45 <= score < 60)
      && (a == Gap <==> Asks(j, score) && a != Risk && (!Offers(c) || score < 45))
  {
    var shared := x.tokens(j.text) * x.tokens(c.text);
    assert shared == {} <==> !exists t :: t in x.tokens(j.text) && t in x.tokens(c.text) by {
      if t :| t in x.tokens(j.text) && t in x.tokens(c.text) {
        assert t in shared;
      }
    }
  }

  function Shared(x: Lexicon, j: Quote, c: Quote): nat {
    |x.terms(j.text) * x.terms(c.text)|
  }

  /** More shared terms first, then a positive quote, then the greater identity. */
  predicate Outranks(x: Lexicon, j: Quote, a: Quote, b: Quote) {
    if Shared(x, j, a) != Shared(x, j, b) then Shared(x, j, a) > Shared(x, j, b)
    else if Positive(a) != Positive(b) then Positive(a)
    else Before(b.id, a.id)
  }

  function NoEvidence(d: Dimension): Quote {
    Quote("candidate:profile", d, false, Unknown, "", "")
  }

  function Best(x: Lexicon, d: Dimension, j: Quote, quotes: seq<Quote>): Quote {
    if quotes == [] then NoEvidence(d)
    else if |quotes| == 1 then quotes[0]
    else
      var b := Best(x, d, j, quotes[..|quotes| - 1]);
      if Outranks(x, j, quotes[|quotes| - 1], b) then quotes[|quotes| - 1] else b
  }

  /** No other quote of the candidate outranks the chosen one: none shares more terms with the job
      quote, as many and is positive where the chosen one is not, or is equal in both with a
      greater identity. */
  lemma {:induction false} BestIsBest(x: Lexicon, d: Dimension, j: Quote, quotes: seq<Quote>, q: Quote)
    requires q in quotes
    ensures Best(x, d, j, quotes) in quotes
    ensures !Outranks(x, j, q, Best(x, d, j, quotes))
    ensures var b, terms := Best(x, d, j, quotes), x.terms(j.text);
      && |terms * x.terms(q.text)| <= |terms * x.terms(b.text)|
      && (|terms * x.terms(q.text)| == |terms * x.terms(b.text)| ==>
            && (Positive(q) ==> Positive(b))
            && (Positive(q) == Positive(b) ==> !Before(b.id, q.id)))
  {
    hide Positive;
    if |quotes| == 1 {
      NotBeforeItself(q.id);
    } else {
      var front, last := quotes[..|quotes| - 1], quotes[|quotes| - 1];
      assert quotes == front + [last];
      BestIsBest(x, d, j, front, front[0]);
      var b := Best(x, d, j, front);
      if q in front {
        BestIsBest(x, d, j, front, q);
        NotBeforeBoth(b.id, last.id);
        BeforeIsTransitive(q.id, b.id, last.id);
      } else {
        NotBeforeItself(q.id);
      }
    }
  }

  // ---- All citations ----

  predicate Explicit(q: Quote) {
    q.status == Required || q.status == Preferred || q.status == NotRequired || q.status == Exclusion
  }

  function OnlyExplicit(quotes: seq<Quote>): seq<Quote> {
    if quotes == [] then [] else (if Explicit(quotes[0]) then [quotes[0]] else []) + OnlyExplicit(quotes[1..])
  }

  /** Every explicit requirement, or else the first thing the job says. */
  function Selected(quotes: seq<Quote>): seq<Quote> {
    if OnlyExplicit(quotes) != [] then OnlyExplicit(quotes) else if quotes == [] then [] else [quotes[0]]
  }

  function Cite(x: Lexicon, d: Dimension, candidate: Document, score: int, j: Quote): Citation {
    var c := Best(x, d, j, QuotesOf(candidate.quotes, d));
    Citation(d, Assess(x, d, score, j, c), j, c)
  }

  function CiteAll(x: Lexicon, d: Dimension, candidate: Document, score: int, quotes: seq<Quote>): seq<Citation> {
    if quotes == [] then []
    else CiteAll(x, d, candidate, score, quotes[..|quotes| - 1]) + [Cite(x, d, candidate, score, quotes[|quotes| - 1])]
  }

  function Citations(x: Lexicon, candidate: Document, job: Document, scores: Row, k: nat): seq<Citation>
    requires Complete(scores) && k <= |DIMENSIONS|
  {
    if k == 0 then []
    else
      var d := DIMENSIONS[k - 1];
      Citations(x, candidate, job, scores, k - 1)
      + CiteAll(x, d, candidate, scores[d], Selected(QuotesOf(job.quotes, d)))
  }

  function AllCitations(x: Lexicon, candidate: Document, job: Document, scores: Row): seq<Citation>
    requires Complete(scores)
  {
    Citations(x, candidate, job, scores, |DIMENSIONS|)
  }

  method ChooseCandidate(x: Lexicon, d: Dimension, j: Quote, quotes: seq<Quote>) returns (best: Quote)
    ensures best == Best(x, d, j, quotes)
  {
    hide Outranks;
    if quotes == [] {
      return NoEvidence(d);
    }
    best := quotes[0];
    for k := 1 to |quotes|
      invariant best == Best(x, d, j, quotes[..k])
    {
      if Outranks(x, j, quotes[k], best) {
        best := quotes[k];
      }
      assert quotes[..k + 1][..k] == quotes[..k];
    }
    assert quotes[..|quotes|] == quotes;
  }

  /** `materialize_match_citations` */
  method MaterializeMatchCitations(x: Lexicon, candidate: Document, job: Document, scores: Row)
    returns (materialized: seq<Citation>)
    requires Complete(scores)
    ensures materialized == AllCitations(x, candidate, job, scores)
  {
    hide Best, Assess, QuotesOf, Selected;
    materialized := [];
    for k := 0 to |DIMENSIONS|
      invariant materialized == Citations(x, candidate, job, scores, k)
    {
      var d := DIMENSIONS[k];
      var selected := Selected(QuotesOf(job.quotes, d));
      var before := materialized;
      for i := 0 to |selected|
        invariant materialized == before + CiteAll(x, d, candidate, scores[d], selected[..i])
      {
        var c := ChooseCandidate(x, d, selected[i], QuotesOf(candidate.quotes, d));
        materialized := materialized + [Citation(d, Assess(x, d, scores[d], selected[i], c), selected[i], c)];
        assert selected[..i + 1][..i] == selected[..i];
      }
      assert selected[..|selected|] == selected;
    }
  }

  lemma {:induction false} ExplicitMember(quotes: seq<Quote>, q: Quote)
    requires q in quotes && Explicit(q)
    ensures q in OnlyExplicit(quotes)
  {
    if q != quotes[0] {
      ExplicitMember(quotes[1..], q);
    }
  }

  lemma {:induction false} CitedMember(x: Lexicon, d: Dimension, candidate: Document, score: int, quotes: seq<Quote>, q: Quote)
    requires q in quotes
    ensures Cite(x, d, candidate, score, q) in CiteAll(x, d, candidate, score, quotes)
  {
    hide Cite;
    var front, last := quotes[..|quotes| - 1], quotes[|quotes| - 1];
    assert quotes == front + [last];
    if q in front {
      CitedMember(x, d, candidate, score, front, q);
    }
  }

  lemma {:induction false} CitedAmong(x: Lexicon, candidate: Document, job: Document, scores: Row, k: nat, i: nat, c: Citation)
    requires Complete(scores) && i < k <= |DIMENSIONS|
    requires c in CiteAll(x, DIMENSIONS[i], candidate, scores[DIMENSIONS[i]], Selected(QuotesOf(job.quotes, DIMENSIONS[i])))
    ensures c in Citations(x, candidate, job, scores, k)
  {
    hide CiteAll, Selected, QuotesOf;
    if i < k - 1 {
      CitedAmong(x, candidate, job, scores, k - 1, i, c);
    }
  }

  /** Every explicit requirement of the job is cited, together with the candidate's best quote for
      it and the assessment of the two. */
  lemma EveryRequirementIsCited(x: Lexicon, candidate: Document, job: Document, scores: Row, q: Quote)
    requires Complete(scores) && q in job.quotes && Explicit(q)
    ensures q.dimension in scores
    ensures Cite(x, q.dimension, candidate, scores[q.dimension], q) in AllCitations(x, candidate, job, scores)
  {
    hide Cite;
    AllDimensions(q.dimension);
    var i :| 0 <= i < |DIMENSIONS| && DIMENSIONS[i] == q.dimension;
    QuotesOfMember(job.quotes, q.dimension, q);
    ExplicitMember(QuotesOf(job.quotes, q.dimension), q);
    CitedMember(x, q.dimension, candidate, scores[q.dimension], Selected(QuotesOf(job.quotes, q.dimension)), q);
    CitedAmong(x, candidate, job, scores, |DIMENSIONS|, i, Cite(x, q.dimension, candidate, scores[q.dimension], q));
  }

  lemma {:induction false} FirstOfDimension(quotes: seq<Quote>, d: Dimension, i: nat)
    requires i < |quotes| && quotes[i].dimension == d
    requires forall k :: 0 <= k < i ==> quotes[k].dimension != d
    ensures QuotesOf(quotes, d) != [] && QuotesOf(quotes, d)[0] == quotes[i]
  {
    if i > 0 {
      FirstOfDimension(quotes[1..], d, i - 1);
    }
  }

  /** Where the job has no explicit requirement, the first thing it says is cited. */
  lemma TheFirstQuoteIsCited(x: Lexicon, candidate: Document, job: Document, scores: Row, i: nat)
    requires Complete(scores) && i < |job.quotes|
    requires var d := job.quotes[i].dimension;
      && (forall k :: 0 <= k < i ==> job.quotes[k].dimension != d)
      && (forall q :: q in job.quotes && q.dimension == d ==> !Explicit(q))
    ensures job.quotes[i].dimension in scores
    ensures Cite(x, job.quotes[i].dimension, candidate, scores[job.quotes[i].dimension], job.quotes[i])
      in AllCitations(x, candidate, job, scores)
  {
    hide Cite, Explicit, QuotesOf, OnlyExplicit;
    var q, d := job.quotes[i], job.quotes[i].dimension;
    var own := QuotesOf(job.quotes, d);
    AllDimensions(d);
    FirstOfDimension(job.quotes, d, i);
    if OnlyExplicit(own) != [] {
      ExplicitOnly(own, OnlyExplicit(own)[0]);
      QuotesOfMember(job.quotes, d, OnlyExplicit(own)[0]);
    }
    assert Selected(own) == [q];
    CitedMember(x, d, candidate, scores[d], [q], q);
    var j :| 0 <= j < |DIMENSIONS| && DIMENSIONS[j] == d;
    CitedAmong(x, candidate, job, scores, |DIMENSIONS|, j, Cite(x, d, candidate, scores[d], q));
  }

  /** What a citation of one dimension may be: of an explicit requirement, or of the first thing the
      job says when it has none; against a quote of the candidate, or the lack of one. */
  predicate IsOfJob(x: Lexicon, candidate: Document, job: Document, scores: Row, c: Citation)
    requires Complete(scores)
  {
    && c.dimension in scores
    && c.job in job.quotes && c.job.dimension == c.dimension
    && (Explicit(c.job) || forall q :: q in job.quotes && q.dimension == c.dimension ==> !Explicit(q))
    && (if forall q :: q in candidate.quotes ==> q.dimension != c.dimension
        then c.candidate == NoEvidence(c.dimension)
        else c.candidate in candidate.quotes && c.candidate.dimension == c.dimension)
    && c.assessment == Assess(x, c.dimension, scores[c.dimension], c.job, c.candidate)
  }

  lemma {:induction false} ExplicitOnly(quotes: seq<Quote>, q: Quote)
    ensures q in OnlyExplicit(quotes) <==> q in quotes && Explicit(q)
  {
    if quotes != [] {
      ExplicitOnly(quotes[1..], q);
      assert q in quotes <==> q == quotes[0] || q in quotes[1..];
    }
  }

  lemma {:induction false} CitedFrom(x: Lexicon, d: Dimension, candidate: Document, score: int, quotes: seq<Quote>, c: Citation)
    requires c in CiteAll(x, d, candidate, score, quotes)
    ensures c.job in quotes && c == Cite(x, d, candidate, score, c.job)
  {
    hide Cite;
    var front, last := quotes[..|quotes| - 1], quotes[|quotes| - 1];
    if c in CiteAll(x, d, candidate, score, front) {
      CitedFrom(x, d, candidate, score, front, c);
    } else {
      assert c == Cite(x, d, candidate, score, last) && c.job == last by { CiteIsOf(x, d, candidate, score, last); }
    }
  }

  lemma CiteIsOf(x: Lexicon, d: Dimension, candidate: Document, score: int, j: Quote)
    ensures Cite(x, d, candidate, score, j).job == j
  {
  }

  lemma SelectedOfJob(quotes: seq<Quote>, d: Dimension, j: Quote)
    requires j in Selected(QuotesOf(quotes, d))
    ensures j in quotes && j.dimension == d
    ensures Explicit(j) || forall q :: q in quotes && q.dimension == d ==> !Explicit(q)
  {
    hide QuotesOf, OnlyExplicit;
    var own := QuotesOf(quotes, d);
    ExplicitOnly(own, j);
    QuotesOfMember(quotes, d, j);
    forall q | q in quotes && q.dimension == d && !Explicit(j) ensures !Explicit(q) {
      QuotesOfMember(quotes, d, q);
      ExplicitOnly(own, q);
    }
  }

  lemma CitedIsOfJob(x: Lexicon, d: Dimension, candidate: Document, job: Document, scores: Row, c: Citation)
    requires Complete(scores) && d in scores
    requires c in CiteAll(x, d, candidate, scores[d], Selected(QuotesOf(job.quotes, d)))
    ensures c.dimension == d && IsOfJob(x, candidate, job, scores, c)
  {
    hide QuotesOf, Selected, Assess, Explicit;
    CitedFrom(x, d, candidate, scores[d], Selected(QuotesOf(job.quotes, d)), c);
    SelectedOfJob(job.quotes, d, c.job);
    var own := QuotesOf(candidate.quotes, d);
    forall q ensures q in own <==> q in candidate.quotes && q.dimension == d {
      QuotesOfMember(candidate.quotes, d, q);
    }
    if own != [] {
      assert own[0] in own;
      BestIsBest(x, d, c.job, own, own[0]);
    }
  }

  /** Nothing else is cited. */
  lemma {:induction false} CitationsAreOfTheJob(x: Lexicon, candidate: Document, job: Document, scores: Row, k: nat, c: Citation)
    requires Complete(scores) && k <= |DIMENSIONS| && c in Citations(x, candidate, job, scores, k)
    ensures IsOfJob(x, candidate, job, scores, c)
  {
    hide CiteAll, Selected, QuotesOf, IsOfJob;
    var d := DIMENSIONS[k - 1];
    if c in CiteAll(x, d, candidate, scores[d], Selected(QuotesOf(job.quotes, d))) {
      CitedIsOfJob(x, d, candidate, job, scores, c);
    } else {
      CitationsAreOfTheJob(x, candidate, job, scores, k - 1, c);
    }
  }

  // ---- The outcome ----

  predicate AtRisk(citations: seq<Citation>, d: Dimension) {
    exists c :: c in citations && c.assessment == Risk && c.dimension == d
  }

  function UnderCap(score: int, d: Dimension, citations: seq<Citation>): int {
    if AtRisk(citations, d) && RiskCap(d).Some? then Min(score, RiskCap(d).value) else score
  }

  function VisibleScore(scores: Row, citations: seq<Citation>): int
    requires Complete(scores)
  {
    UnderCap(UnderCap(UnderCap(RowScore(scores), Intent, citations), Language, citations), Qualification, citations)
  }

  predicate AllInsufficient(citations: seq<Citation>) {
    citations != [] && forall c :: c in citations ==> c.assessment == Insufficient
  }

  /** `derive_match_outcome` */
  function Derived(scores: Row, citations: seq<Citation>): Outcome
    requires Complete(scores)
  {
    var score := VisibleScore(scores, citations);
    var recommendation :=
      if AllInsufficient(citations) then InsufficientEvidence
      else if score >= 80 then StrongFit
      else if score >= 55 then Consider
      else WeakFit;
    Outcome(score, recommendation, score >= 65 && (recommendation == StrongFit || recommendation == Consider))
  }

  /** The visible score is the score of the row, or the lowest of the caps 20, 30 and 40 whose
      dimension is at risk, whichever is less; the recommendation goes by 55 and 80, and the
      verdict by 65, unless every citation is inconclusive. */
  lemma DerivedExactly(scores: Row, citations: seq<Citation>)
    requires Complete(scores)
    ensures var o, s := Derived(scores, citations), RowScore(scores);
            var i, l, q := AtRisk(citations, Intent), AtRisk(citations, Language), AtRisk(citations, Qualification);
            var known := exists c :: c in citations && c.assessment != Insufficient;
      && o.score <= s && (i ==> o.score <= 20) && (l ==> o.score <= 30) && (q ==> o.score <= 40)
      && (o.score == s || (i && o.score == 20) || (l && o.score == 30) || (q && o.score == 40))
      && (o.recommendation == InsufficientEvidence <==> citations != [] && !known)
      && (o.recommendation == StrongFit <==> o.score >= 80 && (citations == [] || known))
      && (o.recommendation == Consider <==> 55 <= o.score < 80 && (citations == [] || known))
      && (o.recommendation == WeakFit <==> o.score < 55 && (citations == [] || known))
      && (o.worth <==> o.score >= 65 && (citations == [] || known))
  {
    hide RowScore, AtRisk;
  }

  // ---- What the policy and the outcome guarantee together ----

  predicate Demanded(job: Document, d: Dimension) {
    exists q :: q in job.quotes && q.dimension == d && q.status == Required && q.positive
  }

  lemma RiskCapsBite(scores: Row, citations: seq<Citation>, d: Dimension)
    requires Complete(scores) && RiskCap(d).Some? && AtRisk(citations, d)
    ensures VisibleScore(scores, citations) <= RiskCap(d).value
    ensures !AllInsufficient(citations)
  {
    hide RowScore, AtRisk;
    assert d == Intent || d == Language || d == Qualification;
    RiskIsSufficient(citations, d);
  }

  lemma RiskIsSufficient(citations: seq<Citation>, d: Dimension)
    requires AtRisk(citations, d)
    ensures !AllInsufficient(citations)
  {
  }

  lemma MismatchIsCapped(x: Lexicon, candidate: Document, job: Document, row: Row, d: Dimension)
    requires Mismatched(x, d, candidate, job) && Demanded(job, d)
    ensures d in EnforcedRow(x, candidate, job, row)
    ensures EnforcedRow(x, candidate, job, row)[d] <= MandatoryCap(d)
  {
    hide Mismatched, EnforcedRow, HasSupport;
    var q :| q in job.quotes && q.dimension == d && q.status == Required && q.positive;
    QuotesOfMember(job.quotes, d, q);
    assert !Silent(d, job);
    EnforcedWithin(x, candidate, job, row, d);
  }

  /** A mandatory language or qualification the candidate lacks, asked for by a required and
      positive quote of the job, decides the visible outcome, whatever the model proposed: at most
      30 or 40, a weak fit, not worth applying. */
  lemma MandatoryMismatchIsVisible(x: Lexicon, candidate: Document, job: Document, row: Row, d: Dimension)
    requires d == Language || d == Qualification
    requires Mismatched(x, d, candidate, job) && Demanded(job, d)
    ensures var scores := EnforcedRow(x, candidate, job, row);
            var o := Derived(scores, AllCitations(x, candidate, job, scores));
            && o.score <= (if d == Language then 30 else 40)
            && o.recommendation == WeakFit && !o.worth
  {
    hide EnforcedRow, Citations, Mismatched, VisibleScore, AllInsufficient, Best;
    var scores := EnforcedRow(x, candidate, job, row);
    MismatchIsCapped(x, candidate, job, row, d);
    var q :| q in job.quotes && q.dimension == d && q.status == Required && q.positive;
    var citations := AllCitations(x, candidate, job, scores);
    EveryRequirementIsCited(x, candidate, job, scores, q);
    assert Cite(x, d, candidate, scores[d], q).assessment == Risk;
    RiskCapsBite(scores, citations, d);
  }

  /** A strong fit is backed by two distinct pairs of quotes in dimensions that stand above 55. */
  lemma StrongFitsAreSupported(x: Lexicon, candidate: Document, job: Document, row: Row, citations: seq<Citation>)
    requires Derived(EnforcedRow(x, candidate, job, row), citations).recommendation == StrongFit
    ensures |SupportPairs(x, candidate, job, EnforcedRow(x, candidate, job, row))| >= 2
  {
    hide EnforcedRow, RowScore, AtRisk, AllInsufficient;
    HighRowsAreSupported(x, candidate, job, row);
  }

  lemma {:induction false} RisksHaveCaps(x: Lexicon, d: Dimension, candidate: Document, score: int, quotes: seq<Quote>, c: Citation)
    requires c in CiteAll(x, d, candidate, score, quotes)
    ensures c.dimension == d
    ensures c.assessment == Risk ==> RiskCap(d).Some? && score <= RiskCap(d).value && c.job.positive
  {
    hide Best;
    if c in CiteAll(x, d, candidate, score, quotes[..|quotes| - 1]) {
      RisksHaveCaps(x, d, candidate, score, quotes[..|quotes| - 1], c);
    }
  }

  lemma {:induction false} RiskyCitation(x: Lexicon, candidate: Document, job: Document, scores: Row, k: nat, c: Citation)
    requires Complete(scores) && k <= |DIMENSIONS| && c in Citations(x, candidate, job, scores, k)
    ensures c.dimension in scores
    ensures c.assessment == Risk ==> RiskCap(c.dimension).Some? && scores[c.dimension] <= RiskCap(c.dimension).value
  {
    hide CiteAll, Selected, QuotesOf;
    AllDimensions(c.dimension);
    var d := DIMENSIONS[k - 1];
    if c in CiteAll(x, d, candidate, scores[d], Selected(QuotesOf(job.quotes, d))) {
      RisksHaveCaps(x, d, candidate, scores[d], Selected(QuotesOf(job.quotes, d)), c);
    } else {
      RiskyCitation(x, candidate, job, scores, k - 1, c);
    }
  }

  /** A row is marked worth applying only when no citation at all is a risk, and not every
      citation is inconclusive. */
  lemma WorthMeansNoRisk(x: Lexicon, candidate: Document, job: Document, scores: Row, c: Citation)
    requires Complete(scores)
    requires Derived(scores, AllCitations(x, candidate, job, scores)).worth
    requires c in AllCitations(x, candidate, job, scores)
    ensures c.assessment != Risk && !AllInsufficient(AllCitations(x, candidate, job, scores))
  {
    hide Citations, VisibleScore;
    RiskyCitation(x, candidate, job, scores, |DIMENSIONS|, c);
    if c.assessment == Risk {
      assert AtRisk(AllCitations(x, candidate, job, scores), c.dimension);
      RiskCapsBite(scores, AllCitations(x, candidate, job, scores), c.dimension);
    }
  }
}
