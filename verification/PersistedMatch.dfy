/**
 What is stored and shown of a match, and the check it has to pass before it is trusted again
 (backend/ai/matching.py:116-180, match_policy.py:467-553, attestation.py:56-89): the scores carry
 a fingerprint, and everything else on display is derived from the scores and the citations.
 */
module PersistedMatch {
  import opened Wrappers
  import opened MatchPolicy
  import opened MatchOutcome

  /** The summary sentence: the recommendation, three counts and the cited dimensions. */
  datatype Narrative = Narrative(
    recommendation: Recommendation, strengths: nat, gaps: nat, risks: nat, dimensions: set<Dimension>)

  /** A stored row; a score that is missing or no whole number has no entry, and None stands for
      any other value of the wrong type. */
  datatype Persisted = Persisted(
    scores: Row, fingerprint: string, citations: Option<seq<Citation>>,
    affinity: Option<real>, worth: Option<bool>, recommendation: Option<Recommendation>,
    narrative: Option<Narrative>, flags: Option<seq<Dimension>>)

  // ---- The presentation ----

  function Count(citations: seq<Citation>, a: Assessment): nat {
    if citations == [] then 0
    else Count(citations[..|citations| - 1], a) + (if citations[|citations| - 1].assessment == a then 1 else 0)
  }

  /** The dimensions at risk, in the order of their first citation. */
  function Flags(citations: seq<Citation>): seq<Dimension> {
    if citations == [] then []
    else
      var front, last := Flags(citations[..|citations| - 1]), citations[|citations| - 1];
      if last.assessment == Risk && last.dimension !in front then front + [last.dimension] else front
  }

  function NarrativeOf(r: Recommendation, citations: seq<Citation>): Narrative {
    Narrative(r, Count(citations, Strength), Count(citations, Weakness) + Count(citations, Gap),
              Count(citations, Risk), set c | c in citations :: c.dimension)
  }

  function FlagsOf(citations: seq<Citation>): Option<seq<Dimension>> {
    if Flags(citations) == [] then None else Some(Flags(citations))
  }

  /** `derive_match_presentation` */
  method DeriveMatchPresentation(r: Recommendation, citations: seq<Citation>)
    returns (summary: Narrative, flags: Option<seq<Dimension>>)
    ensures summary == NarrativeOf(r, citations) && flags == FlagsOf(citations)
  {
    var strengths, weaknesses, gaps, risks, found := 0, 0, 0, 0, [];
    for k := 0 to |citations|
      invariant strengths == Count(citations[..k], Strength) && weaknesses == Count(citations[..k], Weakness)
      invariant gaps == Count(citations[..k], Gap) && risks == Count(citations[..k], Risk)
      invariant found == Flags(citations[..k])
    {
      assert citations[..k + 1][..k] == citations[..k];
      var c := citations[k];
      match c.assessment {
        case Strength => strengths := strengths + 1;
        case Weakness => weaknesses := weaknesses + 1;
        case Gap => gaps := gaps + 1;
        case Risk => risks := risks + 1;
        case Insufficient =>
      }
      if c.assessment == Risk && c.dimension !in found {
        found := found + [c.dimension];
      }
    }
    assert citations[..|citations|] == citations;
    summary := Narrative(r, strengths, weaknesses + gaps, risks, set c | c in citations :: c.dimension);
    flags := if found == [] then None else Some(found);
  }

  /** A dimension is flagged exactly when some citation of it is a risk, and never twice. */
  lemma {:induction false} FlaggedIffAtRisk(citations: seq<Citation>, d: Dimension)
    ensures d in Flags(citations) <==> AtRisk(citations, d)
    ensures forall j, k :: 0 <= j < k < |Flags(citations)| ==> Flags(citations)[j] != Flags(citations)[k]
  {
    if citations != [] {
      var front, last := citations[..|citations| - 1], citations[|citations| - 1];
      assert citations == front + [last];
      FlaggedIffAtRisk(front, d);
      if last.assessment == Risk {
        assert last in citations;
      }
    }
  }

  // ---- Storing and checking ----

  /** What is stored for a row with these scores and citations. */
  function Shown(hash: Row -> string, scores: Row, citations: seq<Citation>): Persisted
    requires Complete(scores)
  {
    var o := Derived(scores, citations);
    Persisted(scores, hash(scores), Some(citations), Some(o.score as real), Some(o.worth), Some(o.recommendation),
              Some(NarrativeOf(o.recommendation, citations)), FlagsOf(citations))
  }

  /** `persisted_outcome_is_consistent` */
  predicate Consistent(p: Persisted, citations: seq<Citation>)
    requires Complete(p.scores)
  {
    var expected := Derived(p.scores, citations);
    && p.affinity == Some(expected.score as real)
    && p.worth == Some(expected.worth)
    && p.recommendation == Some(expected.recommendation)
  }

  /** `validate_persisted_match_payload` */
  predicate Valid(hash: Row -> string, p: Persisted) {
    && Complete(p.scores) && InRange(p.scores)
    && p.fingerprint == hash(p.scores)
    && p.citations.Some? && Consistent(p, p.citations.value)
    && p.narrative == Some(NarrativeOf(p.recommendation.value, p.citations.value))
    && p.flags == FlagsOf(p.citations.value)
  }

  ghost predicate Injective(hash: Row -> string) {
    forall a, b :: hash(a) == hash(b) ==> a == b
  }

  /** The rows that pass are exactly those that are stored for some scores on the scale. */
  lemma ValidIffShown(hash: Row -> string, p: Persisted)
    ensures Valid(hash, p) <==>
      exists scores, citations | Complete(scores) && InRange(scores) :: p == Shown(hash, scores, citations)
  {
    hide Derived, NarrativeOf, FlagsOf;
    if Valid(hash, p) {
      assert p == Shown(hash, p.scores, p.citations.value);
    }
  }

  /** Tampering shows: of two rows that pass with the same fingerprint and the same citations none
      differs from the other in anything, so a row of which a score, the total, the verdict, the
      recommendation, the summary or the flags were changed is found out. */
  lemma FingerprintFixesTheRow(hash: Row -> string, p: Persisted, q: Persisted)
    requires Injective(hash) && Valid(hash, p)
    requires q.fingerprint == p.fingerprint && q.citations == p.citations
    ensures Valid(hash, q) <==> q == p
  {
    hide Derived, NarrativeOf, FlagsOf;
  }

  /** Whatever the local model proposed, the row stored for it passes the check, and what passes
      under its fingerprint and citations keeps the bounds of the policy: a mandatory language or
      qualification that is missing shows as at most 30 or 40, a weak fit and not worth applying;
      a strong fit has two distinct supporting pairs; and what is worth applying has no flag. */
  lemma StoredRowsKeepTheBounds(hash: Row -> string, x: Lexicon, candidate: Document, job: Document, row: Row, q: Persisted)
    requires Injective(hash)
    requires var scores := EnforcedRow(x, candidate, job, row);
      q.fingerprint == hash(scores) && q.citations == Some(AllCitations(x, candidate, job, scores))
    ensures var scores := EnforcedRow(x, candidate, job, row);
      Valid(hash, Shown(hash, scores, AllCitations(x, candidate, job, scores)))
    ensures Valid(hash, q) ==>
      && (forall d :: d in {Language, Qualification} && Mismatched(x, d, candidate, job) && Demanded(job, d) ==>
            && q.affinity.value <= (if d == Language then 30.0 else 40.0)
            && q.recommendation == Some(WeakFit) && q.worth == Some(false))
      && (q.recommendation == Some(StrongFit) ==> |SupportPairs(x, candidate, job, q.scores)| >= 2)
      && (q.worth == Some(true) ==> q.flags == None)
  {
    hide EnforcedRow, Derived, NarrativeOf, Mismatched, Citations, SupportPairs, Demanded;
    var scores := EnforcedRow(x, candidate, job, row);
    var citations := AllCitations(x, candidate, job, scores);
    EnforcedInRange(x, candidate, job, row);
    if Valid(hash, q) {
      forall d | d in {Language, Qualification} && Mismatched(x, d, candidate, job) && Demanded(job, d)
        ensures q.affinity.value <= (if d == Language then 30.0 else 40.0)
        ensures q.recommendation == Some(WeakFit) && q.worth == Some(false)
      {
        MandatoryMismatchIsVisible(x, candidate, job, row, d);
      }
      if q.recommendation == Some(StrongFit) {
        StrongFitsAreSupported(x, candidate, job, row, citations);
      }
      if q.worth == Some(true) && Flags(citations) != [] {
        var d := Flags(citations)[0];
        FlaggedIffAtRisk(citations, d);
        var c :| c in citations && c.assessment == Risk && c.dimension == d;
        WorthMeansNoRisk(x, candidate, job, scores, c);
      }
    }
  }
}
