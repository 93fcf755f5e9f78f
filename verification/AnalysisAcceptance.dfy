/**
 Accepting a match analysis (backend/agent_work/analysis_acceptance.py): the job's analysis
 columns are wiped and rewritten from the reviewed proposal.
 */
module AnalysisAcceptance {
  import opened Wrappers
  import opened WorkTypes
  import opened WorkContext
  import opened WorkDatabase
  import opened WorkValidation

  const EXTERNAL := "external_agent_proposal"

  /** The columns the handler clears, in its order. */
  const CLEARED := [
    AffinityScore, AffinityAnalysis, WorthApplying, SkillMatchScore, ExperienceMatchScore,
    IntentMatchScore, LanguageMatchScore, LocationMatchScore, TransferabilityScore,
    QualificationGapScore, AnalysisStructured, AnalysisProvenance, AnalysisModelId,
    AnalysisContractVersion, AnalysisValidatedAt, AnalysisExecutionId, AnalysisOutputFingerprint,
    AnalysisRowFingerprint, AnalysisExecutionRowIndex, AnalysisInputFingerprint,
    AnalysisLegacySnapshot, RedFlags]

  function Worth(payload: Payload): bool
    requires payload.Analysis?
  {
    && Eligibility(payload.gates) == Eligible
    && (payload.recommendation == StrongFit || payload.recommendation == Consider)
  }

  function StructuredOf(req: Request, p: Proposal, payload: Payload): Structured
    requires payload.Analysis?
  {
    Structured(payload.recommendation, payload.gates, payload.claims, payload.scores, "external_agent",
               req.target.request, p.id, p.grant, req.inputs.digest, p.digest)
  }

  /** The whole assessment a proposal stands for. */
  function AssessmentOf(req: Request, p: Proposal, payload: Payload, now: Instant): Assessment
    requires payload.Analysis?
  {
    map[AffinityScore := Number(payload.scores.overall),
        WorthApplying := Flag(Worth(payload)),
        AnalysisProvenance := Text(EXTERNAL),
        AnalysisModelId := Text(p.author),
        AnalysisContractVersion := Text("1.0"),
        AnalysisValidatedAt := Moment(now),
        AnalysisStructured := Details(StructuredOf(req, p, payload)),
        SkillMatchScore := Number(payload.scores.role),
        ExperienceMatchScore := Number(payload.scores.requirements),
        LanguageMatchScore := Number(payload.scores.language),
        LocationMatchScore := Number(payload.scores.location),
        AffinityAnalysis := Summary(payload.recommendation, payload.scores.overall)]
  }

  /** Every column of an accepted analysis: the four scores that have a column, the overall one, the
      verdict and where it all comes from; the columns of the local analysis stay empty. */
  lemma AssessmentSaysExactly(req: Request, p: Proposal, payload: Payload, now: Instant)
    requires payload.Analysis?
    ensures var a, s := AssessmentOf(req, p, payload, now), payload.scores;
      && a.Keys == {AffinityScore, WorthApplying, AnalysisProvenance, AnalysisModelId, AnalysisContractVersion,
                    AnalysisValidatedAt, AnalysisStructured, SkillMatchScore, ExperienceMatchScore, LanguageMatchScore,
                    LocationMatchScore, AffinityAnalysis}
      && a[AffinityScore] == Number(s.overall) && a[SkillMatchScore] == Number(s.role)
      && a[ExperienceMatchScore] == Number(s.requirements) && a[LanguageMatchScore] == Number(s.language)
      && a[LocationMatchScore] == Number(s.location)
      && a[AffinityAnalysis] == Summary(payload.recommendation, s.overall)
      && (a[WorthApplying] == Flag(true) || a[WorthApplying] == Flag(false))
      && (a[WorthApplying] == Flag(true) <==>
            && payload.recommendation in {StrongFit, Consider}
            && forall g :: g in payload.gates ==> g.status == Eligible && g.unknowns == [])
      && a[AnalysisProvenance] == Text("external_agent_proposal") && a[AnalysisModelId] == Text(p.author)
      && a[AnalysisContractVersion] == Text("1.0") && a[AnalysisValidatedAt] == Moment(now)
    ensures var a := AssessmentOf(req, p, payload, now);
      && AnalysisStructured in a && a[AnalysisStructured].Details?
      && var d := a[AnalysisStructured].d;
      && d.recommendation == payload.recommendation && d.gates == payload.gates && d.claims == payload.claims
      && d.scores == payload.scores && d.source == "external_agent"
      && d.request == req.target.request && d.proposal == p.id && d.grant == p.grant
      && d.inputDigest == req.inputs.digest && d.payloadDigest == p.digest
  {
  }

  lemma EveryColumnIsCleared(c: Column)
    ensures c in CLEARED
  {
    var order := [
      AffinityScore, AffinityAnalysis, WorthApplying, SkillMatchScore, ExperienceMatchScore,
      IntentMatchScore, LanguageMatchScore, LocationMatchScore, TransferabilityScore,
      QualificationGapScore, AnalysisStructured];
    assert CLEARED[..11] == order;
    assert c in CLEARED[..11] || c in CLEARED[11..];
  }

  predicate HasJob(v: Vault, req: Request) {
    req.target.job.Some? && OwnedJob(v, req.target.user, req.target.job.value).Some?
  }

  /** `accept_analysis_flush_only`. Nothing of an earlier analysis is left: the new assessment is
      the same whatever the old one was. */
  method AcceptAnalysis(s: Session, req: Request, p: Proposal, payload: Payload, now: Instant)
    returns (r: Outcome<()>)
    requires payload.Analysis?
    modifies s
    ensures s.committed == old(s.committed)
    ensures r.Ok? <==> HasJob(old(s.db).vault, req)
    ensures r.Err? ==> r.code == WorkNotFound && s.db == old(s.db)
    ensures r.Ok? ==> s.db == old(s.db).(vault :=
      Assessed(old(s.db).vault, req.target.job.value, AssessmentOf(req, p, payload, now)))
  {
    var v := s.db.vault;
    if !HasJob(v, req) {
      return Err(WorkNotFound);
    }
    var id := req.target.job.value;
    var job := v.jobs[id];
    for i := 0 to |CLEARED|
      invariant job == v.jobs[id].(assessment := job.assessment)
      invariant forall k :: 0 <= k < i ==> CLEARED[k] !in job.assessment
    {
      job := job.(assessment := job.assessment - {CLEARED[i]});
    }
    forall c: Column ensures c !in job.assessment {
      EveryColumnIsCleared(c);
    }
    assert job.assessment == map[];
    var scores := payload.scores;
    var a: Assessment := job.assessment;
    a := a[AffinityScore := Number(scores.overall)];
    a := a[WorthApplying := Flag(Worth(payload))];
    a := a[AnalysisProvenance := Text(EXTERNAL)];
    a := a[AnalysisModelId := Text(p.author)];
    a := a[AnalysisContractVersion := Text("1.0")];
    a := a[AnalysisValidatedAt := Moment(now)];
    a := a[AnalysisStructured := Details(StructuredOf(req, p, payload))];
    a := a[SkillMatchScore := Number(scores.role)];
    a := a[ExperienceMatchScore := Number(scores.requirements)];
    a := a[LanguageMatchScore := Number(scores.language)];
    a := a[LocationMatchScore := Number(scores.location)];
    a := a[AffinityAnalysis := Summary(payload.recommendation, payload.scores.overall)];
    s.db := s.db.(vault := v.(jobs := v.jobs[id := job.(assessment := a)]));
    return Ok(());
  }
}
