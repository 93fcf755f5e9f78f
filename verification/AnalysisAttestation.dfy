/**
 Attestation of an external match analysis (backend/ai/attestation.py): what is displayed on a
 job is trusted only if it is, column for column, what an accepted proposal for that job says,
 and that proposal's frozen inputs are still the current ones.
 */
module AnalysisAttestation {
  import opened Wrappers
  import opened WorkTypes
  import opened WorkContext
  import opened WorkValidation
  import opened AnalysisAcceptance
  import opened WorkLifecycle
  import opened WorkRuns
  import opened WorkTheorems
  import opened WorkExamples

  function Read(a: Assessment, c: Column): Option<Value> {
    if c in a then Some(a[c]) else None
  }

  /** The columns the attestation looks at. */
  const ATTESTED := {AffinityScore, WorthApplying, AnalysisProvenance, AnalysisStructured, AnalysisExecutionId}

  predicate SameAttested(a: Assessment, b: Assessment) {
    forall c :: c in ATTESTED ==> Read(a, c) == Read(b, c)
  }

  /** `is_external_agent_match_attested` */
  predicate Attested(o: Services, db: Db, job: Id, a: Assessment, user: Id) {
    && Read(a, AnalysisProvenance) == Some(Text(EXTERNAL))
    && Read(a, AnalysisStructured).Some? && a[AnalysisStructured].Details?
    && var d := a[AnalysisStructured].d;
       && d.source == "external_agent"
       && Backs(db, job, d.request, user)
       && db.proposals[d.request].id == d.proposal
       && db.requests[d.request].receipt.value.proposal == d.proposal
       && Matches(o, db, a, d)
  }

  /** The row lookups: an accepted analysis of this job by this user, with its proposal. */
  predicate Backs(db: Db, job: Id, request: Id, user: Id) {
    && request in db.requests && request in db.proposals
    && db.requests[request].target.user == user
    && db.requests[request].state == Accepted
    && db.requests[request].target.kind == Analyze
    && db.requests[request].target.job == Some(job)
    && db.requests[request].receipt.Some?
  }

  /** The recomputation: the stored proposal is reviewed again, its inputs are compared with the
      current ones and its digest is checked, and then every displayed value is compared. */
  predicate Matches(o: Services, db: Db, a: Assessment, d: Structured)
    requires d.request in db.requests && d.request in db.proposals
  {
    var r := db.requests[d.request];
    var p := db.proposals[d.request];
    var payload := Reviewed(o, r.context, p.payload);
    && payload.Ok? && payload.value.Analysis?
    && CurrentInputs(o, db.vault, r.target) == Some(r.inputs)
    && o.payloadDigest(payload.value) == p.digest
    && d == StructuredOf(r, p, payload.value)
    && Read(a, AffinityScore) == Some(Number(FitScore(payload.value.scores)))
    && Read(a, WorthApplying) == Some(Flag(Worth(payload.value)))
    && Read(a, AnalysisExecutionId) == None
  }

  /** A request whose accepted proposal may be shown on this job now. */
  predicate Vouches(o: Services, db: Db, job: Id, request: Id, user: Id) {
    && Backs(db, job, request, user)
    && db.requests[request].receipt.value.proposal == db.proposals[request].id
    && db.requests[request].target.request == request
    && CurrentInputs(o, db.vault, db.requests[request].target) == Some(db.requests[request].inputs)
    && Restored(o, db, db.requests[request], request).Ok?
    && Restored(o, db, db.requests[request], request).value.Analysis?
  }

  /** What such a proposal says about the job. */
  function Testimony(o: Services, db: Db, job: Id, request: Id, user: Id): Assessment
    requires Vouches(o, db, job, request, user)
  {
    AssessmentOf(db.requests[request], db.proposals[request],
                 Restored(o, db, db.requests[request], request).value, 0)
  }

  lemma ReviewedAnalysisShape(o: Services, c: Context, p: Payload)
    requires Reviewed(o, c, p).Ok? && Reviewed(o, c, p).value.Analysis?
    ensures p.Analysis? && Gated(o, c, p.gates, p.scores, SourceOf(c.advert)) == Ok(Reviewed(o, c, p).value.scores)
    ensures Reviewed(o, c, p).value == p.(scores := Reviewed(o, c, p).value.scores)
  {
    hide Gated, ClaimStands, Eligibility, ReviewedListings;
  }

  lemma ReviewedScores(o: Services, c: Context, p: Payload)
    requires Reviewed(o, c, p).Ok? && Reviewed(o, c, p).value.Analysis?
    ensures Reviewed(o, c, p).value.scores.overall == FitScore(Reviewed(o, c, p).value.scores)
  {
    hide Reviewed, FirstFault, OneGatePerDimension;
    ReviewedAnalysisShape(o, c, p);
    ScoringIsIdempotent(p.scores);
  }

  /** An analysis is attested exactly when it agrees, on every column the check reads, with what
      some accepted and still current proposal for the job says. */
  lemma AttestedIffVouchedFor(o: Services, db: Db, job: Id, a: Assessment, user: Id)
    requires DbOk(db)
    ensures Attested(o, db, job, a, user) <==>
      exists r :: Vouches(o, db, job, r, user) && SameAttested(a, Testimony(o, db, job, r, user))
  {
    hide Reviewed, CurrentInputs, StructuredOf, Worth, DbOk;
    if Attested(o, db, job, a, user) {
      var d := a[AnalysisStructured].d;
      RequestNamesItself(db, d.request);
      ReviewedScores(o, db.requests[d.request].context, db.proposals[d.request].payload);
      assert Vouches(o, db, job, d.request, user);
      assert SameAttested(a, Testimony(o, db, job, d.request, user));
    }
    if r :| Vouches(o, db, job, r, user) && SameAttested(a, Testimony(o, db, job, r, user)) {
      TestimonyIsAttested(o, db, job, a, user, r);
    }
  }

  /** What an attested analysis is: there is a request of this user to analyze this very job, which was
      accepted; its proposal is the one of the receipt, passes review once more under its digest,
      and was made from inputs that are still current; and the score, the verdict and the details
      on display are its own, in full, and say that they come from outside. */
  lemma AttestedMeans(o: Services, db: Db, job: Id, a: Assessment, user: Id)
    requires Attested(o, db, job, a, user)
    ensures exists r :: IsAcceptedFor(o, db, job, r, user) && ShowsProposal(o, db, a, r)
  {
    hide Reviewed, CurrentInputs;
    var r := a[AnalysisStructured].d.request;
    assert IsAcceptedFor(o, db, job, r, user) && ShowsProposal(o, db, a, r) by {
      ReviewedScores(o, db.requests[r].context, db.proposals[r].payload);
    }
  }

  predicate IsAcceptedFor(o: Services, db: Db, job: Id, id: Id, user: Id) {
    && id in db.requests && id in db.proposals
    && var (r, p) := (db.requests[id], db.proposals[id]);
    && r.target.user == user && r.target.kind == Analyze && r.target.job == Some(job)
    && r.state == Accepted && r.receipt.Some? && r.receipt.value.proposal == p.id
    && CurrentInputs(o, db.vault, r.target) == Some(r.inputs)
    && var review := Reviewed(o, r.context, p.payload);
    && review.Ok? && review.value.Analysis? && o.payloadDigest(review.value) == p.digest
  }

  predicate ShowsProposal(o: Services, db: Db, a: Assessment, id: Id)
    requires id in db.requests && id in db.proposals
    requires Reviewed(o, db.requests[id].context, db.proposals[id].payload).Ok?
    requires Reviewed(o, db.requests[id].context, db.proposals[id].payload).value.Analysis?
  {
    var r, p := db.requests[id], db.proposals[id];
    var payload := Reviewed(o, r.context, p.payload).value;
    && {AnalysisProvenance, AnalysisStructured, AffinityScore, WorthApplying} <= a.Keys && AnalysisExecutionId !in a
    && a[AnalysisProvenance] == Text("external_agent_proposal")
    && a[AffinityScore] == Number(payload.scores.overall)
    && a[WorthApplying] == Flag(
         && payload.recommendation in {StrongFit, Consider}
         && forall g :: g in payload.gates ==> g.status == Eligible && g.unknowns == [])
    && a[AnalysisStructured] == Details(Structured(payload.recommendation, payload.gates, payload.claims, payload.scores,
         "external_agent", r.target.request, p.id, p.grant, r.inputs.digest, p.digest))
  }

  lemma RequestNamesItself(db: Db, id: Id)
    requires DbOk(db) && id in db.requests
    ensures db.requests[id].target.request == id
  {
    assert RowHolds(db, id);
  }

  lemma TestimonyIsAttested(o: Services, db: Db, job: Id, a: Assessment, user: Id, r: Id)
    requires Vouches(o, db, job, r, user) && SameAttested(a, Testimony(o, db, job, r, user))
    ensures Attested(o, db, job, a, user)
    ensures Read(a, AnalysisStructured).Some? && a[AnalysisStructured].Details? && a[AnalysisStructured].d.request == r
  {
    hide Reviewed, CurrentInputs, Worth;
    ReviewedScores(o, db.requests[r].context, db.proposals[r].payload);
    var t := Testimony(o, db, job, r, user);
    assert forall c :: c in ATTESTED ==> Read(a, c) == Read(t, c);
    assert Read(a, AnalysisProvenance) == Read(t, AnalysisProvenance);
    assert Read(a, AnalysisStructured) == Read(t, AnalysisStructured);
    assert Read(a, AffinityScore) == Read(t, AffinityScore);
    assert Read(a, WorthApplying) == Read(t, WorthApplying);
    assert Read(a, AnalysisExecutionId) == Read(t, AnalysisExecutionId);
  }

  lemma AttestedAgree(o: Services, db: Db, job: Id, a: Assessment, b: Assessment, user: Id)
    requires Attested(o, db, job, a, user) && Attested(o, db, job, b, user)
    requires b[AnalysisStructured].d.request == a[AnalysisStructured].d.request
    ensures SameAttested(a, b)
  {
    hide Reviewed, CurrentInputs, Worth, StructuredOf;
    forall c | c in ATTESTED ensures Read(a, c) == Read(b, c) {
      assert c == AffinityScore || c == WorthApplying || c == AnalysisProvenance || c == AnalysisStructured
          || c == AnalysisExecutionId;
    }
  }

  /** Tampering shows: a changed score, verdict, provenance or structured payload that still names
      the same request is no longer attested. */
  lemma AlterationsAreNoticed(o: Services, db: Db, job: Id, a: Assessment, b: Assessment, user: Id)
    requires Attested(o, db, job, a, user)
    requires Read(b, AnalysisStructured).Some? && b[AnalysisStructured].Details?
    requires b[AnalysisStructured].d.request == a[AnalysisStructured].d.request
    requires !SameAttested(a, b)
    ensures !Attested(o, db, job, b, user)
  {
    hide Attested, SameAttested;
    if Attested(o, db, job, b, user) {
      AttestedAgree(o, db, job, a, b, user);
    }
  }

  /** But a payload may be replaced by that of another accepted analysis of the same job: with
      the same score and verdict beside it, that one is attested too. */
  lemma SwapsAreNotNoticed(o: Services, db: Db, job: Id, a: Assessment, user: Id, other: Id)
    requires Attested(o, db, job, a, user) && Vouches(o, db, job, other, user)
    ensures var t := Testimony(o, db, job, other, user);
            (Attested(o, db, job, a[AnalysisStructured := t[AnalysisStructured]], user)
             <==> Read(a, AffinityScore) == Read(t, AffinityScore) && Read(a, WorthApplying) == Read(t, WorthApplying))
  {
    hide Reviewed, CurrentInputs, Worth, StructuredOf;
    var t := Testimony(o, db, job, other, user);
    var b := a[AnalysisStructured := t[AnalysisStructured]];
    if Read(a, AffinityScore) == Read(t, AffinityScore) && Read(a, WorthApplying) == Read(t, WorthApplying) {
      forall c | c in ATTESTED ensures Read(b, c) == Read(t, c) {
        assert c == AffinityScore || c == WorthApplying || c == AnalysisProvenance || c == AnalysisStructured
            || c == AnalysisExecutionId;
      }
      TestimonyIsAttested(o, db, job, b, user, other);
    }
    if Attested(o, db, job, b, user) {
      TestimonyIsAttested(o, db, job, t, user, other);
      AttestedAgree(o, db, job, t, b, user);
      assert Read(b, AffinityScore) == Read(a, AffinityScore) && Read(b, WorthApplying) == Read(a, WorthApplying);
      assert AffinityScore in ATTESTED && WorthApplying in ATTESTED;
    }
  }

  /** This happens in a run: two requests for the same advert have been accepted, the job shows
      the second answer, and the structured payload of the first passes in its place. */
  lemma SwappedPayloadIsAttested()
    ensures var db := Run(Strict(), Noon(), Afternoon()).db;
            && 5 in db.vault.jobs && 1 in db.requests && 1 in db.proposals
            && var a := db.vault.jobs[5].assessment;
               var d := StructuredOf(db.requests[1], db.proposals[1], Answer(1));
               && Attested(Strict(), db, 5, a, 1)
               && a[AnalysisStructured] != Details(d)
               && Attested(Strict(), db, 5, a[AnalysisStructured := Details(d)], 1)
  {
    hide Run, Afternoon, Strict, Settled, Proposed, Answer, StructuredOf, Attested, Vouches, Testimony, Verdict;
    AfternoonRuns();
    assert Desk() == Assessed(Desk(), 5, map[]);
    var a := Closed().vault.jobs[5].assessment;
    assert a == Verdict(2);
    AnswerVouches(1);
    AnswerVouches(2);
    VerdictsLookAlike();
    TestimonyIsAttested(Strict(), Closed(), 5, a, 1, 2);
    var t := Testimony(Strict(), Closed(), 5, 1, 1);
    assert AffinityScore in ATTESTED && WorthApplying in ATTESTED && AnalysisStructured in ATTESTED;
    assert Read(t, AffinityScore) == Read(Verdict(1), AffinityScore) == Read(a, AffinityScore);
    assert Read(t, WorthApplying) == Read(Verdict(1), WorthApplying) == Read(a, WorthApplying);
    assert Read(t, AnalysisStructured) == Read(Verdict(1), AnalysisStructured);
    SwapsAreNotNoticed(Strict(), Closed(), 5, a, 1, 1);
  }

  /** The two answers show the same score and verdict with different payloads. */
  lemma VerdictsLookAlike()
    ensures Read(Verdict(1), AffinityScore) == Read(Verdict(2), AffinityScore)
    ensures Read(Verdict(1), WorthApplying) == Read(Verdict(2), WorthApplying)
    ensures Read(Verdict(1), AnalysisStructured) == Some(Details(StructuredOf(Settled(1), Proposed(1), Answer(1))))
    ensures Read(Verdict(2), AnalysisStructured) != Read(Verdict(1), AnalysisStructured)
    ensures AnalysisStructured in Verdict(2)
  {
    hide Strict, Seen, SIX, Eligibility;
  }

  lemma AnswerVouches(id: Id)
    requires id == 1 || id == 2
    ensures Vouches(Strict(), Closed(), 5, id, 1)
    ensures SameAttested(Verdict(id), Testimony(Strict(), Closed(), 5, id, 1))
  {
    hide Strict, Seen, Reviewed, CurrentInputs, SIX, Eligibility, FitScore;
    DeskInputs(Closed().vault, id);
    AnswerStands(id);
  }

  // ---- Acceptance, then attestation ----

  /** The acceptance of an analysis leaves the job attested. */
  lemma AcceptThenAttest(o: Services, db: Db, row: Request, c: Call, g: Guard, now: Instant)
    requires c.Accept? && Acceptance(o, db, row, c, g, now).Ok? && row.target.kind == Analyze
    requires DbOk(db) && c.id in db.requests && SameFrozen(row, db.requests[c.id])
    ensures var written := Acceptance(o, db, row, c, g, now).value;
            var db' := AcceptedDb(db, c, written.0, written.1);
            && row.target.job.Some?
            && var job := row.target.job.value;
            && job in db'.vault.jobs
            && Vouches(o, db', job, c.id, c.user)
            && SameAttested(db'.vault.jobs[job].assessment, Testimony(o, db', job, c.id, c.user))
            && Attested(o, db', job, db'.vault.jobs[job].assessment, c.user)
  {
    hide Acceptance, Reviewed, CurrentInputs, Worth, StructuredOf, DbOk, Vouches, Testimony;
    var written := Acceptance(o, db, row, c, g, now).value;
    var db' := AcceptedDb(db, c, written.0, written.1);
    AcceptedAnalysis(o, db, row, c, g, now);
    var job := row.target.job.value;
    TestimonyAfter(o, db, row, c, g, now);
    TestimonyIsAttested(o, db', job, db'.vault.jobs[job].assessment, c.user, c.id);
  }

  lemma AcceptedAnalysis(o: Services, db: Db, row: Request, c: Call, g: Guard, now: Instant)
    requires c.Accept? && Acceptance(o, db, row, c, g, now).Ok? && row.target.kind == Analyze
    requires DbOk(db) && c.id in db.requests && SameFrozen(row, db.requests[c.id])
    ensures c.id in db.proposals && Restored(o, db, row, c.id).Ok? && Restored(o, db, row, c.id).value.Analysis?
    ensures row.target.job.Some? && row.target.job.value in db.vault.jobs
    ensures Acceptance(o, db, row, c, g, now).value.0 ==
      Assessed(db.vault, row.target.job.value,
               AssessmentOf(row, db.proposals[c.id], Restored(o, db, row, c.id).value, now))
    ensures CurrentInputs(o, db.vault, row.target) == Some(row.inputs)
    ensures db.requests[c.id].target.user == c.user && db.requests[c.id].target.request == c.id
    ensures Acceptance(o, db, row, c, g, now).value.1.proposal == db.proposals[c.id].id
  {
    hide Acceptance, CurrentInputs, Reviewed, AssessmentOf;
    AcceptanceFacts(o, db, row, c, g, now);
    RowKind(db, c.id);
    AnalysesReviewToAnalyses(o, row.context, db.proposals[c.id].payload);
  }

  lemma RowKind(db: Db, id: Id)
    requires DbOk(db) && id in db.requests
    ensures db.requests[id].target.request == id && db.requests[id].context.target == db.requests[id].target
  {
    assert RowHolds(db, id);
  }

  lemma AnalysesReviewToAnalyses(o: Services, c: Context, p: Payload)
    requires Reviewed(o, c, p).Ok? && c.target.kind == Analyze
    ensures Reviewed(o, c, p).value.Analysis?
  {
    hide Gated, ClaimStands;
  }

  lemma TestimonyAfter(o: Services, db: Db, row: Request, c: Call, g: Guard, now: Instant)
    requires c.Accept? && Acceptance(o, db, row, c, g, now).Ok? && row.target.kind == Analyze
    requires DbOk(db) && c.id in db.requests && SameFrozen(row, db.requests[c.id])
    ensures var written := Acceptance(o, db, row, c, g, now).value;
            var db' := AcceptedDb(db, c, written.0, written.1);
            && row.target.job.Some?
            && var job := row.target.job.value;
            && job in db'.vault.jobs
            && Vouches(o, db', job, c.id, c.user)
            && SameAttested(db'.vault.jobs[job].assessment, Testimony(o, db', job, c.id, c.user))
  {
    hide Acceptance, Reviewed, CurrentInputs, Worth, DbOk, Snapshot;
    AcceptedAnalysis(o, db, row, c, g, now);
    var payload := Restored(o, db, row, c.id).value;
    AssessmentsAreInvisible(o, db.vault, row.target, row.target.job.value,
                            AssessmentOf(row, db.proposals[c.id], payload, now));
    SameSnapshotSameInputs(o, db.vault, Acceptance(o, db, row, c, g, now).value.0, row.target);
  }

  lemma SameSnapshotSameInputs(o: Services, v: Vault, w: Vault, t: Target)
    requires Snapshot(o, v, t) == Snapshot(o, w, t)
    ensures CurrentInputs(o, v, t) == CurrentInputs(o, w, t)
  {
  }

  /** And it stays attested in every later state of the queue in which the job still shows the
      same analysis and the request's frozen inputs are still the current ones. */
  lemma AttestationLasts(o: Services, db: Db, later: Db, job: Id, a: Assessment, user: Id)
    requires DbOk(db) && Later(db, later) && Attested(o, db, job, a, user)
    ensures var id := a[AnalysisStructured].d.request;
            && id in db.requests
            && (Attested(o, later, job, a, user) <==>
                  CurrentInputs(o, later.vault, db.requests[id].target) == Some(db.requests[id].inputs))
  {
    hide DbOk, Reviewed, CurrentInputs, Worth, StructuredOf;
    var id := a[AnalysisStructured].d.request;
    assert RowLater(db, later, id);
  }

  lemma InvGivesRows(s: System)
    requires Inv(s)
    ensures DbOk(s.db)
  {
  }

  predicate AcceptsAnalysis(o: Services, s: System, e: Event)
    requires e.Finish? && Enabled(s, e)
  {
    var c := s.pending[e.call].call;
    && c.Accept? && FinishEffect(o, s, e.call, e.guard, e.swap).applied
    && c.id in s.db.requests && s.db.requests[c.id].target.kind == Analyze
  }

  lemma AcceptingEventAttests(o: Services, s: System, e: Event)
    requires Inv(s) && e.Finish? && Enabled(s, e) && AcceptsAnalysis(o, s, e)
    ensures var c := s.pending[e.call].call;
            var t := s.db.requests[c.id].target;
            var db := Next(o, s, e).db;
            && t.job.Some? && t.job.value in db.vault.jobs
            && Attested(o, db, t.job.value, db.vault.jobs[t.job.value].assessment, c.user)
            && db.vault.jobs[t.job.value].assessment[AnalysisStructured].d.request == c.id
            && c.id in db.requests && SameFrozen(s.db.requests[c.id], db.requests[c.id])
  {
    hide Acceptance, Attested, Vouches, Testimony, SameAttested, ReplayRefusal, Inv, Later, DbOk;
    var p := s.pending[e.call];
    var t := TimesAt(p, e.swap);
    PendingIsEarlier(s, e.call);
    AcceptedRow(o, s.db, p.seen, p.call, e.guard, t);
    var row := AcceptRow(p.seen, p.call, e.guard, t.checked).value;
    AcceptThenAttest(o, s.db, row, p.call, e.guard, t.now);
    var db := Next(o, s, e).db;
    var job := row.target.job.value;
    TestimonyIsAttested(o, db, job, db.vault.jobs[job].assessment, p.call.user, p.call.id);
  }

  lemma PendingIsEarlier(s: System, call: nat)
    requires Inv(s) && call in s.pending
    ensures DbOk(s.db) && DbOk(s.pending[call].seen) && Later(s.pending[call].seen, s.db)
  {
  }

  /** An accepted analysis, seen from any later database. */
  predicate AttestedFrom(o: Services, s: System, e: Event, later: Db)
    requires e.Finish? && Enabled(s, e) && AcceptsAnalysis(o, s, e)
  {
    var c := s.pending[e.call].call;
    var t := s.db.requests[c.id].target;
    var now := Next(o, s, e).db;
    && t.job.Some? && t.job.value in now.vault.jobs
    && (Attested(o, later, t.job.value, now.vault.jobs[t.job.value].assessment, c.user)
        <==> CurrentInputs(o, later.vault, t) == Some(s.db.requests[c.id].inputs))
  }

  lemma EventAttests(o: Services, s: System, e: Event, later: Db)
    requires Inv(s) && e.Finish? && Enabled(s, e) && AcceptsAnalysis(o, s, e)
    requires Later(Next(o, s, e).db, later)
    ensures AttestedFrom(o, s, e, later)
  {
    hide Inv, Later, Attested, CurrentInputs, FinishEffect;
    AcceptingEventAttests(o, s, e);
    NextKeeps(o, s, e);
    InvGivesRows(Next(o, s, e));
    var c := s.pending[e.call].call;
    var job := s.db.requests[c.id].target.job.value;
    var now := Next(o, s, e).db;
    AttestationLasts(o, now, later, job, now.vault.jobs[job].assessment, c.user);
  }

  /** Through whole runs: when the event at `k` accepts an analysis, what it wrote on the job is
      attested at the end of the run exactly if the frozen inputs are current there, whatever
      other calls, edits and expiries came between. */
  lemma AttestedThroughRuns(o: Services, vault: Vault, clock: Instant, events: seq<Event>, k: nat)
    requires k < |events| && events[k].Finish?
    requires Enabled(Run(o, Start(vault, clock), events[..k]), events[k])
    requires AcceptsAnalysis(o, Run(o, Start(vault, clock), events[..k]), events[k])
    ensures AttestedFrom(o, Run(o, Start(vault, clock), events[..k]), events[k], Run(o, Start(vault, clock), events).db)
  {
    hide Run, Next, Enabled, AcceptsAnalysis, AttestedFrom, Inv, Later;
    var start := Start(vault, clock);
    StartHolds(vault, clock);
    EveryRunKeeps(o, vault, clock, events[..k]);
    RunIsLater(o, start, events, k + 1);
    LastEvent(o, start, events[..k], events[k]);
    assert events[..k] + [events[k]] == events[..k + 1];
    EventAttests(o, Run(o, start, events[..k]), events[k], Run(o, start, events).db);
  }

  // ---- What worth applying means ----

  /** A job is marked worth applying only if the worker recommended it and every one of the six
      gates is eligible with nothing unknown. */
  lemma WorthMeansEveryGate(o: Services, db: Db, job: Id, a: Assessment, user: Id, d: Dimension)
    requires Attested(o, db, job, a, user) && Read(a, WorthApplying) == Some(Flag(true))
    requires d in DIMENSIONS
    ensures exists g :: g in a[AnalysisStructured].d.gates && g.dimension == d && g.status == Eligible && g.unknowns == []
  {
    hide CurrentInputs, ClaimStands, GateFault, EvidenceFault;
    var s := a[AnalysisStructured].d;
    var c, p := db.requests[s.request].context, db.proposals[s.request].payload;
    AttestedPayload(o, db, job, a, user);
    RecommendationNeedsEveryGate(o, c, p, d);
  }

  lemma AttestedPayload(o: Services, db: Db, job: Id, a: Assessment, user: Id)
    requires Attested(o, db, job, a, user)
    ensures var s := a[AnalysisStructured].d;
            && s.request in db.requests && s.request in db.proposals
            && var p := db.proposals[s.request].payload;
            && Reviewed(o, db.requests[s.request].context, p).Ok?
            && p.Analysis? && p.gates == s.gates && p.recommendation == s.recommendation
            && Read(a, WorthApplying) == Some(Flag(Worth(p)))
            && Read(a, AffinityScore) == Some(Number(s.scores.overall))
            && s.scores == Scored(p.scores)
            && Gated(o, db.requests[s.request].context, p.gates, p.scores,
                     SourceOf(db.requests[s.request].context.advert)) == Ok(s.scores)
  {
    hide CurrentInputs, ClaimStands, FirstFault, Eligibility, OneGatePerDimension, ReviewedListings, FitScore;
    var s := a[AnalysisStructured].d;
    var r := db.requests[s.request];
    var p := db.proposals[s.request].payload;
    ReviewedScores(o, r.context, p);
    ReviewedAnalysisShape(o, r.context, p);
  }

  /** The displayed score is at most what the dimensions without unknowns weigh. */
  lemma DisplayedScoreIsBounded(o: Services, db: Db, job: Id, a: Assessment, user: Id)
    requires Attested(o, db, job, a, user)
    ensures Read(a, AffinityScore).Some? && a[AffinityScore].Number?
    ensures 0 <= a[AffinityScore].n <= 100 - TotalUnknownWeight(a[AnalysisStructured].d.gates)
  {
    hide CurrentInputs, Reviewed, Gated, TotalUnknownWeight, Matches, Backs;
    AttestedPayload(o, db, job, a, user);
    var s := a[AnalysisStructured].d;
    var c, p := db.requests[s.request].context, db.proposals[s.request].payload;
    UnknownWeightIsLost(o, c, p.gates, p.scores, SourceOf(c.advert));
  }
}
