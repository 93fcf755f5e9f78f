/**
 Accepting application materials (backend/agent_work/material_acceptance.py): one reviewed
 proposal rewrites a CV draft and the application's dossier draft, each by compare-and-swap
 against the revisions that were frozen when the work was requested.
 */
module MaterialAcceptance {
  import opened Wrappers
  import opened WorkTypes
  import opened WorkContext
  import opened WorkDatabase
  import opened WorkValidation
  import opened DossierDrafts

  // ---- Specification ----

  /** The dossier a proposal turns into. */
  function ContentOf(req: Request, p: Proposal): DossierContent
    requires p.payload.MaterialSet?
  {
    var m := p.payload;
    DossierContent(m.letter, m.email, m.answers, m.evidence, m.letter + m.email + m.answers,
                   Some(Provenance(req.target.request, p.grant, req.inputs.digest, p.digest)))
  }

  /** The save the dossier service is asked for once the CV draft stands at `revision`. */
  function PutFor(req: Request, p: Proposal, revision: nat): Put
    requires p.payload.MaterialSet? && req.inputs.revisions.application.Some?
  {
    Put(req.inputs.revisions.dossier, req.inputs.revisions.application.value, None,
        req.target.resume, Some(revision), ContentOf(req, p))
  }

  predicate HasTargets(v: Vault, req: Request) {
    && req.target.resume.Some? && req.target.application.Some?
    && OwnedResume(v, req.target.user, req.target.resume.value).Some?
  }

  function Rewritten(v: Vault, req: Request, content: string): Vault
    requires HasTargets(v, req)
  {
    var id := req.target.resume.value;
    v.(resumes := v.resumes[id := v.resumes[id].(revision := v.resumes[id].revision + 1, content := content)])
  }

  /** Everything that can be wrong, in the order in which it is noticed; the answer only depends
      on the vault as it was before. */
  function MaterialRefusal(o: Services, v: Vault, req: Request, p: Proposal): Option<ErrorCode>
    requires p.payload.MaterialSet?
  {
    var m := p.payload;
    if !HasTargets(v, req) then Some(WorkNotFound)
    else
      var resume := v.resumes[req.target.resume.value];
      var content := o.render(resume, v.profiles[req.target.user], m);
      if req.inputs.revisions.resume != Some(resume.revision) then Some(RevisionConflict)
      else if content.None? then Some(InvalidResult)
      else if !Distinct(Ids(m.letter + m.email + m.answers)) then Some(InvalidResult)
      else if req.inputs.revisions.application.None? || !o.storable(ContentOf(req, p)) then Some(InvalidResult)
      else
        match Refusal(Rewritten(v, req, content.value), req.target.user, req.target.application.value,
                      PutFor(req, p, resume.revision + 1))
        case None => None
        case Some(Conflict) => Some(RevisionConflict)
        case Some(_) => Some(InvalidResult)
  }

  function Applied(o: Services, v: Vault, req: Request, p: Proposal): Vault
    requires p.payload.MaterialSet?
    requires MaterialRefusal(o, v, req, p).None?
  {
    var resume := v.resumes[req.target.resume.value];
    var content := o.render(resume, v.profiles[req.target.user], p.payload).value;
    Stored(Rewritten(v, req, content), req.target.application.value, PutFor(req, p, resume.revision + 1))
  }

  function MaterialReceiptOf(o: Services, v: Vault, req: Request, p: Proposal): MaterialReceipt
    requires p.payload.MaterialSet?
    requires MaterialRefusal(o, v, req, p).None?
  {
    MaterialReceipt(req.target.resume.value, v.resumes[req.target.resume.value].revision + 1,
                    req.target.application.value,
                    if req.inputs.revisions.dossier.Some? then req.inputs.revisions.dossier.value + 1 else 1)
  }

  // ---- The handler ----

  /** `accept_materials_flush_only`: after a failure the session may hold half of the change, and
      the owner of the transaction rolls it back. */
  method AcceptMaterials(o: Services, s: Session, req: Request, p: Proposal) returns (r: Outcome<MaterialReceipt>)
    requires p.payload.MaterialSet?
    modifies s
    ensures s.committed == old(s.committed)
    ensures r.Ok? <==> MaterialRefusal(o, old(s.db).vault, req, p).None?
    ensures r.Err? ==> Some(r.code) == MaterialRefusal(o, old(s.db).vault, req, p)
    ensures r.Ok? ==> s.db == old(s.db).(vault := Applied(o, old(s.db).vault, req, p))
    ensures r.Ok? ==> r.value == MaterialReceiptOf(o, old(s.db).vault, req, p)
  {
    hide Refusal;
    var v := s.db.vault;
    if !HasTargets(v, req) {
      return Err(WorkNotFound);
    }
    var id := req.target.resume.value;
    var draft := v.resumes[id];
    // Compare and swap: only the revision the work was requested for.
    if req.inputs.revisions.resume != Some(draft.revision) {
      return Err(RevisionConflict);
    }
    s.db := s.db.(vault := v.(resumes := v.resumes[id := draft.(revision := draft.revision + 1)]));
    var content := o.render(draft, v.profiles[req.target.user], p.payload);
    if content.None? {
      return Err(InvalidResult);
    }
    var revision := req.inputs.revisions.resume.value + 1;
    s.db := s.db.(vault := v.(resumes := v.resumes[id := draft.(revision := revision, content := content.value)]));
    var claims := p.payload.letter + p.payload.email + p.payload.answers;
    if !Distinct(Ids(claims)) {
      return Err(InvalidResult);
    }
    if req.inputs.revisions.application.None? || !o.storable(ContentOf(req, p)) {
      return Err(InvalidResult);
    }
    assert s.db.vault == Rewritten(v, req, content.value);
    var dossier := MutateFlushOnly(s, req.target.user, req.target.application.value, PutFor(req, p, revision));
    if dossier.Failed? {
      return Err(if dossier.error == Conflict then RevisionConflict else InvalidResult);
    }
    return Ok(MaterialReceipt(id, revision, req.target.application.value, dossier.value));
  }

  // ---- What acceptance does to the three objects ----

  /** The CV draft moves up by one and holds the rendering of the payload; the dossier draft appears
      at one or moves up by one, is bound to exactly that CV revision and holds each part of the
      payload in its place; the application stays, and nothing else is touched. */
  lemma MaterialsMoveTogether(o: Services, v: Vault, req: Request, p: Proposal)
    requires p.payload.MaterialSet?
    requires MaterialRefusal(o, v, req, p).None?
    ensures var v' := Applied(o, v, req, p);
            var id := req.target.resume.value;
            var app := req.target.application.value;
            && id in v.resumes && id in v'.resumes && app in v'.dossiers
            && v'.resumes[id].revision == v.resumes[id].revision + 1
            && v'.resumes[id].owner == v.resumes[id].owner
            && v'.dossiers[app].revision == (if app in v.dossiers then v.dossiers[app].revision + 1 else 1)
            && v'.dossiers[app].binding == ToDraft(id, v'.resumes[id].revision)
            && o.render(v.resumes[id], v.profiles[req.target.user], p.payload) == Some(v'.resumes[id].content)
            && var (m, d) := (p.payload, v'.dossiers[app].content);
            && d.letter == m.letter && d.email == m.email && d.answers == m.answers && d.matrix == m.evidence
            && d.claims == m.letter + m.email + m.answers
            && d.provenance == Some(Provenance(req.target.request, p.grant, req.inputs.digest, p.digest))
            && BindingIsCurrent(v', app)
            && v' == v.(resumes := v.resumes[id := v'.resumes[id]], dossiers := v.dossiers[app := v'.dossiers[app]])
  {
  }

  /** Acceptance happens exactly when the frozen revisions of all three objects are the current
      ones and the proposal can be rendered and stored. */
  lemma MaterialsNeedCurrentRevisions(o: Services, v: Vault, req: Request, p: Proposal)
    requires p.payload.MaterialSet? && HasTargets(v, req)
    ensures MaterialRefusal(o, v, req, p).None? <==>
         && var resume := v.resumes[req.target.resume.value];
            var app := req.target.application.value;
            && OwnedApplication(v, req.target.user, app).Some?
            && req.inputs.revisions.resume == Some(resume.revision)
            && req.inputs.revisions.application == Some(v.applications[app].revision)
            && req.inputs.revisions.dossier == (if app in v.dossiers then Some(v.dossiers[app].revision) else None)
            && o.render(resume, v.profiles[req.target.user], p.payload).Some?
            && Distinct(Ids(p.payload.letter + p.payload.email + p.payload.answers))
            && var m := p.payload;
            o.storable(DossierContent(m.letter, m.email, m.answers, m.evidence, m.letter + m.email + m.answers,
                                      Some(Provenance(req.target.request, p.grant, req.inputs.digest, p.digest))))
  {
    hide Distinct, Ids;
  }

  /** The inputs of the same request after acceptance: only the CV and the dossier moved. */
  lemma AcceptedMaterialRevisions(o: Services, v: Vault, req: Request, p: Proposal)
    requires p.payload.MaterialSet?
    requires MaterialRefusal(o, v, req, p).None?
    ensures Revised(Applied(o, v, req, p), req.target)
         == Revised(v, req.target).(resume := Some(v.resumes[req.target.resume.value].revision + 1),
                                    dossier := Some(MaterialReceiptOf(o, v, req, p).dossierRevision))
  {
    MaterialsMoveTogether(o, v, req, p);
  }
}
