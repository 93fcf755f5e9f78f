/**
 The services that change work requests, statement by statement, over one database session.
 `seen` is what the read phase of a call saw; when the first write is made the session stands at
 the latest committed state. Each method is proved to commit all of what `WorkLifecycle` says
 the call does, or nothing.
 */
module WorkService {
  import opened Wrappers
  import opened WorkTypes
  import opened WorkContext
  import opened WorkDatabase
  import opened WorkValidation
  import opened MaterialAcceptance
  import opened AnalysisAcceptance
  import opened WorkLifecycle

  /** The conditional update of one request row: how many rows it changed. */
  method CompareAndSwap(s: Session, id: Id, user: Id, states: set<WorkState>, revision: nat, now: Instant, state: WorkState)
    returns (changed: nat)
    modifies s
    ensures s.committed == old(s.committed)
    ensures changed == (if Swaps(old(s.db), id, user, states, revision, now) then 1 else 0)
    ensures s.db == if changed == 1 then Swapped(old(s.db), id, state) else old(s.db)
  {
    if id in s.db.requests {
      var row := s.db.requests[id];
      if row.target.user == user && row.state in states && row.revision == revision && row.expiresAt > now {
        row := row.(state := state, revision := row.revision + 1);
        s.db := s.db.(requests := s.db.requests[id := row]);
        return 1;
      }
    }
    return 0;
  }

  /** `_expire_stale_work` and the commit that follows it everywhere. */
  method ExpireStaleWork(s: Session, user: Id, now: Instant)
    requires s.db == s.committed
    modifies s
    ensures s.db == s.committed == ExpireStale(old(s.db), user, now)
  {
    var before := s.db.requests;
    s.db := s.db.(requests := map id | id in before ::
      if before[id].target.user == user && before[id].expiresAt <= now && before[id].state in {Queued, Returned}
      then before[id].(state := Expired, revision := before[id].revision + 1)
      else before[id]);
    assert s.db.requests == ExpireStale(old(s.db), user, now).requests;
    s.Commit();
  }

  /** `create_work_request` */
  method CreateWorkRequest(o: Services, s: Session, t: Target, g: Guard, now: Instant, lifetime: nat, grantEnds: Instant)
    returns (r: Outcome<Reply>)
    requires s.db == s.committed
    modifies s
    ensures s.db == s.committed
    ensures Effect(s.db, r, false) == Created(o, old(s.db), t, g, now, lifetime, grantEnds)
  {
    hide Snapshot;
    if !g.ready {
      return Err(VaultUnavailable);
    }
    if g.before.Some? {
      return Err(g.before.value);
    }
    var limit := if lifetime < MAX_LIFETIME then lifetime else MAX_LIFETIME;
    var expiresAt := if now + limit < grantEnds then now + limit else grantEnds;
    if expiresAt <= now {
      return Err(GrantExpired);
    }
    var v := s.db.vault;
    if t.job.Some? && OwnedJob(v, t.user, t.job.value).None? {
      return Err(WorkNotFound);
    }
    if t.application.Some? && OwnedApplication(v, t.user, t.application.value).None? {
      return Err(WorkNotFound);
    }
    if t.resume.Some? && OwnedResume(v, t.user, t.resume.value).None? {
      return Err(WorkNotFound);
    }
    var context := Snapshot(o, v, t);
    if context.Err? {
      return Err(context.code);
    }
    var row := Request(t, context.value, InputsOf(o, context.value), expiresAt, Queued, 1, None);
    s.db := s.db.(requests := s.db.requests[t.request := row]);
    s.Commit();
    return Ok(Moved(1));
  }

  // ---- Submitting ----

  /** The statements of `submit_proposal` inside its `try`: a failure may leave a written row. */
  method TrySubmit(o: Services, s: Session, seen: Db, c: Call, g: Guard, t: Times) returns (r: Outcome<Reply>)
    requires c.Submit? && s.db == s.committed
    modifies s
    ensures r == SubmitEffect(o, old(s.db), seen, c, g, t).reply
    ensures r.Err? ==> s.committed == old(s.committed)
    ensures r.Ok? ==> s.db == s.committed == SubmitEffect(o, old(s.db), seen, c, g, t).db
  {
    hide Reviewed, CurrentInputs;
    var sub := c.submission;
    if c.id != sub.request {
      return Err(InvalidResult);
    }
    if g.before.Some? {
      return Err(g.before.value);
    }
    var found := OwnedRequest(seen, c.user, c.id);
    if found.None? || found.value.target.grant != c.grant {
      return Err(WorkNotFound);
    }
    var req := found.value;
    var fault := LiveFault(req, t.checked);
    if fault.Some? {
      return Err(fault.value);
    }
    if sub.digest != req.inputs.digest {
      return Err(StaleInput);
    }
    var review := Reviewed(o, req.context, sub.result);
    if review.Err? {
      return Err(review.code);
    }
    var payload := review.value;
    var digest := o.payloadDigest(payload);
    if c.id in seen.proposals {
      var existing := seen.proposals[c.id];
      if existing.key == sub.key && existing.digest == digest {
        return Ok(Submitted(ProposalReceipt(existing.id, c.id, req.state, existing.digest)));
      }
      return Err(ResultConflict);
    }
    if req.state != Queued {
      return Err(RevisionConflict);
    }
    var changed := CompareAndSwap(s, c.id, c.user, {Queued}, req.revision, t.now, Returned);
    if changed != 1 {
      return Err(ResultConflict);
    }
    if g.during.Some? {
      return Err(g.during.value);
    }
    if CurrentInputs(o, s.db.vault, req.target) != Some(req.inputs) {
      return Err(StaleInput);
    }
    if c.id in s.db.proposals {
      return Err(ResultConflict);
    }
    var proposal := Proposal(sub.proposal, c.grant, sub.key, sub.author, digest, payload, t.now);
    s.db := s.db.(proposals := s.db.proposals[c.id := proposal]);
    s.Commit();
    return Ok(Submitted(ProposalReceipt(proposal.id, c.id, Returned, proposal.digest)));
  }

  /** `submit_proposal` */
  method SubmitProposal(o: Services, s: Session, seen: Db, c: Call, g: Guard, t: Times) returns (r: Outcome<Reply>)
    requires c.Submit? && s.db == s.committed
    modifies s
    ensures s.db == s.committed
    ensures Effect(s.db, r, false) == SubmitEffect(o, old(s.db), seen, c, g, t)
  {
    hide SubmitPlan, SubmitRefusal;
    r := TrySubmit(o, s, seen, c, g, t);
    if r.Err? {
      s.Rollback();
    }
  }

  // ---- Accepting ----

  /** The handler for the kind of proposal, with its writes still uncommitted. */
  method Handle(o: Services, s: Session, req: Request, p: Proposal, payload: Payload, now: Instant)
    returns (r: Outcome<Handling>)
    modifies s
    ensures s.committed == old(s.committed)
    ensures r == Handled(o, old(s.db).vault, req, p, payload, now)
    ensures r.Ok? ==> s.db == old(s.db).(vault := r.value.vault)
  {
    hide MaterialRefusal, Applied, MaterialReceiptOf, HasJob, AssessmentOf;
    match payload {
      case Discovery(_) =>
        var found := o.discover(s.db.vault, req, p.(payload := payload), now);
        if found.Err? {
          return Err(found.code);
        }
        s.db := s.db.(vault := found.value.vault);
        return Ok(Handling(s.db.vault, found.value.jobs, found.value.applications, None));
      case Analysis(_, _, _, _) =>
        var analysis := AcceptAnalysis(s, req, p, payload, now);
        if analysis.Err? {
          return Err(analysis.code);
        }
        return Ok(Handling(s.db.vault, [], [], None));
      case MaterialSet(_, _, _, _, _, _, _) =>
        var material := AcceptMaterials(o, s, req, p.(payload := payload));
        if material.Err? {
          return Err(material.code);
        }
        return Ok(Handling(s.db.vault, [], [], Some(material.value)));
    }
  }

  /** `_accept_work_proposal` after its read phase. */
  method TryAccept(o: Services, s: Session, req: Request, c: Call, g: Guard, now: Instant) returns (r: Outcome<Receipt>)
    requires c.Accept? && s.db == s.committed
    modifies s
    ensures var a := Acceptance(o, old(s.db), req, c, g, now);
            && (r.Ok? <==> a.Ok?)
            && (r.Err? ==> r.code == a.code && s.committed == old(s.committed))
            && (r.Ok? ==> r.value == a.value.1 && c.id in old(s.db).requests
                          && s.db == s.committed == AcceptedDb(old(s.db), c, a.value.0, a.value.1))
  {
    hide Reviewed, CurrentInputs, Handled;
    var changed := CompareAndSwap(s, c.id, c.user, {Returned}, c.expected, now, Returned);
    if changed != 1 {
      return Err(RevisionConflict);
    }
    if g.during.Some? {
      return Err(g.during.value);
    }
    if CurrentInputs(o, s.db.vault, req.target) != Some(req.inputs) {
      return Err(StaleInput);
    }
    if c.targets != req.inputs.revisions {
      return Err(StaleInput);
    }
    if c.id !in s.db.proposals {
      return Err(WorkNotFound);
    }
    var proposal := s.db.proposals[c.id];
    var review := Reviewed(o, req.context, proposal.payload);
    if review.Err? {
      return Err(review.code);
    }
    if o.payloadDigest(review.value) != proposal.digest {
      return Err(InvalidResult);
    }
    var handling := Handle(o, s, req, proposal, review.value, now);
    if handling.Err? {
      return Err(handling.code);
    }
    var inputs := CurrentInputs(o, s.db.vault, req.target);
    if inputs.None? {
      return Err(StaleInput);
    }
    var h := handling.value;
    var receipt := Receipt(c.id, proposal.id, req.target.kind, now, req.target.job,
                           h.jobs, h.applications, inputs.value, h.material);
    var row := s.db.requests[c.id];
    row := row.(state := Accepted, revision := c.expected + 1, receipt := Some(receipt));
    s.db := s.db.(requests := s.db.requests[c.id := row]);
    assert s.db.requests == AcceptedDb(old(s.db), c, h.vault, receipt).requests;
    s.Commit();
    return Ok(receipt);
  }

  /** `accept_work_proposal` */
  method AcceptWorkProposal(o: Services, s: Session, seen: Db, c: Call, g: Guard, t: Times) returns (r: Outcome<Reply>)
    requires c.Accept? && s.db == s.committed
    modifies s
    ensures s.db == s.committed
    ensures s.db == AcceptEffect(o, old(s.db), seen, c, g, t).db
    ensures r == AcceptEffect(o, old(s.db), seen, c, g, t).reply
  {
    hide Acceptance, CurrentInputs;
    var found := OwnedRequest(seen, c.user, c.id);
    if !g.ready {
      return Err(VaultUnavailable);
    }
    if found.None? {
      return Err(WorkNotFound);
    }
    var req := found.value;
    if g.before.Some? {
      return Err(g.before.value);
    }
    var fault := LiveFault(req, t.checked);
    if fault.Some? {
      return Err(fault.value);
    }
    if req.state == Accepted && req.receipt.Some? {
      if c.expected != req.revision - 1 && c.expected != req.revision {
        return Err(RevisionConflict);
      }
      if c.targets != req.inputs.revisions {
        return Err(StaleInput);
      }
      if CurrentInputs(o, s.db.vault, req.target) != Some(req.receipt.value.inputs) {
        return Err(StaleInput);
      }
      return Ok(Done(req.receipt.value));
    }
    var accepted := TryAccept(o, s, req, c, g, t.now);
    if accepted.Err? {
      s.Rollback();
      return Err(accepted.code);
    }
    return Ok(Done(accepted.value));
  }

  // ---- Canceling and rejecting ----

  /** `_transition` */
  method Transition(s: Session, seen: Db, c: Call, g: Guard, now: Instant) returns (r: Outcome<Reply>)
    requires (c.Cancel? || c.Refuse?) && s.db == s.committed
    modifies s
    ensures s.db == s.committed
    ensures Effect(s.db, r, false) == MoveEffect(old(s.db), seen, c, g, now)
  {
    if !g.ready {
      return Err(VaultUnavailable);
    }
    var found := OwnedRequest(seen, c.user, c.id);
    if found.None? {
      return Err(WorkNotFound);
    }
    if found.value.expiresAt <= now {
      ExpireStaleWork(s, c.user, now);
      return Err(WorkExpired);
    }
    if found.value.state == Canceled {
      return Err(WorkCanceled);
    }
    var state := if c.Cancel? then Canceled else Rejected;
    var allowed := if c.Cancel? then {Queued, Returned} else {Returned};
    var changed := CompareAndSwap(s, c.id, c.user, allowed, c.expected, now, state);
    if changed != 1 {
      s.Rollback();
      return Err(RevisionConflict);
    }
    s.Commit();
    return Ok(Moved(s.db.requests[c.id].revision));
  }
}
