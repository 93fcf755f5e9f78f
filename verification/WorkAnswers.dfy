/**
 When a call goes through (backend/agent_work/service.py, proposal_service.py, acceptance.py): for
 each call, everything that has to hold of what it read and of what it finds at its transaction,
 and what is then stored.
 */
module WorkAnswers {
  import opened Wrappers
  import opened WorkTypes
  import opened WorkContext
  import opened WorkValidation
  import opened WorkLifecycle

  /** A request is created exactly for a ready vault, a granted call, a lifetime of at least an hour
      under a grant that has not ended, and inputs that can be shown. It ends after what was asked
      for, after seven days or with its grant, whichever is first. */
  lemma CreatedExactly(o: Services, db: Db, t: Target, g: Guard, now: Instant, lifetime: nat, grantEnds: Instant)
    ensures var x := Created(o, db, t, g, now, lifetime, grantEnds);
      && (x.reply.Ok? <==>
            && g.ready && g.before.None? && lifetime >= 1 && now < grantEnds
            && Snapshot(o, db.vault, t).Ok?)
      && (x.reply.Err? ==> x.db == db)
      && (x.reply.Ok? ==>
            && t.request in x.db.requests && x.db == db.(requests := db.requests[t.request := x.db.requests[t.request]])
            && var r := x.db.requests[t.request]; var c := Snapshot(o, db.vault, t).value;
            && r == Request(t, c, Inputs(o.contextDigest(c), c.revisions), r.expiresAt, Queued, 1, None)
            && r.expiresAt <= now + lifetime && r.expiresAt <= now + 7 * 24 && r.expiresAt <= grantEnds
            && (r.expiresAt == now + lifetime || r.expiresAt == now + 7 * 24 || r.expiresAt == grantEnds))
  {
    if Snapshot(o, db.vault, t).Ok? {
      SnapshotsAreOrdered(o, db.vault, t);
    }
    hide Snapshot, OrderFault;
  }

  lemma SnapshotsAreOrdered(o: Services, v: Vault, t: Target)
    requires Snapshot(o, v, t).Ok?
    ensures OrderFault(v, t).None?
  {
  }

  /** Somebody else's job, application or CV is not there for the caller, whatever else is wrong
      with the inputs. */
  lemma StrangersTargetsAreNotFound(o: Services, db: Db, t: Target, g: Guard, now: Instant, lifetime: nat, grantEnds: Instant)
    requires g.ready && g.before.None? && lifetime >= 1 && now < grantEnds
    requires
      || (t.job.Some? && !(t.job.value in db.vault.jobs && db.vault.jobs[t.job.value].owner == t.user))
      || (t.application.Some?
            && !(t.application.value in db.vault.applications && db.vault.applications[t.application.value].owner == t.user))
      || (t.resume.Some?
            && !(t.user in db.vault.profiles && t.resume.value in db.vault.resumes && db.vault.resumes[t.resume.value].owner == t.user))
    ensures Created(o, db, t, g, now, lifetime, grantEnds) == Effect(db, Err(WorkNotFound), false)
  {
    hide Snapshot;
  }

  /** What the read phase of a submission has to find: the caller's own request, granted to it, alive,
      waiting, without a result, with the very digest that the result was made for; and the result
      passes review. */
  predicate MayStore(o: Services, seen: Db, c: Call, g: Guard, checked: Instant)
    requires c.Submit?
  {
    && g.before.None? && c.submission.request == c.id
    && c.id in seen.requests && c.id !in seen.proposals
    && var row := seen.requests[c.id];
    && row.target.user == c.user && row.target.grant == c.grant && row.state == Queued && checked < row.expiresAt
    && c.submission.digest == row.inputs.digest && Reviewed(o, row.context, c.submission.result).Ok?
  }

  /** A result is stored exactly when its read phase found everything in order and, at the
      transaction, the same row still waits at the same revision and in time, the grant still
      stands, the inputs are still the frozen ones and no other result has come in between. Stored
      is the reviewed payload under its digest, and the row moves to its next revision. */
  lemma SubmissionStoredExactly(o: Services, db: Db, seen: Db, c: Call, g: Guard, t: Times)
    requires c.Submit?
    ensures var x := SubmitEffect(o, db, seen, c, g, t);
      x.db != db <==>
        && MayStore(o, seen, c, g, t.checked) && g.during.None?
        && c.id in db.requests && c.id !in db.proposals
        && var (row, now) := (seen.requests[c.id], db.requests[c.id]);
        && now.target.user == c.user && now.state == Queued && now.revision == row.revision && t.now < now.expiresAt
        && CurrentInputs(o, db.vault, row.target) == Some(row.inputs)
    ensures var x := SubmitEffect(o, db, seen, c, g, t);
      x.db != db ==>
        && MayStore(o, seen, c, g, t.checked) && c.id in db.requests
        && var (s, payload) := (c.submission, Reviewed(o, seen.requests[c.id].context, c.submission.result).value);
        && x.db == db.(
             requests := db.requests[c.id := db.requests[c.id].(state := Returned, revision := db.requests[c.id].revision + 1)],
             proposals := db.proposals[c.id := Proposal(s.proposal, c.grant, s.key, s.author, o.payloadDigest(payload), payload, t.now)])
        && x.reply == Ok(Submitted(ProposalReceipt(s.proposal, c.id, Returned, o.payloadDigest(payload))))
  {
    hide Reviewed, CurrentInputs;
    var x := SubmitEffect(o, db, seen, c, g, t);
    if SubmitPlan(o, seen, c, g, t.checked).Ok? && SubmitPlan(o, seen, c, g, t.checked).value.Write?
       && SubmitRefusal(o, db, seen, c, g, t.now).None? {
      assert c.id in x.db.proposals && c.id !in db.proposals;
    }
  }

  /** A request is moved by its owner exactly when it was found in time and not canceled, and at the
      transaction it is in time, at the expected revision, and has a result that can be rejected,
      or, to be canceled, may still be waiting for one. Every refusal is told apart. */
  lemma MovedExactly(db: Db, seen: Db, c: Call, g: Guard, now: Instant)
    requires c.Cancel? || c.Refuse?
    ensures var x := MoveEffect(db, seen, c, g, now);
      && (x.reply.Ok? <==>
            && g.ready && c.id in seen.requests && seen.requests[c.id].target.user == c.user
            && now < seen.requests[c.id].expiresAt && seen.requests[c.id].state != Canceled
            && c.id in db.requests && db.requests[c.id].target.user == c.user && now < db.requests[c.id].expiresAt
            && db.requests[c.id].revision == c.expected
            && (db.requests[c.id].state == Returned || (c.Cancel? && db.requests[c.id].state == Queued)))
      && (x.reply.Ok? ==>
            && x.reply == Ok(Moved(c.expected + 1))
            && x.db == db.(requests := db.requests[c.id :=
                 db.requests[c.id].(state := if c.Cancel? then Canceled else Rejected, revision := c.expected + 1)]))
      && (x.reply == Err(VaultUnavailable) <==> !g.ready)
      && (x.reply == Err(WorkNotFound) <==> g.ready && !(c.id in seen.requests && seen.requests[c.id].target.user == c.user))
      && (x.reply == Err(WorkExpired) <==>
            g.ready && c.id in seen.requests && seen.requests[c.id].target.user == c.user && seen.requests[c.id].expiresAt <= now)
      && (x.reply == Err(WorkCanceled) <==>
            && g.ready && c.id in seen.requests && seen.requests[c.id].target.user == c.user
            && now < seen.requests[c.id].expiresAt && seen.requests[c.id].state == Canceled)
  {
    hide ExpireStale;
  }

  /** What happens to stale requests of an owner who moves one too late: all of them expire, and
      nobody else's. */
  lemma ExpiryReachesExactly(db: Db, user: Id, now: Instant, id: Id)
    requires id in db.requests
    ensures var (r, r') := (db.requests[id], ExpireStale(db, user, now).requests[id]);
      r' == if r.target.user == user && r.expiresAt <= now && (r.state == Queued || r.state == Returned)
            then r.(state := Expired, revision := r.revision + 1) else r
    ensures ExpireStale(db, user, now) == db.(requests := ExpireStale(db, user, now).requests)
    ensures ExpireStale(db, user, now).requests.Keys == db.requests.Keys
  {
  }

  /** A first acceptance goes through exactly when the request is the caller's, has a result, stands
      at the expected revision and in time; the grant stands; the reviewed revisions are the frozen
      ones and the inputs still are; the stored result passes review again with its digest; its
      handler goes through; and the inputs can be shown afterwards. The receipt says what happened. */
  lemma AcceptedExactly(o: Services, db: Db, row: Request, c: Call, g: Guard, now: Instant)
    requires c.Accept?
    ensures var a := Acceptance(o, db, row, c, g, now);
      && (a.Ok? <==>
            && c.id in db.requests && db.requests[c.id].target.user == c.user && db.requests[c.id].state == Returned
            && db.requests[c.id].revision == c.expected && now < db.requests[c.id].expiresAt
            && g.during.None? && c.targets == row.inputs.revisions
            && CurrentInputs(o, db.vault, row.target) == Some(row.inputs)
            && c.id in db.proposals
            && var (p, review) := (db.proposals[c.id], Reviewed(o, row.context, db.proposals[c.id].payload));
            && review.Ok? && o.payloadDigest(review.value) == p.digest
            && var h := Handled(o, db.vault, row, p, review.value, now);
            && h.Ok? && CurrentInputs(o, h.value.vault, row.target).Some?)
      && (a.Ok? ==>
            && c.id in db.proposals
            && var p := db.proposals[c.id];
            && Reviewed(o, row.context, p.payload).Ok?
            && var h := Handled(o, db.vault, row, p, Reviewed(o, row.context, p.payload).value, now);
            && h.Ok? && a.value.0 == h.value.vault && CurrentInputs(o, h.value.vault, row.target).Some?
            && a.value.1 == Receipt(c.id, p.id, row.target.kind, now, row.target.job, h.value.jobs, h.value.applications,
                                    CurrentInputs(o, h.value.vault, row.target).value, h.value.material))
  {
    hide Reviewed, CurrentInputs, Handled;
  }
}
