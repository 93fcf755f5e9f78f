/**
 The life of a work request (backend/agent_work/service.py, proposal_service.py, acceptance.py).
 Every call has a read phase, which sees the database as it was at some earlier moment (`seen`),
 and then at most one transaction, whose first write is a compare-and-swap on the request row.
 */
module WorkLifecycle {
  import opened Wrappers
  import opened WorkTypes
  import opened WorkContext
  import opened WorkDatabase
  import opened WorkValidation
  import opened MaterialAcceptance
  import opened AnalysisAcceptance

  // ---- Calls ----

  datatype Submission = Submission(
    request: Id, digest: string, key: string, author: string, result: Payload, proposal: Id)

  datatype Call =
    | Submit(user: Id, grant: Id, id: Id, submission: Submission)
    | Accept(user: Id, id: Id, expected: nat, targets: Revisions)
    | Cancel(user: Id, id: Id, expected: nat)
    | Refuse(user: Id, id: Id, expected: nat)

  /** The answers of the grant and vault checks, which are not modelled: whether the vault is
      ready, and what the grant check says before and inside the transaction. */
  datatype Guard = Guard(ready: bool, before: Option<ErrorCode>, during: Option<ErrorCode>)

  /** The clock as a call reads it: `now` is compared by the swap, `checked` by the liveness
      check, and they are different readings. */
  datatype Times = Times(now: Instant, checked: Instant)

  datatype ProposalReceipt = ProposalReceipt(proposal: Id, request: Id, state: WorkState, digest: string)

  datatype Reply = Submitted(receipt: ProposalReceipt) | Done(accepted: Receipt) | Moved(revision: nat)

  /** What a call leaves: the database, the answer, and whether an acceptance handler's writes
      were committed. */
  datatype Effect = Effect(db: Db, reply: Outcome<Reply>, applied: bool)

  // ---- Rows ----

  predicate Live(state: WorkState) {
    state == Queued || state == Returned
  }

  /** The condition every conditional update of a request row carries. */
  predicate Swaps(db: Db, id: Id, user: Id, states: set<WorkState>, revision: nat, now: Instant) {
    && id in db.requests
    && db.requests[id].target.user == user
    && db.requests[id].state in states
    && db.requests[id].revision == revision
    && now < db.requests[id].expiresAt
  }

  function Swapped(db: Db, id: Id, state: WorkState): Db
    requires id in db.requests
  {
    db.(requests := db.requests[id := db.requests[id].(state := state, revision := db.requests[id].revision + 1)])
  }

  predicate Stale(r: Request, user: Id, now: Instant) {
    r.target.user == user && r.expiresAt <= now && Live(r.state)
  }

  function Lapsed(r: Request): Request {
    r.(state := Expired, revision := r.revision + 1)
  }

  /** `_expire_stale_work` */
  function ExpireStale(db: Db, user: Id, now: Instant): Db {
    db.(requests := map id | id in db.requests ::
      if Stale(db.requests[id], user, now) then Lapsed(db.requests[id]) else db.requests[id])
  }

  function OwnedRequest(db: Db, user: Id, id: Id): Option<Request> {
    if id in db.requests && db.requests[id].target.user == user then Some(db.requests[id]) else None
  }

  /** `require_work_live` */
  function LiveFault(r: Request, checked: Instant): Option<ErrorCode> {
    if r.expiresAt <= checked || r.state == Expired then Some(WorkExpired)
    else if r.state == Canceled then Some(WorkCanceled)
    else None
  }

  // ---- Submitting ----

  datatype Plan = Replay(receipt: ProposalReceipt) | Write(payload: Payload)

  function SubmitPlan(o: Services, seen: Db, c: Call, g: Guard, checked: Instant): Outcome<Plan>
    requires c.Submit?
  {
    var s := c.submission;
    var row := OwnedRequest(seen, c.user, c.id);
    if c.id != s.request then Err(InvalidResult)
    else if g.before.Some? then Err(g.before.value)
    else if row.None? || row.value.target.grant != c.grant then Err(WorkNotFound)
    else if LiveFault(row.value, checked).Some? then Err(LiveFault(row.value, checked).value)
    else if s.digest != row.value.inputs.digest then Err(StaleInput)
    else
      match Reviewed(o, row.value.context, s.result)
      case Err(code) => Err(code)
      case Ok(payload) =>
        if c.id in seen.proposals then
          var p := seen.proposals[c.id];
          if p.key == s.key && p.digest == o.payloadDigest(payload)
          then Ok(Replay(ProposalReceipt(p.id, c.id, row.value.state, p.digest)))
          else Err(ResultConflict)
        else if row.value.state != Queued then Err(RevisionConflict)
        else Ok(Write(payload))
  }

  function NewProposal(o: Services, c: Call, payload: Payload, now: Instant): Proposal
    requires c.Submit?
  {
    Proposal(c.submission.proposal, c.grant, c.submission.key, c.submission.author,
             o.payloadDigest(payload), payload, now)
  }

  function SubmitRefusal(o: Services, db: Db, seen: Db, c: Call, g: Guard, now: Instant): Option<ErrorCode>
    requires c.Submit? && c.id in seen.requests
  {
    var row := seen.requests[c.id];
    if !Swaps(db, c.id, c.user, {Queued}, row.revision, now) then Some(ResultConflict)
    else if g.during.Some? then g.during
    else if CurrentInputs(o, db.vault, row.target) != Some(row.inputs) then Some(StaleInput)
    else if c.id in db.proposals then Some(ResultConflict)
    else None
  }

  function SubmitEffect(o: Services, db: Db, seen: Db, c: Call, g: Guard, t: Times): Effect
    requires c.Submit?
  {
    match SubmitPlan(o, seen, c, g, t.checked)
    case Err(code) => Effect(db, Err(code), false)
    case Ok(Replay(receipt)) => Effect(db, Ok(Submitted(receipt)), false)
    case Ok(Write(payload)) =>
      if SubmitRefusal(o, db, seen, c, g, t.now).Some?
      then Effect(db, Err(SubmitRefusal(o, db, seen, c, g, t.now).value), false)
      else
        var p := NewProposal(o, c, payload, t.now);
        Effect(Swapped(db, c.id, Returned).(proposals := db.proposals[c.id := p]),
               Ok(Submitted(ProposalReceipt(p.id, c.id, Returned, p.digest))), false)
  }

  /** `get_work_result`: `during` is what the second grant check says, with its scopes. */
  function WorkResult(seen: Db, user: Id, grant: Id, id: Id, g: Guard, checked: Instant): Outcome<ProposalReceipt> {
    var row := OwnedRequest(seen, user, id);
    if g.before.Some? then Err(g.before.value)
    else if row.None? || row.value.target.grant != grant then Err(WorkNotFound)
    else if LiveFault(row.value, checked).Some? then Err(LiveFault(row.value, checked).value)
    else if g.during.Some? then Err(g.during.value)
    else if id !in seen.proposals then Err(WorkNotFound)
    else Ok(ProposalReceipt(seen.proposals[id].id, id, row.value.state, seen.proposals[id].digest))
  }

  // ---- Accepting ----

  datatype Handling = Handling(vault: Vault, jobs: seq<Id>, applications: seq<Id>, material: Option<MaterialReceipt>)

  /** The domain writes of an acceptance, by kind of proposal. */
  function Handled(o: Services, v: Vault, req: Request, p: Proposal, payload: Payload, now: Instant): Outcome<Handling> {
    match payload
    case Discovery(_) =>
      (match o.discover(v, req, p.(payload := payload), now)
       case Err(code) => Err(code)
       case Ok(d) => Ok(Handling(d.vault, d.jobs, d.applications, None)))
    case Analysis(_, _, _, _) =>
      if !HasJob(v, req) then Err(WorkNotFound)
      else Ok(Handling(Assessed(v, req.target.job.value, AssessmentOf(req, p, payload, now)), [], [], None))
    case MaterialSet(_, _, _, _, _, _, _) =>
      var q := p.(payload := payload);
      if MaterialRefusal(o, v, req, q).Some? then Err(MaterialRefusal(o, v, req, q).value)
      else Ok(Handling(Applied(o, v, req, q), [], [], Some(MaterialReceiptOf(o, v, req, q))))
  }

  function ReplayRefusal(o: Services, v: Vault, row: Request, c: Call): Option<ErrorCode>
    requires c.Accept? && row.receipt.Some?
  {
    if c.expected + 1 != row.revision && c.expected != row.revision then Some(RevisionConflict)
    else if c.targets != row.inputs.revisions then Some(StaleInput)
    else if CurrentInputs(o, v, row.target) != Some(row.receipt.value.inputs) then Some(StaleInput)
    else None
  }

  /** The read phase of an acceptance: the row, or why there is none to accept. */
  function AcceptRow(seen: Db, c: Call, g: Guard, checked: Instant): Outcome<Request>
    requires c.Accept?
  {
    var row := OwnedRequest(seen, c.user, c.id);
    if !g.ready then Err(VaultUnavailable)
    else if row.None? then Err(WorkNotFound)
    else if g.before.Some? then Err(g.before.value)
    else if LiveFault(row.value, checked).Some? then Err(LiveFault(row.value, checked).value)
    else Ok(row.value)
  }

  /** The stored proposal, reviewed once more and checked against its digest. */
  function Restored(o: Services, db: Db, row: Request, id: Id): Outcome<Payload> {
    if id !in db.proposals then Err(WorkNotFound)
    else
      match Reviewed(o, row.context, db.proposals[id].payload)
      case Err(code) => Err(code)
      case Ok(payload) =>
        if o.payloadDigest(payload) != db.proposals[id].digest then Err(InvalidResult) else Ok(payload)
  }

  /** Everything an acceptance checks and computes; nothing is kept of it unless all succeeds. */
  function Acceptance(o: Services, db: Db, row: Request, c: Call, g: Guard, now: Instant): Outcome<(Vault, Receipt)>
    requires c.Accept?
  {
    if !Swaps(db, c.id, c.user, {Returned}, c.expected, now) then Err(RevisionConflict)
    else if g.during.Some? then Err(g.during.value)
    else if CurrentInputs(o, db.vault, row.target) != Some(row.inputs) then Err(StaleInput)
    else if c.targets != row.inputs.revisions then Err(StaleInput)
    else
      match Restored(o, db, row, c.id)
      case Err(code) => Err(code)
      case Ok(payload) =>
        match Handled(o, db.vault, row, db.proposals[c.id], payload, now)
        case Err(code) => Err(code)
        case Ok(h) =>
          if CurrentInputs(o, h.vault, row.target).None? then Err(StaleInput)
          else Ok((h.vault, Receipt(c.id, db.proposals[c.id].id, row.target.kind, now, row.target.job,
                                    h.jobs, h.applications,
                                    CurrentInputs(o, h.vault, row.target).value, h.material)))
  }

  function AcceptedDb(db: Db, c: Call, vault: Vault, receipt: Receipt): Db
    requires c.Accept? && c.id in db.requests
  {
    var row := db.requests[c.id].(state := Accepted, revision := c.expected + 1, receipt := Some(receipt));
    db.(requests := db.requests[c.id := row], vault := vault)
  }

  function AcceptEffect(o: Services, db: Db, seen: Db, c: Call, g: Guard, t: Times): Effect
    requires c.Accept?
  {
    match AcceptRow(seen, c, g, t.checked)
    case Err(code) => Effect(db, Err(code), false)
    case Ok(row) =>
      if row.state == Accepted && row.receipt.Some? then
        if ReplayRefusal(o, db.vault, row, c).Some?
        then Effect(db, Err(ReplayRefusal(o, db.vault, row, c).value), false)
        else Effect(db, Ok(Done(row.receipt.value)), false)
      else
        match Acceptance(o, db, row, c, g, t.now)
        case Err(code) => Effect(db, Err(code), false)
        case Ok(written) => Effect(AcceptedDb(db, c, written.0, written.1), Ok(Done(written.1)), true)
  }

  // ---- Canceling and rejecting ----

  function AimOf(c: Call): WorkState
    requires c.Cancel? || c.Refuse?
  {
    if c.Cancel? then Canceled else Rejected
  }

  function SourcesOf(c: Call): set<WorkState>
    requires c.Cancel? || c.Refuse?
  {
    if c.Cancel? then {Queued, Returned} else {Returned}
  }

  function MoveEffect(db: Db, seen: Db, c: Call, g: Guard, now: Instant): Effect
    requires c.Cancel? || c.Refuse?
  {
    var row := OwnedRequest(seen, c.user, c.id);
    if !g.ready then Effect(db, Err(VaultUnavailable), false)
    else if row.None? then Effect(db, Err(WorkNotFound), false)
    else if row.value.expiresAt <= now then Effect(ExpireStale(db, c.user, now), Err(WorkExpired), false)
    else if row.value.state == Canceled then Effect(db, Err(WorkCanceled), false)
    else if !Swaps(db, c.id, c.user, SourcesOf(c), c.expected, now) then Effect(db, Err(RevisionConflict), false)
    else Effect(Swapped(db, c.id, AimOf(c)), Ok(Moved(c.expected + 1)), false)
  }

  function EffectOf(o: Services, db: Db, seen: Db, c: Call, g: Guard, t: Times): Effect {
    match c
    case Submit(_, _, _, _) => SubmitEffect(o, db, seen, c, g, t)
    case Accept(_, _, _, _) => AcceptEffect(o, db, seen, c, g, t)
    case Cancel(_, _, _) => MoveEffect(db, seen, c, g, t.now)
    case Refuse(_, _, _) => MoveEffect(db, seen, c, g, t.now)
  }

  // ---- Creating ----

  const MAX_LIFETIME: nat := 168

  function OrderFault(v: Vault, t: Target): Option<ErrorCode> {
    if t.job.Some? && OwnedJob(v, t.user, t.job.value).None? then Some(WorkNotFound)
    else if t.application.Some? && OwnedApplication(v, t.user, t.application.value).None? then Some(WorkNotFound)
    else if t.resume.Some? && OwnedResume(v, t.user, t.resume.value).None? then Some(WorkNotFound)
    else None
  }

  /** A request lives as long as was asked for, at most seven days, and never longer than its
      grant. Times are in hours. */
  function Expiry(now: Instant, lifetime: nat, grantEnds: Instant): Instant {
    var limit := now + if lifetime < MAX_LIFETIME then lifetime else MAX_LIFETIME;
    if limit < grantEnds then limit else grantEnds
  }

  function NewRequest(o: Services, v: Vault, t: Target, expiresAt: Instant): Outcome<Request> {
    match Snapshot(o, v, t)
    case Err(code) => Err(code)
    case Ok(c) => Ok(Request(t, c, InputsOf(o, c), expiresAt, Queued, 1, None))
  }

  /** `create_work_request` with a fresh identity. */
  function Created(o: Services, db: Db, t: Target, g: Guard, now: Instant, lifetime: nat, grantEnds: Instant): Effect {
    var expiresAt := Expiry(now, lifetime, grantEnds);
    if !g.ready then Effect(db, Err(VaultUnavailable), false)
    else if g.before.Some? then Effect(db, Err(g.before.value), false)
    else if expiresAt <= now then Effect(db, Err(GrantExpired), false)
    else if OrderFault(db.vault, t).Some? then Effect(db, Err(OrderFault(db.vault, t).value), false)
    else
      match NewRequest(o, db.vault, t, expiresAt)
      case Err(code) => Effect(db, Err(code), false)
      case Ok(row) => Effect(db.(requests := db.requests[t.request := row]), Ok(Moved(1)), false)
  }
}
