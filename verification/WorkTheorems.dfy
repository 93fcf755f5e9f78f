/**
 What whole runs of the work queue guarantee, and where two natural claims about it fail.
 */
module WorkTheorems {
  import opened Wrappers
  import opened WorkTypes
  import opened WorkContext
  import opened WorkValidation
  import opened DossierDrafts
  import opened MaterialAcceptance
  import opened WorkLifecycle
  import opened WorkRuns

  // ---- The lifecycle ----

  /** In every reachable state the revision tells how far a request has come: 1 queued, 2 with a
      proposal on the table, 3 decided; a withdrawn or expired request stands one above where it
      was. There is a proposal exactly when one was returned, and a receipt exactly when it was
      accepted. */
  lemma RevisionTellsState(o: Services, vault: Vault, clock: Instant, events: seq<Event>, id: Id)
    requires id in Run(o, Start(vault, clock), events).db.requests
    ensures var db := Run(o, Start(vault, clock), events).db;
            var r := db.requests[id];
            && (r.state == Queued ==> r.revision == 1 && id !in db.proposals)
            && (r.state == Returned ==> r.revision == 2 && id in db.proposals)
            && (r.state == Accepted || r.state == Rejected ==> r.revision == 3 && id in db.proposals)
            && (r.state == Canceled || r.state == Expired ==>
                  r.revision == if id in db.proposals then 3 else 2)
            && (r.receipt.Some? <==> r.state == Accepted)
  {
    hide Run;
    EveryRunKeeps(o, vault, clock, events);
    assert RowHolds(Run(o, Start(vault, clock), events).db, id);
  }

  lemma {:induction false} RunIsLater(o: Services, s: System, events: seq<Event>, k: nat)
    requires Inv(s) && k <= |events|
    ensures Inv(Run(o, s, events)) && Inv(Run(o, s, events[..k]))
    ensures Later(Run(o, s, events[..k]).db, Run(o, s, events).db)
  {
    hide Next, Enabled, DbOk, Later, Inv;
    if k == |events| {
      assert events[..k] == events;
      if events != [] {
        RunIsLater(o, s, events[..k - 1], k - 1);
        StepKeeps(o, Run(o, s, events[..k - 1]), events[k - 1]);
      }
      NothingIsLater(Run(o, s, events).db);
    } else {
      var shorter := events[..|events| - 1];
      assert shorter[..k] == events[..k];
      RunIsLater(o, s, shorter, k);
      StepKeeps(o, Run(o, s, shorter), events[|events| - 1]);
      ChainLater(o, s, events[..k], shorter, events);
    }
  }

  lemma StepKeeps(o: Services, s: System, e: Event)
    requires Inv(s)
    ensures Enabled(s, e) ==> Inv(Next(o, s, e)) && Later(s.db, Next(o, s, e).db)
  {
    hide Next, Enabled, Later;
    if Enabled(s, e) {
      NextKeeps(o, s, e);
      NextSteps(o, s, e);
      StepIsLater(s.db, Next(o, s, e).db);
    }
  }

  lemma ChainLater(o: Services, s: System, a: seq<Event>, b: seq<Event>, c: seq<Event>)
    requires Inv(Run(o, s, a)) && Later(Run(o, s, a).db, Run(o, s, b).db)
    requires Run(o, s, c).db == Run(o, s, b).db || Later(Run(o, s, b).db, Run(o, s, c).db)
    ensures Later(Run(o, s, a).db, Run(o, s, c).db)
  {
    hide Run, Later;
    if Run(o, s, c).db != Run(o, s, b).db {
      LaterAndLater(Run(o, s, a).db, Run(o, s, b).db, Run(o, s, c).db);
    }
  }

  /** What is decided stays decided, what was asked for never changes, and a proposal, once
      returned, is the proposal of its request forever: between any two moments of any run. */
  lemma DecisionsAreFinal(o: Services, vault: Vault, clock: Instant, events: seq<Event>, k: nat, id: Id)
    requires k <= |events|
    requires id in Run(o, Start(vault, clock), events[..k]).db.requests
    ensures var before := Run(o, Start(vault, clock), events[..k]).db;
            var after := Run(o, Start(vault, clock), events).db;
            && id in after.requests
            && SameFrozen(before.requests[id], after.requests[id])
            && (!Live(before.requests[id].state) ==> after.requests[id] == before.requests[id])
            && (id in before.proposals ==> id in after.proposals && after.proposals[id] == before.proposals[id])
            && before.requests[id].revision <= after.requests[id].revision
            && (before.requests[id].revision == after.requests[id].revision
                ==> before.requests[id] == after.requests[id])
  {
    hide Run;
    StartHolds(vault, clock);
    RunIsLater(o, Start(vault, clock), events, k);
    assert RowLater(Run(o, Start(vault, clock), events[..k]).db, Run(o, Start(vault, clock), events).db, id);
  }

  /** One event moves a request by at most one edge of the lifecycle. */
  lemma EveryMoveIsAnEdge(o: Services, s: System, e: Event, id: Id)
    requires Inv(s) && Enabled(s, e) && id in s.db.requests
    ensures id in Next(o, s, e).db.requests
    ensures Next(o, s, e).db.requests[id] == s.db.requests[id]
         || Edge(s.db.requests[id], Next(o, s, e).db.requests[id])
  {
    hide Next, Enabled;
    NextSteps(o, s, e);
    assert RowStep(s.db, Next(o, s, e).db, id);
  }

  /** A new request is queued with inputs that are current as it is created, for at most a week,
      and it ends no later than its grant. */
  lemma CreatedWithinBounds(o: Services, db: Db, t: Target, g: Guard, now: Instant, lifetime: nat, grantEnds: Instant)
    requires t.request !in db.requests
    requires Created(o, db, t, g, now, lifetime, grantEnds).reply.Ok?
    ensures var db' := Created(o, db, t, g, now, lifetime, grantEnds).db;
            && db'.requests.Keys == db.requests.Keys + {t.request}
            && var r := db'.requests[t.request];
            && r.state == Queued && r.revision == 1 && r.target == t
            && now < r.expiresAt <= grantEnds && r.expiresAt <= now + 7 * 24 && r.expiresAt <= now + lifetime
            && CurrentInputs(o, db'.vault, t) == Some(r.inputs)
  {
    hide Snapshot, OrderFault;
    SnapshotsKeepTheTarget(o, db.vault, t);
  }

  // ---- Exactly once ----

  /** The writes of an acceptance handler reach the vault once for an accepted request and never
      for any other, and everyone who is told of an acceptance is told the same. */
  lemma AcceptedExactlyOnce(o: Services, vault: Vault, clock: Instant, events: seq<Event>, id: Id)
    ensures var s := Run(o, Start(vault, clock), events);
            && s.applied[id] == (if IsAccepted(s.db, id) then 1 else 0)
            && forall a, b :: a in s.receipts && b in s.receipts && a.request == id && b.request == id ==>
                 a == b && IsAccepted(s.db, id) && s.db.requests[id].receipt == Some(a)
  {
    hide Run;
    EveryRunKeeps(o, vault, clock, events);
    var s := Run(o, Start(vault, clock), events);
    assert AppliedOnce(s, id);
    forall a, b | a in s.receipts && b in s.receipts && a.request == id && b.request == id
      ensures a == b && IsAccepted(s.db, id) && s.db.requests[id].receipt == Some(a)
    {
      assert ReceiptStored(s, a) && ReceiptStored(s, b);
    }
  }

  /** No call but a first acceptance touches the vault. */
  lemma OnlyAcceptanceWrites(o: Services, s: System, e: Event)
    requires Enabled(s, e) && !e.Edit?
    ensures Next(o, s, e).db.vault != s.db.vault ==>
      && e.Finish? && s.pending[e.call].call.Accept?
      && Next(o, s, e).applied == s.applied + multiset{s.pending[e.call].call.id}
  {
    hide SubmitPlan, SubmitRefusal, AcceptRow, Acceptance, ReplayRefusal, NewRequest, OrderFault, ExpireStale;
    if e.Create? || e.Browse? {
      KeepsVault(o, s, e);
    } else if e.Finish? {
      CallKeepsVault(o, s.db, s.pending[e.call].seen, s.pending[e.call].call, e.guard, TimesAt(s.pending[e.call], e.swap));
    }
  }

  lemma KeepsVault(o: Services, s: System, e: Event)
    requires Enabled(s, e) && (e.Create? || e.Browse?)
    ensures Next(o, s, e).db.vault == s.db.vault
  {
    hide NewRequest, OrderFault;
  }

  lemma CallKeepsVault(o: Services, db: Db, seen: Db, c: Call, g: Guard, t: Times)
    ensures EffectOf(o, db, seen, c, g, t).db.vault != db.vault ==>
      c.Accept? && EffectOf(o, db, seen, c, g, t).applied
  {
    hide SubmitPlan, SubmitRefusal, AcceptRow, Acceptance, ReplayRefusal;
  }

  /** An acceptance or a submission that is refused, and one that is answered from what is
      already stored, leave the database exactly as it was. */
  lemma RefusalsAndReplaysWriteNothing(o: Services, db: Db, seen: Db, c: Call, g: Guard, t: Times)
    requires c.Submit? || c.Accept?
    ensures var x := EffectOf(o, db, seen, c, g, t);
            && (x.reply.Err? ==> x.db == db)
            && (c.Accept? && IsAccepted(seen, c.id) && seen.requests[c.id].receipt.Some? ==> x.db == db)
            && (c.Submit? && c.id in seen.proposals ==> x.db == db)
  {
    hide SubmitRefusal, Acceptance, ReplayRefusal, Reviewed;
  }

  /** A cancellation or rejection is different: when it finds its request past its time it
      expires every stale request of the owner, commits that, and then fails. It leaves a trace
      exactly in that case. */
  lemma FailedMovesMayExpire(db: Db, seen: Db, c: Call, g: Guard, now: Instant)
    requires c.Cancel? || c.Refuse?
    requires MoveEffect(db, seen, c, g, now).reply.Err?
    ensures MoveEffect(db, seen, c, g, now).db != db <==>
      && g.ready && c.id in seen.requests && seen.requests[c.id].target.user == c.user
      && seen.requests[c.id].expiresAt <= now
      && exists id :: id in db.requests && Stale(db.requests[id], c.user, now)
  {
    var x := ExpireStale(db, c.user, now);
    if id :| id in db.requests && Stale(db.requests[id], c.user, now) {
      assert x.requests[id].state == Expired;
      assert x != db;
    } else {
      assert x.requests == db.requests;
    }
  }

  // ---- Repeated calls ----

  /** Asking again, in any later state, for an acceptance that went through. The stored receipt is
      given as long as the vault is ready, the grant checks out, the request's time has not run
      out, the revision is the one from before or after the acceptance, the reviewed revisions
      are the same and the accepted inputs have not changed since; otherwise it is refused for
      the first of these that fails. Nothing is written either way. */
  lemma AcceptThenReplay(o: Services, db: Db, seen: Db, c: Call, g: Guard, t: Times,
                         db': Db, seen': Db, c': Call, g': Guard, t': Times)
    requires DbOk(db) && c.Accept? && AcceptEffect(o, db, seen, c, g, t).applied
    requires Later(AcceptEffect(o, db, seen, c, g, t).db, seen')
    requires DbOk(seen) && Later(seen, db)
    requires c'.Accept? && c'.id == c.id
    ensures var told := AcceptEffect(o, db, seen, c, g, t);
            var receipt := told.reply.value.accepted;
            var row := told.db.requests[c.id];
            AcceptEffect(o, db', seen', c', g', t') == Effect(db',
              if !g'.ready then Err(VaultUnavailable)
              else if c'.user != c.user then Err(WorkNotFound)
              else if g'.before.Some? then Err(g'.before.value)
              else if row.expiresAt <= t'.checked then Err(WorkExpired)
              else if c'.expected != c.expected && c'.expected != c.expected + 1 then Err(RevisionConflict)
              else if c'.targets != c.targets then Err(StaleInput)
              else if CurrentInputs(o, db'.vault, row.target) != Some(receipt.inputs) then Err(StaleInput)
              else Ok(Reply.Done(receipt)),
              false)
  {
    hide Acceptance, CurrentInputs, DbOk, Later;
    AcceptedRow(o, db, seen, c, g, t);
    LaterRow(AcceptEffect(o, db, seen, c, g, t).db, seen', c.id);
  }

  lemma LaterRow(a: Db, b: Db, id: Id)
    requires Later(a, b) && id in a.requests && !Live(a.requests[id].state)
    ensures id in b.requests && b.requests[id] == a.requests[id]
  {
    assert RowLater(a, b, id);
  }

  lemma AcceptedRow(o: Services, db: Db, seen: Db, c: Call, g: Guard, t: Times)
    requires c.Accept? && AcceptEffect(o, db, seen, c, g, t).applied
    requires DbOk(seen) && Later(seen, db)
    ensures var x := AcceptEffect(o, db, seen, c, g, t);
            && c.id in x.db.requests && c.id in db.requests
            && x.db.requests[c.id] == db.requests[c.id].(
                 state := Accepted, revision := c.expected + 1, receipt := Some(x.reply.value.accepted))
            && x.db.requests[c.id].target.user == c.user
            && x.db.requests[c.id].inputs.revisions == c.targets
            && c.id in seen.requests && SameFrozen(seen.requests[c.id], db.requests[c.id])
  {
    hide Acceptance, ReplayRefusal;
    AcceptanceFacts(o, db, AcceptRow(seen, c, g, t.checked).value, c, g, t.now);
    assert RowLater(seen, db, c.id);
  }

  /** The same result for the same request under the same key; the identity drawn for a proposal
      and the author's label may differ. */
  predicate Repeats(c': Call, c: Call)
    requires c.Submit? && c'.Submit?
  {
    && c'.user == c.user && c'.grant == c.grant && c'.id == c.id
    && c'.submission.request == c.submission.request && c'.submission.digest == c.submission.digest
    && c'.submission.key == c.submission.key && c'.submission.result == c.submission.result
  }

  /** A worker that lost the answer to a submission and sends it again, in any later state of the
      queue, is told the very receipt it was told first, up to the state, unless a grant check
      refuses it or the request was canceled or has expired since; nothing is written. */
  lemma SubmitThenReplay(o: Services, db: Db, seen: Db, c: Call, g: Guard, t: Times,
                         db': Db, seen': Db, c': Call, g': Guard, t': Times)
    requires c.Submit? && SubmitEffect(o, db, seen, c, g, t).reply.Ok? && Later(seen, db)
    requires Later(SubmitEffect(o, db, seen, c, g, t).db, seen')
    requires c'.Submit? && Repeats(c', c)
    ensures var told := SubmitEffect(o, db, seen, c, g, t).reply.value.receipt;
            && c.id in seen'.requests
            && SubmitEffect(o, db', seen', c', g', t') == Effect(db',
                 if g'.before.Some? then Err(g'.before.value)
                 else if seen'.requests[c.id].expiresAt <= t'.checked || seen'.requests[c.id].state == Expired
                 then Err(WorkExpired)
                 else if seen'.requests[c.id].state == Canceled then Err(WorkCanceled)
                 else Ok(Submitted(told.(state := seen'.requests[c.id].state))),
                 false)
  {
    hide Later, CurrentInputs, Reviewed;
    StoredResult(o, db, seen, c, g, t);
    LaterProposal(SubmitEffect(o, db, seen, c, g, t).db, seen', c.id);
  }

  /** Once a result is stored for a request, no submission to it by anyone at any later time
      writes anything, and one is answered without an error only if it names the same key and a
      result with the stored digest; it is then told the first receipt. */
  lemma OneResultPerRequest(o: Services, db: Db, seen: Db, c: Call, g: Guard, t: Times,
                            db': Db, seen': Db, c': Call, g': Guard, t': Times)
    requires c.Submit? && SubmitEffect(o, db, seen, c, g, t).reply.Ok? && Later(seen, db)
    requires Later(SubmitEffect(o, db, seen, c, g, t).db, seen')
    requires c'.Submit? && c'.id == c.id
    ensures var told := SubmitEffect(o, db, seen, c, g, t).reply.value.receipt;
            var again := SubmitEffect(o, db', seen', c', g', t');
            && again.db == db'
            && (again.reply.Ok? ==>
                  && c'.submission.key == c.submission.key
                  && Reviewed(o, seen'.requests[c.id].context, c'.submission.result).Ok?
                  && o.payloadDigest(Reviewed(o, seen'.requests[c.id].context, c'.submission.result).value) == told.digest
                  && again.reply.value == Submitted(told.(state := seen'.requests[c.id].state)))
  {
    hide Later, CurrentInputs, Reviewed;
    StoredResult(o, db, seen, c, g, t);
    LaterProposal(SubmitEffect(o, db, seen, c, g, t).db, seen', c.id);
  }

  /** What a worker is told when its result is stored is what it is told whenever it asks later:
      only the state of the request may have moved on, and it is refused exactly when a grant
      check refuses it or the request was canceled or has expired since. */
  lemma StoredResultsAreReported(o: Services, db: Db, seen: Db, c: Call, g: Guard, t: Times, later: Db, g': Guard, checked: Instant)
    requires c.Submit? && DbOk(db) && SubmitEffect(o, db, seen, c, g, t).reply.Ok?
    requires Later(seen, db) && Later(SubmitEffect(o, db, seen, c, g, t).db, later)
    ensures var told := SubmitEffect(o, db, seen, c, g, t).reply.value.receipt;
            var asked := WorkResult(later, c.user, c.grant, c.id, g', checked);
            && c.id in later.requests
            && (asked.Ok? ==> asked.value == told.(state := later.requests[c.id].state))
            && (asked.Ok? <==>
                  && g'.before.None? && g'.during.None?
                  && checked < later.requests[c.id].expiresAt && later.requests[c.id].state !in {Expired, Canceled})
  {
    hide DbOk, Later, CurrentInputs, Reviewed;
    var x := SubmitEffect(o, db, seen, c, g, t);
    StoredResult(o, db, seen, c, g, t);
    LaterProposal(x.db, later, c.id);
  }

  lemma LaterProposal(a: Db, b: Db, id: Id)
    requires Later(a, b) && id in a.requests && id in a.proposals
    ensures id in b.requests && id in b.proposals && b.proposals[id] == a.proposals[id]
    ensures SameFrozen(a.requests[id], b.requests[id])
  {
    assert RowLater(a, b, id);
  }

  lemma StoredResult(o: Services, db: Db, seen: Db, c: Call, g: Guard, t: Times)
    requires c.Submit? && SubmitEffect(o, db, seen, c, g, t).reply.Ok? && Later(seen, db)
    ensures var x := SubmitEffect(o, db, seen, c, g, t);
            && x.reply.value.Submitted?
            && c.id in x.db.requests && c.id in x.db.proposals
            && x.db.requests[c.id].target.user == c.user && x.db.requests[c.id].target.grant == c.grant
            && x.reply.value.receipt.proposal == x.db.proposals[c.id].id
            && x.reply.value.receipt.request == c.id
            && x.reply.value.receipt.digest == x.db.proposals[c.id].digest
            && c.submission.request == c.id && c.submission.key == x.db.proposals[c.id].key
            && c.submission.digest == x.db.requests[c.id].inputs.digest
            && var payload := Reviewed(o, x.db.requests[c.id].context, c.submission.result);
               payload.Ok? && o.payloadDigest(payload.value) == x.db.proposals[c.id].digest
  {
    hide CurrentInputs, Reviewed;
    if c.id in seen.requests {
      assert RowLater(seen, db, c.id);
    }
  }

  // ---- Expiry ----

  /** The reading of the clock that decides whether a call comes too late. */
  function DecidingClock(s: System, e: Event): Instant
    requires Enabled(s, e)
  {
    match e
    case Browse(_, now) => now
    case Finish(call, _, swap) => TimesAt(s.pending[call], swap).now
    case _ => s.clock
  }

  lemma SwapsInTime(o: Services, db: Db, seen: Db, c: Call, g: Guard, t: Times, id: Id)
    requires DbOk(db) && id in db.requests && id in EffectOf(o, db, seen, c, g, t).db.requests
    requires EffectOf(o, db, seen, c, g, t).db.requests[id] != db.requests[id]
    ensures EffectOf(o, db, seen, c, g, t).db.requests[id].state == Expired <==> db.requests[id].expiresAt <= t.now
  {
    hide SubmitPlan, Acceptance, ReplayRefusal, CurrentInputs, AcceptRow;
    match c {
      case Submit(_, _, _, _) =>
      case Accept(_, _, _, _) =>
        if AcceptEffect(o, db, seen, c, g, t).applied {
          WrittenAnswersStored(o, db, seen, c, g, t);
        }
      case Cancel(_, _, _) =>
      case Refuse(_, _, _) =>
    }
  }

  /** A request that changes becomes expired if the call that changes it read the clock at or
      after its time, and something else if it read the clock before. */
  lemma TheClockThatWasReadDecides(o: Services, s: System, e: Event, id: Id)
    requires DbOk(s.db) && Enabled(s, e) && id in s.db.requests && id in Next(o, s, e).db.requests
    requires Next(o, s, e).db.requests[id] != s.db.requests[id]
    ensures Next(o, s, e).db.requests[id].state == Expired <==> s.db.requests[id].expiresAt <= DecidingClock(s, e)
  {
    hide EffectOf, NewRequest, OrderFault;
    if e.Finish? {
      var p := s.pending[e.call];
      SwapsInTime(o, s.db, p.seen, p.call, e.guard, TimesAt(p, e.swap), id);
    }
  }

  function Lenient(): Services {
    Services(c => "", p => "", (f, p, q) => true, c => true, p => true, (d, q, s, c, f) => true,
             (c, t, f) => true, (d, q, c) => true, (r, q) => true, (r, p, q) => None,
             c => true, (v, r, p, t) => Err(InvalidResult))
  }

  function Nothing(): Vault {
    Vault(map[], map[], map[], map[], map[], map[])
  }

  const OPEN := Guard(true, None, None)

  const SEARCH := Target(1, 7, 3, Discover, "", None, None, None, None, None)

  /** A request made to last five hours, and a cancellation that begins at once but is held up
      until the tenth. */
  const HELD_UP := [
    Create(SEARCH, OPEN, 5, 100),
    Begin(0, Cancel(1, 7, 1), Times(0, 0)),
    Tick(10),
    Finish(0, OPEN, 10)]

  function SearchRow(): Request {
    var c := Seen(Nothing(), SEARCH);
    Request(SEARCH, c, InputsOf(Lenient(), c), 5, Queued, 1, None)
  }

  lemma SearchIsCreated()
    ensures Enabled(Start(Nothing(), 0), HELD_UP[0])
    ensures Next(Lenient(), Start(Nothing(), 0), HELD_UP[0])
         == Start(Nothing(), 0).(db := Db(map[7 := SearchRow()], map[], Nothing()))
  {
    assert Chosen([], None) == [];
    assert NewRequest(Lenient(), Nothing(), SEARCH, 5) == Ok(SearchRow());
  }

  lemma CancellationGoesThrough(o: Services, s: System)
    requires s.pending == map[0 := Pending(Cancel(1, 7, 1), s.db, Times(0, 0))]
    requires s.db.requests == map[7 := SearchRow()] && s.clock == 10
    ensures Enabled(s, HELD_UP[3])
    ensures var db := Next(o, s, HELD_UP[3]).db;
            && 7 in db.requests && db.requests[7] == SearchRow().(state := Canceled, revision := 2)
            && Next(o, s, HELD_UP[3]).clock == 10
  {
    hide Seen, InputsOf, ExpireStale;
    assert Swaps(s.db, 7, 1, {Queued, Returned}, 1, 0);
  }

  lemma LastEvent(o: Services, s: System, events: seq<Event>, e: Event)
    ensures Run(o, s, events + [e]) ==
      if Enabled(Run(o, s, events), e) then Next(o, Run(o, s, events), e) else Run(o, s, events)
  {
    assert (events + [e])[..|events|] == events;
  }

  /** By the wall clock a request can leave its life after its time for something other than
      expiry: the cancellation read the clock in time and its swap came late. */
  lemma LateSwapsHappen()
    ensures var s := Run(Lenient(), Start(Nothing(), 0), HELD_UP);
            && s.clock == 10 && 7 in s.db.requests
            && s.db.requests[7].expiresAt == 5 && s.db.requests[7].state == Canceled
  {
    hide Run, Created, NewRequest, Lenient, Seen, FinishEffect, ExpireStale;
    var o, start := Lenient(), Start(Nothing(), 0);
    NoEvents(o, start);
    SearchIsCreated();
    var queued := start.(db := Db(map[7 := SearchRow()], map[], Nothing()));
    var late := queued.(clock := 10, pending := map[0 := Pending(Cancel(1, 7, 1), queued.db, Times(0, 0))]);
    CancellationGoesThrough(o, late);
    LastEvent(o, start, [], HELD_UP[0]);
    LastEvent(o, start, [HELD_UP[0]], HELD_UP[1]);
    LastEvent(o, start, [HELD_UP[0], HELD_UP[1]], HELD_UP[2]);
    LastEvent(o, start, [HELD_UP[0], HELD_UP[1], HELD_UP[2]], HELD_UP[3]);
    assert [] + [HELD_UP[0]] == [HELD_UP[0]];
    assert [HELD_UP[0]] + [HELD_UP[1]] == [HELD_UP[0], HELD_UP[1]];
    assert [HELD_UP[0], HELD_UP[1]] + [HELD_UP[2]] == [HELD_UP[0], HELD_UP[1], HELD_UP[2]];
    assert [HELD_UP[0], HELD_UP[1], HELD_UP[2]] + [HELD_UP[3]] == HELD_UP;
  }

  lemma NoEvents(o: Services, s: System)
    ensures Run(o, s, []) == s
  {
  }

  /** And a cancellation that fails can still have changed the database. */
  lemma FailedCancelLeavesATrace(row: Request)
    requires row.target.user == 1 && row.expiresAt == 5 && row.state == Queued
    ensures var db := Db(map[7 := row], map[], Nothing());
            var x := MoveEffect(db, db, Cancel(1, 7, 1), OPEN, 5);
            x.reply.Err? && x.db != db
  {
    var db := Db(map[7 := row], map[], Nothing());
    assert Stale(db.requests[7], 1, 5);
    FailedMovesMayExpire(db, db, Cancel(1, 7, 1), OPEN, 5);
  }

  // ---- Accepted materials, end to end ----

  /** An accepted materials request has moved its CV draft by one, created or moved its dossier
      draft by one, bound the one to the other and left everything else alone. The CV is the
      rendering of the stored proposal and the dossier holds its parts, each in its place, with
      where they came from. The receipt says so, and the inputs it records are the frozen ones with
      just these two revisions moved. */
  lemma AcceptedMaterialsMoveTogether(o: Services, db: Db, row: Request, c: Call, g: Guard, now: Instant)
    requires c.Accept? && Acceptance(o, db, row, c, g, now).Ok? && row.target.kind == Materials
    requires row.context.target == row.target
    ensures var v' := Acceptance(o, db, row, c, g, now).value.0;
            var receipt := Acceptance(o, db, row, c, g, now).value.1;
            var v := db.vault;
            && row.target.resume.Some? && row.target.application.Some? && receipt.material.Some?
            && var id := row.target.resume.value;
            var app := row.target.application.value;
            var m := receipt.material.value;
            && id in v.resumes && id in v'.resumes && app in v'.dossiers && app in v.applications
            && v'.resumes[id].revision == v.resumes[id].revision + 1 == m.resumeRevision
            && v'.dossiers[app].revision == m.dossierRevision
            && m.dossierRevision == (if app in v.dossiers then v.dossiers[app].revision + 1 else 1)
            && v'.dossiers[app].binding == ToDraft(id, m.resumeRevision)
            && v' == v.(resumes := v.resumes[id := v'.resumes[id]], dossiers := v.dossiers[app := v'.dossiers[app]])
            && v'.resumes[id].owner == v.resumes[id].owner
            && c.id in db.proposals && db.proposals[c.id].payload.MaterialSet? && row.target.user in v.profiles
            && var (p, d) := (db.proposals[c.id], v'.dossiers[app].content);
            && o.render(v.resumes[id], v.profiles[row.target.user], p.payload) == Some(v'.resumes[id].content)
            && d.letter == p.payload.letter && d.email == p.payload.email && d.answers == p.payload.answers
            && d.matrix == p.payload.evidence
            && d.claims == p.payload.letter + p.payload.email + p.payload.answers
            && d.provenance == Some(Provenance(row.target.request, p.grant, row.inputs.digest, p.digest))
            && receipt.inputs.revisions ==
                 row.inputs.revisions.(resume := Some(m.resumeRevision), dossier := Some(m.dossierRevision))
  {
    hide Acceptance, MaterialRefusal, Applied, CurrentInputs, ReviewedMaterials, ReviewedAnalysis, ReviewedListings;
    AcceptanceFacts(o, db, row, c, g, now);
    var payload := Restored(o, db, row, c.id).value;
    ReviewKeepsKind(o, row.context, db.proposals[c.id].payload);
    MaterialsAreStoredAsProposed(o, row.context, db.proposals[c.id].payload);
    var p := db.proposals[c.id].(payload := payload);
    assert p == db.proposals[c.id];
    MaterialsMoveTogether(o, db.vault, row, p);
    AcceptedMaterialRevisions(o, db.vault, row, p);
    MaterialTargets(o, db.vault, row, p);
    InputsCarryRevisions(o, db.vault, row.target);
    InputsCarryRevisions(o, Acceptance(o, db, row, c, g, now).value.0, row.target);
    AcceptedReceipt(o, db, row, c, g, now);
  }

  lemma ReviewKeepsKind(o: Services, c: Context, p: Payload)
    requires Reviewed(o, c, p).Ok?
    ensures KindOf(Reviewed(o, c, p).value) == c.target.kind
  {
    hide Gated, ClaimStands, ItemStands, EvidenceStands;
  }

  lemma MaterialsAreStoredAsProposed(o: Services, c: Context, p: Payload)
    requires Reviewed(o, c, p).Ok? && c.target.kind == Materials
    ensures p.MaterialSet? && Reviewed(o, c, p).value == p
  {
    hide Distinct, Cited, DistinctTargets, ItemStands, EvidenceStands;
  }

  lemma MaterialTargets(o: Services, v: Vault, row: Request, p: Proposal)
    requires p.payload.MaterialSet? && MaterialRefusal(o, v, row, p).None?
    ensures HasTargets(v, row) && row.target.application.value in v.applications && row.target.user in v.profiles
    ensures row.inputs.revisions.dossier == (if row.target.application.value in v.dossiers
                                             then Some(v.dossiers[row.target.application.value].revision) else None)
  {
  }

  lemma InputsCarryRevisions(o: Services, v: Vault, t: Target)
    requires CurrentInputs(o, v, t).Some?
    ensures CurrentInputs(o, v, t).value.revisions == Revised(v, t)
  {
  }

  lemma AcceptedReceipt(o: Services, db: Db, row: Request, c: Call, g: Guard, now: Instant)
    requires c.Accept? && Acceptance(o, db, row, c, g, now).Ok?
    ensures c.id in db.proposals && Restored(o, db, row, c.id).Ok?
    ensures var h := Handled(o, db.vault, row, db.proposals[c.id], Restored(o, db, row, c.id).value, now);
            h.Ok? && Acceptance(o, db, row, c, g, now).value.1.material == h.value.material
  {
    hide CurrentInputs, Handled;
  }
}
