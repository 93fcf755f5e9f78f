/**
 Whole runs of the work queue: any number of calls, each cut into its read and its transaction,
 interleaved in any order with the passing of time, with calls that die in between, and with
 edits of the vault by other features.
 */
module WorkRuns {
  import opened Wrappers
  import opened WorkTypes
  import opened WorkContext
  import opened WorkLifecycle

  // ---- The system ----

  /** A call whose read phase is over. `clock` is when it began. */
  datatype Pending = Pending(call: Call, seen: Db, times: Times)

  /** `applied` counts, per request, the acceptance handlers whose writes were committed;
      `receipts` are the receipts acceptance calls have returned. Both are histories. */
  datatype System = System(
    db: Db, clock: Instant, pending: map<nat, Pending>,
    applied: multiset<Id>, receipts: set<Receipt>)

  datatype Event =
    | Tick(to: Instant)
    | Edit(vault: Vault)
    | Create(target: Target, guard: Guard, lifetime: nat, grantEnds: Instant)
    | Browse(user: Id, now: Instant)
    | Begin(call: nat, what: Call, times: Times)
    | Finish(call: nat, guard: Guard, swap: Instant)
    | Abandon(call: nat)

  /** A submission reads the clock for its swap after its read phase; the other calls have read
      it at their very start. */
  function TimesAt(p: Pending, swap: Instant): Times {
    if p.call.Submit? then p.times.(now := swap) else p.times
  }

  predicate Enabled(s: System, e: Event) {
    match e
    case Tick(to) => s.clock <= to
    case Edit(_) => true
    case Create(t, _, _, _) => t.request !in s.db.requests
    case Browse(_, now) => now <= s.clock
    case Begin(call, _, times) => call !in s.pending && times.now <= s.clock && times.checked <= s.clock
    case Finish(call, _, swap) => call in s.pending && swap <= s.clock
    case Abandon(call) => call in s.pending
  }

  function FinishEffect(o: Services, s: System, call: nat, g: Guard, swap: Instant): Effect
    requires call in s.pending
  {
    var p := s.pending[call];
    EffectOf(o, s.db, p.seen, p.call, g, TimesAt(p, swap))
  }

  function Finished(s: System, call: nat, x: Effect): System
    requires call in s.pending
  {
    s.(db := x.db, pending := s.pending - {call},
       applied := if x.applied then s.applied + multiset{s.pending[call].call.id} else s.applied,
       receipts := if x.reply.Ok? && x.reply.value.Done? then s.receipts + {x.reply.value.accepted} else s.receipts)
  }

  function Next(o: Services, s: System, e: Event): System
    requires Enabled(s, e)
  {
    match e
    case Tick(to) => s.(clock := to)
    case Edit(vault) => s.(db := s.db.(vault := vault))
    case Create(t, g, lifetime, grantEnds) => s.(db := Created(o, s.db, t, g, s.clock, lifetime, grantEnds).db)
    case Browse(user, now) => s.(db := ExpireStale(s.db, user, now))
    case Begin(call, what, times) => s.(pending := s.pending[call := Pending(what, s.db, times)])
    case Finish(call, g, swap) => Finished(s, call, FinishEffect(o, s, call, g, swap))
    case Abandon(call) => s.(pending := s.pending - {call})
  }

  /** Events that are not possible where they come are skipped. */
  function Run(o: Services, s: System, events: seq<Event>): System {
    if events == [] then s
    else
      var before := Run(o, s, events[..|events| - 1]);
      var e := events[|events| - 1];
      if Enabled(before, e) then Next(o, before, e) else before
  }

  function Start(vault: Vault, clock: Instant): System {
    System(Db(map[], map[], vault), clock, map[], multiset{}, {})
  }

  // ---- Rows over time ----

  /** State, revision, proposal and receipt of a request always go together like this. */
  predicate RowOk(id: Id, r: Request, p: Option<Proposal>) {
    && r.target.request == id && r.context.target == r.target
    && match r.state {
         case Queued => r.revision == 1 && p.None? && r.receipt.None?
         case Returned => r.revision == 2 && p.Some? && r.receipt.None?
         case Accepted =>
           && r.revision == 3 && p.Some? && r.receipt.Some?
           && r.receipt.value.request == id && r.receipt.value.proposal == p.value.id
         case Rejected => r.revision == 3 && p.Some? && r.receipt.None?
         case Canceled => r.revision == (if p.Some? then 3 else 2) && r.receipt.None?
         case Expired => r.revision == (if p.Some? then 3 else 2) && r.receipt.None?
       }
  }

  function ProposalOf(db: Db, id: Id): Option<Proposal> {
    if id in db.proposals then Some(db.proposals[id]) else None
  }

  predicate RowHolds(db: Db, id: Id) {
    id in db.requests && RowOk(id, db.requests[id], ProposalOf(db, id))
  }

  ghost predicate DbOk(db: Db) {
    && (forall id :: id in db.requests ==> RowHolds(db, id))
    && (forall id :: id in db.proposals ==> id in db.requests)
  }

  predicate SameFrozen(a: Request, b: Request) {
    a.target == b.target && a.context == b.context && a.inputs == b.inputs && a.expiresAt == b.expiresAt
  }

  /** One transition of a request. */
  predicate Edge(a: Request, b: Request) {
    && SameFrozen(a, b) && b.revision == a.revision + 1
    && match a.state {
         case Queued => b.state in {Returned, Canceled, Expired}
         case Returned => b.state in {Accepted, Rejected, Canceled, Expired}
         case _ => false
       }
  }

  /** What one committed transaction may do to one request. */
  predicate RowStep(db: Db, db': Db, id: Id) {
    && RowHolds(db', id)
    && (id in db.requests ==> db'.requests[id] == db.requests[id] || Edge(db.requests[id], db'.requests[id]))
    && (id !in db.requests ==> db'.requests[id].state == Queued)
    && (id in db.proposals ==> ProposalOf(db', id) == ProposalOf(db, id))
  }

  ghost predicate Steps(db: Db, db': Db) {
    && (forall id :: id in db.requests ==> id in db'.requests)
    && (forall id :: id in db'.requests ==> RowStep(db, db', id))
    && (forall id :: id in db'.proposals ==> id in db'.requests)
  }

  /** What any number of transactions may do to one request. */
  predicate RowLater(db: Db, db': Db, id: Id) {
    && id in db.requests && id in db'.requests
    && SameFrozen(db.requests[id], db'.requests[id])
    && db.requests[id].revision <= db'.requests[id].revision
    && (db.requests[id].revision == db'.requests[id].revision || !Live(db.requests[id].state)
        ==> db'.requests[id] == db.requests[id])
    && (id in db.proposals ==> ProposalOf(db', id) == ProposalOf(db, id))
  }

  ghost predicate Later(db: Db, db': Db) {
    forall id :: id in db.requests ==> RowLater(db, db', id)
  }

  lemma StepIsLater(db: Db, db': Db)
    requires DbOk(db) && Steps(db, db')
    ensures DbOk(db') && Later(db, db')
  {
    forall id | id in db.requests ensures RowLater(db, db', id) {
      assert RowStep(db, db', id);
    }
  }

  lemma NothingIsLater(db: Db)
    ensures Later(db, db)
  {
  }

  lemma LaterAndLater(a: Db, b: Db, c: Db)
    requires DbOk(a) && Later(a, b) && Later(b, c)
    ensures Later(a, c)
  {
    forall id | id in a.requests ensures RowLater(a, c, id) {
      assert RowLater(a, b, id) && RowLater(b, c, id);
      assert RowHolds(a, id);
    }
  }

  lemma NothingSteps(db: Db)
    requires DbOk(db)
    ensures Steps(db, db)
  {
  }

  lemma OneRowSteps(db: Db, db': Db, id: Id)
    requires DbOk(db)
    requires db'.requests.Keys == db.requests.Keys + {id} && db'.proposals.Keys <= db.proposals.Keys + {id}
    requires RowStep(db, db', id)
    requires forall k :: k in db.requests && k != id ==> db'.requests[k] == db.requests[k]
    requires forall k :: k != id ==> ProposalOf(db', k) == ProposalOf(db, k)
    ensures Steps(db, db')
  {
    forall k | k in db'.requests ensures RowStep(db, db', k) {
      if k != id {
        assert RowHolds(db, k);
      }
    }
  }

  lemma ExpiringSteps(db: Db, user: Id, now: Instant)
    requires DbOk(db)
    ensures Steps(db, ExpireStale(db, user, now))
  {
    forall id | id in db.requests ensures RowStep(db, ExpireStale(db, user, now), id) {
      assert RowHolds(db, id);
    }
  }

  lemma SnapshotsKeepTheTarget(o: Services, v: Vault, t: Target)
    ensures Snapshot(o, v, t).Ok? ==> Snapshot(o, v, t).value.target == t
  {
  }

  lemma CreatingSteps(o: Services, db: Db, t: Target, g: Guard, now: Instant, lifetime: nat, grantEnds: Instant)
    requires DbOk(db) && t.request !in db.requests
    ensures Steps(db, Created(o, db, t, g, now, lifetime, grantEnds).db)
  {
    hide Snapshot, OrderFault;
    SnapshotsKeepTheTarget(o, db.vault, t);
    var db' := Created(o, db, t, g, now, lifetime, grantEnds).db;
    if db' != db {
      OneRowSteps(db, db', t.request);
    } else {
      NothingSteps(db);
    }
  }

  lemma SubmittingSteps(o: Services, db: Db, seen: Db, c: Call, g: Guard, t: Times)
    requires DbOk(db) && c.Submit?
    ensures Steps(db, SubmitEffect(o, db, seen, c, g, t).db)
  {
    hide SubmitPlan, CurrentInputs;
    var db' := SubmitEffect(o, db, seen, c, g, t).db;
    if db' != db {
      assert RowHolds(db, c.id);
      OneRowSteps(db, db', c.id);
    } else {
      NothingSteps(db);
    }
  }

  /** The parts of an acceptance that went through which the request row depends on. */
  lemma AcceptanceFacts(o: Services, db: Db, row: Request, c: Call, g: Guard, now: Instant)
    requires c.Accept? && Acceptance(o, db, row, c, g, now).Ok?
    ensures Swaps(db, c.id, c.user, {Returned}, c.expected, now)
    ensures c.id in db.proposals && g.during.None?
    ensures CurrentInputs(o, db.vault, row.target) == Some(row.inputs) && c.targets == row.inputs.revisions
    ensures Restored(o, db, row, c.id).Ok?
    ensures var payload := Restored(o, db, row, c.id).value;
            var h := Handled(o, db.vault, row, db.proposals[c.id], payload, now);
            && h.Ok? && Acceptance(o, db, row, c, g, now).value.0 == h.value.vault
    ensures var receipt := Acceptance(o, db, row, c, g, now).value.1;
            && receipt.request == c.id && receipt.proposal == db.proposals[c.id].id
            && Some(receipt.inputs) == CurrentInputs(o, Acceptance(o, db, row, c, g, now).value.0, row.target)
  {
    hide CurrentInputs, Handled;
  }

  lemma AcceptingSteps(o: Services, db: Db, seen: Db, c: Call, g: Guard, t: Times)
    requires DbOk(db) && c.Accept?
    ensures Steps(db, AcceptEffect(o, db, seen, c, g, t).db)
  {
    hide Acceptance, CurrentInputs, Steps, ReplayRefusal;
    var x := AcceptEffect(o, db, seen, c, g, t);
    if x.applied {
      var row := AcceptRow(seen, c, g, t.checked).value;
      AcceptanceFacts(o, db, row, c, g, t.now);
      assert RowHolds(db, c.id);
      OneRowSteps(db, x.db, c.id);
    } else {
      NothingSteps(db);
    }
  }

  lemma SwappingSteps(db: Db, id: Id, state: WorkState)
    requires DbOk(db) && id in db.requests
    requires state in {Canceled, Rejected}
    requires db.requests[id].state == Returned || (db.requests[id].state == Queued && state == Canceled)
    ensures Steps(db, Swapped(db, id, state))
  {
    assert RowHolds(db, id);
    OneRowSteps(db, Swapped(db, id, state), id);
  }

  lemma MovingSteps(db: Db, seen: Db, c: Call, g: Guard, now: Instant)
    requires DbOk(db) && (c.Cancel? || c.Refuse?)
    ensures Steps(db, MoveEffect(db, seen, c, g, now).db)
  {
    hide ExpireStale, Steps, DbOk, Swapped;
    ExpiringSteps(db, c.user, now);
    NothingSteps(db);
    if Swaps(db, c.id, c.user, SourcesOf(c), c.expected, now) {
      SwappingSteps(db, c.id, AimOf(c));
    }
  }

  lemma CallSteps(o: Services, db: Db, seen: Db, c: Call, g: Guard, t: Times)
    requires DbOk(db)
    ensures Steps(db, EffectOf(o, db, seen, c, g, t).db)
  {
    hide SubmitEffect, AcceptEffect, MoveEffect;
    match c {
      case Submit(_, _, _, _) => SubmittingSteps(o, db, seen, c, g, t);
      case Accept(_, _, _, _) => AcceptingSteps(o, db, seen, c, g, t);
      case Cancel(_, _, _) => MovingSteps(db, seen, c, g, t.now);
      case Refuse(_, _, _) => MovingSteps(db, seen, c, g, t.now);
    }
  }

  lemma NextSteps(o: Services, s: System, e: Event)
    requires DbOk(s.db) && Enabled(s, e)
    ensures Steps(s.db, Next(o, s, e).db)
  {
    hide EffectOf, Created, ExpireStale;
    match e {
      case Create(t, g, lifetime, grantEnds) => CreatingSteps(o, s.db, t, g, s.clock, lifetime, grantEnds);
      case Browse(user, now) => ExpiringSteps(s.db, user, now);
      case Finish(call, g, swap) =>
        var p := s.pending[call];
        CallSteps(o, s.db, p.seen, p.call, g, TimesAt(p, swap));
      case Edit(vault) =>
        forall id | id in s.db.requests ensures RowStep(s.db, Next(o, s, e).db, id) {
          assert RowHolds(s.db, id);
        }
      case _ => NothingSteps(s.db);
    }
  }

  // ---- The invariant ----

  /** Handlers committed for a request: one if it is accepted, none otherwise. */
  predicate AppliedOnce(s: System, id: Id) {
    s.applied[id] == if IsAccepted(s.db, id) then 1 else 0
  }

  predicate ReceiptStored(s: System, r: Receipt) {
    && IsAccepted(s.db, r.request)
    && s.db.requests[r.request].receipt == Some(r)
  }

  ghost predicate Inv(s: System) {
    && DbOk(s.db)
    && (forall call :: call in s.pending ==> DbOk(s.pending[call].seen) && Later(s.pending[call].seen, s.db))
    && (forall id :: AppliedOnce(s, id))
    && (forall r :: r in s.receipts ==> ReceiptStored(s, r))
  }

  lemma ReceiptStays(s: System, s': System, r: Receipt)
    requires Later(s.db, s'.db) && ReceiptStored(s, r)
    ensures ReceiptStored(s', r)
  {
    assert RowLater(s.db, s'.db, r.request);
  }

  predicate IsAccepted(db: Db, id: Id) {
    id in db.requests && db.requests[id].state == Accepted
  }

  predicate AnswersStored(x: Effect) {
    x.reply.Ok? && x.reply.value.Done? ==>
      var r := x.reply.value.accepted;
      IsAccepted(x.db, r.request) && x.db.requests[r.request].receipt == Some(r)
  }

  lemma WrittenAnswersStored(o: Services, db: Db, seen: Db, c: Call, g: Guard, t: Times)
    requires c.Accept? && AcceptEffect(o, db, seen, c, g, t).applied
    ensures AnswersStored(AcceptEffect(o, db, seen, c, g, t))
    ensures AcceptEffect(o, db, seen, c, g, t).db.requests.Keys == db.requests.Keys
    ensures Swaps(db, c.id, c.user, {Returned}, c.expected, t.now)
    ensures forall id :: id in db.requests && id != c.id ==>
      AcceptEffect(o, db, seen, c, g, t).db.requests[id] == db.requests[id]
    ensures IsAccepted(AcceptEffect(o, db, seen, c, g, t).db, c.id)
  {
    hide Acceptance, ReplayRefusal;
    AcceptanceFacts(o, db, AcceptRow(seen, c, g, t.checked).value, c, g, t.now);
  }

  lemma ReplayAnswersStored(o: Services, db: Db, seen: Db, c: Call, g: Guard, t: Times)
    requires c.Accept? && !AcceptEffect(o, db, seen, c, g, t).applied
    requires DbOk(seen) && Later(seen, db)
    ensures AcceptEffect(o, db, seen, c, g, t).db == db
    ensures AnswersStored(AcceptEffect(o, db, seen, c, g, t))
  {
    hide Acceptance, ReplayRefusal;
    if c.id in seen.requests {
      assert RowHolds(seen, c.id) && RowLater(seen, db, c.id);
    }
  }

  /** An acceptance call answers with the receipt that is stored, whether it wrote it or not. */
  lemma AcceptAnswersStored(o: Services, db: Db, seen: Db, c: Call, g: Guard, t: Times)
    requires DbOk(seen) && Later(seen, db)
    ensures AnswersStored(EffectOf(o, db, seen, c, g, t))
  {
    hide SubmitPlan, SubmitRefusal, AcceptEffect;
    if c.Accept? {
      if AcceptEffect(o, db, seen, c, g, t).applied {
        WrittenAnswersStored(o, db, seen, c, g, t);
      } else {
        ReplayAnswersStored(o, db, seen, c, g, t);
      }
    }
  }

  lemma SubmitAcceptsNothing(o: Services, db: Db, seen: Db, c: Call, g: Guard, t: Times, id: Id)
    requires c.Submit?
    ensures !SubmitEffect(o, db, seen, c, g, t).applied
    ensures IsAccepted(SubmitEffect(o, db, seen, c, g, t).db, id) == IsAccepted(db, id)
  {
    hide SubmitPlan, CurrentInputs;
  }

  lemma MoveAcceptsNothing(db: Db, seen: Db, c: Call, g: Guard, now: Instant, id: Id)
    requires c.Cancel? || c.Refuse?
    ensures !MoveEffect(db, seen, c, g, now).applied
    ensures IsAccepted(MoveEffect(db, seen, c, g, now).db, id) == IsAccepted(db, id)
  {
  }

  lemma AcceptAppliesOnce(o: Services, db: Db, seen: Db, c: Call, g: Guard, t: Times, id: Id)
    requires c.Accept?
    ensures var x := AcceptEffect(o, db, seen, c, g, t);
            && (x.applied && c.id == id <==> IsAccepted(x.db, id) && !IsAccepted(db, id))
            && (IsAccepted(db, id) ==> IsAccepted(x.db, id))
  {
    hide Acceptance, ReplayRefusal;
    if AcceptEffect(o, db, seen, c, g, t).applied {
      WrittenAnswersStored(o, db, seen, c, g, t);
    }
  }

  /** A handler's writes are committed in the same transaction that makes its request accepted. */
  lemma AppliedMeansAccepted(o: Services, db: Db, seen: Db, c: Call, g: Guard, t: Times, id: Id)
    ensures var x := EffectOf(o, db, seen, c, g, t);
            && (x.applied && c.id == id <==> IsAccepted(x.db, id) && !IsAccepted(db, id))
            && (IsAccepted(db, id) ==> IsAccepted(x.db, id))
  {
    hide SubmitEffect, AcceptEffect, MoveEffect;
    match c {
      case Submit(_, _, _, _) => SubmitAcceptsNothing(o, db, seen, c, g, t, id);
      case Accept(_, _, _, _) => AcceptAppliesOnce(o, db, seen, c, g, t, id);
      case Cancel(_, _, _) => MoveAcceptsNothing(db, seen, c, g, t.now, id);
      case Refuse(_, _, _) => MoveAcceptsNothing(db, seen, c, g, t.now, id);
    }
  }

  lemma FinishKeeps(o: Services, s: System, call: nat, g: Guard, swap: Instant)
    requires Inv(s) && call in s.pending && Enabled(s, Finish(call, g, swap))
    ensures Inv(Next(o, s, Finish(call, g, swap)))
  {
    hide EffectOf, RowLater;
    var p := s.pending[call];
    var s' := Next(o, s, Finish(call, g, swap));
    var x := FinishEffect(o, s, call, g, swap);
    NextSteps(o, s, Finish(call, g, swap));
    StepIsLater(s.db, s'.db);
    forall k | k in s'.pending ensures DbOk(s'.pending[k].seen) && Later(s'.pending[k].seen, s'.db) {
      LaterAndLater(s.pending[k].seen, s.db, s'.db);
    }
    forall id ensures AppliedOnce(s', id) {
      AppliedMeansAccepted(o, s.db, p.seen, p.call, g, TimesAt(p, swap), id);
      assert AppliedOnce(s, id);
    }
    forall r | r in s'.receipts ensures ReceiptStored(s', r) {
      if r in s.receipts {
        ReceiptStays(s, s', r);
      } else {
        AcceptAnswersStored(o, s.db, p.seen, p.call, g, TimesAt(p, swap));
      }
    }
  }

  lemma QuietKeeps(o: Services, s: System, e: Event)
    requires Inv(s) && Enabled(s, e) && !e.Finish?
    ensures Inv(Next(o, s, e))
  {
    hide Created, ExpireStale, RowLater;
    var s' := Next(o, s, e);
    NextSteps(o, s, e);
    StepIsLater(s.db, s'.db);
    NothingIsLater(s.db);
    forall k | k in s'.pending ensures DbOk(s'.pending[k].seen) && Later(s'.pending[k].seen, s'.db) {
      if k in s.pending {
        LaterAndLater(s.pending[k].seen, s.db, s'.db);
      }
    }
    forall id ensures AppliedOnce(s', id) {
      assert AppliedOnce(s, id);
      QuietAcceptsNothing(o, s, e, id);
    }
    forall r | r in s'.receipts ensures ReceiptStored(s', r) {
      ReceiptStays(s, s', r);
    }
  }

  lemma CreateAcceptsNothing(o: Services, db: Db, t: Target, g: Guard, now: Instant, lifetime: nat, grantEnds: Instant, id: Id)
    requires t.request !in db.requests
    ensures IsAccepted(Created(o, db, t, g, now, lifetime, grantEnds).db, id) == IsAccepted(db, id)
  {
    hide Snapshot, OrderFault;
  }

  lemma QuietAcceptsNothing(o: Services, s: System, e: Event, id: Id)
    requires Enabled(s, e) && !e.Finish?
    ensures IsAccepted(Next(o, s, e).db, id) == IsAccepted(s.db, id)
  {
    hide Created;
    if e.Create? {
      CreateAcceptsNothing(o, s.db, e.target, e.guard, s.clock, e.lifetime, e.grantEnds, id);
    }
  }

  /** Every run from an empty queue keeps the invariant. */
  lemma {:induction false} EveryRunKeeps(o: Services, vault: Vault, clock: Instant, events: seq<Event>)
    ensures Inv(Run(o, Start(vault, clock), events))
  {
    hide Next, Enabled, Inv;
    if events == [] {
      StartHolds(vault, clock);
    } else {
      var before := Run(o, Start(vault, clock), events[..|events| - 1]);
      var e := events[|events| - 1];
      EveryRunKeeps(o, vault, clock, events[..|events| - 1]);
      if Enabled(before, e) {
        NextKeeps(o, before, e);
      }
    }
  }

  lemma StartHolds(vault: Vault, clock: Instant)
    ensures Inv(Start(vault, clock))
  {
  }

  lemma NextKeeps(o: Services, s: System, e: Event)
    requires Inv(s) && Enabled(s, e)
    ensures Inv(Next(o, s, e))
  {
    hide Inv, Next;
    if e.Finish? {
      FinishIsPending(s, e);
      FinishKeeps(o, s, e.call, e.guard, e.swap);
    } else {
      QuietKeeps(o, s, e);
    }
  }

  lemma FinishIsPending(s: System, e: Event)
    requires e.Finish? && Enabled(s, e)
    ensures e.call in s.pending
  {
  }
}
