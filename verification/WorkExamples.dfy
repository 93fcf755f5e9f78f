/**
 A concrete afternoon in the work queue: one owner asks twice for an assessment of the same
 advert, a worker answers both requests, and both answers are accepted. It serves to show what
 the theorems about whole runs leave open.
 */
module WorkExamples {
  import opened Wrappers
  import opened WorkTypes
  import opened WorkContext
  import opened WorkValidation
  import opened AnalysisAcceptance
  import opened WorkLifecycle
  import opened WorkRuns
  import opened WorkTheorems

  predicate SaysSo(c: Context, text: string, ids: seq<Id>) {
    forall i :: i in ids ==> exists f :: f in c.facts && f.id == i && f.text == text
  }

  /** A claim is grounded when every fact it cites says just that; digests tell the two requests
      and the two answers apart. */
  function Strict(): Services {
    Lenient().(
      contextDigest := (c: Context) => if c.target.request == 1 then "1" else "2",
      payloadDigest := (p: Payload) => if p.Analysis? && p.recommendation == WeakFit then "weak" else "open",
      grounded := SaysSo)
  }

  function Desk(): Vault {
    Nothing().(
      profiles := map[1 := Profile(1, [Fact(9, "language", "Speaks German")], Preferences(false, false, ""))],
      jobs := map[5 := Job(1, Some(Listing("Clerk", "Acme", "Bern", "German required", 1)), map[])])
  }

  function Ask(id: Id): Target {
    Target(1, id, 3, Analyze, "Judge this advert", Some(5), None, None, None, None)
  }

  function Asked(id: Id): Request {
    var c := Seen(Desk(), Ask(id));
    Request(Ask(id), c, InputsOf(Strict(), c), 24, Queued, 1, None)
  }

  const SIX := [
    Gate(Role, Reject, [], [], ["?"]), Gate(Requirements, Reject, [], [], ["?"]),
    Gate(Language, Reject, [9], [], ["?"]), Gate(Location, Reject, [], [], ["?"]),
    Gate(Contract, Reject, [], [], ["?"]), Gate(Freshness, Reject, [], [], ["?"])]

  const ZERO := Scores(0, 0, 0, 0, 0, 0, 0)

  /** The two answers differ in the wording of the verdict only. */
  function Answer(id: Id): Payload {
    Analysis(SIX, ZERO, [Claim("Speaks German", [9], None)], if id == 1 then WeakFit else InsufficientEvidence)
  }

  function Proposed(id: Id): Proposal {
    Proposal(id + 10, 3, "key", "agent", Strict().payloadDigest(Answer(id)), Answer(id), 0)
  }

  function Sent(id: Id): Call {
    Submit(1, 3, id, Submission(id, Asked(id).inputs.digest, "key", "agent", Answer(id), id + 10))
  }

  function Taken(id: Id): Call {
    Accept(1, id, 2, Asked(id).inputs.revisions)
  }

  function Exchange(call: nat, c: Call): seq<Event> {
    [Begin(call, c, Times(0, 0)), Finish(call, OPEN, 0)]
  }

  function Orders(): seq<Event> {
    [Create(Ask(1), OPEN, 24, 100), Create(Ask(2), OPEN, 24, 100)]
  }

  function Afternoon(): seq<Event> {
    Orders() + Exchange(0, Sent(1)) + Exchange(1, Sent(2)) + Exchange(2, Taken(1)) + Exchange(3, Taken(2))
  }

  // ---- What each call does ----

  /** The desk with any analysis on its job. */
  predicate IsDesk(v: Vault) {
    5 in v.jobs && v == Assessed(Desk(), 5, v.jobs[5].assessment)
  }

  lemma DeskInputs(v: Vault, id: Id)
    requires IsDesk(v)
    ensures Snapshot(Strict(), v, Ask(id)) == Ok(Asked(id).context)
    ensures CurrentInputs(Strict(), v, Ask(id)) == Some(Asked(id).inputs)
  {
    AssessmentsAreInvisible(Strict(), Desk(), Ask(id), 5, v.jobs[5].assessment);
  }

  lemma NoFaults(c: Context, gates: seq<Gate>, s: Source)
    requires forall g :: g in gates ==> g.status == Reject && g.unknowns != [] && g.quotes == [] && Cited(c, g.facts)
    ensures FirstFault(Strict(), c, gates, ZERO, s) == None
  {
  }

  lemma SixDimensionsAreCovered()
    ensures OneGatePerDimension(SIX)
  {
    var wanted := set d | d in DIMENSIONS;
    forall d | d in wanted ensures d in DimensionsOf(SIX) {
      assert SIX[0].dimension == Role && SIX[1].dimension == Requirements && SIX[2].dimension == Language;
      assert SIX[3].dimension == Location && SIX[4].dimension == Contract && SIX[5].dimension == Freshness;
      assert exists k :: 0 <= k < 6 && SIX[k].dimension == d;
    }
    assert DimensionsOf(SIX) == wanted;
  }

  lemma AnswerStands(id: Id)
    ensures Reviewed(Strict(), Asked(id).context, Answer(id)) == Ok(Answer(id))
  {
    hide FirstFault, OneGatePerDimension, Eligibility;
    var c := Asked(id).context;
    SixDimensionsAreCovered();
    assert c.facts == [Fact(9, "language", "Speaks German")];
    assert c.facts[0].id == 9;
    NoFaults(c, SIX, SourceOf(c.advert));
    FitScoreBounds(ZERO);
  }

  function OnTable(id: Id): Request {
    Asked(id).(state := Returned, revision := 2)
  }

  function ReceiptFor(id: Id): Receipt {
    Receipt(id, id + 10, Analyze, 0, Some(5), [], [], Asked(id).inputs, None)
  }

  function Settled(id: Id): Request {
    Asked(id).(state := Accepted, revision := 3, receipt := Some(ReceiptFor(id)))
  }

  lemma SendingWorks(db: Db, id: Id)
    requires IsDesk(db.vault) && id in db.requests && db.requests[id] == Asked(id) && id !in db.proposals
    ensures EffectOf(Strict(), db, db, Sent(id), OPEN, Times(0, 0)).db
         == Db(db.requests[id := OnTable(id)], db.proposals[id := Proposed(id)], db.vault)
  {
    hide Reviewed, CurrentInputs, IsDesk, Seen;
    DeskInputs(db.vault, id);
    AnswerStands(id);
  }

  function Verdict(id: Id): Assessment {
    AssessmentOf(Asked(id), Proposed(id), Answer(id), 0)
  }

  lemma AssessedDesk(v: Vault, a: Assessment)
    requires IsDesk(v)
    ensures 5 in v.jobs && IsDesk(Assessed(v, 5, a)) && forall id :: HasJob(v, OnTable(id))
  {
    hide Seen;
  }

  lemma AcceptanceWorks(db: Db, id: Id)
    requires IsDesk(db.vault) && id in db.requests && db.requests[id] == OnTable(id)
    requires id in db.proposals && db.proposals[id] == Proposed(id)
    ensures 5 in db.vault.jobs
    ensures Acceptance(Strict(), db, OnTable(id), Taken(id), OPEN, 0)
         == Ok((Assessed(db.vault, 5, Verdict(id)), ReceiptFor(id)))
  {
    hide Reviewed, CurrentInputs, Seen, AssessmentOf, IsDesk, HasJob;
    AssessedDesk(db.vault, Verdict(id));
    DeskInputs(db.vault, id);
    AnswerStands(id);
    DeskInputs(Assessed(db.vault, 5, Verdict(id)), id);
    assert Restored(Strict(), db, OnTable(id), id) == Ok(Answer(id));
    assert AssessmentOf(OnTable(id), Proposed(id), Answer(id), 0) == Verdict(id) by {
      SameVerdict(id);
    }
    assert Handled(Strict(), db.vault, OnTable(id), Proposed(id), Answer(id), 0)
        == Ok(Handling(Assessed(db.vault, 5, Verdict(id)), [], [], None));
  }

  lemma SameVerdict(id: Id)
    ensures AssessmentOf(OnTable(id), Proposed(id), Answer(id), 0) == Verdict(id)
  {
    hide Seen;
  }

  lemma TakingWorks(db: Db, id: Id)
    requires IsDesk(db.vault) && id in db.requests && db.requests[id] == OnTable(id)
    requires id in db.proposals && db.proposals[id] == Proposed(id)
    ensures EffectOf(Strict(), db, db, Taken(id), OPEN, Times(0, 0))
         == Effect(Db(db.requests[id := Settled(id)], db.proposals, Assessed(db.vault, 5, Verdict(id))),
                   Ok(Done(ReceiptFor(id))), true)
  {
    hide Acceptance, Seen, AssessmentOf, IsDesk;
    AcceptanceWorks(db, id);
  }

  // ---- The whole afternoon ----

  predicate Idle(s: System) {
    s.clock == 0 && s.pending == map[]
  }

  lemma ExchangeRuns(s: System, events: seq<Event>, call: nat, c: Call)
    requires Idle(Run(Strict(), s, events))
    ensures var before := Run(Strict(), s, events);
            var x := EffectOf(Strict(), before.db, before.db, c, OPEN, Times(0, 0));
            var after := Run(Strict(), s, events + Exchange(call, c));
            Idle(after) && after.db == x.db
  {
    hide Run, EffectOf, Strict;
    var e, f := Begin(call, c, Times(0, 0)), Finish(call, OPEN, 0);
    LastEvent(Strict(), s, events, e);
    LastEvent(Strict(), s, events + [e], f);
    assert events + Exchange(call, c) == events + [e] + [f];
  }

  function Opened(): Db {
    Db(map[1 := Asked(1), 2 := Asked(2)], map[], Desk())
  }

  function Closed(): Db {
    Db(map[1 := Settled(1), 2 := Settled(2)], map[1 := Proposed(1), 2 := Proposed(2)],
       Assessed(Desk(), 5, Verdict(2)))
  }

  function Noon(): System {
    Start(Desk(), 0)
  }

  lemma OrderWorks(db: Db, id: Id)
    requires db.vault == Desk()
    ensures Created(Strict(), db, Ask(id), OPEN, 0, 24, 100).db == db.(requests := db.requests[id := Asked(id)])
  {
    hide Snapshot, Seen, Strict;
    assert Desk() == Assessed(Desk(), 5, map[]);
    DeskInputs(Desk(), id);
  }

  lemma OrdersRun()
    ensures Run(Strict(), Noon(), Orders()) == Noon().(db := Opened())
  {
    hide Run, Created, Asked, Strict;
    NoEvents(Strict(), Noon());
    LastEvent(Strict(), Noon(), [], Orders()[0]);
    LastEvent(Strict(), Noon(), [Orders()[0]], Orders()[1]);
    assert [] + [Orders()[0]] == [Orders()[0]];
    assert [Orders()[0]] + [Orders()[1]] == Orders();
    OrderWorks(Noon().db, 1);
    OrderWorks(Noon().db.(requests := map[1 := Asked(1)]), 2);
  }

  /** Both requests end up accepted, and the job shows the second answer. */
  lemma AfternoonRuns()
    ensures Idle(Run(Strict(), Noon(), Afternoon()))
    ensures Run(Strict(), Noon(), Afternoon()).db == Closed()
  {
    hide Run, EffectOf, Asked, Strict, Verdict, Answer, Proposed, Exchange, Orders, Sent, Taken;
    OrdersRun();
    var a := Orders() + Exchange(0, Sent(1));
    var b := a + Exchange(1, Sent(2));
    var c := b + Exchange(2, Taken(1));
    assert Desk() == Assessed(Desk(), 5, map[]);
    ExchangeRuns(Noon(), Orders(), 0, Sent(1));
    SendingWorks(Opened(), 1);
    ExchangeRuns(Noon(), a, 1, Sent(2));
    SendingWorks(Run(Strict(), Noon(), a).db, 2);
    ExchangeRuns(Noon(), b, 2, Taken(1));
    TakingWorks(Run(Strict(), Noon(), b).db, 1);
    ExchangeRuns(Noon(), c, 3, Taken(2));
    TakingWorks(Run(Strict(), Noon(), c).db, 2);
  }

  /** The afternoon once more, and a repeated acceptance of the first request that begins a day
      later, when the request has run out. */
  function NextDay(): seq<Event> {
    Afternoon() + [Tick(24), Begin(4, Taken(1), Times(24, 24))]
  }

  /** An accepted request whose acceptance is repeated after the request's time gets an error and
      not its receipt, though nothing else has changed. */
  lemma LateReplaysFail()
    ensures var s := Run(Strict(), Noon(), NextDay());
            && 4 in s.pending && s.pending[4].call == Taken(1) && Enabled(s, Finish(4, OPEN, 24))
            && 1 in s.db.requests && s.db.requests[1].state == Accepted
            && s.db.requests[1].receipt == Some(ReceiptFor(1))
            && FinishEffect(Strict(), s, 4, OPEN, 24) == Effect(s.db, Err(WorkExpired), false)
            && EffectOf(Strict(), s.db, s.db, Taken(1), OPEN, Times(23, 23))
                 == Effect(s.db, Ok(Done(ReceiptFor(1))), false)
  {
    hide Run, Afternoon, Strict, Seen, Acceptance, Verdict, Snapshot, CurrentInputs;
    AfternoonRuns();
    var tick, begin := Tick(24), Begin(4, Taken(1), Times(24, 24));
    LastEvent(Strict(), Noon(), Afternoon(), tick);
    LastEvent(Strict(), Noon(), Afternoon() + [tick], begin);
    assert NextDay() == Afternoon() + [tick] + [begin];
    assert Desk() == Assessed(Desk(), 5, map[]);
    DeskInputs(Closed().vault, 1);
  }
}
