/**
 The frozen inputs of a work request: the snapshot a worker is shown and the revisions an
 acceptance is checked against (backend/agent_work/context.py:138-340, guards.py:51-80).
 */
module WorkContext {
  import opened Wrappers
  import opened WorkTypes

  const MAX_FACTS := 100

  function Chosen(facts: seq<Fact>, selected: Option<set<Id>>): seq<Fact> {
    if selected.None? then facts
    else if facts == [] then []
    else (if facts[0].id in selected.value then [facts[0]] else []) + Chosen(facts[1..], selected)
  }

  function FactIds(facts: seq<Fact>): set<Id> {
    set f | f in facts :: f.id
  }

  function OwnedJob(v: Vault, user: Id, job: Id): Option<Job> {
    if job in v.jobs && v.jobs[job].owner == user then Some(v.jobs[job]) else None
  }

  function OwnedApplication(v: Vault, user: Id, app: Id): Option<Application> {
    if app in v.applications && v.applications[app].owner == user then Some(v.applications[app]) else None
  }

  /** A CV draft belongs to a profile, so an owner without a profile has none. */
  function OwnedResume(v: Vault, user: Id, resume: Id): Option<Resume> {
    if user in v.profiles && resume in v.resumes && v.resumes[resume].owner == user
    then Some(v.resumes[resume]) else None
  }

  function ProfileFacts(v: Vault, user: Id): seq<Fact> {
    if user in v.profiles then v.profiles[user].facts else []
  }

  function FactsFault(v: Vault, t: Target): Option<ErrorCode> {
    var facts := Chosen(ProfileFacts(v, t.user), t.selected);
    if |facts| > MAX_FACTS then Some(InvalidResult)
    else if t.selected.Some? && FactIds(facts) != t.selected.value then Some(EvidenceInvalid)
    else None
  }

  function JobFault(v: Vault, t: Target): Option<ErrorCode> {
    if t.job.None? then None
    else
      var job := OwnedJob(v, t.user, t.job.value);
      if job.None? || job.value.listing.None? then Some(WorkNotFound) else None
  }

  function ApplicationFault(v: Vault, t: Target): Option<ErrorCode> {
    if t.application.None? then None
    else
      var app := OwnedApplication(v, t.user, t.application.value);
      if app.None? then Some(WorkNotFound)
      else if t.job.Some? && app.value.job != t.job then Some(InvalidResult)
      else None
  }

  function ResumeFault(v: Vault, t: Target): Option<ErrorCode> {
    if t.resume.Some? && OwnedResume(v, t.user, t.resume.value).None? then Some(WorkNotFound)
    else if t.kind == Analyze && t.job.None? then Some(InvalidResult)
    else None
  }

  function Revised(v: Vault, t: Target): Revisions {
    Revisions(
      if t.user in v.profiles then Some(v.profiles[t.user].revision) else None,
      if t.job.Some? && OwnedJob(v, t.user, t.job.value).Some? && v.jobs[t.job.value].listing.Some?
      then Some(v.jobs[t.job.value].listing.value.revision) else None,
      if t.application.Some? && OwnedApplication(v, t.user, t.application.value).Some?
      then Some(v.applications[t.application.value].revision) else None,
      if t.resume.Some? && OwnedResume(v, t.user, t.resume.value).Some?
      then Some(v.resumes[t.resume.value].revision) else None,
      if t.application.Some? && t.application.value in v.dossiers
      then Some(v.dossiers[t.application.value].revision) else None)
  }

  /** The listing of the job, or else the snapshot kept with the application. */
  function Advert(v: Vault, t: Target): Option<Listing> {
    if t.job.Some? then
      if t.job.value in v.jobs then v.jobs[t.job.value].listing else None
    else if t.application.Some? && t.application.value in v.applications
    then Some(v.applications[t.application.value].snapshot) else None
  }

  function Seen(v: Vault, t: Target): Context {
    Context(t, Chosen(ProfileFacts(v, t.user), t.selected),
            if t.user in v.profiles then Some(v.profiles[t.user].preferences) else None,
            Advert(v, t), Revised(v, t))
  }

  /** `build_context_snapshot` */
  function Snapshot(o: Services, v: Vault, t: Target): Outcome<Context> {
    if FactsFault(v, t).Some? then Err(FactsFault(v, t).value)
    else if !o.legible(Seen(v, t).facts, Seen(v, t).preferences, t.preset) then Err(InvalidResult)
    else if JobFault(v, t).Some? then Err(JobFault(v, t).value)
    else if ApplicationFault(v, t).Some? then Err(ApplicationFault(v, t).value)
    else if ResumeFault(v, t).Some? then Err(ResumeFault(v, t).value)
    else if !o.representable(Seen(v, t)) then Err(InvalidResult)
    else Ok(Seen(v, t))
  }

  // ---- What a snapshot shows ----

  /** `at` lists the places of the selected facts, in the order of the profile. */
  ghost predicate Places(facts: seq<Fact>, selected: Option<set<Id>>, at: seq<nat>) {
    && (forall k :: 0 <= k < |at| ==> at[k] < |facts|)
    && (forall j, k :: 0 <= j < k < |at| ==> at[j] < at[k])
    && (forall i :: 0 <= i < |facts| ==> (i in at <==> selected.None? || facts[i].id in selected.value))
  }

  /** The facts at some places. */
  function Picked(facts: seq<Fact>, at: seq<nat>): seq<Fact>
    requires forall k :: 0 <= k < |at| ==> at[k] < |facts|
  {
    seq(|at|, k requires 0 <= k < |at| => facts[at[k]])
  }

  lemma OneLater(rest: seq<nat>) returns (later: seq<nat>)
    ensures |later| == |rest| && forall k :: 0 <= k < |rest| ==> later[k] == rest[k] + 1
    ensures forall i: nat :: i in later <==> i > 0 && i - 1 in rest
  {
    later := seq(|rest|, k requires 0 <= k < |rest| => rest[k] + 1);
    forall i: nat ensures i in later <==> i > 0 && i - 1 in rest {
      if i > 0 && i - 1 in rest {
        var k :| 0 <= k < |rest| && rest[k] == i - 1;
        assert later[k] == i;
      }
    }
  }

  lemma PlacesBehind(facts: seq<Fact>, selected: Option<set<Id>>, rest: seq<nat>, later: seq<nat>)
    requires facts != [] && selected.Some? && Places(facts[1..], selected, rest)
    requires |later| == |rest| && forall k :: 0 <= k < |rest| ==> later[k] == rest[k] + 1
    requires forall i: nat :: i in later <==> i > 0 && i - 1 in rest
    ensures Places(facts, selected, (if facts[0].id in selected.value then [0] else []) + later)
  {
    var front := if facts[0].id in selected.value then [0] else [];
    forall i | 0 <= i < |facts| ensures i in front + later <==> facts[i].id in selected.value {
      assert i in front + later <==> i in front || i in later;
      if i > 0 {
        assert facts[i] == facts[1..][i - 1];
      }
    }
  }

  lemma PickedBehind(facts: seq<Fact>, front: seq<nat>, rest: seq<nat>, later: seq<nat>)
    requires facts != [] && front in {[], [0]}
    requires forall k :: 0 <= k < |rest| ==> rest[k] < |facts[1..]|
    requires |later| == |rest| && forall k :: 0 <= k < |rest| ==> later[k] == rest[k] + 1
    ensures forall k :: 0 <= k < |front + later| ==> (front + later)[k] < |facts|
    ensures Picked(facts, front + later) == (if front == [] then [] else [facts[0]]) + Picked(facts[1..], rest)
  {
    if front == [] {
      assert front + later == later;
    } else {
      assert (front + later)[0] == 0 && forall k :: 1 <= k < |front + later| ==> (front + later)[k] == later[k - 1];
    }
  }

  /** The facts that are shown are all the selected ones and no other, in the order of the profile. */
  lemma {:induction false} ChosenInOrder(facts: seq<Fact>, selected: Option<set<Id>>) returns (at: seq<nat>)
    ensures Places(facts, selected, at) && Chosen(facts, selected) == Picked(facts, at)
  {
    if selected.None? {
      at := seq(|facts|, i => i);
      forall i | 0 <= i < |facts| ensures i in at {
        assert at[i] == i;
      }
    } else if facts == [] {
      at := [];
    } else {
      var rest := ChosenInOrder(facts[1..], selected);
      var later := OneLater(rest);
      var front := if facts[0].id in selected.value then [0] else [];
      at := front + later;
      PlacesBehind(facts, selected, rest, later);
      PickedBehind(facts, front, rest, later);
      hide Places, Picked;
      assert Chosen(facts, selected) == (if front == [] then [] else [facts[0]]) + Chosen(facts[1..], selected);
    }
  }

  lemma ChosenExactly(facts: seq<Fact>, selected: Option<set<Id>>, f: Fact)
    ensures f in Chosen(facts, selected) <==> f in facts && (selected.None? || f.id in selected.value)
  {
    hide Chosen;
    var chosen := Chosen(facts, selected);
    var at := ChosenInOrder(facts, selected);
    if k :| 0 <= k < |at| && chosen[k] == f {
      assert f == facts[at[k]] && at[k] in at;
    }
    if i :| 0 <= i < |facts| && facts[i] == f && (selected.None? || f.id in selected.value) {
      var k :| 0 <= k < |at| && at[k] == i;
      assert chosen[k] == f;
    }
  }

  /** A snapshot shows the selected facts of the owner's profile and no other, the listing of the
      job or else the one kept with the application, and the revisions of what it was made from. */
  lemma SnapshotShowsExactly(o: Services, v: Vault, t: Target, f: Fact)
    requires Snapshot(o, v, t).Ok?
    ensures var c := Snapshot(o, v, t).value;
      && (f in c.facts <==>
            t.user in v.profiles && f in v.profiles[t.user].facts && (t.selected.None? || f.id in t.selected.value))
      && c.target == t
      && c.preferences == (if t.user in v.profiles then Some(v.profiles[t.user].preferences) else None)
      && (t.job.Some? ==> t.job.value in v.jobs && c.advert == v.jobs[t.job.value].listing && c.advert.Some?)
      && (t.job.None? && t.application.Some? ==>
            t.application.value in v.applications && c.advert == Some(v.applications[t.application.value].snapshot))
      && (t.job.None? && t.application.None? ==> c.advert.None?)
      && c.revisions.profile == (if t.user in v.profiles then Some(v.profiles[t.user].revision) else None)
      && (if t.job.Some? then c.revisions.job == Some(c.advert.value.revision) else c.revisions.job.None?)
      && (if t.application.Some? then c.revisions.application == Some(v.applications[t.application.value].revision)
          else c.revisions.application.None?)
      && (if t.resume.Some?
          then t.resume.value in v.resumes && c.revisions.resume == Some(v.resumes[t.resume.value].revision)
          else c.revisions.resume.None?)
      && (if t.application.Some? && t.application.value in v.dossiers
          then c.revisions.dossier == Some(v.dossiers[t.application.value].revision)
          else c.revisions.dossier.None?)
  {
    ChosenExactly(ProfileFacts(v, t.user), t.selected, f);
    hide Chosen, FactIds;
  }

  /** What a snapshot is made of has to be the owner's, complete and consistent: a hundred facts at
      most, every selected one, a job with a listing, an application for the same job, a CV of the
      owner's profile, and a job for an analysis. */
  lemma SnapshotExistsExactly(o: Services, v: Vault, t: Target)
    ensures Snapshot(o, v, t).Ok? <==>
      && |Chosen(ProfileFacts(v, t.user), t.selected)| <= 100
      && (t.selected.Some? ==> forall id :: id in t.selected.value ==>
            t.user in v.profiles && exists f :: f in v.profiles[t.user].facts && f.id == id)
      && (t.job.Some? ==> t.job.value in v.jobs && v.jobs[t.job.value].owner == t.user && v.jobs[t.job.value].listing.Some?)
      && (t.application.Some? ==>
            && t.application.value in v.applications && v.applications[t.application.value].owner == t.user
            && (t.job.Some? ==> v.applications[t.application.value].job == t.job))
      && (t.resume.Some? ==>
            t.user in v.profiles && t.resume.value in v.resumes && v.resumes[t.resume.value].owner == t.user)
      && (t.kind == Analyze ==> t.job.Some?)
      && o.legible(Seen(v, t).facts, Seen(v, t).preferences, t.preset) && o.representable(Seen(v, t))
  {
    if t.selected.Some? {
      SelectionIsFound(ProfileFacts(v, t.user), t.selected);
    }
    hide Chosen, FactIds, Revised, Advert;
  }

  lemma SelectionIsFound(facts: seq<Fact>, selected: Option<set<Id>>)
    requires selected.Some?
    ensures FactIds(Chosen(facts, selected)) == selected.value <==>
      forall id :: id in selected.value ==> exists f :: f in facts && f.id == id
  {
    var chosen := Chosen(facts, selected);
    hide Chosen;
    forall f ensures f in chosen <==> f in facts && f.id in selected.value {
      ChosenExactly(facts, selected, f);
    }
    assert forall id :: id in FactIds(chosen) <==> exists f :: f in chosen && f.id == id;
  }

  function InputsOf(o: Services, c: Context): Inputs {
    Inputs(o.contextDigest(c), c.revisions)
  }

  /** `current_input_state`: whatever is wrong, the inputs are stale. */
  function CurrentInputs(o: Services, v: Vault, t: Target): Option<Inputs> {
    match Snapshot(o, v, t)
    case Ok(c) => Some(InputsOf(o, c))
    case Err(_) => None
  }

  function Assessed(v: Vault, job: Id, a: Assessment): Vault
    requires job in v.jobs
  {
    v.(jobs := v.jobs[job := v.jobs[job].(assessment := a)])
  }

  lemma AssessmentHidesNothing(v: Vault, t: Target, job: Id, a: Assessment)
    requires job in v.jobs
    ensures Advert(Assessed(v, job, a), t) == Advert(v, t)
    ensures JobFault(Assessed(v, job, a), t) == JobFault(v, t)
    ensures Revised(Assessed(v, job, a), t).job == Revised(v, t).job
  {
  }

  /** A change of the analysis columns of a job is invisible to every snapshot: the reason why an
      accepted analysis does not make its own inputs stale. */
  lemma AssessmentsAreInvisible(o: Services, v: Vault, t: Target, job: Id, a: Assessment)
    requires job in v.jobs
    ensures Snapshot(o, Assessed(v, job, a), t) == Snapshot(o, v, t)
  {
    hide Chosen, JobFault, Advert;
    AssessmentHidesNothing(v, t, job, a);
    assert Revised(Assessed(v, job, a), t) == Revised(v, t);
  }
}
