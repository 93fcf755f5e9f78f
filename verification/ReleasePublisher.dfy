/**
 Publication of releases (scripts/publish_github_release.py) as a protocol: any number of
 publishers, one live run for each version, act on one remote repository. One API call is one
 atomic step; a write whose answer is lost was applied or was not. `Act` is one step of
 `Publisher.publish`, `Apply` one event of the whole system, and `Execute` any run of it,
 with crashes, restarts and interleavings in every order.
 */
module ReleasePublisher {

  datatype Version = Version(major: nat, minor: nat, patch: nat) {
    /** The order of the integer triples of `_version_key`. */
    predicate Before(other: Version) {
      || major < other.major
      || (major == other.major && minor < other.minor)
      || (major == other.major && minor == other.minor && patch < other.patch)
    }
  }

  /** A tag "v" + stable version, a tag "v" + anything else, or another tag. */
  datatype Tag = Stable(version: Version) | Unstable(text: string) | Foreign(text: string)

  /** `contract` stands for commit, name, body and prerelease flag; `careeros` says that the
      name or the body marks a CareerOS release. */
  datatype Release = Release(tag: Tag, contract: string, careeros: bool, draft: bool, immutable: bool)

  /** `uploaded` says that the remote state is "uploaded" and the digest is visible. */
  datatype Asset = Asset(content: string, uploaded: bool)

  datatype Candidate = Candidate(version: Version, contract: string, expected: map<string, string>)

  const UPLOAD_POLLS: nat := 12
  const PUBLISH_POLLS: nat := 12
  const LATEST_POLLS: nat := 12

  datatype Stage =
    | Discover
    | Create
    | Reconcile
    | Inspect(id: nat)
    | Upload(id: nat, queue: seq<string>)
    | Await(id: nat, queue: seq<string>, attempt: nat)
    | Confirm(id: nat)
    | Rediscover(id: nat)
    | Promote(id: nat)
    | Poll(id: nat, attempt: nat)
    | Verify(id: nat)
    | Latest(id: nat, attempt: nat)
    | Done(id: nat)
    | Failed

  datatype Run = Run(candidate: Candidate, stage: Stage)

  /** `promoted` is a history: the versions whose promotion was applied, in order. */
  datatype State = State(
    releases: map<nat, Release>,
    assets: map<nat, map<string, Asset>>,
    latest: int,
    nextId: nat,
    runs: map<Version, Run>,
    promoted: seq<Version>)

  /** What became of a write: answered, lost after or before it was applied, or refused. */
  datatype Answer = Success | LostApplied | LostUnapplied | Refused

  datatype Event =
    | Start(candidate: Candidate)
    | Crash(version: Version)
    | Step(version: Version, answer: Answer)
    | AssetSettles(assetRelease: nat, name: string)
    | BecomesImmutable(release: nat)

  // --- Reads ---

  ghost function Tagged(s: State, v: Version): set<nat> {
    set id | id in s.releases && s.releases[id].tag == Stable(v)
  }

  /** A CareerOS draft under another tag. */
  ghost predicate Blocks(s: State, v: Version, id: nat) {
    id in s.releases && s.releases[id].draft && s.releases[id].careeros && s.releases[id].tag != Stable(v)
  }

  datatype Found = Blocked | Absent | Present(id: nat)

  /** `_discover`. */
  ghost function Discovery(s: State, v: Version): (found: Found)
    ensures found.Present? ==> Tagged(s, v) == {found.id}
    ensures found.Absent? ==> Tagged(s, v) == {}
    ensures !found.Blocked? ==> forall id :: !Blocks(s, v, id)
  {
    if exists id :: Blocks(s, v, id) then Blocked
    else if Tagged(s, v) == {} then Absent
    else if exists id :: Tagged(s, v) == {id} then
      var id :| Tagged(s, v) == {id};
      Present(id)
    else Blocked
  }

  /** `_assert_sequence`: a published release of another tag must be of an earlier version. */
  ghost predicate Precedes(r: Release, v: Version) {
    r.draft || r.tag.Foreign? || r.tag == Stable(v) || (r.tag.Stable? && r.tag.version.Before(v))
  }

  ghost predicate Advances(s: State, v: Version) {
    forall id :: id in s.releases ==> Precedes(s.releases[id], v)
  }

  /** `_assert_identity`; an equal name and body carry the CareerOS marks too. */
  predicate Identical(r: Release, c: Candidate, draft: bool, immutable: bool) {
    r.tag == Stable(c.version) && r.contract == c.contract && r.careeros && r.draft == draft && r.immutable == immutable
  }

  predicate Matches(actual: map<string, Asset>, c: Candidate, name: string) {
    name in actual && name in c.expected && actual[name] == Asset(c.expected[name], true)
  }

  /** `_assert_assets` with missing assets allowed. */
  predicate Subset(actual: map<string, Asset>, c: Candidate) {
    forall name :: name in actual ==> Matches(actual, c, name)
  }

  /** `_assert_assets` with no asset missing: the remote map is the expected inventory. */
  predicate Complete(actual: map<string, Asset>, c: Candidate) {
    Subset(actual, c) && forall name :: name in c.expected ==> name in actual
  }

  /** Some order of the missing names; the source sorts them without regard to case. */
  ghost predicate Lists(queue: seq<string>, actual: map<string, Asset>, c: Candidate) {
    && (forall name :: name in queue <==> name in c.expected && name !in actual)
    && (forall i, j :: 0 <= i < j < |queue| ==> queue[i] != queue[j])
  }

  lemma SomeListing(names: set<string>) returns (queue: seq<string>)
    ensures forall name :: name in queue <==> name in names
    ensures forall i, j :: 0 <= i < j < |queue| ==> queue[i] != queue[j]
  {
    if names == {} {
      queue := [];
    } else {
      var name :| name in names;
      var rest := SomeListing(names - {name});
      queue := [name] + rest;
      forall other
        ensures other in queue <==> other in names
      {
        assert other in queue <==> other == name || other in rest;
      }
      forall i, j | 0 <= i < j < |queue|
        ensures queue[i] != queue[j]
      {
        assert queue[j] == rest[j - 1] && rest[j - 1] in rest;
      }
    }
  }

  ghost function Missing(actual: map<string, Asset>, c: Candidate): (queue: seq<string>)
    ensures Lists(queue, actual, c)
  {
    assert exists queue :: Lists(queue, actual, c) by {
      var queue := SomeListing(set name | name in c.expected && name !in actual);
      assert Lists(queue, actual, c);
    }
    var queue :| Lists(queue, actual, c);
    queue
  }

  // --- Writes, as the remote applies them ---

  function Created(s: State, c: Candidate): State {
    s.(releases := s.releases[s.nextId := Release(Stable(c.version), c.contract, true, true, false)],
       assets := s.assets[s.nextId := map[]],
       nextId := s.nextId + 1)
  }

  /** A name that is taken is refused; otherwise the asset appears with its digest pending. */
  function Uploaded(s: State, id: nat, name: string, content: string): State {
    if id in s.assets && name !in s.assets[id]
    then s.(assets := s.assets[id := s.assets[id][name := Asset(content, false)]])
    else s
  }

  function Promoted(s: State, id: nat, v: Version): State {
    if id in s.releases
    then s.(releases := s.releases[id := s.releases[id].(draft := false)], latest := id, promoted := s.promoted + [v])
    else s
  }

  function At(s: State, v: Version, stage: Stage): State
    requires v in s.runs
  {
    s.(runs := s.runs[v := s.runs[v].(stage := stage)])
  }

  function Contents(s: State, id: nat): map<string, Asset> {
    if id in s.assets then s.assets[id] else map[]
  }

  function NextUpload(id: nat, queue: seq<string>): Stage {
    if queue == [] then Confirm(id) else Upload(id, queue)
  }

  // --- One step of a run ---

  /** The first `_discover` and what `publish` makes of it. */
  ghost function DiscoverStage(s: State, c: Candidate): Stage {
    match Discovery(s, c.version)
    case Blocked => Failed
    case Absent => if Advances(s, c.version) then Create else Failed
    case Present(id) =>
      if !Advances(s, c.version) || id !in s.releases then Failed
      else if !s.releases[id].draft then
        if Identical(s.releases[id], c, false, true) then Verify(id) else Failed
      else if Identical(s.releases[id], c, true, false) then Inspect(id) else Failed
  }

  ghost function ReconcileStage(s: State, c: Candidate): Stage {
    match Discovery(s, c.version)
    case Blocked => Failed
    case Absent => Failed
    case Present(id) =>
      if id in s.releases && Identical(s.releases[id], c, true, false) then Inspect(id) else Failed
  }

  ghost function InspectStage(s: State, c: Candidate, id: nat): Stage {
    if Subset(Contents(s, id), c) then NextUpload(id, Missing(Contents(s, id), c)) else Failed
  }

  /** One poll of `_wait_for_uploaded_asset`. */
  function AwaitStage(s: State, c: Candidate, id: nat, queue: seq<string>, attempt: nat): Stage
    requires queue != []
  {
    var actual := Contents(s, id);
    if Matches(actual, c, queue[0]) then NextUpload(id, queue[1..])
    else if queue[0] in actual && (queue[0] !in c.expected || actual[queue[0]].content != c.expected[queue[0]]) then Failed
    else if attempt + 1 < UPLOAD_POLLS then Await(id, queue, attempt + 1)
    else Failed
  }

  ghost function RediscoverStage(s: State, c: Candidate, id: nat): Stage {
    if Discovery(s, c.version) == Present(id) && id in s.releases
       && Identical(s.releases[id], c, true, false) && Advances(s, c.version)
    then Promote(id) else Failed
  }

  function PollStage(s: State, c: Candidate, id: nat, attempt: nat): Stage {
    if id !in s.releases then Failed
    else if !s.releases[id].draft && s.releases[id].immutable then
      if Identical(s.releases[id], c, false, true) then Verify(id) else Failed
    else if attempt + 1 < PUBLISH_POLLS then Poll(id, attempt + 1)
    else Failed
  }

  /** `_assert_assets` once more, of the published release. */
  function VerifyStage(s: State, c: Candidate, id: nat): Stage {
    if Complete(Contents(s, id), c) then Latest(id, 0) else Failed
  }

  /** One poll of `_require_latest`. */
  function LatestStage(s: State, id: nat, attempt: nat): Stage {
    if s.latest == id then Done(id)
    else if attempt + 1 < LATEST_POLLS then Latest(id, attempt + 1)
    else Failed
  }

  /** What the step of a run writes to the remote: at most one thing, at the stage for it. */
  function Written(s: State, v: Version, answer: Answer): (s': State)
    requires v in s.runs
    ensures s'.runs == s.runs
  {
    var c := s.runs[v].candidate;
    if !answer.Success? && !answer.LostApplied? then s
    else
      match s.runs[v].stage
      case Create => Created(s, c)
      case Upload(id, queue) =>
        if queue != [] && queue[0] in c.expected then Uploaded(s, id, queue[0], c.expected[queue[0]]) else s
      case Promote(id) => Promoted(s, id, v)
      case _ => s
  }

  /** Where the step leaves the run. A refused write ends it; a lost answer is reconciled by
      reading, whether or not the write was applied. */
  ghost function NextStage(s: State, v: Version, answer: Answer): Stage
    requires v in s.runs
  {
    var c := s.runs[v].candidate;
    match s.runs[v].stage
    case Discover => DiscoverStage(s, c)
    case Create =>
      (match answer
       case Success => Inspect(s.nextId)
       case LostApplied | LostUnapplied => Reconcile
       case Refused => Failed)
    case Reconcile => ReconcileStage(s, c)
    case Inspect(id) => InspectStage(s, c, id)
    case Upload(id, queue) =>
      if answer.Refused? || queue == [] || queue[0] !in c.expected then Failed else Await(id, queue, 0)
    case Await(id, queue, attempt) => if queue == [] then Failed else AwaitStage(s, c, id, queue, attempt)
    case Confirm(id) => if Complete(Contents(s, id), c) then Rediscover(id) else Failed
    case Rediscover(id) => RediscoverStage(s, c, id)
    case Promote(id) => if answer.Refused? then Failed else Poll(id, 0)
    case Poll(id, attempt) => PollStage(s, c, id, attempt)
    case Verify(id) => VerifyStage(s, c, id)
    case Latest(id, attempt) => LatestStage(s, id, attempt)
    case Done(id) => Done(id)
    case Failed => Failed
  }

  ghost function Act(s: State, v: Version, answer: Answer): State
    requires v in s.runs
  {
    At(Written(s, v, answer), v, NextStage(s, v, answer))
  }

  /** One event. A version has at most one live run; a crash forgets it and keeps the remote. */
  ghost function Apply(s: State, e: Event): State {
    match e
    case Start(c) => if c.version in s.runs then s else s.(runs := s.runs[c.version := Run(c, Discover)])
    case Crash(v) => s.(runs := s.runs - {v})
    case Step(v, answer) => if v in s.runs then Act(s, v, answer) else s
    case AssetSettles(id, name) =>
      if id in s.assets && name in s.assets[id]
      then s.(assets := s.assets[id := s.assets[id][name := s.assets[id][name].(uploaded := true)]])
      else s
    case BecomesImmutable(id) =>
      if id in s.releases && !s.releases[id].draft
      then s.(releases := s.releases[id := s.releases[id].(immutable := true)])
      else s
  }

  ghost function Execute(s: State, events: seq<Event>): State
    decreases |events|
  {
    if events == [] then s else Execute(Apply(s, events[0]), events[1..])
  }

  // --- The invariant ---

  /** Where a run stands on the draft that it works on. */
  predicate OnDraft(stage: Stage) {
    stage.Inspect? || stage.Upload? || stage.Await? || stage.Confirm? || stage.Rediscover? || stage.Promote?
  }

  /** The draft is this run's own. */
  ghost predicate OwnsDraft(s: State, v: Version, c: Candidate, id: nat) {
    && id in s.releases && id in s.assets
    && s.releases[id].tag == Stable(v) && s.releases[id].contract == c.contract
    && s.releases[id].draft && !s.releases[id].immutable && s.releases[id].careeros
  }

  /** No two names of the queue are equal; what is on the remote and what is queued make up the inventory. */
  ghost predicate Queued(actual: map<string, Asset>, c: Candidate, queue: seq<string>) {
    && Subset(actual, c)
    && Lists(queue, actual, c)
  }

  /** While the first name of the queue is awaited, it may be there, with its digest pending or not. */
  ghost predicate Awaited(actual: map<string, Asset>, c: Candidate, queue: seq<string>) {
    && queue != []
    && queue[0] in c.expected
    && (queue[0] in actual ==> actual[queue[0]].content == c.expected[queue[0]])
    && Subset(actual - {queue[0]}, c)
    && (forall name :: name in queue[1..] <==> name in c.expected && name !in actual && name != queue[0])
    && (forall i, j :: 0 <= i < j < |queue| ==> queue[i] != queue[j])
  }

  ghost predicate StageOk(s: State, v: Version, run: Run) {
    var c := run.candidate;
    && c.version == v
    && (OnDraft(run.stage) ==> OwnsDraft(s, v, c, run.stage.id))
    && (run.stage.Create? ==> Tagged(s, v) == {})
    && (run.stage.Upload? ==> run.stage.queue != [] && Queued(s.assets[run.stage.id], c, run.stage.queue))
    && (run.stage.Await? ==> Awaited(s.assets[run.stage.id], c, run.stage.queue))
    && (run.stage.Rediscover? || run.stage.Promote? ==> Complete(s.assets[run.stage.id], c))
    && (run.stage.Promote? ==> Advances(s, v))
  }

  ghost predicate RunsOk(s: State) {
    forall v :: v in s.runs ==> StageOk(s, v, s.runs[v])
  }

  /** One release a tag. */
  ghost predicate OneReleasePerTag(s: State) {
    forall i, j :: i in s.releases && j in s.releases ==>
      s.releases[i].tag.Stable? && s.releases[i].tag == s.releases[j].tag ==> i == j
  }

  ghost predicate IdsOk(s: State) {
    && (forall id :: id in s.releases ==> id < s.nextId && id in s.assets)
    && (forall id :: id in s.assets ==> id < s.nextId)
    && (forall id :: id in s.releases ==> s.releases[id].immutable ==> !s.releases[id].draft)
  }

  /** At most one run is between its rediscovery and its promotion. */
  ghost predicate Exclusive(s: State) {
    forall v, w :: v in s.runs && w in s.runs && s.runs[v].stage.Promote? && s.runs[w].stage.Promote? ==> v == w
  }

  ghost predicate Published(s: State, v: Version) {
    exists id :: id in s.releases && s.releases[id].tag == Stable(v) && !s.releases[id].draft
  }

  /** Every promoted version is published. */
  ghost predicate History(s: State) {
    forall v :: v in s.promoted ==> Published(s, v)
  }

  ghost predicate Increasing(versions: seq<Version>) {
    forall i, j :: 0 <= i < j < |versions| ==> versions[i].Before(versions[j])
  }

  /** The latest release is the one promoted last. */
  ghost predicate LatestOk(s: State) {
    s.promoted != [] ==>
      && s.latest in s.releases
      && s.releases[s.latest].tag == Stable(s.promoted[|s.promoted| - 1])
  }

  ghost predicate Inv(s: State) {
    && IdsOk(s) && OneReleasePerTag(s) && RunsOk(s) && Exclusive(s)
    && History(s) && Increasing(s.promoted) && LatestOk(s)
  }

  /** A repository before the first of these runs: whatever releases there are, one a tag. */
  ghost predicate Initial(s: State) {
    IdsOk(s) && OneReleasePerTag(s) && s.runs == map[] && s.promoted == []
  }

  // --- Every event keeps the invariant ---

  /** A run may move to any stage that fits the remote; only the stage `Promote` needs the others. */
  lemma MoveKeeps(s: State, v: Version, stage: Stage)
    requires Inv(s) && v in s.runs
    requires StageOk(s, v, s.runs[v].(stage := stage))
    requires stage.Promote? ==> forall w :: w in s.runs && s.runs[w].stage.Promote? ==> w == v
    ensures Inv(At(s, v, stage))
  {
    var s' := At(s, v, stage);
    forall w | w in s'.runs
      ensures StageOk(s', w, s'.runs[w])
    {
      assert StageOk(s, w, s'.runs[w]);
      StageFrame(s, s', w, s'.runs[w]);
    }
  }

  /** What a stage says depends on the releases and assets only. */
  lemma StageFrame(s: State, s': State, v: Version, run: Run)
    requires s.releases == s'.releases && s.assets == s'.assets
    ensures StageOk(s, v, run) <==> StageOk(s', v, run)
  {
    assert Tagged(s, v) == Tagged(s', v);
    assert Advances(s, v) <==> Advances(s', v);
  }

  lemma CreateKeeps(s: State, c: Candidate)
    requires Inv(s) && c.version in s.runs && s.runs[c.version].stage.Failed?
    requires Tagged(s, c.version) == {}
    ensures Inv(Created(s, c))
  {
    hide Increasing;
    var s' := Created(s, c);
    assert OneReleasePerTag(s') by {
      forall id | id in s.releases
        ensures s.releases[id].tag != Stable(c.version)
      {
        assert id !in Tagged(s, c.version);
      }
    }
    forall w | w in s'.runs
      ensures StageOk(s', w, s'.runs[w])
    {
      assert StageOk(s, w, s.runs[w]);
      CreateFrame(s, c, w, s.runs[w]);
    }
    HistoryGrows(s, s', s.promoted);
  }

  lemma HistoryGrows(s: State, s': State, versions: seq<Version>)
    requires forall id :: id in s.releases && !s.releases[id].draft ==>
      id in s'.releases && s'.releases[id].tag == s.releases[id].tag && !s'.releases[id].draft
    requires forall v :: v in versions ==> Published(s, v)
    ensures forall v :: v in versions ==> Published(s', v)
  {
    forall v | v in versions
      ensures Published(s', v)
    {
      var id :| id in s.releases && s.releases[id].tag == Stable(v) && !s.releases[id].draft;
      assert id in s'.releases && s'.releases[id].tag == Stable(v) && !s'.releases[id].draft;
    }
  }

  lemma CreateFrame(s: State, c: Candidate, w: Version, run: Run)
    requires IdsOk(s) && StageOk(s, w, run)
    requires w != c.version || run.stage.Failed?
    ensures StageOk(Created(s, c), w, run)
  {
    var s' := Created(s, c);
    if run.stage.Create? {
      forall id | id in s'.releases
        ensures s'.releases[id].tag != Stable(w)
      {
        if id != s.nextId {
          assert id !in Tagged(s, w);
        }
      }
    }
    if run.stage.Promote? {
      forall id | id in s'.releases
        ensures Precedes(s'.releases[id], w)
      {
        if id != s.nextId {
          assert Precedes(s.releases[id], w);
        }
      }
    }
  }

  /** A change to the assets of one draft leaves the runs on other tags as they were. */
  lemma AssetFrame(s: State, s': State, id: nat, w: Version, run: Run)
    requires StageOk(s, w, run)
    requires s'.releases == s.releases && id in s.assets && id in s.releases
    requires s'.assets == s.assets[id := Contents(s', id)]
    requires s.releases[id].tag != Stable(w) || !OnDraft(run.stage)
    ensures StageOk(s', w, run)
  {
    assert Tagged(s, w) == Tagged(s', w);
    assert Advances(s, w) <==> Advances(s', w);
  }

  lemma UploadKeeps(s: State, v: Version, id: nat, name: string, content: string)
    requires Inv(s) && v in s.runs && s.runs[v].stage.Failed?
    requires id in s.releases && s.releases[id].tag == Stable(v)
    ensures Inv(Uploaded(s, id, name, content))
  {
    var s' := Uploaded(s, id, name, content);
    if s' != s {
      forall w | w in s'.runs
        ensures StageOk(s', w, s'.runs[w])
      {
        assert StageOk(s, w, s.runs[w]);
        AssetFrame(s, s', id, w, s.runs[w]);
      }
      HistoryGrows(s, s', s.promoted);
    }
  }

  lemma PromoteFrame(s: State, id: nat, v: Version, w: Version, run: Run)
    requires StageOk(s, w, run) && !run.stage.Promote?
    requires id in s.releases && s.releases[id].tag == Stable(v)
    requires w != v || run.stage.Failed?
    ensures StageOk(Promoted(s, id, v), w, run)
  {
    var s' := Promoted(s, id, v);
    assert Tagged(s, w) == Tagged(s', w);
  }

  lemma PromoteKeeps(s: State, v: Version, id: nat)
    requires Inv(s) && v in s.runs && s.runs[v].stage.Failed?
    requires forall w :: w in s.runs ==> !s.runs[w].stage.Promote?
    requires id in s.releases && s.releases[id].tag == Stable(v) && s.releases[id].draft && !s.releases[id].immutable
    requires Advances(s, v)
    ensures Inv(Promoted(s, id, v))
  {
    var s' := Promoted(s, id, v);
    forall w | w in s'.runs
      ensures StageOk(s', w, s'.runs[w])
    {
      assert StageOk(s, w, s.runs[w]);
      PromoteFrame(s, id, v, w, s.runs[w]);
    }
    HistoryGrows(s, s', s.promoted);
    assert id in s'.releases && s'.releases[id].tag == Stable(v) && !s'.releases[id].draft;
    assert Published(s', v);
    forall w | w in s.promoted
      ensures w.Before(v)
    {
      assert Published(s, w);
      var k :| k in s.releases && s.releases[k].tag == Stable(w) && !s.releases[k].draft;
      assert Precedes(s.releases[k], v);
      assert k != id;
    }
  }

  /** An asset that settles changes no stage: what it says of settled assets stays true. */
  lemma SettleKeeps(s: State, id: nat, name: string)
    requires Inv(s)
    ensures Inv(Apply(s, AssetSettles(id, name)))
  {
    var s' := Apply(s, AssetSettles(id, name));
    if s' != s {
      forall w | w in s'.runs
        ensures StageOk(s', w, s'.runs[w])
      {
        assert StageOk(s, w, s.runs[w]);
        SettleFrame(s, s', id, name, w, s.runs[w]);
      }
      HistoryGrows(s, s', s.promoted);
    }
  }

  lemma SettleFrame(s: State, s': State, id: nat, name: string, w: Version, run: Run)
    requires StageOk(s, w, run) && id in s.assets && name in s.assets[id]
    requires s' == s.(assets := s.assets[id := s.assets[id][name := s.assets[id][name].(uploaded := true)]])
    ensures StageOk(s', w, run)
  {
    assert Tagged(s, w) == Tagged(s', w);
    assert Advances(s, w) <==> Advances(s', w);
    if OnDraft(run.stage) && run.stage.id == id {
      SettledContents(s.assets[id], name, run);
    }
  }

  lemma SettledContents(actual: map<string, Asset>, name: string, run: Run)
    requires name in actual
    ensures var actual' := actual[name := actual[name].(uploaded := true)]; var c := run.candidate;
      && (Subset(actual, c) ==> actual' == actual)
      && (run.stage.Await? && Awaited(actual, c, run.stage.queue) ==> Awaited(actual', c, run.stage.queue))
  {
    var actual' := actual[name := actual[name].(uploaded := true)];
    var c := run.candidate;
    if Subset(actual, c) {
      assert Matches(actual, c, name);
    }
    if run.stage.Await? && Awaited(actual, c, run.stage.queue) {
      var first := run.stage.queue[0];
      if name != first {
        assert name in actual - {first};
        assert Matches(actual - {first}, c, name);
        assert actual' == actual;
      } else {
        assert actual' - {first} == actual - {first};
      }
    }
  }

  lemma ImmutableKeeps(s: State, id: nat)
    requires Inv(s)
    ensures Inv(Apply(s, BecomesImmutable(id)))
  {
    var s' := Apply(s, BecomesImmutable(id));
    if s' != s {
      forall w | w in s'.runs
        ensures StageOk(s', w, s'.runs[w])
      {
        assert StageOk(s, w, s.runs[w]);
        ImmutableFrame(s, s', id, w, s.runs[w]);
      }
      HistoryGrows(s, s', s.promoted);
    }
  }

  lemma ImmutableFrame(s: State, s': State, id: nat, w: Version, run: Run)
    requires StageOk(s, w, run) && id in s.releases && !s.releases[id].draft
    requires s' == s.(releases := s.releases[id := s.releases[id].(immutable := true)])
    ensures StageOk(s', w, run)
  {
    assert Tagged(s, w) == Tagged(s', w);
    if run.stage.Promote? {
      forall k | k in s'.releases
        ensures Precedes(s'.releases[k], w)
      {
        assert Precedes(s.releases[k], w);
      }
    }
  }

  lemma RunIsOk(s: State, v: Version)
    requires Inv(s) && v in s.runs
    ensures StageOk(s, v, s.runs[v])
  {
  }

  lemma CreateStepKeeps(s: State, v: Version, answer: Answer)
    requires Inv(s) && v in s.runs && s.runs[v].stage.Create?
    ensures Inv(Act(s, v, answer))
  {
    hide Inv;
    RunIsOk(s, v);
    var c := s.runs[v].candidate;
    var idle := At(s, v, Failed);
    MoveKeeps(s, v, Failed);
    match answer
    case Success =>
      CreateKeeps(idle, c);
      MoveKeeps(Created(idle, c), v, Inspect(s.nextId));
      assert At(Created(idle, c), v, Inspect(s.nextId)) == At(Created(s, c), v, Inspect(s.nextId));
    case LostApplied =>
      CreateKeeps(idle, c);
      MoveKeeps(Created(idle, c), v, Reconcile);
      assert At(Created(idle, c), v, Reconcile) == At(Created(s, c), v, Reconcile);
    case LostUnapplied => MoveKeeps(s, v, Reconcile);
    case Refused =>
  }

  lemma UploadStepKeeps(s: State, v: Version, answer: Answer)
    requires Inv(s) && v in s.runs && s.runs[v].stage.Upload?
    ensures Inv(Act(s, v, answer))
  {
    hide Inv;
    RunIsOk(s, v);
    var c, id, queue := s.runs[v].candidate, s.runs[v].stage.id, s.runs[v].stage.queue;
    var idle := At(s, v, Failed);
    MoveKeeps(s, v, Failed);
    assert queue[0] in queue;
    var content := c.expected[queue[0]];
    match answer
    case Success | LostApplied =>
      UploadKeeps(idle, v, id, queue[0], content);
      var s' := Uploaded(idle, id, queue[0], content);
      QueueAfterUpload(s.assets[id], c, queue, content);
      MoveKeeps(s', v, Await(id, queue, 0));
      assert At(s', v, Await(id, queue, 0)) == At(Uploaded(s, id, queue[0], content), v, Await(id, queue, 0));
    case LostUnapplied =>
      QueueAfterUpload(s.assets[id], c, queue, content);
      MoveKeeps(s, v, Await(id, queue, 0));
    case Refused =>
  }

  lemma QueueAfterUpload(actual: map<string, Asset>, c: Candidate, queue: seq<string>, content: string)
    requires queue != [] && Queued(actual, c, queue)
    requires queue[0] in c.expected && content == c.expected[queue[0]]
    ensures queue[0] !in actual
    ensures Awaited(actual, c, queue)
    ensures Awaited(actual[queue[0] := Asset(content, false)], c, queue)
  {
    assert queue[0] in queue;
    var actual' := actual[queue[0] := Asset(content, false)];
    assert actual' - {queue[0]} == actual == actual - {queue[0]};
    forall name
      ensures name in queue[1..] <==> name in c.expected && name !in actual && name != queue[0]
    {
      assert name in queue <==> name == queue[0] || name in queue[1..];
    }
  }

  lemma AwaitStepKeeps(s: State, v: Version, answer: Answer)
    requires Inv(s) && v in s.runs && s.runs[v].stage.Await?
    ensures Inv(Act(s, v, answer))
  {
    hide Inv;
    RunIsOk(s, v);
    var c, stage := s.runs[v].candidate, s.runs[v].stage;
    var actual := s.assets[stage.id];
    var next := AwaitStage(s, c, stage.id, stage.queue, stage.attempt);
    if Matches(actual, c, stage.queue[0]) {
      QueueAfterWait(actual, c, stage.queue);
    }
    MoveKeeps(s, v, next);
  }

  lemma QueueAfterWait(actual: map<string, Asset>, c: Candidate, queue: seq<string>)
    requires Awaited(actual, c, queue) && Matches(actual, c, queue[0])
    ensures Queued(actual, c, queue[1..])
  {
    forall name | name in actual
      ensures Matches(actual, c, name)
    {
      if name != queue[0] {
        assert name in actual - {queue[0]};
        assert Matches(actual - {queue[0]}, c, name);
      }
    }
  }

  lemma PromoteStepKeeps(s: State, v: Version, answer: Answer)
    requires Inv(s) && v in s.runs && s.runs[v].stage.Promote?
    ensures Inv(Act(s, v, answer))
  {
    hide OneReleasePerTag, IdsOk, History, Increasing, LatestOk, RunsOk;
    RunIsOk(s, v);
    var id := s.runs[v].stage.id;
    var idle := At(s, v, Failed);
    MoveKeeps(s, v, Failed);
    StageFrame(s, idle, v, s.runs[v]);
    match answer
    case Success | LostApplied =>
      PromoteKeeps(idle, v, id);
      MoveKeeps(Promoted(idle, id, v), v, Poll(id, 0));
      assert At(Promoted(idle, id, v), v, Poll(id, 0)) == At(Promoted(s, id, v), v, Poll(id, 0));
    case LostUnapplied => MoveKeeps(s, v, Poll(id, 0));
    case Refused =>
  }

  /** A rediscovery that succeeds has seen no other draft, so no other run can be promoting. */
  lemma RediscoveryExcludes(s: State, v: Version, w: Version)
    requires Inv(s) && v in s.runs && w in s.runs && w != v && s.runs[w].stage.Promote?
    ensures Discovery(s, v) == Blocked
  {
    assert StageOk(s, w, s.runs[w]);
    assert Blocks(s, v, s.runs[w].stage.id);
  }

  lemma RediscoverStepKeeps(s: State, v: Version, answer: Answer)
    requires Inv(s) && v in s.runs && s.runs[v].stage.Rediscover?
    ensures Inv(Act(s, v, answer))
  {
    RunIsOk(s, v);
    var next := RediscoverStage(s, s.runs[v].candidate, s.runs[v].stage.id);
    if next.Promote? {
      forall w | w in s.runs && s.runs[w].stage.Promote?
        ensures w == v
      {
        if w != v {
          RediscoveryExcludes(s, v, w);
        }
      }
    }
    MoveKeeps(s, v, next);
  }

  /** A draft that passes the discovery of a run is that run's to work on. */
  lemma DiscoveredIsOwned(s: State, c: Candidate, id: nat)
    requires Inv(s) && Discovery(s, c.version) == Present(id)
    requires id in s.releases && Identical(s.releases[id], c, true, false)
    ensures OwnsDraft(s, c.version, c, id)
  {
  }

  lemma DiscoverStepKeeps(s: State, v: Version, answer: Answer)
    requires Inv(s) && v in s.runs && (s.runs[v].stage.Discover? || s.runs[v].stage.Reconcile?)
    ensures Inv(Act(s, v, answer))
  {
    hide Inv;
    RunIsOk(s, v);
    var c := s.runs[v].candidate;
    var found := Discovery(s, v);
    if found.Present? && found.id in s.releases && Identical(s.releases[found.id], c, true, false) {
      DiscoveredIsOwned(s, c, found.id);
    }
    MoveKeeps(s, v, if s.runs[v].stage.Discover? then DiscoverStage(s, c) else ReconcileStage(s, c));
  }

  lemma ReadStepKeeps(s: State, v: Version, answer: Answer)
    requires Inv(s) && v in s.runs
    requires var stage := s.runs[v].stage;
      !stage.Create? && !stage.Upload? && !stage.Await? && !stage.Rediscover? && !stage.Promote?
    ensures Inv(Act(s, v, answer))
  {
    hide Inv, DiscoverStage, ReconcileStage;
    RunIsOk(s, v);
    var c := s.runs[v].candidate;
    match s.runs[v].stage
    case Discover | Reconcile => DiscoverStepKeeps(s, v, answer);
    case Inspect(id) => MoveKeeps(s, v, InspectStage(s, c, id));
    case Confirm(id) => MoveKeeps(s, v, if Complete(Contents(s, id), c) then Rediscover(id) else Failed);
    case Poll(id, attempt) => MoveKeeps(s, v, PollStage(s, c, id, attempt));
    case Verify(id) => MoveKeeps(s, v, VerifyStage(s, c, id));
    case Latest(id, attempt) => MoveKeeps(s, v, LatestStage(s, id, attempt));
    case Done(id) => MoveKeeps(s, v, Done(id));
    case Failed => MoveKeeps(s, v, Failed);
  }

  lemma StartKeeps(s: State, c: Candidate)
    requires Inv(s)
    ensures Inv(Apply(s, Start(c)))
  {
    var s' := Apply(s, Start(c));
    forall w | w in s'.runs
      ensures StageOk(s', w, s'.runs[w])
    {
      if w in s.runs {
        assert StageOk(s, w, s.runs[w]);
        StageFrame(s, s', w, s.runs[w]);
      }
    }
  }

  lemma CrashKeeps(s: State, v: Version)
    requires Inv(s)
    ensures Inv(Apply(s, Crash(v)))
  {
    var s' := Apply(s, Crash(v));
    forall w | w in s'.runs
      ensures StageOk(s', w, s'.runs[w])
    {
      assert StageOk(s, w, s.runs[w]);
      StageFrame(s, s', w, s.runs[w]);
    }
  }

  lemma StepKeeps(s: State, v: Version, answer: Answer)
    requires Inv(s) && v in s.runs
    ensures Inv(Act(s, v, answer))
  {
    hide Inv, Act;
    match s.runs[v].stage
    case Create => CreateStepKeeps(s, v, answer);
    case Upload(_, _) => UploadStepKeeps(s, v, answer);
    case Await(_, _, _) => AwaitStepKeeps(s, v, answer);
    case Rediscover(_) => RediscoverStepKeeps(s, v, answer);
    case Promote(_) => PromoteStepKeeps(s, v, answer);
    case _ => ReadStepKeeps(s, v, answer);
  }

  lemma EventKeeps(s: State, e: Event)
    requires Inv(s)
    ensures Inv(Apply(s, e))
  {
    hide Inv, Act;
    match e
    case Start(c) => StartKeeps(s, c);
    case Crash(v) => CrashKeeps(s, v);
    case Step(v, answer) =>
      if v in s.runs {
        StepKeeps(s, v, answer);
      }
    case AssetSettles(id, name) => SettleKeeps(s, id, name);
    case BecomesImmutable(id) => ImmutableKeeps(s, id);
  }

  lemma {:induction false} EveryRunKeeps(s: State, events: seq<Event>)
    requires Inv(s)
    ensures Inv(Execute(s, events))
    decreases |events|
  {
    if events != [] {
      EventKeeps(s, events[0]);
      EveryRunKeeps(Apply(s, events[0]), events[1..]);
    }
  }

  // --- What holds over every run ---

  /** The windows from rediscovery to promotion never overlap, and releases are promoted in
      strictly increasing version order; the last one promoted is the latest release. */
  lemma PromotionsAreOrdered(s: State, events: seq<Event>)
    requires Initial(s)
    ensures var end := Execute(s, events);
      Exclusive(end) && Increasing(end.promoted) && OneReleasePerTag(end) && LatestOk(end)
  {
    EveryRunKeeps(s, events);
  }

  /** A promotion is applied only to a draft whose remote assets are the expected inventory,
      under a version above all that is published. */
  lemma PromotionIsComplete(s: State, v: Version, answer: Answer)
    requires Inv(s) && v in s.runs
    requires Apply(s, Step(v, answer)).promoted != s.promoted
    ensures var c := s.runs[v].candidate; var stage := s.runs[v].stage;
      && stage.Promote? && stage.id in s.releases && s.releases[stage.id].tag == Stable(v)
      && Complete(s.assets[stage.id], c)
      && (forall id :: id in s.releases ==> Precedes(s.releases[id], v))
      && Apply(s, Step(v, answer)).promoted == s.promoted + [v]
  {
    hide IdsOk, OneReleasePerTag, Exclusive, History, Increasing, LatestOk;
    RunIsOk(s, v);
  }

  /** An upload is sent only for an expected name that the remote does not hold. */
  lemma OnlyMissingAssetsAreUploaded(s: State, v: Version)
    requires Inv(s) && v in s.runs && s.runs[v].stage.Upload?
    ensures var stage := s.runs[v].stage;
      stage.queue != [] && stage.queue[0] in s.runs[v].candidate.expected && stage.queue[0] !in s.assets[stage.id]
  {
    RunIsOk(s, v);
    var queue := s.runs[v].stage.queue;
    assert queue[0] in queue;
  }

  /** Once a version is published no step of its runs writes to the remote. */
  lemma FinishedReleaseIsLeftAlone(s: State, v: Version, answer: Answer)
    requires Inv(s) && Published(s, v)
    ensures var s' := Apply(s, Step(v, answer));
      s'.releases == s.releases && s'.assets == s.assets && s'.latest == s.latest && s'.promoted == s.promoted
  {
    hide NextStage;
    if v in s.runs {
      RunIsOk(s, v);
      var id :| id in s.releases && s.releases[id].tag == Stable(v) && !s.releases[id].draft;
      assert id in Tagged(s, v);
    }
  }

  /** A published release and its assets stay as they are, but for the flags the remote settles. */
  lemma PublishedIsFinal(s: State, e: Event, id: nat)
    requires Inv(s) && id in s.releases && !s.releases[id].draft
    ensures var s' := Apply(s, e);
      && id in s'.releases && s'.releases[id].(immutable := s.releases[id].immutable) == s.releases[id]
      && (s.releases[id].immutable ==> s'.releases[id].immutable)
      && id in s'.assets && s'.assets[id].Keys == s.assets[id].Keys
      && (forall name :: name in s.assets[id] ==>
            && s'.assets[id][name].content == s.assets[id][name].content
            && (s.assets[id][name].uploaded ==> s'.assets[id][name].uploaded))
  {
    hide RunsOk, Exclusive, History, Increasing, LatestOk, OneReleasePerTag;
    if e.Step? {
      PublishedSurvivesStep(s, e.version, e.answer, id);
    }
  }

  lemma PublishedSurvivesStep(s: State, v: Version, answer: Answer, id: nat)
    requires Inv(s) && id in s.releases && !s.releases[id].draft
    ensures var s' := Apply(s, Step(v, answer));
      id in s'.releases && s'.releases[id] == s.releases[id] && id in s'.assets && s'.assets[id] == s.assets[id]
  {
    hide NextStage, RunsOk, Exclusive, History, Increasing, LatestOk, OneReleasePerTag;
    if v in s.runs {
      RunIsOk(s, v);
    }
  }

  // --- What it means that a run is done ---

  /** The remote map that is exactly the expected inventory, everything uploaded. */
  function Inventory(c: Candidate): map<string, Asset> {
    map name | name in c.expected :: Asset(c.expected[name], true)
  }

  lemma CompleteIsInventory(actual: map<string, Asset>, c: Candidate)
    ensures Complete(actual, c) <==> actual == Inventory(c)
  {
    if Complete(actual, c) {
      assert forall name :: name in actual <==> name in Inventory(c);
      forall name | name in actual ensures actual[name] == Inventory(c)[name] {
        assert Matches(actual, c, name);
      }
    }
  }

  /** The release of the candidate is published for good. */
  ghost predicate PublishedAs(s: State, c: Candidate, id: nat) {
    && id in s.releases && id in s.assets
    && s.releases[id] == Release(Stable(c.version), c.contract, true, false, true)
  }

  ghost predicate ClaimOk(s: State, v: Version, run: Run) {
    var c, stage := run.candidate, run.stage;
    && c.version == v
    && (stage.Verify? || stage.Latest? || stage.Done? ==> PublishedAs(s, c, stage.id))
    && (stage.Latest? || stage.Done? ==> s.assets[stage.id] == Inventory(c))
  }

  ghost predicate Claims(s: State) {
    forall v :: v in s.runs ==> ClaimOk(s, v, s.runs[v])
  }

  lemma ClaimSurvives(s: State, e: Event, v: Version, run: Run)
    requires Inv(s) && ClaimOk(s, v, run)
    ensures ClaimOk(Apply(s, e), v, run)
  {
    hide Inv, Apply;
    var stage := run.stage;
    if stage.Verify? || stage.Latest? || stage.Done? {
      PublishedIsFinal(s, e, stage.id);
    }
  }

  /** Only the steps that look at the remote make a claim of the run that takes them. */
  lemma StepClaims(s: State, v: Version, answer: Answer)
    requires Inv(s) && v in s.runs && ClaimOk(s, v, s.runs[v])
    ensures ClaimOk(s, v, s.runs[v].(stage := NextStage(s, v, answer)))
  {
    hide Exclusive, History, Increasing, LatestOk, RunsOk, Subset, Complete, Advances, OneReleasePerTag, Missing;
    var c := s.runs[v].candidate;
    match s.runs[v].stage
    case Discover =>
    case Poll(id, _) =>
    case Verify(id) => CompleteIsInventory(Contents(s, id), c);
    case Latest(_, _) =>
    case _ =>
  }

  lemma ClaimsKept(s: State, e: Event)
    requires Inv(s) && Claims(s)
    ensures Claims(Apply(s, e))
  {
    hide Inv, NextStage, Written, ClaimOk;
    var s' := Apply(s, e);
    forall v | v in s'.runs
      ensures ClaimOk(s', v, s'.runs[v])
    {
      if e.Step? && e.version == v {
        StepClaims(s, v, e.answer);
        ClaimSurvives(s, e, v, s'.runs[v]);
      } else if v in s.runs {
        ClaimSurvives(s, e, v, s.runs[v]);
      } else {
        FreshClaim(s', s'.runs[v].candidate);
      }
    }
  }

  lemma FreshClaim(s: State, c: Candidate)
    ensures ClaimOk(s, c.version, Run(c, Discover))
  {
  }

  lemma {:induction false} EveryRunClaims(s: State, events: seq<Event>)
    requires Inv(s) && Claims(s)
    ensures Claims(Execute(s, events))
    decreases |events|
  {
    hide Inv, Apply, Claims;
    if events != [] {
      ClaimsKept(s, events[0]);
      EventKeeps(s, events[0]);
      EveryRunClaims(Apply(s, events[0]), events[1..]);
    }
  }

  /** Over every run from the start: a publisher that reports success has published the release
      of its candidate for good, with exactly the expected assets, all of them uploaded. */
  lemma DoneMeansPublished(start: State, events: seq<Event>, v: Version)
    requires Initial(start)
    requires v in Execute(start, events).runs && Execute(start, events).runs[v].stage.Done?
    ensures var s := Execute(start, events); var c, id := s.runs[v].candidate, s.runs[v].stage.id;
      && c.version == v
      && id in s.releases && s.releases[id].tag == Stable(v) && s.releases[id].contract == c.contract
      && s.releases[id].careeros && !s.releases[id].draft && s.releases[id].immutable
      && id in s.assets && s.assets[id].Keys == c.expected.Keys
      && (forall name :: name in c.expected ==> s.assets[id][name] == Asset(c.expected[name], true))
  {
    EveryRunClaims(start, events);
    assert ClaimOk(Execute(start, events), v, Execute(start, events).runs[v]);
  }

  /** A run enters its end only by finding its release to be the latest one. */
  lemma DoneFindsLatest(s: State, e: Event, v: Version)
    requires v in Apply(s, e).runs && Apply(s, e).runs[v].stage.Done?
    requires !(v in s.runs && s.runs[v].stage == Apply(s, e).runs[v].stage)
    ensures e.Step? && e.version == v && s.latest == Apply(s, e).runs[v].stage.id
    ensures v in s.runs && s.runs[v].stage.Latest? && s.runs[v].stage.id == Apply(s, e).runs[v].stage.id
  {
    hide Discovery, Complete, Subset, Written;
  }

  lemma {:induction false} DoneLater(s: State, events: seq<Event>, v: Version)
    requires v in Execute(s, events).runs && Execute(s, events).runs[v].stage.Done?
    requires !(v in s.runs && s.runs[v].stage == Execute(s, events).runs[v].stage)
    ensures exists i :: 0 <= i < |events| && Execute(s, events[..i]).latest == Execute(s, events).runs[v].stage.id
    decreases |events|
  {
    hide Apply;
    var s', stage := Apply(s, events[0]), Execute(s, events).runs[v].stage;
    if v in s'.runs && s'.runs[v].stage == stage {
      DoneFindsLatest(s, events[0], v);
      assert Execute(s, events[..0]).latest == stage.id;
    } else {
      DoneLater(s', events[1..], v);
      var i :| 0 <= i < |events[1..]| && Execute(s', events[1..][..i]).latest == stage.id;
      assert events[..i + 1][1..] == events[1..][..i];
      assert Execute(s, events[..i + 1]).latest == stage.id;
    }
  }

  /** The release of a publisher that reports success was the latest at some moment of the run. */
  lemma DoneWasLatest(start: State, events: seq<Event>, v: Version)
    requires Initial(start)
    requires v in Execute(start, events).runs && Execute(start, events).runs[v].stage.Done?
    ensures exists i ::
      0 <= i < |events| && Execute(start, events[..i]).latest == Execute(start, events).runs[v].stage.id
  {
    DoneLater(start, events, v);
  }

  /** The check of a published release passes exactly when the remote map is the inventory. */
  lemma VerificationFailsExactly(s: State, v: Version, answer: Answer)
    requires v in s.runs && s.runs[v].stage.Verify?
    ensures var c, id, next := s.runs[v].candidate, s.runs[v].stage.id, Apply(s, Step(v, answer)).runs[v].stage;
      next == (if Contents(s, id) == Inventory(c) then Latest(id, 0) else Failed)
  {
    hide Complete;
    CompleteIsInventory(Contents(s, s.runs[v].stage.id), s.runs[v].candidate);
  }

  function ContentsOf(actual: map<string, Asset>): map<string, string> {
    map name | name in actual :: actual[name].content
  }

  lemma {:induction false} PublishedStays(s: State, events: seq<Event>, id: nat)
    requires Inv(s) && id in s.releases && !s.releases[id].draft
    ensures var end := Execute(s, events);
      && id in end.releases && end.releases[id].tag == s.releases[id].tag
      && id in end.assets && ContentsOf(end.assets[id]) == ContentsOf(s.assets[id])
    decreases |events|
  {
    hide Inv, Apply;
    PublishedHasAssets(s, id);
    if events != [] {
      PublishedIsFinal(s, events[0], id);
      EventKeeps(s, events[0]);
      PublishedStays(Apply(s, events[0]), events[1..], id);
      assert ContentsOf(Apply(s, events[0]).assets[id]) == ContentsOf(s.assets[id]);
    }
  }

  lemma PublishedHasAssets(s: State, id: nat)
    requires Inv(s) && id in s.releases
    ensures id in s.assets
  {
  }

  /** No later run makes up for it: once a version is published with other names or contents than
      those a candidate expects, no run of that candidate is ever done. */
  lemma OnlyTheInventoryIsDone(start: State, past: seq<Event>, events: seq<Event>, v: Version, id: nat)
    requires Initial(start)
    requires var s := Execute(start, past);
      id in s.releases && s.releases[id].tag == Stable(v) && !s.releases[id].draft
    requires var end := Execute(Execute(start, past), events);
      v in end.runs && end.runs[v].stage.Done?
    ensures var s, end := Execute(start, past), Execute(Execute(start, past), events);
      && end.runs[v].stage.id == id
      && id in s.assets && ContentsOf(s.assets[id]) == end.runs[v].candidate.expected
  {
    var s, end := Execute(start, past), Execute(Execute(start, past), events);
    EveryRunKeeps(start, past);
    ExecuteTwice(start, past, events);
    EveryRunKeeps(s, events);
    PublishedStays(s, events, id);
    DoneMeansPublished(start, past + events, v);
    OneEach(end, id, end.runs[v].stage.id);
    assert ContentsOf(end.assets[id]) == end.runs[v].candidate.expected;
  }

  lemma OneEach(s: State, i: nat, j: nat)
    requires Inv(s) && i in s.releases && j in s.releases
    requires s.releases[i].tag.Stable? && s.releases[i].tag == s.releases[j].tag
    ensures i == j
  {
  }

  /** The first look at the remote ends a run exactly for a foreign CareerOS draft, two releases of
      its tag, a published release that it does not advance, or one of its tag that is neither its
      own draft nor its own release. */
  lemma DiscoveryFailsExactly(s: State, v: Version, answer: Answer)
    requires v in s.runs && s.runs[v].stage.Discover? && s.runs[v].candidate.version == v
    ensures var c, next := s.runs[v].candidate, Apply(s, Step(v, answer)).runs[v].stage;
      && (next.Failed? <==>
            || (exists id :: id in s.releases && Foreign(s.releases[id], v))
            || (exists i, j :: Two(s, v, i, j))
            || (exists id :: id in s.releases && Overtakes(s.releases[id], v))
            || (exists id :: id in s.releases && s.releases[id].tag == Stable(v) && !Own(s.releases[id], c)))
      && (next.Create? ==> forall id :: id in s.releases ==> s.releases[id].tag != Stable(v))
      && (next.Verify? ==> next.id in s.releases && s.releases[next.id].tag == Stable(v) && !s.releases[next.id].draft)
      && (next.Inspect? ==> next.id in s.releases && s.releases[next.id].tag == Stable(v) && s.releases[next.id].draft)
      && (next.Failed? || next.Create? || next.Verify? || next.Inspect?)
  {
    var c := s.runs[v].candidate;
    assert forall id :: id in s.releases ==> (Overtakes(s.releases[id], v) <==> !Precedes(s.releases[id], v));
    assert (exists id :: id in s.releases && Overtakes(s.releases[id], v)) <==> !Advances(s, v);
    assert forall id :: id in s.releases ==> (Foreign(s.releases[id], v) <==> Blocks(s, v, id));
    TaggedTwice(s, v);
    assert forall id :: id in s.releases && s.releases[id].tag == Stable(v) <==> id in Tagged(s, v);
  }

  /** A CareerOS draft of another tag. */
  predicate Foreign(r: Release, v: Version) {
    r.draft && r.careeros && r.tag != Stable(v)
  }

  predicate Two(s: State, v: Version, i: nat, j: nat) {
    && i in s.releases && s.releases[i].tag == Stable(v)
    && j in s.releases && s.releases[j].tag == Stable(v)
    && i != j
  }

  /** A published version of another tag that is not below `v`, or no version at all. */
  predicate Overtakes(r: Release, v: Version) {
    && !r.draft && r.tag != Stable(v)
    && (r.tag.Unstable? || (r.tag.Stable? && v.Before(r.tag.version)))
  }

  /** The draft of the candidate before its promotion, or its release after it. */
  predicate Own(r: Release, c: Candidate) {
    r == Release(Stable(c.version), c.contract, true, r.draft, !r.draft)
  }

  lemma TaggedTwice(s: State, v: Version)
    ensures (exists i, j :: Two(s, v, i, j)) <==> Tagged(s, v) != {} && forall id :: Tagged(s, v) != {id}
  {
    if Tagged(s, v) != {} && forall id :: Tagged(s, v) != {id} {
      var i :| i in Tagged(s, v);
      assert Tagged(s, v) != {i};
      var j :| j in Tagged(s, v) && j != i;
      assert Two(s, v, i, j);
    }
    if exists i, j :: Two(s, v, i, j) {
      var i, j :| Two(s, v, i, j);
      assert i in Tagged(s, v) && j in Tagged(s, v);
      assert forall id :: Tagged(s, v) == {id} ==> i in {id} && j in {id};
    }
  }

  /** A lost answer makes no difference to a run that nothing blocks when the write was applied:
      a lost creation is found again by the next look. When it was not applied, the remote is as
      before, and a creation that cannot be found ends the run. */
  lemma LostAnswersAreReconciled(s: State, v: Version)
    requires Inv(s) && v in s.runs && forall id :: !Blocks(s, v, id)
    requires s.runs[v].stage.Create? || s.runs[v].stage.Upload? || s.runs[v].stage.Promote?
    ensures var stage, answered, applied := s.runs[v].stage, Apply(s, Step(v, Success)), Apply(s, Step(v, LostApplied));
      answered == if stage.Create? then Apply(applied, Step(v, Success)) else applied
    ensures var lost := Apply(s, Step(v, LostUnapplied));
      && lost.releases == s.releases && lost.assets == s.assets && lost.latest == s.latest && lost.promoted == s.promoted
      && match s.runs[v].stage
         case Create => Apply(lost, Step(v, Success)) == At(s, v, Failed)
         case Upload(id, queue) => lost.runs[v].stage == Await(id, queue, 0)
         case _ => lost.runs[v].stage == Poll(s.runs[v].stage.id, 0)
  {
    RunIsOk(s, v);
    if s.runs[v].stage.Create? {
      LostCreation(s, v);
    } else if s.runs[v].stage.Upload? {
      OnlyMissingAssetsAreUploaded(s, v);
    }
  }

  lemma LostCreation(s: State, v: Version)
    requires Inv(s) && v in s.runs && (forall id :: !Blocks(s, v, id)) && s.runs[v].stage.Create?
    ensures Apply(Apply(s, Step(v, LostApplied)), Step(v, Success)) == Apply(s, Step(v, Success))
    ensures Apply(Apply(s, Step(v, LostUnapplied)), Step(v, Success)) == At(s, v, Failed)
  {
    hide Inv, Discovery;
    var c, id := s.runs[v].candidate, s.nextId;
    RunIsOk(s, v);
    var there, gone := Apply(s, Step(v, LostApplied)), Apply(s, Step(v, LostUnapplied));
    EventKeeps(s, Step(v, LostApplied));
    assert there == At(Created(s, c), v, Reconcile) && gone == At(s, v, Reconcile);
    forall k ensures !Blocks(there, v, k) {
      assert !Blocks(s, v, k);
    }
    OwnDraftIsDiscovered(there, c, id);
    SameReleasesSameView(s, gone, v);
    NothingIsDiscovered(gone, v);
    assert Apply(gone, Step(v, Success)) == At(gone, v, Failed);
    assert Apply(there, Step(v, Success)) == At(there, v, Inspect(id));
  }

  lemma NothingIsDiscovered(s: State, v: Version)
    requires (forall id :: !Blocks(s, v, id)) && Tagged(s, v) == {}
    ensures Discovery(s, v) == Absent
  {
  }

  /** What a poll waits for has not come. */
  predicate Waits(s: State, c: Candidate, stage: Stage) {
    match stage
    case Poll(id, _) => id in s.releases && (s.releases[id].draft || !s.releases[id].immutable)
    case Latest(id, _) => s.latest != id
    case Await(id, queue, _) =>
      queue != [] && (queue[0] in Contents(s, id) ==>
        queue[0] in c.expected && Contents(s, id)[queue[0]] == Asset(c.expected[queue[0]], false))
    case _ => false
  }

  function Reads(v: Version, count: nat): seq<Event> {
    seq(count, i => Step(v, Success))
  }

  /** Twelve reads in vain end a run, and not one fewer. */
  lemma {:induction false} TwelveReads(s: State, v: Version, count: nat)
    requires v in s.runs && Waits(s, s.runs[v].candidate, s.runs[v].stage)
    requires s.runs[v].stage.attempt < 12 && s.runs[v].stage.attempt + count <= 12
    ensures var stage := s.runs[v].stage;
      Execute(s, Reads(v, count))
        == At(s, v, if stage.attempt + count < 12 then stage.(attempt := stage.attempt + count) else Failed)
    decreases count
  {
    var stage := s.runs[v].stage;
    if count == 0 {
      assert s.runs[v := s.runs[v]] == s.runs;
    } else {
      var next := if stage.attempt + 1 < 12 then stage.(attempt := stage.attempt + 1) else Failed;
      assert Apply(s, Step(v, Success)) == At(s, v, next);
      hide Apply;
      assert Reads(v, count)[1..] == Reads(v, count - 1);
      if stage.attempt + 1 < 12 {
        TwelveReads(At(s, v, next), v, count - 1);
      }
    }
  }

  /** A run that awaits an upload goes on exactly when the expected content is there and uploaded,
      and ends at once for another content. */
  lemma AwaitedExactly(s: State, v: Version, answer: Answer)
    requires v in s.runs && s.runs[v].stage.Await? && s.runs[v].stage.queue != []
    ensures var c, stage, next := s.runs[v].candidate, s.runs[v].stage, Apply(s, Step(v, answer)).runs[v].stage;
      var name, actual := stage.queue[0], Contents(s, stage.id);
      && (next.Upload? || next.Confirm? <==>
            name in c.expected && name in actual && actual[name] == Asset(c.expected[name], true))
      && (next.Upload? ==> next == Upload(stage.id, stage.queue[1..]))
      && (next.Confirm? ==> next == Confirm(stage.id) && |stage.queue| == 1)
      && (name in actual && (name !in c.expected || actual[name].content != c.expected[name]) ==> next.Failed?)
  {
  }

  // --- A crashed publication can always be resumed ---

  predicate PartOf(actual: map<string, Asset>, c: Candidate) {
    forall name :: name in actual ==> name in c.expected && actual[name].content == c.expected[name]
  }

  /** What runs of the one candidate `c` have left on the remote under its tag. */
  ghost predicate Leftover(s: State, c: Candidate, id: nat) {
    && id in s.releases && id in s.assets
    && s.releases[id].contract == c.contract && s.releases[id].careeros
    && PartOf(s.assets[id], c)
    && (!s.releases[id].draft ==> Complete(s.assets[id], c) && c.version in s.promoted)
  }

  ghost predicate Recoverable(s: State, c: Candidate) {
    && (forall id :: id in Tagged(s, c.version) ==> Leftover(s, c, id))
    && (c.version in s.runs ==> s.runs[c.version].candidate == c)
  }

  predicate SameCandidate(e: Event, c: Candidate) {
    e.Start? && e.candidate.version == c.version ==> e.candidate == c
  }

  lemma RecoverableStep(s: State, c: Candidate, v: Version, answer: Answer)
    requires Inv(s) && Recoverable(s, c)
    ensures Recoverable(Apply(s, Step(v, answer)), c)
  {
    hide NextStage, Written, Inv, Leftover;
    var s' := Apply(s, Step(v, answer));
    if v in s.runs {
      forall id | id in Tagged(s', c.version)
        ensures Leftover(s', c, id)
      {
        if id in Tagged(s, c.version) {
          LeftoverStep(s, c, v, answer, id);
        } else {
          NewLeftover(s, c, v, answer, id);
        }
      }
    }
  }

  lemma LeftoverStep(s: State, c: Candidate, v: Version, answer: Answer, id: nat)
    requires Inv(s) && Recoverable(s, c) && v in s.runs && id in Tagged(s, c.version)
    ensures Leftover(Act(s, v, answer), c, id)
  {
    hide NextStage, RunsOk, Exclusive, History, Increasing, LatestOk;
    RunIsOk(s, v);
    assert Leftover(s, c, id);
  }

  lemma NewLeftover(s: State, c: Candidate, v: Version, answer: Answer, id: nat)
    requires Inv(s) && Recoverable(s, c) && v in s.runs
    requires id in Tagged(Act(s, v, answer), c.version) && id !in Tagged(s, c.version)
    ensures Leftover(Act(s, v, answer), c, id)
  {
    hide NextStage, RunsOk, Exclusive, History, Increasing, LatestOk;
    RunIsOk(s, v);
  }

  lemma RecoverableSettle(s: State, c: Candidate, e: Event)
    requires Inv(s) && Recoverable(s, c) && !e.Step? && SameCandidate(e, c)
    ensures Recoverable(Apply(s, e), c)
  {
    hide Inv;
    var s' := Apply(s, e);
    forall id | id in Tagged(s', c.version)
      ensures Leftover(s', c, id)
    {
      assert id in Tagged(s, c.version) && Leftover(s, c, id);
    }
  }

  /** Over every run in which the version is published from one candidate only. */
  lemma {:induction false} RunsStayRecoverable(s: State, c: Candidate, events: seq<Event>)
    requires Inv(s) && Recoverable(s, c)
    requires forall e :: e in events ==> SameCandidate(e, c)
    ensures Recoverable(Execute(s, events), c)
    decreases |events|
  {
    if events != [] {
      var e := events[0];
      if e.Step? {
        RecoverableStep(s, c, e.version, e.answer);
      } else {
        RecoverableSettle(s, c, e);
      }
      EventKeeps(s, e);
      RunsStayRecoverable(Apply(s, e), c, events[1..]);
    }
  }

  lemma {:induction false} ExecuteTwice(s: State, a: seq<Event>, b: seq<Event>)
    ensures Execute(s, a + b) == Execute(Execute(s, a), b)
    decreases |a|
  {
    if a == [] {
      assert a + b == b;
    } else {
      assert (a + b)[0] == a[0] && (a + b)[1..] == a[1..] + b;
      ExecuteTwice(Apply(s, a[0]), a[1..], b);
    }
  }

  /** What a run that nothing disturbs is made of: its start, its own steps with every write
      answered, and the remote settling what was written. */
  predicate Undisturbed(e: Event, c: Candidate) {
    match e
    case Start(other) => other == c
    case Crash(_) => false
    case Step(v, answer) => v == c.version && answer.Success?
    case AssetSettles(_, _) => true
    case BecomesImmutable(_) => true
  }

  /** Undisturbed events of this candidate lead from `s` to `end`. */
  ghost predicate Leads(s: State, c: Candidate, events: seq<Event>, end: State) {
    Execute(s, events) == end && forall e :: e in events ==> Undisturbed(e, c)
  }

  lemma LeadsThrough(s: State, c: Candidate, a: seq<Event>, m: State, b: seq<Event>, end: State)
    requires Leads(s, c, a, m) && Leads(m, c, b, end)
    ensures Leads(s, c, a + b, end)
  {
    ExecuteTwice(s, a, b);
  }

  lemma LeadsNowhere(s: State, c: Candidate)
    ensures Leads(s, c, [], s)
  {
  }

  lemma LeadsOne(s: State, c: Candidate, e: Event)
    requires Undisturbed(e, c)
    ensures Leads(s, c, [e], Apply(s, e))
  {
    assert Execute(s, [e]) == Execute(Apply(s, e), [e][1..]);
  }

  /** The remote is free for this version, and its one live run is at `stage`. */
  ghost predicate Ready(s: State, c: Candidate, stage: Stage) {
    && Inv(s) && Recoverable(s, c)
    && c.version in s.runs && s.runs[c.version] == Run(c, stage)
    && (forall id :: !Blocks(s, c.version, id))
    && Advances(s, c.version)
  }

  /** The next step of the run, with its write answered. */
  lemma ReadyStep(s: State, c: Candidate, stage: Stage) returns (s': State)
    requires Ready(s, c, stage)
    ensures s' == Act(s, c.version, Success) && Leads(s, c, [Step(c.version, Success)], s')
    ensures Inv(s') && Recoverable(s', c)
  {
    s' := Apply(s, Step(c.version, Success));
    LeadsOne(s, c, Step(c.version, Success));
    EventKeeps(s, Step(c.version, Success));
    RecoverableStep(s, c, c.version, Success);
  }

  /** The remote settles every asset of a leftover draft. */
  lemma {:induction false} SettleAll(s: State, c: Candidate, id: nat, names: set<string>)
      returns (events: seq<Event>, end: State)
    requires Inv(s) && Recoverable(s, c) && id in Tagged(s, c.version)
    requires names <= s.assets[id].Keys
    requires forall name :: name in s.assets[id] && name !in names ==> s.assets[id][name].uploaded
    ensures Leads(s, c, events, end) && Inv(end) && Recoverable(end, c)
    ensures end == s.(assets := s.assets[id := Contents(end, id)])
    ensures Subset(Contents(end, id), c)
    decreases names
  {
    hide Inv, Leads;
    if names == {} {
      events, end := [], s;
      LeadsNowhere(s, c);
      assert s.assets[id := s.assets[id]] == s.assets;
      assert Leftover(s, c, id);
    } else {
      var name :| name in names;
      var e := AssetSettles(id, name);
      var s' := Apply(s, e);
      LeadsOne(s, c, e);
      EventKeeps(s, e);
      RecoverableSettle(s, c, e);
      assert Tagged(s', c.version) == Tagged(s, c.version);
      var rest;
      rest, end := SettleAll(s', c, id, names - {name});
      events := [e] + rest;
      LeadsThrough(s, c, [e], s', rest, end);
    }
  }

  /** From any point of the upload queue to the whole inventory, one answered upload after another. */
  lemma {:induction false} FinishUploads(s: State, c: Candidate, id: nat, queue: seq<string>)
      returns (events: seq<Event>, end: State)
    requires Ready(s, c, NextUpload(id, queue)) && id in s.assets && Queued(s.assets[id], c, queue)
    ensures Leads(s, c, events, end) && Ready(end, c, Confirm(id))
    ensures id in end.assets && Complete(end.assets[id], c)
    decreases |queue|
  {
    hide Inv, Recoverable, Leads, Awaited;
    if queue == [] {
      events, end := [], s;
      LeadsNowhere(s, c);
    } else {
      var v := c.version;
      assert queue[0] in queue;
      var s1 := ReadyStep(s, c, Upload(id, queue));
      UploadLands(s, c, id, queue);
      var settle := AssetSettles(id, queue[0]);
      var s2 := Apply(s1, settle);
      LeadsOne(s1, c, settle);
      EventKeeps(s1, settle);
      RecoverableSettle(s1, c, settle);
      assert Ready(s2, c, Await(id, queue, 0)) by {
        SameReleasesSameView(s, s2, v);
      }
      var s3 := ReadyStep(s2, c, Await(id, queue, 0));
      SameReleasesSameView(s2, s3, v);
      QueueAfterUpload(s.assets[id], c, queue, c.expected[queue[0]]);
      RunIsOk(s2, v);
      QueueAfterWait(s2.assets[id], c, queue);
      var rest;
      rest, end := FinishUploads(s3, c, id, queue[1..]);
      LeadsThrough(s2, c, [Step(v, Success)], s3, rest, end);
      LeadsThrough(s1, c, [settle], s2, [Step(v, Success)] + rest, end);
      events := [Step(v, Success)] + ([settle] + ([Step(v, Success)] + rest));
      LeadsThrough(s, c, [Step(v, Success)], s1, [settle] + ([Step(v, Success)] + rest), end);
    }
  }

  lemma UploadLands(s: State, c: Candidate, id: nat, queue: seq<string>)
    requires Ready(s, c, Upload(id, queue)) && id in s.assets && Queued(s.assets[id], c, queue) && queue != []
    ensures queue[0] in c.expected && queue[0] !in s.assets[id]
    ensures Act(s, c.version, Success)
         == At(Uploaded(s, id, queue[0], c.expected[queue[0]]), c.version, Await(id, queue, 0))
  {
    assert queue[0] in queue;
  }

  lemma SameReleasesSameView(s: State, s': State, v: Version)
    requires s.releases == s'.releases
    ensures Advances(s, v) <==> Advances(s', v)
    ensures forall id :: Blocks(s, v, id) <==> Blocks(s', v, id)
    ensures Tagged(s, v) == Tagged(s', v)
  {
  }

  lemma OwnDraftIsDiscovered(s: State, c: Candidate, id: nat)
    requires Inv(s) && (forall k :: !Blocks(s, c.version, k)) && id in Tagged(s, c.version)
    ensures Discovery(s, c.version) == Present(id)
  {
    assert Tagged(s, c.version) == {id};
  }

  /** From the complete draft to the published release. */
  lemma FinishPromotion(s: State, c: Candidate, id: nat) returns (events: seq<Event>, end: State)
    requires Ready(s, c, Confirm(id)) && id in s.assets && Complete(s.assets[id], c)
    ensures Leads(s, c, events, end) && c.version in end.runs && end.runs[c.version].stage == Done(id)
    ensures Inv(end) && Published(end, c.version)
  {
    hide Inv, Recoverable, Leads, Discovery;
    var v := c.version;
    var step := [Step(v, Success)];
    RunIsOk(s, v);
    OwnDraftIsDiscovered(s, c, id);
    var s1 := ReadyStep(s, c, Confirm(id));
    SameReleasesSameView(s, s1, v);
    OwnDraftIsDiscovered(s1, c, id);
    var s2 := ReadyStep(s1, c, Rediscover(id));
    SameReleasesSameView(s1, s2, v);
    var s3 := ReadyStep(s2, c, Promote(id));
    var settle := BecomesImmutable(id);
    var s4 := Apply(s3, settle);
    LeadsOne(s3, c, settle);
    EventKeeps(s3, settle);
    PublishedRunVerifies(s4, c, id, Poll(id, 0));
    var s5 := Apply(s4, Step(v, Success));
    LeadsOne(s4, c, Step(v, Success));
    EventKeeps(s4, Step(v, Success));
    var rest;
    rest, end := FinishVerification(s5, c, id);
    LeadsThrough(s4, c, step, s5, rest, end);
    LeadsThrough(s3, c, [settle], s4, step + rest, end);
    LeadsThrough(s2, c, step, s3, [settle] + (step + rest), end);
    LeadsThrough(s1, c, step, s2, step + ([settle] + (step + rest)), end);
    events := step + (step + (step + ([settle] + (step + rest))));
    LeadsThrough(s, c, step, s1, step + (step + ([settle] + (step + rest))), end);
    assert id in end.releases && end.releases[id].tag == Stable(v) && !end.releases[id].draft;
  }

  /** The last two steps, once the release is published, immutable and latest. */
  lemma FinishVerification(s: State, c: Candidate, id: nat) returns (events: seq<Event>, end: State)
    requires Inv(s) && c.version in s.runs && s.runs[c.version] == Run(c, Verify(id))
    requires id in s.releases && Identical(s.releases[id], c, false, true)
    requires Complete(Contents(s, id), c) && s.latest == id
    ensures Leads(s, c, events, end) && c.version in end.runs && end.runs[c.version].stage == Done(id)
    ensures Inv(end) && end.releases == s.releases
  {
    hide Inv, Leads;
    var step := Step(c.version, Success);
    PublishedRunVerifies(s, c, id, Verify(id));
    var s1 := Apply(s, step);
    LeadsOne(s, c, step);
    EventKeeps(s, step);
    PublishedRunVerifies(s1, c, id, Latest(id, 0));
    end := Apply(s1, step);
    LeadsOne(s1, c, step);
    EventKeeps(s1, step);
    events := [step] + [step];
    LeadsThrough(s, c, [step], s1, [step], end);
  }

  /** What the steps answer once the release is published, immutable and latest. */
  lemma PublishedRunVerifies(s: State, c: Candidate, id: nat, stage: Stage)
    requires c.version in s.runs && s.runs[c.version] == Run(c, stage)
    requires id in s.releases && Identical(s.releases[id], c, false, true)
    requires Complete(Contents(s, id), c) && s.latest == id
    ensures stage == Poll(id, 0) ==> Act(s, c.version, Success) == At(s, c.version, Verify(id))
    ensures stage == Verify(id) ==> Act(s, c.version, Success) == At(s, c.version, Latest(id, 0))
    ensures stage == Latest(id, 0) ==> Act(s, c.version, Success) == At(s, c.version, Done(id))
  {
  }

  lemma FromInspection(s: State, c: Candidate, id: nat) returns (events: seq<Event>, end: State)
    requires Ready(s, c, Inspect(id)) && id in s.assets && Subset(s.assets[id], c)
    ensures Leads(s, c, events, end) && c.version in end.runs && end.runs[c.version].stage == Done(id)
    ensures Inv(end) && Published(end, c.version)
  {
    var s1 := ReadyStep(s, c, Inspect(id));
    SameReleasesSameView(s, s1, c.version);
    var uploads, s2 := FinishUploads(s1, c, id, Missing(s.assets[id], c));
    var rest;
    rest, end := FinishPromotion(s2, c, id);
    LeadsThrough(s1, c, uploads, s2, rest, end);
    events := [Step(c.version, Success)] + (uploads + rest);
    LeadsThrough(s, c, [Step(c.version, Success)], s1, uploads + rest, end);
  }

  /** A restart, seen from a remote that nothing blocks. */
  lemma Restart(s: State, c: Candidate) returns (s': State)
    requires Inv(s) && Recoverable(s, c) && c.version !in s.runs
    requires (forall id :: !Blocks(s, c.version, id)) && Advances(s, c.version)
    ensures Leads(s, c, [Start(c)], s') && Ready(s', c, Discover)
    ensures s'.releases == s.releases && s'.assets == s.assets && s'.latest == s.latest && s'.nextId == s.nextId
  {
    s' := Apply(s, Start(c));
    LeadsOne(s, c, Start(c));
    EventKeeps(s, Start(c));
    RecoverableSettle(s, c, Start(c));
    SameReleasesSameView(s, s', c.version);
  }

  lemma ResumesFromNothing(s: State, c: Candidate) returns (events: seq<Event>, end: State)
    requires Inv(s) && Recoverable(s, c) && c.version !in s.runs
    requires (forall id :: !Blocks(s, c.version, id)) && Advances(s, c.version)
    requires Tagged(s, c.version) == {}
    ensures Leads(s, c, events, end) && c.version in end.runs && end.runs[c.version].stage.Done?
    ensures Inv(end) && Published(end, c.version)
  {
    hide Inv, Recoverable, Leads;
    var v := c.version;
    var s1 := Restart(s, c);
    SameReleasesSameView(s, s1, v);
    var s2 := ReadyStep(s1, c, Discover);
    SameReleasesSameView(s1, s2, v);
    var s3 := ReadyStep(s2, c, Create);
    assert Ready(s3, c, Inspect(s.nextId)) by {
      forall id
        ensures !Blocks(s3, v, id)
      {
        assert !Blocks(s2, v, id);
      }
      forall id | id in s3.releases
        ensures Precedes(s3.releases[id], v)
      {
        assert id in s2.releases ==> Precedes(s2.releases[id], v);
      }
    }
    var rest;
    rest, end := FromInspection(s3, c, s.nextId);
    LeadsThrough(s2, c, [Step(v, Success)], s3, rest, end);
    LeadsThrough(s1, c, [Step(v, Success)], s2, [Step(v, Success)] + rest, end);
    events := [Start(c)] + ([Step(v, Success)] + ([Step(v, Success)] + rest));
    LeadsThrough(s, c, [Start(c)], s1, [Step(v, Success)] + ([Step(v, Success)] + rest), end);
  }

  lemma ResumesFromDraft(s: State, c: Candidate, id: nat) returns (events: seq<Event>, end: State)
    requires Inv(s) && Recoverable(s, c) && c.version !in s.runs
    requires (forall k :: !Blocks(s, c.version, k)) && Advances(s, c.version)
    requires id in Tagged(s, c.version) && s.releases[id].draft
    ensures Leads(s, c, events, end) && c.version in end.runs && end.runs[c.version].stage.Done?
    ensures Inv(end) && Published(end, c.version)
  {
    var v := c.version;
    var settling, s1 := SettleAll(s, c, id, s.assets[id].Keys);
    SameReleasesSameView(s, s1, v);
    var s2 := Restart(s1, c);
    SameReleasesSameView(s1, s2, v);
    OwnDraftIsDiscovered(s2, c, id);
    assert Leftover(s2, c, id);
    var s3 := ReadyStep(s2, c, Discover);
    SameReleasesSameView(s2, s3, v);
    var rest;
    rest, end := FromInspection(s3, c, id);
    LeadsThrough(s2, c, [Step(v, Success)], s3, rest, end);
    LeadsThrough(s1, c, [Start(c)], s2, [Step(v, Success)] + rest, end);
    events := settling + ([Start(c)] + ([Step(v, Success)] + rest));
    LeadsThrough(s, c, settling, s1, [Start(c)] + ([Step(v, Success)] + rest), end);
  }

  /** If the version was promoted and nothing above it is published, it is the latest release. */
  lemma PromotedIsLatest(s: State, v: Version, id: nat)
    requires Inv(s) && v in s.promoted && Advances(s, v)
    requires id in s.releases && s.releases[id].tag == Stable(v)
    ensures s.latest == id
  {
    var last := s.promoted[|s.promoted| - 1];
    if last != v {
      assert false by {
        NothingLaterWasPromoted(s, v, last);
      }
    }
  }

  lemma NothingLaterWasPromoted(s: State, v: Version, w: Version)
    requires Inv(s) && Advances(s, v) && w in s.promoted
    ensures !v.Before(w)
  {
    assert Published(s, w);
    var k :| k in s.releases && s.releases[k].tag == Stable(w) && !s.releases[k].draft;
    assert Precedes(s.releases[k], v);
  }

  lemma ResumesFromPublished(s: State, c: Candidate, id: nat) returns (events: seq<Event>, end: State)
    requires Inv(s) && Recoverable(s, c) && c.version !in s.runs
    requires (forall k :: !Blocks(s, c.version, k)) && Advances(s, c.version)
    requires id in Tagged(s, c.version) && !s.releases[id].draft
    ensures Leads(s, c, events, end) && c.version in end.runs && end.runs[c.version].stage.Done?
    ensures Inv(end) && Published(end, c.version)
  {
    hide Inv, Leads;
    var v := c.version;
    assert Leftover(s, c, id);
    PromotedIsLatest(s, v, id);
    var settle := BecomesImmutable(id);
    var s1 := Apply(s, settle);
    LeadsOne(s, c, settle);
    EventKeeps(s, settle);
    RecoverableSettle(s, c, settle);
    assert forall k :: Blocks(s1, v, k) <==> Blocks(s, v, k);
    assert Advances(s1, v) by {
      forall k | k in s1.releases
        ensures Precedes(s1.releases[k], v)
      {
        assert Precedes(s.releases[k], v);
      }
    }
    var s2 := Restart(s1, c);
    SameReleasesSameView(s1, s2, v);
    OwnDraftIsDiscovered(s2, c, id);
    var s3 := ReadyStep(s2, c, Discover);
    var rest;
    rest, end := FinishVerification(s3, c, id);
    LeadsThrough(s2, c, [Step(v, Success)], s3, rest, end);
    LeadsThrough(s1, c, [Start(c)], s2, [Step(v, Success)] + rest, end);
    events := [settle] + ([Start(c)] + ([Step(v, Success)] + rest));
    LeadsThrough(s, c, [settle], s1, [Start(c)] + ([Step(v, Success)] + rest), end);
    assert id in end.releases && end.releases[id].tag == Stable(v) && !end.releases[id].draft;
  }

  /** Whatever crashes, lost answers and other publishers have left behind, a version published
      from one candidate can be finished, provided that no other draft stands and nothing above
      it is published: starting it again, answering its writes and letting the remote settle
      leads from there to the end of the run. */
  lemma PublicationCanBeResumed(start: State, c: Candidate, past: seq<Event>) returns (events: seq<Event>, end: State)
    requires Initial(start) && Tagged(start, c.version) == {}
    requires forall e :: e in past ==> SameCandidate(e, c)
    requires var s := Execute(start, past);
      c.version !in s.runs && (forall id :: !Blocks(s, c.version, id)) && Advances(s, c.version)
    ensures Execute(Execute(start, past), events) == end
    ensures forall e :: e in events ==> Undisturbed(e, c)
    ensures c.version in end.runs && end.runs[c.version].stage.Done? && Published(end, c.version)
    ensures var id := end.runs[c.version].stage.id;
      && end.runs[c.version].candidate == c
      && id in end.releases && end.releases[id] == Release(Stable(c.version), c.contract, true, false, true)
      && id in end.assets && end.assets[id] == Inventory(c)
  {
    var s := Execute(start, past);
    EveryRunKeeps(start, past);
    RunsStayRecoverable(start, c, past);
    if Tagged(s, c.version) == {} {
      events, end := ResumesFromNothing(s, c);
    } else {
      var id :| id in Tagged(s, c.version);
      if s.releases[id].draft {
        events, end := ResumesFromDraft(s, c, id);
      } else {
        events, end := ResumesFromPublished(s, c, id);
      }
    }
    ResumedIsPublished(start, c, past, events);
  }

  lemma ResumedIsPublished(start: State, c: Candidate, past: seq<Event>, events: seq<Event>)
    requires Initial(start) && Tagged(start, c.version) == {}
    requires forall e :: e in past ==> SameCandidate(e, c)
    requires forall e :: e in events ==> Undisturbed(e, c)
    requires var end := Execute(Execute(start, past), events);
      c.version in end.runs && end.runs[c.version].stage.Done?
    ensures var end := Execute(Execute(start, past), events); var id := end.runs[c.version].stage.id;
      && end.runs[c.version].candidate == c
      && id in end.releases && end.releases[id] == Release(Stable(c.version), c.contract, true, false, true)
      && id in end.assets && end.assets[id] == Inventory(c)
  {
    hide Inv, Apply;
    ExecuteTwice(start, past, events);
    RunsStayRecoverable(start, c, past + events) by {
      assert Inv(start) by { InitialIsOk(start); }
    }
    DoneMeansPublished(start, past + events, c.version);
  }

  lemma InitialIsOk(s: State)
    requires Initial(s)
    ensures Inv(s)
  {
  }
}
