/**
 Dossier drafts (backend/applications/dossier_drafts.py): one revisioned draft per application,
 saved by compare-and-swap and bound to a CV that must still be current when it is saved.
 */
module DossierDrafts {
  import opened Wrappers
  import opened WorkTypes
  import opened WorkContext
  import opened WorkDatabase

  datatype DossierError = NotFound | Invalid | Conflict

  datatype Verdict<+T> = Done(value: T) | Failed(error: DossierError)

  datatype Put = Put(
    expected: Option<nat>, expectedApplication: nat,
    version: Option<Id>, draft: Option<Id>, expectedDraft: Option<nat>,
    content: DossierContent)

  // ---- Specification ----

  function OwnedVersion(v: Vault, user: Id, version: Id): bool {
    user in v.profiles && version in v.versions && v.versions[version] == user
  }

  function VersionRefusal(v: Vault, user: Id, app: Id, version: Id): Option<DossierError>
    requires app in v.applications
  {
    if !OwnedVersion(v, user, version) then Some(Invalid)
    else if v.applications[app].resumeVersion != Some(version) then Some(Conflict)
    else None
  }

  function DraftRefusal(v: Vault, user: Id, p: Put, draft: Id): Option<DossierError> {
    if OwnedResume(v, user, draft).None? then Some(Invalid)
    else if Some(v.resumes[draft].revision) != p.expectedDraft then Some(Conflict)
    else None
  }

  function RowRefusal(v: Vault, app: Id, p: Put): Option<DossierError> {
    var current := if app in v.dossiers then Some(v.dossiers[app].revision) else None;
    if current != p.expected then Some(Conflict) else None
  }

  /** Why a save is refused, in terms of the vault before it. A version must be the one the
      application links; that it links none is noticed only after the row has been written. */
  function Refusal(v: Vault, user: Id, app: Id, p: Put): Option<DossierError> {
    if OwnedApplication(v, user, app).None? then Some(NotFound)
    else if v.applications[app].revision != p.expectedApplication then Some(Conflict)
    else if p.version.Some? == p.draft.Some? then Some(Invalid)
    else if p.version.Some? && VersionRefusal(v, user, app, p.version.value).Some?
    then VersionRefusal(v, user, app, p.version.value)
    else if p.draft.Some? && DraftRefusal(v, user, p, p.draft.value).Some?
    then DraftRefusal(v, user, p, p.draft.value)
    else RowRefusal(v, app, p)
  }

  function Bound(p: Put): Binding {
    if p.version.Some? then ToVersion(p.version.value)
    else ToDraft(if p.draft.Some? then p.draft.value else 0,
                 if p.expectedDraft.Some? then p.expectedDraft.value else 0)
  }

  function NextRevision(p: Put): nat {
    if p.expected.Some? then p.expected.value + 1 else 1
  }

  function Stored(v: Vault, app: Id, p: Put): Vault {
    v.(dossiers := v.dossiers[app := Dossier(Bound(p), p.expectedApplication, NextRevision(p), p.content)])
  }

  function DeleteRefusal(v: Vault, user: Id, app: Id, expected: nat): Option<DossierError> {
    if OwnedApplication(v, user, app).None? || app !in v.dossiers then Some(NotFound)
    else if v.dossiers[app].revision != expected then Some(Conflict)
    else None
  }

  function Deleted(v: Vault, app: Id): Vault {
    v.(dossiers := v.dossiers - {app})
  }

  // ---- The service ----

  /** The binding a draft would get, or why it cannot have it. */
  method ResolveBinding(v: Vault, user: Id, app: Id, p: Put) returns (r: Verdict<Binding>)
    requires app in v.applications
    ensures r.Done? ==> r.value == Bound(p) && p.version.Some? != p.draft.Some?
    ensures r.Done? && p.version.Some? ==> OwnedVersion(v, user, p.version.value)
    ensures r.Done? && p.draft.Some? ==> DraftRefusal(v, user, p, p.draft.value).None?
    ensures r.Failed? && r.error == Invalid ==>
      || p.version.Some? == p.draft.Some?
      || (p.version.Some? && !OwnedVersion(v, user, p.version.value))
      || (p.draft.Some? && DraftRefusal(v, user, p, p.draft.value) == Some(Invalid))
    ensures r.Failed? && r.error != Invalid ==>
      && r.error == Conflict && p.version.Some? != p.draft.Some?
      && (p.version.Some? ==> VersionRefusal(v, user, app, p.version.value) == Some(Conflict))
      && (p.draft.Some? ==> DraftRefusal(v, user, p, p.draft.value) == Some(Conflict))
  {
    if p.version.Some? == p.draft.Some? {
      return Failed(Invalid);
    }
    if p.version.Some? {
      if !OwnedVersion(v, user, p.version.value) {
        return Failed(Invalid);
      }
      var linked := v.applications[app].resumeVersion;
      if linked.Some? && linked != p.version {
        return Failed(Conflict);
      }
      return Done(ToVersion(p.version.value));
    }
    var draft := OwnedResume(v, user, p.draft.value);
    if draft.None? {
      return Failed(Invalid);
    }
    if p.expectedDraft.Some? && draft.value.revision != p.expectedDraft.value {
      return Failed(Conflict);
    }
    if p.expectedDraft != Some(draft.value.revision) {
      return Failed(Conflict);
    }
    return Done(ToDraft(p.draft.value, p.expectedDraft.value));
  }

  /** `mutate_dossier_draft_flush_only`: writes without committing. After a failure the session
      may be left with a written row, which the owner of the transaction must roll back. */
  method MutateFlushOnly(s: Session, user: Id, app: Id, p: Put) returns (r: Verdict<nat>)
    modifies s
    ensures s.committed == old(s.committed)
    ensures r.Done? <==> Refusal(old(s.db).vault, user, app, p).None?
    ensures r.Failed? ==> Some(r.error) == Refusal(old(s.db).vault, user, app, p)
    ensures r.Done? ==> r.value == NextRevision(p)
    ensures r.Done? ==> s.db == old(s.db).(vault := Stored(old(s.db).vault, app, p))
  {
    var v := s.db.vault;
    if OwnedApplication(v, user, app).None? {
      return Failed(NotFound);
    }
    if v.applications[app].revision != p.expectedApplication {
      return Failed(Conflict);
    }
    var binding := ResolveBinding(v, user, app, p);
    if binding.Failed? {
      return Failed(binding.error);
    }
    var revision;
    if p.expected.None? {
      if app in v.dossiers {
        return Failed(Conflict);
      }
      revision := 1;
    } else {
      if app !in v.dossiers {
        return Failed(Conflict);
      }
      if v.dossiers[app].revision != p.expected.value {
        return Failed(Conflict);
      }
      revision := p.expected.value + 1;
    }
    var row := Dossier(binding.value, p.expectedApplication, revision, p.content);
    s.db := s.db.(vault := v.(dossiers := v.dossiers[app := row]));
    var current := s.db.vault.applications[app];
    if current.revision != p.expectedApplication
       || (p.version.Some? && current.resumeVersion != p.version) {
      return Failed(Conflict);
    }
    return Done(revision);
  }

  /** `put_dossier_draft` */
  method PutDossier(s: Session, user: Id, app: Id, p: Put) returns (r: Verdict<Dossier>)
    requires s.db == s.committed
    modifies s
    ensures s.db == s.committed
    ensures r.Failed? ==> s.db == old(s.db) && Some(r.error) == Refusal(old(s.db).vault, user, app, p)
    ensures r.Done? ==> Refusal(old(s.db).vault, user, app, p).None?
    ensures r.Done? ==> s.db == old(s.db).(vault := Stored(old(s.db).vault, app, p))
    ensures r.Done? ==> r.value == s.db.vault.dossiers[app]
  {
    var stored := MutateFlushOnly(s, user, app, p);
    if stored.Failed? {
      s.Rollback();
      return Failed(stored.error);
    }
    s.Commit();
    return Done(s.db.vault.dossiers[app]);
  }

  /** `delete_dossier_draft` */
  method DeleteDossier(s: Session, user: Id, app: Id, expected: nat) returns (r: Verdict<()>)
    requires s.db == s.committed
    modifies s
    ensures s.db == s.committed
    ensures r.Failed? ==> s.db == old(s.db) && Some(r.error) == DeleteRefusal(old(s.db).vault, user, app, expected)
    ensures r.Done? ==> DeleteRefusal(old(s.db).vault, user, app, expected).None?
    ensures r.Done? ==> s.db == old(s.db).(vault := Deleted(old(s.db).vault, app))
  {
    var v := s.db.vault;
    if OwnedApplication(v, user, app).None? {
      return Failed(NotFound);
    }
    if app in v.dossiers && v.dossiers[app].revision == expected {
      s.db := s.db.(vault := v.(dossiers := v.dossiers - {app}));
      s.Commit();
      return Done(());
    }
    s.Rollback();
    if app !in s.db.vault.dossiers {
      return Failed(NotFound);
    }
    return Failed(Conflict);
  }

  // ---- What a saved draft means ----

  /** The draft names the application and the CV as they are now. */
  predicate BindingIsCurrent(v: Vault, app: Id) {
    && app in v.dossiers && app in v.applications
    && v.dossiers[app].applicationRevision == v.applications[app].revision
    && match v.dossiers[app].binding {
         case ToVersion(version) =>
           version in v.versions && v.applications[app].resumeVersion == Some(version)
         case ToDraft(draft, revision) =>
           draft in v.resumes && v.resumes[draft].revision == revision
       }
  }

  /** A save goes through exactly when the application is the user's, the editor's view of the
      draft row is the current one, and the one binding it asks for is the user's and current. */
  lemma SavedBindingsAreCurrent(v: Vault, user: Id, app: Id, p: Put)
    ensures Refusal(v, user, app, p).None? <==>
         && OwnedApplication(v, user, app).Some?
         && p.version.Some? != p.draft.Some?
         && (p.version.Some? ==> OwnedVersion(v, user, p.version.value))
         && (p.draft.Some? ==> OwnedResume(v, user, p.draft.value).Some? && p.expectedDraft.Some?)
         && (if app in v.dossiers then Some(v.dossiers[app].revision) else None) == p.expected
         && BindingIsCurrent(Stored(v, app, p), app)
  {
    assert Stored(v, app, p).dossiers[app].binding == Bound(p);
  }

  /** Of two editors that started from the same draft, only the first can save, and neither can
      the second delete what the first has saved. */
  lemma LostUpdatesAreRefused(v: Vault, user: Id, app: Id, p: Put, other: Id, q: Put)
    requires Refusal(v, user, app, p).None?
    requires q.expected == p.expected
    ensures Refusal(Stored(v, app, p), other, app, q).Some?
    ensures p.expected.Some? ==> DeleteRefusal(Stored(v, app, p), other, app, p.expected.value).Some?
  {
    var v' := Stored(v, app, p);
    assert v'.dossiers[app].revision == NextRevision(p);
    assert RowRefusal(v', app, q) == Some(Conflict);
  }

  datatype Edit = Save(user: Id, put: Put) | Remove(user: Id, expected: nat)

  function Edited(v: Vault, app: Id, e: Edit): Vault {
    match e
    case Save(user, p) => if Refusal(v, user, app, p).None? then Stored(v, app, p) else v
    case Remove(user, expected) => if DeleteRefusal(v, user, app, expected).None? then Deleted(v, app) else v
  }

  function AfterEdits(v: Vault, app: Id, edits: seq<Edit>): Vault {
    if edits == [] then v else Edited(AfterEdits(v, app, edits[..|edits| - 1]), app, edits[|edits| - 1])
  }

  /** Saves that went through since the draft last did not exist. */
  function SavesSinceRemoval(v: Vault, app: Id, edits: seq<Edit>): nat {
    if edits == [] then 0
    else
      var before := AfterEdits(v, app, edits[..|edits| - 1]);
      var count := SavesSinceRemoval(v, app, edits[..|edits| - 1]);
      match edits[|edits| - 1]
      case Save(user, p) => if Refusal(before, user, app, p).None? then count + 1 else count
      case Remove(user, expected) => if DeleteRefusal(before, user, app, expected).None? then 0 else count
  }

  /** The revision of a draft is the number of saves that made it: over any run of edits no save
      is lost and none is counted twice. */
  lemma {:induction false} EverySaveCounts(v: Vault, app: Id, edits: seq<Edit>)
    requires app !in v.dossiers
    ensures var v' := AfterEdits(v, app, edits); var count := SavesSinceRemoval(v, app, edits);
            && (app in v'.dossiers <==> count > 0)
            && (app in v'.dossiers ==> v'.dossiers[app].revision == count)
  {
    hide OwnedApplication, VersionRefusal, DraftRefusal;
    if edits != [] {
      EverySaveCounts(v, app, edits[..|edits| - 1]);
    }
  }
}
