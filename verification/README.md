# CareerOS Local: verified models of its protocols and policies

CareerOS Local keeps a career vault on one machine, lets outside agents propose work on it, matches
jobs against evidence, and publishes its own releases. This project models the parts of it that have
to be right over whole runs, and proves what they promise:

- **Vault migration** (`VaultMigration`, `VaultAssumptions`): every launch backs the vault up, writes a journal marker,
  upgrades, clears and prunes. A fault script may fail any file operation or kill the process
  at it. The ghost field `committed` holds every write ever served.
- **Installation secret** (`SecretPublication`): any number of processes reserve a temporary file,
  link it to one name and read back what is published. One system call is one step.
- **Release publisher** (`ReleasePublisher`): publishers of different versions interleave call by
  call against one remote; each write may succeed, fail, or be answered ambiguously, and a run may
  crash anywhere and start again.
- **Agent work** (`WorkTypes`, `WorkContext`, `WorkValidation`, `WorkDatabase`, `DossierDrafts`,
  `MaterialAcceptance`, `AnalysisAcceptance`, `WorkLifecycle`, `WorkService`, `WorkRuns`,
  `WorkTheorems`, `WorkExamples`, `WorkReview`, `WorkAnswers`, `AnalysisAttestation`): the queue of requests and proposals. `WorkLifecycle` says
  what a call does as a function of what it read and of the database at its commit; `WorkService` is
  the services statement by statement over a `Session` with commit and rollback, proved against it;
  `WorkRuns` interleaves reads, commits, edits, clock ticks and abandoned calls. `WorkReview` and
  `WorkAnswers` state the rules of a review and the conditions of each call without their order.
- **Match policy** (`MatchPolicy`, `MatchGrounding`, `MatchOutcome`, `PersistedMatch`): caps on
  proposed scores, their re-check, citations, the outcome shown and the check of what was stored.
- **Bounded text** (`EvidencePacking`, `EvidenceLines`, `EmailRedaction`, `EmailAddresses`): packing
  ranked evidence under a character budget and reading it back, and redacting addresses.
- **Formats and indexes** (`ArchiveMembers`, `ChecksumInventory`, `Agenda`): the member tree of a
  wheel, checksum inventories, the daily agenda.

`Wrappers` and `Ordering` hold optional values, string order and a stable sort. `dafny verify
dfyconfig.toml` checks everything.

## Where the code and the expectation differ

Each of these has a lemma with a concrete input and a lemma with the exact condition.

- A request can leave its life after `expires_at` by the wall clock for something other than expiry:
  a call reads the clock once and its swap may come later (`LateSwapsHappen`). What decides is the
  reading of the call that makes the change (`TheClockThatWasReadDecides`).
- A repeated acceptance does not always return the stored receipt: liveness is checked before the
  replay branch, so once `expires_at` has passed an accepted request answers with `work_expired`
  (`LateReplaysFail`; `AcceptThenReplay` lists all refusals in order).
- A failing cancellation or rejection may change the database: it commits the expiry of all stale
  requests of the owner and then fails (`FailedCancelLeavesATrace`, `FailedMovesMayExpire`). A failing
  submission or acceptance never does (`RefusalsAndReplaysWriteNothing`).
- Altering the structured payload of an attested analysis goes unnoticed if it becomes exactly that of
  another accepted analysis of the same job with the same score and verdict
  (`SwappedPayloadIsAttested`, `SwapsAreNotNoticed`, `AttestedIffVouchedFor`).
- The re-check of grounding reads the last document with the profile's identity, the enforcement the
  first: with two profiles it refuses enforced rows (`TwoProfilesFail`). `RefusedExactly` says which,
  and `AgreeingProfilesPass` with `DisagreeingProfilesFail` say for which pairs of profiles.
  `backend/ai/matching.py` puts exactly one `candidate:profile` into its evidence, so only another
  caller that fills `OrchestrationRequest.evidence`, which is not validated, can bring in two.
- Leftovers of killed processes are never removed by others: a published secret that still has its
  temporary name among more than 64 such files stays unreadable over every run
  (`CrowdingHappens`, `CrowdedStaysUnreadable`; `ReadableExactly` has the condition).
- `parse_checksum_text` accepts more texts than `checksum_text` prints: other line breaks and a missing
  last newline (`OtherBreaksAreAccepted`; `PrintParsed` says when the text itself comes back).
- A finished upgrade does not always leave the backup it made: names carry the time, and one that is
  behind five others is pruned at once (`OwnBackupCanExpire`; `Migrate` has the exact condition).
- A due time after the horizon counts as today's when the local day ends after the horizon
  (`TomorrowIsToday`, `TodayBeyondTheHorizon`).

## Model

| member | source | states |
|---|---|---|
| VaultMigration.Vault.constructor | desktop/backend_main.py:726-842 | A new vault is recoverable and has served nothing. |
| VaultMigration.Vault.Recover | desktop/backend_main.py:641-662 | Stopped anywhere, the marker still says how to get the image back; finished, there is no marker and the database is exactly the image from before the migration, with no stale journal. |
| VaultMigration.Vault.RecoverAfterKills | desktop/backend_main.py:641-662 | Recovery stopped any number of times and then let through ends in the pre-migration image without sidecars. |
| VaultMigration.Vault.Restore | desktop/backend_main.py:692-717 | A finished restore shows what the backup shows and leaves no sidecar. |
| VaultMigration.Vault.Backup | desktop/backend_main.py:665-684 | No older backup is touched and none but its own can appear; a finished backup opens to the current content. |
| VaultMigration.Vault.WriteMarker | desktop/backend_main.py:533-571 | Stopped anywhere, the vault stays recoverable; finished, the marker names this backup with its digest. |
| VaultMigration.Vault.Prune | desktop/backend_main.py:720-723 | Wherever it stops, every backup behind fewer than five newer ones is there as it was; let through, there are those and at most five in all. |
| VaultMigration.NewestBackupsSurvive | desktop/backend_main.py:720-723 | The newest five backups survive pruning wherever it stops. |
| VaultMigration.PruningKeepsFive | desktop/backend_main.py:720-723 | Removing names down the falling order keeps exactly the names with fewer than five newer ones, however far it gets. |
| VaultMigration.OwnBackupExpires | desktop/backend_main.py:665-669 | A backup whose name is behind five others, as after the clock has gone back, is unlinked by the call that made it. |
| VaultMigration.OwnBackupCanExpire | desktop/backend_main.py:841-842 | A concrete such directory. |
| VaultMigration.Vault.RunUpgrade | desktop/backend_main.py:805-811 | An upgrade that passes its checks keeps the user rows and reaches the head. |
| VaultMigration.Vault.RollBack | desktop/backend_main.py:812-839 | A failed upgrade leaves the vault recoverable, and restored if nothing else fails. |
| VaultMigration.Vault.Migrate | desktop/backend_main.py:726-842 | A normal return leaves no marker, the head revision and all rows; any other end leaves the vault recoverable, and with no fault but the upgrade itself restored. No backup with fewer than five newer names is ever lost; an upgrade of a vault with content has backed it up, keeps at most five, and its own is there and opens to what there was exactly if fewer than five old names are greater. An acceptable vault with no fault always migrates. |
| VaultMigration.Vault.Run | desktop/backend_main.py:959-966 | A server that starts shows every write ever committed and adds its own; a launch that fails loses none; one that nothing hinders starts. Backups are kept as `Migrate` says. |
| VaultMigration.Vault.RunAll | desktop/backend_main.py:959-966 | Over any sequence of launches with faults and kills, each server shows exactly the writes of all servers before it, and an old backup with fewer than five newer names among the old and the drawn ones is still there; launches that nothing hinders all serve. |
| VaultAssumptions.AssumptionsCanBeMet | desktop/backend_main.py:726-842 | What is assumed of SQLite and of upgrades and commits can be met together, for any head, writes and faults. |
| SecretPublication.EveryRunKeeps | desktop/backend_main.py:154-295 | The invariant on names, inodes, origins and stages survives every step, launch and kill. |
| SecretPublication.ReturnedSecretsAgree | desktop/backend_main.py:248-295 | All calls that return, now or at any later time, return the same secret. |
| SecretPublication.SecretsAreDrawn | desktop/backend_main.py:248-295 | Whatever is published or returned after any run is what was published at the start, or else what a step drew while nothing was published. |
| SecretPublication.LoneProcessPublishes | desktop/backend_main.py:248-295 | An undisturbed process in a directory without a secret publishes and returns the secret it drew first and leaves no temporary file. |
| SecretPublication.NamesRunOut | desktop/backend_main.py:264-295 | A process gives up after 32 names that are taken and not before. |
| SecretPublication.NoFalseAlarm | desktop/backend_main.py:164-198 | The published inode always has one or two links and at most one alias, and the only failures are too many siblings and exhausted names. |
| SecretPublication.StepFailsExactly | desktop/backend_main.py:154-161 | A step fails exactly when it lists more than 64 siblings or has met 32 taken names. |
| SecretPublication.CrowdedStaysUnreadable | desktop/backend_main.py:154-198 | With no live process, a two-link publication beside more than 64 temporary files is never read again, whatever is launched or killed, and its directory never changes. |
| SecretPublication.ReadableExactly | desktop/backend_main.py:154-198 | When all processes have ended, some later one can read the published secret exactly if its temporary name is gone or at most 64 temporary files are left. |
| SecretPublication.CrowdingHappens | desktop/backend_main.py:154-161 | A concrete run of 65 killed processes from an empty directory, after which no call ever returns. |
| SecretPublication.PublicationStays | desktop/backend_main.py:278-294 | A published secret is never replaced. |
| ReleasePublisher.EveryRunKeeps | scripts/publish_github_release.py:306-324 | The protocol invariant survives every step, crash, restart and settling of the remote. |
| ReleasePublisher.PromotionsAreOrdered | scripts/publish_github_release.py:289-324 | Windows from rediscovery to promotion never overlap, versions are promoted in increasing order, no tag has two releases, and the last one promoted is the latest. |
| ReleasePublisher.RediscoveryExcludes | scripts/publish_github_release.py:154-167 | A rediscovery that passes excludes every other run from its promotion window. |
| ReleasePublisher.PromotionIsComplete | scripts/publish_github_release.py:270-324 | Only a draft whose assets are the expected inventory is promoted, above everything published. |
| ReleasePublisher.OnlyMissingAssetsAreUploaded | scripts/publish_github_release.py:195-246 | An upload is sent only for an expected asset the remote does not hold. |
| ReleasePublisher.FinishedReleaseIsLeftAlone | scripts/publish_github_release.py:306-313 | A run on a published version writes nothing. |
| ReleasePublisher.PublishedIsFinal | scripts/publish_github_release.py:270-287 | No event changes a published release or its assets, but for what the remote itself settles, which is never undone. |
| ReleasePublisher.RunsStayRecoverable | scripts/publish_github_release.py:207-268 | Runs of one candidate leave nothing behind that a later run of it would refuse. |
| ReleasePublisher.PublicationCanBeResumed | scripts/publish_github_release.py:207-324 | After any crashes and lost answers an unblocked version is brought to its end by starting it again, with its own answered steps and the remote settling, and nothing else; its release is then published for good with exactly the expected assets, all uploaded. |
| ReleasePublisher.DoneMeansPublished | scripts/publish_github_release.py:306-324 | Over every run, a publisher that reports success has its tag, contract and CareerOS mark on a release that is published and immutable and holds exactly the expected names and contents, all uploaded. |
| ReleasePublisher.DoneFindsLatest | scripts/publish_github_release.py:297-304 | A run enters its end only by a step that found its release to be the latest. |
| ReleasePublisher.DoneWasLatest | scripts/publish_github_release.py:297-324 | Over every run, the release of a finished run was the latest at some moment. |
| ReleasePublisher.OnlyTheInventoryIsDone | scripts/publish_github_release.py:195-205 | Once a version is published with other names or contents than a candidate expects, no run of that candidate is ever done. |
| ReleasePublisher.DiscoveryFailsExactly | scripts/publish_github_release.py:154-193 | The first look refuses exactly a foreign CareerOS draft, two releases of the tag, a published release that is not below the version, and a release of the tag that is not the candidate's own. |
| ReleasePublisher.LostAnswersAreReconciled | scripts/publish_github_release.py:207-287 | A lost answer to a write that was applied makes no difference to an unblocked run; one to a write that was not applied leaves the remote as it was. |
| ReleasePublisher.TwelveReads | scripts/publish_github_release.py:248-304 | Each of the three polling loops ends after twelve reads in vain and not before. |
| WorkContext.AssessmentsAreInvisible | backend/agent_work/context.py:249-270 | A changed analysis of a job changes no snapshot. |
| WorkContext.ChosenInOrder | backend/agent_work/context.py:164-176 | The facts shown are all the selected ones and no other, in the order of the profile. |
| WorkContext.SnapshotShowsExactly | backend/agent_work/context.py:158-309 | A snapshot shows exactly the selected facts of the owner, the right advert, and the revisions of what it was made from. |
| WorkContext.SnapshotExistsExactly | backend/agent_work/context.py:158-309 | A snapshot exists exactly for at most 100 facts, every selected one, owned and consistent targets, and a job for an analysis. |
| WorkValidation.CheckGates | backend/agent_work/validation.py:244-339 | The loop finds the first fault of the gates, and otherwise replaces the proposed overall score. |
| WorkValidation.FitScoreBounds | backend/agent_work/validation.py:101-105 | The fit score of any scores lies between 0 and 100. |
| WorkValidation.GatesAreDistinct | backend/agent_work/validation.py:250-251 | Accepted gates judge each of the six dimensions exactly once. |
| WorkValidation.UnknownWeightIsLost | backend/agent_work/validation.py:287-339 | The overall score is at most 100 minus the weight of the dimensions with unknowns. |
| WorkValidation.RecommendationNeedsEveryGate | backend/agent_work/validation.py:358-365 | A recommendation to apply has every gate eligible with nothing unknown. |
| WorkValidation.ReviewSettles | backend/agent_work/validation.py:425-434 | A stored payload passes review again unchanged exactly when the computed score has not pushed it over the size limit. |
| WorkReview.GateStandsExactly | backend/agent_work/validation.py:259-338 | A gate passes exactly when it cites known facts and the advert, is settled by supporting quotations or unknown at score zero, and is eligible only for a candidate who qualifies in its dimension. |
| WorkReview.GatesPassExactly | backend/agent_work/validation.py:244-339 | Gates pass exactly when there is one a dimension and each stands; what is kept are the proposed scores with the server's overall one. |
| WorkReview.AnalysisPassesExactly | backend/agent_work/validation.py:358-371 | An analysis passes exactly when its gates do, it recommends only with all of them open, and every claim is grounded and quotes the job. |
| WorkReview.ListingsPassExactly | backend/agent_work/validation.py:342-355 | Found vacancies pass exactly when each passes against its own text, and are kept in order. |
| WorkReview.MaterialsPassExactly | backend/agent_work/validation.py:374-422 | Materials pass exactly with known selected facts, the chosen template, distinct identities and targets, grounded texts and backed requirements, and are kept as they are. |
| WorkReview.FitScoreIsNearest | backend/agent_work/validation.py:101-105 | The overall score is the weighted mean rounded to the nearest whole number, halves upwards. |
| WorkReview.QuotedFromOneField | backend/agent_work/validation.py:253-266 | A one-line quotation is accepted exactly when it occurs in the title, the description or the location. |
| DossierDrafts.MutateFlushOnly | backend/applications/dossier_drafts.py:62-214 | Succeeds or fails as the declared refusals say, commits nothing, and on success changes one row. |
| DossierDrafts.PutDossier | backend/applications/dossier_drafts.py:216-234 | All or nothing: a refused save leaves the database as it was. |
| DossierDrafts.DeleteDossier | backend/applications/dossier_drafts.py:236-261 | Removes the draft at the expected revision or changes nothing, and tells missing from changed. |
| DossierDrafts.SavedBindingsAreCurrent | backend/applications/dossier_drafts.py:43-60 | For any vault and any save: it goes through exactly when the application is the user's, the expected revision is current, and exactly one binding is asked for, owned by the user and current once stored. |
| DossierDrafts.LostUpdatesAreRefused | backend/applications/dossier_drafts.py:178-207 | A second save or delete from the same starting revision is refused. |
| DossierDrafts.EverySaveCounts | backend/applications/dossier_drafts.py:150-205 | Over any run of edits the revision is the number of saves since the draft last did not exist. |
| MaterialAcceptance.AcceptMaterials | backend/agent_work/material_acceptance.py:32-184 | Succeeds exactly when nothing is refused of the vault as it was, with both rows written; nothing is committed. |
| MaterialAcceptance.MaterialsMoveTogether | backend/agent_work/material_acceptance.py:103-165 | The CV moves by one and is the rendering of the payload; the dossier appears at one or moves by one bound to that CV revision, with letter, e-mail, answers, evidence, claims and provenance each in its place; everything else stays. |
| MaterialAcceptance.MaterialsNeedCurrentRevisions | backend/agent_work/material_acceptance.py:48-55 | Acceptance is possible exactly when the three frozen revisions are the current ones and the content is acceptable. |
| MaterialAcceptance.AcceptedMaterialRevisions | backend/agent_work/material_acceptance.py:154-184 | Of the inputs' revisions only the CV's and the dossier's move. |
| AnalysisAcceptance.AcceptAnalysis | backend/agent_work/analysis_acceptance.py:17-92 | The new assessment is that of the proposal whatever the old one was, and only that job changes. |
| WorkService.CompareAndSwap | backend/agent_work/proposal_service.py:75-93 | Changes one row, by one revision, exactly when the condition of the update holds. |
| WorkService.ExpireStaleWork | backend/agent_work/service.py:209-222 | Exactly the owner's live requests past their time become expired. |
| WorkService.CreateWorkRequest | backend/agent_work/service.py:83-207 | A request is created whole, queued at revision 1, or not at all. |
| WorkService.SubmitProposal | backend/agent_work/proposal_service.py:50-123 | The submission commits all it says or leaves the database as it was. |
| WorkService.AcceptWorkProposal | backend/agent_work/acceptance.py:31-168 | The acceptance commits all of handler, state and receipt, or nothing; a replay commits nothing. |
| WorkService.Transition | backend/agent_work/service.py:272-319 | Cancellation and rejection do what the specification says, the expiry on failure included. |
| WorkAnswers.CreatedExactly | backend/agent_work/service.py:83-207 | When a request is created, what is then stored, and when it ends: the least of what was asked for, seven days and the grant. |
| WorkAnswers.StrangersTargetsAreNotFound | backend/agent_work/service.py:83-207 | A target of another owner is reported as not found, whatever else is wrong. |
| WorkAnswers.SubmissionStoredExactly | backend/agent_work/proposal_service.py:50-123 | A result is stored exactly when its read phase and its transaction find everything in order; stored is the reviewed payload under its digest. |
| WorkAnswers.MovedExactly | backend/agent_work/service.py:272-319 | When a request is canceled or rejected, and every refusal told apart. |
| WorkAnswers.AcceptedExactly | backend/agent_work/acceptance.py:65-146 | A first acceptance goes through exactly under the listed checks, and its receipt says what happened. |
| WorkRuns.EveryRunKeeps | backend/agent_work/acceptance.py:50-79 | Every interleaving keeps rows, proposals, receipts and the handler history consistent. |
| WorkRuns.AcceptAnswersStored | backend/agent_work/acceptance.py:50-67 | Whoever is told of an acceptance is told the stored receipt. |
| WorkRuns.AcceptanceFacts | backend/agent_work/acceptance.py:68-138 | An acceptance that went through swapped a returned row in time, found the frozen and the reviewed revisions current and the stored proposal intact, and recorded the inputs as they are after its writes. |
| WorkRuns.AppliedMeansAccepted | backend/agent_work/acceptance.py:126-146 | A handler's writes are committed exactly in the transaction that makes its request accepted. |
| WorkTheorems.RevisionTellsState | backend/agent_work/service.py:209-319 | Queued is 1 without a proposal, returned 2 and decided 3 with one, withdrawn or expired one above where it was; a receipt exactly when accepted. |
| WorkTheorems.CreatedWithinBounds | backend/agent_work/service.py:112-204 | A new request is queued at 1 with current inputs, lives at most a week and never past its grant. |
| WorkTheorems.DecisionsAreFinal | backend/agent_work/acceptance.py:140-145 | Between any two moments of a run decided requests, frozen inputs and proposals are unchanged. |
| WorkTheorems.EveryMoveIsAnEdge | backend/agent_work/proposal_service.py:75-93 | One event moves a request along at most one edge, by one revision. |
| WorkTheorems.AcceptedExactlyOnce | backend/agent_work/acceptance.py:50-79 | Handler writes happen once for an accepted request and never otherwise, and all receipts told for it are the same. |
| WorkTheorems.OnlyAcceptanceWrites | backend/agent_work/acceptance.py:94-146 | No event but an edit or a first acceptance changes the vault. |
| WorkTheorems.RefusalsAndReplaysWriteNothing | backend/agent_work/acceptance.py:149-168 | Refused and replayed submissions and acceptances leave the database as it was. |
| WorkTheorems.FailedMovesMayExpire | backend/agent_work/service.py:287-290 | A failing cancel or reject changes the database exactly when its row is past its time and some request of the owner is stale. |
| WorkTheorems.FailedCancelLeavesATrace | backend/agent_work/service.py:287-290 | A concrete failing cancellation that changes the database. |
| WorkTheorems.AcceptThenReplay | backend/agent_work/acceptance.py:37-67 | For every repetition of an acceptance that went through, in any later state: the first refusal that applies (readiness, owner, grant, time, revision, targets, inputs), or else the stored receipt; never a write. |
| WorkExamples.LateReplaysFail | backend/agent_work/acceptance.py:49-67 | A concrete run in which an accepted request, its acceptance repeated after its time, answers with an error and not with its receipt. |
| WorkTheorems.SubmitThenReplay | backend/agent_work/proposal_service.py:50-69 | A submission sent again at any later time gets the receipt it got first, up to the state, unless the grant, a cancellation or the time refuses it; nothing is written. |
| WorkTheorems.OneResultPerRequest | backend/agent_work/proposal_service.py:62-71 | After a result is stored no submission to its request writes anything, and only the same key with a result of the stored digest is answered, with the first receipt. |
| WorkTheorems.StoredResultsAreReported | backend/agent_work/proposal_service.py:125-137 | Asking for a stored result at any later time gives the receipt of its submission, up to the state, unless a grant check, a cancellation or an expiry refuses. |
| WorkTheorems.TheClockThatWasReadDecides | backend/agent_work/service.py:287-310 | A request that changes becomes expired if and only if the changing call read the clock at or after its time. |
| WorkTheorems.LateSwapsHappen | backend/agent_work/service.py:278-310 | A concrete run in which a request is canceled after its time by the wall clock. |
| WorkTheorems.AcceptedMaterialsMoveTogether | backend/agent_work/acceptance.py:121-146 | Through a whole acceptance: the CV and the dossier hold the stored proposal, part by part, and move together, nothing else changes, and the receipt's inputs are the frozen ones with those two revisions moved. |
| AnalysisAttestation.AttestedIffVouchedFor | backend/ai/attestation.py:238-305 | Attested exactly when some accepted, still current proposal for the job says the same on every column that is read. |
| AnalysisAttestation.AttestedMeans | backend/ai/attestation.py:238-305 | An attested analysis shows, in full, an accepted proposal of this user for this very job, with current inputs and an intact digest. |
| AnalysisAttestation.AlterationsAreNoticed | backend/ai/attestation.py:294-303 | A changed score, verdict, provenance or payload naming the same request is not attested. |
| AnalysisAttestation.SwapsAreNotNoticed | backend/ai/attestation.py:256-275 | A payload replaced by that of another accepted analysis is attested exactly if score and verdict agree. |
| AnalysisAttestation.SwappedPayloadIsAttested | backend/ai/attestation.py:256-275 | A concrete run from an empty queue to two accepted analyses of one advert, after which the payload of the one passes for that of the other. |
| AnalysisAttestation.AcceptThenAttest | backend/agent_work/analysis_acceptance.py:32-92 | Right after the acceptance of an analysis its job is attested. |
| AnalysisAttestation.AttestationLasts | backend/ai/attestation.py:276-281 | In every later state it stays attested exactly while the frozen inputs are current. |
| AnalysisAttestation.AttestedThroughRuns | backend/ai/attestation.py:238-305 | Over whole runs: what an accepting event wrote is attested at the end exactly if the frozen inputs are current there. |
| AnalysisAttestation.WorthMeansEveryGate | backend/agent_work/analysis_acceptance.py:65-68 | An attested job worth applying has all six gates eligible and nothing unknown. |
| AnalysisAttestation.DisplayedScoreIsBounded | backend/agent_work/validation.py:101-105 | An attested score is at most 100 minus the weight of the unknown dimensions. |
| MatchPolicy.MandatoryMismatches | backend/ai/match_policy.py:192-288 | The set holds exactly the dimensions whose mandatory requirement is not met. |
| MatchPolicy.SkillsAreMetExactly | backend/ai/match_policy.py:197-220 | Skills are met exactly when each group of alternatives has one that is shown and not negated, and no excluded one is shown. |
| MatchPolicy.LanguagesAreMetExactly | backend/ai/match_policy.py:229-266 | Languages are met exactly when one of every group, or without groups each, is spoken at its level. |
| MatchPolicy.EnforceRow | backend/ai/match_policy.py:318-364 | The loop computes the policy of one row. |
| MatchPolicy.EnforcedInRange | backend/ai/match_policy.py:320-349 | Enforced scores lie between 0 and 100. |
| MatchPolicy.EnforcedWithin | backend/ai/match_policy.py:324-349 | Silent dimensions stand at 50, mismatches under their cap, unsupported demands at 55 at most, supported ones at 45 at least. |
| MatchPolicy.CapIsNearest | backend/ai/match_policy.py:322-342 | What the policy makes of a score is the nearest one that stands. |
| MatchPolicy.RowCapOnlyTrims | backend/ai/match_policy.py:356-363 | The cap on a row of 80 takes nothing from scores up to 79 and leaves the others as they are or at 79. |
| MatchPolicy.RowScoreIsNearest | backend/ai/match_policy.py:344-349 | The row score is the weighted mean to the nearest whole number, halves to even. |
| MatchPolicy.OnlySupportRaises | backend/ai/match_policy.py:339-348 | The policy raises a score only to 50 where nothing is asked or to 45 where a met requirement scored lower. |
| MatchPolicy.EnforcementIsIdempotent | backend/ai/match_policy.py:318-364 | Enforcing twice is enforcing once, the cap on the whole row included. |
| MatchPolicy.HighRowsAreSupported | backend/ai/match_policy.py:350-363 | A row at 80 has two different pairs of positive quotes with a term in common, in dimensions above 55. |
| MatchGrounding.EnforceMatchScorePolicy | backend/ai/match_policy.py:291-365 | Row by row, with rows that have no job left alone. |
| MatchPolicy.EnforcementKeepsExactly | backend/ai/match_policy.py:318-364 | The policy leaves a row alone exactly when every score is one its dimension allows and the row is not a high one without support. |
| MatchPolicy.SecondProfileAgreesExactly | backend/ai/match_policy.py:324-349 | A second profile leaves whatever a first one makes of any score alone exactly when the job asks nothing or its standing follows from the first's. |
| MatchGrounding.RefusedExactly | backend/ai/grounding.py:240-256 | For any documents and rows: the re-check refuses exactly the enforced rows with a job that the last profile does not let stand. |
| MatchGrounding.AgreeingProfilesPass | backend/ai/grounding.py:240-256 | Where first and last profile agree on every dimension, a row is refused only as a high one without support. |
| MatchGrounding.DisagreeingProfilesFail | backend/ai/grounding.py:240-256 | Where they disagree on some dimension, one of two given proposals is refused. |
| MatchGrounding.EnforcedRowsPass | backend/ai/grounding.py:240-256 | Enforced rows pass the re-check whenever the first profile is also the last. |
| MatchGrounding.DistinctDocumentsPass | backend/ai/orchestrator.py:163-189 | In particular when identities are distinct. |
| MatchGrounding.TwoProfilesFail | backend/ai/grounding.py:240-256 | A concrete list with two profiles on which the re-check refuses an enforced row. |
| MatchOutcome.MaterializeMatchCitations | backend/ai/match_policy.py:368-429 | The nested loops produce the citations in order. |
| MatchOutcome.BestIsBest | backend/ai/match_policy.py:389-408 | No other candidate quote outranks the chosen one. |
| MatchOutcome.EveryRequirementIsCited | backend/ai/match_policy.py:379-428 | Every explicit requirement of the job is cited with its assessment. |
| MatchOutcome.TheFirstQuoteIsCited | backend/ai/match_policy.py:379-386 | A dimension without explicit requirements is cited by the first thing the job says. |
| MatchOutcome.CitationsAreOfTheJob | backend/ai/match_policy.py:368-429 | Nothing else is cited, and each citation is against a quote of the candidate or the lack of any. |
| MatchOutcome.AssessedExactly | backend/ai/match_policy.py:432-465 | Each assessment by itself: by what is asked, what is offered, the risk caps, 45 and 60. |
| MatchOutcome.DerivedExactly | backend/ai/match_policy.py:497-527 | The visible score is the row score or the lowest cap at risk; recommendation and verdict go by 55, 65 and 80 unless all is inconclusive. |
| MatchOutcome.MandatoryMismatchIsVisible | backend/ai/match_policy.py:432-527 | A required language or qualification that is missing forces at most 30 or 40, a weak fit, not worth applying. |
| MatchOutcome.StrongFitsAreSupported | backend/ai/match_policy.py:356-363 | A strong fit has two distinct supporting pairs in dimensions above 55. |
| MatchOutcome.WorthMeansNoRisk | backend/ai/match_policy.py:497-527 | Worth applying means no risk citation and not only inconclusive ones. |
| PersistedMatch.DeriveMatchPresentation | backend/ai/match_policy.py:467-494 | The loop counts the assessments and collects the flags of a row. |
| PersistedMatch.FlaggedIffAtRisk | backend/ai/match_policy.py:487-493 | A dimension is flagged, once, exactly when one of its citations is a risk. |
| PersistedMatch.ValidIffShown | backend/ai/attestation.py:65-89 | The check accepts exactly the rows that are stored for some scores on the scale. |
| PersistedMatch.FingerprintFixesTheRow | backend/ai/attestation.py:65-89 | With the same fingerprint and citations only the stored row itself passes. |
| PersistedMatch.StoredRowsKeepTheBounds | backend/ai/attestation.py:65-89 | The row stored for any proposal passes, and whatever passes in its place keeps the policy's bounds on score, recommendation, verdict and flags. |
| EvidencePacking.RetrieveEvidence | backend/ai/retrieval.py:100-210 | Both modes keep within the budget, refuse only small budgets, and report truncation exactly when something changed. |
| EvidencePacking.RetrieveAll | backend/ai/retrieval.py:117-170 | The trimming loop ends and computes the packed documents; its error branch is dead. |
| EvidencePacking.EveryDocumentSurvives | backend/ai/retrieval.py:117-170 | Every document stays, in order, with a beginning of its text, within the budget. |
| EvidencePacking.EveryTextKeepsItsShare | backend/ai/retrieval.py:125-162 | Every text starts from all of its equal share but trailing spaces, and is cut only while it is the longest and the whole does not fit. |
| EvidencePacking.UntruncatedIff | backend/ai/retrieval.py:163-170 | Nothing is truncated exactly when every text fits its share, has no trailing space and all of it fits. |
| EvidencePacking.PlainTextNeedsNoTrimming | backend/ai/retrieval.py:125-141 | Without characters to escape the equal shares already fit, and every text keeps all of its share but trailing spaces. |
| EvidencePacking.RetrievePrefix | backend/ai/retrieval.py:171-210 | The loop computes the packed beginning of the ranking; its final error is dead. |
| EvidencePacking.PackedPrefixFits | backend/ai/retrieval.py:171-210 | The longest beginning that fits, or the first document alone with a non-empty cut, or nothing; always within the budget. |
| EvidencePacking.TheFirstKeepsWhatFits | backend/ai/retrieval.py:182-203 | The one clipped document starts with all there is room for, no cut is made while its line fits, and plain text needs none. |
| EvidenceLines.LinesAreReadBack | backend/ai/retrieval.py:86-97 | A reader of JSON strings gets back from a line exactly the packed text, identity, kind and metadata. |
| EvidenceLines.ContextIsReadBack | backend/ai/retrieval.py:86-210 | The context is one line a document behind its heading, and each line gives its document: no text can end its line or add another. |
| EmailRedaction.RedactEmails | backend/agent_work/context.py:81-103 | The loop terminates and computes the spliced text. |
| EmailAddresses.ValidDomainExactly | backend/agent_work/context.py:64-78 | A domain is one label or more, each followed by a dot, and a top of at least two letters. |
| EmailAddresses.AddressIsRedacted | backend/agent_work/context.py:81-103 | Inside any text, between neighbours that are no part of it or before closing dots, an address becomes the marker, and the rest is redacted as if it stood alone. |
| EmailAddresses.LoneAddressIsRedacted | backend/agent_work/context.py:81-103 | An address that is the whole text becomes exactly the marker. |
| EmailAddresses.AnAddressAndNone | backend/agent_work/context.py:64-103 | `me@example.com` is redacted and `me@localhost` is not. |
| EmailRedaction.ScanIsPlaced | backend/agent_work/context.py:81-103 | Replaced spans are apart and in order, so all other characters are copied in order. |
| EmailRedaction.OnlyAddressesAreReplaced | backend/agent_work/context.py:64-103 | Every replaced span is one whole address. |
| EmailRedaction.RedactedIsClean | backend/agent_work/context.py:64-103 | No address the scan would recognise is left, adjacent and overlapping candidates included. |
| EmailRedaction.UnchangedIffClean | backend/agent_work/context.py:64-103 | Exactly the texts without such an address are unchanged. |
| EmailRedaction.RedactionIsIdempotent | backend/agent_work/context.py:81-103 | Redacting the output changes nothing. |
| ArchiveMembers.MemberNames | scripts/agent_distribution.py:130-183 | Accepts exactly the archives whose folded paths are distinct and form a tree, with the size, ratio, link and name checks; names come in archive order. |
| ArchiveMembers.PortableExactly | scripts/agent_distribution.py:100-127 | A name is portable exactly when it spells a path of safe parts, and those parts, folded, are what is compared. |
| ArchiveMembers.AcceptedWithinLimits | scripts/agent_distribution.py:130-182 | The limits in numbers: members, sizes and ratios, alone and together. |
| ArchiveMembers.OrderDoesNotMatter | scripts/agent_distribution.py:142-169 | The same members in any order are accepted or refused alike. |
| ArchiveMembers.AcceptedIsTree | scripts/agent_distribution.py:145-169 | No two members share a path and whatever lies above a member is a directory. |
| ChecksumInventory.ParseChecksumText | scripts/release_assets.py:142-155 | The loop computes the parse or the first kind of refusal. |
| ChecksumInventory.RejectCollisions | scripts/release_assets.py:90-97 | Refuses exactly the lists with two names equal up to case. |
| ChecksumInventory.FoldingIgnoresCase | scripts/release_assets.py:90-97 | Two names collide exactly when they differ in the case of their letters only. |
| ChecksumInventory.LinesExactly | scripts/release_assets.py:142-155 | A line matches exactly as 64 lower-case hexadecimal digits, two spaces and a portable name. |
| ChecksumInventory.ParsePrinted | scripts/release_assets.py:137-155 | Parsing the printed inventory gives the same records in folded-name order. |
| ChecksumInventory.OtherBreaksAreAccepted | scripts/release_assets.py:142-155 | A concrete accepted text that is not printed for its records. |
| ChecksumInventory.PrintParsed | scripts/release_assets.py:137-155 | An accepted text reprints to its canonical form, which is the text itself exactly when its breaks are plain newlines. |
| Agenda.Build | backend/applications/agenda.py:114-264 | Refuses exactly bad bounds and invalid projections; otherwise counts and items are those of the ranked active applications. |
| Agenda.StatesSplitTime | backend/applications/agenda.py:75-112 | Each state is exactly one case of missing, broken, past, today, near or far due times. |
| Agenda.BrokenActionsExactly | backend/applications/agenda.py:75-112 | The agenda is refused exactly for an open application of the user whose next action is there in part or malformed. |
| Agenda.OrderExactly | backend/applications/agenda.py:159-183 | The order key by key: state, due time, urgency, rest, identity. |
| Agenda.TodayBeyondTheHorizon | backend/applications/agenda.py:75-112 | An action due after the horizon is today's exactly between the horizon and the end of the local day, which needs a horizon of one day. |
| Agenda.TomorrowIsToday | backend/applications/agenda.py:75-112 | A concrete such action. |
| Agenda.ActionsArePresent | backend/applications/agenda.py:52-72 | A visible item has no next action exactly when it needs one. |
| Agenda.EveryApplicationIsCountedOnce | backend/applications/agenda.py:188-261 | Every active application is listed, truncated or later, once. |
| Agenda.TheFirstAreListed | backend/applications/agenda.py:173-217 | The listed ones are in order and nothing cut off comes before them. |
| Agenda.RowOrderDoesNotMatter | backend/applications/agenda.py:173-187 | The ranking does not depend on the order of the rows. |

## Left out

- VaultMigration: permissions, links, locks and the safety of the marker file; SHA-256 is injective, SQLite copies faithfully, and power loss that reorders file operations is not considered. Temporary files of a restore or a marker are fault points but not entries of the directory.
- VaultMigration: a served write is appended by a commit function of the launch; SQLite's own journal recovery is part of `open`.
- SecretPublication: a state machine over values rather than a class, because its point is the interleaving; a listing of the directory is one step, temporary names are not drawn again once removed, inode numbers are not reused, and file modes and the checks on the secret's characters are absent.
- ReleasePublisher: a state machine over values, with the polling loops as counted stages; an asset is its name and content (size and digest as one), names are compared exactly and not by case, and HTTP, pagination, publishers of the same version at once and deletion of drafts by others are absent.
- WorkService: the read phase of a call is handed in as what it saw; grants, scopes, authentication and the readiness of the vault are answers handed in as a `Guard`.
- WorkService: `list_work_requests` and `get_work_request` are modelled by the expiry they commit; their pages and views are absent.
- WorkValidation: tokenization, quotation classes, negation patterns and grounding of single statements are functions in `Services`; only the rules around them are modelled.
- WorkContext: facts, preferences and adverts are kept whole; their sanitizing, the payload schemas and the byte limit are predicates in `Services`, so among several faults of a snapshot the order of codes is modelled only for those named.
- AnalysisAcceptance: the written summary is its recommendation and score instead of a sentence.
- Discovery acceptance (`discovery_acceptance.py`) is a function in `Services`: its catalog upserts would add members about the catalog, not about the lifecycle.
- MaterialAcceptance: the canvas of a CV is one text produced by a rendering function that may refuse.
- MatchPolicy: weights and sums are exact hundredths, not binary floats; token sets are functions of the text; values of the wrong type count as absent; rows that are not objects are absent.
- MatchOutcome: the stand-in for a missing candidate quote has a fixed identity.
- PersistedMatch: the summary sentence is its parts, the fingerprint an injective function of the scores, and the execution receipts of `validate_match_attestation` are absent.
- EvidencePacking: the ranking is an input (BM25 weights are floating-point logarithms); metadata is already serialized.
- EvidenceLines: the reader takes the members of a line in the order in which they are written, and escapes below U+D800.
- Phone redaction and the other fields of `context.py`, and `validate_semantics` are absent.
- ArchiveMembers: the Unicode database is a set of functions; which of several faults is reported is not modelled.
- ChecksumInventory: hashing files and target manifests are absent.
- Agenda: SQL is modelled as what the query selects and orders; time zones and field lengths are absent.
