/**
 The rows that agent work reads and writes (backend/agent_work/models.py, schemas.py), and the
 parts of the career vault that its acceptance handlers touch. Instants are numbers, row
 identities are numbers, and text, hashing and quotation matching are left to `Services`.
 */
module WorkTypes {
  import opened Wrappers

  type Id = nat
  type Instant = int

  datatype ErrorCode =
    | GrantRequired | GrantExpired | GrantRevoked | ScopeDenied | WorkNotFound | WorkExpired
    | WorkCanceled | StaleInput | InvalidResult | EvidenceInvalid | ResultConflict
    | RevisionConflict | VaultUnavailable

  datatype Outcome<+T> = Ok(value: T) | Err(code: ErrorCode)

  // ---- What a worker may propose ----

  datatype Kind = Discover | Analyze | Materials

  datatype Dimension = Role | Requirements | Language | Location | Contract | Freshness | General

  datatype GateStatus = Eligible | Hold | Reject

  datatype Gate = Gate(
    dimension: Dimension,
    status: GateStatus,
    facts: seq<Id>,
    quotes: seq<string>,
    unknowns: seq<string>)

  type Score = n: int | 0 <= n <= 100 witness 0

  datatype Scores = Scores(
    role: Score, requirements: Score, language: Score,
    location: Score, contract: Score, freshness: Score,
    overall: Score)

  datatype Recommendation = StrongFit | Consider | WeakFit | InsufficientEvidence

  datatype Claim = Claim(text: string, facts: seq<Id>, quote: Option<string>)

  datatype Vacancy = Vacancy(
    title: string, company: string, location: Option<string>, text: string,
    gates: seq<Gate>, scores: Scores)

  datatype Item = Item(id: string, text: string, facts: seq<Id>)

  datatype Evidence = Evidence(requirement: string, quote: string, facts: seq<Id>)

  datatype Preset = Preset(id: string, version: nat, locale: string)

  datatype Payload =
    | Discovery(listings: seq<Vacancy>)
    | Analysis(gates: seq<Gate>, scores: Scores, claims: seq<Claim>, recommendation: Recommendation)
    | MaterialSet(
        preset: Preset, selected: seq<Id>, overrides: seq<Item>, letter: seq<Item>,
        email: seq<Item>, answers: seq<Item>, evidence: seq<Evidence>)

  function KindOf(p: Payload): Kind {
    match p
    case Discovery(_) => Discover
    case Analysis(_, _, _, _) => Analyze
    case MaterialSet(_, _, _, _, _, _, _) => Materials
  }

  // ---- The career vault ----

  datatype Fact = Fact(id: Id, kind: string, text: string)

  datatype Preferences = Preferences(location: bool, contract: bool, text: string)

  datatype Profile = Profile(revision: nat, facts: seq<Fact>, preferences: Preferences)

  datatype Listing = Listing(
    title: string, company: string, location: string, description: string, revision: nat)

  /** The columns of a job that hold a match analysis; a column without an entry is NULL. */
  datatype Column =
    | AffinityScore | AffinityAnalysis | WorthApplying | SkillMatchScore | ExperienceMatchScore
    | IntentMatchScore | LanguageMatchScore | LocationMatchScore | TransferabilityScore
    | QualificationGapScore | AnalysisStructured | AnalysisProvenance | AnalysisModelId
    | AnalysisContractVersion | AnalysisValidatedAt | AnalysisExecutionId
    | AnalysisOutputFingerprint | AnalysisRowFingerprint | AnalysisExecutionRowIndex
    | AnalysisInputFingerprint | AnalysisLegacySnapshot | RedFlags

  datatype Value =
    | Number(n: int) | Flag(b: bool) | Text(s: string) | Moment(t: Instant) | Details(d: Structured)
    | Summary(recommendation: Recommendation, overall: int)

  type Assessment = map<Column, Value>

  datatype Structured = Structured(
    recommendation: Recommendation, gates: seq<Gate>, claims: seq<Claim>, scores: Scores,
    source: string, request: Id, proposal: Id, grant: Id,
    inputDigest: string, payloadDigest: string)

  datatype Job = Job(owner: Id, listing: Option<Listing>, assessment: Assessment)

  datatype Application = Application(
    owner: Id, job: Option<Id>, snapshot: Listing, revision: nat, resumeVersion: Option<Id>)

  datatype Resume = Resume(owner: Id, revision: nat, content: string)

  datatype Provenance = Provenance(request: Id, grant: Id, inputDigest: string, payloadDigest: string)

  datatype DossierContent = DossierContent(
    letter: seq<Item>, email: seq<Item>, answers: seq<Item>, matrix: seq<Evidence>,
    claims: seq<Item>, provenance: Option<Provenance>)

  /** A dossier draft is bound to one published version or to one draft at one revision. */
  datatype Binding = ToVersion(version: Id) | ToDraft(draft: Id, draftRevision: nat)

  datatype Dossier = Dossier(
    binding: Binding, applicationRevision: nat, revision: nat, content: DossierContent)

  /** Profiles by owner; versions give the owner of each published resume; dossier drafts are
      one to one with applications. */
  datatype Vault = Vault(
    profiles: map<Id, Profile>,
    jobs: map<Id, Job>,
    applications: map<Id, Application>,
    resumes: map<Id, Resume>,
    versions: map<Id, Id>,
    dossiers: map<Id, Dossier>)

  // ---- Requests and proposals ----

  datatype Revisions = Revisions(
    profile: Option<nat>, job: Option<nat>, application: Option<nat>,
    resume: Option<nat>, dossier: Option<nat>)

  datatype Inputs = Inputs(digest: string, revisions: Revisions)

  /** What a request is about; fixed when it is created. */
  datatype Target = Target(
    user: Id, request: Id, grant: Id, kind: Kind, instruction: string,
    job: Option<Id>, application: Option<Id>, resume: Option<Id>,
    selected: Option<set<Id>>, preset: Option<Preset>)

  /** The advert a proposal must quote. */
  datatype Source = Source(title: string, description: string, location: string)

  datatype Context = Context(
    target: Target, facts: seq<Fact>, preferences: Option<Preferences>,
    advert: Option<Listing>, revisions: Revisions)

  datatype WorkState = Queued | Returned | Accepted | Rejected | Canceled | Expired

  datatype Receipt = Receipt(
    request: Id, proposal: Id, kind: Kind, acceptedAt: Instant, job: Option<Id>,
    createdJobs: seq<Id>, createdApplications: seq<Id>,
    inputs: Inputs, material: Option<MaterialReceipt>)

  datatype MaterialReceipt = MaterialReceipt(
    resume: Id, resumeRevision: nat, application: Id, dossierRevision: nat)

  datatype Request = Request(
    target: Target, context: Context, inputs: Inputs, expiresAt: Instant,
    state: WorkState, revision: nat, receipt: Option<Receipt>)

  /** `author` is the label of the model, or else of the client. */
  datatype Proposal = Proposal(
    id: Id, grant: Id, key: string, author: string, digest: string, payload: Payload, createdAt: Instant)

  /** Proposals are keyed by their request: the table has a unique index on it. */
  datatype Db = Db(requests: map<Id, Request>, proposals: map<Id, Proposal>, vault: Vault)

  datatype Discovered = Discovered(vault: Vault, jobs: seq<Id>, applications: seq<Id>)

  /** Code this model does not look into: hashing, schema limits, quotation and grounding
      rules, the canvas of a CV, and the discovery handler. Each is a function of what the
      source hands it. */
  datatype Services = Services(
    contextDigest: Context -> string,
    payloadDigest: Payload -> string,
    legible: (seq<Fact>, Option<Preferences>, Option<Preset>) -> bool,
    representable: Context -> bool,
    withinSize: Payload -> bool,
    supports: (Dimension, string, Source, Context, seq<Id>) -> bool,
    grounded: (Context, string, seq<Id>) -> bool,
    preferred: (Dimension, string, Context) -> bool,
    quoted: (string, string) -> bool,
    render: (Resume, Profile, Payload) -> Option<string>,
    storable: DossierContent -> bool,
    discover: (Vault, Request, Proposal, Instant) -> Outcome<Discovered>)
}
