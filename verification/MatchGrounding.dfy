/**
 The policy over whole payloads and its re-check: the orchestrator enforces the policy on what
 the model proposes (backend/ai/orchestrator.py:163-189), and grounding enforces it once more and
 demands that nothing changes (backend/ai/grounding.py:240-256).
 */
module MatchGrounding {
  import opened Wrappers
  import opened MatchPolicy

  /** The first profile among the documents. */
  function ProfileOf(docs: seq<Document>): Option<Document> {
    if docs == [] then None else if docs[0].id == Profile then Some(docs[0]) else ProfileOf(docs[1..])
  }

  /** The last document with an identity. */
  function LastOf(docs: seq<Document>, id: DocId): Option<Document> {
    if docs == [] then None
    else if docs[|docs| - 1].id == id then Some(docs[|docs| - 1])
    else LastOf(docs[..|docs| - 1], id)
  }

  /** The job a row is about: the last one, as in a dictionary by identity. */
  function JobFor(docs: seq<Document>, k: nat): Option<Document> {
    if docs == [] then None
    else if docs[|docs| - 1].isJob && docs[|docs| - 1].id == JobRow(k) then Some(docs[|docs| - 1])
    else JobFor(docs[..|docs| - 1], k)
  }

  function EnforcedAt(x: Lexicon, docs: seq<Document>, rows: seq<Row>, k: nat): Row
    requires k < |rows|
  {
    var candidate, job := ProfileOf(docs), JobFor(docs, k);
    if candidate.None? || job.None? then rows[k] else EnforcedRow(x, candidate.value, job.value, rows[k])
  }

  function Enforced(x: Lexicon, docs: seq<Document>, rows: seq<Row>): (r: seq<Row>)
    ensures |r| == |rows|
  {
    seq(|rows|, k requires 0 <= k < |rows| => EnforcedAt(x, docs, rows, k))
  }

  /** `enforce_match_score_policy` */
  method EnforceMatchScorePolicy(x: Lexicon, docs: seq<Document>, rows: seq<Row>) returns (enforced: seq<Row>)
    ensures enforced == Enforced(x, docs, rows)
  {
    hide EnforcedRow;
    var candidate := ProfileOf(docs);
    if candidate.None? {
      assert rows == Enforced(x, docs, rows);
      return rows;
    }
    enforced := [];
    for k := 0 to |rows|
      invariant enforced == Enforced(x, docs, rows)[..k]
    {
      var job := JobFor(docs, k);
      var row := rows[k];
      if job.Some? {
        row := EnforceRow(x, candidate.value, job.value, rows[k]);
      }
      enforced := enforced + [row];
    }
  }

  /** A dictionary of the documents by identity: a later one takes the place of an earlier one. */
  function Replaced(docs: seq<Document>, d: Document): seq<Document> {
    if docs == [] then [d]
    else if docs[0].id == d.id then [d] + docs[1..]
    else [docs[0]] + Replaced(docs[1..], d)
  }

  function ById(docs: seq<Document>): seq<Document> {
    if docs == [] then [] else Replaced(ById(docs[..|docs| - 1]), docs[|docs| - 1])
  }

  predicate AllComplete(rows: seq<Row>) {
    forall k :: 0 <= k < |rows| ==> Complete(rows[k])
  }

  function Recheck(x: Lexicon, docs: seq<Document>, rows: seq<Row>): set<nat> {
    if !AllComplete(rows) then {}
    else set k: nat | k < |rows| && exists d :: d in DIMENSIONS && Differs(rows[k], Enforced(x, ById(docs), rows)[k], d)
  }

  predicate Differs(a: Row, b: Row, d: Dimension) {
    (d in a) != (d in b) || (d in a && d in b && a[d] != b[d])
  }

  // ---- Looking documents up ----

  predicate DistinctIds(docs: seq<Document>) {
    forall j, k :: 0 <= j < k < |docs| ==> docs[j].id != docs[k].id
  }

  lemma {:induction false} ReplacedLookups(docs: seq<Document>, d: Document)
    requires DistinctIds(docs)
    ensures DistinctIds(Replaced(docs, d))
    ensures forall e :: e in Replaced(docs, d) <==> e == d || (e in docs && e.id != d.id)
  {
    if docs != [] && docs[0].id != d.id {
      ReplacedLookups(docs[1..], d);
    }
  }

  lemma {:induction false} ByIdLookups(docs: seq<Document>, e: Document)
    ensures DistinctIds(ById(docs))
    ensures e in ById(docs) <==> LastOf(docs, e.id) == Some(e)
  {
    if docs != [] {
      ByIdLookups(docs[..|docs| - 1], e);
      ReplacedLookups(ById(docs[..|docs| - 1]), docs[|docs| - 1]);
    }
  }

  lemma {:induction false} ProfileIsMember(docs: seq<Document>)
    requires ProfileOf(docs).Some?
    ensures ProfileOf(docs).value in docs && ProfileOf(docs).value.id == Profile
  {
    if docs[0].id != Profile {
      ProfileIsMember(docs[1..]);
    }
  }

  lemma {:induction false} MemberIsProfile(docs: seq<Document>, d: Document)
    requires d in docs && d.id == Profile
    ensures ProfileOf(docs).Some?
  {
    if docs[0].id != Profile {
      MemberIsProfile(docs[1..], d);
    }
  }

  lemma {:induction false} LastIsMember(docs: seq<Document>, id: DocId)
    ensures LastOf(docs, id).Some? ==> LastOf(docs, id).value in docs && LastOf(docs, id).value.id == id
    ensures LastOf(docs, id).None? ==> forall d :: d in docs ==> d.id != id
  {
    if docs != [] {
      LastIsMember(docs[..|docs| - 1], id);
      assert docs == docs[..|docs| - 1] + [docs[|docs| - 1]];
    }
  }

  /** In the dictionary the profile is the last one. */
  lemma ProfileById(docs: seq<Document>)
    ensures ProfileOf(ById(docs)) == LastOf(docs, Profile)
  {
    var last := LastOf(docs, Profile);
    LastIsMember(docs, Profile);
    if last.Some? {
      ByIdLookups(docs, last.value);
      MemberIsProfile(ById(docs), last.value);
    }
    if ProfileOf(ById(docs)).Some? {
      ProfileIsMember(ById(docs));
      ByIdLookups(docs, ProfileOf(ById(docs)).value);
    }
  }

  lemma {:induction false} JobIsMember(docs: seq<Document>, k: nat)
    requires JobFor(docs, k).Some?
    ensures JobFor(docs, k).value in docs && JobFor(docs, k).value.isJob && JobFor(docs, k).value.id == JobRow(k)
  {
    if !(docs[|docs| - 1].isJob && docs[|docs| - 1].id == JobRow(k)) {
      JobIsMember(docs[..|docs| - 1], k);
    }
  }

  lemma {:induction false} LastJob(docs: seq<Document>, k: nat)
    requires LastOf(docs, JobRow(k)).Some? && LastOf(docs, JobRow(k)).value.isJob
    ensures JobFor(docs, k) == LastOf(docs, JobRow(k))
  {
    if docs[|docs| - 1].id != JobRow(k) {
      LastJob(docs[..|docs| - 1], k);
    }
  }

  /** The dictionary has a job for a row exactly when the last document with its identity is one. */
  lemma JobByIdExactly(docs: seq<Document>, k: nat)
    ensures JobFor(ById(docs), k).Some? <==> IsJobFor(LastOf(docs, JobRow(k)))
    ensures IsJobFor(LastOf(docs, JobRow(k))) ==>
      JobFor(ById(docs), k) == LastOf(docs, JobRow(k)) && JobFor(docs, k) == LastOf(docs, JobRow(k))
  {
    LastIsMember(docs, JobRow(k));
    if JobFor(ById(docs), k).Some? {
      JobIsMember(ById(docs), k);
      ByIdLookups(docs, JobFor(ById(docs), k).value);
    }
    if IsJobFor(LastOf(docs, JobRow(k))) {
      var last := LastOf(docs, JobRow(k)).value;
      LastJob(docs, k);
      ByIdLookups(docs, last);
      MemberIsJob(ById(docs), last, k);
      JobIsMember(ById(docs), k);
      ByIdLookups(docs, JobFor(ById(docs), k).value);
    }
  }

  predicate IsJobFor(d: Option<Document>) {
    d.Some? && d.value.isJob
  }

  lemma {:induction false} MemberIsJob(docs: seq<Document>, d: Document, k: nat)
    requires d in docs && d.isJob && d.id == JobRow(k)
    ensures JobFor(docs, k).Some?
  {
    if d != docs[|docs| - 1] {
      assert docs == docs[..|docs| - 1] + [docs[|docs| - 1]];
      MemberIsJob(docs[..|docs| - 1], d, k);
    }
  }

  // ---- The re-check ----

  /** Of the rows the orchestrator enforced, exactly those are refused that have a job and that
      the last profile does not let stand. Nothing is asked of the documents or of what was
      proposed: identities may repeat and rows may lack scores. */
  lemma RefusedExactly(x: Lexicon, docs: seq<Document>, rows: seq<Row>, k: nat)
    ensures var once := Enforced(x, docs, rows);
            var profile, job := LastOf(docs, Profile), LastOf(docs, JobRow(k));
            k in Recheck(x, docs, once) <==>
              && AllComplete(once) && k < |rows| && profile.Some? && IsJobFor(job)
              && !RowStands(x, profile.value, job.value, once[k])
  {
    hide EnforcedRow, RowStands, ById;
    var once := Enforced(x, docs, rows);
    if AllComplete(once) && k < |rows| {
      ProfileById(docs);
      JobByIdExactly(docs, k);
      var profile, job := LastOf(docs, Profile), LastOf(docs, JobRow(k));
      DiffersSomewhere(once[k], Enforced(x, ById(docs), once)[k]);
      if profile.Some? && IsJobFor(job) {
        LastIsMember(docs, Profile);
        MemberIsProfile(docs, profile.value);
        var first := ProfileOf(docs).value;
        EnforcedInRange(x, first, job.value, rows[k]);
        EnforcementKeepsExactly(x, profile.value, job.value, once[k]);
      }
    }
  }

  lemma DiffersSomewhere(a: Row, b: Row)
    ensures a != b <==> exists d :: d in DIMENSIONS && Differs(a, b, d)
  {
    if forall d :: d in DIMENSIONS ==> !Differs(a, b, d) {
      forall d: Dimension ensures (d in a <==> d in b) && (d in a ==> a[d] == b[d]) {
        AllDimensions(d);
        assert !Differs(a, b, d);
      }
    }
  }

  /** When the first profile among the documents is also the last, the rows the orchestrator
      enforced pass the re-check of grounding, whatever was proposed and however often an
      identity repeats among the other documents. */
  lemma EnforcedRowsPass(x: Lexicon, docs: seq<Document>, rows: seq<Row>)
    requires ProfileOf(docs) == LastOf(docs, Profile)
    ensures Recheck(x, docs, Enforced(x, docs, rows)) == {}
  {
    hide EnforcedRow, Recheck, RowStands;
    var once := Enforced(x, docs, rows);
    forall k: nat ensures k !in Recheck(x, docs, once) {
      RefusedExactly(x, docs, rows, k);
      var profile, job := LastOf(docs, Profile), LastOf(docs, JobRow(k));
      if k < |rows| && profile.Some? && IsJobFor(job) {
        JobByIdExactly(docs, k);
        EnforcementIsIdempotent(x, profile.value, job.value, rows[k]);
        EnforcedInRange(x, profile.value, job.value, rows[k]);
        EnforcementKeepsExactly(x, profile.value, job.value, once[k]);
      }
    }
  }

  lemma {:induction false} DistinctProfile(docs: seq<Document>)
    requires DistinctIds(docs)
    ensures ProfileOf(docs) == LastOf(docs, Profile)
  {
    LastIsMember(docs, Profile);
    if ProfileOf(docs).Some? {
      ProfileIsMember(docs);
    }
    if LastOf(docs, Profile).Some? {
      MemberIsProfile(docs, LastOf(docs, Profile).value);
    }
  }

  /** In particular when identities are distinct. */
  lemma DistinctDocumentsPass(x: Lexicon, docs: seq<Document>, rows: seq<Row>)
    requires DistinctIds(docs)
    ensures Recheck(x, docs, Enforced(x, docs, rows)) == {}
  {
    DistinctProfile(docs);
    EnforcedRowsPass(x, docs, rows);
  }

  // ---- Two profiles ----

  /** The last profile leaves alone what the first makes of a dimension. */
  predicate Agree(x: Lexicon, first: Document, last: Document, job: Document, d: Dimension) {
    Silent(d, job) || Follows(StandingOf(x, d, last, job), StandingOf(x, d, first, job))
  }

  lemma LoweredStands(x: Lexicon, d: Dimension, candidate: Document, job: Document, score: int)
    requires Stands(x, d, candidate, job, score)
    ensures Stands(x, d, candidate, job, Min(score, 79))
  {
    hide Silent, StandingOf;
  }

  /** Where two profiles agree on every dimension, a row is refused only for standing high
      without enough pairs that support the last one. */
  lemma AgreeingProfilesPass(x: Lexicon, docs: seq<Document>, rows: seq<Row>, k: nat)
    requires k < |rows| && LastOf(docs, Profile).Some? && IsJobFor(LastOf(docs, JobRow(k)))
    requires AllComplete(Enforced(x, docs, rows)) && ProfileOf(docs).Some?
    requires forall d :: d in DIMENSIONS ==>
      Agree(x, ProfileOf(docs).value, LastOf(docs, Profile).value, LastOf(docs, JobRow(k)).value, d)
    ensures var once := Enforced(x, docs, rows);
            k in Recheck(x, docs, once) <==>
              Unsupported(x, LastOf(docs, Profile).value, LastOf(docs, JobRow(k)).value, once[k])
  {
    hide Recheck, Stands, Capped, Unsupported, Silent, StandingOf;
    var once := Enforced(x, docs, rows);
    var first, last, job := ProfileOf(docs).value, LastOf(docs, Profile).value, LastOf(docs, JobRow(k)).value;
    RefusedExactly(x, docs, rows, k);
    JobByIdExactly(docs, k);
    forall d | d in DIMENSIONS ensures Stands(x, d, last, job, once[k][d]) {
      assert Agree(x, first, last, job, d);
      SecondProfileAgreesExactly(x, d, first, last, job);
      LoweredStands(x, d, last, job, Capped(x, d, first, job, Proposed(rows[k], d)));
    }
  }

  function Extreme(score: int): Row {
    map d | d in DIMENSIONS :: score
  }

  /** Where they do not agree on some dimension, one of the two extreme proposals is refused. */
  lemma DisagreeingProfilesFail(x: Lexicon, docs: seq<Document>, k: nat, d: Dimension)
    requires LastOf(docs, Profile).Some? && IsJobFor(LastOf(docs, JobRow(k))) && ProfileOf(docs).Some?
    requires !Agree(x, ProfileOf(docs).value, LastOf(docs, Profile).value, LastOf(docs, JobRow(k)).value, d)
    ensures exists score | score in {0, 100} ::
              k in Recheck(x, docs, Enforced(x, docs, seq(k + 1, i => Extreme(score))))
  {
    hide Recheck, Capped, Stands, Unsupported, EnforcedRow, Silent, StandingOf;
    var first, last, job := ProfileOf(docs).value, LastOf(docs, Profile).value, LastOf(docs, JobRow(k)).value;
    AllDimensions(d);
    JobByIdExactly(docs, k);
    var score := DisagreementShows(x, first, last, job, d);
    var rows := seq(k + 1, i => Extreme(score));
    RefusedExactly(x, docs, rows, k);
    assert Enforced(x, docs, rows)[k] == EnforcedRow(x, first, job, Extreme(score));
    assert !RowStands(x, last, job, EnforcedRow(x, first, job, Extreme(score)));
    forall i | 0 <= i <= k ensures Complete(Enforced(x, docs, rows)[i]) {
      assert rows[i] == Extreme(score);
    }
    assert AllComplete(Enforced(x, docs, rows));
  }

  lemma DisagreementShows(x: Lexicon, first: Document, last: Document, job: Document, d: Dimension) returns (score: int)
    requires !Agree(x, first, last, job, d)
    ensures score in {0, 100} && d in EnforcedRow(x, first, job, Extreme(score))
    ensures !Stands(x, d, last, job, EnforcedRow(x, first, job, Extreme(score))[d])
  {
    hide Silent, Mismatched, AsksPositively, HasSupport, Unsupported;
    AllDimensions(d);
    score := if StandingOf(x, d, last, job).Backed? then 0 else 100;
  }

  // A concrete pair: a senior profile, then a junior one, and a job that asks for five years.


  function Blank(): Summary {
    Summary({}, {}, {}, {}, {}, {}, None, None, None, None, [], None, None, None)
  }

  function Senior(): Document {
    Document(Profile, false, [], Blank().(observedYears := Some(10)))
  }

  function Junior(): Document {
    Document(Profile, false, [], Blank())
  }

  function Demanding(): Document {
    Document(JobRow(0), true, [Quote("q", Experience, true, Required, "years", "")], Blank().(requiredYears := Some(5)))
  }

  function Eager(): Row {
    map[Skill := 50, Experience := 90, Intent := 50, Language := 50, Location := 50, Transferability := 50,
        Qualification := 50]
  }

  lemma ExperienceUnder(x: Lexicon, candidate: Document, row: Row)
    requires candidate == Senior() || candidate == Junior()
    requires Experience in row && 40 < row[Experience] <= 100
    ensures Capped(x, Experience, candidate, Demanding(), Proposed(row, Experience))
         == (if candidate == Senior() then Min(row[Experience], 55) else 40)
  {
    var q := Demanding().quotes[0];
    QuotesOfMember(Demanding().quotes, Experience, q);
    forall c ensures c !in QuotesOf(candidate.quotes, Experience) {
      QuotesOfMember(candidate.quotes, Experience, c);
    }
    assert q in Demanding().quotes && Informative(q) && Positive(q);
    assert !HasSupport(x, Experience, candidate, Demanding());
  }

  lemma ExperienceEnforced(x: Lexicon, candidate: Document, row: Row)
    requires candidate == Senior() || candidate == Junior()
    requires Experience in row && 40 < row[Experience] <= 100
    ensures EnforcedRow(x, candidate, Demanding(), row)[Experience]
         == (if candidate == Senior() then Min(row[Experience], 55) else 40)
  {
    hide Capped, Unsupported;
    AllDimensions(Experience);
    ExperienceUnder(x, candidate, row);
  }

  /** A list with two profiles makes the re-check refuse what the orchestrator enforced. */
  lemma TwoProfilesFail(x: Lexicon)
    ensures Recheck(x, [Senior(), Junior(), Demanding()],
                    Enforced(x, [Senior(), Junior(), Demanding()], [Eager()])) == {0}
  {
    hide EnforcedRow;
    var docs := [Senior(), Junior(), Demanding()];
    var once := Enforced(x, docs, [Eager()]);
    assert JobFor(docs, 0) == Some(Demanding()) && ProfileOf(docs) == Some(Senior());
    ExperienceEnforced(x, Senior(), Eager());
    assert once[0][Experience] == 55;
    TwoProfilesById();
    assert Enforced(x, [Junior(), Demanding()], once)[0] == EnforcedRow(x, Junior(), Demanding(), once[0]) by {
      assert JobFor([Junior(), Demanding()], 0) == Some(Demanding());
      assert ProfileOf([Junior(), Demanding()]) == Some(Junior());
    }
    ExperienceEnforced(x, Junior(), once[0]);
    AllDimensions(Experience);
    assert Differs(once[0], Enforced(x, ById(docs), once)[0], Experience);
    assert AllComplete(once);
  }

  lemma TwoProfilesById()
    ensures ById([Senior(), Junior(), Demanding()]) == [Junior(), Demanding()]
  {
    var docs := [Senior(), Junior(), Demanding()];
    assert docs[..2] == [Senior(), Junior()] && docs[..2][..1] == [Senior()] && docs[..1][..0] == [];
    assert ById([Senior()]) == [Senior()];
    assert ById([Senior(), Junior()]) == [Junior()];
    assert ById(docs) == Replaced([Junior()], Demanding());
  }
}
