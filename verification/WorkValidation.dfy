/**
 The fit policy for proposals from outside (backend/agent_work/validation.py): one gate per
 dimension, evidence for every resolved gate, and an overall score the server computes itself.
 */
module WorkValidation {
  import opened Wrappers
  import opened WorkTypes

  const DIMENSIONS := [Role, Requirements, Language, Location, Contract, Freshness]
  const WEIGHTS := [25, 30, 15, 15, 10, 5]

  function ScoreOf(s: Scores, d: Dimension): int {
    match d
    case Role => s.role
    case Requirements => s.requirements
    case Language => s.language
    case Location => s.location
    case Contract => s.contract
    case Freshness => s.freshness
    case General => 0
  }

  function WeightOf(d: Dimension): nat {
    match d
    case Role => 25
    case Requirements => 30
    case Language => 15
    case Location => 15
    case Contract => 10
    case Freshness => 5
    case General => 0
  }

  /** The weighted sum of the first `k` dimensions. */
  function Weighted(s: Scores, k: nat): int
    requires k <= 6
  {
    if k == 0 then 0 else Weighted(s, k - 1) + ScoreOf(s, DIMENSIONS[k - 1]) * WEIGHTS[k - 1]
  }

  /** `ROUND_HALF_UP` of hundredths; the sum is never negative. */
  function FitScore(s: Scores): int {
    (Weighted(s, 6) + 50) / 100
  }

  lemma FitScoreBounds(s: Scores)
    ensures 0 <= FitScore(s) <= 100
    ensures Weighted(s, 6) == s.role * 25 + s.requirements * 30 + s.language * 15 + s.location * 15
                              + s.contract * 10 + s.freshness * 5
  {
    assert Weighted(s, 1) == s.role * 25;
    assert Weighted(s, 2) == Weighted(s, 1) + s.requirements * 30;
    assert Weighted(s, 3) == Weighted(s, 2) + s.language * 15;
    assert Weighted(s, 4) == Weighted(s, 3) + s.location * 15;
    assert Weighted(s, 5) == Weighted(s, 4) + s.contract * 10;
    assert Weighted(s, 6) == Weighted(s, 5) + s.freshness * 5;
  }

  function Eligibility(gates: seq<Gate>): GateStatus {
    if exists g :: g in gates && g.status == Reject then Reject
    else if exists g :: g in gates && (g.status == Hold || g.unknowns != []) then Hold
    else Eligible
  }

  // ---- One gate ----

  predicate OccursAt(text: string, part: string, k: int) {
    0 <= k <= |text| - |part| && text[k..k + |part|] == part
  }

  predicate Contains(text: string, part: string) {
    exists k | 0 <= k <= |text| - |part| :: OccursAt(text, part, k)
  }

  function Blank(): set<char> {
    {' ', '\t', '\n', '\r', '\U{000B}', '\U{000C}', '\U{001C}', '\U{001D}', '\U{001E}', '\U{001F}',
     '\U{0085}', '\U{00A0}', '\U{1680}', '\U{2000}', '\U{2001}', '\U{2002}', '\U{2003}', '\U{2004}',
     '\U{2005}', '\U{2006}', '\U{2007}', '\U{2008}', '\U{2009}', '\U{200A}', '\U{2028}', '\U{2029}',
     '\U{202F}', '\U{205F}', '\U{3000}'}
  }

  predicate IsBlank(text: string) {
    forall k :: 0 <= k < |text| ==> text[k] in Blank()
  }

  /** The non-empty fields of the advert, one per line. */
  function SourceText(s: Source): string {
    JoinLines(JoinLines(s.title, s.description), s.location)
  }

  function JoinLines(a: string, b: string): string {
    if a == "" then b else if b == "" then a else a + "\n" + b
  }

  predicate Cited(c: Context, ids: seq<Id>) {
    forall i :: i in ids ==> exists f :: f in c.facts && f.id == i
  }

  predicate CitesKind(c: Context, ids: seq<Id>, kind: string) {
    exists f :: f in c.facts && f.id in ids && f.kind == kind
  }

  predicate IsCareer(d: Dimension) {
    d == Role || d == Requirements || d == Language
  }

  function EvidenceFault(c: Context, g: Gate, s: Source): Option<ErrorCode> {
    if !Cited(c, g.facts) || exists q :: q in g.quotes && (IsBlank(q) || !Contains(SourceText(s), q))
    then Some(EvidenceInvalid) else None
  }

  /** What an eligible gate needs before its quotations are looked at. */
  function PremiseFault(c: Context, g: Gate): Option<ErrorCode> {
    if g.status != Eligible then None
    else if g.dimension == Language && !CitesKind(c, g.facts, "language") then Some(EvidenceInvalid)
    else if g.dimension == Location && !(c.preferences.Some? && c.preferences.value.location)
    then Some(EvidenceInvalid)
    else if g.dimension == Contract && !(c.preferences.Some? && c.preferences.value.contract)
    then Some(EvidenceInvalid)
    else None
  }

  function UnknownFault(o: Services, c: Context, g: Gate, scores: Scores, s: Source): Option<ErrorCode> {
    if g.unknowns != [] then
      if g.status == Eligible || ScoreOf(scores, g.dimension) != 0 then Some(InvalidResult) else None
    else if g.status == Hold then Some(InvalidResult)
    else if g.quotes == [] then Some(EvidenceInvalid)
    else if exists q :: q in g.quotes && !o.supports(g.dimension, q, s, c, g.facts)
    then Some(EvidenceInvalid)
    else None
  }

  function EligibleFault(o: Services, c: Context, g: Gate): Option<ErrorCode> {
    if g.status != Eligible then None
    else if (g.dimension == Location || g.dimension == Contract)
            && !(exists q :: q in g.quotes && o.preferred(g.dimension, q, c))
    then Some(EvidenceInvalid)
    else if IsCareer(g.dimension) && g.facts == [] then Some(EvidenceInvalid)
    else if IsCareer(g.dimension) && exists q :: q in g.quotes && !o.grounded(c, q, g.facts)
    then Some(EvidenceInvalid)
    else None
  }

  function GateFault(o: Services, c: Context, g: Gate, scores: Scores, s: Source): Option<ErrorCode> {
    if EvidenceFault(c, g, s).Some? then EvidenceFault(c, g, s)
    else if PremiseFault(c, g).Some? then PremiseFault(c, g)
    else if UnknownFault(o, c, g, scores, s).Some? then UnknownFault(o, c, g, scores, s)
    else EligibleFault(o, c, g)
  }

  // ---- All gates ----

  /** Six gates and every dimension of the policy among them. */
  predicate OneGatePerDimension(gates: seq<Gate>) {
    && |gates| == 6
    && (set g | g in gates :: g.dimension) == (set d | d in DIMENSIONS)
  }

  function FirstFault(o: Services, c: Context, gates: seq<Gate>, scores: Scores, s: Source): Option<ErrorCode> {
    if gates == [] then None
    else if GateFault(o, c, gates[0], scores, s).Some? then GateFault(o, c, gates[0], scores, s)
    else FirstFault(o, c, gates[1..], scores, s)
  }

  /** The scores as the server stores them: the proposed overall score is thrown away. */
  function Scored(s: Scores): Scores {
    FitScoreBounds(s);
    s.(overall := FitScore(s))
  }

  function Gated(o: Services, c: Context, gates: seq<Gate>, scores: Scores, s: Source): Outcome<Scores> {
    if !OneGatePerDimension(gates) then Err(InvalidResult)
    else if FirstFault(o, c, gates, scores, s).Some? then Err(FirstFault(o, c, gates, scores, s).value)
    else Ok(Scored(scores))
  }

  lemma FirstFaultGrows(o: Services, c: Context, gates: seq<Gate>, scores: Scores, s: Source, g: Gate)
    requires FirstFault(o, c, gates, scores, s).None?
    ensures FirstFault(o, c, gates + [g], scores, s) == GateFault(o, c, g, scores, s)
  {
    if gates == [] {
      assert gates + [g] == [g];
    } else {
      assert (gates + [g])[1..] == gates[1..] + [g];
      FirstFaultGrows(o, c, gates[1..], scores, s, g);
    }
  }

  lemma FirstFaultEnds(o: Services, c: Context, gates: seq<Gate>, scores: Scores, s: Source, k: nat)
    requires k < |gates|
    requires FirstFault(o, c, gates[..k], scores, s).None?
    requires GateFault(o, c, gates[k], scores, s).Some?
    ensures FirstFault(o, c, gates, scores, s) == GateFault(o, c, gates[k], scores, s)
  {
    if k > 0 {
      assert gates[1..][..k - 1] == gates[..k][1..];
      FirstFaultEnds(o, c, gates[1..], scores, s, k - 1);
    }
  }

  /** `_gates` */
  method CheckGates(o: Services, c: Context, gates: seq<Gate>, proposed: Scores, s: Source)
    returns (r: Outcome<Scores>)
    ensures r == Gated(o, c, gates, proposed, s)
  {
    if !OneGatePerDimension(gates) {
      return Err(InvalidResult);
    }
    for i := 0 to |gates|
      invariant FirstFault(o, c, gates[..i], proposed, s).None?
    {
      var fault := GateFault(o, c, gates[i], proposed, s);
      if fault.Some? {
        FirstFaultEnds(o, c, gates, proposed, s, i);
        return Err(fault.value);
      }
      FirstFaultGrows(o, c, gates[..i], proposed, s, gates[i]);
      assert gates[..i + 1] == gates[..i] + [gates[i]];
    }
    assert gates[..|gates|] == gates;
    return Ok(Scored(proposed));
  }

  lemma NoFaultAnywhere(o: Services, c: Context, gates: seq<Gate>, scores: Scores, s: Source, g: Gate)
    requires FirstFault(o, c, gates, scores, s).None?
    requires g in gates
    ensures GateFault(o, c, g, scores, s).None?
  {
    if g != gates[0] {
      NoFaultAnywhere(o, c, gates[1..], scores, s, g);
    }
  }

  function UnknownDimensions(gates: seq<Gate>): set<Dimension> {
    set g | g in gates && g.unknowns != [] :: g.dimension
  }

  function UnknownWeight(gates: seq<Gate>, d: Dimension): nat {
    if d in UnknownDimensions(gates) then WeightOf(d) else 0
  }

  /** The total weight of the dimensions about which something is unknown. */
  function TotalUnknownWeight(gates: seq<Gate>): nat {
    UnknownWeight(gates, Role) + UnknownWeight(gates, Requirements) + UnknownWeight(gates, Language)
    + UnknownWeight(gates, Location) + UnknownWeight(gates, Contract) + UnknownWeight(gates, Freshness)
  }

  /** A dimension about which something is unknown contributes nothing to the weighted sum. */
  lemma UnknownScoresNothing(o: Services, c: Context, gates: seq<Gate>, scores: Scores, s: Source, d: Dimension)
    requires FirstFault(o, c, gates, scores, s).None?
    ensures ScoreOf(scores, d) * WeightOf(d) <= 100 * (WeightOf(d) - UnknownWeight(gates, d))
  {
    if d in UnknownDimensions(gates) {
      var g :| g in gates && g.unknowns != [] && g.dimension == d;
      NoFaultAnywhere(o, c, gates, scores, s, g);
      assert ScoreOf(scores, d) == 0;
    }
  }

  lemma UnknownWeightOfSum(o: Services, c: Context, gates: seq<Gate>, scores: Scores, s: Source)
    requires FirstFault(o, c, gates, scores, s).None?
    ensures Weighted(scores, 6) <= 100 * (100 - TotalUnknownWeight(gates))
  {
    hide UnknownWeight, Weighted, FirstFault;
    FitScoreBounds(scores);
    UnknownScoresNothing(o, c, gates, scores, s, Role);
    UnknownScoresNothing(o, c, gates, scores, s, Requirements);
    UnknownScoresNothing(o, c, gates, scores, s, Language);
    UnknownScoresNothing(o, c, gates, scores, s, Location);
    UnknownScoresNothing(o, c, gates, scores, s, Contract);
    UnknownScoresNothing(o, c, gates, scores, s, Freshness);
  }

  /** The overall score the server computes is at most what the dimensions without unknowns
      weigh. */
  lemma UnknownWeightIsLost(o: Services, c: Context, gates: seq<Gate>, scores: Scores, s: Source)
    requires Gated(o, c, gates, scores, s).Ok?
    ensures Gated(o, c, gates, scores, s).value.overall <= 100 - TotalUnknownWeight(gates)
  {
    hide TotalUnknownWeight, Weighted;
    UnknownWeightOfSum(o, c, gates, scores, s);
  }

  function DimensionsOf(gates: seq<Gate>): set<Dimension> {
    set g | g in gates :: g.dimension
  }

  lemma FewDimensions(gates: seq<Gate>)
    ensures |DimensionsOf(gates)| <= |gates|
  {
    if gates == [] {
      assert DimensionsOf(gates) == {};
    } else {
      FewDimensions(gates[1..]);
      assert DimensionsOf(gates) == DimensionsOf(gates[1..]) + {gates[0].dimension};
    }
  }

  /** Six gates covering six dimensions leave no dimension judged twice. */
  lemma GatesAreDistinct(gates: seq<Gate>, j: nat, k: nat)
    requires OneGatePerDimension(gates)
    requires j < k < |gates|
    ensures gates[j].dimension != gates[k].dimension
  {
    if gates[j].dimension == gates[k].dimension {
      var rest := gates[..k] + gates[k + 1..];
      assert forall g :: g in gates ==> g in rest || g == gates[k];
      assert rest[j] == gates[j];
      assert DimensionsOf(gates) == DimensionsOf(rest);
      FewDimensions(rest);
      SixDimensions();
    }
  }

  lemma SixDimensions()
    ensures |(set d | d in DIMENSIONS)| == 6
  {
    assert (set d | d in DIMENSIONS) == {Role, Requirements, Language, Location, Contract, Freshness};
  }

  // ---- Whole proposals ----

  function SourceOf(l: Option<Listing>): Source {
    if l.None? then Source("", "", "") else Source(l.value.title, l.value.description, l.value.location)
  }

  predicate ClaimStands(o: Services, c: Context, claim: Claim) {
    && claim.facts != [] && o.grounded(c, claim.text, claim.facts)
    && (claim.quote.None? || claim.quote.value == "" || Contains(SourceOf(c.advert).description, claim.quote.value))
  }

  function ReviewedAnalysis(o: Services, c: Context, p: Payload): Outcome<Payload>
    requires p.Analysis?
  {
    match Gated(o, c, p.gates, p.scores, SourceOf(c.advert))
    case Err(code) => Err(code)
    case Ok(scores) =>
      if Eligibility(p.gates) != Eligible && (p.recommendation == StrongFit || p.recommendation == Consider)
      then Err(InvalidResult)
      else if exists q :: q in p.claims && !ClaimStands(o, c, q) then Err(EvidenceInvalid)
      else Ok(p.(scores := scores))
  }

  function SourceOfVacancy(v: Vacancy): Source {
    Source(v.title, v.text, if v.location.Some? then v.location.value else "")
  }

  function ReviewedListings(o: Services, c: Context, listings: seq<Vacancy>): Outcome<seq<Vacancy>> {
    if listings == [] then Ok([])
    else
      match Gated(o, c, listings[0].gates, listings[0].scores, SourceOfVacancy(listings[0]))
      case Err(code) => Err(code)
      case Ok(scores) =>
        match ReviewedListings(o, c, listings[1..])
        case Err(code) => Err(code)
        case Ok(rest) => Ok([listings[0].(scores := scores)] + rest)
  }

  function Ids(items: seq<Item>): seq<string> {
    seq(|items|, i requires 0 <= i < |items| => items[i].id)
  }

  predicate Distinct<T(==)>(items: seq<T>) {
    forall j, k :: 0 <= j < k < |items| ==> items[j] != items[k]
  }

  predicate Among<T(==)>(items: seq<T>, allowed: seq<T>) {
    forall i :: i in items ==> i in allowed
  }

  function FactSet(ids: seq<Id>): set<Id> {
    set i | i in ids
  }

  function Items(p: Payload): seq<Item>
    requires p.MaterialSet?
  {
    p.overrides + p.letter + p.email + p.answers
  }

  predicate DistinctTargets(overrides: seq<Item>) {
    forall j, k :: 0 <= j < k < |overrides| ==> FactSet(overrides[j].facts) != FactSet(overrides[k].facts)
  }

  predicate ItemStands(o: Services, c: Context, p: Payload, item: Item)
    requires p.MaterialSet?
  {
    Distinct(item.facts) && Among(item.facts, p.selected) && item.facts != [] && o.grounded(c, item.text, item.facts)
  }

  predicate EvidenceStands(o: Services, c: Context, p: Payload, e: Evidence)
    requires p.MaterialSet?
  {
    && Contains(SourceOf(c.advert).description, e.quote)
    && Distinct(e.facts) && Among(e.facts, p.selected)
    && o.quoted(e.requirement, e.quote)
    && e.facts != [] && o.grounded(c, e.requirement, e.facts)
  }

  function ReviewedMaterials(o: Services, c: Context, p: Payload): Outcome<Payload>
    requires p.MaterialSet?
  {
    if !Distinct(p.selected) || !Cited(c, p.selected) then Err(EvidenceInvalid)
    else if c.target.preset != Some(p.preset) then Err(InvalidResult)
    else if !Distinct(Ids(Items(p))) then Err(InvalidResult)
    else if !DistinctTargets(p.overrides) then Err(InvalidResult)
    else if exists i :: i in Items(p) && !ItemStands(o, c, p, i) then Err(EvidenceInvalid)
    else if exists e :: e in p.evidence && !EvidenceStands(o, c, p, e) then Err(EvidenceInvalid)
    else Ok(p)
  }

  /** `validate_proposal_payload`: the payload as it is stored, with the overall scores of the
      server in place of the proposed ones, or why it is refused. */
  function Reviewed(o: Services, c: Context, p: Payload): Outcome<Payload> {
    if !o.withinSize(p) then Err(InvalidResult)
    else if KindOf(p) != c.target.kind then Err(InvalidResult)
    else
      match p
      case Discovery(listings) =>
        (match ReviewedListings(o, c, listings)
         case Err(code) => Err(code)
         case Ok(reviewed) => Ok(Discovery(reviewed)))
      case Analysis(_, _, _, _) => ReviewedAnalysis(o, c, p)
      case MaterialSet(_, _, _, _, _, _, _) => ReviewedMaterials(o, c, p)
  }

  /** A proposal that recommends applying has all six gates open and nothing unknown. */
  lemma RecommendationNeedsEveryGate(o: Services, c: Context, p: Payload, d: Dimension)
    requires p.Analysis? && Reviewed(o, c, p).Ok?
    requires p.recommendation == StrongFit || p.recommendation == Consider
    requires d in DIMENSIONS
    ensures exists g :: g in p.gates && g.dimension == d && g.status == Eligible && g.unknowns == []
  {
    assert d in (set x | x in DIMENSIONS);
    assert d in DimensionsOf(p.gates);
    var g :| g in p.gates && g.dimension == d;
    assert g.status == Eligible && g.unknowns == [];
  }

  lemma ScoringIsIdempotent(s: Scores)
    ensures Scored(Scored(s)) == Scored(s)
  {
    FitScoreBounds(s);
    FitScoreBounds(Scored(s));
  }

  lemma GatesIgnoreOverall(o: Services, c: Context, gates: seq<Gate>, scores: Scores, s: Source)
    ensures FirstFault(o, c, gates, Scored(scores), s) == FirstFault(o, c, gates, scores, s)
  {
    if gates != [] {
      GatesIgnoreOverall(o, c, gates[1..], scores, s);
      assert ScoreOf(Scored(scores), gates[0].dimension) == ScoreOf(scores, gates[0].dimension);
    }
  }

  lemma GatingIsIdempotent(o: Services, c: Context, gates: seq<Gate>, scores: Scores, s: Source)
    requires Gated(o, c, gates, scores, s).Ok?
    ensures Gated(o, c, gates, Gated(o, c, gates, scores, s).value, s) == Gated(o, c, gates, scores, s)
  {
    GatesIgnoreOverall(o, c, gates, scores, s);
    ScoringIsIdempotent(scores);
  }

  lemma ListingsSettle(o: Services, c: Context, listings: seq<Vacancy>)
    requires ReviewedListings(o, c, listings).Ok?
    ensures ReviewedListings(o, c, ReviewedListings(o, c, listings).value) == ReviewedListings(o, c, listings)
  {
    hide Gated, Scored;
    if listings != [] {
      GatingIsIdempotent(o, c, listings[0].gates, listings[0].scores, SourceOfVacancy(listings[0]));
      ListingsSettle(o, c, listings[1..]);
      var reviewed := ReviewedListings(o, c, listings).value;
      assert reviewed[1..] == ReviewedListings(o, c, listings[1..]).value;
    }
  }

  /** What was stored when a proposal was submitted passes review again unchanged, exactly when
      the server's own overall score has not pushed it over the size limit. */
  lemma ReviewSettles(o: Services, c: Context, p: Payload)
    requires Reviewed(o, c, p).Ok?
    ensures Reviewed(o, c, Reviewed(o, c, p).value) == Reviewed(o, c, p)
       <==> o.withinSize(Reviewed(o, c, p).value)
  {
    hide Gated, Scored;
    match p
    case Discovery(listings) => ListingsSettle(o, c, listings);
    case Analysis(gates, scores, _, _) => GatingIsIdempotent(o, c, gates, scores, SourceOf(c.advert));
    case MaterialSet(_, _, _, _, _, _, _) =>
  }
}
