/**
 What a proposal that passes review is: the rules of backend/agent_work/validation.py stated
 without their order, one condition for each gate, claim, text and piece of evidence.
 */
module WorkReview {
  import opened Wrappers
  import opened WorkTypes
  import opened WorkValidation

  // ---- Scores ----

  /** The server's overall score is the weighted mean of the six, to the nearest whole number and
      halfway upwards. */
  lemma FitScoreIsNearest(s: Scores)
    ensures var mean := 25 * s.role + 30 * s.requirements + 15 * s.language + 15 * s.location
                        + 10 * s.contract + 5 * s.freshness;
      -50 < 100 * FitScore(s) - mean <= 50
  {
    hide Weighted;
    FitScoreBounds(s);
  }

  // ---- Quotations ----

  lemma ContainsAt(text: string, part: string, k: int)
    requires 0 <= k <= |text| - |part| && text[k..k + |part|] == part
    ensures Contains(text, part)
  {
    assert OccursAt(text, part, k);
  }

  lemma ContainsInFront(a: string, b: string, part: string)
    requires Contains(a, part)
    ensures Contains(a + b, part)
  {
    var k :| 0 <= k <= |a| - |part| && OccursAt(a, part, k);
    assert (a + b)[k..k + |part|] == a[k..k + |part|];
    ContainsAt(a + b, part, k);
  }

  lemma ContainsBehind(a: string, b: string, part: string)
    requires Contains(b, part)
    ensures Contains(a + b, part)
  {
    var k :| 0 <= k <= |b| - |part| && OccursAt(b, part, k);
    assert (a + b)[|a| + k..|a| + k + |part|] == b[k..k + |part|];
    ContainsAt(a + b, part, |a| + k);
  }

  lemma OccursHas(text: string, part: string, k: int, m: int)
    requires OccursAt(text, part, k) && k <= m < k + |part|
    ensures text[m] in part
  {
    assert part[m - k] == text[k..k + |part|][m - k];
  }

  /** A text without a line break that occurs in two lines occurs in one of them. */
  lemma InOneLine(a: string, b: string, part: string)
    requires part != "" && '\n' !in part
    ensures Contains(JoinLines(a, b), part) <==> Contains(a, part) || Contains(b, part)
  {
    var all := a + "\n" + b;
    if Contains(a, part) {
      ContainsInFront(a, "\n" + b, part);
      assert a + ("\n" + b) == all;
    }
    if Contains(b, part) {
      ContainsBehind(a + "\n", b, part);
    }
    if Contains(all, part) {
      var k :| 0 <= k <= |all| - |part| && OccursAt(all, part, k);
      if k <= |a| < k + |part| {
        OccursHas(all, part, k, |a|);
      } else if k + |part| <= |a| {
        assert a[k..k + |part|] == all[k..k + |part|];
        ContainsAt(a, part, k);
      } else {
        assert b[k - |a| - 1..k - |a| - 1 + |part|] == all[k..k + |part|];
        ContainsAt(b, part, k - |a| - 1);
      }
    }
  }

  /** A quotation of one line is in the advert exactly when it is in its title, its description or
      its location. */
  lemma QuotedFromOneField(s: Source, q: string)
    requires q != "" && '\n' !in q
    ensures Contains(SourceText(s), q) <==>
      Contains(s.title, q) || Contains(s.description, q) || Contains(s.location, q)
  {
    hide Contains, JoinLines;
    InOneLine(JoinLines(s.title, s.description), s.location, q);
    InOneLine(s.title, s.description, q);
  }

  // ---- Gates ----

  predicate KnownFacts(c: Context, ids: seq<Id>) {
    forall i :: i in ids ==> exists f :: f in c.facts && f.id == i
  }

  predicate Quotes(s: Source, q: string) {
    Contains(SourceText(s), q) && exists k :: 0 <= k < |q| && q[k] !in Blank()
  }

  /** What it takes to be eligible, dimension by dimension. */
  predicate Qualifies(o: Services, c: Context, g: Gate) {
    match g.dimension
    case Language =>
      && (exists f :: f in c.facts && f.id in g.facts && f.kind == "language")
      && g.facts != [] && forall q :: q in g.quotes ==> o.grounded(c, q, g.facts)
    case Role => g.facts != [] && forall q :: q in g.quotes ==> o.grounded(c, q, g.facts)
    case Requirements => g.facts != [] && forall q :: q in g.quotes ==> o.grounded(c, q, g.facts)
    case Location =>
      c.preferences.Some? && c.preferences.value.location && exists q :: q in g.quotes && o.preferred(Location, q, c)
    case Contract =>
      c.preferences.Some? && c.preferences.value.contract && exists q :: q in g.quotes && o.preferred(Contract, q, c)
    case _ => true
  }

  /** A gate that passes cites only known facts and the advert itself. Where something is unknown
      it is not eligible and scores nothing; where nothing is, it is settled by quotations that
      support its dimension, and eligible only for a candidate who qualifies. */
  predicate GateStands(o: Services, c: Context, g: Gate, scores: Scores, s: Source) {
    && KnownFacts(c, g.facts) && (forall q :: q in g.quotes ==> Quotes(s, q))
    && (if g.unknowns != [] then g.status != Eligible && ScoreOf(scores, g.dimension) == 0
        else g.status != Hold && g.quotes != [] && forall q :: q in g.quotes ==> o.supports(g.dimension, q, s, c, g.facts))
    && (g.status == Eligible ==> Qualifies(o, c, g))
  }

  lemma QuotesExactly(s: Source, q: string)
    ensures Quotes(s, q) <==> !IsBlank(q) && Contains(SourceText(s), q)
  {
    hide Contains, SourceText;
  }

  lemma EvidenceExactly(c: Context, g: Gate, s: Source)
    ensures EvidenceFault(c, g, s).None? <==> KnownFacts(c, g.facts) && forall q :: q in g.quotes ==> Quotes(s, q)
  {
    hide IsBlank, Contains, SourceText, Quotes;
    forall q ensures Quotes(s, q) <==> !IsBlank(q) && Contains(SourceText(s), q) {
      QuotesExactly(s, q);
    }
  }

  lemma QualifiesExactly(o: Services, c: Context, g: Gate)
    requires g.status == Eligible
    ensures PremiseFault(c, g).None? && EligibleFault(o, c, g).None? <==> Qualifies(o, c, g)
  {
  }

  lemma GateStandsExactly(o: Services, c: Context, g: Gate, scores: Scores, s: Source)
    ensures GateFault(o, c, g, scores, s).None? <==> GateStands(o, c, g, scores, s)
  {
    hide Qualifies, EvidenceFault, KnownFacts, Quotes;
    EvidenceExactly(c, g, s);
    if g.status == Eligible {
      QualifiesExactly(o, c, g);
    }
  }

  lemma {:induction false} NoFaultExactly(o: Services, c: Context, gates: seq<Gate>, scores: Scores, s: Source)
    ensures FirstFault(o, c, gates, scores, s).None? <==> forall g :: g in gates ==> GateStands(o, c, g, scores, s)
  {
    hide GateStands, GateFault;
    if gates != [] {
      GateStandsExactly(o, c, gates[0], scores, s);
      NoFaultExactly(o, c, gates[1..], scores, s);
      assert forall g :: g in gates <==> g == gates[0] || g in gates[1..];
    }
  }

  predicate Judges(gates: seq<Gate>, d: Dimension) {
    exists g :: g in gates && g.dimension == d
  }

  /** Six gates, one for each dimension. */
  predicate OneEach(gates: seq<Gate>) {
    && |gates| == 6
    && Judges(gates, Role) && Judges(gates, Requirements) && Judges(gates, Language)
    && Judges(gates, Location) && Judges(gates, Contract) && Judges(gates, Freshness)
  }

  lemma JudgedExactly(gates: seq<Gate>, d: Dimension)
    ensures d in DimensionsOf(gates) <==> Judges(gates, d)
  {
  }

  lemma SixAreAll<T>(own: set<T>, six: set<T>)
    requires six <= own && |own| <= |six|
    ensures own == six
  {
    if x :| x in own && x !in six {
      SubsetSize(six, own - {x});
    }
  }

  lemma SubsetSize<T>(a: set<T>, b: set<T>)
    requires a <= b
    ensures |a| <= |b|
  {
    if a != {} {
      var x :| x in a;
      SubsetSize(a - {x}, b - {x});
    }
  }

  lemma OneEachExactly(gates: seq<Gate>)
    ensures OneGatePerDimension(gates) <==> OneEach(gates)
  {
    hide Judges;
    var own, six := DimensionsOf(gates), set d | d in DIMENSIONS;
    assert six == {Role, Requirements, Language, Location, Contract, Freshness} by {
      assert DIMENSIONS[0] == Role && DIMENSIONS[1] == Requirements && DIMENSIONS[2] == Language;
      assert DIMENSIONS[3] == Location && DIMENSIONS[4] == Contract && DIMENSIONS[5] == Freshness;
    }
    forall d: Dimension ensures d in own <==> Judges(gates, d) {
      JudgedExactly(gates, d);
    }
    if OneEach(gates) {
      FewDimensions(gates);
      SixDimensions();
      SixAreAll(own, six);
    }
    assert OneGatePerDimension(gates) <==> |gates| == 6 && own == six;
  }

  /** Gates and scores pass exactly when there is one gate a dimension and every one stands; what is
      kept are the proposed scores with the server's overall one. */
  lemma GatesPassExactly(o: Services, c: Context, gates: seq<Gate>, scores: Scores, s: Source)
    ensures Gated(o, c, gates, scores, s).Ok? <==> OneEach(gates) && forall g :: g in gates ==> GateStands(o, c, g, scores, s)
    ensures Gated(o, c, gates, scores, s).Ok? ==> Gated(o, c, gates, scores, s).value == scores.(overall := FitScore(scores))
  {
    hide OneGatePerDimension, OneEach, GateStands, FirstFault;
    OneEachExactly(gates);
    NoFaultExactly(o, c, gates, scores, s);
  }

  // ---- Whole proposals ----

  predicate Recommends(r: Recommendation) {
    r == StrongFit || r == Consider
  }

  /** An analysis passes exactly when its gates do, it recommends applying only with every gate
      eligible and nothing unknown, and each of its claims is grounded in facts that it cites and
      quotes nothing but the description of the job. */
  lemma AnalysisPassesExactly(o: Services, c: Context, p: Payload)
    requires p.Analysis?
    ensures Reviewed(o, c, p).Ok? <==>
      && o.withinSize(p) && c.target.kind == Analyze
      && OneEach(p.gates) && (forall g :: g in p.gates ==> GateStands(o, c, g, p.scores, SourceOf(c.advert)))
      && (Recommends(p.recommendation) ==> forall g :: g in p.gates ==> g.status == Eligible && g.unknowns == [])
      && (forall q :: q in p.claims ==>
            && q.facts != [] && o.grounded(c, q.text, q.facts)
            && (q.quote.Some? && q.quote.value != "" ==>
                  c.advert.Some? && Contains(c.advert.value.description, q.quote.value)))
    ensures Reviewed(o, c, p).Ok? ==> Reviewed(o, c, p).value == p.(scores := Scored(p.scores))
  {
    hide Gated, GateStands, OneEach, FitScore;
    GatesPassExactly(o, c, p.gates, p.scores, SourceOf(c.advert));
    assert c.advert.None? ==> forall q :: q != "" ==> !Contains(SourceOf(c.advert).description, q);
  }

  predicate VacancyStands(o: Services, c: Context, l: Vacancy) {
    && OneEach(l.gates)
    && forall g :: g in l.gates ==>
         GateStands(o, c, g, l.scores, Source(l.title, l.text, if l.location.Some? then l.location.value else ""))
  }

  /** A vacancy that was found passes like the advert of a job, its own text being the advert. */
  lemma {:induction false} ListingsPassExactly(o: Services, c: Context, listings: seq<Vacancy>)
    ensures ReviewedListings(o, c, listings).Ok? <==> forall l :: l in listings ==> VacancyStands(o, c, l)
    ensures ReviewedListings(o, c, listings).Ok? ==>
      var kept := ReviewedListings(o, c, listings).value;
      |kept| == |listings| && forall i :: 0 <= i < |listings| ==>
        kept[i] == listings[i].(scores := Scored(listings[i].scores))
  {
    hide Gated, VacancyStands, Scored;
    if listings != [] {
      VacancyStandsExactly(o, c, listings[0]);
      ListingsPassExactly(o, c, listings[1..]);
      assert forall l :: l in listings <==> l == listings[0] || l in listings[1..];
      if ReviewedListings(o, c, listings).Ok? {
        var kept, rest := ReviewedListings(o, c, listings).value, ReviewedListings(o, c, listings[1..]).value;
        assert kept[1..] == rest;
        forall i | 1 <= i < |listings|
          ensures kept[i] == listings[i].(scores := Scored(listings[i].scores))
        {
          assert kept[i] == rest[i - 1] && listings[i] == listings[1..][i - 1];
        }
      }
    }
  }

  lemma VacancyStandsExactly(o: Services, c: Context, l: Vacancy)
    ensures Gated(o, c, l.gates, l.scores, SourceOfVacancy(l)).Ok? <==> VacancyStands(o, c, l)
    ensures Gated(o, c, l.gates, l.scores, SourceOfVacancy(l)).Ok? ==>
      Gated(o, c, l.gates, l.scores, SourceOfVacancy(l)).value == Scored(l.scores)
  {
    hide Gated, GateStands, OneEach;
    GatesPassExactly(o, c, l.gates, l.scores, SourceOfVacancy(l));
  }

  predicate Grounded(o: Services, c: Context, p: Payload, text: string, facts: seq<Id>)
    requires p.MaterialSet?
  {
    && facts != [] && (forall i :: i in facts ==> i in p.selected)
    && (forall j, k :: 0 <= j < k < |facts| ==> facts[j] != facts[k])
    && o.grounded(c, text, facts)
  }

  /** Materials pass exactly when they select known facts, each once, use the template that was
      chosen, give every text an identity of its own, override each block of facts once, ground
      every text in selected facts, and back every requirement by the description of the job and
      by selected facts. They are kept as they are. */
  lemma MaterialsPassExactly(o: Services, c: Context, p: Payload)
    requires p.MaterialSet?
    ensures var texts := p.overrides + p.letter + p.email + p.answers;
      Reviewed(o, c, p).Ok? <==>
        && o.withinSize(p) && c.target.kind == Materials && c.target.preset == Some(p.preset)
        && KnownFacts(c, p.selected) && (forall j, k :: 0 <= j < k < |p.selected| ==> p.selected[j] != p.selected[k])
        && (forall j, k :: 0 <= j < k < |texts| ==> texts[j].id != texts[k].id)
        && (forall j, k :: 0 <= j < k < |p.overrides| ==> !SameFacts(p.overrides[j].facts, p.overrides[k].facts))
        && (forall t :: t in texts ==> Grounded(o, c, p, t.text, t.facts))
        && (forall e :: e in p.evidence ==>
              && Grounded(o, c, p, e.requirement, e.facts) && o.quoted(e.requirement, e.quote)
              && Contains(if c.advert.Some? then c.advert.value.description else "", e.quote))
    ensures Reviewed(o, c, p).Ok? ==> Reviewed(o, c, p).value == p
  {
    hide Contains;
    IdsDiffer(p.overrides + p.letter + p.email + p.answers);
    TargetsDiffer(p.overrides);
    hide Ids, DistinctTargets;
    forall t ensures ItemStands(o, c, p, t) <==> Grounded(o, c, p, t.text, t.facts) {
    }
    forall e ensures EvidenceStands(o, c, p, e) <==>
      && Grounded(o, c, p, e.requirement, e.facts) && o.quoted(e.requirement, e.quote)
      && Contains(if c.advert.Some? then c.advert.value.description else "", e.quote)
    {
    }
    hide ItemStands, EvidenceStands, Grounded, SameFacts;
  }

  lemma IdsDiffer(items: seq<Item>)
    ensures Distinct(Ids(items)) <==> forall j, k :: 0 <= j < k < |items| ==> items[j].id != items[k].id
  {
    if Distinct(Ids(items)) {
      forall j, k | 0 <= j < k < |items| ensures items[j].id != items[k].id {
        assert Ids(items)[j] != Ids(items)[k];
      }
    }
  }

  ghost predicate SameFacts(a: seq<Id>, b: seq<Id>) {
    forall i :: i in a <==> i in b
  }

  lemma SameFactSets(a: seq<Id>, b: seq<Id>)
    ensures FactSet(a) == FactSet(b) <==> SameFacts(a, b)
  {
    assert forall i :: i in FactSet(a) <==> i in a;
    assert forall i :: i in FactSet(b) <==> i in b;
  }

  lemma TargetsDiffer(overrides: seq<Item>)
    ensures DistinctTargets(overrides) <==>
      forall j, k :: 0 <= j < k < |overrides| ==> !SameFacts(overrides[j].facts, overrides[k].facts)
  {
    hide FactSet, SameFacts;
    forall j, k | 0 <= j < k < |overrides|
      ensures FactSet(overrides[j].facts) == FactSet(overrides[k].facts) <==> SameFacts(overrides[j].facts, overrides[k].facts)
    {
      SameFactSets(overrides[j].facts, overrides[k].facts);
    }
  }
}
