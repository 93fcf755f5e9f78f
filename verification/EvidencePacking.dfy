/**
 Packing ranked evidence into a bounded context (backend/ai/retrieval.py:86-210). A line is the
 JSON text of one document, so a character of content may cost more than one character of
 context (JSON string escapes, section 7 of RFC 8259), and cutting a text to a length does not
 bound its line. The ranking itself is an input.
 */
module EvidencePacking {

  const PREFIX := "UNTRUSTED_EVIDENCE_JSONL\n"
  const MIN_BUDGET := 256
  const STEP := 16

  /** `metadata` is already serialized. */
  datatype Document = Document(id: string, kind: string, text: string, metadata: string)

  datatype Bundle = Bundle(ranked: seq<Document>, context: string, truncated: bool)

  datatype Result = Packed(bundle: Bundle) | BudgetTooSmall | IdentifiersTooLong

  // ---- Text ----

  predicate IsSpace(c: char) {
    || '\t' <= c <= '\r' || '\U{001C}' <= c <= ' ' || c == '\U{0085}' || c == '\U{00A0}' || c == '\U{1680}'
    || '\U{2000}' <= c <= '\U{200A}' || c == '\U{2028}' || c == '\U{2029}' || c == '\U{202F}' || c == '\U{205F}'
    || c == '\U{3000}'
  }

  /** `str.rstrip` */
  function Stripped(t: string): (r: string)
    ensures r <= t
  {
    if t == "" || !IsSpace(t[|t| - 1]) then t else Stripped(t[..|t| - 1])
  }

  /** `t[:n]` */
  function Take(t: string, n: nat): (r: string)
    ensures r <= t
  {
    if n < |t| then t[..n] else t
  }

  /** `t[:-16].rstrip()` */
  function Clip(t: string): (r: string)
    ensures r <= t
    ensures t != "" ==> |r| < |t|
  {
    Stripped(t[..if |t| < STEP then 0 else |t| - STEP])
  }

  function Hex(n: nat): char
    requires n < 16
  {
    "0123456789abcdef"[n]
  }

  /** One character of a JSON string. */
  function EscapeChar(c: char): (r: string)
    ensures |r| >= 1
  {
    if c == '\"' then ['\\', '\"']
    else if c == '\\' then ['\\', '\\']
    else if c == '\n' then ['\\', 'n']
    else if c == '\r' then ['\\', 'r']
    else if c == '\t' then ['\\', 't']
    else if c == '\U{0008}' then ['\\', 'b']
    else if c == '\U{000C}' then ['\\', 'f']
    else if c < ' ' then ['\\', 'u', '0', '0', Hex(c as int / 16), Hex(c as int % 16)]
    else [c]
  }

  function Escape(t: string): string {
    if t == "" then "" else Escape(t[..|t| - 1]) + EscapeChar(t[|t| - 1])
  }

  /** What a text costs inside a line. */
  function Cost(t: string): nat {
    |Escape(t)|
  }

  lemma {:induction false} CostOfPrefix(t: string, u: string)
    requires t <= u
    ensures |u| - |t| <= Cost(u) - Cost(t)
  {
    if t != u {
      CostOfPrefix(t, u[..|u| - 1]);
    }
  }

  lemma CostBounds(t: string)
    ensures |t| <= Cost(t)
    ensures Cost(t) == 0 <==> t == ""
  {
    CostOfPrefix("", t);
  }

  // ---- Lines ----

  function Head(): string {
    "{\"content\":\""
  }

  function Tail(d: Document): string {
    "\",\"id\":\"" + Escape(d.id) + "\",\"kind\":\"" + Escape(d.kind) + "\",\"metadata\":" + d.metadata + "}"
  }

  function Serialized(d: Document, text: string): string {
    Head() + Escape(text) + Tail(d)
  }

  /** What a document costs with no text at all. */
  function Overhead(d: Document): nat {
    |Serialized(d, "")|
  }

  lemma LineLength(d: Document, text: string)
    ensures |Serialized(d, text)| == Overhead(d) + Cost(text)
  {
  }

  function Lines(docs: seq<Document>): seq<string> {
    if docs == [] then [] else Lines(docs[..|docs| - 1]) + [Serialized(docs[|docs| - 1], docs[|docs| - 1].text)]
  }

  function Joined(lines: seq<string>): string {
    if lines == [] then ""
    else if |lines| == 1 then lines[0]
    else Joined(lines[..|lines| - 1]) + "\n" + lines[|lines| - 1]
  }

  function ContextOf(docs: seq<Document>): string {
    PREFIX + Joined(Lines(docs))
  }

  function Overheads(docs: seq<Document>): nat {
    if docs == [] then 0 else Overheads(docs[..|docs| - 1]) + Overhead(docs[|docs| - 1])
  }

  function Costs(docs: seq<Document>): nat {
    if docs == [] then 0 else Costs(docs[..|docs| - 1]) + Cost(docs[|docs| - 1].text)
  }

  function Breaks(docs: seq<Document>): nat {
    if docs == [] then 0 else |docs| - 1
  }

  lemma {:induction false} ContextLength(docs: seq<Document>)
    ensures |Lines(docs)| == |docs|
    ensures |ContextOf(docs)| == |PREFIX| + Breaks(docs) + Overheads(docs) + Costs(docs)
  {
    hide Serialized;
    if docs != [] {
      var front, last := docs[..|docs| - 1], docs[|docs| - 1];
      ContextLength(front);
      LineLength(last, last.text);
      assert Lines(docs) == Lines(front) + [Serialized(last, last.text)];
      assert Lines(docs)[..|docs| - 1] == Lines(front);
      if front == [] {
        assert Lines(docs) == [Serialized(last, last.text)];
      }
    }
  }

  // ---- Packing every document ----

  /** Documents that differ in their texts only, each new text a beginning of the old one. */
  ghost predicate Shortened(docs: seq<Document>, originals: seq<Document>) {
    && |docs| == |originals|
    && forall k :: 0 <= k < |docs| ==> ShortenedAt(docs, originals, k)
  }

  predicate ShortenedAt(docs: seq<Document>, originals: seq<Document>, k: nat)
    requires k < |docs| && k < |originals|
  {
    docs[k] == originals[k].(text := docs[k].text) && docs[k].text <= originals[k].text
  }

  /** The first of the documents with the longest text. */
  predicate IsLongest(docs: seq<Document>, i: nat) {
    && i < |docs|
    && (forall k :: 0 <= k < i ==> |docs[k].text| < |docs[i].text|)
    && (forall k :: i <= k < |docs| ==> |docs[k].text| <= |docs[i].text|)
  }

  function Longest(docs: seq<Document>): (i: nat)
    requires docs != []
    ensures i < |docs|
  {
    if |docs| == 1 then 0
    else
      var i := Longest(docs[..|docs| - 1]);
      if |docs[|docs| - 1].text| > |docs[i].text| then |docs| - 1 else i
  }

  lemma {:induction false} LongestIsLongest(docs: seq<Document>)
    requires docs != []
    ensures IsLongest(docs, Longest(docs))
  {
    if |docs| > 1 {
      var front := docs[..|docs| - 1];
      LongestIsLongest(front);
      assert forall k :: 0 <= k < |front| ==> front[k] == docs[k];
    }
  }

  lemma OnlyOneLongest(docs: seq<Document>, i: nat, j: nat)
    requires IsLongest(docs, i) && IsLongest(docs, j)
    ensures i == j
  {
    assert |docs[j].text| <= |docs[i].text| && |docs[i].text| <= |docs[j].text|;
  }

  function Trimmed(docs: seq<Document>, i: nat): seq<Document>
    requires i < |docs|
  {
    docs[i := docs[i].(text := Clip(docs[i].text))]
  }

  lemma {:induction false} CostsAfterChange(docs: seq<Document>, i: nat, text: string)
    requires i < |docs|
    ensures Costs(docs[i := docs[i].(text := text)]) == Costs(docs) - Cost(docs[i].text) + Cost(text)
    ensures Overheads(docs[i := docs[i].(text := text)]) == Overheads(docs)
  {
    hide Cost;
    var docs' := docs[i := docs[i].(text := text)];
    var front := docs[..|docs| - 1];
    if i == |docs| - 1 {
      assert docs'[..|docs| - 1] == front;
    } else {
      assert docs'[..|docs| - 1] == front[i := front[i].(text := text)];
      CostsAfterChange(front, i, text);
    }
  }

  /** If the texts cost anything, the longest one is not empty, so it can be cut. */
  lemma SomethingToTrim(docs: seq<Document>, i: nat)
    requires IsLongest(docs, i) && Costs(docs) > 0
    ensures docs[i].text != ""
    ensures Clip(docs[i].text) != docs[i].text
    ensures Costs(Trimmed(docs, i)) < Costs(docs)
    ensures Overheads(Trimmed(docs, i)) == Overheads(docs)
  {
    hide Cost, Clip;
    if docs[i].text == "" {
      EmptyTextsCostNothing(docs);
    }
    CostsAfterChange(docs, i, Clip(docs[i].text));
    CostOfPrefix(Clip(docs[i].text), docs[i].text);
  }

  lemma {:induction false} EmptyTextsCostNothing(docs: seq<Document>)
    requires forall k :: 0 <= k < |docs| ==> docs[k].text == ""
    ensures Costs(docs) == 0
  {
    if docs != [] {
      EmptyTextsCostNothing(docs[..|docs| - 1]);
    }
  }

  lemma LongestCanBeTrimmed(docs: seq<Document>, budget: nat)
    requires Costs(docs) > budget
    ensures docs != [] && Costs(Trimmed(docs, Longest(docs))) < Costs(docs)
  {
    LongestIsLongest(docs);
    SomethingToTrim(docs, Longest(docs));
  }

  /** Trimming the longest text until the texts cost no more than the budget. */
  function Fitted(docs: seq<Document>, budget: nat): (r: seq<Document>)
    decreases Costs(docs)
  {
    if Costs(docs) <= budget then docs
    else
      LongestCanBeTrimmed(docs, budget);
      Fitted(Trimmed(docs, Longest(docs)), budget)
  }

  function Share(docs: seq<Document>, budget: nat): nat {
    budget / (if docs == [] then 1 else |docs|)
  }

  /** Every text cut to an equal share of what the empty lines leave. */
  function Shared(docs: seq<Document>, share: nat): (r: seq<Document>)
    ensures |r| == |docs|
  {
    seq(|docs|, k requires 0 <= k < |docs| => docs[k].(text := Stripped(Take(docs[k].text, share))))
  }

  function EmptyCost(docs: seq<Document>): nat {
    |PREFIX| + Breaks(docs) + Overheads(docs)
  }

  predicate AnyChanged(docs: seq<Document>, originals: seq<Document>)
    requires |docs| == |originals|
  {
    exists k :: 0 <= k < |docs| && docs[k].text != originals[k].text
  }

  lemma {:induction false} FittedShortens(docs: seq<Document>, budget: nat)
    ensures Shortened(Fitted(docs, budget), docs)
    ensures Costs(Fitted(docs, budget)) <= budget
    ensures Overheads(Fitted(docs, budget)) == Overheads(docs)
    ensures Fitted(docs, budget) == docs <==> Costs(docs) <= budget
    decreases Costs(docs)
  {
    hide Costs, Overheads, Clip;
    if Costs(docs) <= budget {
    } else {
      LongestCanBeTrimmed(docs, budget);
      LongestIsLongest(docs);
      var i := Longest(docs);
      SomethingToTrim(docs, i);
      var next := Trimmed(docs, i);
      FittedShortens(next, budget);
      assert Fitted(docs, budget) == Fitted(next, budget);
      forall k | 0 <= k < |docs| ensures ShortenedAt(Fitted(docs, budget), docs, k) {
        assert ShortenedAt(Fitted(next, budget), next, k);
      }
    }
  }

  lemma SharedShortens(docs: seq<Document>, share: nat)
    ensures Shortened(Shared(docs, share), docs)
    ensures Overheads(Shared(docs, share)) == Overheads(docs)
  {
    SameOverheads(docs, Shared(docs, share));
  }

  lemma {:induction false} SameOverheads(docs: seq<Document>, other: seq<Document>)
    requires |docs| == |other|
    requires forall k :: 0 <= k < |docs| ==> other[k] == docs[k].(text := other[k].text)
    ensures Overheads(docs) == Overheads(other)
  {
    if docs != [] {
      var n := |docs| - 1;
      SameOverheads(docs[..n], other[..n]);
      assert Tail(docs[n]) == Tail(other[n]);
    }
  }

  /** What `require_all` returns. */
  function PackedAll(docs: seq<Document>, budget: nat): (r: seq<Document>)
    requires EmptyCost(docs) <= budget
  {
    Fitted(Shared(docs, Share(docs, budget - EmptyCost(docs))), budget - EmptyCost(docs))
  }

  /** Once the empty lines fit, nothing is dropped and nothing moves: every document is there, in
      its place, with a beginning of its text, and the context keeps within the budget. */
  lemma EveryDocumentSurvives(docs: seq<Document>, budget: nat)
    requires EmptyCost(docs) <= budget
    ensures Shortened(PackedAll(docs, budget), docs)
    ensures |ContextOf(PackedAll(docs, budget))| <= budget
  {
    hide Fitted, Shared, Costs, Overheads;
    var content := budget - EmptyCost(docs);
    var shared := Shared(docs, Share(docs, content));
    SharedShortens(docs, Share(docs, content));
    FittedShortens(shared, content);
    var all := Fitted(shared, content);
    forall k | 0 <= k < |docs| ensures ShortenedAt(all, docs, k) {
      assert ShortenedAt(all, shared, k) && ShortenedAt(shared, docs, k);
    }
    ContextLength(all);
  }

  /** A bundle is reported as not truncated exactly when every text is within its share, has no
      trailing space and the whole texts fit the budget. */
  lemma UntruncatedIff(docs: seq<Document>, budget: nat)
    requires EmptyCost(docs) <= budget
    requires |PackedAll(docs, budget)| == |docs|
    ensures !AnyChanged(PackedAll(docs, budget), docs) <==>
      && |ContextOf(docs)| <= budget
      && forall k :: 0 <= k < |docs| ==>
           && |docs[k].text| <= Share(docs, budget - EmptyCost(docs))
           && Stripped(docs[k].text) == docs[k].text
  {
    hide Fitted, Costs, Overheads, Stripped, Share;
    var content := budget - EmptyCost(docs);
    var share := Share(docs, content);
    var shared := Shared(docs, share);
    SharedShortens(docs, share);
    FittedShortens(shared, content);
    ContextLength(docs);
    var all := Fitted(shared, content);
    if !AnyChanged(all, docs) {
      forall k | 0 <= k < |docs| ensures shared[k] == docs[k] && all[k] == docs[k] {
        assert ShortenedAt(all, shared, k) && ShortenedAt(shared, docs, k);
      }
      assert shared == docs && all == docs;
      forall k | 0 <= k < |docs| ensures |docs[k].text| <= share && Stripped(docs[k].text) == docs[k].text {
        assert shared[k].text == Stripped(Take(docs[k].text, share));
      }
    }
    if |ContextOf(docs)| <= budget && forall k :: 0 <= k < |docs| ==>
         |docs[k].text| <= share && Stripped(docs[k].text) == docs[k].text {
      assert shared == docs;
      assert all == docs;
    }
  }

  // ---- How much of every text is kept ----

  /** What one of `parties` texts keeps of an equal share of `room` characters: all of it but the
      spaces at its end. */
  predicate ShareOf(kept: string, text: string, parties: nat, room: nat) {
    && kept <= text && |kept| * parties <= room
    && (kept == "" || !IsSpace(kept[|kept| - 1]))
    && forall j :: |kept| <= j < |text| && (j + 1) * parties <= room ==> IsSpace(text[j])
  }

  lemma {:induction false} StrippedExactly(t: string)
    ensures var r := Stripped(t);
      && r <= t && (r == "" || !IsSpace(r[|r| - 1]))
      && forall j :: |r| <= j < |t| ==> IsSpace(t[j])
  {
    hide IsSpace;
    if t != "" && IsSpace(t[|t| - 1]) {
      StrippedExactly(t[..|t| - 1]);
    }
  }

  /** A cut takes the last sixteen characters and the spaces before them. */
  lemma ClipExactly(t: string)
    ensures var r := Clip(t);
      && r <= t && (|r| + 16 <= |t| || r == "") && (r == "" || !IsSpace(r[|r| - 1]))
      && forall j :: |r| <= j < |t| - 16 ==> IsSpace(t[j])
  {
    hide IsSpace, Stripped;
    StrippedExactly(t[..if |t| < STEP then 0 else |t| - STEP]);
  }

  lemma ShareIsWhole(j: nat, parties: nat, room: nat)
    requires parties >= 1
    ensures j * parties <= room <==> j <= room / parties
  {
    if j <= room / parties {
      assert j * parties <= room / parties * parties;
    } else {
      assert j * parties >= (room / parties + 1) * parties;
    }
  }

  lemma EqualShares(docs: seq<Document>, room: nat, k: nat)
    requires k < |docs|
    ensures ShareOf(Shared(docs, Share(docs, room))[k].text, docs[k].text, |docs|, room)
  {
    hide IsSpace, Stripped;
    var share := Share(docs, room);
    var kept := Shared(docs, share)[k].text;
    StrippedExactly(Take(docs[k].text, share));
    ShareIsWhole(|kept|, |docs|, room);
    forall j | |kept| <= j < |docs[k].text| && (j + 1) * |docs| <= room ensures IsSpace(docs[k].text[j]) {
      ShareIsWhole(j + 1, |docs|, room);
      assert Take(docs[k].text, share)[j] == docs[k].text[j];
    }
  }

  /** The text of document `k` is what a cut has left of `before`, which was no shorter than any
      text there now. */
  predicate WasLongest(docs: seq<Document>, originals: seq<Document>, k: nat, before: string)
    requires k < |docs| == |originals|
  {
    && docs[k].text == Clip(before) && before <= originals[k].text
    && forall j :: 0 <= j < |docs| ==> |docs[j].text| <= |before|
  }

  /** No text is cut unless it was the longest, and the last cut was needed. */
  ghost predicate CutFairly(docs: seq<Document>, originals: seq<Document>, room: nat) {
    && |docs| == |originals|
    && (forall k :: 0 <= k < |docs| && docs[k].text != originals[k].text ==>
          exists before :: WasLongest(docs, originals, k, before))
    && (docs != originals ==> exists k, before ::
          0 <= k < |docs| && WasLongest(docs, originals, k, before)
          && Costs(docs[k := docs[k].(text := before)]) > room)
  }

  lemma {:induction false} TrimmingIsFair(docs: seq<Document>, room: nat)
    ensures CutFairly(Fitted(docs, room), docs, room)
    decreases Costs(docs)
  {
    hide Costs, Clip, WasLongest;
    if Costs(docs) > room {
      LongestCanBeTrimmed(docs, room);
      LongestIsLongest(docs);
      var i := Longest(docs);
      var next := Trimmed(docs, i);
      var end := Fitted(docs, room);
      TrimmingIsFair(next, room);
      FittedShortens(next, room);
      OneCutBefore(end, next, docs, i, room);
    }
  }

  lemma OneCutBefore(end: seq<Document>, next: seq<Document>, docs: seq<Document>, i: nat, room: nat)
    requires IsLongest(docs, i) && next == Trimmed(docs, i) && Costs(docs) > room
    requires Shortened(end, next) && CutFairly(end, next, room)
    ensures CutFairly(end, docs, room)
  {
    hide Costs, Clip, WasLongest;
    forall k | 0 <= k < |end| && end[k].text != docs[k].text
      ensures exists before :: WasLongest(end, docs, k, before)
    {
      if end[k].text != next[k].text {
        var before :| WasLongest(end, next, k, before);
        LongestBefore(end, next, docs, i, k, before);
      } else {
        assert k == i && ShortenedAt(end, next, i);
        FirstCutWasLongest(end, docs, i);
      }
    }
    LastCutWasNeeded(end, next, docs, i, room);
  }

  lemma LastCutWasNeeded(end: seq<Document>, next: seq<Document>, docs: seq<Document>, i: nat, room: nat)
    requires IsLongest(docs, i) && next == Trimmed(docs, i) && Costs(docs) > room
    requires Shortened(end, next) && CutFairly(end, next, room)
    ensures exists k, before ::
      0 <= k < |end| && WasLongest(end, docs, k, before) && Costs(end[k := end[k].(text := before)]) > room
  {
    hide Costs, Clip, WasLongest;
    if end == next {
      FirstCutWasLongest(end, docs, i);
      assert end[i := end[i].(text := docs[i].text)] == docs;
    } else {
      var k, before :| 0 <= k < |end| && WasLongest(end, next, k, before)
        && Costs(end[k := end[k].(text := before)]) > room;
      LongestBefore(end, next, docs, i, k, before);
    }
  }

  lemma LongestBefore(end: seq<Document>, next: seq<Document>, docs: seq<Document>, i: nat, k: nat, before: string)
    requires |end| == |next| == |docs| && i < |docs| && k < |docs| && next == Trimmed(docs, i)
    requires WasLongest(end, next, k, before)
    ensures WasLongest(end, docs, k, before)
  {
  }

  lemma FirstCutWasLongest(end: seq<Document>, docs: seq<Document>, i: nat)
    requires IsLongest(docs, i) && Shortened(end, Trimmed(docs, i)) && end[i] == Trimmed(docs, i)[i]
    ensures WasLongest(end, docs, i, docs[i].text)
  {
    forall j | 0 <= j < |end| ensures |end[j].text| <= |docs[i].text| {
      assert ShortenedAt(end, Trimmed(docs, i), j);
    }
  }

  /** Every text starts from an equal share of the room that the empty lines leave, and is cut
      further only while it is the longest and the whole does not fit. */
  lemma EveryTextKeepsItsShare(docs: seq<Document>, budget: nat)
    requires EmptyCost(docs) <= budget
    ensures var shared := Shared(docs, Share(docs, budget - EmptyCost(docs)));
      && (forall k :: 0 <= k < |docs| ==> ShareOf(shared[k].text, docs[k].text, |docs|, budget - EmptyCost(docs)))
      && CutFairly(PackedAll(docs, budget), shared, budget - EmptyCost(docs))
  {
    hide Shared, Share, ShareOf;
    var room := budget - EmptyCost(docs);
    forall k | 0 <= k < |docs| ensures ShareOf(Shared(docs, Share(docs, room))[k].text, docs[k].text, |docs|, room) {
      EqualShares(docs, room, k);
    }
    TrimmingIsFair(Shared(docs, Share(docs, room)), room);
  }

  /** Where nothing needs escaping the equal shares fit at once and the trimming loop never runs. */
  lemma PlainTextNeedsNoTrimming(docs: seq<Document>, budget: nat)
    requires EmptyCost(docs) <= budget
    requires forall k :: 0 <= k < |docs| ==> Cost(docs[k].text) == |docs[k].text|
    ensures PackedAll(docs, budget) == Shared(docs, Share(docs, budget - EmptyCost(docs)))
    ensures forall k :: 0 <= k < |docs| ==>
      ShareOf(PackedAll(docs, budget)[k].text, docs[k].text, |docs|, budget - EmptyCost(docs))
  {
    hide Costs, Cost, Shared, Fitted, Share, ShareOf;
    EveryTextKeepsItsShare(docs, budget);
    var content := budget - EmptyCost(docs);
    var share := Share(docs, content);
    var shared := Shared(docs, share);
    SharedShortens(docs, share);
    forall k | 0 <= k < |docs| ensures Cost(shared[k].text) <= share {
      assert ShortenedAt(shared, docs, k);
      CostOfPrefix(shared[k].text, docs[k].text);
      CostBounds(shared[k].text);
      SharedLength(docs, share, k);
    }
    CostsWithinShares(shared, share);
    SharesFit(docs, content);
    FittedShortens(shared, content);
  }

  lemma SharedLength(docs: seq<Document>, share: nat, k: nat)
    requires k < |docs|
    ensures |Shared(docs, share)[k].text| <= share
  {
  }

  lemma SharesFit(docs: seq<Document>, budget: nat)
    ensures |docs| * Share(docs, budget) <= budget
  {
  }

  lemma {:induction false} CostsWithinShares(docs: seq<Document>, share: nat)
    requires forall k :: 0 <= k < |docs| ==> Cost(docs[k].text) <= share
    ensures Costs(docs) <= |docs| * share
  {
    hide Cost;
    if docs != [] {
      CostsWithinShares(docs[..|docs| - 1], share);
      assert |docs| * share == (|docs| - 1) * share + share;
    }
  }

  method FindLongest(docs: seq<Document>) returns (i: nat)
    requires docs != []
    ensures i == Longest(docs)
  {
    i := 0;
    for k := 1 to |docs|
      invariant IsLongest(docs[..k], i)
    {
      if |docs[k].text| > |docs[i].text| {
        i := k;
      }
    }
    assert docs[..|docs|] == docs;
    LongestIsLongest(docs);
    OnlyOneLongest(docs, i, Longest(docs));
  }

  /** `retrieve_evidence` with `require_all`. The error it raises when nothing is left to trim
      cannot occur: it is the dead branch of the loop. */
  method RetrieveAll(ranked: seq<Document>, budget: nat) returns (r: Result)
    requires budget >= MIN_BUDGET
    ensures EmptyCost(ranked) > budget <==> r == IdentifiersTooLong
    ensures EmptyCost(ranked) <= budget ==> |PackedAll(ranked, budget)| == |ranked|
    ensures EmptyCost(ranked) <= budget ==> r == Packed(
      Bundle(PackedAll(ranked, budget), ContextOf(PackedAll(ranked, budget)),
             AnyChanged(PackedAll(ranked, budget), ranked)))
  {
    hide Costs, Overheads, Shared, Serialized, Lines, Joined, Clip, Share;
    if EmptyCost(ranked) > budget {
      return IdentifiersTooLong;
    }
    var content := budget - EmptyCost(ranked);
    var items := Shared(ranked, Share(ranked, content));
    SharedShortens(ranked, Share(ranked, content));
    EveryDocumentSurvives(ranked, budget);
    ContextLength(items);
    var context := ContextOf(items);
    while |context| > budget
      invariant |items| == |ranked|
      invariant context == ContextOf(items)
      invariant Overheads(items) == Overheads(ranked)
      invariant |context| == EmptyCost(ranked) + Costs(items)
      invariant Fitted(items, content) == PackedAll(ranked, budget)
      decreases |context|
    {
      LongestCanBeTrimmed(items, content);
      LongestIsLongest(items);
      var i := FindLongest(items);
      SomethingToTrim(items, i);
      var shortened := Clip(items[i].text);
      if shortened == items[i].text {
        assert false;
      }
      items := items[i := items[i].(text := shortened)];
      ContextLength(items);
      context := ContextOf(items);
    }
    return Packed(Bundle(items, context, AnyChanged(items, ranked)));
  }

  // ---- Packing a beginning of the ranking ----

  predicate Fits(ranked: seq<Document>, k: nat, budget: nat)
    requires k <= |ranked|
  {
    |ContextOf(ranked[..k])| <= budget
  }

  /** How far the ranking fits: the first document that would not is the last one looked at. */
  function Reach(ranked: seq<Document>, k: nat, budget: nat): (r: nat)
    requires k <= |ranked|
    ensures k <= r <= |ranked|
    decreases |ranked| - k
  {
    if k == |ranked| || !Fits(ranked, k + 1, budget) then k else Reach(ranked, k + 1, budget)
  }

  lemma {:induction false} OneMoreLine(ranked: seq<Document>, k: nat)
    requires k < |ranked|
    ensures |ContextOf(ranked[..k + 1])| ==
      |ContextOf(ranked[..k])| + (if k > 0 then 1 else 0) + |Serialized(ranked[k], ranked[k].text)|
  {
    hide Serialized;
    ContextLength(ranked[..k]);
    ContextLength(ranked[..k + 1]);
    LineLength(ranked[k], ranked[k].text);
    assert ranked[..k + 1][..k] == ranked[..k];
  }

  lemma {:induction false} FewerFit(ranked: seq<Document>, j: nat, k: nat, budget: nat)
    requires j <= k <= |ranked| && Fits(ranked, k, budget)
    ensures Fits(ranked, j, budget)
  {
    hide ContextOf, Serialized;
    if j < k {
      OneMoreLine(ranked, k - 1);
      FewerFit(ranked, j, k - 1, budget);
    }
  }

  /** The reach is the longest beginning of the ranking that fits. */
  lemma {:induction false} ReachIsGreatest(ranked: seq<Document>, k: nat, budget: nat, j: nat)
    requires k <= |ranked| && Fits(ranked, k, budget) && j <= |ranked|
    ensures Fits(ranked, j, budget) <==> j <= Reach(ranked, k, budget)
    decreases |ranked| - k
  {
    hide Fits;
    if k == |ranked| {
      if !Fits(ranked, j, budget) {
        FewerFit(ranked, j, k, budget);
      }
    } else if Fits(ranked, k + 1, budget) {
      ReachIsGreatest(ranked, k + 1, budget, j);
    } else {
      if j <= k {
        FewerFit(ranked, j, k, budget);
      } else if Fits(ranked, j, budget) {
        FewerFit(ranked, k + 1, j, budget);
      }
    }
  }

  predicate LineFits(d: Document, text: string, room: nat) {
    |Serialized(d, text)| <= room
  }

  /** Clipping until the line fits or nothing is left. */
  function ClippedTo(d: Document, text: string, room: nat): (r: string)
    ensures r <= text
    ensures r != "" ==> LineFits(d, r, room)
    decreases |text|
  {
    if LineFits(d, text, room) || text == "" then text else ClippedTo(d, Clip(text), room)
  }

  /** The text the first document starts with when it does not fit as it is. */
  function FirstCut(d: Document, room: nat): string {
    Stripped(Take(d.text, if room < Overhead(d) + 1 then 0 else room - Overhead(d) - 1))
  }

  function ClippedFirst(d: Document, room: nat): seq<Document> {
    var text := ClippedTo(d, FirstCut(d, room), room);
    if text == "" then [] else [d.(text := text)]
  }

  /** What is returned otherwise: a beginning of the ranking, or one clipped document. */
  function PackedPrefix(ranked: seq<Document>, budget: nat): seq<Document>
    requires budget >= MIN_BUDGET
  {
    var k := Reach(ranked, 0, budget);
    if k > 0 || ranked == [] then ranked[..k] else ClippedFirst(ranked[0], budget - |PREFIX|)
  }

  lemma NothingFits(ranked: seq<Document>, budget: nat)
    requires budget >= MIN_BUDGET
    ensures ContextOf([]) == PREFIX && Fits(ranked, 0, budget)
  {
    assert ranked[..0] == [];
  }

  lemma OneLine(d: Document)
    ensures |ContextOf([d])| == |PREFIX| + |Serialized(d, d.text)|
  {
    hide Serialized;
    LineLength(d, d.text);
    ContextLength([d]);
    assert [d][..0] == [];
  }

  /** The context keeps within the budget, whatever is packed: the final check never fires. What
      is packed is the longest beginning of the ranking that fits; when not even the first
      document does, it is that document alone with a non-empty beginning of its text, or
      nothing. */
  lemma PackedPrefixFits(ranked: seq<Document>, budget: nat)
    requires budget >= MIN_BUDGET
    ensures |ContextOf(PackedPrefix(ranked, budget))| <= budget
    ensures var docs := PackedPrefix(ranked, budget);
            || (docs <= ranked && (docs != [] || ranked == [])
                && forall j :: |docs| < j <= |ranked| ==> !Fits(ranked, j, budget))
            || (ranked != [] && !Fits(ranked, 1, budget) && |docs| <= 1
                && (docs != [] ==> docs[0].text != "" && ShortenedAt(docs, ranked, 0) && docs[0].text != ranked[0].text))
  {
    hide Serialized, FirstCut, ContextOf, Reach;
    NothingFits(ranked, budget);
    var k := Reach(ranked, 0, budget);
    ReachIsGreatest(ranked, 0, budget, k);
    if k > 0 || ranked == [] {
      forall j | k < j <= |ranked| ensures !Fits(ranked, j, budget) {
        ReachIsGreatest(ranked, 0, budget, j);
      }
    } else {
      ReachIsGreatest(ranked, 0, budget, 1);
      var d, room := ranked[0], budget - |PREFIX|;
      assert ranked[..1] == [d];
      OneLine(d);
      CutIsBeginning(d, room);
      var text := ClippedTo(d, FirstCut(d, room), room);
      if text != "" {
        OneLine(d.(text := text));
        SameLine(d, text);
      }
    }
  }

  /** The one document that is clipped starts with all that an unescaped line has room for, less
      the spaces at its end, and no cut is made while the line fits. Without characters to escape
      that beginning is what is packed. */
  lemma TheFirstKeepsWhatFits(d: Document, room: nat)
    requires room > Overhead(d)
    ensures ShareOf(FirstCut(d, room), d.text, 1, room - Overhead(d) - 1)
    ensures ClippedTo(d, FirstCut(d, room), room) == FirstCut(d, room)
      || exists before :: before <= FirstCut(d, room) && !LineFits(d, before, room)
           && ClippedTo(d, FirstCut(d, room), room) == Clip(before)
    ensures Cost(d.text) == |d.text| ==> ClippedTo(d, FirstCut(d, room), room) == FirstCut(d, room)
  {
    hide IsSpace, Stripped, Serialized, Cost, Clip;
    var allowed := room - Overhead(d) - 1;
    var cut := FirstCut(d, room);
    StrippedExactly(Take(d.text, allowed));
    forall j | |cut| <= j < |d.text| && j + 1 <= allowed ensures IsSpace(d.text[j]) {
      assert Take(d.text, allowed)[j] == d.text[j];
    }
    LastClipWasNeeded(d, cut, room);
    if Cost(d.text) == |d.text| {
      CostOfPrefix(cut, d.text);
      CostBounds(cut);
      LineLength(d, cut);
    }
  }

  lemma {:induction false} LastClipWasNeeded(d: Document, text: string, room: nat)
    ensures ClippedTo(d, text, room) == text
      || exists before :: before <= text && !LineFits(d, before, room) && ClippedTo(d, text, room) == Clip(before)
    decreases |text|
  {
    hide LineFits, Clip;
    if !LineFits(d, text, room) && text != "" {
      LastClipWasNeeded(d, Clip(text), room);
      if ClippedTo(d, Clip(text), room) != Clip(text) {
        var before :| before <= Clip(text) && !LineFits(d, before, room)
          && ClippedTo(d, Clip(text), room) == Clip(before);
        assert before <= text;
      }
    }
  }

  lemma CutIsBeginning(d: Document, room: nat)
    ensures FirstCut(d, room) <= d.text
  {
  }

  lemma SameLine(d: Document, text: string)
    ensures Serialized(d.(text := text), text) == Serialized(d, text)
  {
  }

  lemma LinesGrow(ranked: seq<Document>, k: nat)
    requires k < |ranked|
    ensures Lines(ranked[..k + 1]) == Lines(ranked[..k]) + [Serialized(ranked[k], ranked[k].text)]
  {
    hide Serialized;
    assert ranked[..k + 1][..k] == ranked[..k];
  }

  /** The clipping of the first document. */
  method ClipFirst(d: Document, room: nat) returns (clipped: string, line: string)
    ensures clipped == ClippedTo(d, FirstCut(d, room), room)
    ensures line == Serialized(d, clipped)
  {
    hide Serialized, Clip;
    var overhead := |Serialized(d, "")|;
    var allowed := if room < overhead + 1 then 0 else room - overhead - 1;
    clipped := Stripped(Take(d.text, allowed));
    line := Serialized(d, clipped);
    while |line| > room && clipped != ""
      invariant line == Serialized(d, clipped)
      invariant ClippedTo(d, clipped, room) == ClippedTo(d, FirstCut(d, room), room)
      decreases |clipped|
    {
      clipped := Clip(clipped);
      line := Serialized(d, clipped);
    }
  }

  /** `retrieve_evidence` without `require_all`. */
  method RetrievePrefix(ranked: seq<Document>, budget: nat) returns (r: Bundle)
    requires budget >= MIN_BUDGET
    ensures r.ranked == PackedPrefix(ranked, budget)
    ensures r.context == ContextOf(r.ranked)
    ensures r.truncated <==> r.ranked != ranked
  {
    hide Serialized, Joined, Clip, ContextOf, ClippedTo, Lines;
    var lines: seq<string> := [];
    var selected: seq<Document> := [];
    var used := |PREFIX|;
    var truncated := false;
    NothingFits(ranked, budget);
    ContextIs([]);
    var i := 0;
    while i < |ranked|
      invariant 0 <= i <= |ranked|
      invariant truncated ==> i < |ranked|
      invariant !truncated ==> selected == ranked[..i] && lines == Lines(selected) && used == |ContextOf(selected)| <= budget
      invariant !truncated ==> Reach(ranked, i, budget) == Reach(ranked, 0, budget)
      invariant truncated ==> selected == PackedPrefix(ranked, budget) && lines == Lines(selected)
      invariant truncated ==> selected != ranked
      decreases |ranked| - i, !truncated
    {
      if truncated {
        break;
      }
      var item := ranked[i];
      var line := Serialized(item, item.text);
      OneMoreLine(ranked, i);
      var remaining := budget - used - (if lines != [] then 1 else 0);
      LineCount(selected);
      if |line| <= remaining {
        LinesGrow(ranked, i);
        lines := lines + [line];
        selected := selected + [item];
        used := used + |line| + (if |lines| > 1 then 1 else 0);
        assert ranked[..i + 1] == ranked[..i] + [item];
        i := i + 1;
        continue;
      }
      if selected == [] && remaining > 120 {
        var clipped, cut := ClipFirst(item, remaining);
        if clipped != "" && |cut| <= remaining {
          lines := lines + [cut];
          selected := selected + [item.(text := clipped)];
          SameLine(item, clipped);
          OneLines(item.(text := clipped));
        }
        CutDiffers(item, remaining);
      }
      truncated := true;
    }
    assert ranked[..|ranked|] == ranked;
    ContextIs(selected);
    PackedPrefixFits(ranked, budget);
    var context := PREFIX + Joined(lines);
    if |context| > budget {
      assert false;
    }
    return Bundle(selected, context, truncated);
  }

  lemma ContextIs(docs: seq<Document>)
    ensures ContextOf(docs) == PREFIX + Joined(Lines(docs))
    ensures docs == [] ==> |ContextOf(docs)| == |PREFIX| && Lines(docs) == []
  {
  }

  lemma LineCount(docs: seq<Document>)
    ensures |Lines(docs)| == |docs|
  {
    ContextLength(docs);
  }

  lemma OneLines(d: Document)
    ensures Lines([d]) == [Serialized(d, d.text)]
  {
    assert [d][..0] == [];
  }

  lemma CutDiffers(d: Document, room: nat)
    requires !LineFits(d, d.text, room)
    ensures ClippedTo(d, FirstCut(d, room), room) == d.text ==> d.text == ""
  {
    CutIsBeginning(d, room);
  }

  /** `retrieve_evidence` on an already ranked list: a context over the budget is never returned,
      in either mode, and only a budget that is too small for the mode is refused. */
  method RetrieveEvidence(ranked: seq<Document>, budget: int, requireAll: bool) returns (r: Result)
    ensures r == BudgetTooSmall <==> budget < 256
    ensures r == IdentifiersTooLong <==> budget >= 256 && requireAll && EmptyCost(ranked) > budget
    ensures r.Packed? ==> r.bundle.context == ContextOf(r.bundle.ranked) && |r.bundle.context| <= budget
    ensures r.Packed? && requireAll ==> Shortened(r.bundle.ranked, ranked)
    ensures r.Packed? ==> (r.bundle.truncated <==> r.bundle.ranked != ranked)
  {
    hide ContextOf, PackedAll, PackedPrefix, EmptyCost;
    if budget < MIN_BUDGET {
      return BudgetTooSmall;
    }
    if requireAll {
      r := RetrieveAll(ranked, budget);
      if r.Packed? {
        EveryDocumentSurvives(ranked, budget);
        ShortenedTextsDiffer(r.bundle.ranked, ranked);
      }
    } else {
      var bundle := RetrievePrefix(ranked, budget);
      PackedPrefixFits(ranked, budget);
      r := Packed(bundle);
    }
  }

  lemma ShortenedTextsDiffer(docs: seq<Document>, originals: seq<Document>)
    requires Shortened(docs, originals)
    ensures AnyChanged(docs, originals) <==> docs != originals
  {
    if !AnyChanged(docs, originals) {
      forall k | 0 <= k < |docs| ensures docs[k] == originals[k] {
        assert ShortenedAt(docs, originals, k);
      }
    }
  }
}
