/**
 Redaction of e-mail addresses in text that leaves the vault
 (backend/agent_work/context.py). The loop is proved against `Scan`, the list of
 replaced spans, and `Splice`, the text with those spans replaced; the lemmas then
 show that the result holds no address that the loop itself would still recognise.
 */
module EmailRedaction {

  const REDACTION := "[REDACTED_EMAIL]"

  predicate IsLetter(c: char) {
    'A' <= c <= 'Z' || 'a' <= c <= 'z'
  }

  predicate IsDigit(c: char) {
    '0' <= c <= '9'
  }

  predicate IsLocal(c: char) {
    IsLetter(c) || IsDigit(c) || c == '.' || c == '_' || c == '%' || c == '+' || c == '-'
  }

  predicate IsDomain(c: char) {
    IsLetter(c) || IsDigit(c) || c == '.' || c == '-'
  }

  /** The labels of a domain: `str.split` on a dot, so that "" has the one label "". */
  function Labels(domain: string): (labels: seq<string>)
    ensures |labels| >= 1
  {
    if domain == "" then [""]
    else if domain[0] == '.' then [""] + Labels(domain[1..])
    else
      var rest := Labels(domain[1..]);
      [[domain[0]] + rest[0]] + rest[1..]
  }

  predicate ValidLabel(name: string) {
    && name != ""
    && name[0] != '-'
    && name[|name| - 1] != '-'
    && forall i :: 0 <= i < |name| ==> IsLetter(name[i]) || IsDigit(name[i]) || name[i] == '-'
  }

  predicate ValidDomain(domain: string) {
    var labels := Labels(domain);
    var top := labels[|labels| - 1];
    && |labels| >= 2
    && |top| >= 2
    && (forall i :: 0 <= i < |top| ==> IsLetter(top[i]))
    && (forall i :: 0 <= i < |labels| ==> ValidLabel(labels[i]))
  }

  /** The start of the run of local-part characters that ends at `at`, no lower than `low`. */
  function LocalStart(text: string, low: nat, at: nat): (start: nat)
    requires low <= at <= |text|
    ensures low <= start <= at
    ensures start < at <==> at > low && IsLocal(text[at - 1])
    decreases at
  {
    if at > low && IsLocal(text[at - 1]) then LocalStart(text, low, at - 1) else at
  }

  /** The end of the run of domain characters that starts at `from`. */
  function RunEnd(text: string, from: nat): (end: nat)
    requires from <= |text|
    ensures from <= end <= |text|
    decreases |text| - from
  {
    if from < |text| && IsDomain(text[from]) then RunEnd(text, from + 1) else from
  }

  /** Drops the dots that close text[low..end]. */
  function TrimDots(text: string, low: nat, end: nat): (trimmed: nat)
    requires low <= end <= |text|
    ensures low <= trimmed <= end
    decreases end
  {
    if end > low && text[end - 1] == '.' then TrimDots(text, low, end - 1) else end
  }

  /** Where the candidate domain of the at-sign at `at` ends. */
  function DomainEnd(text: string, at: nat): (end: nat)
    requires at < |text|
    ensures at < end <= |text|
  {
    TrimDots(text, at + 1, RunEnd(text, at + 1))
  }

  /** The first at-sign from `from` on, or the length of the text. */
  function FindAt(text: string, from: nat): (at: nat)
    requires from <= |text|
    ensures from <= at <= |text|
    ensures at == |text| || text[at] == '@'
    decreases |text| - from
  {
    if from == |text| || text[from] == '@' then from else FindAt(text, from + 1)
  }

  lemma {:induction false} LocalRun(text: string, low: nat, at: nat)
    requires low <= at <= |text|
    ensures forall k :: LocalStart(text, low, at) <= k < at ==> IsLocal(text[k])
    ensures LocalStart(text, low, at) == low || !IsLocal(text[LocalStart(text, low, at) - 1])
    decreases at
  {
    if at > low && IsLocal(text[at - 1]) {
      LocalRun(text, low, at - 1);
    }
  }

  lemma {:induction false} DomainRun(text: string, from: nat)
    requires from <= |text|
    ensures forall k :: from <= k < RunEnd(text, from) ==> IsDomain(text[k])
    ensures RunEnd(text, from) == |text| || !IsDomain(text[RunEnd(text, from)])
    decreases |text| - from
  {
    if from < |text| && IsDomain(text[from]) {
      DomainRun(text, from + 1);
    }
  }

  lemma {:induction false} FindAtIsFirst(text: string, from: nat)
    requires from <= |text|
    ensures forall k :: from <= k < FindAt(text, from) ==> text[k] != '@'
    decreases |text| - from
  {
    if from < |text| && text[from] != '@' {
      FindAtIsFirst(text, from + 1);
    }
  }

  datatype Span = Span(start: nat, end: nat)

  /** The spans that the scan replaces once everything before `cursor` is settled and
      every at-sign before `from` has been looked at. */
  function Scan(text: string, cursor: nat, from: nat): seq<Span>
    requires cursor <= from <= |text|
    decreases |text| - from
  {
    var at := FindAt(text, from);
    if at == |text| then []
    else
      var start := LocalStart(text, cursor, at);
      var end := DomainEnd(text, at);
      if start < at && ValidDomain(text[at + 1..end])
      then [Span(start, end)] + Scan(text, end, end)
      else Scan(text, cursor, at + 1)
  }

  /** The spans lie in text[cursor..], in order and apart. */
  predicate Placed(text: string, cursor: nat, spans: seq<Span>)
    decreases spans
  {
    if spans == [] then cursor <= |text|
    else
      && cursor <= spans[0].start < spans[0].end <= |text|
      && Placed(text, spans[0].end, spans[1..])
  }

  /** text[cursor..] with every span replaced by `mark` and all else copied in order. */
  function Splice(text: string, cursor: nat, spans: seq<Span>, mark: string): string
    requires Placed(text, cursor, spans)
    decreases spans
  {
    if spans == [] then text[cursor..]
    else text[cursor..spans[0].start] + mark + Splice(text, spans[0].end, spans[1..], mark)
  }

  /** One local part, one at-sign and one valid domain, and nothing else. */
  ghost predicate IsAddress(s: string) {
    exists at :: 0 < at < |s| && IsAddressAt(s, at)
  }

  ghost predicate IsAddressAt(s: string, at: int) {
    && 0 < at < |s|
    && s[at] == '@'
    && (forall k :: 0 <= k < at ==> IsLocal(s[k]))
    && (forall k :: at < k < |s| ==> IsDomain(s[k]))
    && ValidDomain(s[at + 1..])
  }

  lemma {:induction false} ScanIsPlaced(text: string, cursor: nat, from: nat)
    requires cursor <= from <= |text|
    ensures Placed(text, cursor, Scan(text, cursor, from))
    decreases |text| - from
  {
    hide ValidDomain, FindAt;
    var at := FindAt(text, from);
    if at < |text| {
      var start := LocalStart(text, cursor, at);
      var end := DomainEnd(text, at);
      if start < at && ValidDomain(text[at + 1..end]) {
        ScanIsPlaced(text, end, end);
        assert Scan(text, cursor, from)[1..] == Scan(text, end, end);
      } else {
        ScanIsPlaced(text, cursor, at + 1);
      }
    }
  }

  ghost predicate ReplacesAddress(text: string, span: Span) {
    span.start < span.end <= |text| && IsAddress(text[span.start..span.end])
  }

  lemma SpanIsAddress(text: string, start: nat, at: nat, end: nat)
    requires start < at < end <= |text| && text[at] == '@'
    requires forall k :: start <= k < at ==> IsLocal(text[k])
    requires forall k :: at < k < end ==> IsDomain(text[k])
    requires ValidDomain(text[at + 1..end])
    ensures ReplacesAddress(text, Span(start, end))
  {
    var s := text[start..end];
    assert s[at - start + 1..] == text[at + 1..end];
    assert IsAddressAt(s, at - start);
  }

  /** Every replaced span is one whole address. */
  lemma {:induction false} OnlyAddressesAreReplaced(text: string, cursor: nat, from: nat)
    requires cursor <= from <= |text|
    ensures forall span :: span in Scan(text, cursor, from) ==> ReplacesAddress(text, span)
    decreases |text| - from
  {
    hide ValidDomain, ReplacesAddress, IsDomain, LocalStart;
    var at := FindAt(text, from);
    if at < |text| {
      var start := LocalStart(text, cursor, at);
      var end := DomainEnd(text, at);
      if start < at && ValidDomain(text[at + 1..end]) {
        LocalRun(text, cursor, at);
        DomainRun(text, at + 1);
        SpanIsAddress(text, start, at, end);
        OnlyAddressesAreReplaced(text, end, end);
      } else {
        OnlyAddressesAreReplaced(text, cursor, at + 1);
      }
    }
  }

  /** The redacted text. */
  function Redacted(text: string): string {
    ScanIsPlaced(text, 0, 0);
    Splice(text, 0, Scan(text, 0, 0), REDACTION)
  }

  /** Python's "".join. */
  function Join(pieces: seq<string>): string {
    if pieces == [] then "" else Join(pieces[..|pieces| - 1]) + pieces[|pieces| - 1]
  }

  lemma JoinSnoc(pieces: seq<string>, piece: string)
    ensures Join(pieces + [piece]) == Join(pieces) + piece
  {
    assert (pieces + [piece])[..|pieces|] == pieces;
  }

  /** `result` is `head` followed by what the rest of the text still becomes. */
  ghost predicate Progress(text: string, head: string, cursor: nat, from: nat, mark: string, result: string)
    requires cursor <= from <= |text|
  {
    && Placed(text, cursor, Scan(text, cursor, from))
    && head + Splice(text, cursor, Scan(text, cursor, from), mark) == result
  }

  lemma ProgressAtHit(text: string, head: string, cursor: nat, from: nat, at: nat, start: nat, end: nat,
                      mark: string, result: string)
    requires cursor <= from <= |text| && Progress(text, head, cursor, from, mark, result)
    requires at == FindAt(text, from) < |text|
    requires start == LocalStart(text, cursor, at) < at && end == DomainEnd(text, at)
    requires ValidDomain(text[at + 1..end])
    ensures Progress(text, head + text[cursor..start] + mark, end, end, mark, result)
  {
    hide ValidDomain, LocalStart, DomainEnd;
    ScanIsPlaced(text, end, end);
    var rest := Scan(text, end, end);
    assert Scan(text, cursor, from) == [Span(start, end)] + rest;
    SpliceFirst(text, cursor, Span(start, end), rest, mark);
  }

  lemma ProgressAtStart(text: string)
    ensures Progress(text, "", 0, 0, REDACTION, Redacted(text))
  {
    ScanIsPlaced(text, 0, 0);
  }

  lemma ProgressAtMiss(text: string, head: string, cursor: nat, from: nat, at: nat, mark: string, result: string)
    requires cursor <= from <= |text| && Progress(text, head, cursor, from, mark, result)
    requires at == FindAt(text, from) < |text|
    requires !(LocalStart(text, cursor, at) < at && ValidDomain(text[at + 1..DomainEnd(text, at)]))
    ensures Progress(text, head, cursor, at + 1, mark, result)
  {
    hide ValidDomain, LocalStart, DomainEnd, Splice, Placed;
  }

  lemma ProgressAtEnd(text: string, head: string, cursor: nat, from: nat, mark: string, result: string)
    requires cursor <= from <= |text| && Progress(text, head, cursor, from, mark, result)
    requires FindAt(text, from) == |text|
    ensures head + text[cursor..] == result
  {
  }

  lemma SpliceFirst(text: string, cursor: nat, span: Span, rest: seq<Span>, mark: string)
    requires cursor <= span.start < span.end <= |text| && Placed(text, span.end, rest)
    ensures Placed(text, cursor, [span] + rest)
    ensures Splice(text, cursor, [span] + rest, mark)
         == text[cursor..span.start] + mark + Splice(text, span.end, rest, mark)
  {
    assert ([span] + rest)[1..] == rest;
  }

  lemma JoinPair(pieces: seq<string>, x: string, y: string)
    ensures Join(pieces + [x, y]) == Join(pieces) + x + y
  {
    JoinSnoc(pieces, x);
    JoinSnoc(pieces + [x], y);
    assert pieces + [x, y] == pieces + [x] + [y];
  }

  /** Walks back over the local part, never into text already settled. */
  method FindStart(text: string, cursor: nat, atIndex: nat) returns (start: nat)
    requires cursor <= atIndex <= |text|
    ensures start == LocalStart(text, cursor, atIndex)
  {
    start := atIndex;
    while start > cursor && IsLocal(text[start - 1])
      invariant cursor <= start <= atIndex
      invariant LocalStart(text, cursor, start) == LocalStart(text, cursor, atIndex)
    {
      start := start - 1;
    }
  }

  /** Walks over the domain characters, then back over the dots that close them. */
  method FindEnd(text: string, atIndex: nat) returns (end: nat)
    requires atIndex < |text|
    ensures end == DomainEnd(text, atIndex)
  {
    end := atIndex + 1;
    while end < |text| && IsDomain(text[end])
      invariant atIndex + 1 <= end <= |text|
      invariant RunEnd(text, end) == RunEnd(text, atIndex + 1)
    {
      end := end + 1;
    }
    while end > atIndex + 1 && text[end - 1] == '.'
      invariant atIndex + 1 <= end <= |text|
      invariant TrimDots(text, atIndex + 1, end) == DomainEnd(text, atIndex)
    {
      end := end - 1;
    }
  }

  /** The scan as a loop over the at-signs, collecting the pieces of the result. */
  method RedactEmails(text: string) returns (redacted: string)
    ensures redacted == Redacted(text)
  {
    hide Progress, Scan, Splice, Placed, ValidDomain, LocalStart, DomainEnd, FindAt, Redacted;
    var mark := REDACTION;
    var pieces: seq<string> := [];
    var cursor, searchFrom := 0, 0;
    ProgressAtStart(text);
    var atIndex := FindAt(text, searchFrom);
    while atIndex < |text|
      invariant 0 <= cursor <= searchFrom <= |text|
      invariant atIndex == FindAt(text, searchFrom)
      invariant Progress(text, Join(pieces), cursor, searchFrom, mark, Redacted(text))
      decreases |text| - searchFrom
    {
      var start := FindStart(text, cursor, atIndex);
      var end := FindEnd(text, atIndex);
      if start < atIndex && ValidDomain(text[atIndex + 1..end]) {
        ProgressAtHit(text, Join(pieces), cursor, searchFrom, atIndex, start, end, mark, Redacted(text));
        JoinPair(pieces, text[cursor..start], mark);
        pieces := pieces + [text[cursor..start], mark];
        cursor := end;
        searchFrom := end;
      } else {
        ProgressAtMiss(text, Join(pieces), cursor, searchFrom, atIndex, mark, Redacted(text));
        searchFrom := atIndex + 1;
      }
      atIndex := FindAt(text, searchFrom);
    }
    ProgressAtEnd(text, Join(pieces), cursor, searchFrom, mark, Redacted(text));
    JoinSnoc(pieces, text[cursor..]);
    pieces := pieces + [text[cursor..]];
    redacted := Join(pieces);
  }

  // --- What the redacted text no longer holds ---

  /** The at-sign at `i` would be replaced by a scan of `s` that has replaced nothing so far. */
  predicate Hot(s: string, i: nat)
    requires i < |s|
  {
    s[i] == '@' && i > 0 && IsLocal(s[i - 1]) && ValidDomain(s[i + 1..DomainEnd(s, i)])
  }

  ghost predicate Clean(s: string) {
    forall i :: 0 <= i < |s| ==> !Hot(s, i)
  }

  lemma {:induction false} RunEndShift(a: string, b: string, from: nat)
    requires from <= |b|
    ensures RunEnd(a + b, |a| + from) == |a| + RunEnd(b, from)
    decreases |b| - from
  {
    if from < |b| && IsDomain(b[from]) {
      RunEndShift(a, b, from + 1);
    }
  }

  lemma {:induction false} TrimShift(a: string, b: string, low: nat, end: nat)
    requires low <= end <= |b|
    ensures TrimDots(a + b, |a| + low, |a| + end) == |a| + TrimDots(b, low, end)
    decreases end
  {
    if end > low && b[end - 1] == '.' {
      TrimShift(a, b, low, end - 1);
    }
  }

  /** A domain does not depend on what comes before its at-sign. */
  lemma DomainShift(a: string, b: string, i: nat)
    requires i < |b|
    ensures DomainEnd(a + b, |a| + i) == |a| + DomainEnd(b, i)
    ensures (a + b)[|a| + i + 1..DomainEnd(a + b, |a| + i)] == b[i + 1..DomainEnd(b, i)]
  {
    RunEndShift(a, b, i + 1);
    TrimShift(a, b, i + 1, RunEnd(b, i + 1));
  }

  lemma {:induction false} RunEndCut(a: string, b: string, from: nat)
    requires from <= |a|
    requires RunEnd(a, from) < |a| || b == "" || !IsDomain(b[0])
    ensures RunEnd(a + b, from) == RunEnd(a, from)
    decreases |a| - from
  {
    if from < |a| && IsDomain(a[from]) {
      RunEndCut(a, b, from + 1);
    }
  }

  lemma {:induction false} TrimCut(a: string, b: string, low: nat, end: nat)
    requires low <= end <= |a|
    ensures TrimDots(a + b, low, end) == TrimDots(a, low, end)
    decreases end
  {
    if end > low && a[end - 1] == '.' {
      TrimCut(a, b, low, end - 1);
    }
  }

  /** Nor on what comes after the character that closes its run. */
  lemma DomainCut(a: string, b: string, i: nat)
    requires i < |a|
    requires RunEnd(a, i + 1) < |a| || b == "" || !IsDomain(b[0])
    ensures DomainEnd(a + b, i) == DomainEnd(a, i)
    ensures (a + b)[i + 1..DomainEnd(a + b, i)] == a[i + 1..DomainEnd(a, i)]
  {
    RunEndCut(a, b, i + 1);
    TrimCut(a, b, i + 1, RunEnd(a, i + 1));
  }

  /** A clean text stays clean in front of one that starts with neither a domain
      character nor an at-sign. */
  lemma CleanJoin(a: string, b: string)
    requires Clean(a) && Clean(b)
    requires b != "" && !IsDomain(b[0]) && b[0] != '@'
    ensures Clean(a + b)
  {
    forall i | 0 <= i < |a + b|
      ensures !Hot(a + b, i)
    {
      if i < |a| {
        DomainCut(a, b, i);
        assert !Hot(a, i);
      } else if i > |a| {
        DomainShift(a, b, i - |a|);
        assert !Hot(b, i - |a|);
      }
    }
  }

  /** A clean text stays clean behind one that holds no at-sign and ends outside every
      local part. */
  lemma CleanBehind(m: string, b: string)
    requires Clean(b)
    requires m != "" && '@' !in m && !IsLocal(m[|m| - 1])
    ensures Clean(m + b)
  {
    forall i | 0 <= i < |m + b|
      ensures !Hot(m + b, i)
    {
      if i < |m| {
        assert (m + b)[i] in m;
      } else if i > |m| {
        DomainShift(m, b, i - |m|);
        assert !Hot(b, i - |m|);
      }
    }
  }

  /** The marker cannot become part of an address. */
  ghost predicate Inert(mark: string) {
    && mark != "" && '@' !in mark
    && !IsDomain(mark[0])
    && !IsLocal(mark[|mark| - 1])
  }

  /** Two clean texts stay clean with the marker between them. */
  lemma CleanAroundMarker(a: string, mark: string, b: string)
    requires Clean(a) && Clean(b) && Inert(mark)
    ensures Clean(a + mark + b)
  {
    CleanBehind(mark, b);
    assert (mark + b)[0] == mark[0];
    CleanJoin(a, mark + b);
    assert a + mark + b == a + (mark + b);
  }

  /** The text kept in front of a replaced span is clean: no at-sign in it was hot, and the
      span that starts there cannot have shortened a domain into a valid one. */
  lemma KeptTextIsClean(text: string, cursor: nat, start: nat, from: nat)
    requires cursor <= start <= from <= |text| && Settled(text, cursor, from)
    requires start == cursor || !IsLocal(text[start - 1])
    ensures Clean(text[cursor..start])
  {
    var a, b := text[cursor..start], text[start..];
    assert text[cursor..] == a + b;
    forall j | 0 <= j < |a| && a[j] == '@'
      ensures !Hot(a, j)
    {
      if j + 1 == |a| {
        assert a[j + 1..DomainEnd(a, j)] == "";
      } else {
        DomainRun(a, j + 1);
        assert a[|a| - 1] == text[start - 1];
        DomainCut(a, b, j);
        assert !Hot(a + b, j);
      }
    }
  }

  /** No at-sign of text[cursor..from] is hot in text[cursor..]. */
  ghost predicate Settled(text: string, cursor: nat, from: nat)
    requires cursor <= from <= |text|
  {
    forall j :: 0 <= j < from - cursor ==> !Hot(text[cursor..], j)
  }

  /** An at-sign that the scan passes over is not hot. */
  lemma PassedOverIsCold(text: string, cursor: nat, at: nat)
    requires cursor <= at < |text|
    requires !(at > cursor && IsLocal(text[at - 1]) && ValidDomain(text[at + 1..DomainEnd(text, at)]))
    ensures !Hot(text[cursor..], at - cursor)
  {
    DomainOfSuffix(text, cursor, at);
  }

  lemma DomainOfSuffix(text: string, cursor: nat, at: nat)
    requires cursor <= at < |text|
    ensures var tail := text[cursor..]; var j := at - cursor;
      tail[j + 1..DomainEnd(tail, j)] == text[at + 1..DomainEnd(text, at)]
  {
    var a, b := text[..cursor], text[cursor..];
    assert text == a + b;
    DomainShift(a, b, at - cursor);
  }

  lemma SettledToNextAt(text: string, cursor: nat, from: nat, at: nat)
    requires cursor <= from <= at <= |text| && Settled(text, cursor, from)
    requires forall k :: from <= k < at ==> text[k] != '@'
    ensures Settled(text, cursor, at)
  {
  }

  lemma TailIsClean(text: string, cursor: nat, mark: string)
    requires cursor <= |text| && Settled(text, cursor, |text|)
    ensures Clean(Splice(text, cursor, [], mark))
  {
  }

  lemma HitIsClean(text: string, cursor: nat, span: Span, rest: seq<Span>, mark: string)
    requires cursor <= span.start < span.end <= |text| && Placed(text, span.end, rest)
    requires Clean(text[cursor..span.start]) && Inert(mark) && Clean(Splice(text, span.end, rest, mark))
    ensures Placed(text, cursor, [span] + rest)
    ensures Clean(Splice(text, cursor, [span] + rest, mark))
  {
    CleanAroundMarker(text[cursor..span.start], mark, Splice(text, span.end, rest, mark));
    SpliceFirst(text, cursor, span, rest, mark);
  }

  lemma {:induction false} SpliceIsClean(text: string, cursor: nat, from: nat, mark: string)
    requires cursor <= from <= |text| && Settled(text, cursor, from) && Inert(mark)
    ensures Placed(text, cursor, Scan(text, cursor, from))
    ensures Clean(Splice(text, cursor, Scan(text, cursor, from), mark))
    decreases |text| - from
  {
    hide Clean, Hot, ValidDomain, LocalStart, DomainEnd, FindAt, IsLocal;
    ScanIsPlaced(text, cursor, from);
    var at := FindAt(text, from);
    FindAtIsFirst(text, from);
    SettledToNextAt(text, cursor, from, at);
    if at == |text| {
      TailIsClean(text, cursor, mark);
    } else {
      var start := LocalStart(text, cursor, at);
      var end := DomainEnd(text, at);
      if start < at && ValidDomain(text[at + 1..end]) {
        LocalRun(text, cursor, at);
        KeptTextIsClean(text, cursor, start, at);
        SpliceIsClean(text, end, end, mark);
        HitIsClean(text, cursor, Span(start, end), Scan(text, end, end), mark);
      } else {
        PassedOverIsCold(text, cursor, at);
        SpliceIsClean(text, cursor, at + 1, mark);
      }
    }
  }

  /** No address that the scan would recognise survives in its own output. */
  lemma RedactedIsClean(text: string)
    ensures Clean(Redacted(text))
  {
    SpliceIsClean(text, 0, 0, REDACTION);
  }

  lemma {:induction false} CleanScansEmpty(text: string, from: nat)
    requires from <= |text| && Clean(text)
    ensures Scan(text, 0, from) == []
    decreases |text| - from
  {
    var at := FindAt(text, from);
    if at < |text| {
      assert !Hot(text, at);
      CleanScansEmpty(text, at + 1);
    }
  }

  /** Redaction leaves exactly the clean texts unchanged. */
  lemma UnchangedIffClean(text: string)
    ensures Redacted(text) == text <==> Clean(text)
  {
    RedactedIsClean(text);
    if Clean(text) {
      CleanScansEmpty(text, 0);
    }
  }

  /** Redacting twice is redacting once. */
  lemma RedactionIsIdempotent(text: string)
    ensures Redacted(Redacted(text)) == Redacted(text)
  {
    RedactedIsClean(text);
    UnchangedIffClean(Redacted(text));
  }
}
