/**
 SHA-256 inventories (scripts/release_assets.py:84-97, 137-155): one `<digest>  <name>` line per
 asset, in the order of the names with case ignored. Names are ASCII, so folding is lowering.
 */
module ChecksumInventory {
  import opened Wrappers
  import opened Ordering

  datatype Record = Record(sha: string, name: string)

  datatype Refusal = Empty | Malformed | NotPortable | Collision | Unsorted

  datatype Outcome<+T> = Ok(value: T) | Err(refusal: Refusal)

  // ---- Names and lines ----

  predicate IsHex(c: char) {
    '0' <= c <= '9' || 'a' <= c <= 'f'
  }

  predicate IsAlphanumeric(c: char) {
    '0' <= c <= '9' || 'a' <= c <= 'z' || 'A' <= c <= 'Z'
  }

  predicate IsNameChar(c: char) {
    IsAlphanumeric(c) || c == '.' || c == '_' || c == '+' || c == '-'
  }

  predicate Portable(name: string) {
    name != "" && IsAlphanumeric(name[0]) && forall k :: 0 <= k < |name| ==> IsNameChar(name[k])
  }

  predicate IsDigest(s: string) {
    |s| == 64 && forall k :: 0 <= k < |s| ==> IsHex(s[k])
  }

  function Lower(c: char): char {
    if 'A' <= c <= 'Z' then (c as int + 32) as char else c
  }

  function Folded(name: string): string {
    seq(|name|, k requires 0 <= k < |name| => Lower(name[k]))
  }

  predicate ByName(a: Record, b: Record) {
    Before(Folded(a.name), Folded(b.name))
  }

  predicate Valid(r: Record) {
    IsDigest(r.sha) && Portable(r.name)
  }

  /** No two names that differ in case only. */
  predicate DistinctNames(records: seq<Record>) {
    forall j, k :: 0 <= j < k < |records| ==> Folded(records[j].name) != Folded(records[k].name)
  }

  predicate AllValid(records: seq<Record>) {
    forall k :: 0 <= k < |records| ==> Valid(records[k])
  }

  function Line(r: Record): string {
    r.sha + "  " + r.name
  }

  /** One line read back. */
  function Matched(line: string): Option<Record> {
    if |line| > 66 && IsDigest(line[..64]) && line[64] == ' ' && line[65] == ' ' && Portable(line[66..])
    then Some(Record(line[..64], line[66..])) else None
  }

  predicate OneOf(c: char, low: char, high: char) {
    low <= c <= high
  }

  /** A line is 64 hexadecimal digits in lower case, two spaces, and a name that starts with a letter
      or digit and goes on with letters, digits, dots, underscores, plus signs and hyphens. */
  lemma LinesExactly(line: string)
    ensures Matched(line).Some? <==>
      && |line| >= 67 && line[64..66] == "  "
      && (forall k :: 0 <= k < 64 ==> OneOf(line[k], '0', '9') || OneOf(line[k], 'a', 'f'))
      && (OneOf(line[66], '0', '9') || OneOf(line[66], 'a', 'z') || OneOf(line[66], 'A', 'Z'))
      && (forall k :: 66 <= k < |line| ==>
            || OneOf(line[k], '0', '9') || OneOf(line[k], 'a', 'z') || OneOf(line[k], 'A', 'Z')
            || line[k] == '.' || line[k] == '_' || line[k] == '+' || line[k] == '-')
    ensures Matched(line).Some? ==> Matched(line).value.sha == line[..64] && Matched(line).value.name == line[66..]
  {
    if |line| >= 67 {
      assert line[64..66] == [line[64], line[65]];
      assert forall k :: 0 <= k < 64 ==> line[..64][k] == line[k];
      assert forall k :: 66 <= k < |line| ==> line[66..][k - 66] == line[k];
    }
  }

  /** Two characters that are the same letter, or the same character. */
  predicate SameLetter(a: char, b: char) {
    a == b || ('A' <= a <= 'Z' && b as int == a as int + 32) || ('A' <= b <= 'Z' && a as int == b as int + 32)
  }

  /** Names are told apart up to the case of their letters, and in no other way. */
  lemma FoldingIgnoresCase(a: string, b: string)
    ensures Folded(a) == Folded(b) <==> |a| == |b| && forall k :: 0 <= k < |a| ==> SameLetter(a[k], b[k])
  {
    if Folded(a) == Folded(b) {
      assert |Folded(a)| == |a| && |Folded(b)| == |b|;
      forall k | 0 <= k < |a| ensures SameLetter(a[k], b[k]) {
        assert Folded(a)[k] == Folded(b)[k];
      }
    }
  }

  lemma LineIsMatched(r: Record)
    requires Valid(r)
    ensures Matched(Line(r)) == Some(r)
  {
    assert Line(r)[..64] == r.sha && Line(r)[66..] == r.name;
  }

  lemma MatchedIsLine(line: string)
    requires Matched(line).Some?
    ensures Valid(Matched(line).value) && Line(Matched(line).value) == line
  {
    assert line == line[..64] + "  " + line[66..];
  }

  // ---- Lines of a text ----

  /** Where `str.splitlines` breaks. */
  predicate IsBreak(c: char) {
    '\n' <= c <= '\r' || '\U{001C}' <= c <= '\U{001E}' || c == '\U{0085}' || c == '\U{2028}' || c == '\U{2029}'
  }

  /** Line feed, vertical tab, form feed, carriage return, the three separators, next line, and the
      line and paragraph separators. */
  lemma BreaksExactly(c: char)
    ensures IsBreak(c) <==> c as int in {10, 11, 12, 13, 28, 29, 30, 133, 8232, 8233}
  {
  }

  predicate Unbroken(line: string) {
    forall k :: 0 <= k < |line| ==> !IsBreak(line[k])
  }

  function FirstBreak(text: string): (k: nat)
    ensures k <= |text|
    ensures Unbroken(text[..k])
    ensures k < |text| ==> IsBreak(text[k])
  {
    if text == "" || IsBreak(text[0]) then 0
    else
      assert text[..1 + FirstBreak(text[1..])] == [text[0]] + text[1..][..FirstBreak(text[1..])];
      1 + FirstBreak(text[1..])
  }

  function BreakWidth(text: string, k: nat): nat
    requires k < |text|
  {
    if text[k] == '\r' && k + 1 < |text| && text[k + 1] == '\n' then 2 else 1
  }

  /** `str.splitlines` */
  function SplitLines(text: string): seq<string>
    decreases |text|
  {
    if text == "" then []
    else
      var k := FirstBreak(text);
      if k == |text| then [text] else [text[..k]] + SplitLines(text[k + BreakWidth(text, k)..])
  }

  function Unlines(lines: seq<string>): string {
    if lines == [] then "" else lines[0] + "\n" + Unlines(lines[1..])
  }

  /** Every break is a newline, and the text ends with one. */
  predicate PlainBreaks(text: string) {
    && text != "" && text[|text| - 1] == '\n'
    && forall k :: 0 <= k < |text| && IsBreak(text[k]) ==> text[k] == '\n'
  }

  lemma {:induction false} BreakIsFirst(text: string, k: nat)
    requires k < |text| && IsBreak(text[k]) && Unbroken(text[..k])
    ensures FirstBreak(text) == k
  {
    if k > 0 {
      assert !IsBreak(text[..k][0]);
      assert text[1..][..k - 1] == text[..k][1..];
      BreakIsFirst(text[1..], k - 1);
    }
  }

  lemma BreakAfter(line: string, rest: string)
    requires Unbroken(line)
    ensures FirstBreak(line + "\n" + rest) == |line|
  {
    var text := line + "\n" + rest;
    assert text[..|line|] == line;
    BreakIsFirst(text, |line|);
  }

  lemma {:induction false} SplitUnlines(lines: seq<string>)
    requires forall k :: 0 <= k < |lines| ==> Unbroken(lines[k])
    ensures SplitLines(Unlines(lines)) == lines
  {
    if lines != [] {
      var rest := Unlines(lines[1..]);
      var text := Unlines(lines);
      BreakAfter(lines[0], rest);
      SplitUnlines(lines[1..]);
      assert text[..|lines[0]|] == lines[0] && text[|lines[0]| + 1..] == rest;
    }
  }

  /** A break that is not a newline, or no break at the end, is not what writing back gives. */
  lemma OddBreak(text: string, k: nat)
    requires k == FirstBreak(text) && text != ""
    requires k == |text| || text[k] != '\n'
    ensures Unlines(SplitLines(text)) != text && !PlainBreaks(text)
  {
    if k == |text| {
      assert Unlines([text]) == text + "\n";
      assert text == text[..k];
    } else {
      var line, rest := text[..k], text[k + BreakWidth(text, k)..];
      var back := Unlines([line] + SplitLines(rest));
      assert ([line] + SplitLines(rest))[1..] == SplitLines(rest);
      assert back[k] == '\n';
    }
  }

  lemma PlainRest(text: string, k: nat)
    requires k < |text| - 1 && text[k] == '\n' && Unbroken(text[..k])
    ensures PlainBreaks(text) <==> PlainBreaks(text[k + 1..])
  {
    var rest := text[k + 1..];
    if PlainBreaks(rest) {
      forall j | 0 <= j < |text| ensures IsBreak(text[j]) ==> text[j] == '\n' {
        if j < k {
          assert !IsBreak(text[..k][j]);
        } else if j > k {
          assert rest[j - k - 1] == text[j];
        }
      }
    }
  }

  lemma OneLine(line: string)
    requires Unbroken(line)
    ensures PlainBreaks(line + "\n")
  {
  }

  lemma SplitFirst(text: string, k: nat)
    requires k == FirstBreak(text) < |text| && text[k] == '\n'
    ensures SplitLines(text) == [text[..k]] + SplitLines(text[k + 1..])
  {
    hide Unbroken, FirstBreak;
    assert BreakWidth(text, k) == 1;
  }

  lemma UnlinesFirst(line: string, lines: seq<string>)
    ensures Unlines([line] + lines) == line + "\n" + Unlines(lines)
  {
    assert ([line] + lines)[1..] == lines;
  }

  lemma CutAt(text: string, k: nat)
    requires k < |text| && text[k] == '\n'
    ensures text == text[..k] + "\n" + text[k + 1..]
  {
  }

  lemma SameBeginning(a: string, b: string, c: string)
    ensures a + b == a + c <==> b == c
  {
    assert (a + b)[|a|..] == b && (a + c)[|a|..] == c;
  }

  /** Writing the lines of a text back gives the text exactly when its breaks are plain. */
  lemma {:induction false} UnlinesSplit(text: string)
    requires text != ""
    ensures Unlines(SplitLines(text)) == text <==> PlainBreaks(text)
    decreases |text|
  {
    hide PlainBreaks, Unlines, SplitLines;
    var k := FirstBreak(text);
    if k == |text| || text[k] != '\n' {
      OddBreak(text, k);
    } else {
      var line, rest := text[..k], text[k + 1..];
      SplitFirst(text, k);
      UnlinesFirst(line, SplitLines(rest));
      CutAt(text, k);
      SameBeginning(line + "\n", Unlines(SplitLines(rest)), rest);
      if rest == "" {
        assert text == line + "\n";
        OneLine(line);
        NoLines();
      } else {
        UnlinesSplit(rest);
        PlainRest(text, k);
      }
    }
  }

  lemma NoLines()
    ensures Unlines(SplitLines("")) == ""
  {
  }

  // ---- Printing ----

  function Lines(records: seq<Record>): seq<string> {
    seq(|records|, k requires 0 <= k < |records| => Line(records[k]))
  }

  function Ordered(records: seq<Record>): seq<Record> {
    Sort(ByName, records)
  }

  /** `checksum_text` */
  function Printed(records: seq<Record>): string {
    Unlines(Lines(Ordered(records)))
  }

  // ---- Parsing ----

  function AllMatched(lines: seq<string>): Option<seq<Record>> {
    if lines == [] then Some([])
    else
      var front := AllMatched(lines[..|lines| - 1]);
      var last := Matched(lines[|lines| - 1]);
      if front.Some? && last.Some? then Some(front.value + [last.value]) else None
  }

  /** What a text parses to: the lines must all match, the names must be distinct with case
      ignored, and they must be in order. */
  function Parsed(text: string): Outcome<seq<Record>> {
    var records := AllMatched(SplitLines(text));
    if text == "" then Err(Empty)
    else if records.None? then Err(Malformed)
    else if !DistinctNames(records.value) then Err(Collision)
    else if records.value != Ordered(records.value) then Err(Unsorted)
    else Ok(records.value)
  }

  lemma {:induction false} MatchedLines(lines: seq<string>, k: nat)
    requires AllMatched(lines).Some?
    ensures |AllMatched(lines).value| == |lines|
    ensures k < |lines| ==> Matched(lines[k]) == Some(AllMatched(lines).value[k])
  {
    if lines != [] {
      MatchedLines(lines[..|lines| - 1], if k < |lines| - 1 then k else 0);
    }
  }

  lemma {:induction false} UnmatchedLine(lines: seq<string>, k: nat)
    requires k < |lines| && Matched(lines[k]).None?
    ensures AllMatched(lines).None?
  {
    if k < |lines| - 1 {
      UnmatchedLine(lines[..|lines| - 1], k);
    }
  }

  lemma {:induction false} LinesAreMatched(records: seq<Record>)
    requires AllValid(records)
    ensures AllMatched(Lines(records)) == Some(records)
  {
    if records != [] {
      var n := |records| - 1;
      LinesAreMatched(records[..n]);
      LineIsMatched(records[n]);
      assert Lines(records)[..n] == Lines(records[..n]);
      assert records == records[..n] + [records[n]];
    }
  }

  lemma MatchedAreLines(lines: seq<string>)
    requires AllMatched(lines).Some?
    ensures AllValid(AllMatched(lines).value) && Lines(AllMatched(lines).value) == lines
  {
    var records := AllMatched(lines).value;
    MatchedLines(lines, 0);
    forall k | 0 <= k < |lines| ensures Valid(records[k]) && Line(records[k]) == lines[k] {
      MatchedLines(lines, k);
      MatchedIsLine(lines[k]);
    }
  }

  /** `reject_casefold_collisions`; the dictionary of folded names only grows. */
  method RejectCollisions(records: seq<Record>) returns (distinct: bool)
    ensures distinct <==> DistinctNames(records)
  {
    var folded: set<string> := {};
    for i := 0 to |records|
      invariant DistinctNames(records[..i])
      invariant folded == set k | 0 <= k < i :: Folded(records[k].name)
    {
      var key := Folded(records[i].name);
      if key in folded {
        return false;
      }
      folded := folded + {key};
    }
    assert records[..|records|] == records;
    return true;
  }

  /** `parse_checksum_text` */
  method ParseChecksumText(text: string) returns (r: Outcome<seq<Record>>)
    ensures r == Parsed(text)
  {
    hide Matched, SplitLines;
    var lines := SplitLines(text);
    SomeLine(text);
    if lines == [] {
      return Err(Empty);
    }
    var records: seq<Record> := [];
    for i := 0 to |lines|
      invariant AllMatched(lines[..i]) == Some(records)
    {
      var found := Matched(lines[i]);
      if found.None? {
        UnmatchedLine(lines, i);
        return Err(Malformed);
      }
      assert lines[..i + 1][..i] == lines[..i];
      records := records + [found.value];
    }
    assert lines[..|lines|] == lines;
    var distinct := RejectCollisions(records);
    if !distinct {
      return Err(Collision);
    }
    if records != Sort(ByName, records) {
      return Err(Unsorted);
    }
    return Ok(records);
  }

  lemma SomeLine(text: string)
    ensures SplitLines(text) == [] <==> text == ""
  {
  }

  // ---- Round trips ----

  lemma ByNameIsWeak()
    ensures WeakOrder(ByName)
  {
    forall a, b ensures !(ByName(a, b) && ByName(b, a)) {
      NotBeforeBoth(Folded(a.name), Folded(b.name));
    }
    forall a, b, c ensures !ByName(b, a) && !ByName(c, b) ==> !ByName(c, a) {
      BeforeIsTransitive(Folded(a.name), Folded(b.name), Folded(c.name));
    }
  }

  lemma OrderedKeeps(records: seq<Record>)
    requires AllValid(records) && DistinctNames(records)
    ensures AllValid(Ordered(records)) && DistinctNames(Ordered(records))
    ensures Sorted(ByName, Ordered(records)) && multiset(Ordered(records)) == multiset(records)
    ensures Ordered(Ordered(records)) == Ordered(records)
  {
    ByNameIsWeak();
    var s := Ordered(records);
    SortKeeps(ByName, records);
    SortSorts(ByName, records);
    forall k | 0 <= k < |s| ensures Valid(s[k]) {
      assert s[k] in multiset(records);
    }
    PermutedNames(records, s);
    SortedStays(s);
  }

  /** Sorting what is sorted changes nothing. */
  lemma {:induction false} SortedStays(records: seq<Record>)
    requires Sorted(ByName, records)
    ensures Ordered(records) == records
  {
    if records != [] {
      var n := |records| - 1;
      SortedStays(records[..n]);
      assert records == records[..n] + [records[n]];
      assert n > 0 ==> !ByName(records[n], records[n - 1]);
    }
  }

  lemma {:induction false} OccursOnce(records: seq<Record>, j: nat, k: nat)
    requires j < k < |records| && records[j] == records[k]
    ensures multiset(records)[records[j]] >= 2
  {
    var r := records[j];
    assert records == records[..k] + records[k..];
    assert r in multiset(records[..k]) by {
      assert records[..k][j] == r;
    }
    assert r in multiset(records[k..]) by {
      assert records[k..][0] == r;
    }
  }

  lemma {:induction false} DistinctOccurOnce(records: seq<Record>, r: Record)
    requires DistinctNames(records)
    ensures multiset(records)[r] <= 1
  {
    if records != [] {
      var n := |records| - 1;
      DistinctOccurOnce(records[..n], r);
      assert records == records[..n] + [records[n]];
      forall j | 0 <= j < n ensures records[..n][j] != records[n] {
        assert Folded(records[j].name) != Folded(records[n].name);
      }
      assert r == records[n] ==> r !in records[..n];
    }
  }

  /** Distinctness with case ignored does not depend on the order. */
  lemma PermutedNames(a: seq<Record>, b: seq<Record>)
    requires DistinctNames(a) && multiset(a) == multiset(b)
    ensures DistinctNames(b)
  {
    forall j, k | 0 <= j < k < |b| ensures Folded(b[j].name) != Folded(b[k].name) {
      if b[j] == b[k] {
        OccursOnce(b, j, k);
        DistinctOccurOnce(a, b[j]);
      } else {
        assert b[j] in multiset(a) && b[k] in multiset(a);
        var i :| 0 <= i < |a| && a[i] == b[j];
        var l :| 0 <= l < |a| && a[l] == b[k];
        if i < l {
          assert Folded(a[i].name) != Folded(a[l].name);
        } else {
          assert Folded(a[l].name) != Folded(a[i].name);
        }
      }
    }
  }

  lemma UnbrokenLines(records: seq<Record>, k: nat)
    requires AllValid(records) && k < |records|
    ensures Unbroken(Lines(records)[k])
  {
    var r := records[k];
    assert Valid(r);
    forall j | 0 <= j < |Line(r)| ensures !IsBreak(Line(r)[j]) {
      if j < 64 {
        assert IsHex(r.sha[j]);
      } else if j >= 66 {
        assert IsNameChar(r.name[j - 66]);
      }
    }
  }

  /** Printing an inventory and parsing it gives the same records in the order of their folded
      names. */
  lemma ParsePrinted(records: seq<Record>)
    requires records != [] && AllValid(records) && DistinctNames(records)
    ensures Parsed(Printed(records)) == Ok(Ordered(records))
    ensures Sorted(ByName, Ordered(records)) && multiset(Ordered(records)) == multiset(records)
  {
    hide Ordered, AllMatched;
    OrderedKeeps(records);
    var s := Ordered(records);
    assert s != [] by {
      assert records[0] in multiset(s);
    }
    forall k | 0 <= k < |Lines(s)| ensures Unbroken(Lines(s)[k]) {
      UnbrokenLines(s, k);
    }
    SplitUnlines(Lines(s));
    LinesAreMatched(s);
    SomeLine(Printed(records));
  }

  /** Whatever text is accepted, printing what it says gives a text that is accepted with the same
      records; and that text is the original one exactly when the original breaks its lines with
      newlines only and ends with one. */
  lemma PrintParsed(text: string)
    requires Parsed(text).Ok?
    ensures Parsed(Printed(Parsed(text).value)) == Parsed(text)
    ensures Printed(Parsed(text).value) == text <==> PlainBreaks(text)
  {
    hide AllMatched, SplitLines;
    var records := Parsed(text).value;
    SomeLine(text);
    MatchedAreLines(SplitLines(text));
    assert records != [] by {
      MatchedLines(SplitLines(text), 0);
    }
    ParsePrinted(records);
    UnlinesSplit(text);
  }

  const SIXTEEN := "0123456789abcdef"
  const SOLE := Record(SIXTEEN + SIXTEEN + SIXTEEN + SIXTEEN, "a.zip")

  lemma SoleIsValid()
    ensures AllValid([SOLE]) && DistinctNames([SOLE]) && Ordered([SOLE]) == [SOLE]
  {
    var name := "a.zip";
    assert name[0] == 'a' && name[1] == '.' && name[2] == 'z' && name[3] == 'i' && name[4] == 'p';
    assert Portable(name);
    HexDigits();
    SortedStays([SOLE]);
  }

  lemma HexDigits()
    ensures IsDigest(SOLE.sha)
  {
    var s := SIXTEEN;
    assert |s| == 16 && forall k :: 0 <= k < 16 ==> IsHex(s[k]) by {
      assert s[0] == '0' && s[1] == '1' && s[2] == '2' && s[3] == '3' && s[4] == '4' && s[5] == '5' && s[6] == '6'
          && s[7] == '7' && s[8] == '8' && s[9] == '9' && s[10] == 'a' && s[11] == 'b' && s[12] == 'c'
          && s[13] == 'd' && s[14] == 'e' && s[15] == 'f';
    }
  }

  lemma CarriageReturnIsABreak(line: string)
    requires Unbroken(line)
    ensures SplitLines(line + "\r\n") == [line]
    ensures !PlainBreaks(line + "\r\n")
  {
    var text := line + "\r\n";
    assert text[..|line|] == line && text[|line|] == '\r' && text[|line| + 1] == '\n';
    BreakIsFirst(text, |line|);
    assert text[|line| + 2..] == "";
  }

  /** A text with one line that ends as on Windows is accepted, though it is never printed. */
  lemma OtherBreaksAreAccepted()
    ensures var text := Line(SOLE) + "\r\n";
            Parsed(text) == Ok([SOLE]) && Printed([SOLE]) != text
  {
    hide Ordered, SplitLines, PlainBreaks;
    var text := Line(SOLE) + "\r\n";
    SoleIsValid();
    UnbrokenLines([SOLE], 0);
    CarriageReturnIsABreak(Line(SOLE));
    LinesAreMatched([SOLE]);
    assert Lines([SOLE]) == [Line(SOLE)];
    PrintParsed(text);
  }
}
