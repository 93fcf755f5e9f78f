/**
 What a worker reads in the packed context: one line for each document, and in each line the
 text, identity, kind and metadata that were packed (backend/ai/retrieval.py:86-97). The reader
 is the string syntax of JSON (section 7 of RFC 8259), not the inverse of the printer.
 */
module EvidenceLines {
  import opened Wrappers
  import opened EvidencePacking

  // ---- Reading a JSON string ----

  function HexValue(c: char): Option<nat> {
    if '0' <= c <= '9' then Some(c as nat - '0' as nat)
    else if 'a' <= c <= 'f' then Some(c as nat - 'a' as nat + 10)
    else if 'A' <= c <= 'F' then Some(c as nat - 'A' as nat + 10)
    else None
  }

  function HexChar(a: char, b: char, c: char, d: char): Option<char> {
    match (HexValue(a), HexValue(b), HexValue(c), HexValue(d))
    case (Some(i), Some(j), Some(k), Some(l)) =>
      var n := ((i * 16 + j) * 16 + k) * 16 + l;
      if n < 0xD800 then Some(n as char) else None
    case _ => None
  }

  /** The character that one unit of a JSON string stands for, and the length of the unit. */
  function Unit(s: string): Option<(char, nat)> {
    if s == "" || s[0] == '\"' || s[0] < ' ' then None
    else if s[0] != '\\' then Some((s[0], 1))
    else if |s| < 2 then None
    else
      match s[1]
      case '\"' => Some(('\"', 2))
      case '\\' => Some(('\\', 2))
      case '/' => Some(('/', 2))
      case 'b' => Some(('\U{0008}', 2))
      case 'f' => Some(('\U{000C}', 2))
      case 'n' => Some(('\n', 2))
      case 'r' => Some(('\r', 2))
      case 't' => Some(('\t', 2))
      case 'u' =>
        if |s| < 6 || HexChar(s[2], s[3], s[4], s[5]).None? then None
        else Some((HexChar(s[2], s[3], s[4], s[5]).value, 6))
      case _ => None
  }

  /** The string up to the closing quote, and what follows it. */
  function ReadString(s: string): (r: Option<(string, string)>)
    ensures r.Some? ==> |r.value.1| < |s|
    decreases |s|
  {
    if s != "" && s[0] == '\"' then Some(("", s[1..]))
    else
      match Unit(s)
      case None => None
      case Some((c, n)) =>
        if n == 0 || n > |s| then None
        else
          match ReadString(s[n..])
          case None => None
          case Some((t, rest)) => Some(([c] + t, rest))
  }

  function After(s: string, expected: string): Option<string> {
    if expected <= s then Some(s[|expected|..]) else None
  }

  /** A member: its heading up to the opening quote, and the string. */
  function ReadMember(s: string, heading: string): Option<(string, string)> {
    if heading <= s then ReadString(s[|heading|..]) else None
  }

  /** A line with its four members in the order of their names. */
  function ReadLine(line: string): Option<Document> {
    match ReadMember(line, "{\"content\":\"")
    case None => None
    case Some((content, a)) =>
      match ReadMember(a, ",\"id\":\"")
      case None => None
      case Some((id, b)) =>
        match ReadMember(b, ",\"kind\":\"")
        case None => None
        case Some((kind, c)) => ReadLast(id, kind, content, c)
  }

  function ReadLast(id: string, kind: string, content: string, rest: string): Option<Document> {
    var heading, n := ",\"metadata\":", |rest|;
    if heading <= rest && n > |heading| && rest[n - 1] == '}'
    then Some(Document(id, kind, content, rest[|heading|..n - 1]))
    else None
  }

  // ---- What was written is read ----

  lemma EscapedUnit(c: char, rest: string)
    ensures Unit(EscapeChar(c) + rest) == Some((c, |EscapeChar(c)|))
    ensures EscapeChar(c)[0] != '\"'
    ensures '\n' !in EscapeChar(c)
  {
    if c < ' ' {
      HexOf(c as nat / 16);
      HexOf(c as nat % 16);
      HexOf(0);
    }
  }

  lemma HexOf(n: nat)
    requires n < 16
    ensures HexValue(Hex(n)) == Some(n) && Hex(n) != '\n'
  {
  }

  lemma {:induction false} EscapeFront(t: string)
    requires t != ""
    ensures Escape(t) == EscapeChar(t[0]) + Escape(t[1..])
  {
    hide EscapeChar;
    if |t| == 1 {
      assert t[..0] == "" && t[1..] == "";
    } else {
      var front := t[..|t| - 1];
      EscapeFront(front);
      assert front[1..] == t[1..][..|t| - 2];
      assert t[1..][|t| - 2] == t[|t| - 1];
    }
  }

  /** The reader gets back every text, whatever is in it, and what comes after it. */
  lemma {:induction false} StringsAreReadBack(t: string, rest: string)
    ensures ReadString(Escape(t) + "\"" + rest) == Some((t, rest))
    decreases |t|
  {
    hide Unit, EscapeChar;
    var s := Escape(t) + "\"" + rest;
    if t == "" {
      assert s[1..] == rest;
    } else {
      EscapeFront(t);
      var tail := Escape(t[1..]) + "\"" + rest;
      assert s == EscapeChar(t[0]) + tail;
      EscapedUnit(t[0], tail);
      assert s[|EscapeChar(t[0])|..] == tail;
      StringsAreReadBack(t[1..], rest);
      assert [t[0]] + t[1..] == t;
    }
  }

  lemma MemberIsReadBack(heading: string, t: string, rest: string)
    ensures ReadMember(heading + (Escape(t) + "\"" + rest), heading) == Some((t, rest))
  {
    hide Escape, ReadString;
    StringsAreReadBack(t, rest);
    assert (heading + (Escape(t) + "\"" + rest))[|heading|..] == Escape(t) + "\"" + rest;
  }

  lemma SerializedMembers(d: Document)
    ensures var c := ",\"metadata\":" + d.metadata + "}";
            var b := ",\"kind\":\"" + (Escape(d.kind) + "\"" + c);
            var a := ",\"id\":\"" + (Escape(d.id) + "\"" + b);
      Serialized(d, d.text) == "{\"content\":\"" + (Escape(d.text) + "\"" + a)
  {
    hide Escape;
    var c := ",\"metadata\":" + d.metadata + "}";
    var b := ",\"kind\":\"" + (Escape(d.kind) + "\"" + c);
    assert "\",\"id\":\"" == "\"" + ",\"id\":\"" && "\",\"kind\":\"" == "\"" + ",\"kind\":\"";
    assert "\",\"metadata\":" == "\"" + ",\"metadata\":";
    assert Tail(d) == "\"" + (",\"id\":\"" + (Escape(d.id) + "\"" + b));
  }

  /** A line says exactly what was packed. */
  lemma LinesAreReadBack(d: Document)
    ensures ReadLine(Serialized(d, d.text)) == Some(d)
  {
    hide Escape, ReadMember, Serialized;
    var c := ",\"metadata\":" + d.metadata + "}";
    var b := ",\"kind\":\"" + (Escape(d.kind) + "\"" + c);
    var a := ",\"id\":\"" + (Escape(d.id) + "\"" + b);
    SerializedMembers(d);
    MemberIsReadBack("{\"content\":\"", d.text, a);
    MemberIsReadBack(",\"id\":\"", d.id, b);
    MemberIsReadBack(",\"kind\":\"", d.kind, c);
    LastIsReadBack(d.id, d.kind, d.text, d.metadata);
  }

  lemma LastIsReadBack(id: string, kind: string, content: string, metadata: string)
    ensures ReadLast(id, kind, content, ",\"metadata\":" + metadata + "}") == Some(Document(id, kind, content, metadata))
  {
    var heading := ",\"metadata\":";
    var rest := heading + metadata + "}";
    assert rest[|heading|..|rest| - 1] == metadata;
  }

  // ---- Lines stay apart ----

  /** The pieces between line breaks. */
  function Split(s: string): (pieces: seq<string>)
    ensures pieces != []
  {
    if s == "" then [""]
    else if s[|s| - 1] == '\n' then Split(s[..|s| - 1]) + [""]
    else
      var front := Split(s[..|s| - 1]);
      front[..|front| - 1] + [front[|front| - 1] + [s[|s| - 1]]]
  }

  lemma {:induction false} NoBreakInEscape(t: string)
    ensures '\n' !in Escape(t)
  {
    hide EscapeChar;
    if t != "" {
      NoBreakInEscape(t[..|t| - 1]);
      EscapedUnit(t[|t| - 1], "");
    }
  }

  lemma NoBreakInLine(d: Document, text: string)
    requires '\n' !in d.metadata
    ensures '\n' !in Serialized(d, text)
  {
    hide Escape;
    NoBreakInEscape(text);
    NoBreakInEscape(d.id);
    NoBreakInEscape(d.kind);
  }

  lemma {:induction false} SplitOne(line: string)
    requires '\n' !in line
    ensures Split(line) == [line]
  {
    if line != "" {
      assert line[|line| - 1] in line;
      SplitOne(line[..|line| - 1]);
      assert line[..|line| - 1] + [line[|line| - 1]] == line;
    }
  }

  lemma {:induction false} SplitLast(s: string, line: string)
    requires '\n' !in line
    ensures Split(s + "\n" + line) == Split(s) + [line]
  {
    var all := s + "\n" + line;
    if line == "" {
      assert all[..|all| - 1] == s;
    } else {
      assert line[|line| - 1] in line;
      var front := line[..|line| - 1];
      SplitLast(s, front);
      assert all[..|all| - 1] == s + "\n" + front;
      assert front + [line[|line| - 1]] == line;
    }
  }

  lemma {:induction false} JoinedLinesSplit(docs: seq<Document>)
    requires docs != [] && forall d :: d in docs ==> '\n' !in d.metadata
    ensures Split(Joined(Lines(docs))) == Lines(docs)
  {
    hide Serialized, Split;
    var front, last := docs[..|docs| - 1], docs[|docs| - 1];
    var line := Serialized(last, last.text);
    NoBreakInLine(last, last.text);
    ContextLength(front);
    assert Lines(docs)[..|docs| - 1] == Lines(front);
    if front == [] {
      assert Lines(docs) == [line];
      SplitOne(line);
    } else {
      JoinedLinesSplit(front);
      SplitLast(Joined(Lines(front)), line);
    }
  }

  lemma {:induction false} LineAt(docs: seq<Document>, k: nat)
    requires k < |docs| == |Lines(docs)|
    ensures Lines(docs)[k] == Serialized(docs[k], docs[k].text)
  {
    hide Serialized;
    ContextLength(docs[..|docs| - 1]);
    if k < |docs| - 1 {
      LineAt(docs[..|docs| - 1], k);
    }
  }

  /** The context behind its heading is one line a document, in order, and each line read by itself
      gives the packed document: no text can end its line or add another. */
  lemma ContextIsReadBack(docs: seq<Document>)
    requires docs != [] && forall d :: d in docs ==> '\n' !in d.metadata
    ensures ContextOf(docs)[..25] == "UNTRUSTED_EVIDENCE_JSONL\n"
    ensures var lines := Split(ContextOf(docs)[25..]);
      |lines| == |docs| && forall k :: 0 <= k < |docs| ==> ReadLine(lines[k]) == Some(docs[k])
  {
    hide ReadLine, Serialized, Split, Joined, Lines;
    assert ContextOf(docs)[25..] == Joined(Lines(docs));
    JoinedLinesSplit(docs);
    ContextLength(docs);
    forall k | 0 <= k < |docs| ensures ReadLine(Lines(docs)[k]) == Some(docs[k]) {
      LineAt(docs, k);
      LinesAreReadBack(docs[k]);
    }
  }
}
