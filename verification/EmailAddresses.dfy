/**
 What `EmailRedaction` takes for an address, spelled out from its parts, and what becomes of one
 inside a text (backend/agent_work/context.py:64-102).
 */
module EmailAddresses {
  import opened EmailRedaction

  // ---- Domains from their parts ----

  /** A label: letters, digits and hyphens, with no hyphen at either end. */
  predicate IsName(name: string) {
    && |name| > 0
    && name[0] != '-' && name[|name| - 1] != '-'
    && forall c :: c in name ==> 'a' <= c <= 'z' || 'A' <= c <= 'Z' || '0' <= c <= '9' || c == '-'
  }

  /** The last label: two letters or more. */
  predicate IsTop(top: string) {
    |top| >= 2 && forall c :: c in top ==> 'a' <= c <= 'z' || 'A' <= c <= 'Z'
  }

  /** Every name followed by a dot, then the top. */
  function Dotted(names: seq<string>, top: string): string {
    if names == [] then top else names[0] + "." + Dotted(names[1..], top)
  }

  predicate Spells(domain: string, names: seq<string>, top: string) {
    && |names| >= 1 && (forall name :: name in names ==> IsName(name)) && IsTop(top)
    && domain == Dotted(names, top)
  }

  lemma {:induction false} LabelsWithoutDot(name: string)
    requires '.' !in name
    ensures Labels(name) == [name]
  {
    if name != "" {
      assert name[0] in name;
      LabelsWithoutDot(name[1..]);
      assert [name[0]] + name[1..] == name;
    }
  }

  lemma {:induction false} LabelsOfFirst(name: string, rest: string)
    requires '.' !in name
    ensures Labels(name + "." + rest) == [name] + Labels(rest)
  {
    var domain := name + "." + rest;
    if name == "" {
      assert domain[1..] == rest;
    } else {
      assert name[0] in name && domain[0] == name[0];
      LabelsOfFirst(name[1..], rest);
      assert domain[1..] == name[1..] + "." + rest;
      assert [name[0]] + name[1..] == name;
    }
  }

  lemma {:induction false} LabelsOfDotted(names: seq<string>, top: string)
    requires '.' !in top && forall name :: name in names ==> '.' !in name
    ensures Labels(Dotted(names, top)) == names + [top]
  {
    if names == [] {
      LabelsWithoutDot(top);
    } else {
      LabelsOfDotted(names[1..], top);
      LabelsOfFirst(names[0], Dotted(names[1..], top));
    }
  }

  lemma {:induction false} DottedOfLabels(domain: string)
    ensures var labels := Labels(domain); var last := |labels| - 1;
      domain == Dotted(labels[..last], labels[last])
  {
    var labels := Labels(domain);
    var last := |labels| - 1;
    if domain != "" {
      DottedOfLabels(domain[1..]);
      var rest := Labels(domain[1..]);
      if domain[0] == '.' {
        assert labels[..last][1..] == rest[..last - 1];
      } else if last > 0 {
        assert labels[..last][1..] == rest[..last][1..];
      }
    }
  }

  lemma NamesAreLabels(name: string)
    ensures IsName(name) <==> ValidLabel(name)
  {
    if ValidLabel(name) {
      forall c | c in name ensures 'a' <= c <= 'z' || 'A' <= c <= 'Z' || '0' <= c <= '9' || c == '-' {
        var i :| 0 <= i < |name| && name[i] == c;
      }
    }
    if IsName(name) {
      forall i | 0 <= i < |name| ensures IsLetter(name[i]) || IsDigit(name[i]) || name[i] == '-' {
        assert name[i] in name;
      }
    }
  }

  lemma TopsAreLabels(top: string)
    requires IsTop(top)
    ensures ValidLabel(top) && forall i :: 0 <= i < |top| ==> IsLetter(top[i])
  {
    forall i | 0 <= i < |top| ensures IsLetter(top[i]) && top[i] != '-' {
      assert top[i] in top;
    }
  }

  /** What is accepted as a domain: one label or more, each followed by a dot, and a top. */
  lemma ValidDomainExactly(domain: string)
    ensures ValidDomain(domain) <==> exists names, top :: Spells(domain, names, top)
  {
    var labels := Labels(domain);
    var last := |labels| - 1;
    if ValidDomain(domain) {
      DottedOfLabels(domain);
      forall name | name in labels[..last] ensures IsName(name) {
        assert ValidLabel(name);
        NamesAreLabels(name);
      }
      assert Spells(domain, labels[..last], labels[last]);
    }
    if exists names, top :: Spells(domain, names, top) {
      var names, top :| Spells(domain, names, top);
      LabelsOfDotted(names, top);
      assert labels == names + [top] && last == |names|;
      TopsAreLabels(top);
      forall i | 0 <= i < |labels| ensures ValidLabel(labels[i]) {
        if i < last {
          assert labels[i] == names[i] && names[i] in names;
          NamesAreLabels(names[i]);
        }
      }
    }
  }

  lemma {:induction false} DottedHasDot(names: seq<string>, top: string)
    requires names != []
    ensures '.' in Dotted(names, top)
  {
    assert Dotted(names, top)[|names[0]|] == '.';
  }

  /** A host without a dot is no domain. */
  lemma OneLabelIsNoDomain(domain: string)
    requires '.' !in domain
    ensures !ValidDomain(domain)
  {
    ValidDomainExactly(domain);
    if ValidDomain(domain) {
      var names, top :| Spells(domain, names, top);
      DottedHasDot(names, top);
    }
  }

  lemma {:induction false} DomainCharacters(names: seq<string>, top: string)
    requires (forall name :: name in names ==> IsName(name)) && IsTop(top)
    ensures var d := Dotted(names, top);
      |d| >= 2 && d[|d| - 1] != '.' && forall c :: c in d ==> IsDomain(c)
  {
    if names == [] {
      assert top[|top| - 1] in top;
    } else {
      DomainCharacters(names[1..], top);
      assert names[0] in names;
      forall c | c in Dotted(names, top) ensures IsDomain(c) {
        assert c in names[0] || c == '.' || c in Dotted(names[1..], top);
      }
    }
  }

  // ---- What the scan makes of a text put together from two ----

  /** The redacted form of text[cursor..], with the at-signs before `from` left alone. */
  function Rest(text: string, cursor: nat, from: nat): string
    requires cursor <= from <= |text|
  {
    ScanIsPlaced(text, cursor, from);
    Splice(text, cursor, Scan(text, cursor, from), REDACTION)
  }

  lemma RestAtHit(text: string, cursor: nat, from: nat)
    requires cursor <= from <= |text| && FindAt(text, from) < |text|
    requires var at := FindAt(text, from);
      LocalStart(text, cursor, at) < at && ValidDomain(text[at + 1..DomainEnd(text, at)])
    ensures var at := FindAt(text, from); var end := DomainEnd(text, at);
      Rest(text, cursor, from) == text[cursor..LocalStart(text, cursor, at)] + REDACTION + Rest(text, end, end)
  {
    hide ValidDomain, LocalStart, DomainEnd, FindAt;
    var at := FindAt(text, from);
    var end := DomainEnd(text, at);
    ScanIsPlaced(text, end, end);
    SpliceFirst(text, cursor, Span(LocalStart(text, cursor, at), end), Scan(text, end, end), REDACTION);
  }

  lemma RestAtMiss(text: string, cursor: nat, from: nat)
    requires cursor <= from <= |text| && FindAt(text, from) < |text|
    requires var at := FindAt(text, from);
      !(LocalStart(text, cursor, at) < at && ValidDomain(text[at + 1..DomainEnd(text, at)]))
    ensures Rest(text, cursor, from) == Rest(text, cursor, FindAt(text, from) + 1)
  {
    hide ValidDomain, LocalStart, DomainEnd, FindAt, Splice, Placed;
  }

  lemma RestAtEnd(text: string, cursor: nat, from: nat)
    requires cursor <= from <= |text| && FindAt(text, from) == |text|
    ensures Rest(text, cursor, from) == text[cursor..]
  {
  }

  lemma {:induction false} FindAtShift(a: string, b: string, from: nat)
    requires from <= |b|
    ensures FindAt(a + b, |a| + from) == |a| + FindAt(b, from)
    decreases |b| - from
  {
    if from < |b| && b[from] != '@' {
      FindAtShift(a, b, from + 1);
    }
  }

  lemma {:induction false} FindAtCut(a: string, b: string, from: nat)
    requires from <= |a|
    ensures FindAt(a + b, from) == if FindAt(a, from) < |a| then FindAt(a, from) else FindAt(a + b, |a|)
    decreases |a| - from
  {
    if from < |a| && a[from] != '@' {
      FindAtCut(a, b, from + 1);
    }
  }

  lemma {:induction false} LocalCut(a: string, b: string, low: nat, at: nat)
    requires low <= at <= |a|
    ensures LocalStart(a + b, low, at) == LocalStart(a, low, at)
    decreases at
  {
    if at > low && IsLocal(a[at - 1]) {
      LocalCut(a, b, low, at - 1);
    }
  }

  /** The scan of `a + b` stands at `c` where the scan of `b` stands at `x`: at the same place, or
      both before a local part that cannot reach back into `a`. */
  predicate Aligned(a: string, c: nat, x: nat) {
    c == |a| + x || (x == 0 && c <= |a| && a != "" && !IsLocal(a[|a| - 1]))
  }

  lemma {:induction false} LocalShift(a: string, b: string, c: nat, x: nat, at: nat)
    requires x <= at <= |b| && Aligned(a, c, x)
    ensures LocalStart(a + b, c, |a| + at) == |a| + LocalStart(b, x, at)
    decreases at
  {
    if at > x && IsLocal(b[at - 1]) {
      LocalShift(a, b, c, x, at - 1);
    }
  }

  lemma {:induction false} RestShift(a: string, b: string, c: nat, x: nat, from: nat)
    requires x <= from <= |b| && Aligned(a, c, x)
    ensures Rest(a + b, c, |a| + from) == (a + b)[c..|a| + x] + Rest(b, x, from)
    decreases |b| - from
  {
    hide Rest, ValidDomain, LocalStart, DomainEnd, FindAt, IsLocal, Aligned;
    var at := FindAt(b, from);
    FindAtShift(a, b, from);
    AlignedOrder(a, c, x);
    if at == |b| {
      RestAtEnd(a + b, c, |a| + from);
      RestAtEnd(b, x, from);
    } else if LocalStart(b, x, at) < at && ValidDomain(b[at + 1..DomainEnd(b, at)]) {
      var end := DomainEnd(b, at);
      AlignedHere(a, end);
      RestShift(a, b, |a| + end, end, end);
      assert (a + b)[|a| + end..|a| + end] == "";
      HitShift(a, b, c, x, from);
    } else {
      RestShift(a, b, c, x, at + 1);
      MissShift(a, b, c, x, from);
    }
  }

  lemma HitShift(a: string, b: string, c: nat, x: nat, from: nat)
    requires x <= from <= |b| && Aligned(a, c, x) && FindAt(b, from) < |b|
    requires var at := FindAt(b, from);
      LocalStart(b, x, at) < at && ValidDomain(b[at + 1..DomainEnd(b, at)])
    requires var end := DomainEnd(b, FindAt(b, from));
      Rest(a + b, |a| + end, |a| + end) == Rest(b, end, end)
    ensures Rest(a + b, c, |a| + from) == (a + b)[c..|a| + x] + Rest(b, x, from)
  {
    hide Rest, ValidDomain, LocalStart, DomainEnd, FindAt, IsLocal, Aligned;
    var at := FindAt(b, from);
    FindAtShift(a, b, from);
    AlignedOrder(a, c, x);
    LocalShift(a, b, c, x, at);
    DomainShift(a, b, at);
    RestAtHit(a + b, c, |a| + from);
    RestAtHit(b, x, from);
    var start := LocalStart(b, x, at);
    assert (a + b)[c..|a| + start] == (a + b)[c..|a| + x] + b[x..start];
  }

  lemma MissShift(a: string, b: string, c: nat, x: nat, from: nat)
    requires x <= from <= |b| && Aligned(a, c, x) && FindAt(b, from) < |b|
    requires var at := FindAt(b, from);
      !(LocalStart(b, x, at) < at && ValidDomain(b[at + 1..DomainEnd(b, at)]))
    ensures c <= |a| + x
    ensures Rest(a + b, c, |a| + from) == Rest(a + b, c, |a| + FindAt(b, from) + 1)
    ensures Rest(b, x, from) == Rest(b, x, FindAt(b, from) + 1)
  {
    hide Rest, ValidDomain, LocalStart, DomainEnd, FindAt, IsLocal, Aligned;
    var at := FindAt(b, from);
    FindAtShift(a, b, from);
    AlignedOrder(a, c, x);
    LocalShift(a, b, c, x, at);
    DomainShift(a, b, at);
    RestAtMiss(a + b, c, |a| + from);
    RestAtMiss(b, x, from);
  }

  lemma AlignedOrder(a: string, c: nat, x: nat)
    requires Aligned(a, c, x)
    ensures c <= |a| + x
  {
  }

  lemma AlignedHere(a: string, x: nat)
    ensures Aligned(a, |a| + x, x)
  {
  }

  /** Nothing of an address can lie on both sides of the end of `a`. */
  predicate Parts(a: string) {
    a == "" || (!IsLocal(a[|a| - 1]) && a[|a| - 1] != '@')
  }

  lemma DomainStops(a: string, b: string, at: nat)
    requires at < |a| && a[at] == '@' && Parts(a)
    ensures DomainEnd(a + b, at) == DomainEnd(a, at)
    ensures (a + b)[at + 1..DomainEnd(a + b, at)] == a[at + 1..DomainEnd(a, at)]
  {
    DomainRun(a, at + 1);
    assert RunEnd(a, at + 1) < |a|;
    DomainCut(a, b, at);
  }

  lemma {:induction false} RestSplits(a: string, b: string, c: nat, from: nat)
    requires c <= from <= |a| && a != "" && Parts(a)
    ensures Rest(a + b, c, from) == Rest(a, c, from) + Rest(b, 0, 0)
    decreases |a| - from
  {
    hide Rest, ValidDomain, LocalStart, DomainEnd, FindAt, IsLocal;
    var at := FindAt(a, from);
    FindAtCut(a, b, from);
    if at == |a| {
      RestAtEnd(a, c, from);
      RestFrom(a + b, c, from, |a|);
      RestShift(a, b, c, 0, 0);
      assert (a + b)[c..|a|] == a[c..];
    } else {
      LocalCut(a, b, c, at);
      DomainStops(a, b, at);
      var start, end := LocalStart(a, c, at), DomainEnd(a, at);
      if start < at && ValidDomain(a[at + 1..end]) {
        RestAtHit(a + b, c, from);
        RestAtHit(a, c, from);
        RestSplits(a, b, end, end);
        assert (a + b)[c..start] == a[c..start];
      } else {
        RestAtMiss(a + b, c, from);
        RestAtMiss(a, c, from);
        RestSplits(a, b, c, at + 1);
      }
    }
  }

  lemma RestFrom(text: string, c: nat, from: nat, later: nat)
    requires c <= from <= later <= |text| && FindAt(text, from) == FindAt(text, later)
    ensures Rest(text, c, from) == Rest(text, c, later)
  {
    hide ValidDomain, LocalStart, DomainEnd, FindAt, Splice, Placed;
  }

  // ---- What becomes of an address ----

  lemma {:induction false} LocalIsAll(text: string, at: nat)
    requires at <= |text| && forall k :: 0 <= k < at ==> IsLocal(text[k])
    ensures LocalStart(text, 0, at) == 0
    decreases at
  {
    if at > 0 {
      LocalIsAll(text, at - 1);
    }
  }

  lemma {:induction false} RunIsAll(text: string, from: nat, end: nat)
    requires from <= end <= |text| && (forall k :: from <= k < end ==> IsDomain(text[k]))
    requires end == |text| || !IsDomain(text[end])
    ensures RunEnd(text, from) == end
    decreases end - from
  {
    if from < end {
      RunIsAll(text, from + 1, end);
    }
  }

  lemma {:induction false} DotsAreTrimmed(text: string, low: nat, end: nat, run: nat)
    requires low < end <= run <= |text| && text[end - 1] != '.'
    requires forall k :: end <= k < run ==> text[k] == '.'
    ensures TrimDots(text, low, run) == end
    decreases run
  {
    if run > end {
      DotsAreTrimmed(text, low, end, run - 1);
    }
  }

  /** The parts of an address: local characters, and a domain. */
  predicate AddressParts(local: string, names: seq<string>, top: string) {
    && |local| >= 1
    && (forall c :: c in local ==>
          'a' <= c <= 'z' || 'A' <= c <= 'Z' || '0' <= c <= '9' || c in "._%+-")
    && Spells(Dotted(names, top), names, top)
  }

  /** The dots that may close a sentence, and then nothing or a character that is in no domain. */
  predicate Follows(dots: string, after: string) {
    && (forall c :: c in dots ==> c == '.')
    && (after == "" || !IsDomain(after[0]))
  }

  /** The scan sees such an address whole. */
  lemma AddressIsFound(local: string, domain: string, dots: string, after: string)
    requires |local| >= 1 && (forall c :: c in local ==> IsLocal(c) && c != '@') && Follows(dots, after)
    requires |domain| >= 1 && domain[|domain| - 1] != '.' && forall c :: c in domain ==> IsDomain(c)
    ensures var text := local + "@" + domain + (dots + after);
      && FindAt(text, 0) == |local| && LocalStart(text, 0, |local|) == 0
      && DomainEnd(text, |local|) == |local + "@" + domain|
      && text[|local| + 1..|local + "@" + domain|] == domain
  {
    hide LocalStart, RunEnd, TrimDots, FindAt, IsLocal, IsDomain;
    var text := local + "@" + domain + (dots + after);
    var at, end := |local|, |local + "@" + domain|;
    var run := end + |dots|;
    assert forall k :: 0 <= k < at ==> text[k] in local;
    assert forall k :: at + 1 <= k < end ==> text[k] in domain;
    assert forall k :: end <= k < run ==> text[k] in dots;
    assert run < |text| ==> text[run] == after[0];
    FindAtHere(text, at);
    LocalIsAll(text, at);
    assert IsDomain('.') by { DotIsDomain(); }
    RunIsAll(text, at + 1, run);
    DotsAreTrimmed(text, at + 1, end, run);
  }

  lemma DotIsDomain()
    ensures IsDomain('.')
  {
  }

  lemma PartsAreCharacters(local: string, names: seq<string>, top: string)
    requires AddressParts(local, names, top)
    ensures |local| >= 1 && forall c :: c in local ==> IsLocal(c) && c != '@'
    ensures var d := Dotted(names, top);
      && ValidDomain(d) && |d| >= 1 && d[|d| - 1] != '.' && forall c :: c in d ==> IsDomain(c)
  {
    DomainCharacters(names, top);
    ValidDomainExactly(Dotted(names, top));
  }

  lemma AddressInFront(local: string, names: seq<string>, top: string, dots: string, after: string)
    requires AddressParts(local, names, top) && Follows(dots, after)
    ensures Redacted(local + "@" + Dotted(names, top) + (dots + after)) == REDACTION + Redacted(dots + after)
  {
    hide Rest, LocalStart, DomainEnd, FindAt, ValidDomain, Dotted, AddressParts, Redacted;
    var address := local + "@" + Dotted(names, top);
    var text := address + (dots + after);
    PartsAreCharacters(local, names, top);
    AddressIsFound(local, Dotted(names, top), dots, after);
    RestIsRedacted(text);
    RestIsRedacted(dots + after);
    RestAtHit(text, 0, 0);
    AlignedHere(address, 0);
    RestShift(address, dots + after, |address|, 0, 0);
  }

  lemma {:induction false} FindAtHere(text: string, at: nat)
    requires at < |text| && text[at] == '@' && forall k :: 0 <= k < at ==> text[k] != '@'
    ensures FindAt(text, 0) == at
  {
    FindAtIsFirst(text, 0);
  }

  lemma RestIsRedacted(text: string)
    ensures Redacted(text) == Rest(text, 0, 0)
  {
  }

  /** An address becomes the marker wherever it stands: behind nothing or a character that is no
      part of one, and in front of nothing, a character that is in no domain, or closing dots. What
      is in front of it and behind it is redacted as if it stood alone. */
  lemma AddressIsRedacted(before: string, local: string, names: seq<string>, top: string, dots: string, after: string)
    requires AddressParts(local, names, top) && Follows(dots, after) && Parts(before)
    ensures Redacted(before + (local + "@" + Dotted(names, top) + (dots + after)))
         == Redacted(before) + ("[REDACTED_EMAIL]" + Redacted(dots + after))
  {
    hide Rest, Dotted;
    var text := local + "@" + Dotted(names, top) + (dots + after);
    AddressInFront(local, names, top, dots, after);
    RestIsRedacted(text);
    RestIsRedacted(before);
    RestIsRedacted(before + text);
    if before == "" {
      RestAtEnd("", 0, 0);
      assert before + text == text;
    } else {
      RestSplits(before, text, 0, 0);
    }
  }

  /** An address that is the whole text becomes exactly the marker. */
  lemma LoneAddressIsRedacted(local: string, names: seq<string>, top: string)
    requires AddressParts(local, names, top)
    ensures Redacted(local + "@" + Dotted(names, top)) == "[REDACTED_EMAIL]"
  {
    hide Dotted;
    AddressInFront(local, names, top, "", "");
    assert local + "@" + Dotted(names, top) + ("" + "") == local + "@" + Dotted(names, top);
    RestIsRedacted("");
    RestAtEnd("", 0, 0);
  }

  /** An address, and a host that is none. */
  lemma AnAddressAndNone()
    ensures Redacted("me@example.com") == "[REDACTED_EMAIL]"
    ensures Redacted("me@localhost") == "me@localhost"
  {
    assert Dotted(["example"], "com") == "example" + "." + "com" == "example.com" by {
      assert ["example"][1..] == [];
    }
    assert "me@example.com" == "me" + "@" + "example.com";
    LoneAddressIsRedacted("me", ["example"], "com");
    NoAddress();
  }

  lemma NoAddress()
    ensures Redacted("me@localhost") == "me@localhost"
  {
    hide ValidDomain, Redacted, RunEnd, TrimDots;
    var text := "me@localhost";
    RunIsAll(text, 3, 12);
    DotsAreTrimmed(text, 3, 12, 12);
    assert text[3..12] == "localhost";
    OneLabelIsNoDomain("localhost");
    assert !Hot(text, 2);
    assert Clean(text);
    UnchangedIffClean(text);
  }
}
