/**
 The member tree of a wheel (scripts/agent_distribution.py:100-183): which archives are accepted
 before anything is read from them. Paths are compared part by part with case folded. The loop
 compares every member only with the ones before it.
 */
module ArchiveMembers {
  import opened Wrappers

  const MAX_MEMBERS := 4096
  const MAX_MEMBER_SIZE := 32 * 1024 * 1024
  const MAX_TOTAL_SIZE := 128 * 1024 * 1024
  const MAX_RATIO := 200

  /** What the Unicode database says about characters and parts of a path. */
  datatype Unicode = Unicode(
    control: char -> bool, canonical: string -> bool, reserved: string -> bool, fold: string -> string)

  datatype Member = Member(name: string, link: bool, size: nat, compressed: nat)

  type Path = seq<string>

  // ---- One path ----

  predicate IsDirectory(m: Member) {
    m.name != "" && m.name[|m.name| - 1] == '/'
  }

  function SplitPath(path: string): (parts: Path)
    ensures parts != []
  {
    if path == "" then [""]
    else
      var front := SplitPath(path[..|path| - 1]);
      if path[|path| - 1] == '/' then front + [""]
      else front[..|front| - 1] + [front[|front| - 1] + [path[|path| - 1]]]
  }

  function Parts(m: Member): Path {
    SplitPath(if IsDirectory(m) then m.name[..|m.name| - 1] else m.name)
  }

  predicate IsForbidden(c: char) {
    c in {'<', '>', ':', '\"', '|', '?', '*'}
  }

  predicate PartIsSafe(u: Unicode, part: string) {
    && part != "" && part != "." && part != ".."
    && u.canonical(part)
    && (forall k :: 0 <= k < |part| ==> !IsForbidden(part[k]))
    && part[|part| - 1] != ' ' && part[|part| - 1] != '.'
    && !u.reserved(part)
  }

  predicate Portable(u: Unicode, m: Member) {
    && m.name != "" && m.name[0] != '/'
    && (forall k :: 0 <= k < |m.name| ==> m.name[k] != '\\' && !u.control(m.name[k]))
    && (forall k :: 0 <= k < |Parts(m)| ==> PartIsSafe(u, Parts(m)[k]))
  }

  /** `_portable_member_key`: the folded path of a portable member. */
  function Key(u: Unicode, m: Member): Path {
    seq(|Parts(m)|, k requires 0 <= k < |Parts(m)| => u.fold(Parts(m)[k]))
  }

  // ---- What is accepted ----

  /** Two members that cannot both be unpacked: the same path, or one is a file where the other
      needs a directory. */
  predicate Clash(u: Unicode, a: Member, b: Member) {
    || Key(u, a) == Key(u, b)
    || (!IsDirectory(a) && Key(u, a) < Key(u, b))
    || (!IsDirectory(b) && Key(u, b) < Key(u, a))
  }

  predicate MemberIsSound(u: Unicode, m: Member) {
    && Portable(u, m) && !m.link
    && m.size <= MAX_MEMBER_SIZE
    && m.size <= MAX_RATIO * (if m.compressed < 1 then 1 else m.compressed)
  }

  function TotalSize(members: seq<Member>): nat {
    if members == [] then 0 else TotalSize(members[..|members| - 1]) + members[|members| - 1].size
  }

  function TotalCompressed(members: seq<Member>): nat {
    if members == [] then 0 else TotalCompressed(members[..|members| - 1]) + members[|members| - 1].compressed
  }

  predicate NoClash(u: Unicode, members: seq<Member>) {
    forall j, k :: 0 <= j < k < |members| ==> !Clash(u, members[j], members[k])
  }

  predicate AllSound(u: Unicode, members: seq<Member>) {
    forall k :: 0 <= k < |members| ==> MemberIsSound(u, members[k])
  }

  /** The archives that are accepted, said without any order among the members. */
  predicate Accepted(u: Unicode, members: seq<Member>) {
    && 1 <= |members| <= MAX_MEMBERS
    && AllSound(u, members)
    && NoClash(u, members)
    && TotalSize(members) <= MAX_TOTAL_SIZE
    && TotalSize(members) <= MAX_RATIO * (if TotalCompressed(members) < 1 then 1 else TotalCompressed(members))
  }

  function Names(members: seq<Member>): seq<string> {
    seq(|members|, k requires 0 <= k < |members| => members[k].name)
  }

  // ---- What is accepted, in the terms of the names ----

  function JoinedBySlash(parts: Path): string {
    if parts == [] then "" else if |parts| == 1 then parts[0]
    else JoinedBySlash(parts[..|parts| - 1]) + "/" + parts[|parts| - 1]
  }

  lemma {:induction false} SplitIsJoined(path: string)
    ensures JoinedBySlash(SplitPath(path)) == path
    ensures forall k :: 0 <= k < |SplitPath(path)| ==> '/' !in SplitPath(path)[k]
  {
    if path != "" {
      var front := path[..|path| - 1];
      var parts := SplitPath(front);
      SplitIsJoined(front);
      var c := path[|path| - 1];
      assert path == front + [c];
      if c == '/' {
        assert SplitPath(path)[..|parts|] == parts;
      } else {
        assert SplitPath(path)[..|parts| - 1] == parts[..|parts| - 1];
      }
    }
  }

  lemma SplitOneMore(path: string, c: char)
    requires c != '/'
    ensures var parts := SplitPath(path); var last := |parts| - 1;
      SplitPath(path + [c]) == parts[..last] + [parts[last] + [c]]
  {
    assert (path + [c])[..|path|] == path;
  }

  lemma {:induction false} SplitWithPart(path: string, part: string)
    requires '/' !in part
    ensures var parts := SplitPath(path); var last := |parts| - 1;
      SplitPath(path + part) == parts[..last] + [parts[last] + part]
  {
    hide SplitPath;
    var parts := SplitPath(path);
    var last := |parts| - 1;
    if part == "" {
      assert path + part == path && parts[last] + part == parts[last];
      assert parts == parts[..last] + [parts[last]];
    } else {
      var front, c := part[..|part| - 1], part[|part| - 1];
      assert part == front + [c];
      SplitWithPart(path, front);
      SplitOneMore(path + front, c);
      assert path + part == path + front + [c];
      assert parts[last] + part == parts[last] + front + [c];
    }
  }

  lemma SplitAtSlash(path: string)
    ensures SplitPath(path + "/") == SplitPath(path) + [""]
  {
    assert (path + "/")[..|path|] == path;
  }

  lemma {:induction false} JoinedIsSplit(parts: Path)
    requires parts != [] && forall part :: part in parts ==> '/' !in part
    ensures SplitPath(JoinedBySlash(parts)) == parts
  {
    hide SplitPath;
    var front, last := parts[..|parts| - 1], parts[|parts| - 1];
    assert "" + last == last && parts == front + [last];
    if |parts| == 1 {
      SplitWithPart("", last);
      NothingSplit();
    } else {
      var path := JoinedBySlash(front) + "/";
      JoinedIsSplit(front);
      SplitAtSlash(JoinedBySlash(front));
      SplitWithPart(path, last);
      assert SplitPath(path)[..|front|] == front;
    }
  }

  lemma NothingSplit()
    ensures SplitPath("") == [""]
  {
  }

  /** One part of a path that every system can hold. */
  predicate SafePart(u: Unicode, part: string) {
    && part !in {"", ".", ".."} && part[|part| - 1] !in {' ', '.'}
    && (forall c :: c in part ==> c !in "/\\<>:\"|?*" && !u.control(c))
    && u.canonical(part) && !u.reserved(part)
  }

  /** The name spells a path of safe parts, followed by a slash for a directory. */
  predicate Spells(u: Unicode, name: string, parts: Path) {
    && parts != [] && (forall part :: part in parts ==> SafePart(u, part))
    && (name == JoinedBySlash(parts) || name == JoinedBySlash(parts) + "/")
  }

  lemma {:induction false} JoinedHas(parts: Path, c: char)
    requires c != '/'
    ensures c in JoinedBySlash(parts) <==> exists part :: part in parts && c in part
    ensures parts != [] && parts[0] != "" ==> JoinedBySlash(parts) != "" && JoinedBySlash(parts)[0] == parts[0][0]
    ensures parts != [] && parts[|parts| - 1] != "" ==>
      JoinedBySlash(parts) != "" && JoinedBySlash(parts)[|JoinedBySlash(parts)| - 1] == parts[|parts| - 1][|parts[|parts| - 1]| - 1]
  {
    if |parts| > 1 {
      var front, last := parts[..|parts| - 1], parts[|parts| - 1];
      JoinedHas(front, c);
      assert parts == front + [last];
      assert forall part :: part in parts <==> part in front || part == last;
    } else if |parts| == 1 {
      assert forall part :: part in parts <==> part == parts[0];
    }
  }
  lemma JoinedEnds(parts: Path)
    requires parts != [] && parts[0] != "" && parts[|parts| - 1] != ""
    ensures var path, last := JoinedBySlash(parts), parts[|parts| - 1];
      path != "" && path[0] == parts[0][0] && path[|path| - 1] == last[|last| - 1]
  {
    JoinedHas(parts, ' ');
  }

  lemma SafeExactly(u: Unicode, part: string)
    requires '/' !in part
    ensures SafePart(u, part) <==> PartIsSafe(u, part) && forall c :: c in part ==> c != '\\' && !u.control(c)
  {
    if PartIsSafe(u, part) {
      forall c | c in part ensures !IsForbidden(c) {
      }
    }
    if SafePart(u, part) {
      forall k | 0 <= k < |part| ensures !IsForbidden(part[k]) {
        assert part[k] in part && part[k] !in "/\\<>:\"|?*";
        ForbiddenAre(part[k]);
      }
    }
    forall c ensures c in "/\\<>:\"|?*" <==> c == '/' || c == '\\' || IsForbidden(c) {
      ForbiddenAre(c);
    }
  }

  lemma ForbiddenAre(c: char)
    ensures c in "/\\<>:\"|?*" <==> c == '/' || c == '\\' || IsForbidden(c)
  {
    var s := "/\\<>:\"|?*";
    assert s[0] == '/' && s[1] == '\\' && s[2] == '<' && s[3] == '>' && s[4] == ':' && s[5] == '\"' && s[6] == '|'
        && s[7] == '?' && s[8] == '*';
    assert |s| == 9;
  }

  /** A member has a portable name exactly when the name spells a path of safe parts, and those are
      the parts that are compared, each folded. */
  lemma PortableExactly(u: Unicode, m: Member)
    requires !u.control('/')
    ensures Portable(u, m) <==> exists parts :: Spells(u, m.name, parts)
    ensures forall parts :: Spells(u, m.name, parts) ==>
      Key(u, m) == seq(|parts|, k requires 0 <= k < |parts| => u.fold(parts[k]))
  {
    hide SafePart, PartIsSafe, SplitPath;
    if Portable(u, m) {
      PortableSpells(u, m);
    }
    forall parts | Spells(u, m.name, parts)
      ensures Portable(u, m) && Parts(m) == parts
    {
      SpelledIsPortable(u, m, parts);
    }
  }

  lemma PortableSpells(u: Unicode, m: Member)
    requires Portable(u, m)
    ensures Spells(u, m.name, Parts(m))
  {
    hide SafePart, PartIsSafe, SplitPath;
    var parts := Parts(m);
    var path := if IsDirectory(m) then m.name[..|m.name| - 1] else m.name;
    SplitIsJoined(path);
    forall part | part in parts ensures SafePart(u, part) {
      var k :| 0 <= k < |parts| && parts[k] == part;
      SafeExactly(u, part);
      forall c | c in part ensures c != '\\' && !u.control(c) {
        JoinedHas(parts, c);
        assert c in path;
        var i :| 0 <= i < |path| && path[i] == c;
        assert m.name[i] == c;
      }
    }
    if IsDirectory(m) {
      assert m.name == path + "/";
    }
  }

  lemma SpelledIsPortable(u: Unicode, m: Member, parts: Path)
    requires !u.control('/') && Spells(u, m.name, parts)
    ensures Portable(u, m) && Parts(m) == parts
  {
    hide SplitPath, PartIsSafe;
    forall part | part in parts ensures part != "" && part[|part| - 1] != '/' && '/' !in part && PartIsSafe(u, part) {
      SafeHasNoSlash(u, part);
      SafeExactly(u, part);
    }
    var path := JoinedBySlash(parts);
    JoinedIsSplit(parts);
    assert parts[0] in parts && parts[|parts| - 1] in parts;
    JoinedEnds(parts);
    assert parts[0][0] in parts[0];
    assert IsDirectory(m) <==> m.name == path + "/";
    assert m.name == path + "/" ==> m.name[..|m.name| - 1] == path;
    forall k | 0 <= k < |m.name| ensures m.name[k] != '\\' && !u.control(m.name[k]) {
      var c := m.name[k];
      if c != '/' {
        assert k < |path| && c == path[k];
        JoinedHas(parts, c);
        var part :| part in parts && c in part;
        SafeHas(u, part, c);
      }
    }
  }

  lemma SafeHasNoSlash(u: Unicode, part: string)
    requires SafePart(u, part)
    ensures '/' !in part
  {
    ForbiddenAre('/');
  }

  lemma SafeHas(u: Unicode, part: string, c: char)
    requires SafePart(u, part) && c in part
    ensures c != '\\' && !u.control(c)
  {
    ForbiddenAre(c);
  }

  /** The limits: 1 to 4096 members, none a link, 32 MiB each and 128 MiB together, and nothing that
      unpacks to more than 200 times what it takes, alone or together. */
  lemma AcceptedWithinLimits(u: Unicode, members: seq<Member>)
    ensures Accepted(u, members) <==>
      && 1 <= |members| <= 4096 && NoClash(u, members)
      && (forall m :: m in members ==>
            Portable(u, m) && !m.link && m.size <= 33554432 && (m.size <= 200 * m.compressed || m.size <= 200))
      && TotalSize(members) <= 134217728
      && (TotalSize(members) <= 200 * TotalCompressed(members) || TotalSize(members) <= 200)
  {
    hide Portable, NoClash, TotalSize, TotalCompressed;
    if AllSound(u, members) {
      forall m | m in members ensures MemberIsSound(u, m) {
        var k :| 0 <= k < |members| && members[k] == m;
      }
    }
  }

  // ---- The loop ----

  /** The folded paths seen so far, and which of them are directories. */
  ghost predicate Aliases(u: Unicode, members: seq<Member>, aliases: map<Path, bool>) {
    && (forall m :: m in members ==> Key(u, m) in aliases && aliases[Key(u, m)] == IsDirectory(m))
    && (forall p :: p in aliases ==> exists m :: m in members && Key(u, m) == p)
  }

  /** Whether an earlier member is a file on the way to this one. */
  method FileAbove(key: Path, aliases: map<Path, bool>) returns (found: bool)
    requires key != []
    ensures found <==> exists p :: p in aliases && p != [] && p < key && !aliases[p]
  {
    for i := 1 to |key|
      invariant forall k :: 1 <= k < i ==> !(key[..k] in aliases && !aliases[key[..k]])
    {
      if key[..i] in aliases && !aliases[key[..i]] {
        assert key[..i] < key;
        return true;
      }
    }
    forall p | p in aliases && p != [] && p < key ensures aliases[p] {
      assert p == key[..|p|];
    }
    return false;
  }

  lemma KeyIsNotEmpty(u: Unicode, m: Member)
    ensures Key(u, m) != []
  {
  }

  lemma ClashesWithAlias(u: Unicode, members: seq<Member>, aliases: map<Path, bool>, m: Member)
    requires Aliases(u, members, aliases)
    ensures (exists e :: e in members && Clash(u, e, m)) <==>
      || Key(u, m) in aliases
      || (exists p :: p in aliases && p != [] && p < Key(u, m) && !aliases[p])
      || (!IsDirectory(m) && exists p :: p in aliases && Key(u, m) < p)
  {
    hide Key;
    if e :| e in members && Clash(u, e, m) {
      KeyIsNotEmpty(u, e);
      assert Key(u, e) in aliases;
    }
    if p :| p in aliases && p != [] && p < Key(u, m) && !aliases[p] {
      var e :| e in members && Key(u, e) == p;
      assert Clash(u, e, m);
    }
    if !IsDirectory(m) && exists p :: p in aliases && Key(u, m) < p {
      var p :| p in aliases && Key(u, m) < p;
      var e :| e in members && Key(u, e) == p;
      assert Clash(u, e, m);
    }
    if Key(u, m) in aliases {
      var e :| e in members && Key(u, e) == Key(u, m);
      assert Clash(u, e, m);
    }
  }

  lemma {:induction false} TotalsOfPrefix(members: seq<Member>, k: nat)
    requires k <= |members|
    ensures TotalSize(members[..k]) <= TotalSize(members)
    decreases |members|
  {
    if k < |members| {
      var front := members[..|members| - 1];
      TotalsOfPrefix(front, k);
      assert front[..k] == members[..k];
    } else {
      assert members[..k] == members;
    }
  }

  lemma PrefixRefused(u: Unicode, members: seq<Member>, k: nat)
    requires k < |members|
    requires || !MemberIsSound(u, members[k])
             || (exists e :: e in members[..k] && Clash(u, e, members[k]))
             || TotalSize(members[..k + 1]) > MAX_TOTAL_SIZE
    ensures !Accepted(u, members)
  {
    hide Clash, MemberIsSound;
    TotalsOfPrefix(members, k + 1);
    if e :| e in members[..k] && Clash(u, e, members[k]) {
      var j :| 0 <= j < k && members[..k][j] == e;
      assert members[j] == e;
      assert Clash(u, members[j], members[k]);
    }
  }

  lemma OneMore(u: Unicode, members: seq<Member>, k: nat)
    requires k < |members|
    ensures members[..k + 1] == members[..k] + [members[k]]
    ensures TotalSize(members[..k + 1]) == TotalSize(members[..k]) + members[k].size
    ensures TotalCompressed(members[..k + 1]) == TotalCompressed(members[..k]) + members[k].compressed
    ensures Names(members[..k + 1]) == Names(members[..k]) + [members[k].name]
    ensures AllSound(u, members[..k + 1]) <==> AllSound(u, members[..k]) && MemberIsSound(u, members[k])
  {
    hide MemberIsSound;
    assert members[..k + 1][..k] == members[..k];
    if AllSound(u, members[..k + 1]) {
      assert MemberIsSound(u, members[..k + 1][k]);
      forall j | 0 <= j < k ensures MemberIsSound(u, members[..k][j]) {
        assert members[..k + 1][j] == members[..k][j];
      }
    }
  }

  lemma OneMoreWithoutClash(u: Unicode, members: seq<Member>, k: nat)
    requires k < |members| && NoClash(u, members[..k])
    requires forall e :: e in members[..k] ==> !Clash(u, e, members[k])
    ensures NoClash(u, members[..k + 1])
  {
    hide Clash;
    var next := members[..k + 1];
    forall i, j | 0 <= i < j < |next| ensures !Clash(u, next[i], next[j]) {
      assert next[i] == members[..k][i];
      if j < k {
        assert next[j] == members[..k][j];
      }
    }
  }

  lemma OneMoreAlias(u: Unicode, members: seq<Member>, aliases: map<Path, bool>, m: Member)
    requires Aliases(u, members, aliases) && Key(u, m) !in aliases
    ensures Aliases(u, members + [m], aliases[Key(u, m) := IsDirectory(m)])
  {
    hide Key;
    var aliases' := aliases[Key(u, m) := IsDirectory(m)];
    forall p | p in aliases' ensures exists e :: e in members + [m] && Key(u, e) == p {
      if p == Key(u, m) {
        assert m in members + [m];
      } else {
        var e :| e in members && Key(u, e) == p;
        assert e in members + [m];
      }
    }
  }

  /** One pass of the loop body: the new aliases, or a refusal. */
  method CheckMember(u: Unicode, m: Member, ghost before: seq<Member>, aliases: map<Path, bool>)
    returns (r: Option<map<Path, bool>>)
    requires Aliases(u, before, aliases)
    ensures r.Some? <==> MemberIsSound(u, m) && forall e :: e in before ==> !Clash(u, e, m)
    ensures r.Some? ==> Aliases(u, before + [m], r.value)
  {
    hide Key, Clash, Portable, Aliases;
    if !Portable(u, m) {
      return None;
    }
    var key := Key(u, m);
    ClashesWithAlias(u, before, aliases, m);
    if key in aliases {
      return None;
    }
    KeyIsNotEmpty(u, m);
    var above := FileAbove(key, aliases);
    if above {
      return None;
    }
    if !IsDirectory(m) && exists p :: p in aliases && key < p {
      return None;
    }
    OneMoreAlias(u, before, aliases, m);
    if m.link || m.size > MAX_MEMBER_SIZE || m.size > MAX_RATIO * (if m.compressed < 1 then 1 else m.compressed) {
      return None;
    }
    return Some(aliases[key := IsDirectory(m)]);
  }

  /** `_member_names`: None stands for the exception. */
  method MemberNames(u: Unicode, members: seq<Member>) returns (names: Option<seq<string>>)
    ensures names.Some? <==> Accepted(u, members)
    ensures names.Some? ==> names.value == Names(members)
  {
    hide MemberIsSound, Clash, Aliases, AllSound, NoClash, Names;
    if |members| == 0 || |members| > MAX_MEMBERS {
      return None;
    }
    var aliases: map<Path, bool> := map[];
    var byName: seq<string> := [];
    var size, compressed := 0, 0;
    NothingSeen(u);
    for i := 0 to |members|
      invariant Aliases(u, members[..i], aliases)
      invariant AllSound(u, members[..i]) && NoClash(u, members[..i])
      invariant size == TotalSize(members[..i]) <= MAX_TOTAL_SIZE
      invariant compressed == TotalCompressed(members[..i])
      invariant byName == Names(members[..i])
    {
      var checked := CheckMember(u, members[i], members[..i], aliases);
      OneMore(u, members, i);
      if checked.None? {
        PrefixRefused(u, members, i);
        return None;
      }
      OneMoreWithoutClash(u, members, i);
      aliases := checked.value;
      size := size + members[i].size;
      compressed := compressed + members[i].compressed;
      if size > MAX_TOTAL_SIZE {
        PrefixRefused(u, members, i);
        return None;
      }
      byName := byName + [members[i].name];
    }
    assert members[..|members|] == members;
    if size > MAX_RATIO * (if compressed < 1 then 1 else compressed) {
      return None;
    }
    return Some(byName);
  }

  lemma NothingSeen(u: Unicode)
    ensures Aliases(u, [], map[]) && AllSound(u, []) && NoClash(u, []) && Names([]) == []
  {
  }

  // ---- Order ----

  lemma ClashIsSymmetric(u: Unicode, a: Member, b: Member)
    ensures Clash(u, a, b) == Clash(u, b, a) && Clash(u, a, a)
  {
  }

  lemma RestOfBag(members: seq<Member>, k: nat)
    requires k < |members|
    ensures multiset(members[..k] + members[k + 1..]) == multiset(members) - multiset{members[k]}
  {
    assert members == members[..k] + [members[k]] + members[k + 1..];
  }

  lemma FrontOfBag(members: seq<Member>)
    requires members != []
    ensures multiset(members[..|members| - 1]) == multiset(members) - multiset{members[|members| - 1]}
    ensures members[|members| - 1] in multiset(members)
  {
    assert members == members[..|members| - 1] + [members[|members| - 1]];
  }

  lemma {:induction false} SizesOfBag(a: seq<Member>, b: seq<Member>)
    requires multiset(a) == multiset(b)
    ensures TotalSize(a) == TotalSize(b) && TotalCompressed(a) == TotalCompressed(b)
    decreases |a|
  {
    if a == [] {
      assert |multiset(b)| == |b|;
    } else {
      FrontOfBag(a);
      var k :| 0 <= k < |b| && b[k] == a[|a| - 1];
      RestOfBag(b, k);
      SizesOfBag(a[..|a| - 1], b[..k] + b[k + 1..]);
      TotalsWithout(b, k);
    }
  }

  lemma {:induction false} TotalsWithout(members: seq<Member>, k: nat)
    requires k < |members|
    ensures TotalSize(members) == TotalSize(members[..k] + members[k + 1..]) + members[k].size
    ensures TotalCompressed(members) == TotalCompressed(members[..k] + members[k + 1..]) + members[k].compressed
    decreases |members|
  {
    var n := |members| - 1;
    var rest := members[..k] + members[k + 1..];
    if k == n {
      assert rest == members[..n];
    } else {
      var front := members[..n];
      TotalsWithout(front, k);
      assert rest[..n - 1] == front[..k] + front[k + 1..];
      assert rest[n - 1] == members[n];
    }
  }

  lemma {:induction false} TwiceClashes(u: Unicode, members: seq<Member>, m: Member)
    requires NoClash(u, members)
    ensures multiset(members)[m] <= 1
  {
    hide Clash;
    if members != [] {
      var n := |members| - 1;
      assert members == members[..n] + [members[n]];
      assert NoClash(u, members[..n]);
      TwiceClashes(u, members[..n], m);
      forall j | 0 <= j < n ensures members[..n][j] != members[n] {
        ClashIsSymmetric(u, members[j], members[n]);
        assert !Clash(u, members[j], members[n]);
        ClashIsSymmetric(u, members[n], members[n]);
      }
      assert m == members[n] ==> m !in members[..n];
    }
  }

  lemma {:induction false} TwiceInBag(members: seq<Member>, j: nat, k: nat)
    requires j < k < |members| && members[j] == members[k]
    ensures multiset(members)[members[j]] >= 2
  {
    assert members == members[..k] + members[k..];
    assert members[..k][j] in multiset(members[..k]) && members[k..][0] in multiset(members[k..]);
  }

  lemma NoClashOfBag(u: Unicode, a: seq<Member>, b: seq<Member>)
    requires multiset(a) == multiset(b) && NoClash(u, a)
    ensures NoClash(u, b)
  {
    hide Clash;
    forall j, k | 0 <= j < k < |b| ensures !Clash(u, b[j], b[k]) {
      if b[j] == b[k] {
        TwiceInBag(b, j, k);
        TwiceClashes(u, a, b[j]);
      } else {
        assert b[j] in multiset(a) && b[k] in multiset(a);
        var i :| 0 <= i < |a| && a[i] == b[j];
        var l :| 0 <= l < |a| && a[l] == b[k];
        ClashIsSymmetric(u, a[i], a[l]);
        if i < l {
          assert !Clash(u, a[i], a[l]);
        } else {
          assert !Clash(u, a[l], a[i]);
        }
      }
    }
  }

  lemma SoundOfBag(u: Unicode, a: seq<Member>, b: seq<Member>)
    requires multiset(a) == multiset(b) && AllSound(u, a)
    ensures AllSound(u, b)
  {
    hide MemberIsSound;
    forall k | 0 <= k < |b| ensures MemberIsSound(u, b[k]) {
      assert b[k] in multiset(a);
    }
  }

  /** The same members in any order are accepted or refused alike. */
  lemma OrderDoesNotMatter(u: Unicode, a: seq<Member>, b: seq<Member>)
    requires multiset(a) == multiset(b)
    ensures Accepted(u, a) <==> Accepted(u, b)
  {
    hide NoClash, AllSound;
    assert |multiset(a)| == |a| && |multiset(b)| == |b|;
    SizesOfBag(a, b);
    if NoClash(u, a) {
      NoClashOfBag(u, a, b);
    }
    if NoClash(u, b) {
      NoClashOfBag(u, b, a);
    }
    if AllSound(u, a) {
      SoundOfBag(u, a, b);
    }
    if AllSound(u, b) {
      SoundOfBag(u, b, a);
    }
  }

  /** An accepted archive unpacks to a tree: no two members share a path, and whatever lies above
      a member is a directory or not a member at all. */
  lemma AcceptedIsTree(u: Unicode, members: seq<Member>, j: nat, k: nat)
    requires Accepted(u, members) && j < |members| && k < |members| && j != k
    ensures Key(u, members[j]) != Key(u, members[k])
    ensures Key(u, members[j]) < Key(u, members[k]) ==> IsDirectory(members[j])
  {
    hide Key;
    ClashIsSymmetric(u, members[j], members[k]);
    if j < k {
      assert !Clash(u, members[j], members[k]);
    } else {
      assert !Clash(u, members[k], members[j]);
    }
  }
}
