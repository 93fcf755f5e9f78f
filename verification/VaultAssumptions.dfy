/**
 The assumptions about SQLite and about a launch under which `VaultMigration` is proved can be
 met together: a database file may simply spell out its rows and heads.
 */
module VaultAssumptions {
  import opened Wrappers
  import opened VaultMigration

  // ---- Spelling out a view ----

  function Letters(s: string): Bytes {
    [|s|] + seq(|s|, i requires 0 <= i < |s| => s[i] as nat)
  }

  function Spelled(l: seq<string>): Bytes {
    if l == [] then [0] else [1] + Letters(l[0]) + Spelled(l[1..])
  }

  lemma LettersEnd(a: string, b: string, x: Bytes, y: Bytes)
    requires Letters(a) + x == Letters(b) + y
    ensures a == b && x == y
  {
    var t := Letters(a) + x;
    assert t[0] == |a| && t[0] == |b|;
    forall i | 0 <= i < |a| ensures a[i] == b[i] {
      assert t[i + 1] == a[i] as nat && t[i + 1] == b[i] as nat;
    }
    assert x == t[|a| + 1..] == y;
  }

  lemma {:induction false} SpelledEnds(a: seq<string>, b: seq<string>, x: Bytes, y: Bytes)
    requires Spelled(a) + x == Spelled(b) + y
    ensures a == b && x == y
  {
    var t := Spelled(a) + x;
    assert t[0] == (if a == [] then 0 else 1) && t[0] == (if b == [] then 0 else 1);
    if a == [] {
      assert x == t[1..] == y;
    } else {
      assert t[1..] == Letters(a[0]) + (Spelled(a[1..]) + x) == Letters(b[0]) + (Spelled(b[1..]) + y);
      LettersEnd(a[0], b[0], Spelled(a[1..]) + x, Spelled(b[1..]) + y);
      SpelledEnds(a[1..], b[1..], x, y);
      assert a == [a[0]] + a[1..] && b == [b[0]] + b[1..];
    }
  }

  /** The members of a set in some order. */
  ghost function Listed(s: set<string>): (l: seq<string>)
    ensures forall x :: x in l <==> x in s
  {
    if s == {} then [] else var x :| x in s; [x] + Listed(s - {x})
  }

  ghost function FileOf(v: View): Bytes {
    if v.Corrupt? || v == EMPTY_VIEW then []
    else [if v.tables then 1 else 0] + (Spelled(v.rows) + Spelled(Listed(v.heads)))
  }

  lemma FilesTellViewsApart(v: View, w: View)
    requires v.View? && w.View? && FileOf(v) == FileOf(w)
    ensures v == w
  {
    if v != EMPTY_VIEW && w != EMPTY_VIEW {
      assert FileOf(v)[1..] == Spelled(v.rows) + Spelled(Listed(v.heads));
      assert FileOf(w)[1..] == Spelled(w.rows) + Spelled(Listed(w.heads));
      SpelledEnds(v.rows, w.rows, Spelled(Listed(v.heads)), Spelled(Listed(w.heads)));
      assert Spelled(Listed(v.heads)) + [] == Spelled(Listed(w.heads)) + [];
      SpelledEnds(Listed(v.heads), Listed(w.heads), [], []);
      assert forall x :: x in v.heads <==> x in Listed(v.heads);
      assert v.heads == w.heads;
      assert FileOf(v)[0] == FileOf(w)[0];
    }
  }

  ghost function ViewOf(b: Bytes): View {
    if v: View :| v.View? && FileOf(v) == b then v else Corrupt
  }

  lemma FilesOpen(v: View)
    requires v.View?
    ensures ViewOf(FileOf(v)) == v
  {
    hide FileOf;
    FilesTellViewsApart(v, ViewOf(FileOf(v)));
  }

  // ---- An instance ----

  ghost function PlainSqlite(): Sqlite {
    Sqlite((b, s) => ViewOf(b), v => FileOf(v))
  }

  ghost function Upgraded(head: string, b: Bytes): Bytes {
    if ViewOf(b).View? then FileOf(ViewOf(b).(heads := {head})) else b
  }

  ghost function Appended(b: Bytes, w: string): Bytes {
    if ViewOf(b).View? then FileOf(ViewOf(b).(rows := ViewOf(b).rows + [w])) else b
  }

  /** A launch that upgrades whatever it is given and serves the writes, under any faults. */
  ghost function PlainLaunch(head: string, writes: seq<string>, faults: seq<Fault>): Launch {
    Launch(head, heads => true, 0, [], (b, s) => Upgrade(Upgraded(head, b), map[], false), (b, s) => Upgrade(b, s, true),
           (b, s, w) => (Appended(b, w), map[]), writes, faults)
  }

  /** For every head, writes and faults there is a lawful launch, with a lawful SQLite, whose
      upgrades all succeed. */
  lemma AssumptionsCanBeMet(head: string, writes: seq<string>, faults: seq<Fault>)
    ensures PlainSqlite().Lawful()
    ensures var l := PlainLaunch(head, writes, faults);
      l.Lawful(PlainSqlite()) && l.Succeeds(PlainSqlite()) && l.writes == writes && l.faults == faults
  {
    hide FileOf, ViewOf;
    var q, l := PlainSqlite(), PlainLaunch(head, writes, faults);
    EmptyFile();
    forall v: View | v.View? ensures q.open(q.copy(v), map[]) == v {
      FilesOpen(v);
    }
    forall m, s | q.open(m, s).View?
      ensures var u := l.upgrade(m, s);
        !u.raised && q.open(u.main, u.sidecars) == q.open(m, s).(heads := {head})
    {
      FilesOpen(ViewOf(m).(heads := {head}));
    }
    forall m, s, w | q.open(m, s).View?
      ensures var (m', s') := l.commit(m, s, w);
        q.open(m', s') == q.open(m, s).(rows := q.open(m, s).rows + [w])
    {
      FilesOpen(ViewOf(m).(rows := ViewOf(m).rows + [w]));
    }
  }

  lemma EmptyFile()
    ensures ViewOf([]) == EMPTY_VIEW
  {
    assert FileOf(EMPTY_VIEW) == [];
    FilesOpen(EMPTY_VIEW);
  }
}
