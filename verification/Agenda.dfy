/**
 The daily agenda (backend/applications/agenda.py): every active application is classified by its
 next action, the visible ones are ranked by one total order, and the first of them are listed.
 Times are in seconds.
 */
module Agenda {
  import opened Wrappers
  import opened Ordering

  type Instant = int

  const HOUR: Instant := 3600
  const DAY: Instant := 24 * HOUR

  datatype Stage = Open(name: string) | Rejected | Withdrawn | Archived

  datatype State = Overdue | Today | Upcoming | Unscheduled | NeedsAction | Later | Invalid

  /** One application; the next-action columns may be NULL. */
  datatype Row = Row(
    id: string, user: nat, revision: nat, stage: Stage, title: string, latest: Instant,
    task: Option<string>, action: Option<string>, due: Option<Instant>, priority: Option<string>)

  datatype Action = Action(task: string, title: string, due: Option<Instant>, priority: string)

  datatype Item = Item(id: string, revision: nat, title: string, latest: Instant, state: State, next: Option<Action>)

  datatype Window = Window(now: Instant, today: Instant, horizon: Instant)

  datatype Summary = Summary(window: Window, active: nat, visible: nat, later: nat, truncated: nat, items: seq<Item>)

  datatype Result = Listed(agenda: Summary) | Refused

  // ---- Classification ----

  predicate IsPriority(p: string) {
    p == "low" || p == "normal" || p == "high" || p == "urgent"
  }

  /** `_state_expression`, arm by arm. */
  function Classify(w: Window, r: Row): State {
    if r.task.None? && r.action.None? && r.priority.None? && r.due.None? then NeedsAction
    else if r.task.None? || r.action.None? || r.priority.None? then Invalid
    else if !IsPriority(r.priority.value) then Invalid
    else if r.task.value == "" || r.action.value == "" then Invalid
    else if r.due.None? then Unscheduled
    else if r.due.value < w.now then Overdue
    else if r.due.value < w.today then Today
    else if r.due.value <= w.horizon then Upcoming
    else Later
  }

  predicate HasAction(r: Row) {
    && r.task.Some? && r.action.Some? && r.priority.Some?
    && r.task.value != "" && r.action.value != "" && IsPriority(r.priority.value)
  }

  /** `_next_action`: None where the projection is refused. */
  function NextAction(r: Row): Option<Option<Action>> {
    if r.task.None? && r.action.None? && r.priority.None? then
      if r.due.Some? then None else Some(None)
    else if !HasAction(r) then None
    else Some(Some(Action(r.task.value, r.action.value, r.due, r.priority.value)))
  }

  /** What each state means for the due time. A time after the horizon is still today's business
      when the local day ends later than the horizon. */
  lemma StatesSplitTime(w: Window, r: Row)
    requires w.now < w.today && w.now <= w.horizon
    ensures Classify(w, r) == NeedsAction <==>
      r.task.None? && r.action.None? && r.priority.None? && r.due.None?
    ensures Classify(w, r) == Invalid <==> Classify(w, r) != NeedsAction && !HasAction(r)
    ensures Classify(w, r) == Overdue <==> HasAction(r) && r.due.Some? && r.due.value < w.now
    ensures Classify(w, r) == Today <==> HasAction(r) && r.due.Some? && w.now <= r.due.value < w.today
    ensures Classify(w, r) == Upcoming <==> HasAction(r) && r.due.Some? && w.today <= r.due.value <= w.horizon
    ensures Classify(w, r) == Later <==> HasAction(r) && r.due.Some? && r.due.value >= w.today && r.due.value > w.horizon
  {
  }

  // ---- Ranking ----

  function StateRank(s: State): nat {
    match s
    case Overdue => 0
    case Today => 1
    case Upcoming => 2
    case Unscheduled => 3
    case NeedsAction => 4
    case Later => 5
    case Invalid => 5
  }

  function PriorityRank(p: Option<string>): nat {
    if p == Some("urgent") then 0
    else if p == Some("high") then 1
    else if p == Some("normal") then 2
    else if p == Some("low") then 3
    else 4
  }

  /** NULL comes first in ascending order. */
  predicate DueBefore(a: Option<Instant>, b: Option<Instant>) {
    b.Some? && (a.None? || a.value < b.value)
  }

  predicate RowBefore(w: Window, a: Row, b: Row) {
    if StateRank(Classify(w, a)) != StateRank(Classify(w, b)) then StateRank(Classify(w, a)) < StateRank(Classify(w, b))
    else if a.due != b.due then DueBefore(a.due, b.due)
    else if PriorityRank(a.priority) != PriorityRank(b.priority) then PriorityRank(a.priority) < PriorityRank(b.priority)
    else if a.latest != b.latest then a.latest < b.latest
    else Before(a.id, b.id)
  }

  function Order(w: Window): (Row, Row) -> bool {
    (a, b) => RowBefore(w, a, b)
  }

  lemma RowsNotBeforeBoth(w: Window, a: Row, b: Row)
    ensures !(RowBefore(w, a, b) && RowBefore(w, b, a))
  {
    hide Classify;
    NotBeforeBoth(a.id, b.id);
  }

  lemma RowsAreTransitive(w: Window, a: Row, b: Row, c: Row)
    ensures !RowBefore(w, b, a) && !RowBefore(w, c, b) ==> !RowBefore(w, c, a)
  {
    hide Classify, PriorityRank, StateRank;
    BeforeIsTransitive(a.id, b.id, c.id);
  }

  lemma OrderIsWeak(w: Window)
    ensures WeakOrder(Order(w))
  {
    hide RowBefore;
    forall a, b ensures !(Order(w)(a, b) && Order(w)(b, a)) {
      RowsNotBeforeBoth(w, a, b);
    }
    forall a, b, c ensures !Order(w)(b, a) && !Order(w)(c, b) ==> !Order(w)(c, a) {
      RowsAreTransitive(w, a, b, c);
    }
  }

  /** The order tells any two applications apart, because it ends with the identity. */
  lemma OrderIsTotal(w: Window, a: Row, b: Row)
    requires a.id != b.id
    ensures RowBefore(w, a, b) || RowBefore(w, b, a)
  {
    hide Classify, PriorityRank;
    BeforeIsTotal(a.id, b.id);
  }

  const SHOWN := [Overdue, Today, Upcoming, Unscheduled, NeedsAction]

  const URGENCY := ["urgent", "high", "normal", "low"]

  /** The order of the agenda, key by key: first the more pressing state, then the earlier due time,
      then the more urgent action, then the application that has rested longer, then the identity. */
  lemma OrderExactly(w: Window, a: Row, b: Row)
    requires IsVisible(Classify(w, a)) && IsVisible(Classify(w, b))
    ensures forall i, j :: 0 <= i < |SHOWN| && 0 <= j < |SHOWN| && SHOWN[i] == Classify(w, a) && SHOWN[j] == Classify(w, b) ==>
      && (i < j ==> RowBefore(w, a, b) && !RowBefore(w, b, a))
      && (i == j && a.due.Some? && b.due.Some? && a.due != b.due ==> (RowBefore(w, a, b) <==> a.due.value < b.due.value))
    ensures forall i, j :: 0 <= i < |URGENCY| && 0 <= j < |URGENCY| && a.priority == Some(URGENCY[i]) && b.priority == Some(URGENCY[j]) ==>
      Classify(w, a) == Classify(w, b) && a.due == b.due ==>
        && (i < j ==> RowBefore(w, a, b) && !RowBefore(w, b, a))
        && (i == j && a.latest != b.latest ==> (RowBefore(w, a, b) <==> a.latest < b.latest))
        && (i == j && a.latest == b.latest ==> (RowBefore(w, a, b) <==> Before(a.id, b.id)))
  {
    StateRanks(Classify(w, a));
    StateRanks(Classify(w, b));
    PriorityRanks(a.priority);
    PriorityRanks(b.priority);
    hide Classify, StateRank, PriorityRank, Before;
  }

  lemma StateRanks(s: State)
    ensures forall i :: 0 <= i < |SHOWN| && SHOWN[i] == s ==> StateRank(s) == i
    ensures IsVisible(s) ==> s in SHOWN
  {
    assert SHOWN[0] == Overdue && SHOWN[1] == Today && SHOWN[2] == Upcoming && SHOWN[3] == Unscheduled && SHOWN[4] == NeedsAction;
  }

  lemma PriorityRanks(p: Option<string>)
    ensures forall i :: 0 <= i < |URGENCY| && p == Some(URGENCY[i]) ==> PriorityRank(p) == i
  {
    assert URGENCY[0] == "urgent" && URGENCY[1] == "high" && URGENCY[2] == "normal" && URGENCY[3] == "low";
    assert "urgent"[0] == 'u' && "high"[0] == 'h' && "normal"[0] == 'n' && "low"[0] == 'l';
  }

  // ---- The query ----

  predicate IsActive(user: nat, r: Row) {
    r.user == user && r.stage.Open?
  }

  predicate IsVisible(s: State) {
    s != Later && s != Invalid
  }

  function Active(user: nat, rows: seq<Row>): seq<Row> {
    if rows == [] then []
    else Active(user, rows[..|rows| - 1]) + (if IsActive(user, rows[|rows| - 1]) then [rows[|rows| - 1]] else [])
  }

  /** The rows in a state. */
  function In(w: Window, rows: seq<Row>, s: State): seq<Row> {
    if rows == [] then []
    else In(w, rows[..|rows| - 1], s) + (if Classify(w, rows[|rows| - 1]) == s then [rows[|rows| - 1]] else [])
  }

  function Visible(w: Window, rows: seq<Row>): seq<Row> {
    if rows == [] then []
    else Visible(w, rows[..|rows| - 1])
         + (if IsVisible(Classify(w, rows[|rows| - 1])) then [rows[|rows| - 1]] else [])
  }

  function Ranked(w: Window, user: nat, rows: seq<Row>): seq<Row> {
    Sort(Order(w), Visible(w, Active(user, rows)))
  }

  function ItemOf(w: Window, r: Row): Item {
    Item(r.id, r.revision, r.title, r.latest, Classify(w, r),
         if NextAction(r).Some? then NextAction(r).value else None)
  }

  function Taken(rows: seq<Row>, limit: nat): seq<Row> {
    if limit < |rows| then rows[..limit] else rows
  }

  /** `_window` and the bounds checked before it. */
  function WindowOf(now: Instant, dayEnd: Instant, days: int): Option<Window> {
    if !(1 <= days <= 30) || dayEnd <= now || dayEnd > now + 26 * HOUR then None
    else Some(Window(now, dayEnd, now + days * DAY))
  }

  /** The window is refused exactly for a horizon outside 1 to 30 days and for a local day that has
      ended or ends more than 26 hours from now. */
  lemma WindowExactly(now: Instant, dayEnd: Instant, days: int)
    ensures WindowOf(now, dayEnd, days).Some? <==> 1 <= days <= 30 && now < dayEnd <= now + 93600
    ensures WindowOf(now, dayEnd, days).Some? ==>
      WindowOf(now, dayEnd, days).value == Window(now, dayEnd, now + days * 86400)
  {
  }

  /** An action is today's although it is due after the horizon exactly when it is due between
      the horizon and the end of the local day; only a horizon of one day leaves such a gap. */
  lemma TodayBeyondTheHorizon(now: Instant, dayEnd: Instant, days: int, r: Row)
    requires WindowOf(now, dayEnd, days).Some?
    ensures var w := WindowOf(now, dayEnd, days).value;
            && (Classify(w, r) == Today && r.due.value > w.horizon <==>
                  HasAction(r) && r.due.Some? && now + days * DAY < r.due.value < dayEnd)
            && (Classify(w, r) == Today && r.due.value > w.horizon ==> days == 1 && dayEnd > now + DAY)
  {
    var w := WindowOf(now, dayEnd, days).value;
    assert w.horizon >= now + DAY && (days >= 2 ==> w.horizon >= now + 2 * DAY);
    StatesSplitTime(w, r);
  }

  const TOMORROW := Row("a", 1, 1, Open("applied"), "Clerk", 0, Some("t"), Some("Call"), Some(25 * HOUR), Some("normal"))

  /** The local day may end 26 hours from now: what is due in 25 hours is then today's, with the
      horizon at 24. */
  lemma TomorrowIsToday()
    ensures WindowOf(0, 26 * HOUR, 1).Some?
    ensures var w := WindowOf(0, 26 * HOUR, 1).value;
            Classify(w, TOMORROW) == Today && TOMORROW.due.value > w.horizon
  {
    TodayBeyondTheHorizon(0, 26 * HOUR, 1, TOMORROW);
  }

  /** The loop of `build` over the fetched rows: None stands for the exception. */
  method ListItems(w: Window, listed: seq<Row>) returns (items: Option<seq<Item>>)
    requires forall k :: 0 <= k < |listed| ==> IsVisible(Classify(w, listed[k]))
    ensures items.Some? && |items.value| == |listed|
    ensures forall k :: 0 <= k < |listed| ==> items.value[k] == ItemOf(w, listed[k])
  {
    hide Classify, IsVisible, NextAction;
    var done: seq<Item> := [];
    for k := 0 to |listed|
      invariant |done| == k
      invariant forall j :: 0 <= j < k ==> done[j] == ItemOf(w, listed[j])
    {
      var row := listed[k];
      ActionsArePresent(w, row);
      var next := NextAction(row);
      if next.None? {
        assert false;
        return None;
      }
      done := done + [Item(row.id, row.revision, row.title, row.latest, Classify(w, row), next.value)];
    }
    return Some(done);
  }

  predicate AnyInvalid(w: Window, user: nat, rows: seq<Row>) {
    exists a :: a in Active(user, rows) && Classify(w, a) == Invalid
  }

  /** An application counts when it is the user's and not rejected, withdrawn or archived; the whole
      agenda is refused exactly when the next action of one that counts is broken: there in part, or
      without a known priority, an identity or a title. */
  lemma BrokenActionsExactly(w: Window, user: nat, rows: seq<Row>)
    ensures AnyInvalid(w, user, rows) <==>
      exists r :: r in rows && r.user == user && r.stage.Open? && Broken(r)
  {
    hide Classify, Active;
    forall r ensures r in Active(user, rows) <==> r in rows && r.user == user && r.stage.Open? {
      InActive(user, rows, r);
    }
    forall r ensures Classify(w, r) == Invalid <==> Broken(r) {
      BrokenIsInvalid(w, r);
    }
  }

  predicate Broken(r: Row) {
    var whole := r.task.Some? && r.task != Some("") && r.action.Some? && r.action != Some("")
      && r.priority in {Some("low"), Some("normal"), Some("high"), Some("urgent")};
    !whole && (r.task.Some? || r.action.Some? || r.priority.Some? || r.due.Some?)
  }

  lemma BrokenIsInvalid(w: Window, r: Row)
    ensures Classify(w, r) == Invalid <==> Broken(r)
  {
  }

  lemma {:induction false} InActive(user: nat, rows: seq<Row>, r: Row)
    ensures r in Active(user, rows) <==> r in rows && r.user == user && r.stage.Open?
  {
    if rows != [] {
      InActive(user, rows[..|rows| - 1], r);
      assert rows == rows[..|rows| - 1] + [rows[|rows| - 1]];
    }
  }

  lemma InvalidCounted(w: Window, user: nat, rows: seq<Row>)
    ensures In(w, Active(user, rows), Invalid) != [] <==> AnyInvalid(w, user, rows)
  {
    hide Classify, Active, In;
    var active := Active(user, rows);
    if In(w, active, Invalid) != [] {
      InState(w, active, Invalid, In(w, active, Invalid)[0]);
    }
    if a :| a in active && Classify(w, a) == Invalid {
      InState(w, active, Invalid, a);
    }
  }

  /** What `build` returns for a window. */
  function AgendaOf(w: Window, user: nat, rows: seq<Row>, limit: nat, items: seq<Item>): Summary
    requires |items| == |Taken(Ranked(w, user, rows), limit)|
  {
    TakenIsShorter(Ranked(w, user, rows), limit);
    Summary(w, |Active(user, rows)|, |Ranked(w, user, rows)|, |In(w, Active(user, rows), Later)|,
            |Ranked(w, user, rows)| - |items|, items)
  }

  lemma TakenIsShorter(rows: seq<Row>, limit: nat)
    ensures |Taken(rows, limit)| <= |rows|
  {
  }

  /** `build` */
  method Build(user: nat, rows: seq<Row>, now: Instant, dayEnd: Instant, days: int, limit: int) returns (r: Result)
    ensures r.Refused? <==>
      || WindowOf(now, dayEnd, days).None? || !(1 <= limit <= 200)
      || AnyInvalid(WindowOf(now, dayEnd, days).value, user, rows)
    ensures r.Listed? ==>
      var w := WindowOf(now, dayEnd, days).value;
      var listed := Taken(Ranked(w, user, rows), limit);
      && |r.agenda.items| == |listed|
      && r.agenda == AgendaOf(w, user, rows, limit, r.agenda.items)
      && forall k :: 0 <= k < |listed| ==> r.agenda.items[k] == ItemOf(w, listed[k])
  {
    hide Active, In, Ranked, Taken, ItemOf, AnyInvalid, Classify, IsVisible;
    var window := WindowOf(now, dayEnd, days);
    if window.None? || !(1 <= limit <= 200) {
      return Refused;
    }
    var w := window.value;
    var active := Active(user, rows);
    InvalidCounted(w, user, rows);
    if In(w, active, Invalid) != [] {
      return Refused;
    }
    Conserved(w, active);
    RankedLength(w, user, rows);
    var later := |In(w, active, Later)|;
    var visible := |active| - later;
    var listed := Taken(Ranked(w, user, rows), limit);
    forall k | 0 <= k < |listed| ensures IsVisible(Classify(w, listed[k])) {
      ListedIsVisible(w, user, rows, limit, k);
    }
    var items := ListItems(w, listed);
    TakenIsShorter(Ranked(w, user, rows), limit);
    return Listed(Summary(w, |active|, visible, later, visible - |items.value|, items.value));
  }

  lemma {:induction false} InState(w: Window, rows: seq<Row>, s: State, r: Row)
    ensures r in In(w, rows, s) <==> r in rows && Classify(w, r) == s
  {
    hide Classify;
    if rows != [] {
      InState(w, rows[..|rows| - 1], s, r);
      assert rows == rows[..|rows| - 1] + [rows[|rows| - 1]];
    }
  }

  lemma {:induction false} InVisible(w: Window, rows: seq<Row>, r: Row)
    ensures r in Visible(w, rows) <==> r in rows && IsVisible(Classify(w, r))
  {
    hide Classify, IsVisible;
    if rows != [] {
      InVisible(w, rows[..|rows| - 1], r);
      assert rows == rows[..|rows| - 1] + [rows[|rows| - 1]];
    }
  }

  lemma {:induction false} Conserved(w: Window, rows: seq<Row>)
    ensures |rows| == |Visible(w, rows)| + |In(w, rows, Later)| + |In(w, rows, Invalid)|
  {
    hide Classify;
    if rows != [] {
      Conserved(w, rows[..|rows| - 1]);
    }
  }

  lemma RankedMember(w: Window, user: nat, rows: seq<Row>, r: Row)
    ensures r in Ranked(w, user, rows) <==> r in Active(user, rows) && IsVisible(Classify(w, r))
  {
    hide Classify, IsVisible, Sort;
    var visible := Visible(w, Active(user, rows));
    SortKeeps(Order(w), visible);
    InVisible(w, Active(user, rows), r);
    assert r in Ranked(w, user, rows) <==> r in multiset(visible);
  }

  lemma ListedIsVisible(w: Window, user: nat, rows: seq<Row>, limit: nat, k: nat)
    requires k < |Taken(Ranked(w, user, rows), limit)|
    ensures IsVisible(Classify(w, Taken(Ranked(w, user, rows), limit)[k]))
  {
    hide Classify, IsVisible, Ranked;
    RankedMember(w, user, rows, Ranked(w, user, rows)[k]);
  }

  /** A visible application has a next action exactly when it does not need one: the check of the
      projection cannot fail for it. */
  lemma ActionsArePresent(w: Window, r: Row)
    requires IsVisible(Classify(w, r))
    ensures NextAction(r).Some?
    ensures ItemOf(w, r).next.None? <==> Classify(w, r) == NeedsAction
  {
  }

  /** A listed application shows itself and its own next action. */
  lemma ItemsShowTheirRows(w: Window, r: Row)
    requires IsVisible(Classify(w, r))
    ensures var i := ItemOf(w, r);
      && i.id == r.id && i.revision == r.revision && i.title == r.title && i.latest == r.latest
      && i.state == Classify(w, r)
      && (i.next.Some? ==>
            && r.task == Some(i.next.value.task) && r.action == Some(i.next.value.title)
            && r.due == i.next.value.due && r.priority == Some(i.next.value.priority))
  {
  }

  // ---- What an agenda says ----

  /** Every active application is listed, truncated or later, and is counted once. */
  lemma EveryApplicationIsCountedOnce(w: Window, user: nat, rows: seq<Row>, limit: nat)
    requires forall a :: a in Active(user, rows) ==> Classify(w, a) != Invalid
    ensures var ranked, active := Ranked(w, user, rows), Active(user, rows);
            && |Taken(ranked, limit)| == (if |ranked| < limit then |ranked| else limit)
            && |active| == |Taken(ranked, limit)| + (|ranked| - |Taken(ranked, limit)|) + |In(w, active, Later)|
    ensures forall a :: a in Active(user, rows) ==>
      (a in Ranked(w, user, rows) <==> a !in In(w, Active(user, rows), Later))
  {
    hide Classify, Ranked;
    var active := Active(user, rows);
    Conserved(w, active);
    RankedLength(w, user, rows);
    assert In(w, active, Invalid) == [] by {
      if In(w, active, Invalid) != [] {
        InState(w, active, Invalid, In(w, active, Invalid)[0]);
      }
    }
    forall a | a in active ensures a in Ranked(w, user, rows) <==> a !in In(w, active, Later) {
      RankedMember(w, user, rows, a);
      InState(w, active, Later, a);
    }
  }

  lemma RankedLength(w: Window, user: nat, rows: seq<Row>)
    ensures |Ranked(w, user, rows)| == |Visible(w, Active(user, rows))|
  {
    hide Sort;
    SortKeeps(Order(w), Visible(w, Active(user, rows)));
  }

  /** The listed applications are the first of the visible ones: they are in order, and none that
      was cut off comes before one that is listed. */
  lemma TheFirstAreListed(w: Window, user: nat, rows: seq<Row>, limit: nat, k: nat, r: Row)
    requires k < |Taken(Ranked(w, user, rows), limit)|
    requires r in Ranked(w, user, rows)
    ensures var listed := Taken(Ranked(w, user, rows), limit);
            && Sorted(Order(w), listed)
            && (r !in listed ==> !RowBefore(w, r, listed[k]))
  {
    hide RowBefore, Visible, Sort;
    var ranked := Ranked(w, user, rows);
    var listed := Taken(ranked, limit);
    OrderIsWeak(w);
    SortSorts(Order(w), Visible(w, Active(user, rows)));
    var j :| 0 <= j < |ranked| && ranked[j] == r;
    if r !in listed {
      assert j >= |listed|;
      assert !Order(w)(ranked[j], ranked[k]);
    }
  }

  predicate DistinctIds(rows: seq<Row>) {
    forall j, k :: 0 <= j < k < |rows| ==> rows[j].id != rows[k].id
  }

  lemma {:induction false} SameBags(w: Window, user: nat, a: seq<Row>, b: seq<Row>)
    requires multiset(a) == multiset(b)
    ensures multiset(Visible(w, Active(user, a))) == multiset(Visible(w, Active(user, b)))
  {
    forall r ensures multiset(Visible(w, Active(user, a)))[r] == multiset(Visible(w, Active(user, b)))[r] {
      Multiplicity(w, user, a, r);
      Multiplicity(w, user, b, r);
    }
  }

  lemma {:induction false} ActiveMultiplicity(user: nat, rows: seq<Row>, r: Row)
    ensures multiset(Active(user, rows))[r] == if IsActive(user, r) then multiset(rows)[r] else 0
  {
    if rows != [] {
      ActiveMultiplicity(user, rows[..|rows| - 1], r);
      assert rows == rows[..|rows| - 1] + [rows[|rows| - 1]];
    }
  }

  lemma {:induction false} VisibleMultiplicity(w: Window, rows: seq<Row>, r: Row)
    ensures multiset(Visible(w, rows))[r] == if IsVisible(Classify(w, r)) then multiset(rows)[r] else 0
  {
    hide Classify, IsVisible;
    if rows != [] {
      VisibleMultiplicity(w, rows[..|rows| - 1], r);
      assert rows == rows[..|rows| - 1] + [rows[|rows| - 1]];
    }
  }

  lemma Multiplicity(w: Window, user: nat, rows: seq<Row>, r: Row)
    ensures multiset(Visible(w, Active(user, rows)))[r] ==
      if IsActive(user, r) && IsVisible(Classify(w, r)) then multiset(rows)[r] else 0
  {
    hide Classify, IsVisible;
    ActiveMultiplicity(user, rows, r);
    VisibleMultiplicity(w, Active(user, rows), r);
  }

  /** The agenda does not depend on the order in which the database hands out its rows. */
  lemma RowOrderDoesNotMatter(w: Window, user: nat, a: seq<Row>, b: seq<Row>)
    requires multiset(a) == multiset(b) && DistinctIds(a)
    ensures Ranked(w, user, a) == Ranked(w, user, b)
  {
    hide RowBefore, Sort, Classify;
    var va, vb := Visible(w, Active(user, a)), Visible(w, Active(user, b));
    SameBags(w, user, a, b);
    OrderIsWeak(w);
    SortSorts(Order(w), va);
    SortSorts(Order(w), vb);
    SortKeeps(Order(w), va);
    SortKeeps(Order(w), vb);
    forall x, y | x in Sort(Order(w), va) && y in Sort(Order(w), va) && x != y
      ensures Order(w)(x, y) || Order(w)(y, x)
    {
      RankedMember(w, user, a, x);
      RankedMember(w, user, a, y);
      ActiveMultiplicity(user, a, x);
      ActiveMultiplicity(user, a, y);
      assert x in multiset(Active(user, a)) && y in multiset(Active(user, a));
      DifferentRows(a, x, y);
      OrderIsTotal(w, x, y);
    }
    SortedIsUnique(Order(w), Sort(Order(w), va), Sort(Order(w), vb));
  }

  lemma DifferentRows(rows: seq<Row>, x: Row, y: Row)
    requires DistinctIds(rows) && x in multiset(rows) && y in multiset(rows) && x != y
    ensures x.id != y.id
  {
    var j :| 0 <= j < |rows| && rows[j] == x;
    var k :| 0 <= k < |rows| && rows[k] == y;
    if j < k {
      assert rows[j].id != rows[k].id;
    } else {
      assert rows[k].id != rows[j].id;
    }
  }
}
