/**
 One-shot publication of the installation secret (desktop/backend_main.py): any number of
 processes write a private temporary file, try to hard-link it to the one published name, and
 read back what is published. One system call is one step; a process may be killed between any
 two. A directory entry is a name of an inode, and the link count of an inode is the number of
 its names. Temporary names are drawn at random and never drawn twice once removed.
 */
module SecretPublication {

  import opened Wrappers

  type Inode = nat
  type Name = nat
  type Pid = nat

  const TEMP_ATTEMPTS: nat := 32
  const MAX_SIBLINGS: nat := 64

  /** Why a read is made: the first one may find nothing, and the one after a successful link
      must find what was linked. */
  datatype Purpose = First | Own(secret: string) | Other

  datatype Failure =
    | TooManySiblings | AmbiguousLinks | UnsafeAlias | Unsettled | Changed
    | Incomplete | Missing | Replaced | NamesExhausted

  datatype Stage =
    | Look(why: Purpose)
    | List(why: Purpose, inode: Inode)
    | Check(why: Purpose, inode: Inode, rest: set<Name>, aliases: set<Name>)
    | LookAgain(why: Purpose, inode: Inode)
    | Unlink(why: Purpose, inode: Inode, name: Name)
    | Confirm(why: Purpose, inode: Inode)
    | Read(why: Purpose, inode: Inode)
    | Reserve(secret: string, attempt: nat)
    | Write(secret: string, name: Name, inode: Inode)
    | Link(secret: string, name: Name, inode: Inode)
    | CleanUp(secret: string, name: Name, published: bool)
    | Returned(secret: string)
    | Failed(failure: Failure)

  /** `content` is None while a file is being written. `origin` is a history: the temporary name
      under which an inode was created. */
  datatype State = State(
    path: Option<Inode>,
    temps: map<Name, Inode>,
    content: map<Inode, Option<string>>,
    origin: map<Inode, Name>,
    used: set<Name>,
    processes: map<Pid, Stage>)

  datatype Event =
    | Spawn(pid: Pid)
    | Kill(pid: Pid)
    | Step(pid: Pid, name: Name, secret: string)

  function Aliases(s: State, i: Inode): set<Name> {
    set n | n in s.temps && s.temps[n] == i
  }

  /** st_nlink */
  function Links(s: State, i: Inode): nat {
    |Aliases(s, i)| + (if s.path == Some(i) then 1 else 0)
  }

  function FreshInode(s: State): Inode {
    |s.content|
  }

  function At(s: State, pid: Pid, stage: Stage): State {
    s.(processes := s.processes[pid := stage])
  }

  /** What `_settle_installation_secret_publication` does with the first `lstat`. */
  function AfterLook(s: State, why: Purpose, secret: string): Stage {
    match s.path
    case None => if why.First? then Reserve(secret, 0) else Failed(Missing)
    case Some(i) =>
      if Links(s, i) == 1 then Read(why, i)
      else if Links(s, i) != 2 then Failed(AmbiguousLinks)
      else List(why, i)
  }

  function AfterList(s: State, why: Purpose, i: Inode): Stage {
    if |s.temps| > MAX_SIBLINGS then Failed(TooManySiblings) else Check(why, i, s.temps.Keys, {})
  }

  /** One candidate of the listing, or the verdict once all are seen. */
  function AfterCheck(s: State, why: Purpose, i: Inode, rest: set<Name>, aliases: set<Name>, name: Name): Stage {
    if rest == {} then
      if |aliases| != 1 then LookAgain(why, i)
      else if name in aliases then Unlink(why, i, name)
      else Check(why, i, rest, aliases)
    else if name !in rest then Check(why, i, rest, aliases)
    else if name !in s.temps || s.temps[name] != i then Check(why, i, rest - {name}, aliases)
    else if Links(s, i) != 2 then Failed(UnsafeAlias)
    else Check(why, i, rest - {name}, aliases + {name})
  }

  function AfterLookAgain(s: State, why: Purpose): Stage {
    match s.path
    case None => Failed(Missing)
    case Some(i) => if Links(s, i) == 1 then Read(why, i) else Failed(AmbiguousLinks)
  }

  function AfterConfirm(s: State, why: Purpose, i: Inode): Stage {
    if s.path == Some(i) && Links(s, i) == 1 then Read(why, i) else Failed(Unsettled)
  }

  /** Open, compare with the earlier `lstat`, read, and compare with what was linked. */
  function AfterRead(s: State, why: Purpose, i: Inode): Stage {
    if s.path != Some(i) || Links(s, i) != 1 then Failed(Changed)
    else if i !in s.content || s.content[i].None? then Failed(Incomplete)
    else if why.Own? && why.secret != s.content[i].value then Failed(Replaced)
    else Returned(s.content[i].value)
  }

  function Act(s: State, pid: Pid, name: Name, secret: string): State
    requires pid in s.processes
  {
    match s.processes[pid]
    case Look(why) => At(s, pid, AfterLook(s, why, secret))
    case List(why, i) => At(s, pid, AfterList(s, why, i))
    case Check(why, i, rest, aliases) => At(s, pid, AfterCheck(s, why, i, rest, aliases, name))
    case LookAgain(why, i) => At(s, pid, AfterLookAgain(s, why))
    case Unlink(why, i, alias) => At(s.(temps := s.temps - {alias}), pid, Confirm(why, i))
    case Confirm(why, i) => At(s, pid, AfterConfirm(s, why, i))
    case Read(why, i) => At(s, pid, AfterRead(s, why, i))
    case Reserve(value, attempt) =>
      if attempt >= TEMP_ATTEMPTS then At(s, pid, Failed(NamesExhausted))
      else if name in s.temps then At(s, pid, Reserve(value, attempt + 1))
      else if name in s.used then s
      else At(Reserved(s, name), pid, Write(value, name, FreshInode(s)))
    case Write(value, temp, i) =>
      At(s.(content := s.content[i := Some(value)]), pid, Link(value, temp, i))
    case Link(value, temp, i) =>
      if temp !in s.temps then At(s, pid, Failed(Missing))
      else if s.path.Some? then At(s, pid, CleanUp(value, temp, false))
      else At(s.(path := Some(s.temps[temp])), pid, CleanUp(value, temp, true))
    case CleanUp(value, temp, published) =>
      At(s.(temps := s.temps - {temp}), pid, Look(if published then Own(value) else Other))
    case Returned(_) => s
    case Failed(_) => s
  }

  function Reserved(s: State, name: Name): State {
    s.(temps := s.temps[name := FreshInode(s)],
       content := s.content[FreshInode(s) := None],
       origin := s.origin[FreshInode(s) := name],
       used := s.used + {name})
  }

  function Apply(s: State, e: Event): State {
    match e
    case Spawn(pid) => if pid in s.processes then s else At(s, pid, Look(First))
    case Kill(pid) => s.(processes := s.processes - {pid})
    case Step(pid, name, secret) => if pid in s.processes then Act(s, pid, name, secret) else s
  }

  function Execute(s: State, events: seq<Event>): State
    decreases |events|
  {
    if events == [] then s else Execute(Apply(s, events[0]), events[1..])
  }

  // --- The invariant ---

  /** Inodes are numbered in order of creation, and a name in use is the one an inode was born with. */
  ghost predicate NamesOk(s: State) {
    && (forall i: Inode :: i in s.content <==> i < |s.content|)
    && s.origin.Keys == s.content.Keys
    && (forall n :: n in s.temps ==> s.temps[n] in s.origin && s.origin[s.temps[n]] == n)
    && (forall i :: i in s.origin ==> s.origin[i] in s.used)
    && (forall i, j :: i in s.origin && j in s.origin && s.origin[i] == s.origin[j] ==> i == j)
  }

  /** What is published is completely written. */
  ghost predicate PathOk(s: State) {
    s.path.Some? ==> s.path.value in s.content && s.content[s.path.value].Some?
  }

  /** The published secret is `secret`. */
  ghost predicate Publishes(s: State, secret: string) {
    s.path.Some? && s.path.value in s.content && s.content[s.path.value] == Some(secret)
  }

  ghost predicate PurposeOk(s: State, why: Purpose) {
    && (why.Own? ==> Publishes(s, why.secret))
    && (why.Other? ==> s.path.Some?)
  }

  /** The temporary name of inode `i` is gone. */
  ghost predicate Lone(s: State, i: Inode) {
    i in s.origin && s.origin[i] !in s.temps
  }

  ghost predicate StageOk(s: State, stage: Stage) {
    match stage
    case Look(why) => PurposeOk(s, why)
    case List(why, i) => PurposeOk(s, why) && s.path == Some(i)
    case Check(why, i, rest, aliases) =>
      && PurposeOk(s, why) && s.path == Some(i) && i in s.origin
      && aliases <= {s.origin[i]}
      && (Lone(s, i) || s.origin[i] in rest + aliases)
    case LookAgain(why, i) => PurposeOk(s, why) && s.path == Some(i) && Lone(s, i)
    case Unlink(why, i, name) => PurposeOk(s, why) && s.path == Some(i) && i in s.origin && s.origin[i] == name
    case Confirm(why, i) => PurposeOk(s, why) && s.path == Some(i) && Lone(s, i)
    case Read(why, i) => PurposeOk(s, why) && s.path == Some(i) && Lone(s, i)
    case Reserve(_, _) => true
    case Write(_, name, i) =>
      i in s.origin && s.origin[i] == name && name in s.temps && s.temps[name] == i && s.path != Some(i)
    case Link(secret, name, i) =>
      && i in s.origin && s.origin[i] == name && name in s.temps && s.temps[name] == i && s.path != Some(i)
      && i in s.content && s.content[i] == Some(secret)
    case CleanUp(secret, name, published) =>
      && s.path.Some? && name in s.used
      && (published ==> Publishes(s, secret))
      && (!published && name in s.temps ==> s.temps[name] != s.path.value)
    case Returned(secret) => Publishes(s, secret)
    case Failed(failure) => failure.TooManySiblings? || failure.NamesExhausted?
  }

  /** The inode that a process is still writing or about to link. */
  function Holds(stage: Stage): Option<Name> {
    if stage.Write? || stage.Link? then Some(stage.name)
    else if stage.CleanUp? then Some(stage.name)
    else None
  }

  ghost predicate ProcessesOk(s: State) {
    && (forall p :: p in s.processes ==> StageOk(s, s.processes[p]))
    && (forall p, q :: p in s.processes && q in s.processes ==>
          Holds(s.processes[p]).Some? && Holds(s.processes[p]) == Holds(s.processes[q]) ==> p == q)
  }

  ghost predicate Inv(s: State) {
    NamesOk(s) && PathOk(s) && ProcessesOk(s)
  }

  /** Before the first of these processes: nothing is published, or a complete secret is, with
      whatever temporary files earlier kills have left behind. */
  ghost predicate Initial(s: State) {
    NamesOk(s) && PathOk(s) && s.processes == map[]
  }

  // --- Every step keeps the invariant ---

  /** What a step of the holder of `held` may do to the directory, as the others see it. */
  ghost predicate Moves(s: State, s': State, held: Option<Name>) {
    && (s.path.Some? ==> s'.path == s.path)
    && (s.path.None? && s'.path.Some? ==>
          s'.path.value in s.origin && held == Some(s.origin[s'.path.value]))
    && s.used <= s'.used
    && (forall i :: i in s.origin ==> i in s'.origin && s'.origin[i] == s.origin[i])
    && (forall i :: i in s.content ==> i in s'.content)
    && (forall i :: i in s.content && i in s.origin && held != Some(s.origin[i]) ==> s'.content[i] == s.content[i])
    && (s.path.Some? && s.path.value in s.content ==> s'.content[s.path.value] == s.content[s.path.value])
    && (forall n :: n in s'.temps ==> (n in s.temps && s'.temps[n] == s.temps[n]) || n !in s.used)
    && (forall n :: n in s.temps && n !in s'.temps ==> held == Some(n) || s.path == Some(s.temps[n]))
  }

  /** A stage stays in order through the steps of the processes that hold another name. */
  lemma StageSurvives(s: State, s': State, held: Option<Name>, stage: Stage)
    requires NamesOk(s) && StageOk(s, stage) && Moves(s, s', held)
    requires held.Some? ==> Holds(stage) != held
    ensures StageOk(s', stage)
  {
  }

  /** The published inode has one name, or two while its temporary name is there. */
  lemma LinkCount(s: State, i: Inode)
    requires NamesOk(s) && s.path == Some(i) && i in s.origin
    ensures Links(s, i) == if Lone(s, i) then 1 else 2
  {
    assert Aliases(s, i) == if Lone(s, i) then {} else {s.origin[i]} by {
      if !Lone(s, i) {
        assert s.origin[s.temps[s.origin[i]]] == s.origin[i];
      }
    }
  }

  /** The process `pid` moves on to `stage` after the directory has changed from `s` to `s'`. */
  lemma MoveKeeps(s: State, s': State, pid: Pid, held: Option<Name>, stage: Stage)
    requires Inv(s) && pid in s.processes && s'.processes == s.processes
    requires Moves(s, s', held) && NamesOk(s') && PathOk(s')
    requires held.Some? ==> held == Holds(s.processes[pid])
    requires StageOk(s', stage)
    requires Holds(stage).None? || Holds(stage) == Holds(s.processes[pid])
      || (Holds(stage).value !in s.used && Holds(s.processes[pid]).None?)
    ensures Inv(At(s', pid, stage))
  {
    hide StageOk, Moves, NamesOk, PathOk;
    var t := At(s', pid, stage);
    SameNames(s', t);
    forall p | p in t.processes
      ensures StageOk(t, t.processes[p])
    {
      if p != pid {
        StageSurvives(s, s', held, s.processes[p]);
        SameDirectory(s', t, s.processes[p]);
      } else {
        SameDirectory(s', t, stage);
      }
    }
    forall p | p in s.processes && Holds(s.processes[p]).Some?
      ensures Holds(s.processes[p]).value in s.used
    {
      HeldIsUsed(s, s.processes[p]);
    }
  }

  lemma SameDirectory(s: State, t: State, stage: Stage)
    requires StageOk(s, stage) && t == s.(processes := t.processes)
    ensures StageOk(t, stage)
  {
  }

  lemma SameNames(s: State, t: State)
    requires t == s.(processes := t.processes)
    ensures NamesOk(s) ==> NamesOk(t)
    ensures PathOk(s) ==> PathOk(t)
  {
  }

  lemma HeldIsUsed(s: State, stage: Stage)
    requires NamesOk(s) && StageOk(s, stage) && Holds(stage).Some?
    ensures Holds(stage).value in s.used
  {
  }

  lemma ProcessIsOk(s: State, pid: Pid)
    requires Inv(s) && pid in s.processes
    ensures StageOk(s, s.processes[pid])
  {
  }

  lemma PublishedHasOrigin(s: State)
    requires Inv(s) && s.path.Some?
    ensures s.path.value in s.origin
  {
  }

  lemma ReadingStepKeeps(s: State, pid: Pid, name: Name, secret: string)
    requires Inv(s) && pid in s.processes
    requires var stage := s.processes[pid];
      stage.Look? || stage.List? || stage.LookAgain? || stage.Confirm? || stage.Read?
    ensures Inv(Act(s, pid, name, secret))
  {
    hide Inv, Links;
    ProcessIsOk(s, pid);
    if s.path.Some? {
      PublishedHasOrigin(s);
      LinkCountInv(s, s.path.value);
    }
    match s.processes[pid]
    case Look(why) => StayKeeps(s, pid, AfterLook(s, why, secret));
    case List(why, i) => StayKeeps(s, pid, AfterList(s, why, i));
    case LookAgain(why, i) => StayKeeps(s, pid, AfterLookAgain(s, why));
    case Confirm(why, i) => StayKeeps(s, pid, AfterConfirm(s, why, i));
    case Read(why, i) => StayKeeps(s, pid, AfterRead(s, why, i));
  }

  lemma LinkCountInv(s: State, i: Inode)
    requires Inv(s) && s.path == Some(i) && i in s.origin
    ensures Links(s, i) == if Lone(s, i) then 1 else 2
    ensures i in s.content && s.content[i].Some?
    ensures forall n :: n in s.temps && s.temps[n] == i ==> n == s.origin[i]
  {
    LinkCount(s, i);
  }

  /** A step that changes nothing but the stage. */
  lemma StayKeeps(s: State, pid: Pid, stage: Stage)
    requires Inv(s) && pid in s.processes && StageOk(s, stage)
    requires Holds(stage).None? || Holds(stage) == Holds(s.processes[pid])
    ensures Inv(At(s, pid, stage))
  {
    MoveKeeps(s, s, pid, None, stage);
  }

  lemma CheckStepKeeps(s: State, pid: Pid, name: Name, secret: string)
    requires Inv(s) && pid in s.processes && s.processes[pid].Check?
    ensures Inv(Act(s, pid, name, secret))
  {
    hide Inv;
    ProcessIsOk(s, pid);
    var stage := s.processes[pid];
    LinkCountInv(s, stage.inode);
    CheckIsOk(s, stage, name);
    StayKeeps(s, pid, AfterCheck(s, stage.why, stage.inode, stage.rest, stage.aliases, name));
  }

  lemma AtMostOne(names: set<Name>, n: Name)
    requires names <= {n}
    ensures names == {} || |names| == 1
  {
    if n in names {
      assert names == {n};
    }
  }

  lemma CheckIsOk(s: State, stage: Stage, name: Name)
    requires stage.Check? && StageOk(s, stage)
    requires Links(s, stage.inode) == if Lone(s, stage.inode) then 1 else 2
    requires forall n :: n in s.temps && s.temps[n] == stage.inode ==> n == s.origin[stage.inode]
    ensures StageOk(s, AfterCheck(s, stage.why, stage.inode, stage.rest, stage.aliases, name))
  {
    AtMostOne(stage.aliases, s.origin[stage.inode]);
  }

  lemma RemovalMoves(s: State, held: Option<Name>, name: Name)
    requires Inv(s)
    requires held == Some(name) || (name in s.temps ==> s.path == Some(s.temps[name]))
    ensures var s' := s.(temps := s.temps - {name}); Moves(s, s', held) && NamesOk(s') && PathOk(s')
  {
    hide ProcessesOk, Moves, NamesOk;
    RemovalIsMove(s, held, name);
    NamesAfterRemoval(s, name);
  }

  lemma NamesAfterRemoval(s: State, name: Name)
    requires NamesOk(s)
    ensures NamesOk(s.(temps := s.temps - {name}))
  {
    var s' := s.(temps := s.temps - {name});
    forall n | n in s'.temps
      ensures s'.temps[n] in s'.origin && s'.origin[s'.temps[n]] == n
    {
      assert n in s.temps && s'.temps[n] == s.temps[n];
    }
  }

  lemma RemovalIsMove(s: State, held: Option<Name>, name: Name)
    requires held == Some(name) || (name in s.temps ==> s.path == Some(s.temps[name]))
    ensures Moves(s, s.(temps := s.temps - {name}), held)
  {
  }

  lemma UnlinkStepKeeps(s: State, pid: Pid, name: Name, secret: string)
    requires Inv(s) && pid in s.processes && s.processes[pid].Unlink?
    ensures Inv(Act(s, pid, name, secret))
  {
    hide Inv, Moves, NamesOk, PathOk;
    var stage := s.processes[pid];
    ProcessIsOk(s, pid);
    LinkCountInv(s, stage.inode);
    NamedByOrigin(s, stage.name);
    RemovalMoves(s, None, stage.name);
    MoveKeeps(s, s.(temps := s.temps - {stage.name}), pid, None, Confirm(stage.why, stage.inode));
  }

  /** Whatever has the name is the inode that was born with it. */
  lemma NamedByOrigin(s: State, name: Name)
    requires Inv(s)
    ensures forall i :: i in s.origin && s.origin[i] == name && name in s.temps ==> s.temps[name] == i
  {
    hide ProcessesOk, PathOk;
  }

  lemma CleanUpStepKeeps(s: State, pid: Pid, name: Name, secret: string)
    requires Inv(s) && pid in s.processes && s.processes[pid].CleanUp?
    ensures Inv(Act(s, pid, name, secret))
  {
    hide Inv, Moves, NamesOk, PathOk;
    var stage := s.processes[pid];
    ProcessIsOk(s, pid);
    RemovalMoves(s, Some(stage.name), stage.name);
    MoveKeeps(s, s.(temps := s.temps - {stage.name}), pid, Some(stage.name),
              Look(if stage.published then Own(stage.secret) else Other));
  }

  lemma ReserveStepKeeps(s: State, pid: Pid, name: Name, secret: string)
    requires Inv(s) && pid in s.processes && s.processes[pid].Reserve?
    ensures Inv(Act(s, pid, name, secret))
  {
    hide Inv, NamesOk, Moves;
    var stage := s.processes[pid];
    if stage.attempt >= TEMP_ATTEMPTS {
      StayKeeps(s, pid, Failed(NamesExhausted));
    } else if name in s.temps {
      StayKeeps(s, pid, Reserve(stage.secret, stage.attempt + 1));
    } else if name !in s.used {
      FreshNameIsReserved(s, name);
      MoveKeeps(s, Reserved(s, name), pid, None, Write(stage.secret, name, FreshInode(s)));
    }
  }

  lemma FreshNameIsReserved(s: State, name: Name)
    requires Inv(s) && name !in s.used && name !in s.temps
    ensures var s' := Reserved(s, name);
      NamesOk(s') && PathOk(s') && Moves(s, s', None) && s'.path != Some(FreshInode(s))
  {
    hide ProcessesOk, Moves;
    assert FreshInode(s) !in s.content;
    ReservedNames(s, name);
    ReservationMoves(s, name);
  }

  lemma ReservationMoves(s: State, name: Name)
    requires name !in s.used && name !in s.temps && FreshInode(s) !in s.content && s.origin.Keys == s.content.Keys
    ensures Moves(s, Reserved(s, name), None)
  {
  }

  lemma ReservedNames(s: State, name: Name)
    requires NamesOk(s) && name !in s.used && name !in s.temps
    ensures NamesOk(Reserved(s, name))
  {
    var s', born := Reserved(s, name), FreshInode(s);
    assert |s'.content| == |s.content| + 1;
    assert forall i :: i in s'.content <==> i in s.content || i == born;
    assert forall i :: i in s'.origin && i != born ==> s'.origin[i] == s.origin[i] && s'.origin[i] != name;
  }

  lemma WriteStepKeeps(s: State, pid: Pid, name: Name, secret: string)
    requires Inv(s) && pid in s.processes && s.processes[pid].Write?
    ensures Inv(Act(s, pid, name, secret))
  {
    hide Inv, Moves, NamesOk, PathOk;
    var stage := s.processes[pid];
    ProcessIsOk(s, pid);
    WriteMoves(s, stage.name, stage.inode, stage.secret);
    MoveKeeps(s, s.(content := s.content[stage.inode := Some(stage.secret)]), pid, Some(stage.name),
              Link(stage.secret, stage.name, stage.inode));
  }

  lemma WriteMoves(s: State, name: Name, i: Inode, secret: string)
    requires Inv(s) && i in s.origin && s.origin[i] == name && s.path != Some(i)
    ensures var s' := s.(content := s.content[i := Some(secret)]); Moves(s, s', Some(name)) && NamesOk(s') && PathOk(s')
  {
    hide ProcessesOk;
    assert s.content[i := Some(secret)].Keys == s.content.Keys;
  }

  lemma LinkStepKeeps(s: State, pid: Pid, name: Name, secret: string)
    requires Inv(s) && pid in s.processes && s.processes[pid].Link?
    ensures Inv(Act(s, pid, name, secret))
  {
    hide ProcessesOk;
    var stage := s.processes[pid];
    ProcessIsOk(s, pid);
    if s.path.Some? {
      StayKeeps(s, pid, CleanUp(stage.secret, stage.name, false));
    } else {
      var s' := s.(path := Some(stage.inode));
      MoveKeeps(s, s', pid, Some(stage.name), CleanUp(stage.secret, stage.name, true));
    }
  }

  lemma FirstLookIsOk(s: State)
    ensures StageOk(s, Look(First))
  {
  }

  lemma SpawnKeeps(s: State, pid: Pid)
    requires Inv(s) && pid !in s.processes
    ensures Inv(At(s, pid, Look(First)))
  {
    hide StageOk;
    FirstLookIsOk(s);
    var t := At(s, pid, Look(First));
    forall p | p in t.processes
      ensures StageOk(t, t.processes[p])
    {
      SameDirectory(s, t, t.processes[p]);
    }
  }

  lemma KillKeeps(s: State, pid: Pid)
    requires Inv(s)
    ensures Inv(Apply(s, Kill(pid)))
  {
    hide StageOk;
    var t := Apply(s, Kill(pid));
    forall p | p in t.processes
      ensures StageOk(t, t.processes[p])
    {
      SameDirectory(s, t, s.processes[p]);
    }
  }

  lemma EventKeeps(s: State, e: Event)
    requires Inv(s)
    ensures Inv(Apply(s, e))
  {
    hide Act, Inv;
    match e
    case Spawn(pid) =>
      if pid !in s.processes {
        SpawnKeeps(s, pid);
      }
    case Kill(pid) => KillKeeps(s, pid);
    case Step(pid, name, secret) =>
      if pid in s.processes {
        StepKeeps(s, pid, name, secret);
      }
  }

  lemma StepKeeps(s: State, pid: Pid, name: Name, secret: string)
    requires Inv(s) && pid in s.processes
    ensures Inv(Act(s, pid, name, secret))
  {
    match s.processes[pid]
    case Check(_, _, _, _) => CheckStepKeeps(s, pid, name, secret);
    case Unlink(_, _, _) => UnlinkStepKeeps(s, pid, name, secret);
    case Reserve(_, _) => ReserveStepKeeps(s, pid, name, secret);
    case Write(_, _, _) => WriteStepKeeps(s, pid, name, secret);
    case Link(_, _, _) => LinkStepKeeps(s, pid, name, secret);
    case CleanUp(_, _, _) => CleanUpStepKeeps(s, pid, name, secret);
    case Returned(_) =>
    case Failed(_) =>
    case _ => ReadingStepKeeps(s, pid, name, secret);
  }

  lemma {:induction false} EveryRunKeeps(s: State, events: seq<Event>)
    requires Inv(s)
    ensures Inv(Execute(s, events))
    decreases |events|
  {
    if events != [] {
      EventKeeps(s, events[0]);
      EveryRunKeeps(Apply(s, events[0]), events[1..]);
    }
  }

  // --- What holds over every run ---

  /** What is published stays published. */
  lemma PublicationIsFinal(s: State, e: Event, secret: string)
    requires Inv(s) && Publishes(s, secret)
    ensures Publishes(Apply(s, e), secret)
  {
    if e.Step? && e.pid in s.processes {
      ProcessIsOk(s, e.pid);
    }
  }

  lemma {:induction false} PublicationStays(s: State, events: seq<Event>, secret: string)
    requires Inv(s) && Publishes(s, secret)
    ensures Publishes(Execute(s, events), secret)
    decreases |events|
  {
    if events != [] {
      PublicationIsFinal(s, events[0], secret);
      EventKeeps(s, events[0]);
      PublicationStays(Apply(s, events[0]), events[1..], secret);
    }
  }

  /** All calls that return agree: with each other, and with every call that returns at any later
      time, through kills and launches of any number of processes. */
  lemma ReturnedSecretsAgree(start: State, events: seq<Event>, more: seq<Event>, p: Pid, q: Pid)
    requires Initial(start)
    requires var s := Execute(start, events);
      p in s.processes && s.processes[p].Returned?
    requires var t := Execute(Execute(start, events), more);
      q in t.processes && t.processes[q].Returned?
    ensures Execute(start, events).processes[p] == Execute(Execute(start, events), more).processes[q]
  {
    var s := Execute(start, events);
    EveryRunKeeps(start, events);
    ProcessIsOk(s, p);
    PublicationStays(s, more, s.processes[p].secret);
    EveryRunKeeps(s, more);
    ProcessIsOk(Execute(s, more), q);
  }

  /** The secret is published, or some process has returned it. */
  ghost predicate InUse(s: State, secret: string) {
    Publishes(s, secret) || exists p :: p in s.processes && s.processes[p] == Returned(secret)
  }

  /** Some step of the run drew the secret while nothing was published. */
  ghost predicate Drawn(s: State, events: seq<Event>, secret: string) {
    exists i :: 0 <= i < |events| && events[i].Step? && events[i].secret == secret
      && Execute(s, events[..i]).path.None?
  }

  /** What is published, and what processes are about to publish, is in `known`. */
  ghost predicate Known(s: State, known: set<string>) {
    && (forall secret :: Publishes(s, secret) ==> secret in known)
    && (forall p :: p in s.processes ==>
          Carries(s.processes[p]) ==> s.processes[p].secret in known)
  }

  predicate Carries(stage: Stage) {
    stage.Reserve? || stage.Write? || stage.Link?
  }

  lemma CarriedOn(s: State, pid: Pid, name: Name, secret: string)
    requires pid in s.processes
    ensures var stage, s' := s.processes[pid], Act(s, pid, name, secret);
      pid in s'.processes && (Carries(s'.processes[pid]) ==>
        (if Carries(stage) then s'.processes[pid].secret == stage.secret
         else s.path.None? && s'.processes[pid].secret == secret))
  {
    hide Links, Reserved, Aliases;
    var stage := s.processes[pid];
    if Carries(stage) {
    } else if stage.CleanUp? {
    } else if stage.Check? {
      assert !Carries(AfterCheck(s, stage.why, stage.inode, stage.rest, stage.aliases, name));
    }
  }

  lemma OthersStay(s: State, pid: Pid, name: Name, secret: string)
    requires pid in s.processes
    ensures forall p :: p in Act(s, pid, name, secret).processes && p != pid ==>
      p in s.processes && Act(s, pid, name, secret).processes[p] == s.processes[p]
  {
    hide Links, AfterLook, AfterList, AfterCheck, AfterLookAgain, AfterConfirm, AfterRead;
  }

  lemma PublishedByLink(s: State, pid: Pid, name: Name, secret: string, published: string)
    requires Inv(s) && pid in s.processes && Publishes(Act(s, pid, name, secret), published)
    ensures Publishes(s, published) || (s.processes[pid].Link? && s.processes[pid].secret == published)
  {
    ProcessIsOk(s, pid);
    hide Inv, AfterLook, AfterList, AfterCheck, AfterLookAgain, AfterConfirm, AfterRead;
  }

  lemma KnownAfter(s: State, e: Event, known: set<string>)
    requires Inv(s) && Known(s, known)
    ensures Known(Apply(s, e), if e.Step? && s.path.None? then known + {e.secret} else known)
  {
    hide Inv, Act, Publishes;
    match e
    case Spawn(pid) =>
      SamePublication(s, Apply(s, e));
    case Kill(pid) =>
      SamePublication(s, Apply(s, e));
    case Step(pid, name, secret) =>
      if pid in s.processes {
        CarriedOn(s, pid, name, secret);
        OthersStay(s, pid, name, secret);
        forall x | Publishes(Act(s, pid, name, secret), x) ensures x in known {
          PublishedByLink(s, pid, name, secret, x);
        }
      }
  }

  lemma SamePublication(s: State, t: State)
    requires t == s.(processes := t.processes)
    ensures forall secret :: Publishes(t, secret) <==> Publishes(s, secret)
  {
  }

  lemma DrawnLater(s: State, events: seq<Event>, secret: string)
    requires events != [] && Drawn(Apply(s, events[0]), events[1..], secret)
    ensures Drawn(s, events, secret)
  {
    var i :| 0 <= i < |events[1..]| && events[1..][i].Step? && events[1..][i].secret == secret
      && Execute(Apply(s, events[0]), events[1..][..i]).path.None?;
    assert events[..i + 1][1..] == events[1..][..i];
    assert events[i + 1].secret == secret;
  }

  lemma {:induction false} UseIsKnown(s: State, events: seq<Event>, known: set<string>, secret: string)
    requires Inv(s) && Known(s, known) && InUse(Execute(s, events), secret)
    ensures secret in known || Drawn(s, events, secret)
    decreases |events|
  {
    hide Inv, Known, Apply;
    if events == [] {
      UseIsPublication(s, secret);
      KnownIsPublished(s, known, secret);
    } else {
      var e := events[0];
      var now := if e.Step? && s.path.None? then known + {e.secret} else known;
      KnownAfter(s, e, known);
      EventKeeps(s, e);
      UseIsKnown(Apply(s, e), events[1..], now, secret);
      if secret !in now {
        DrawnLater(s, events, secret);
      } else if secret !in known {
        assert Execute(s, events[..0]) == s;
      }
    }
  }

  lemma UseIsPublication(s: State, secret: string)
    requires Inv(s) && InUse(s, secret)
    ensures Publishes(s, secret)
  {
    forall p | p in s.processes && s.processes[p] == Returned(secret) ensures Publishes(s, secret) {
      ProcessIsOk(s, p);
    }
  }

  lemma KnownIsPublished(s: State, known: set<string>, secret: string)
    requires Known(s, known) && Publishes(s, secret)
    ensures secret in known
  {
  }

  /** Nothing is made up: over every run, whatever is published or returned is what was published
      at the start, or what one of the processes drew while nothing was published. */
  lemma SecretsAreDrawn(start: State, events: seq<Event>, secret: string)
    requires Initial(start) && InUse(Execute(start, events), secret)
    ensures if start.path.Some? then Publishes(start, secret) else Drawn(start, events, secret)
  {
    EveryRunKeeps(start, events);
    if start.path.Some? {
      PublicationStays(start, events, start.content[start.path.value].value);
      UseIsPublication(Execute(start, events), secret);
    } else {
      UseIsKnown(start, events, {}, secret);
    }
  }

  /** One process, undisturbed, in a directory without a secret: it draws, reserves, writes, links,
      cleans up, looks and reads. */
  function LoneRun(pid: Pid, name: Name, secret: string, other: string): seq<Event> {
    var e := Step(pid, name, other);
    [Spawn(pid), Step(pid, name, secret)] + [e, e, e] + [e, e, e]
  }

  /** The directory with the secret published under the temporary name. */
  function WithSecret(s: State, name: Name, secret: string): State {
    var i := FreshInode(s);
    s.(path := Some(i), temps := s.temps[name := i], content := s.content[i := Some(secret)],
       origin := s.origin[i := name], used := s.used + {name})
  }

  /** Such a process publishes and returns the secret that it drew first, and leaves no temporary
      file of its own. */
  lemma LoneProcessPublishes(start: State, pid: Pid, name: Name, secret: string, other: string)
    requires Initial(start) && start.path.None? && name !in start.used
    ensures var s := Execute(start, LoneRun(pid, name, secret, other));
      && s.processes == map[pid := Returned(secret)] && Publishes(s, secret)
      && s.temps == start.temps
  {
    hide Execute, Apply, Inv, WithSecret, Initial, Publishes;
    var e := Step(pid, name, other);
    var linked := LoneLinks(start, pid, name, secret, other);
    ExecuteTwice(start, [Spawn(pid), Step(pid, name, secret)] + [e, e, e], [e, e, e]);
    LoneReads(linked, pid, name, secret, other);
  }

  /** Such a process up to the point where it has linked its secret. */
  lemma LoneLinks(start: State, pid: Pid, name: Name, secret: string, other: string) returns (s: State)
    requires Initial(start) && start.path.None? && name !in start.used
    ensures var e := Step(pid, name, other);
      s == Execute(start, [Spawn(pid), Step(pid, name, secret)] + [e, e, e])
    ensures Inv(s) && s.processes == map[pid := CleanUp(secret, name, true)] && Publishes(s, secret)
    ensures s.path.value in s.origin && s.origin[s.path.value] == name && s.temps - {name} == start.temps
  {
    hide Execute, Apply, Inv, WithSecret, Initial, Publishes, At;
    var e := Step(pid, name, other);
    var drawn := At(start, pid, Reserve(secret, 0));
    InitialIsOk(start, name);
    EveryRunKeeps(start, [Spawn(pid), Step(pid, name, secret)] + [e, e, e]);
    ExecuteTwice(start, [Spawn(pid), Step(pid, name, secret)], [e, e, e]);
    LoneDraws(start, pid, name, secret);
    AtFacts(start, pid, Reserve(secret, 0));
    LoneWrites(drawn, pid, name, secret, other);
    s := LinkedFacts(drawn, pid, name, secret);
  }

  lemma AtFacts(s: State, pid: Pid, stage: Stage)
    requires s.processes == map[]
    ensures var t := At(s, pid, stage);
      t.processes == map[pid := stage] && t.path == s.path && t.temps == s.temps && t.used == s.used
  {
  }

  lemma InitialIsOk(s: State, name: Name)
    requires Initial(s) && name !in s.used
    ensures Inv(s) && s.processes == map[] && name !in s.temps
  {
  }

  lemma LinkedFacts(s: State, pid: Pid, name: Name, secret: string) returns (t: State)
    requires name !in s.temps && s.processes.Keys == {pid}
    ensures t == At(WithSecret(s, name, secret), pid, CleanUp(secret, name, true))
    ensures t.path.Some? && t.path.value in t.origin && t.origin[t.path.value] == name
    ensures Publishes(t, secret) && t.temps - {name} == s.temps
    ensures t.processes == map[pid := CleanUp(secret, name, true)]
  {
    t := At(WithSecret(s, name, secret), pid, CleanUp(secret, name, true));
  }

  lemma LoneDraws(start: State, pid: Pid, name: Name, secret: string)
    requires start.processes == map[] && start.path.None?
    ensures Execute(start, [Spawn(pid), Step(pid, name, secret)]) == At(start, pid, Reserve(secret, 0))
  {
    var looked, e := At(start, pid, Look(First)), Step(pid, name, secret);
    assert Apply(start, Spawn(pid)) == looked && Apply(looked, e) == At(start, pid, Reserve(secret, 0));
    hide Apply;
    assert [Spawn(pid), e][1..] == [e] && [e][1..] == [];
    assert Execute(looked, [e]) == Execute(Apply(looked, e), []);
  }

  lemma Thrice(s: State, e: Event)
    ensures Execute(s, [e, e, e]) == Apply(Apply(Apply(s, e), e), e)
  {
    hide Apply;
    assert [e, e, e][1..] == [e, e] && [e, e][1..] == [e] && [e][1..] == [];
    assert Execute(Apply(s, e), [e, e]) == Execute(Apply(Apply(s, e), e), [e]);
    assert Execute(Apply(Apply(s, e), e), [e]) == Execute(Apply(Apply(Apply(s, e), e), e), []);
  }

  /** Reserving, writing and linking. */
  lemma LoneWrites(s: State, pid: Pid, name: Name, secret: string, other: string)
    requires s.processes == map[pid := Reserve(secret, 0)] && s.path.None?
    requires name !in s.temps && name !in s.used
    ensures var e := Step(pid, name, other);
      Execute(s, [e, e, e]) == At(WithSecret(s, name, secret), pid, CleanUp(secret, name, true))
  {
    hide Execute, Apply;
    var e, i := Step(pid, name, other), FreshInode(s);
    Thrice(s, e);
    var reserved := At(Reserved(s, name), pid, Write(secret, name, i));
    ReserveApplies(s, pid, name, other);
    WriteApplies(reserved, pid, name, other);
    LinkApplies(Apply(reserved, e), pid, name, other);
    assert reserved.content[i := Some(secret)] == s.content[i := Some(secret)];
  }

  lemma ReserveApplies(s: State, pid: Pid, name: Name, other: string)
    requires pid in s.processes && s.processes[pid].Reserve? && s.processes[pid].attempt == 0
    requires name !in s.temps && name !in s.used
    ensures Apply(s, Step(pid, name, other))
         == At(Reserved(s, name), pid, Write(s.processes[pid].secret, name, FreshInode(s)))
  {
  }

  lemma WriteApplies(s: State, pid: Pid, name: Name, other: string)
    requires pid in s.processes && s.processes[pid].Write?
    ensures var w := s.processes[pid];
      Apply(s, Step(pid, name, other))
        == At(s.(content := s.content[w.inode := Some(w.secret)]), pid, Link(w.secret, w.name, w.inode))
  {
  }

  lemma LinkApplies(s: State, pid: Pid, name: Name, other: string)
    requires pid in s.processes && s.processes[pid].Link? && s.processes[pid].name in s.temps && s.path.None?
    ensures var w := s.processes[pid];
      Apply(s, Step(pid, name, other)) == At(s.(path := Some(s.temps[w.name])), pid, CleanUp(w.secret, w.name, true))
  {
  }

  /** Cleaning up, looking and reading. */
  lemma LoneReads(s: State, pid: Pid, name: Name, secret: string, other: string)
    requires Inv(s) && s.processes == map[pid := CleanUp(secret, name, true)] && Publishes(s, secret)
    requires s.path.value in s.origin && s.origin[s.path.value] == name
    ensures var e := Step(pid, name, other);
      Execute(s, [e, e, e]) == s.(temps := s.temps - {name}, processes := map[pid := Returned(secret)])
    ensures Publishes(s.(temps := s.temps - {name}, processes := map[pid := Returned(secret)]), secret)
  {
    hide Execute, Apply;
    var e, i := Step(pid, name, other), s.path.value;
    Thrice(s, e);
    EventKeeps(s, e);
    CleanUpApplies(s, pid, name, other);
    var t := At(s.(temps := s.temps - {name}), pid, Look(Own(secret)));
    LinkCountInv(t, i);
    hide Inv, Links;
    LookApplies(t, pid, name, other);
    var u := At(t, pid, Read(Own(secret), i));
    SameLinks(t, u, i);
    ReadApplies(u, pid, name, other);
  }

  lemma CleanUpApplies(s: State, pid: Pid, name: Name, other: string)
    requires pid in s.processes && s.processes[pid].CleanUp? && s.processes[pid].published
    ensures var w := s.processes[pid];
      Apply(s, Step(pid, name, other)) == At(s.(temps := s.temps - {w.name}), pid, Look(Own(w.secret)))
  {
  }

  lemma LookApplies(s: State, pid: Pid, name: Name, other: string)
    requires pid in s.processes && s.processes[pid].Look? && s.path.Some? && Links(s, s.path.value) == 1
    ensures Apply(s, Step(pid, name, other)) == At(s, pid, Read(s.processes[pid].why, s.path.value))
  {
    hide Links;
  }

  lemma ReadApplies(s: State, pid: Pid, name: Name, other: string)
    requires pid in s.processes && s.processes[pid].Read? && s.processes[pid].why.Own?
    requires s.path == Some(s.processes[pid].inode) && Links(s, s.path.value) == 1
    requires Publishes(s, s.processes[pid].why.secret)
    ensures Apply(s, Step(pid, name, other)) == At(s, pid, Returned(s.processes[pid].why.secret))
  {
    hide Links;
  }

  lemma SameLinks(s: State, t: State, i: Inode)
    requires s.temps == t.temps && s.path == t.path
    ensures Links(s, i) == Links(t, i)
  {
    assert Aliases(s, i) == Aliases(t, i);
  }

  function Draws(pid: Pid, names: seq<Name>): seq<Event> {
    seq(|names|, i requires 0 <= i < |names| => Step(pid, names[i], ""))
  }

  /** Every temporary name that is taken costs one attempt and changes nothing else. */
  lemma {:induction false} TakenNamesCount(s: State, pid: Pid, names: seq<Name>)
    requires pid in s.processes && s.processes[pid].Reserve?
    requires s.processes[pid].attempt + |names| <= 32 && forall n :: n in names ==> n in s.temps
    ensures var stage := s.processes[pid];
      Execute(s, Draws(pid, names)) == At(s, pid, Reserve(stage.secret, stage.attempt + |names|))
    decreases |names|
  {
    var stage := s.processes[pid];
    if names == [] {
      assert s.processes == s.processes[pid := stage];
    } else {
      var t := At(s, pid, Reserve(stage.secret, stage.attempt + 1));
      assert Apply(s, Step(pid, names[0], "")) == t;
      hide Apply;
      assert Draws(pid, names)[1..] == Draws(pid, names[1..]);
      TakenNamesCount(t, pid, names[1..]);
      assert t.processes[pid := Reserve(stage.secret, stage.attempt + |names|)]
          == s.processes[pid := Reserve(stage.secret, stage.attempt + |names|)];
    }
  }

  /** After 32 names that are taken, and not before, the process gives up. */
  lemma NamesRunOut(s: State, pid: Pid, names: seq<Name>, last: Name)
    requires pid in s.processes && s.processes[pid].Reserve? && s.processes[pid].attempt == 0
    requires |names| <= 32 && last in s.temps && forall n :: n in names ==> n in s.temps
    ensures var t := Execute(Execute(s, Draws(pid, names)), Draws(pid, [last]));
      && pid in t.processes && t.temps == s.temps
      && (t.processes[pid] == Failed(NamesExhausted) <==> |names| == 32)
      && (|names| < 32 ==> t.processes[pid] == Reserve(s.processes[pid].secret, |names| + 1))
  {
    hide Execute, Draws;
    TakenNamesCount(s, pid, names);
    var t := Execute(s, Draws(pid, names));
    if |names| < 32 {
      TakenNamesCount(t, pid, [last]);
    } else {
      OneDraw(t, pid, last);
    }
  }

  lemma OneDraw(s: State, pid: Pid, name: Name)
    ensures Execute(s, Draws(pid, [name])) == Apply(s, Step(pid, name, ""))
  {
    hide Apply;
    assert Draws(pid, [name])[1..] == [];
    assert Execute(Apply(s, Step(pid, name, "")), []) == Apply(s, Step(pid, name, ""));
  }

  /** At every moment the published inode has one or two links, with at most one alias; and a
      call can fail only for want of a free temporary name, or on too many siblings. */
  lemma NoFalseAlarm(start: State, events: seq<Event>)
    requires Initial(start)
    ensures var s := Execute(start, events);
      && (s.path.Some? ==> 1 <= Links(s, s.path.value) <= 2 && |Aliases(s, s.path.value)| <= 1)
      && (forall p :: p in s.processes && s.processes[p].Failed? ==>
            s.processes[p].failure.TooManySiblings? || s.processes[p].failure.NamesExhausted?)
  {
    EveryRunKeeps(start, events);
    var s := Execute(start, events);
    if s.path.Some? {
      PublishedHasOrigin(s);
      LinkCountInv(s, s.path.value);
    }
    forall p | p in s.processes && s.processes[p].Failed?
      ensures s.processes[p].failure.TooManySiblings? || s.processes[p].failure.NamesExhausted?
    {
      ProcessIsOk(s, p);
    }
  }

  /** A step fails on its siblings exactly when it lists more than 64 of them, and on its names
      exactly after 32 names that were taken. */
  lemma StepFailsExactly(s: State, pid: Pid, name: Name, secret: string)
    requires Inv(s) && pid in s.processes && !s.processes[pid].Failed?
    ensures Act(s, pid, name, secret).processes[pid].Failed? <==>
      || (s.processes[pid].List? && |s.temps| > MAX_SIBLINGS)
      || (s.processes[pid].Reserve? && s.processes[pid].attempt >= TEMP_ATTEMPTS)
  {
    ProcessIsOk(s, pid);
    if s.path.Some? {
      PublishedHasOrigin(s);
      LinkCountInv(s, s.path.value);
    }
  }

  // --- What leftover files do to readers ---

  /** A published secret whose temporary name was never removed, among too many others. */
  ghost predicate Crowded(s: State) {
    s.path.Some? && s.path.value in s.origin && !Lone(s, s.path.value) && |s.temps| > MAX_SIBLINGS
  }

  /** How far a process comes in a crowded directory. */
  predicate Stranded(s: State, stage: Stage) {
    stage == Look(First) || (stage.List? && stage.why.First?) || stage == Failed(TooManySiblings)
  }

  lemma CrowdedStep(s: State, e: Event)
    requires Inv(s) && Crowded(s) && forall p :: p in s.processes ==> Stranded(s, s.processes[p])
    ensures Apply(s, e).(processes := map[]) == s.(processes := map[])
    ensures forall p :: p in Apply(s, e).processes ==> Stranded(s, Apply(s, e).processes[p])
  {
    LinkCountInv(s, s.path.value);
  }

  /** Nothing removes the files of killed processes: once such a publication has no live process,
      no later call returns, over every run, and the directory stays as it is. */
  lemma {:induction false} CrowdedStaysUnreadable(s: State, events: seq<Event>)
    requires Inv(s) && Crowded(s) && forall p :: p in s.processes ==> Stranded(s, s.processes[p])
    ensures var t := Execute(s, events);
      && t.(processes := map[]) == s.(processes := map[])
      && forall p :: p in t.processes ==> Stranded(s, t.processes[p])
    decreases |events|
  {
    hide Inv, Apply;
    if events != [] {
      CrowdedStep(s, events[0]);
      EventKeeps(s, events[0]);
      var t := Apply(s, events[0]);
      SameFiles(s, t);
      CrowdedStaysUnreadable(t, events[1..]);
    }
  }

  lemma SameFiles(s: State, t: State)
    requires t.(processes := map[]) == s.(processes := map[]) && Crowded(s)
    ensures Crowded(t)
  {
  }

  /** Every candidate of the listing is looked at, and the alias is the temporary name of the
      published inode. */
  lemma {:induction false} ChecksSettle(s: State, pid: Pid) returns (events: seq<Event>)
    requires Inv(s) && pid in s.processes && s.processes[pid].Check?
    requires !Lone(s, s.processes[pid].inode)
    ensures var stage := s.processes[pid];
      stage.inode in s.origin
      && Execute(s, events) == At(s, pid, Unlink(stage.why, stage.inode, s.origin[stage.inode]))
    decreases s.processes[pid].rest
  {
    hide Inv, Apply;
    var stage := s.processes[pid];
    ProcessIsOk(s, pid);
    LinkCountInv(s, stage.inode);
    var name := s.origin[stage.inode];
    if stage.rest == {} {
      assert stage.aliases == {name};
      events := [Step(pid, name, "")];
      OneStep(s, pid, name);
    } else {
      var next :| next in stage.rest;
      var e := Step(pid, next, "");
      CheckPasses(s, pid, next);
      EventKeeps(s, e);
      var t := Apply(s, e);
      assert t.temps == s.temps && t.origin == s.origin;
      var rest := ChecksSettle(t, pid);
      events := [e] + rest;
      assert events[1..] == rest;
    }
  }

  lemma OneStep(s: State, pid: Pid, name: Name)
    requires pid in s.processes
    ensures Execute(s, [Step(pid, name, "")]) == Act(s, pid, name, "")
  {
    hide Act;
    assert Execute(s, [Step(pid, name, "")]) == Execute(Act(s, pid, name, ""), []);
  }

  lemma CheckPasses(s: State, pid: Pid, name: Name)
    requires Inv(s) && pid in s.processes && s.processes[pid].Check? && name in s.processes[pid].rest
    requires !Lone(s, s.processes[pid].inode)
    ensures var stage := s.processes[pid]; var t := Apply(s, Step(pid, name, ""));
      && pid in t.processes && t.processes[pid].Check? && t == At(s, pid, t.processes[pid])
      && t.processes[pid].why == stage.why && t.processes[pid].inode == stage.inode
      && t.processes[pid].rest == stage.rest - {name}
  {
    ProcessIsOk(s, pid);
    LinkCountInv(s, s.processes[pid].inode);
  }

  lemma {:induction false} ExecuteTwice(s: State, a: seq<Event>, b: seq<Event>)
    ensures Execute(s, a + b) == Execute(Execute(s, a), b)
    decreases |a|
  {
    hide Apply;
    if a == [] {
      assert a + b == b;
    } else {
      assert (a + b)[0] == a[0] && (a + b)[1..] == a[1..] + b;
      ExecuteTwice(Apply(s, a[0]), a[1..], b);
    }
  }

  /** Some events after which process `pid` has returned. */
  ghost predicate Answers(s: State, events: seq<Event>, pid: Pid) {
    pid in Execute(s, events).processes && Execute(s, events).processes[pid].Returned?
  }

  /** The last steps of a reader that has seen a single link. */
  lemma ReadAnswers(s: State, pid: Pid)
    requires Inv(s) && pid in s.processes && s.processes[pid].Read?
    ensures Answers(s, [Step(pid, 0, "")], pid)
  {
    hide Inv;
    ProcessIsOk(s, pid);
    LinkCountInv(s, s.processes[pid].inode);
    OneStep(s, pid, 0);
  }

  lemma UnlinkAnswers(s: State, pid: Pid)
    requires Inv(s) && pid in s.processes && s.processes[pid].Unlink?
    ensures Answers(s, [Step(pid, 0, ""), Step(pid, 0, ""), Step(pid, 0, "")], pid)
  {
    hide Inv;
    var e := Step(pid, 0, "");
    var t := Apply(s, e);
    EventKeeps(s, e);
    ProcessIsOk(t, pid);
    LinkCountInv(t, t.processes[pid].inode);
    var u := Apply(t, e);
    EventKeeps(t, e);
    ReadAnswers(u, pid);
    FirstThen(t, e, [e], pid);
    FirstThen(s, e, [e, e], pid);
    assert [e] + [e] == [e, e] && [e] + [e, e] == [e, e, e];
  }

  /** A reader left to itself reads what is published, if its temporary name is gone or the
      directory is not crowded. */
  lemma ReaderAnswers(s: State, pid: Pid) returns (events: seq<Event>)
    requires Inv(s) && s.path.Some? && s.path.value in s.origin && pid !in s.processes
    requires Lone(s, s.path.value) || |s.temps| <= MAX_SIBLINGS
    ensures Answers(s, events, pid)
  {
    hide Inv, Answers;
    var e := Step(pid, 0, "");
    var t := Apply(s, Spawn(pid));
    EventKeeps(s, Spawn(pid));
    LinkCountInv(t, t.path.value);
    var u := Apply(t, e);
    EventKeeps(t, e);
    var rest: seq<Event>;
    if Lone(s, s.path.value) {
      rest := [e];
      ReadAnswers(u, pid);
    } else {
      var v := Apply(u, e);
      EventKeeps(u, e);
      var checks := ChecksSettle(v, pid);
      EveryRunKeeps(v, checks);
      UnlinkAnswers(Execute(v, checks), pid);
      Then(v, checks, [e, e, e], pid);
      rest := [e] + (checks + [e, e, e]);
      FirstThen(u, e, checks + [e, e, e], pid);
    }
    FirstThen(t, e, rest, pid);
    FirstThen(s, Spawn(pid), [e] + rest, pid);
    events := [Spawn(pid)] + ([e] + rest);
  }

  lemma FirstThen(s: State, e: Event, rest: seq<Event>, pid: Pid)
    requires Answers(Apply(s, e), rest, pid)
    ensures Answers(s, [e] + rest, pid)
  {
    hide Apply;
    assert ([e] + rest)[1..] == rest;
  }

  lemma Then(s: State, a: seq<Event>, b: seq<Event>, pid: Pid)
    requires Answers(Execute(s, a), b, pid)
    ensures Answers(s, a + b, pid)
  {
    ExecuteTwice(s, a, b);
  }

  /** When every process has ended, what is published can still be read by some later process
      exactly if its temporary name was removed or at most 64 temporary files are left. */
  lemma ReadableExactly(s: State)
    requires Inv(s) && s.path.Some? && s.processes == map[]
    ensures s.path.value in s.origin
    ensures (exists events, pid :: Answers(s, events, pid)) <==>
      Lone(s, s.path.value) || |s.temps| <= MAX_SIBLINGS
  {
    hide Inv, Answers;
    PublishedHasOrigin(s);
    if Lone(s, s.path.value) || |s.temps| <= MAX_SIBLINGS {
      var events := ReaderAnswers(s, 0);
      assert Answers(s, events, 0);
    } else {
      forall events, pid ensures !Answers(s, events, pid) {
        CrowdedStaysUnreadable(s, events);
        NobodyAnswers(s, events, pid);
      }
    }
  }

  lemma NobodyAnswers(s: State, events: seq<Event>, pid: Pid)
    requires pid in Execute(s, events).processes ==> Stranded(s, Execute(s, events).processes[pid])
    ensures !Answers(s, events, pid)
  {
  }

  // --- A directory that becomes crowded ---

  const EMPTY := State(None, map[], map[], map[], {}, map[])

  /** The first `n` processes have reserved a name each and been killed. */
  function Littered(n: nat): State {
    if n == 0 then EMPTY else Reserved(Littered(n - 1), n - 1)
  }

  /** A process that is launched, reserves a name and is killed. */
  function LitteringEvents(n: nat): seq<Event> {
    if n == 0 then []
    else
      var e := Step(n - 1, n - 1, "");
      LitteringEvents(n - 1) + [Spawn(n - 1)] + [e] + [e] + [Kill(n - 1)]
  }

  lemma {:induction false} LitteredFiles(n: nat)
    ensures var s := Littered(n);
      && s.path == None && s.processes == map[] && FreshInode(s) == |s.temps| == n
      && (forall k: nat :: k in s.temps <==> k < n)
      && (forall k: nat :: k in s.used <==> k < n)
      && (forall k: nat :: k in s.content <==> k < n)
  {
    if n > 0 {
      LitteredFiles(n - 1);
      var p := Littered(n - 1);
      var s := Littered(n);
      assert s == Reserved(p, n - 1) && FreshInode(p) == n - 1;
      assert |s.temps| == n && |s.content| == n;
      forall k: nat ensures (k in s.temps <==> k < n) && (k in s.used <==> k < n) && (k in s.content <==> k < n) {
        assert k in p.temps <==> k < n - 1;
        assert k in p.used <==> k < n - 1;
        assert k in p.content <==> k < n - 1;
      }
    }
  }

  lemma OneMore(s: State, events: seq<Event>, e: Event)
    ensures Execute(s, events + [e]) == Apply(Execute(s, events), e)
  {
    hide Apply;
    ExecuteTwice(s, events, [e]);
    assert Execute(Execute(s, events), [e]) == Execute(Apply(Execute(s, events), e), []);
  }

  lemma Reserves(s: State, pid: Pid)
    requires s.path == None && s.processes == map[] && pid !in s.temps && pid !in s.used
    ensures var e := Step(pid, pid, "");
      Apply(Apply(Apply(s, Spawn(pid)), e), e) == At(Reserved(s, pid), pid, Write("", pid, FreshInode(s)))
  {
    var looked := Apply(Apply(s, Spawn(pid)), Step(pid, pid, ""));
    assert looked == At(s, pid, Reserve("", 0));
  }

  lemma {:induction false} Litters(n: nat)
    ensures Execute(EMPTY, LitteringEvents(n)) == Littered(n)
  {
    hide Execute, Reserved, Apply;
    if n > 0 {
      Litters(n - 1);
      LitteredFiles(n - 1);
      assert n - 1 !in Littered(n - 1).temps && n - 1 !in Littered(n - 1).used;
      var e, before := Step(n - 1, n - 1, ""), LitteringEvents(n - 1);
      OneMore(EMPTY, before, Spawn(n - 1));
      OneMore(EMPTY, before + [Spawn(n - 1)], e);
      OneMore(EMPTY, before + [Spawn(n - 1)] + [e], e);
      OneMore(EMPTY, before + [Spawn(n - 1)] + [e] + [e], Kill(n - 1));
      Reserves(Littered(n - 1), n - 1);
      LitteredIdle(n);
      KillForgets(Reserved(Littered(n - 1), n - 1), n - 1, Write("", n - 1, n - 1));
    } else {
      NothingHappens(EMPTY);
    }
  }

  lemma LitteredIdle(n: nat)
    requires n > 0
    ensures Littered(n) == Reserved(Littered(n - 1), n - 1) && Reserved(Littered(n - 1), n - 1).processes == map[]
  {
    LitteredFiles(n - 1);
  }

  lemma NothingHappens(s: State)
    ensures Execute(s, []) == s
  {
  }

  lemma KillForgets(s: State, pid: Pid, stage: Stage)
    requires s.processes == map[]
    ensures Apply(At(s, pid, stage), Kill(pid)) == s
  {
  }

  /** 64 processes are killed over a reserved name, and the next one right after it has
      published. */
  function CrowdingEvents(): seq<Event> {
    var e := Step(64, 64, "");
    LitteringEvents(64) + [Spawn(64)] + [e] + [e] + [e] + [e] + [Kill(64)]
  }

  lemma Publishing(s: State, pid: Pid)
    requires s.path == None && s.processes == map[] && pid !in s.temps
    requires FreshInode(s) == pid
    ensures var e, reserved := Step(pid, pid, ""), At(Reserved(s, pid), pid, Write("", pid, FreshInode(s)));
      var t := Apply(Apply(Apply(reserved, e), e), Kill(pid));
      && t.path == Some(pid) && t.temps == s.temps[pid := pid] && t.processes == map[]
      && t.origin == s.origin[pid := pid]
  {
    var e, reserved := Step(pid, pid, ""), At(Reserved(s, pid), pid, Write("", pid, FreshInode(s)));
    WriteApplies(reserved, pid, pid, "");
    var written := Apply(reserved, e);
    LinkApplies(written, pid, pid, "");
    hide Act;
    assert written.temps == s.temps[pid := pid] && written.origin == s.origin[pid := pid];
    assert Apply(written, e).processes == map[pid := CleanUp("", pid, true)];
  }

  /** A run from an empty directory after which the published secret is lost to every reader. */
  lemma CrowdingHappens()
    ensures Initial(EMPTY)
    ensures var s := Execute(EMPTY, CrowdingEvents());
      && s.processes == map[] && Crowded(s)
      && forall events, pid :: !Answers(s, events, pid)
  {
    hide Execute, Reserved, Answers, LitteringEvents, Inv, Apply;
    var e, before := Step(64, 64, ""), LitteringEvents(64);
    Litters(64);
    LitteredFiles(64);
    OneMore(EMPTY, before, Spawn(64));
    OneMore(EMPTY, before + [Spawn(64)], e);
    OneMore(EMPTY, before + [Spawn(64)] + [e], e);
    OneMore(EMPTY, before + [Spawn(64)] + [e] + [e], e);
    OneMore(EMPTY, before + [Spawn(64)] + [e] + [e] + [e], e);
    OneMore(EMPTY, before + [Spawn(64)] + [e] + [e] + [e] + [e], Kill(64));
    Reserves(Littered(64), 64);
    Publishing(Littered(64), 64);
    EmptyIsInitial();
    EveryRunKeeps(EMPTY, CrowdingEvents());
    var s := Execute(EMPTY, CrowdingEvents());
    assert s.temps == Littered(64).temps[64 := 64] && s.origin[64] == 64;
    ReadableExactly(s);
  }

  lemma EmptyIsInitial()
    ensures Initial(EMPTY) && Inv(EMPTY)
  {
    assert |EMPTY.content| == 0;
  }
}
