/**
 * The lock that keeps two starts from setting up the database at the same time, one file operation at
 * a time, for any number of starts that may be cut off (electron/windows-initdb.js, takeLock).
 */
module SetupLock {
  import opened Wrappers
  import opened Runs

  type Id = nat                        // one start

  const LOCK_STALE_MS := 600_000
  const ATTEMPTS := 2

  /** The lock file: which file it is, the process ID in it (none until it is written) and its age. */
  datatype LockFile = LockFile(inode: nat, pid: Option<nat>, mtime: int)

  datatype Phase =
    | Trying                                        // about to create the lock exclusively
    | Refused                                       // it exists; about to read its process ID
    | IdRead(read: nat, pid: Option<nat>)           // about to read its age, and judge
    | Judged(read: nat, aged: nat)                  // not held by a live start; about to remove it
    | Created(inode: nat)                           // the file is there, its process ID is not
    | Inside(inode: nat)                            // setting up
    | Over                                          // done, or turned away
    | Dead

  datatype Starter = Starter(pid: nat, left: nat, phase: Phase, since: int)

  datatype State = State(lock: Option<LockFile>, now: int, nextInode: nat, starts: map<Id, Starter>)

  datatype Action =
    | Start(id: Id, pid: nat)
    | Create(id: Id)
    | WriteId(id: Id)
    | WriteFails(id: Id)
    | ReadId(id: Id)
    | Judge(id: Id, running: bool)
    | Remove(id: Id)
    | Release(id: Id)
    | Die(id: Id)
    | Tick(to: int)

  function PhaseOf(s: State, id: Id): Phase {
    if id in s.starts then s.starts[id].phase else Dead
  }

  /** Between creating the lock file and removing it, and not cut off. */
  predicate Owns(s: State, id: Id) { PhaseOf(s, id).Created? || PhaseOf(s, id).Inside? }

  predicate Lives(s: State, id: Id) { !PhaseOf(s, id).Dead? }

  ghost predicate Enabled(s: State, a: Action) {
    match a
    // no two processes have one ID at a time; a leftover lock may hold any
    case Start(id, pid) => id !in s.starts && forall o :: Lives(s, o) ==> s.starts[o].pid != pid
    case Create(id) => PhaseOf(s, id).Trying?
    case WriteId(id) => PhaseOf(s, id).Created?
    case WriteFails(id) => PhaseOf(s, id).Created?
    case ReadId(id) => PhaseOf(s, id).Refused?
    // whether the process read is running: a live start's is, another's may be
    case Judge(id, running) =>
      && PhaseOf(s, id).IdRead?
      && (forall o :: Lives(s, o) && PhaseOf(s, id).pid == Some(s.starts[o].pid) ==> running)
    case Remove(id) => PhaseOf(s, id).Judged?
    case Release(id) => PhaseOf(s, id).Inside?
    case Die(id) => Lives(s, id)
    // a live start is done with its lock before it is not trusted any more
    case Tick(to) => s.now <= to && forall id :: Owns(s, id) ==> to - s.starts[id].since < LOCK_STALE_MS
  }

  function To(s: State, id: Id, phase: Phase): State
    requires id in s.starts
  {
    s.(starts := s.starts[id := s.starts[id].(phase := phase)])
  }

  /** Another attempt, or the start is turned away. */
  function Again(s: State, id: Id): State
    requires id in s.starts
  {
    var x := s.starts[id];
    s.(starts := s.starts[id := if x.left > 1 then x.(left := x.left - 1, phase := Trying) else x.(phase := Over)])
  }

  /** A live start's lock: young, and half written or with the ID of another process that runs. */
  predicate Held(s: State, mine: nat, pid: Option<nat>, running: bool, mtime: int) {
    s.now - mtime < LOCK_STALE_MS && (pid.None? || (pid.value != mine && running))
  }

  ghost function Apply(s: State, a: Action): State
    requires Enabled(s, a)
  {
    match a
    case Start(id, pid) => s.(starts := s.starts[id := Starter(pid, ATTEMPTS, Trying, s.now)])
    case Create(id) =>
      if s.lock.Some? then To(s, id, Refused)
      else
        State(Some(LockFile(s.nextInode, None, s.now)), s.now, s.nextInode + 1,
              s.starts[id := s.starts[id].(phase := Created(s.nextInode), since := s.now)])
    case WriteId(id) =>
      // through the open file: it lands even if the path now names another
      var x := s.starts[id];
      var inside := To(s, id, Inside(x.phase.inode));
      if s.lock.Some? && s.lock.value.inode == x.phase.inode
      then inside.(lock := Some(LockFile(x.phase.inode, Some(x.pid), s.now))) else inside
    case WriteFails(id) => To(s, id, Over)
    case ReadId(id) => if s.lock.Some? then To(s, id, IdRead(s.lock.value.inode, s.lock.value.pid)) else Again(s, id)
    case Judge(id, running) =>
      var x := s.starts[id];
      if s.lock.None? then Again(s, id)
      else if Held(s, x.pid, x.phase.pid, running, s.lock.value.mtime) then To(s, id, Over)
      else To(s, id, Judged(x.phase.read, s.lock.value.inode))
    case Remove(id) => Again(s, id).(lock := None)
    case Release(id) => To(s, id, Over).(lock := None)
    case Die(id) => To(s, id, Dead)
    case Tick(to) => s.(now := to)
  }

  ghost predicate Init(s: State) {
    s.nextInode == 1 && s.starts == map[] && (s.lock.Some? ==> s.lock.value.inode == 0 && s.lock.value.mtime <= s.now)
  }

  // ---- What every run keeps -----------------------------------------------------------

  ghost predicate Exclusive(s: State) {
    forall a, b :: Owns(s, a) && Owns(s, b) ==> a == b
  }

  /** A live start's lock is the one on disk, young, and holds its ID once written. */
  ghost predicate OwnerIsSafe(s: State, id: Id)
    requires Owns(s, id)
  {
    var x := s.starts[id];
    && s.lock.Some? && s.lock.value.inode == x.phase.inode
    && x.since <= s.lock.value.mtime && s.now - x.since < LOCK_STALE_MS
    && s.lock.value.pid == (if x.phase.Created? then None else Some(x.pid))
  }

  /** What a start read of a file still says whose it is, if that one lives. */
  ghost predicate ReadIsTrue(s: State, id: Id) {
    var p := PhaseOf(s, id);
    && (p.IdRead? ==> p.read < s.nextInode)
    && (p.IdRead? && p.pid.Some? ==>
          forall o :: Owns(s, o) && s.starts[o].phase.inode == p.read ==> s.starts[o].pid == p.pid.value)
  }

  /** A file judged not held, its ID and its age both read from it, has no live owner, then or later. */
  ghost predicate JudgedIsLeft(s: State, id: Id) {
    var p := PhaseOf(s, id);
    p.Judged? && p.read == p.aged ==>
      p.read < s.nextInode && forall o :: Owns(s, o) ==> s.starts[o].phase.inode != p.read
  }

  ghost predicate OwnersAreSafe(s: State) { forall id :: Owns(s, id) ==> OwnerIsSafe(s, id) }

  ghost predicate ReadsAreTrue(s: State) { forall id :: id in s.starts ==> ReadIsTrue(s, id) && JudgedIsLeft(s, id) }

  ghost predicate IdsDiffer(s: State) {
    forall a, b :: Lives(s, a) && Lives(s, b) && a != b ==> s.starts[a].pid != s.starts[b].pid
  }

  ghost predicate Inv(s: State) {
    && OwnersAreSafe(s) && Exclusive(s) && ReadsAreTrue(s) && IdsDiffer(s)
    && (s.lock.Some? ==> s.lock.value.inode < s.nextInode && s.lock.value.mtime <= s.now)
  }

  /** A removal takes no live start's lock. */
  ghost predicate Harmless(s: State, a: Action) {
    a.Remove? && Enabled(s, a) && s.lock.Some? ==> forall o :: !Owns(s, o)
  }

  /** Nothing came in between: the ID and the age were read from the file now removed. */
  ghost predicate Undisturbed(s: State, a: Action) {
    a.Remove? && Enabled(s, a) && s.lock.Some? ==>
      var p := s.starts[a.id].phase; p.read == p.aged == s.lock.value.inode
  }

  lemma UndisturbedIsHarmless(s: State, a: Action)
    requires Inv(s) && Undisturbed(s, a)
    ensures Harmless(s, a)
  {
    OwnersHaveTheLock(s);
    if a.Remove? && Enabled(s, a) && s.lock.Some? {
      assert JudgedIsLeft(s, a.id);
    }
  }

  lemma OnlyCreateMakesOwners(s: State, a: Action)
    requires Enabled(s, a)
    ensures forall o :: Owns(Apply(s, a), o) ==>
      if Owns(s, o) then
        && Apply(s, a).starts[o].phase.inode == s.starts[o].phase.inode && Apply(s, a).starts[o].pid == s.starts[o].pid
      else a == Create(o) && s.lock.None? && Apply(s, a).starts[o].phase.inode == s.nextInode
  {
  }

  lemma OwnersHaveTheLock(s: State)
    requires OwnersAreSafe(s)
    ensures forall o :: Owns(s, o) ==> s.lock.Some? && s.lock.value.inode == s.starts[o].phase.inode
  {
    forall o | Owns(s, o)
      ensures s.lock.Some? && s.lock.value.inode == s.starts[o].phase.inode
    {
      assert OwnerIsSafe(s, o);
    }
  }

  lemma OwnersStayApart(s: State, a: Action)
    requires Inv(s) && Enabled(s, a)
    ensures Exclusive(Apply(s, a))
  {
    OwnersHaveTheLock(s);
    OnlyCreateMakesOwners(s, a);
  }

  lemma OwnerSafeFromOthers(s: State, a: Action, id: Id)
    requires Enabled(s, a) && Harmless(s, a) && (a.Tick? || (a.id != id && !Owns(s, a.id)))
    requires Owns(s, id) && OwnerIsSafe(s, id)
    ensures OwnerIsSafe(Apply(s, a), id)
  {
    assert id in Apply(s, a).starts && Apply(s, a).starts[id] == s.starts[id];
    assert Apply(s, a).lock == s.lock;
  }

  lemma OwnerSafeByItself(s: State, a: Action, id: Id)
    requires Enabled(s, a) && !a.Tick? && a.id == id && Owns(Apply(s, a), id)
    requires if Owns(s, id) then OwnerIsSafe(s, id) else a == Create(id) && s.lock.None?
    requires s.lock.Some? ==> s.lock.value.mtime <= s.now
    ensures OwnerIsSafe(Apply(s, a), id)
  {
  }

  lemma OwnerStaysSafe(s: State, a: Action, id: Id)
    requires Enabled(s, a) && Harmless(s, a) && Owns(Apply(s, a), id)
    requires (forall o :: Owns(s, o) ==> o == id) && (Owns(s, id) ==> OwnerIsSafe(s, id))
    requires s.lock.Some? ==> s.lock.value.mtime <= s.now
    ensures OwnerIsSafe(Apply(s, a), id)
  {
    OnlyCreateMakesOwners(s, a);
    if !a.Tick? && a.id == id {
      OwnerSafeByItself(s, a, id);
    } else {
      OwnerSafeFromOthers(s, a, id);
    }
  }

  lemma OwnersStaySafe(s: State, a: Action)
    requires Inv(s) && Enabled(s, a) && Harmless(s, a)
    ensures OwnersAreSafe(Apply(s, a))
  {
    OwnersHaveTheLock(s);
    OnlyCreateMakesOwners(s, a);
    forall id | Owns(Apply(s, a), id)
      ensures OwnerIsSafe(Apply(s, a), id)
    {
      if Owns(s, id) {
        assert OwnerIsSafe(s, id);
      }
      OwnerStaysSafe(s, a, id);
    }
  }

  /** The file judged is not a live start's: it is too old, or its ID is no one's but the judge's own. */
  lemma JudgedRightly(s: State, id: Id, running: bool)
    requires Inv(s) && Enabled(s, Judge(id, running))
    ensures JudgedIsLeft(Apply(s, Judge(id, running)), id)
  {
    var p := s.starts[id].phase;
    assert ReadIsTrue(s, id);
    forall o | Owns(s, o) && s.starts[o].phase.inode == p.read && s.lock.Some? && s.lock.value.inode == p.read
      ensures Held(s, s.starts[id].pid, p.pid, running, s.lock.value.mtime)
    {
      assert OwnerIsSafe(s, o) && Lives(s, o) && Lives(s, id) && o != id;
    }
  }

  lemma ReadStaysTrue(s: State, a: Action, id: Id)
    requires Inv(s) && Enabled(s, a) && id in Apply(s, a).starts
    ensures ReadIsTrue(Apply(s, a), id) && JudgedIsLeft(Apply(s, a), id)
  {
    OnlyCreateMakesOwners(s, a);
    OwnersHaveTheLock(s);
    if a.Judge? && a.id == id {
      JudgedRightly(s, id, a.running);
    } else if a == ReadId(id) {
      forall o | Owns(s, o)
        ensures OwnerIsSafe(s, o)
      {
      }
    } else if id in s.starts {
      assert ReadIsTrue(s, id) && JudgedIsLeft(s, id);
      assert PhaseOf(Apply(s, a), id).IdRead? || PhaseOf(Apply(s, a), id).Judged? ==> PhaseOf(Apply(s, a), id) == PhaseOf(s, id);
    }
  }

  lemma IdsStayDifferent(s: State, a: Action)
    requires Inv(s) && Enabled(s, a)
    ensures IdsDiffer(Apply(s, a))
  {
    assert forall o :: Lives(Apply(s, a), o) ==>
      (Lives(s, o) && Apply(s, a).starts[o].pid == s.starts[o].pid) || (a.Start? && a.id == o && Apply(s, a).starts[o].pid == a.pid);
  }

  lemma StepKeepsExactly(s: State, a: Action)
    requires Inv(s) && Enabled(s, a)
    ensures Inv(Apply(s, a)) <==> Harmless(s, a)
  {
    if Harmless(s, a) {
      OwnersStaySafe(s, a);
      OwnersStayApart(s, a);
      IdsStayDifferent(s, a);
      forall id | id in Apply(s, a).starts
        ensures ReadIsTrue(Apply(s, a), id) && JudgedIsLeft(Apply(s, a), id)
      {
        ReadStaysTrue(s, a, id);
      }
    } else {
      var o :| Owns(s, o);
      assert Owns(Apply(s, a), o);
    }
  }

  // ---- Runs ---------------------------------------------------------------------------

  ghost function Step(s: State, a: Action): Option<State> {
    if Enabled(s, a) then Some(Apply(s, a)) else None
  }

  /** One start sets up now, and one still whichever tries next, a newcomer included. */
  ghost predicate Apart(s: State) {
    && Exclusive(s)
    && (forall id :: Enabled(s, Create(id)) ==> Exclusive(Apply(s, Create(id))))
    && (forall id, pid :: Enabled(s, Start(id, pid)) ==> NewcomerStaysOut(s, id, pid))
  }

  ghost predicate NewcomerStaysOut(s: State, id: Id, pid: nat)
    requires Enabled(s, Start(id, pid))
  {
    Exclusive(Apply(Apply(s, Start(id, pid)), Create(id)))
  }

  lemma InvariantKeepsApart(s: State)
    requires Inv(s)
    ensures Apart(s)
  {
    forall id | Enabled(s, Create(id))
      ensures Exclusive(Apply(s, Create(id)))
    {
      OwnersStayApart(s, Create(id));
    }
    forall id, pid | Enabled(s, Start(id, pid))
      ensures NewcomerStaysOut(s, id, pid)
    {
      StepKeepsExactly(s, Start(id, pid));
      OwnersStayApart(Apply(s, Start(id, pid)), Create(id));
    }
  }

  lemma {:induction false} Above(used: set<nat>) returns (n: nat)
    ensures forall x :: x in used ==> x < n
  {
    if used == {} {
      n := 0;
    } else {
      var x :| x in used;
      n := Above(used - {x});
      n := if n <= x then x + 1 else n;
      assert used == (used - {x}) + {x};
    }
  }

  /** A start that removes a live one's lock lets two in: whichever comes now finds none. */
  lemma HarmLetsTwoIn(s: State, a: Action)
    requires Inv(s) && Enabled(s, a) && !Harmless(s, a)
    ensures !Apart(Apply(s, a))
  {
    var o :| Owns(s, o);
    var s' := Apply(s, a);
    var id := Above(s'.starts.Keys);
    var pids := set x | x in s'.starts :: s'.starts[x].pid;
    var pid := Above(pids);
    assert id !in s'.starts;
    forall x | Lives(s', x)
      ensures s'.starts[x].pid != pid
    {
      assert s'.starts[x].pid in pids;
    }
    assert Enabled(s', Start(id, pid));
    var two := Apply(Apply(s', Start(id, pid)), Create(id));
    assert Owns(two, o) && Owns(two, id);
    assert !NewcomerStaysOut(s', id, pid);
  }

  lemma HarmlessStepsKeep()
    ensures forall x, a :: Inv(x) && Harmless(x, a) && Step(x, a).Some? ==> Inv(Step(x, a).value)
  {
    forall x, a | Inv(x) && Harmless(x, a) && Step(x, a).Some?
      ensures Inv(Step(x, a).value)
    {
      StepKeepsExactly(x, a);
    }
  }

  /**
   * In every interleaving of any number of starts, some cut off on the way: two never set up at the same
   * time, nor could whichever tried next, if and only if no start of the run removes a live one's lock.
   */
  lemma ApartExactly(s: State, actions: seq<Action>, t: State)
    requires (Init(s) || Inv(s)) && Leads(Step, s, actions, t)
    ensures Throughout(Step, Apart, s, actions) <==> Always(Step, Harmless, s, actions)
  {
    assert Inv(s);
    HarmlessStepsKeep();
    forall x | Inv(x)
      ensures Apart(x)
    {
      InvariantKeepsApart(x);
    }
    forall x, a | Inv(x) && !Harmless(x, a) && Step(x, a).Some?
      ensures !Apart(Step(x, a).value)
    {
      HarmLetsTwoIn(x, a);
    }
    HoldsExactly(Step, Inv, Harmless, Apart, s, actions, t);
  }

  /** It is enough that the ID and the age each start judges by are those of the file it removes. */
  lemma UndisturbedRunIsHarmless(s: State, actions: seq<Action>, t: State)
    requires (Init(s) || Inv(s)) && Leads(Step, s, actions, t) && Always(Step, Undisturbed, s, actions)
    ensures Always(Step, Harmless, s, actions)
  {
    assert Inv(s);
    HarmlessStepsKeep();
    forall x, a | Inv(x) && Undisturbed(x, a)
      ensures Harmless(x, a)
    {
      UndisturbedIsHarmless(x, a);
    }
    GoodToo(Step, Inv, Undisturbed, Harmless, s, actions);
  }

  // ---- What a start alone does ----------------------------------------------------------

  /** With no lock there a start gets inside, and gives its lock back. */
  lemma SetsUpAlone(s: State, id: Id) returns (inside: State, t: State)
    requires Inv(s) && s.lock.None? && PhaseOf(s, id).Trying?
    ensures Leads(Step, s, [Create(id), WriteId(id)], inside) && PhaseOf(inside, id).Inside?
    ensures inside.lock == Some(LockFile(s.nextInode, Some(s.starts[id].pid), s.now))
    ensures Leads(Step, inside, [Release(id)], t) && PhaseOf(t, id).Over? && t.lock.None?
    ensures forall o :: o in s.starts && o != id ==> o in t.starts && t.starts[o] == s.starts[o]
  {
    var created := Apply(s, Create(id));
    inside := Apply(created, WriteId(id));
    Two(Step, s, Create(id), created, WriteId(id), inside);
    t := Apply(inside, Release(id));
    One(Step, inside, Release(id), t);
  }

  /** A start that finds a lock reads it, and is turned away with the lock as it was, or may remove it. */
  lemma JudgesAlone(s: State, id: Id, running: bool) returns (t: State)
    requires s.lock.Some? && PhaseOf(s, id).Trying?
    requires forall o :: Lives(s, o) && s.lock.value.pid == Some(s.starts[o].pid) ==> running
    ensures Leads(Step, s, [Create(id), ReadId(id), Judge(id, running)], t) && t.lock == s.lock && t.now == s.now
    ensures PhaseOf(t, id) ==
            if s.now - s.lock.value.mtime < 600_000
               && (s.lock.value.pid.None? || (s.lock.value.pid.value != s.starts[id].pid && running))
            then Over else Judged(s.lock.value.inode, s.lock.value.inode)
    ensures t.starts.Keys == s.starts.Keys && t.starts[id].left == s.starts[id].left
  {
    var refused := Apply(s, Create(id));
    var read := Apply(refused, ReadId(id));
    t := Apply(read, Judge(id, running));
    Two(Step, s, Create(id), refused, ReadId(id), read);
    Further(Step, s, [Create(id), ReadId(id)], read, Judge(id, running), t);
    assert [Create(id), ReadId(id)] + [Judge(id, running)] == [Create(id), ReadId(id), Judge(id, running)];
  }

  /** A leftover lock is removed by the first start to judge it, which then gets inside at its second try. */
  lemma LeftoverGivesWay(s: State, id: Id)
    requires Enabled(s, Remove(id)) && s.starts[id].left > 1
    ensures var t := Apply(s, Remove(id)); t.lock.None? && PhaseOf(t, id).Trying? && t.starts[id].left == s.starts[id].left - 1
  {
  }

  /** What is not its own is left: an ID written late lands in its own file, and one that could not be written leaves no owner. */
  lemma AnothersLockIsLeft(s: State, id: Id)
    ensures Enabled(s, WriteId(id)) && s.lock.Some? && s.lock.value.inode != s.starts[id].phase.inode ==>
              Apply(s, WriteId(id)).lock == s.lock
    ensures Enabled(s, WriteFails(id)) ==> Apply(s, WriteFails(id)).lock == s.lock && PhaseOf(Apply(s, WriteFails(id)), id).Over?
    ensures Enabled(s, Die(id)) ==> Apply(s, Die(id)).lock == s.lock && !Lives(Apply(s, Die(id)), id)
    ensures forall to :: Enabled(s, Tick(to)) ==> Apply(s, Tick(to)) == s.(now := to)
  {
  }

  function Tries(id: Id, actions: seq<Action>): nat {
    if actions == [] then 0 else (if actions[0] == Create(id) then 1 else 0) + Tries(id, actions[1..])
  }

  /** The tries a start has left. */
  function Left(s: State, id: Id): nat {
    if id !in s.starts || s.starts[id].phase.Over? || s.starts[id].phase.Dead? then 0
    else if s.starts[id].phase.Trying? then s.starts[id].left
    else if s.starts[id].left > 0 then s.starts[id].left - 1 else 0
  }

  lemma {:induction false} NoMoreThanLeft(s: State, id: Id, actions: seq<Action>, t: State)
    requires id in s.starts && s.starts[id].left > 0 && Leads(Step, s, actions, t)
    ensures Tries(id, actions) <= Left(s, id)
    decreases |actions|
  {
    if actions != [] {
      var next := Apply(s, actions[0]);
      assert id in next.starts && next.starts[id].left > 0;
      assert Left(next, id) + (if actions[0] == Create(id) then 1 else 0) <= Left(s, id);
      NoMoreThanLeft(next, id, actions[1..], t);
    }
  }

  /** A start tries to take the lock twice at most, whatever the others do. */
  lemma TriesTwiceAtMost(s: State, id: Id, pid: nat, actions: seq<Action>, t: State)
    requires Enabled(s, Start(id, pid)) && Leads(Step, Apply(s, Start(id, pid)), actions, t)
    ensures Tries(id, actions) <= 2
  {
    NoMoreThanLeft(Apply(s, Start(id, pid)), id, actions, t);
  }

  // ---- Without the condition ----------------------------------------------------------

  /** Two starts, processes 1 and 2, and what is in the lock file: process 9 was cut off. */
  function At(lock: Option<LockFile>, next: nat, p: Phase, left: nat, q: Phase, qleft: nat): State {
    State(lock, 0, next, map[1 := Starter(1, left, p, 0), 2 := Starter(2, qleft, q, 0)])
  }

  function Leftover(): Option<LockFile> { Some(LockFile(0, Some(9), 0)) }

  function Found(): State { State(Leftover(), 0, 1, map[]) }

  function BothTrying(): State { At(Leftover(), 1, Trying, 2, Trying, 2) }

  function BothRefused(): State { At(Leftover(), 1, Refused, 2, Refused, 2) }

  function BothRead(): State { At(Leftover(), 1, IdRead(0, Some(9)), 2, IdRead(0, Some(9)), 2) }

  function BothJudged(): State { At(Leftover(), 1, Judged(0, 0), 2, Judged(0, 0), 2) }

  function OneInside(): State { At(Some(LockFile(1, Some(2), 0)), 2, Judged(0, 0), 2, Inside(1), 1) }

  function BothInside(): State { At(Some(LockFile(2, Some(1), 0)), 3, Inside(2), 1, Inside(1), 1) }

  lemma Then(s: State, a: Action, m: State, b: Action, t: State)
    requires Enabled(s, a) && Apply(s, a) == m && Enabled(m, b) && Apply(m, b) == t
    ensures Leads(Step, s, [a, b], t)
  {
    Two(Step, s, a, m, b, t);
  }

  lemma ToBothRefused()
    ensures Leads(Step, Found(), [Start(1, 1), Start(2, 2)], BothTrying())
    ensures Leads(Step, BothTrying(), [Create(1), Create(2)], BothRefused())
  {
    Then(Found(), Start(1, 1), State(Leftover(), 0, 1, map[1 := Starter(1, 2, Trying, 0)]), Start(2, 2), BothTrying());
    Then(BothTrying(), Create(1), At(Leftover(), 1, Refused, 2, Trying, 2), Create(2), BothRefused());
  }

  lemma ToBothJudged()
    ensures Leads(Step, BothRefused(), [ReadId(1), ReadId(2)], BothRead())
    ensures Leads(Step, BothRead(), [Judge(1, false), Judge(2, false)], BothJudged())
  {
    Then(BothRefused(), ReadId(1), At(Leftover(), 1, IdRead(0, Some(9)), 2, Refused, 2), ReadId(2), BothRead());
    Then(BothRead(), Judge(1, false), At(Leftover(), 1, Judged(0, 0), 2, IdRead(0, Some(9)), 2), Judge(2, false), BothJudged());
  }

  lemma ToOneInside()
    ensures Leads(Step, BothJudged(), [Remove(2), Create(2)], At(Some(LockFile(1, None, 0)), 2, Judged(0, 0), 2, Created(1), 1))
    ensures Leads(Step, At(Some(LockFile(1, None, 0)), 2, Judged(0, 0), 2, Created(1), 1), [WriteId(2), Remove(1)],
                  At(None, 2, Trying, 1, Inside(1), 1))
  {
    Then(BothJudged(), Remove(2), At(None, 1, Judged(0, 0), 2, Trying, 1), Create(2),
         At(Some(LockFile(1, None, 0)), 2, Judged(0, 0), 2, Created(1), 1));
    Then(At(Some(LockFile(1, None, 0)), 2, Judged(0, 0), 2, Created(1), 1), WriteId(2), OneInside(), Remove(1),
         At(None, 2, Trying, 1, Inside(1), 1));
  }

  lemma ToBothInside()
    ensures Leads(Step, At(None, 2, Trying, 1, Inside(1), 1), [Create(1), WriteId(1)], BothInside())
  {
    Then(At(None, 2, Trying, 1, Inside(1), 1), Create(1), At(Some(LockFile(2, None, 0)), 3, Created(2), 1, Inside(1), 1),
         WriteId(1), BothInside());
  }

  /** The two starts' steps: both judge the leftover, and each removes a lock and makes its own. */
  function Overlap(): seq<Action> { UntilJudged() + UntilInside() }

  function UntilJudged(): seq<Action> {
    [Start(1, 1), Start(2, 2)] + [Create(1), Create(2)] + [ReadId(1), ReadId(2)] + [Judge(1, false), Judge(2, false)]
  }

  function UntilInside(): seq<Action> { [Remove(2), Create(2)] + [WriteId(2), Remove(1)] + [Create(1), WriteId(1)] }

  predicate NoneReleased(actions: seq<Action>) { forall i :: 0 <= i < |actions| ==> !actions[i].Release? }

  lemma NoneReleasedInBoth(a: seq<Action>, b: seq<Action>)
    requires NoneReleased(a) && NoneReleased(b)
    ensures NoneReleased(a + b)
  {
  }

  lemma OverlapReleasesNone()
    ensures NoneReleased(Overlap())
  {
    assert NoneReleased(UntilJudged());
    assert NoneReleased(UntilInside());
    NoneReleasedInBoth(UntilJudged(), UntilInside());
  }

  lemma UntilJudgedLeads()
    ensures Leads(Step, Found(), UntilJudged(), BothJudged())
  {
    ToBothRefused();
    ToBothJudged();
    var a := [Start(1, 1), Start(2, 2)];
    LeadsThrough(Step, Found(), a, BothTrying(), [Create(1), Create(2)], BothRefused());
    LeadsThrough(Step, Found(), a + [Create(1), Create(2)], BothRefused(), [ReadId(1), ReadId(2)], BothRead());
    LeadsThrough(Step, Found(), a + [Create(1), Create(2)] + [ReadId(1), ReadId(2)], BothRead(),
                 [Judge(1, false), Judge(2, false)], BothJudged());
  }

  lemma UntilInsideLeads()
    ensures Leads(Step, BothJudged(), UntilInside(), BothInside())
  {
    ToOneInside();
    ToBothInside();
    var created := At(Some(LockFile(1, None, 0)), 2, Judged(0, 0), 2, Created(1), 1);
    var removed := At(None, 2, Trying, 1, Inside(1), 1);
    LeadsThrough(Step, BothJudged(), [Remove(2), Create(2)], created, [WriteId(2), Remove(1)], removed);
    LeadsThrough(Step, BothJudged(), [Remove(2), Create(2)] + [WriteId(2), Remove(1)], removed,
                 [Create(1), WriteId(1)], BothInside());
  }

  /** A run of the two starts as they are coded in which both set up at the same time. */
  lemma BothSetUp()
    ensures Init(Found()) && Leads(Step, Found(), Overlap(), BothInside()) && !Exclusive(BothInside())
  {
    UntilJudgedLeads();
    UntilInsideLeads();
    LeadsThrough(Step, Found(), UntilJudged(), BothJudged(), UntilInside(), BothInside());
    assert Owns(BothInside(), 1) && Owns(BothInside(), 2);
  }
}
