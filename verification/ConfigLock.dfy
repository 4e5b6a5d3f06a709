/**
 * The lock on celerp-config.json, shared by Python and Node writers
 * (celerp/config_store.py, electron/config-writer.js), one file operation at a time.
 */
module ConfigLock {
  import opened Wrappers
  import opened Runs

  type Id = nat                       // one acquisition; its token is unique, so it stands for it
  type Entries = map<string, string>

  // Time is counted in thirds of a millisecond, so that a third of the limit is a whole number.
  const STALE := 30_000       // 10 s
  const BUDGET := 15_000      // 5 s
  const REFRESH := 10_000     // a third of STALE
  const LATE := 20_000        // two thirds of STALE

  /** A Python or a Node config writer, or a Python owner keeping the lock with hold_lock. */
  datatype Kind = Python | Node | Keeper

  /** The lock file: which file it is, its body (none until the token is written) and its age. */
  datatype LockFile = LockFile(inode: nat, body: Option<Id>, mtime: int)

  datatype Content = Missing | Corrupt | NotAnObject | Object(entries: Entries)

  datatype Phase =
    | Trying                                         // about to create the lock exclusively
    | Refused                                        // it exists; about to read its age
    | Aged(measured: nat)                            // it is stale; about to read its token
    | Doomed(measured: nat, seen: Option<Id>)        // about to read it again and remove it if unchanged
    | Waiting                                        // about to check the deadline and sleep
    | Created(inode: nat)                            // the file is there, the token is not written
    | Holding(inode: nat)
    | Loaded(inode: nat, base: Entries)              // the config was read under the lock
    | Done(inode: nat, wrote: bool)                  // about to check the lock still holds its token
    | Verified(inode: nat, wrote: bool)              // about to remove the lock
    | Finished(wrote: bool)
    | Dead

  /**
   * The thread that keeps a lock: not there; about to wait, since the token was written or the time last
   * set; waiting until `due`, having taken `spent` to get there; having read its token back, about to set
   * the file's time; or returned, the token being another's.
   */
  datatype Refresher =
    | Off
    | Ready(since: int)
    | Resting(spent: int, due: int)
    | Touching(spent: int, due: int)
    | Returned

  /** `since` is when it started, and then when it created its lock. */
  datatype Writer = Writer(kind: Kind, patch: Entries, deadline: int, phase: Phase, since: int, refresher: Refresher)

  /** One config replaced: by which lock file's owner, and what it merged. */
  datatype Commit = Commit(inode: nat, id: Id, patch: Entries)

  datatype State = State(lock: Option<LockFile>, config: Content, now: int, nextInode: nat,
                         writers: map<Id, Writer>, initial: Content, commits: seq<Commit>)

  datatype Action =
    | Start(id: Id, kind: Kind, patch: Entries)
    | Create(id: Id)
    | WriteToken(id: Id)
    | TokenFails(id: Id)
    | Stat(id: Id)
    | ReadStale(id: Id)
    | TakeOver(id: Id)
    | Retry(id: Id)
    | GiveUp(id: Id)
    | Load(id: Id)
    | Replace(id: Id)
    | Abandon(id: Id)
    | Rest(id: Id)
    | ReadBack(id: Id)
    | Touch(id: Id)
    | Check(id: Id)
    | Remove(id: Id)
    | Die(id: Id)
    | Tick(to: int)

  /** What a writer merges into when the config holds `c`. */
  function EntriesOf(c: Content): Entries {
    if c.Object? then c.entries else map[]
  }

  function PhaseOf(s: State, id: Id): Phase {
    if id in s.writers then s.writers[id].phase else Dead
  }

  /** Between creating the lock file and removing it, and not dead. */
  ghost predicate Owns(s: State, id: Id) {
    var p := PhaseOf(s, id);
    p.Created? || p.Holding? || p.Loaded? || p.Done? || p.Verified?
  }

  /**
   * What the clock leaves a living owner: one that only updates is done with its lock a limit after
   * creating it. One that keeps its lock has its refresher less than two thirds of the limit late in each
   * round, by its own schedule and no other clock: what it took to begin the wait, and what it is overdue.
   */
  predicate OnTime(w: Writer, to: int) {
    match w.refresher
    case Off => to - w.since <= STALE
    case Ready(since) => to - since < LATE
    case Resting(spent, due) => spent + to - due < LATE
    case Touching(spent, due) => spent + to - due < LATE
    case Returned => true
  }

  ghost predicate InTime(s: State, to: int) {
    forall id :: Owns(s, id) ==> OnTime(s.writers[id], to)
  }

  ghost predicate Enabled(s: State, a: Action) {
    match a
    case Tick(to) => s.now <= to && InTime(s, to)
    case Start(id, _, _) => id !in s.writers
    case Create(id) => PhaseOf(s, id).Trying?
    case WriteToken(id) => PhaseOf(s, id).Created?
    case TokenFails(id) => PhaseOf(s, id).Created?
    case Stat(id) => PhaseOf(s, id).Refused?
    case ReadStale(id) => PhaseOf(s, id).Aged?
    case TakeOver(id) => PhaseOf(s, id).Doomed?
    case Retry(id) => PhaseOf(s, id).Waiting? && s.now < s.writers[id].deadline
    case GiveUp(id) => PhaseOf(s, id).Waiting? && s.now >= s.writers[id].deadline
    case Load(id) => PhaseOf(s, id).Holding? && !s.writers[id].kind.Keeper?
    case Replace(id) => PhaseOf(s, id).Loaded?
    // a release waits for a refresh under way
    case Abandon(id) => (PhaseOf(s, id).Loaded? || PhaseOf(s, id).Holding?) && !s.writers[id].refresher.Touching?
    case Rest(id) => PhaseOf(s, id).Holding? && s.writers[id].refresher.Ready?
    case ReadBack(id) => PhaseOf(s, id).Holding? && s.writers[id].refresher.Resting? && s.now >= s.writers[id].refresher.due
    case Touch(id) => PhaseOf(s, id).Holding? && s.writers[id].refresher.Touching?
    case Check(id) => PhaseOf(s, id).Done?
    case Remove(id) => PhaseOf(s, id).Verified?
    case Die(id) => id in s.writers && !s.writers[id].phase.Finished?
  }

  function To(s: State, id: Id, phase: Phase): State
    requires id in s.writers
  {
    s.(writers := s.writers[id := s.writers[id].(phase := phase)])
  }

  function With(s: State, id: Id, refresher: Refresher): State
    requires id in s.writers
  {
    s.(writers := s.writers[id := s.writers[id].(refresher := refresher)])
  }

  /** The writer's lock is the file numbered `inode`, made now. */
  function Acquired(s: State, id: Id, inode: nat): State
    requires id in s.writers
  {
    s.(writers := s.writers[id := s.writers[id].(phase := Created(inode), since := s.now, refresher := Off)])
  }

  /** Its token is written; one that keeps the lock starts its refresher. */
  function Begun(s: State, id: Id, inode: nat): State
    requires id in s.writers
  {
    var w := s.writers[id];
    s.(writers := s.writers[id := w.(phase := Holding(inode), refresher := if w.kind.Keeper? then Ready(s.now) else Off)])
  }

  /** The state after `a`. */
  ghost function Apply(s: State, a: Action): State
    requires Enabled(s, a)
  {
    match a
    case Tick(to) => s.(now := to)
    case Start(id, kind, patch) => s.(writers := s.writers[id := Writer(kind, patch, s.now + BUDGET, Trying, s.now, Off)])
    case Create(id) =>
      if s.lock.Some? then To(s, id, Refused)
      else Acquired(s, id, s.nextInode).(lock := Some(LockFile(s.nextInode, None, s.now)), nextInode := s.nextInode + 1)
    case WriteToken(id) =>
      // written through the open file: it lands even if the path now names another
      var i := s.writers[id].phase.inode;
      if s.lock.Some? && s.lock.value.inode == i
      then Begun(s, id, i).(lock := Some(LockFile(i, Some(id), s.now))) else Begun(s, id, i)
    case TokenFails(id) =>
      // Python gives a lock back whose body its token starts with; Node leaves it to go stale
      if s.writers[id].kind.Node? then To(s, id, Dead)
      else if s.lock.Some? && (s.lock.value.body.None? || s.lock.value.body == Some(id))
      then To(s, id, Finished(false)).(lock := None) else To(s, id, Finished(false))
    case Stat(id) =>
      if s.lock.Some? && s.now - s.lock.value.mtime > STALE then To(s, id, Aged(s.lock.value.inode)) else To(s, id, Waiting)
    case ReadStale(id) =>
      if s.lock.Some? then To(s, id, Doomed(s.writers[id].phase.measured, s.lock.value.body))
      else To(s, id, if s.writers[id].kind.Node? then Trying else Waiting)
    case TakeOver(id) =>
      // the second read and the removal as one operation
      if Removes(s, id) then To(s, id, Trying).(lock := None)
      else To(s, id, if s.writers[id].kind.Node? then Trying else Waiting)
    case Retry(id) => To(s, id, Trying)
    case GiveUp(id) => To(s, id, Finished(false))
    case Load(id) =>
      var i := s.writers[id].phase.inode;
      if s.writers[id].kind.Python? && s.config.Corrupt? then To(s, id, Done(i, false))
      else To(s, id, Loaded(i, EntriesOf(s.config)))
    case Replace(id) =>
      var w := s.writers[id];
      To(s, id, Done(w.phase.inode, true)).(config := Object(w.phase.base + w.patch),
        commits := s.commits + [Commit(w.phase.inode, id, w.patch)])
    case Abandon(id) => To(s, id, Done(s.writers[id].phase.inode, false))
    case Rest(id) => With(s, id, Resting(s.now - s.writers[id].refresher.since, s.now + REFRESH))
    case ReadBack(id) =>
      var r := s.writers[id].refresher;
      With(s, id, if s.lock.Some? && s.lock.value.body == Some(id) then Touching(r.spent, r.due) else Returned)
    case Touch(id) =>
      // by its path: whatever file is there now
      var ready := With(s, id, Ready(s.now));
      if s.lock.Some? then ready.(lock := Some(s.lock.value.(mtime := s.now))) else ready
    case Check(id) =>
      var p := s.writers[id].phase;
      if s.lock.Some? && s.lock.value.body == Some(id) then To(s, id, Verified(p.inode, p.wrote)) else To(s, id, Finished(p.wrote))
    case Remove(id) => To(s, id, Finished(s.writers[id].phase.wrote)).(lock := None)
    case Die(id) => To(s, id, Dead)
  }

  /** Whether a takeover removes the lock: its body is still the one just read. */
  ghost predicate Removes(s: State, id: Id)
    requires Enabled(s, TakeOver(id))
  {
    s.lock.Some? && s.lock.value.body == s.writers[id].phase.seen
  }

  ghost predicate Init(s: State) {
    s.lock.None? && s.nextInode == 0 && s.writers == map[] && s.config == s.initial && s.commits == []
  }

  // ---- What every run keeps -----------------------------------------------------------

  /** The config the commits make of the one the run began with, merged one after another. */
  function Folded(initial: Content, commits: seq<Commit>): Content {
    if commits == [] then initial
    else Object(EntriesOf(Folded(initial, commits[..|commits| - 1])) + commits[|commits| - 1].patch)
  }

  /** The owner's schedule and the time on its lock go together. */
  predicate Linked(w: Writer, mtime: int) {
    match w.refresher
    case Off => w.since <= mtime
    case Ready(since) => w.kind.Keeper? && mtime == since
    case Resting(spent, due) => w.kind.Keeper? && mtime + spent + REFRESH == due && spent < LATE
    case Touching(spent, due) => w.kind.Keeper? && mtime + spent + REFRESH == due
    case Returned => false
  }

  /** A living owner's lock is the one on disk, in time, and holds its token once written. */
  ghost predicate OwnerIsSafe(s: State, id: Id)
    requires Owns(s, id)
  {
    && s.lock.Some? && s.lock.value.inode == s.writers[id].phase.inode && s.lock.value.inode < s.nextInode
    && Linked(s.writers[id], s.lock.value.mtime) && OnTime(s.writers[id], s.now)
    && s.lock.value.body == (if s.writers[id].phase.Created? then None else Some(id))
    && (s.writers[id].phase.Created? ==> s.writers[id].refresher.Off?)
  }

  /** No two critical sections at once. */
  ghost predicate Exclusive(s: State) {
    forall a, b :: Owns(s, a) && Owns(s, b) ==> a == b
  }

  ghost predicate OwnersAreSafe(s: State) {
    forall id :: Owns(s, id) ==> OwnerIsSafe(s, id)
  }

  /** Files are numbered as they are made, and time does not run back. */
  ghost predicate LockIsLast(s: State) {
    s.lock.Some? ==> s.lock.value.inode + 1 == s.nextInode && s.lock.value.mtime <= s.now
  }

  /** What an owner read is still what the config holds. */
  ghost predicate BasesAreCurrent(s: State) {
    forall id :: PhaseOf(s, id).Loaded? ==> s.writers[id].phase.base == EntriesOf(s.config)
  }

  ghost predicate Inv(s: State) {
    && OwnersAreSafe(s) && Exclusive(s) && LockIsLast(s) && BasesAreCurrent(s)
    && MeasuredAreAbandoned(s) && InLockOrder(s) && AllSaidSo(s)
    && s.config == Folded(s.initial, s.commits)
  }

  ghost predicate MeasuredAreAbandoned(s: State) {
    forall id :: id in s.writers ==> MeasuredIsAbandoned(s, id)
  }

  ghost predicate AllSaidSo(s: State) {
    forall id :: id in s.writers ==> SaidSo(s, id)
  }

  /** A lock file once measured stale has no living owner, then or later. */
  ghost predicate MeasuredIsAbandoned(s: State, id: Id)
    requires id in s.writers
  {
    s.writers[id].phase.Aged? || s.writers[id].phase.Doomed? ==>
      var i := s.writers[id].phase.measured;
      i < s.nextInode && forall o :: Owns(s, o) ==> s.writers[o].phase.inode != i
  }

  /** Commits follow each other in the order the locks were taken. */
  ghost predicate InLockOrder(s: State) {
    && (forall i, j :: 0 <= i < j < |s.commits| ==> s.commits[i].inode < s.commits[j].inode)
    && (forall i :: 0 <= i < |s.commits| ==> s.commits[i].inode < s.nextInode)
    && (forall id, i :: Unfinished(s, id) && 0 <= i < |s.commits| ==> s.commits[i].inode < s.writers[id].phase.inode)
  }

  /** Has the lock, and its update still to come. */
  ghost predicate Unfinished(s: State, id: Id) {
    var p := PhaseOf(s, id);
    p.Created? || p.Holding? || p.Loaded?
  }

  /** A writer that reports its update saved has it among the commits. */
  ghost predicate SaidSo(s: State, id: Id)
    requires id in s.writers
  {
    var p := s.writers[id].phase;
    (p.Done? || p.Verified? || p.Finished?) && p.wrote ==>
      exists i :: 0 <= i < |s.commits| && s.commits[i].id == id && s.commits[i].patch == s.writers[id].patch
  }

  /** Nothing came between the takeover's measure and its removal: the file removed is the one measured stale. */
  ghost predicate Undisturbed(s: State, a: Action) {
    a.TakeOver? && Enabled(s, a) && Removes(s, a.id) ==> s.lock.value.inode == s.writers[a.id].phase.measured
  }

  /** No takeover removes a living owner's lock. */
  ghost predicate Harmless(s: State, a: Action) {
    a.TakeOver? && Enabled(s, a) && Removes(s, a.id) ==> forall o :: !Owns(s, o)
  }

  /** The file measured stale has no living owner, so removing that very file harms no one. */
  lemma UndisturbedIsHarmless(s: State, a: Action)
    requires Inv(s) && Undisturbed(s, a)
    ensures Harmless(s, a)
  {
    OwnersHaveTheLock(s);
    if a.TakeOver? && Enabled(s, a) {
      assert MeasuredIsAbandoned(s, a.id);
    }
  }

  /** The clock: a living owner is still in time. */
  lemma OwnerSafeInTime(s: State, to: int, id: Id)
    requires Enabled(s, Tick(to)) && Owns(s, id) && OwnerIsSafe(s, id)
    ensures OwnerIsSafe(Apply(s, Tick(to)), id)
  {
  }

  /** Another's step leaves an owner's record and its lock alone, but for a harmful takeover. */
  lemma OwnerSafeFromOthers(s: State, a: Action, id: Id)
    requires Enabled(s, a) && Harmless(s, a) && !a.Tick? && a.id != id && !Owns(s, a.id)
    requires Owns(s, id) && OwnerIsSafe(s, id)
    ensures OwnerIsSafe(Apply(s, a), id)
  {
    assert id in Apply(s, a).writers && Apply(s, a).writers[id] == s.writers[id];
    assert Apply(s, a).lock == s.lock && Apply(s, a).now == s.now;
  }

  /** An owner's own step, and the create that makes it one. */
  lemma OwnerSafeByItself(s: State, a: Action, id: Id)
    requires Enabled(s, a) && !a.Tick? && a.id == id && Owns(Apply(s, a), id)
    requires LockIsLast(s) && if Owns(s, id) then OwnerIsSafe(s, id) else a == Create(id) && s.lock.None?
    ensures OwnerIsSafe(Apply(s, a), id)
  {
  }

  lemma OwnerStaysSafe(s: State, a: Action, id: Id)
    requires Enabled(s, a) && Harmless(s, a) && Owns(Apply(s, a), id)
    requires LockIsLast(s) && (forall o :: Owns(s, o) ==> o == id) && (Owns(s, id) ==> OwnerIsSafe(s, id))
    ensures OwnerIsSafe(Apply(s, a), id)
  {
    OnlyCreateMakesOwners(s, a);
    if a.Tick? {
      OwnerSafeInTime(s, a.to, id);
    } else if a.id == id {
      OwnerSafeByItself(s, a, id);
    } else {
      OwnerSafeFromOthers(s, a, id);
    }
  }

  lemma OwnersStaySafe(s: State, a: Action)
    requires Inv(s) && Enabled(s, a) && Harmless(s, a)
    ensures OwnersAreSafe(Apply(s, a))
  {
    OwnersHaveTheLock(s);
    OnlyCreateMakesOwners(s, a);
    forall id | Owns(Apply(s, a), id)
      ensures OwnerIsSafe(Apply(s, a), id)
    {
      if Owns(s, id) {
        assert OwnerIsSafe(s, id);
      }
      OwnerStaysSafe(s, a, id);
    }
  }

  ghost predicate HasTheLock(s: State, inode: nat) {
    s.lock.Some? && s.lock.value.inode == inode && inode < s.nextInode && s.now - s.lock.value.mtime <= STALE
  }

  lemma OwnersHaveTheLock(s: State)
    requires OwnersAreSafe(s)
    ensures forall o :: Owns(s, o) ==> HasTheLock(s, s.writers[o].phase.inode)
  {
    forall o | Owns(s, o)
      ensures HasTheLock(s, s.writers[o].phase.inode)
    {
      assert OwnerIsSafe(s, o);
    }
  }

  lemma OnlyCreateMakesOwners(s: State, a: Action)
    requires Enabled(s, a)
    ensures forall o :: Owns(Apply(s, a), o) ==>
      if Owns(s, o) then Apply(s, a).writers[o].phase.inode == s.writers[o].phase.inode
      else a == Create(o) && s.lock.None? && Apply(s, a).writers[o].phase.inode == s.nextInode
  {
  }

  lemma OwnersStayApart(s: State, a: Action)
    requires Inv(s) && Enabled(s, a)
    ensures Exclusive(Apply(s, a))
  {
    OwnersHaveTheLock(s);
    OnlyCreateMakesOwners(s, a);
  }

  /** A writer has measured what it had measured before, or the lock it just found stale. */
  lemma MeasuredBefore(s: State, a: Action, id: Id)
    requires Enabled(s, a)
    ensures var p, q := PhaseOf(s, id), PhaseOf(Apply(s, a), id);
            q.Aged? || q.Doomed? ==>
              if a == Stat(id) then s.lock.Some? && q.measured == s.lock.value.inode && s.now - s.lock.value.mtime > STALE
              else (p.Aged? || p.Doomed?) && p.measured == q.measured
  {
  }

  lemma MeasuredStayAbandoned(s: State, a: Action)
    requires Inv(s) && Enabled(s, a)
    ensures MeasuredAreAbandoned(Apply(s, a))
  {
    var s' := Apply(s, a);
    OwnersHaveTheLock(s);
    OnlyCreateMakesOwners(s, a);
    forall id | id in s'.writers
      ensures MeasuredIsAbandoned(s', id)
    {
      MeasuredBefore(s, a, id);
      assert s.nextInode <= s'.nextInode;
      if id in s.writers {
        assert MeasuredIsAbandoned(s, id);
      }
    }
  }

  /** The only owner's update is made, so none is left to come. */
  lemma NoneAfterReplace(s: State, id: Id)
    requires Exclusive(s) && Enabled(s, Replace(id))
    ensures forall o :: !Unfinished(Apply(s, Replace(id)), o)
  {
    assert Owns(s, id);
    forall o
      ensures !Unfinished(Apply(s, Replace(id)), o)
    {
      assert Owns(s, o) ==> o == id;
    }
  }

  /** What a writer has loaded it loads now, or had already. */
  lemma LoadedBefore(s: State, a: Action, id: Id)
    requires Enabled(s, a) && PhaseOf(Apply(s, a), id).Loaded?
    ensures if a == Load(id) then PhaseOf(Apply(s, a), id).base == EntriesOf(s.config) else PhaseOf(Apply(s, a), id) == PhaseOf(s, id)
    ensures !a.Replace? ==> Apply(s, a).config == s.config
  {
  }

  lemma BasesStayCurrent(s: State, a: Action)
    requires Inv(s) && Enabled(s, a)
    ensures BasesAreCurrent(Apply(s, a))
  {
    if a.Replace? {
      NoneAfterReplace(s, a.id);
      assert forall o :: PhaseOf(Apply(s, a), o).Loaded? ==> Unfinished(Apply(s, a), o);
    } else {
      forall id | PhaseOf(Apply(s, a), id).Loaded?
        ensures Apply(s, a).writers[id].phase.base == EntriesOf(Apply(s, a).config)
      {
        LoadedBefore(s, a, id);
      }
    }
  }

  lemma OnlyReplaceCommits(s: State, a: Action)
    requires Enabled(s, a)
    ensures !a.Replace? ==> Apply(s, a).commits == s.commits && s.nextInode <= Apply(s, a).nextInode
    ensures forall id :: Unfinished(Apply(s, a), id) ==>
      if Unfinished(s, id) then Apply(s, a).writers[id].phase.inode == s.writers[id].phase.inode
      else Apply(s, a).writers[id].phase.inode == s.nextInode
  {
  }

  lemma ReplaceComesLast(s: State, id: Id)
    requires Inv(s) && Enabled(s, Replace(id))
    ensures InLockOrder(Apply(s, Replace(id)))
  {
    var s' := Apply(s, Replace(id));
    assert Unfinished(s, id) && OwnerIsSafe(s, id);
    NoneAfterReplace(s, id);
  }

  lemma OrderStays(s: State, a: Action)
    requires Inv(s) && Enabled(s, a)
    ensures InLockOrder(Apply(s, a))
  {
    if a.Replace? {
      ReplaceComesLast(s, a.id);
    } else {
      OnlyReplaceCommits(s, a);
    }
  }

  /** Commits are only added to, and a writer says it saved only on replacing the config. */
  lemma SaidBefore(s: State, a: Action, id: Id)
    requires Enabled(s, a)
    ensures s.commits <= Apply(s, a).commits
    ensures id in s.writers ==> id in Apply(s, a).writers && Apply(s, a).writers[id].patch == s.writers[id].patch
    ensures var p, q := PhaseOf(s, id), PhaseOf(Apply(s, a), id);
            (q.Done? || q.Verified? || q.Finished?) && q.wrote ==>
              a == Replace(id) || ((p.Done? || p.Verified? || p.Finished?) && p.wrote)
  {
  }

  lemma SaidStays(s: State, a: Action)
    requires Inv(s) && Enabled(s, a)
    ensures AllSaidSo(Apply(s, a))
  {
    var s' := Apply(s, a);
    forall id | id in s'.writers
      ensures SaidSo(s', id)
    {
      SaidBefore(s, a, id);
      if a == Replace(id) {
        assert s'.commits[|s.commits|] == Commit(s.writers[id].phase.inode, id, s.writers[id].patch);
      } else if id in s.writers {
        assert SaidSo(s, id);
      }
    }
  }

  lemma OneMoreFolded(initial: Content, commits: seq<Commit>, c: Commit)
    ensures Folded(initial, commits + [c]) == Object(EntriesOf(Folded(initial, commits)) + c.patch)
  {
    assert (commits + [c])[..|commits|] == commits;
  }

  lemma ConfigStaysFolded(s: State, a: Action)
    requires Inv(s) && Enabled(s, a)
    ensures Apply(s, a).config == Folded(s.initial, Apply(s, a).commits)
  {
    if a.Replace? {
      var w := s.writers[a.id];
      assert w.phase.base == EntriesOf(s.config);
      OneMoreFolded(s.initial, s.commits, Commit(w.phase.inode, a.id, w.patch));
    }
  }

  /**
   * A step keeps the invariant exactly when it is not a takeover removing a living owner's lock.
   * A second read of the token just before the removal is not enough by itself: see LostUpdate.
   */
  lemma StepKeepsExactly(s: State, a: Action)
    requires Inv(s) && Enabled(s, a)
    ensures Inv(Apply(s, a)) <==> Harmless(s, a)
  {
    if Harmless(s, a) {
      OwnersStaySafe(s, a);
      OwnersStayApart(s, a);
      MeasuredStayAbandoned(s, a);
      BasesStayCurrent(s, a);
      OrderStays(s, a);
      SaidStays(s, a);
      ConfigStaysFolded(s, a);
    } else {
      var o :| Owns(s, o);
      assert Owns(Apply(s, a), o);
    }
  }

  // ---- Runs ---------------------------------------------------------------------------

  ghost function Step(s: State, a: Action): Option<State> {
    if Enabled(s, a) then Some(Apply(s, a)) else None
  }

  /** One owner now, and one still whichever writer tries next. */
  ghost predicate Apart(s: State) {
    Exclusive(s) && forall id :: Enabled(s, Create(id)) ==> Exclusive(Apply(s, Create(id)))
  }

  lemma InvariantKeepsApart(s: State)
    requires Inv(s)
    ensures Apart(s)
  {
    forall id | Enabled(s, Create(id))
      ensures Exclusive(Apply(s, Create(id)))
    {
      OwnersStayApart(s, Create(id));
    }
  }

  /** A takeover that removes a living owner's lock lets two own it at the next try: its own. */
  lemma HarmLetsTwoIn(s: State, a: Action)
    requires Inv(s) && Enabled(s, a) && !Harmless(s, a)
    ensures Enabled(Apply(s, a), Create(a.id)) && !Exclusive(Apply(Apply(s, a), Create(a.id)))
  {
    var o :| Owns(s, o);
    var two := Apply(Apply(s, a), Create(a.id));
    assert Owns(two, o) && Owns(two, a.id);
  }

  lemma HarmlessStepsKeep()
    ensures forall x, a :: Inv(x) && Harmless(x, a) && Step(x, a).Some? ==> Inv(Step(x, a).value)
  {
    forall x, a | Inv(x) && Harmless(x, a) && Step(x, a).Some?
      ensures Inv(Step(x, a).value)
    {
      StepKeepsExactly(x, a);
    }
  }

  /**
   * In every interleaving of any number of writers, some dying on the way: two never own the lock, nor
   * could at the next try, if and only if no takeover of the run removes a living owner's lock.
   */
  lemma ApartExactly(s: State, actions: seq<Action>, t: State)
    requires (Init(s) || Inv(s)) && Leads(Step, s, actions, t)
    ensures Throughout(Step, Apart, s, actions) <==> Always(Step, Harmless, s, actions)
  {
    assert Inv(s);
    HarmlessStepsKeep();
    forall x | Inv(x)
      ensures Apart(x)
    {
      InvariantKeepsApart(x);
    }
    forall x, a | Inv(x) && !Harmless(x, a) && Step(x, a).Some?
      ensures !Apart(Step(x, a).value)
    {
      HarmLetsTwoIn(x, a);
    }
    HoldsExactly(Step, Inv, Harmless, Apart, s, actions, t);
  }

  /** It is enough that each takeover removes the very file it measured. */
  lemma UndisturbedRunIsHarmless(s: State, actions: seq<Action>, t: State)
    requires (Init(s) || Inv(s)) && Leads(Step, s, actions, t) && Always(Step, Undisturbed, s, actions)
    ensures Always(Step, Harmless, s, actions)
  {
    assert Inv(s);
    HarmlessStepsKeep();
    forall x, a | Inv(x) && Undisturbed(x, a)
      ensures Harmless(x, a)
    {
      UndisturbedIsHarmless(x, a);
    }
    GoodToo(Step, Inv, Undisturbed, Harmless, s, actions);
  }

  /**
   * While no takeover removes a living owner's lock: at most one owner at a time, and the config is the
   * commits merged one after another in the order the locks were taken, with every update a writer
   * reported saved.
   */
  lemma NoUpdateIsLost(s: State, actions: seq<Action>, t: State)
    requires (Init(s) || Inv(s)) && Leads(Step, s, actions, t) && Always(Step, Harmless, s, actions)
    ensures Exclusive(t) && t.config == Folded(t.initial, t.commits) && InLockOrder(t) && AllSaidSo(t) && Inv(t)
  {
    assert Inv(s);
    HarmlessStepsKeep();
    KeptByGood(Step, Inv, Harmless, s, actions, t);
  }

  /**
   * A lock kept by a living owner is never older than the limit, so no contender measures it stale, and a
   * takeover of a file measured before never removes it. Where a refresher keeps it, its age is the wait,
   * what it took to begin it and what it is overdue.
   */
  lemma KeptLockIsNeverStale(s: State, actions: seq<Action>, t: State, owner: Id)
    requires Init(s) && Leads(Step, s, actions, t) && Always(Step, Harmless, s, actions) && Owns(t, owner)
    ensures t.lock.Some? && t.lock.value.inode == t.writers[owner].phase.inode
    ensures t.now - t.lock.value.mtime <= STALE
    ensures !t.writers[owner].refresher.Off? ==> t.now - t.lock.value.mtime < STALE
    ensures t.writers[owner].refresher.Resting? ==>
              var r := t.writers[owner].refresher; t.now - t.lock.value.mtime == REFRESH + r.spent + (t.now - r.due)
    ensures forall id :: Enabled(t, Stat(id)) ==> Apply(t, Stat(id)).writers[id].phase == Waiting
    ensures forall id :: Enabled(t, TakeOver(id)) && Undisturbed(t, TakeOver(id)) ==> Apply(t, TakeOver(id)).lock == t.lock
  {
    NoUpdateIsLost(s, actions, t);
    OwnersHaveTheLock(t);
    assert OwnerIsSafe(t, owner);
    forall id | Enabled(t, TakeOver(id)) && Undisturbed(t, TakeOver(id))
      ensures Apply(t, TakeOver(id)).lock == t.lock
    {
      UndisturbedIsHarmless(t, TakeOver(id));
    }
  }

  // ---- What the token read again protects ----------------------------------------------

  /** What a reader of a living owner's lock finds in it. */
  function TokenOf(s: State, o: Id): Option<Id> {
    if PhaseOf(s, o).Created? then None else Some(o)
  }

  /** A takeover harms a living owner exactly when the token it read is that owner's. */
  lemma HarmfulExactly(s: State, id: Id)
    requires Inv(s) && Enabled(s, TakeOver(id))
    ensures !Harmless(s, TakeOver(id)) <==> exists o :: Owns(s, o) && s.writers[id].phase.seen == TokenOf(s, o)
  {
    forall o | Owns(s, o)
      ensures s.lock.Some? && s.lock.value.body == TokenOf(s, o)
    {
      assert OwnerIsSafe(s, o);
    }
    if o :| Owns(s, o) {
      assert forall p :: Owns(s, p) ==> p == o;
    }
  }

  /** Its owner's lock, or once was: the token is written. */
  ghost predicate Wrote(s: State, x: Id) {
    x in s.writers && var p := s.writers[x].phase;
      p.Holding? || p.Loaded? || p.Done? || p.Verified? || p.Finished? || p.Dead?
  }

  /** A token found in the lock file, then or earlier, was written. */
  ghost predicate TokensAreWritten(s: State) {
    && (s.lock.Some? && s.lock.value.body.Some? ==> Wrote(s, s.lock.value.body.value))
    && (forall id :: PhaseOf(s, id).Doomed? && PhaseOf(s, id).seen.Some? ==> Wrote(s, PhaseOf(s, id).seen.value))
  }

  lemma WrittenStays(s: State, a: Action, x: Id)
    requires Enabled(s, a) && Wrote(s, x)
    ensures Wrote(Apply(s, a), x) && (!Owns(s, x) ==> !Owns(Apply(s, a), x))
  {
  }

  lemma LockBodyBefore(s: State, a: Action)
    requires Enabled(s, a)
    ensures var t := Apply(s, a); t.lock.Some? && t.lock.value.body.Some? ==>
              a == WriteToken(t.lock.value.body.value) || (s.lock.Some? && s.lock.value.body == t.lock.value.body)
  {
  }

  lemma SeenBefore(s: State, a: Action, id: Id)
    requires Enabled(s, a) && PhaseOf(Apply(s, a), id).Doomed?
    ensures PhaseOf(s, id) == PhaseOf(Apply(s, a), id)
         || (a == ReadStale(id) && s.lock.Some? && PhaseOf(Apply(s, a), id).seen == s.lock.value.body)
  {
  }

  lemma TokensStayWritten(s: State, a: Action)
    requires TokensAreWritten(s) && Enabled(s, a)
    ensures TokensAreWritten(Apply(s, a))
  {
    var t := Apply(s, a);
    LockBodyBefore(s, a);
    if t.lock.Some? && t.lock.value.body.Some? && a != WriteToken(t.lock.value.body.value) {
      WrittenStays(s, a, t.lock.value.body.value);
    }
    forall id | PhaseOf(t, id).Doomed? && PhaseOf(t, id).seen.Some?
      ensures Wrote(t, PhaseOf(t, id).seen.value)
    {
      SeenBefore(s, a, id);
      WrittenStays(s, a, PhaseOf(t, id).seen.value);
    }
  }

  lemma {:induction false} LeftStaysLeft(s: State, actions: seq<Action>, t: State, x: Id)
    requires Wrote(s, x) && !Owns(s, x) && Leads(Step, s, actions, t)
    ensures !Owns(t, x)
    decreases |actions|
  {
    if actions != [] {
      WrittenStays(s, actions[0], x);
      LeftStaysLeft(Apply(s, actions[0]), actions[1..], t, x);
    }
  }

  /**
   * A takeover that read a token whose writer owned no lock then takes no living owner's, whatever happened
   * to the file since: another took it over, or released it, or died with it.
   */
  lemma OldTokenHarmsNoOne(s0: State, before: seq<Action>, s: State, since: seq<Action>, t: State, id: Id)
    requires Init(s0) && Leads(Step, s0, before, s) && Leads(Step, s, since, t)
    requires Always(Step, Harmless, s0, before) && Always(Step, Harmless, s, since)
    requires PhaseOf(s, id).Doomed? && PhaseOf(t, id) == PhaseOf(s, id)
    requires PhaseOf(s, id).seen.Some? && !Owns(s, PhaseOf(s, id).seen.value)
    ensures Harmless(t, TakeOver(id)) && ((exists o :: Owns(t, o)) ==> Apply(t, TakeOver(id)).lock == t.lock)
  {
    NoUpdateIsLost(s0, before, s);
    NoUpdateIsLost(s, since, t);
    forall x, a | TokensAreWritten(x) && Step(x, a).Some?
      ensures TokensAreWritten(Step(x, a).value)
    {
      TokensStayWritten(x, a);
    }
    Kept(Step, TokensAreWritten, s0, before, s);
    LeftStaysLeft(s, since, t, PhaseOf(s, id).seen.value);
    HarmfulExactly(t, id);
  }

  /** Where the lock is still what was read, a takeover removes it. */
  lemma UnchangedIsTaken(s: State, id: Id)
    requires Enabled(s, TakeOver(id)) && s.lock.Some? && s.lock.value.body == s.writers[id].phase.seen
    ensures Apply(s, TakeOver(id)).lock.None? && PhaseOf(Apply(s, TakeOver(id)), id).Trying?
  {
  }

  /** It has the lock, and its refresher waits. */
  ghost predicate Keeps(s: State, owner: Id) {
    Inv(s) && PhaseOf(s, owner).Holding? && s.writers[owner].refresher.Resting?
  }

  /** The clock may run to the end of the wait. */
  lemma WaitsOut(s: State, owner: Id, to: int)
    requires Keeps(s, owner) && s.now <= to && (to <= s.writers[owner].refresher.due || to == s.now)
    ensures Step(s, Tick(to)) == Some(s.(now := to)) && Keeps(s.(now := to), owner)
  {
    assert Owns(s, owner) && OwnerIsSafe(s, owner);
    forall id | Owns(s, id)
      ensures OnTime(s.writers[id], to)
    {
      assert id == owner;
    }
    StepKeepsExactly(s, Tick(to));
  }

  /** A refresh, and the next wait. */
  lemma Refreshes(s: State, owner: Id) returns (t: State)
    requires Keeps(s, owner) && s.now >= s.writers[owner].refresher.due
    ensures Leads(Step, s, [ReadBack(owner), Touch(owner)] + [Rest(owner)], t) && Keeps(t, owner)
    ensures t.now == s.now && t.writers[owner].refresher.due == s.now + REFRESH
  {
    assert Owns(s, owner) && OwnerIsSafe(s, owner);
    var read := Apply(s, ReadBack(owner));
    StepKeepsExactly(s, ReadBack(owner));
    var touched := Apply(read, Touch(owner));
    StepKeepsExactly(read, Touch(owner));
    t := Apply(touched, Rest(owner));
    StepKeepsExactly(touched, Rest(owner));
    Two(Step, s, ReadBack(owner), read, Touch(owner), touched);
    One(Step, touched, Rest(owner), t);
    LeadsThrough(Step, s, [ReadBack(owner), Touch(owner)], touched, [Rest(owner)], t);
  }

  /** A lock can be kept for as long as its owner needs it, far past the limit: its refresher needs no help. */
  lemma {:induction false} KeptAsLongAsNeeded(s: State, owner: Id, until: int) returns (actions: seq<Action>, t: State)
    requires Keeps(s, owner)
    ensures Leads(Step, s, actions, t) && Keeps(t, owner) && t.now >= until
    decreases until - s.writers[owner].refresher.due
  {
    var due := s.writers[owner].refresher.due;
    var waited := s.(now := if due < s.now then s.now else due);
    WaitsOut(s, owner, waited.now);
    One(Step, s, Tick(waited.now), waited);
    if waited.now >= until {
      actions, t := [Tick(waited.now)], waited;
    } else {
      var kept := Refreshes(waited, owner);
      var more;
      more, t := KeptAsLongAsNeeded(kept, owner, until);
      var round := [ReadBack(owner), Touch(owner)] + [Rest(owner)];
      LeadsThrough(Step, s, [Tick(waited.now)], waited, round, kept);
      LeadsThrough(Step, s, [Tick(waited.now)] + round, kept, more, t);
      actions := [Tick(waited.now)] + round + more;
    }
  }

  lemma Then(s: State, a: Action, m: State, b: Action, t: State)
    requires Enabled(s, a) && Apply(s, a) == m && Enabled(m, b) && Apply(m, b) == t
    ensures Leads(Step, s, [a, b], t)
  {
    Two(Step, s, a, m, b, t);
  }

  // ---- What a writer alone does ---------------------------------------------------------

  /** With no lock in its way a writer takes it. */
  lemma GetsIn(s: State, id: Id) returns (actions: seq<Action>, t: State)
    requires Inv(s) && s.lock.None? && PhaseOf(s, id).Trying?
    ensures Leads(Step, s, actions, t) && Inv(t) && PhaseOf(t, id) == Holding(s.nextInode)
    ensures t.lock == Some(LockFile(s.nextInode, Some(id), s.now)) && t.config == s.config && t.commits == s.commits
    ensures t.writers.Keys == s.writers.Keys && t.now == s.now && t.initial == s.initial
    ensures t.writers[id].kind == s.writers[id].kind && t.writers[id].patch == s.writers[id].patch
    ensures t.writers[id].refresher == if s.writers[id].kind.Keeper? then Ready(s.now) else Off
    ensures forall o :: o in s.writers && o != id ==> t.writers[o] == s.writers[o]
  {
    var created := Apply(s, Create(id));
    StepKeepsExactly(s, Create(id));
    t := Apply(created, WriteToken(id));
    StepKeepsExactly(created, WriteToken(id));
    Two(Step, s, Create(id), created, WriteToken(id), t);
    actions := [Create(id), WriteToken(id)];
  }

  /** Having let go of the config, it removes its lock. */
  lemma LetsGo(s: State, id: Id) returns (actions: seq<Action>, t: State)
    requires Inv(s) && PhaseOf(s, id).Done?
    ensures Leads(Step, s, actions, t) && t.lock.None? && PhaseOf(t, id) == Finished(s.writers[id].phase.wrote)
    ensures t.config == s.config && t.commits == s.commits && t.writers.Keys == s.writers.Keys
    ensures forall o :: o in s.writers && o != id ==> t.writers[o] == s.writers[o]
  {
    assert Owns(s, id) && OwnerIsSafe(s, id);
    var verified := Apply(s, Check(id));
    t := Apply(verified, Remove(id));
    Two(Step, s, Check(id), verified, Remove(id), t);
    actions := [Check(id), Remove(id)];
  }

  /** Whether a writer leaves the config alone: Python does not write over one it cannot read. */
  predicate Refuses(kind: Kind, c: Content) { kind.Python? && c.Corrupt? }

  /** The writers but one are as they were. */
  ghost predicate OthersStay(s: State, t: State, id: Id) {
    t.writers.Keys == s.writers.Keys && forall o :: o in s.writers && o != id ==> t.writers[o] == s.writers[o]
  }

  lemma Loads(s: State, id: Id)
    requires Inv(s) && Enabled(s, Load(id))
    ensures var t := Apply(s, Load(id));
      && Inv(t) && OthersStay(s, t, id) && t.config == s.config && t.commits == s.commits
      && t.writers[id].patch == s.writers[id].patch
      && (if Refuses(s.writers[id].kind, s.config) then PhaseOf(t, id) == Done(s.writers[id].phase.inode, false)
          else PhaseOf(t, id) == Loaded(s.writers[id].phase.inode, EntriesOf(s.config)))
  {
    StepKeepsExactly(s, Load(id));
  }

  lemma Replaces(s: State, id: Id)
    requires Inv(s) && Enabled(s, Replace(id))
    ensures var t := Apply(s, Replace(id));
      && Inv(t) && OthersStay(s, t, id) && PhaseOf(t, id) == Done(s.writers[id].phase.inode, true)
      && t.config == Object(EntriesOf(s.config) + s.writers[id].patch)
      && t.commits == s.commits + [Commit(s.writers[id].phase.inode, id, s.writers[id].patch)]
  {
    StepKeepsExactly(s, Replace(id));
  }

  lemma Saves(s: State, id: Id) returns (actions: seq<Action>, t: State)
    requires Inv(s) && PhaseOf(s, id).Holding? && !s.writers[id].kind.Keeper?
    ensures Leads(Step, s, actions, t) && Inv(t) && OthersStay(s, t, id)
    ensures PhaseOf(t, id) == Done(s.writers[id].phase.inode, !Refuses(s.writers[id].kind, s.config))
    ensures Refuses(s.writers[id].kind, s.config) ==> t.config == s.config && t.commits == s.commits
    ensures !Refuses(s.writers[id].kind, s.config) ==>
              && t.config == Object(EntriesOf(s.config) + s.writers[id].patch)
              && t.commits == s.commits + [Commit(s.writers[id].phase.inode, id, s.writers[id].patch)]
  {
    var loaded := Apply(s, Load(id));
    Loads(s, id);
    if Refuses(s.writers[id].kind, s.config) {
      One(Step, s, Load(id), loaded);
      actions, t := [Load(id)], loaded;
    } else {
      t := Apply(loaded, Replace(id));
      Replaces(loaded, id);
      Two(Step, s, Load(id), loaded, Replace(id), t);
      actions := [Load(id), Replace(id)];
    }
  }

  /**
   * A writer that nothing interrupts, finding no lock, saves its update: every entry of its patch is in the
   * config, every other entry is as it was, and the lock is gone again. One that cannot read the config leaves
   * it as it is (Python) or starts it afresh (Node).
   */
  lemma UpdateIsSaved(s: State, id: Id) returns (actions: seq<Action>, t: State)
    requires Inv(s) && s.lock.None? && PhaseOf(s, id).Trying? && !s.writers[id].kind.Keeper?
    ensures Leads(Step, s, actions, t) && t.lock.None? && PhaseOf(t, id) == Finished(!Refuses(s.writers[id].kind, s.config))
    ensures Refuses(s.writers[id].kind, s.config) ==> t.config == s.config
    ensures !Refuses(s.writers[id].kind, s.config) ==>
              && t.config.Object?
              && (forall k :: k in s.writers[id].patch ==> k in t.config.entries && t.config.entries[k] == s.writers[id].patch[k])
              && (forall k :: k !in s.writers[id].patch ==>
                    (k in t.config.entries <==> k in EntriesOf(s.config))
                    && (k in t.config.entries ==> t.config.entries[k] == EntriesOf(s.config)[k]))
    ensures forall o :: o in s.writers && o != id ==> o in t.writers && t.writers[o] == s.writers[o]
  {
    var a, m := GetsIn(s, id);
    var b, n := Saves(m, id);
    var c;
    c, t := LetsGo(n, id);
    LeadsThrough(Step, s, a, m, b, n);
    LeadsThrough(Step, s, a + b, n, c, t);
    actions := a + b + c;
  }

  /** A lock asked for is kept from then on, by its refresher, for as long as its owner needs it. */
  lemma LockIsKept(s: State, id: Id, until: int) returns (actions: seq<Action>, t: State)
    requires Inv(s) && s.lock.None? && PhaseOf(s, id).Trying? && s.writers[id].kind.Keeper?
    ensures Leads(Step, s, actions, t) && Keeps(t, id) && t.now >= until
  {
    var a, m := GetsIn(s, id);
    var resting := Apply(m, Rest(id));
    StepKeepsExactly(m, Rest(id));
    Further(Step, s, a, m, Rest(id), resting);
    var b;
    b, t := KeptAsLongAsNeeded(resting, id, until);
    LeadsThrough(Step, s, a + [Rest(id)], resting, b, t);
    actions := a + [Rest(id)] + b;
  }

  /** And given back when it is released. */
  lemma KeptLockIsReleased(s: State, id: Id) returns (actions: seq<Action>, t: State)
    requires Keeps(s, id)
    ensures Leads(Step, s, actions, t) && t.lock.None? && PhaseOf(t, id) == Finished(false)
  {
    var done := Apply(s, Abandon(id));
    StepKeepsExactly(s, Abandon(id));
    One(Step, s, Abandon(id), done);
    var rest;
    rest, t := LetsGo(done, id);
    LeadsThrough(Step, s, [Abandon(id)], done, rest, t);
    actions := [Abandon(id)] + rest;
  }

  /** What is another's is left: by a release, by a refresher, by a token written late. */
  lemma AnothersLockIsLeft(s: State, id: Id)
    requires id in s.writers && s.lock.Some? && s.lock.value.body != Some(id)
    ensures Enabled(s, Check(id)) ==>
              Apply(s, Check(id)).lock == s.lock && PhaseOf(Apply(s, Check(id)), id) == Finished(s.writers[id].phase.wrote)
    ensures Enabled(s, ReadBack(id)) ==>
              Apply(s, ReadBack(id)).lock == s.lock && !Enabled(Apply(s, ReadBack(id)), Touch(id))
              && !Enabled(Apply(s, ReadBack(id)), Rest(id)) && !Enabled(Apply(s, ReadBack(id)), ReadBack(id))
    ensures Enabled(s, WriteToken(id)) && s.lock.value.inode != s.writers[id].phase.inode ==>
              Apply(s, WriteToken(id)).lock == s.lock
    ensures Enabled(s, TokenFails(id)) && s.lock.value.body.Some? ==> Apply(s, TokenFails(id)).lock == s.lock
  {
  }

  /** A token that cannot be written: Python gives its lock back, and Node leaves it without an owner. */
  lemma FailedTokenIsNoOnes(s: State, id: Id)
    requires Inv(s) && Enabled(s, TokenFails(id))
    ensures var t := Apply(s, TokenFails(id));
      && t.config == s.config && t.commits == s.commits && (forall o :: !Owns(t, o))
      && (if s.writers[id].kind.Node? then t.lock == s.lock else t.lock.None?)
  {
    assert Owns(s, id) && OwnerIsSafe(s, id);
    forall o
      ensures !Owns(Apply(s, TokenFails(id)), o)
    {
      assert Owns(s, o) ==> o == id;
    }
  }

  /** A Python writer looks at its deadline between any two tries but one after a takeover; a Node writer only when the lock is not stale. */
  lemma DeadlineIsAskedFor(s: State, a: Action, id: Id)
    requires Enabled(s, a) && (a == Stat(id) || a == ReadStale(id) || a == TakeOver(id))
    ensures var t := Apply(s, a);
      && (t.lock != s.lock ==> a == TakeOver(id) && t.lock.None? && PhaseOf(t, id).Trying?)
      && (t.lock == s.lock && PhaseOf(t, id).Trying? ==> s.writers[id].kind.Node? && !a.Stat?)
      && (PhaseOf(t, id).Waiting? ==> a.Stat? || !s.writers[id].kind.Node?)
      && (PhaseOf(t, id).Trying? || PhaseOf(t, id).Waiting? || PhaseOf(t, id).Aged? || PhaseOf(t, id).Doomed?)
  {
  }

  /** A waiting writer tries again until its budget is over, and then gives up, having changed nothing. */
  lemma WaitsItsBudget(s: State, id: Id)
    requires PhaseOf(s, id).Waiting?
    ensures Enabled(s, Retry(id)) <==> s.now < s.writers[id].deadline
    ensures Enabled(s, GiveUp(id)) <==> s.now >= s.writers[id].deadline
    ensures Enabled(s, Retry(id)) ==> Apply(s, Retry(id)).(writers := s.writers) == s && PhaseOf(Apply(s, Retry(id)), id).Trying?
    ensures Enabled(s, GiveUp(id)) ==>
              Apply(s, GiveUp(id)).(writers := s.writers) == s && PhaseOf(Apply(s, GiveUp(id)), id) == Finished(false)
  {
  }

  lemma DeadlineStays(s: State, a: Action, id: Id)
    requires Enabled(s, a) && id in s.writers
    ensures id in Apply(s, a).writers && Apply(s, a).writers[id].deadline == s.writers[id].deadline
    ensures Apply(s, a).writers[id].kind == s.writers[id].kind && Apply(s, a).writers[id].patch == s.writers[id].patch
  {
  }

  lemma {:induction false} DeadlineStaysOver(s: State, actions: seq<Action>, t: State, id: Id)
    requires id in s.writers && Leads(Step, s, actions, t)
    ensures id in t.writers && t.writers[id].deadline == s.writers[id].deadline
    decreases |actions|
  {
    if actions != [] {
      DeadlineStays(s, actions[0], id);
      DeadlineStaysOver(Apply(s, actions[0]), actions[1..], t, id);
    }
  }

  /** Five seconds from its start, whatever happens, a writer tries no more, and before then it does not give up. */
  lemma BudgetIsKept(s: State, id: Id, kind: Kind, patch: Entries, actions: seq<Action>, t: State)
    requires Enabled(s, Start(id, kind, patch)) && Leads(Step, Apply(s, Start(id, kind, patch)), actions, t)
    ensures Enabled(t, Retry(id)) ==> t.now < s.now + BUDGET
    ensures Enabled(t, GiveUp(id)) ==> t.now >= s.now + BUDGET
  {
    DeadlineStaysOver(Apply(s, Start(id, kind, patch)), actions, t, id);
  }

  /** One that asks for the lock to keep it reads no config, and its own updates are none of the commits. */
  ghost predicate KeepersSaveNothing(s: State) {
    && (forall id :: PhaseOf(s, id).Loaded? ==> !s.writers[id].kind.Keeper?)
    && (forall i :: 0 <= i < |s.commits| ==> s.commits[i].id in s.writers && !s.writers[s.commits[i].id].kind.Keeper?)
  }

  lemma KeepersStillSaveNothing(s: State, a: Action)
    requires KeepersSaveNothing(s) && Enabled(s, a)
    ensures KeepersSaveNothing(Apply(s, a))
  {
    var t := Apply(s, a);
    forall id | PhaseOf(t, id).Loaded?
      ensures !t.writers[id].kind.Keeper?
    {
      LoadedBefore(s, a, id);
      if id in s.writers {
        DeadlineStays(s, a, id);
      }
    }
    forall i | 0 <= i < |t.commits|
      ensures t.commits[i].id in t.writers && !t.writers[t.commits[i].id].kind.Keeper?
    {
      if i < |s.commits| {
        CommitsStay(s, a, i);
        DeadlineStays(s, a, s.commits[i].id);
      }
    }
  }

  lemma CommitsStay(s: State, a: Action, i: nat)
    requires Enabled(s, a) && i < |s.commits|
    ensures i < |Apply(s, a).commits| && Apply(s, a).commits[i] == s.commits[i]
  {
  }

  lemma OnlyUpdatesAreSaved(s: State, actions: seq<Action>, t: State)
    requires Init(s) && Leads(Step, s, actions, t)
    ensures KeepersSaveNothing(t)
  {
    forall x, a | KeepersSaveNothing(x) && Step(x, a).Some?
      ensures KeepersSaveNothing(Step(x, a).value)
    {
      KeepersStillSaveNothing(x, a);
    }
    Kept(Step, KeepersSaveNothing, s, actions, t);
  }

  /** A refresh is due a third of the limit after the last at the earliest. */
  ghost predicate NotBefore(s: State, id: Id, from: int) {
    id in s.writers ==>
      match s.writers[id].refresher
      case Ready(since) => since >= from
      case Resting(spent, due) => due >= from + REFRESH
      case Touching(spent, due) => s.now >= due >= from + REFRESH
      case _ => true
  }

  lemma {:induction false} StillNotBefore(s: State, actions: seq<Action>, t: State, id: Id, from: int)
    requires NotBefore(s, id, from) && s.now >= from && Leads(Step, s, actions, t)
    ensures NotBefore(t, id, from)
    decreases |actions|
  {
    if actions != [] {
      StillNotBefore(Apply(s, actions[0]), actions[1..], t, id, from);
    }
  }

  lemma RefreshesAreApart(s: State, id: Id, actions: seq<Action>, t: State)
    requires Enabled(s, Touch(id)) && Leads(Step, Apply(s, Touch(id)), actions, t) && Enabled(t, Touch(id))
    ensures t.now >= s.now + REFRESH
  {
    StillNotBefore(Apply(s, Touch(id)), actions, t, id, s.now);
  }

  /** A lock past the limit is found in the way and measured. */
  lemma FoundStale(s: State, id: Id, t: State)
    requires s.lock.Some? && PhaseOf(s, id).Trying? && s.now - s.lock.value.mtime > STALE
    requires t == To(s, id, Aged(s.lock.value.inode))
    ensures Leads(Step, s, [Create(id), Stat(id)], t)
  {
    Then(s, Create(id), To(s, id, Refused), Stat(id), t);
  }

  /** It is read, read again unchanged, and removed. */
  lemma TakenOver(s: State, id: Id, t: State)
    requires s.lock.Some? && PhaseOf(s, id) == Aged(s.lock.value.inode)
    requires t == To(s, id, Trying).(lock := None)
    ensures Leads(Step, s, [ReadStale(id), TakeOver(id)], t)
  {
    Then(s, ReadStale(id), To(s, id, Doomed(s.lock.value.inode, s.lock.value.body)), TakeOver(id), t);
  }

  /** A dead owner's lock can be taken once it is a moment past the limit: an uninterrupted writer then gets its own. */
  lemma DeadOwnerGivesWay(s: State, id: Id) returns (actions: seq<Action>, t: State)
    requires Inv(s) && s.lock.Some? && (forall o :: !Owns(s, o)) && PhaseOf(s, id).Trying?
    ensures Leads(Step, s, actions, t) && PhaseOf(t, id) == Created(s.nextInode)
    ensures t.now <= s.now + STALE + 1
  {
    var f := s.lock.value;
    var late := s.(now := if s.now > f.mtime + STALE then s.now else f.mtime + STALE + 1);
    var measured := To(late, id, Aged(f.inode));
    var free := To(measured, id, Trying).(lock := None);
    t := Apply(free, Create(id));
    One(Step, s, Tick(late.now), late);
    FoundStale(late, id, measured);
    TakenOver(measured, id, free);
    One(Step, free, Create(id), t);
    actions := [Tick(late.now)];
    LeadsThrough(Step, s, actions, late, [Create(id), Stat(id)], measured);
    actions := actions + [Create(id), Stat(id)];
    LeadsThrough(Step, s, actions, measured, [ReadStale(id), TakeOver(id)], free);
    actions := actions + [ReadStale(id), TakeOver(id)];
    LeadsThrough(Step, s, actions, free, [Create(id)], t);
    actions := actions + [Create(id)];
  }

  // ---- Without the condition ----------------------------------------------------------

  function PatchA(): Entries { map["a" := "1"] }

  function PatchB(): Entries { map["b" := "2"] }

  function Alone(p: Phase): map<Id, Writer> { map[0 := Writer(Python, map[], 15_000, p, 0, Off)] }

  function WriterA(p: Phase): Writer { Writer(Python, PatchA(), 45_001, p, 30_001, Off) }

  function All(p: Phase, q: Phase): map<Id, Writer> {
    Alone(Dead)[1 := WriterA(p)][2 := Writer(Python, PatchB(), 45_001, q, 30_001, Off)]
  }

  function Empty(): State { At(None, 0, 0, map[]) }

  function At(lock: Option<LockFile>, now: int, next: nat, writers: map<Id, Writer>): State {
    State(lock, Missing, now, next, writers, Missing, [])
  }

  function StaleLock(): Option<LockFile> { Some(LockFile(0, None, 0)) }

  /** A writer dies holding its lock; past the limit another starts. */
  function ADeadWriter(): State { At(StaleLock(), 30_001, 1, Alone(Dead)[1 := WriterA(Trying)]) }

  /** Writers 1 and 2 both find the dead writer's lock in their way. */
  function BothRefused(): State { At(StaleLock(), 30_001, 1, All(Refused, Refused)) }

  /** Both measure it. */
  function BothMeasured(): State { At(StaleLock(), 30_001, 1, All(Aged(0), Aged(0))) }

  /** Writer 2 takes the lock over. */
  function OneTookOver(): State { At(None, 30_001, 1, All(Aged(0), Trying)) }

  function OneHolds(): State { At(Some(LockFile(1, Some(2), 30_001)), 30_001, 2, All(Aged(0), Holding(1))) }

  /** And loads the config. */
  function OneLoaded(): State { At(Some(LockFile(1, Some(2), 30_001)), 30_001, 2, All(Aged(0), Loaded(1, map[]))) }

  /** Only now does writer 1 read the token, find it unchanged on the second read, and remove writer 2's lock. */
  function WrongOneRemoved(): State { At(None, 30_001, 2, All(Trying, Loaded(1, map[]))) }

  function BothHold(): State { At(Some(LockFile(2, Some(1), 30_001)), 30_001, 3, All(Holding(2), Loaded(1, map[]))) }

  /** Two owners, each with its own read of the config. */
  function BothLoaded(): State { At(Some(LockFile(2, Some(1), 30_001)), 30_001, 3, All(Loaded(2, map[]), Loaded(1, map[]))) }

  lemma ToADeadOwner()
    ensures Leads(Step, Empty(), [Start(0, Python, map[]), Create(0)], At(StaleLock(), 0, 1, Alone(Created(0))))
  {
    Then(Empty(), Start(0, Python, map[]), At(None, 0, 0, Alone(Trying)), Create(0), At(StaleLock(), 0, 1, Alone(Created(0))));
  }

  lemma ToAStaleLock()
    ensures Leads(Step, At(StaleLock(), 0, 1, Alone(Created(0))), [Die(0), Tick(30_001)], At(StaleLock(), 30_001, 1, Alone(Dead)))
  {
    Then(At(StaleLock(), 0, 1, Alone(Created(0))), Die(0), At(StaleLock(), 0, 1, Alone(Dead)), Tick(30_001),
        At(StaleLock(), 30_001, 1, Alone(Dead)));
  }

  lemma ToBothTrying()
    ensures Leads(Step, At(StaleLock(), 30_001, 1, Alone(Dead)), [Start(1, Python, PatchA()), Start(2, Python, PatchB())],
                  At(StaleLock(), 30_001, 1, All(Trying, Trying)))
  {
    Then(At(StaleLock(), 30_001, 1, Alone(Dead)), Start(1, Python, PatchA()), ADeadWriter(), Start(2, Python, PatchB()),
        At(StaleLock(), 30_001, 1, All(Trying, Trying)));
  }

  lemma ToBothRefused()
    ensures Leads(Step, At(StaleLock(), 30_001, 1, All(Trying, Trying)), [Create(1), Create(2)], BothRefused())
  {
    Then(At(StaleLock(), 30_001, 1, All(Trying, Trying)), Create(1), At(StaleLock(), 30_001, 1, All(Refused, Trying)),
        Create(2), BothRefused());
  }

  lemma ToBothMeasured()
    ensures Leads(Step, BothRefused(), [Stat(1), Stat(2)], BothMeasured())
  {
    Then(BothRefused(), Stat(1), At(StaleLock(), 30_001, 1, All(Aged(0), Refused)), Stat(2), BothMeasured());
  }

  lemma ToOneTookOver()
    ensures Leads(Step, BothMeasured(), [ReadStale(2), TakeOver(2)], OneTookOver())
  {
    Then(BothMeasured(), ReadStale(2), At(StaleLock(), 30_001, 1, All(Aged(0), Doomed(0, None))),
        TakeOver(2), OneTookOver());
  }

  lemma ToOneHolds()
    ensures Leads(Step, OneTookOver(), [Create(2), WriteToken(2)], OneHolds())
  {
    Then(OneTookOver(), Create(2), At(Some(LockFile(1, None, 30_001)), 30_001, 2, All(Aged(0), Created(1))),
        WriteToken(2), OneHolds());
  }

  lemma ToWrongOneRead()
    ensures Leads(Step, OneHolds(), [Load(2), ReadStale(1)],
                  At(Some(LockFile(1, Some(2), 30_001)), 30_001, 2, All(Doomed(0, Some(2)), Loaded(1, map[]))))
  {
    Then(OneHolds(), Load(2), OneLoaded(), ReadStale(1),
        At(Some(LockFile(1, Some(2), 30_001)), 30_001, 2, All(Doomed(0, Some(2)), Loaded(1, map[]))));
  }

  lemma ToWrongOneRemoved()
    ensures Leads(Step, At(Some(LockFile(1, Some(2), 30_001)), 30_001, 2, All(Doomed(0, Some(2)), Loaded(1, map[]))),
                  [TakeOver(1), Create(1)], At(Some(LockFile(2, None, 30_001)), 30_001, 3, All(Created(2), Loaded(1, map[]))))
  {
    Then(At(Some(LockFile(1, Some(2), 30_001)), 30_001, 2, All(Doomed(0, Some(2)), Loaded(1, map[]))), TakeOver(1),
        WrongOneRemoved(), Create(1), At(Some(LockFile(2, None, 30_001)), 30_001, 3, All(Created(2), Loaded(1, map[]))));
  }

  lemma ToBothLoaded()
    ensures Leads(Step, At(Some(LockFile(2, None, 30_001)), 30_001, 3, All(Created(2), Loaded(1, map[]))),
                  [WriteToken(1), Load(1)], BothLoaded())
  {
    Then(At(Some(LockFile(2, None, 30_001)), 30_001, 3, All(Created(2), Loaded(1, map[]))), WriteToken(1),
        BothHold(), Load(1), BothLoaded());
  }

  /** The dead writer's lock is measured by both. */
  lemma FirstHalf() returns (actions: seq<Action>)
    ensures Leads(Step, Empty(), actions, BothMeasured())
  {
    ToADeadOwner();
    ToAStaleLock();
    ToBothTrying();
    ToBothRefused();
    ToBothMeasured();
    var held, dead := At(StaleLock(), 0, 1, Alone(Created(0))), At(StaleLock(), 30_001, 1, Alone(Dead));
    var both := At(StaleLock(), 30_001, 1, All(Trying, Trying));
    actions := [Start(0, Python, map[]), Create(0)];
    LeadsThrough(Step, Empty(), actions, held, [Die(0), Tick(30_001)], dead);
    actions := actions + [Die(0), Tick(30_001)];
    LeadsThrough(Step, Empty(), actions, dead, [Start(1, Python, PatchA()), Start(2, Python, PatchB())], both);
    actions := actions + [Start(1, Python, PatchA()), Start(2, Python, PatchB())];
    LeadsThrough(Step, Empty(), actions, both, [Create(1), Create(2)], BothRefused());
    actions := actions + [Create(1), Create(2)];
    LeadsThrough(Step, Empty(), actions, BothRefused(), [Stat(1), Stat(2)], BothMeasured());
    actions := actions + [Stat(1), Stat(2)];
  }

  /** One takes it over, and the other takes the new owner's for it. */
  lemma SecondHalf() returns (actions: seq<Action>)
    ensures Leads(Step, BothMeasured(), actions, BothLoaded())
  {
    ToOneTookOver();
    ToOneHolds();
    ToWrongOneRead();
    ToWrongOneRemoved();
    ToBothLoaded();
    var doomed := At(Some(LockFile(1, Some(2), 30_001)), 30_001, 2, All(Doomed(0, Some(2)), Loaded(1, map[])));
    var created := At(Some(LockFile(2, None, 30_001)), 30_001, 3, All(Created(2), Loaded(1, map[])));
    actions := [ReadStale(2), TakeOver(2)];
    LeadsThrough(Step, BothMeasured(), actions, OneTookOver(), [Create(2), WriteToken(2)], OneHolds());
    actions := actions + [Create(2), WriteToken(2)];
    LeadsThrough(Step, BothMeasured(), actions, OneHolds(), [Load(2), ReadStale(1)], doomed);
    actions := actions + [Load(2), ReadStale(1)];
    LeadsThrough(Step, BothMeasured(), actions, doomed, [TakeOver(1), Create(1)], created);
    actions := actions + [TakeOver(1), Create(1)];
    LeadsThrough(Step, BothMeasured(), actions, created, [WriteToken(1), Load(1)], BothLoaded());
    actions := actions + [WriteToken(1), Load(1)];
  }

  /**
   * A run in which the second read and the removal are one operation, every owner is in
   * time, and still two writers hold the lock at once and an update reported saved is lost.
   */
  lemma LostUpdate() returns (before: seq<Action>, after: seq<Action>, end: State)
    ensures Init(Empty()) && Leads(Step, Empty(), before, BothLoaded()) && !Exclusive(BothLoaded())
    ensures Leads(Step, BothLoaded(), after, end)
    ensures |end.commits| == 2 && end.config == Object(PatchB()) != Folded(end.initial, end.commits)
  {
    var first := FirstHalf();
    var second := SecondHalf();
    LeadsThrough(Step, Empty(), first, BothMeasured(), second, BothLoaded());
    before := first + second;
    assert Owns(BothLoaded(), 1) && Owns(BothLoaded(), 2);
    after, end := ToLost();
  }

  lemma ToLost() returns (actions: seq<Action>, end: State)
    ensures Leads(Step, BothLoaded(), actions, end)
    ensures |end.commits| == 2 && end.config == Object(PatchB()) != Folded(end.initial, end.commits)
  {
    var mid := Apply(BothLoaded(), Replace(1));
    end := Apply(mid, Replace(2));
    actions := [Replace(1), Replace(2)];
    Then(BothLoaded(), Replace(1), mid, Replace(2), end);
    assert end.commits == [Commit(2, 1, PatchA()), Commit(1, 2, PatchB())];
    assert end.config == Object(PatchB()) by { assert map[] + PatchB() == PatchB(); }
    assert "a" in EntriesOf(Folded(end.initial, end.commits)) by {
      assert end.commits[..1] == [Commit(2, 1, PatchA())];
    }
    assert "a" !in PatchB();
  }
}
