/**
 * The first database setup on Windows, which may be cut off between any two changes to the
 * disk (electron/windows-initdb.js).
 */
module ClusterSetup {
  import opened Wrappers

  const LOCK_STALE_MS := 600_000
  const HELD_WAIT_MS := 60_000
  const RETRY_MS := 500

  /** A folder: its identity, what is in it, whether this code made it, whether initdb finished in it. */
  datatype Folder = Folder(id: nat, entries: set<string>, ours: bool, finished: bool) {
    predicate Cluster() { "PG_VERSION" in entries }
  }

  /** The owner file's body; a write cut short records no folder. */
  datatype Owner = NoOwner | Torn | Records(id: nat)

  /** The lock file's process ID, or none while half written. */
  datatype Lock = Free | Taken(pid: Option<nat>, mtime: int)

  datatype Outcome = AlreadyThere | Created | Busy | NotOurs | Failed | CutOff

  /**
   * What a start meets outside the disk: its process, the processes running, what initdb writes, how it
   * ends and how long it takes, how long the folder is held from the first try to move it, how late each
   * sleep between tries ends, and what in a setup folder cannot be removed.
   */
  datatype World = World(pid: nat, running: set<nat>, initdbWrites: seq<string>, initdbSucceeds: bool, initdbMs: nat,
                         heldMs: nat, late: nat -> nat, stuck: set<string>)

  /** Whether the move is made, `waited` into it and `k` sleeps on: tried again until it is past the wait. */
  predicate Moves(w: World, waited: nat, k: nat)
    decreases HELD_WAIT_MS - waited
  {
    w.heldMs <= waited || (waited < HELD_WAIT_MS && Moves(w, waited + RETRY_MS + w.late(k), k + 1))
  }

  /** A folder let go of within the wait is moved, and one that is moved was let go of within the wait and one sleep. */
  lemma {:induction false} MovesWithinTheWait(w: World, waited: nat, k: nat)
    ensures w.heldMs <= HELD_WAIT_MS ==> Moves(w, waited, k)
    ensures Moves(w, waited, k) ==>
              w.heldMs <= waited || exists i :: k <= i && w.heldMs < HELD_WAIT_MS + RETRY_MS + w.late(i)
    decreases HELD_WAIT_MS - waited
  {
    if waited < HELD_WAIT_MS && w.heldMs > waited {
      MovesWithinTheWait(w, waited + RETRY_MS + w.late(k), k + 1);
      if Moves(w, waited, k) && w.heldMs <= waited + RETRY_MS + w.late(k) {
        assert w.heldMs < HELD_WAIT_MS + RETRY_MS + w.late(k);
      }
    }
  }

  /** What is left of a setup folder of its own that could not be removed. */
  predicate HeldBack(f: Option<Folder>, w: World) {
    f.Some? && f.value.ours && f.value.entries * w.stuck != {}
  }

  /** Nothing in the folder keeps it from being removed. */
  predicate Removable(f: Option<Folder>, w: World) {
    f.Some? ==> f.value.entries * w.stuck == {}
  }

  /** What initdb writes. */
  function Written(w: World): set<string> { set i | 0 <= i < |w.initdbWrites| :: w.initdbWrites[i] }

  /** The folder holds all that initdb writes. */
  predicate Whole(f: Option<Folder>, w: World) {
    f.Some? && f.value.entries == Written(w) + {"PG_VERSION"}
  }

  predicate Foreign(f: Option<Folder>) {
    f.Some? && !f.value.ours && f.value.entries != {}
  }

  function Entries(f: Option<Folder>): nat { if f.Some? then |f.value.entries| else 0 }

  predicate HasCluster(f: Option<Folder>) {
    f.Some? && f.value.Cluster()
  }

  predicate LockHeld(lock: Lock, w: World, now: int) {
    lock.Taken? && now - lock.mtime < LOCK_STALE_MS
    && (lock.pid.None? || (lock.pid.value != w.pid && lock.pid.value in w.running))
  }

  /** How an uninterrupted start ends, read off the disk it finds. */
  function Ending(data: Option<Folder>, staging: Option<Folder>, lock: Lock, now: int, w: World): Outcome {
    if HasCluster(data) then AlreadyThere
    else if LockHeld(lock, w, now) then Busy
    else if data.Some? && data.value.entries != {} then NotOurs
    else if Foreign(staging) then NotOurs
    else if !Removable(staging, w) || !w.initdbSucceeds || !Moves(w, 0, 0) then Failed
    else Created
  }

  /** More changes to the disk than a start can need. */
  function Needed(staging: Option<Folder>, w: World): nat {
    (if staging.Some? then |staging.value.entries| else 0) + 2 * |w.initdbWrites| + 20
  }

  /** All that a start finds and leaves on the disk, and the time. */
  datatype Snapshot = Snapshot(data: Option<Folder>, staging: Option<Folder>, owner: Owner, lock: Lock, now: int,
                               made: set<nat>, nextId: nat)

  /** A setup folder of its own that holds anything always matches the owner file. */
  ghost predicate Sound(s: Snapshot) {
    && (s.staging.Some? && s.staging.value.ours && s.staging.value.entries != {} ==> s.owner == Records(s.staging.value.id))
    && (s.owner.Records? ==> s.owner.id in s.made)
    && Known(s, s.data) && Known(s, s.staging)
    && (forall id :: id in s.made ==> id < s.nextId)
    && (s.data.Some? && s.data.value.ours ==> s.data.value.finished && s.data.value.Cluster())
  }

  function Untouched(): Snapshot { Snapshot(None, None, NoOwner, Free, 0, {}, 0) }

  ghost predicate Known(s: Snapshot, f: Option<Folder>) {
    f.Some? ==> f.value.id < s.nextId && (f.value.ours <==> f.value.id in s.made)
  }

  class Disk {
    var data: Option<Folder>
    var staging: Option<Folder>
    var owner: Owner
    var lock: Lock
    var now: int
    var made: set<nat>     // the identities of the folders this code has made
    var nextId: nat        // identities are never used twice
    var power: nat         // how many more changes the disk takes before the start is cut off

    ghost predicate Valid()
      reads this
    {
      Sound(Contents())
    }

    function Contents(): Snapshot
      reads this
    {
      Snapshot(data, staging, owner, lock, now, made, nextId)
    }

    constructor ()
      ensures Valid() && Contents() == Untouched()
    {
      data, staging, owner, lock := None, None, NoOwner, Free;
      now, made, nextId, power := 0, {}, 0, 0;
    }

    /** Whether the next change to the disk is made; once it is not, the start is over. */
    method Spend() returns (on: bool)
      modifies this`power
      ensures on <==> old(power) > 0
      ensures power == if on then old(power) - 1 else 0
    {
      on := power > 0;
      if on { power := power - 1; }
    }

    /** `takeLock`: None once taken. */
    method TakeLock(w: World) returns (r: Option<Outcome>)
      modifies this`lock, this`power
      ensures r.None? ==> lock == Taken(Some(w.pid), now)
      ensures r.Some? ==> r.value == Busy || r.value == CutOff
      ensures r == Some(Busy) <==> LockHeld(old(lock), w, now)
      ensures r == Some(Busy) ==> lock == old(lock)
      ensures lock == old(lock) || lock.Free? || lock.mtime == now
      ensures power <= old(power) <= power + 3 && (r == Some(CutOff) ==> power == 0 && old(power) < 3)
      ensures r.None? ==> old(power) == power + (if old(lock).Taken? then 3 else 2)
      ensures r == Some(CutOff) ==>
                var left := old(power) - (if old(lock).Taken? then 1 else 0);
                lock == if left < 0 then old(lock) else if left == 0 then Free else Taken(None, now)
    {
      var attempt := 0;
      while attempt < 2
        invariant 0 <= attempt <= 2 && power <= old(power) == power + attempt
        invariant attempt == 0 ==> lock == old(lock)
        invariant attempt > 0 ==> lock.Free? && old(lock).Taken? && !LockHeld(old(lock), w, now) && attempt < 2
      {
        if lock.Free? {
          var on := Spend();
          if !on { return Some(CutOff); }
          lock := Taken(None, now);
          on := Spend();
          if !on { return Some(CutOff); }
          lock := Taken(Some(w.pid), now);
          return None;
        }
        if LockHeld(lock, w, now) { return Some(Busy); }
        var on := Spend();
        if !on { return Some(CutOff); }
        lock := Free;
        attempt := attempt + 1;
      }
      return Some(Busy);
    }

    /** `rmSync(staging, { recursive: true })`: the entries go one by one, in any order, until one is stuck; then the folder. */
    method RemoveStaging(stuck: set<string>) returns (on: bool, removed: bool)
      requires Valid() && (staging.Some? ==> staging.value.ours)
      modifies this`staging, this`power
      ensures Valid() && (staging.Some? ==> staging.value.ours)
      ensures removed ==> on && staging.None?
      ensures on ==> (removed <==> old(staging).None? || old(staging).value.entries * stuck == {})
      ensures on && !removed ==> staging.Some? && staging.value.entries * stuck != {}
      ensures power <= old(power)
      ensures on ==> old(power) <= power + Entries(old(staging)) + 1
      ensures removed && old(staging).Some? ==> old(power) == power + Entries(old(staging)) + 1
      ensures !on ==> power == 0 && old(power) <= Entries(old(staging))
      ensures !on ==> old(staging).Some? && staging.Some? && staging.value.id == old(staging).value.id
                      && Entries(staging) == Entries(old(staging)) - old(power)
    {
      on, removed := true, true;
      if staging.None? { return; }
      while staging.value.entries != {}
        invariant staging.Some? && staging.value == old(staging).value.(entries := staging.value.entries)
        invariant staging.value.entries <= old(staging).value.entries
        invariant staging.value.entries * stuck == old(staging).value.entries * stuck
        invariant Valid() && power <= old(power)
        invariant old(power) - power == Entries(old(staging)) - Entries(staging)
        decreases staging.value.entries
      {
        var x :| x in staging.value.entries;
        if x in stuck {
          assert x in staging.value.entries * stuck;
          return true, false;
        }
        on := Spend();
        if !on { return false, false; }
        staging := Some(staging.value.(entries := staging.value.entries - {x}));
      }
      on := Spend();
      removed := on;
      if on { staging := None; }
    }

    /** `clearOwnStaging`: only a folder matching the owner file, or an empty one, is removed. */
    method ClearOwnStaging(w: World) returns (r: Option<Outcome>)
      requires Valid()
      modifies this`staging, this`power
      ensures Valid()
      ensures r.None? ==> staging.None?
      ensures r.Some? ==> r.value == NotOurs || r.value == CutOff || r.value == Failed
      ensures r == Some(NotOurs) <==> Foreign(old(staging))
      ensures r != Some(CutOff) && !Foreign(old(staging)) ==> (r == Some(Failed) <==> !Removable(old(staging), w))
      ensures r == Some(Failed) ==> staging.Some? && staging.value.ours && staging.value.entries * w.stuck != {}
      ensures Foreign(old(staging)) ==> staging == old(staging)
      ensures staging == old(staging) || staging.None? || staging.value.ours
      ensures power <= old(power) <= power + Entries(old(staging)) + 1
      ensures r == Some(CutOff) ==> power == 0 && old(power) <= Entries(old(staging))
    {
      if staging.None? { return None; }
      if owner == Records(staging.value.id) {
        var on, removed := RemoveStaging(w.stuck);
        return if !on then Some(CutOff) else if removed then None else Some(Failed);
      }
      if staging.value.entries == {} {
        var on := Spend();
        if !on { return Some(CutOff); }
        staging := None;
        return None;
      }
      return Some(NotOurs);
    }

    /** `runInitdb(staging)`: it fills the folder bit by bit, and may be cut off or fail half way. */
    method RunInitdb(w: World) returns (on: bool)
      requires Valid() && staging.Some? && staging.value.ours && staging.value.entries == {}
      requires owner == Records(staging.value.id)
      modifies this`staging, this`power
      ensures Valid() && staging.Some? && staging.value.ours && staging.value.id == old(staging).value.id
      ensures on && w.initdbSucceeds ==> staging.value.finished && Whole(staging, w)
      ensures on && !w.initdbSucceeds ==> !staging.value.finished ==> staging.value.entries == Written(w)
      ensures on ==> old(power) == power + |w.initdbWrites| + (if w.initdbSucceeds then 1 else 0)
      ensures !on ==> staging.value.entries == set i | 0 <= i < old(power) && i < |w.initdbWrites| :: w.initdbWrites[i]
      ensures Entries(staging) <= |w.initdbWrites| + 1
      ensures power <= old(power) <= power + |w.initdbWrites| + 1
      ensures !on ==> power == 0 && old(power) <= |w.initdbWrites|
    {
      for i := 0 to |w.initdbWrites|
        invariant Valid() && staging.Some? && staging.value.ours && staging.value.id == old(staging).value.id
        invariant Entries(staging) <= i && power + i == old(power)
        invariant staging.value.entries == set k | 0 <= k < i :: w.initdbWrites[k]
      {
        on := Spend();
        if !on { return; }
        staging := Some(staging.value.(entries := staging.value.entries + {w.initdbWrites[i]}));
      }
      on := true;
      if w.initdbSucceeds {
        on := Spend();
        if on {
          staging := Some(staging.value.(entries := staging.value.entries + {"PG_VERSION"}, finished := true));
        }
      }
    }

    /** `renameWhenReleased`: tried again while the folder is held, up to HELD_WAIT_MS. */
    method MoveIntoPlace(w: World) returns (on: bool, moved: bool)
      requires Valid() && data.None? && staging.Some? && staging.value.ours && staging.value.finished && staging.value.Cluster()
      modifies this`data, this`staging, this`now, this`power
      ensures Valid()
      ensures old(now) <= now
      ensures moved ==> on && data == old(staging) && staging.None?
      ensures !moved ==> data.None? && staging == old(staging)
      ensures on ==> (moved <==> Moves(w, 0, 0))
      ensures power <= old(power) <= power + 1 && (!on ==> power == 0 == old(power)) && (moved ==> old(power) == power + 1)
    {
      var began, k := now, 0;
      while now < began + w.heldMs
        invariant began == old(now) <= now
        invariant Moves(w, now - began, k) == Moves(w, 0, 0)
        invariant data == old(data) && staging == old(staging) && power == old(power) && Valid()
        decreases began + w.heldMs - now
      {
        if now >= began + HELD_WAIT_MS { return true, false; }
        now := now + RETRY_MS + w.late(k);
        k := k + 1;
      }
      on := Spend();
      moved := on;
      if on { data, staging := staging, None; }
    }

    /** The folder is made, and its identity recorded, before anything is written into it. */
    method MakeStaging() returns (on: bool)
      requires Valid() && staging.None?
      modifies this`staging, this`made, this`nextId, this`owner, this`power
      ensures Valid() && old(made) <= made <= old(made) + {old(nextId)} && nextId >= old(nextId)
      ensures staging.Some? ==> staging.value.ours
      ensures on ==> staging == Some(Folder(old(nextId), {}, true, false)) && owner == Records(old(nextId))
      ensures power <= old(power) <= power + 3 && (!on ==> power == 0 && old(power) < 3)
      ensures on ==> old(power) == power + 3
      ensures !on ==> staging == (if old(power) == 0 then None else Some(Folder(old(nextId), {}, true, false)))
                      && owner == (if old(power) == 2 then Torn else old(owner))
    {
      on := Spend();
      if !on { return; }
      staging := Some(Folder(nextId, {}, true, false));
      made, nextId := made + {nextId}, nextId + 1;
      on := Spend();
      if !on { return; }
      owner := Torn;
      on := Spend();
      if !on { return; }
      owner := Records(staging.value.id);
    }

    /** initdb in the setup folder, and its move: the `try` of the setup, once the folder's identity is recorded. */
    method FillAndMove(w: World) returns (on: bool, created: bool)
      requires Valid() && staging.Some? && staging.value.ours && staging.value.entries == {}
      requires owner == Records(staging.value.id) && !HasCluster(data) && Entries(data) == 0
      modifies this`data, this`staging, this`now, this`power
      ensures Valid() && old(now) <= now && (staging.Some? ==> staging.value.ours)
      ensures Entries(staging) <= |w.initdbWrites| + 1
      ensures created ==> on && HasCluster(data) && data.value.ours && data.value.finished && data.value.id == old(staging).value.id
      ensures created ==> staging.None? && Whole(data, w)
      ensures on ==> old(now) + w.initdbMs <= now
      ensures created ==> old(power) == power + |w.initdbWrites| + 2 + (if old(data).Some? then 1 else 0)
      ensures !created ==> data == old(data) || data.None?
      ensures on ==> (created <==> w.initdbSucceeds && Moves(w, 0, 0))
      ensures power <= old(power) <= power + |w.initdbWrites| + 3
      ensures !on ==> power == 0 && old(power) < |w.initdbWrites| + 3
    {
      created := false;
      on := RunInitdb(w);
      if !on { return; }
      now := now + w.initdbMs;
      if !w.initdbSucceeds { return; }
      if data.Some? {
        on := Spend();
        if !on { return; }
        data := None;
      }
      on, created := MoveIntoPlace(w);
    }

    /** From making the setup folder to removing the owner file, with its `finally`. */
    method SetUp(w: World) returns (r: Outcome)
      requires Valid() && staging.None? && !HasCluster(data) && Entries(data) == 0
      modifies this
      ensures Valid() && lock == old(lock)
      ensures (staging.Some? ==> staging.value.ours) && old(now) <= now && old(made) <= made
      ensures r == Created || r == Failed || r == CutOff
      ensures r == Created || (r == Failed && !HeldBack(staging, w)) ==> staging.None? && owner.NoOwner?
      ensures r != CutOff ==> (r == Created <==> w.initdbSucceeds && Moves(w, 0, 0))
      ensures r == Failed ==> !HasCluster(data)
      ensures r == Created ==> HasCluster(data) && Whole(data, w)
      ensures r == Created ==> old(power) == power + |w.initdbWrites| + 6 + (if old(data).Some? then 1 else 0)
      ensures data == old(data) || data.None? || (data.value.ours && data.value.finished && data.value.id !in old(made))
      ensures power <= old(power) && (r == CutOff ==> power == 0 && old(power) < 2 * |w.initdbWrites| + 12)
      ensures old(power) <= power + 2 * |w.initdbWrites| + 12
    {
      var on := MakeStaging();
      if !on { return CutOff; }
      var created;
      on, created := FillAndMove(w);
      if !on { return CutOff; }
      if !created {
        var removed;
        on, removed := RemoveStaging(w.stuck);
        if !on { return CutOff; }
        if !removed { return Failed; }
      }
      on := Spend();
      if !on { return CutOff; }
      owner := NoOwner;
      return if created then Created else Failed;
    }

    /**
     * `initialiseClusterOnce`. Cut off or not, it keeps every folder with anything in it that
     * this code did not make, and a cluster appears only as a folder made here in which initdb
     * finished. Not cut off, it ends as `Ending` says and leaves nothing behind.
     */
    method InitialiseClusterOnce(w: World) returns (r: Outcome)
      requires Valid()
      modifies this
      ensures Valid()
      ensures Foreign(old(data)) ==> data == old(data)
      ensures Foreign(old(staging)) ==> staging == old(staging)
      ensures data == old(data) || (Entries(old(data)) == 0
                && (data.None? || (data.value.ours && data.value.finished && data.value.id !in old(made))))
      ensures staging == old(staging) || staging.None? || staging.value.ours
      ensures r == NotOurs ==> data == old(data) && staging == old(staging) && owner == old(owner)
      ensures old(now) <= now && old(made) <= made && (lock == old(lock) || lock.Free? || lock.mtime == old(now))
      ensures r != CutOff ==> r == Ending(old(data), old(staging), old(lock), old(now), w)
      ensures r == CutOff ==> old(power) < Needed(old(staging), w)
      ensures r == Created ==> HasCluster(data) && Whole(data, w)
      ensures r == Created || (r == Failed && !HeldBack(staging, w)) ==> staging.None? && owner.NoOwner?
      ensures r == Created || r == Failed || r == NotOurs ==> lock.Free?
      ensures r == Busy <==> !HasCluster(old(data)) && LockHeld(old(lock), w, old(now))
      ensures r == Failed ==> !HasCluster(data)
      ensures r == AlreadyThere || r == Busy ==> Contents() == old(Contents())
    {
      if HasCluster(data) { return AlreadyThere; }
      var taken := TakeLock(w);
      if taken.Some? { return taken.value; }
      r := UnderTheLock(w);
      if r == CutOff { return; }
      var on := Spend();
      if !on { return CutOff; }
      lock := Free;
    }

    /** What is done between taking the lock and giving it back. */
    method UnderTheLock(w: World) returns (r: Outcome)
      requires Valid() && !HasCluster(data)
      modifies this
      ensures Valid() && lock == old(lock)
      ensures Foreign(old(data)) ==> data == old(data)
      ensures Foreign(old(staging)) ==> staging == old(staging)
      ensures data == old(data) || (Entries(old(data)) == 0
                && (data.None? || (data.value.ours && data.value.finished && data.value.id !in old(made))))
      ensures (staging == old(staging) || staging.None? || staging.value.ours) && old(now) <= now && old(made) <= made
      ensures r == NotOurs ==> data == old(data) && staging == old(staging) && owner == old(owner)
      ensures r != CutOff ==> r == Ending(old(data), old(staging), Free, old(now), w)
      ensures power <= old(power) <= power + Needed(old(staging), w) - 5
      ensures r == CutOff ==> old(power) < Needed(old(staging), w) - 5
      ensures r == Created ==> HasCluster(data) && Whole(data, w)
      ensures r == Created || (r == Failed && !HeldBack(staging, w)) ==> staging.None? && owner.NoOwner?
      ensures r == Failed ==> !HasCluster(data)
    {
      if data.Some? && data.value.entries != {} { return NotOurs; }
      var cleared := ClearOwnStaging(w);
      if cleared.Some? { return cleared.value; }
      r := SetUp(w);
    }
  }

  // ---- Any sequence of starts ---------------------------------------------------------

  /** Between starts anyone may put a folder of their own, or none, in either place. */
  datatype Event =
    | Starts(world: World, power: nat)
    | PutsData(entries: Option<set<string>>)
    | PutsStaging(entries: Option<set<string>>)
    | Waits(ms: nat)

  /** What a start, cut off or not, makes of the disk it finds. */
  ghost predicate Started(s: Snapshot, w: World, power: nat, t: Snapshot, r: Outcome) {
    && Sound(t) && s.now <= t.now && s.made <= t.made
    && (Foreign(s.data) ==> t.data == s.data) && (Foreign(s.staging) ==> t.staging == s.staging)
    && (t.data == s.data || (Entries(s.data) == 0 && (t.data.None? || MadeSince(s, t.data.value))))
    && (t.staging == s.staging || t.staging.None? || t.staging.value.ours)
    && (t.lock == s.lock || t.lock.Free? || t.lock.mtime == s.now)
    && (if r == CutOff then power < Needed(s.staging, w) else r == Ending(s.data, s.staging, s.lock, s.now, w))
    && (r == Created ==> HasCluster(t.data) && t.data != s.data && Whole(t.data, w))
    && (r == Created || (r == Failed && !HeldBack(t.staging, w)) ==> t.staging.None? && t.owner.NoOwner?)
    && (r == Created || r == Failed || r == NotOurs ==> t.lock.Free?)
    && (r == Busy <==> !HasCluster(s.data) && LockHeld(s.lock, w, s.now))
    && (r == Failed ==> !HasCluster(t.data))
    && (r == NotOurs ==> t.data == s.data && t.staging == s.staging && t.owner == s.owner)
    && (r == AlreadyThere || r == Busy ==> t == s)
  }

  /** A folder this code made after `s`, in which initdb finished. */
  predicate MadeSince(s: Snapshot, f: Folder) { f.ours && f.finished && f.id !in s.made }

  function Theirs(s: Snapshot, entries: Option<set<string>>): Option<Folder> {
    if entries.None? then None else Some(Folder(s.nextId, entries.value, false, false))
  }

  ghost predicate Linked(s: Snapshot, e: Event, t: Snapshot, r: Option<Outcome>) {
    match e
    case Starts(w, power) => r.Some? && Started(s, w, power, t, r.value)
    case PutsData(entries) => r.None? && t == s.(data := Theirs(s, entries), nextId := s.nextId + 1)
    case PutsStaging(entries) => r.None? && t == s.(staging := Theirs(s, entries), nextId := s.nextId + 1)
    case Waits(ms) => r.None? && t == s.(now := s.now + ms)
  }

  /** The disk before the first event and after each, and how each start ended. */
  ghost predicate IsRun(shots: seq<Snapshot>, events: seq<Event>, outcomes: seq<Option<Outcome>>) {
    && |shots| == |events| + 1 && |outcomes| == |events| && shots[0] == Untouched()
    && forall i :: 0 <= i < |events| ==> Linked(shots[i], events[i], shots[i + 1], outcomes[i])
  }

  /** One start: what it is proved to do is what the run's properties rest on. */
  method Start(disk: Disk, w: World, power: nat) returns (r: Outcome)
    requires disk.Valid()
    modifies disk
    ensures Started(old(disk.Contents()), w, power, disk.Contents(), r)
  {
    disk.power := power;
    r := disk.InitialiseClusterOnce(w);
  }

  /** Any run of starts, and of what others do between them. */
  method AnyRun(events: seq<Event>) returns (shots: seq<Snapshot>, outcomes: seq<Option<Outcome>>)
    ensures IsRun(shots, events, outcomes)
  {
    var disk := new Disk();
    shots, outcomes := [disk.Contents()], [];
    for i := 0 to |events|
      invariant disk.Valid() && fresh(disk)
      invariant |shots| == i + 1 && |outcomes| == i && shots[0] == Untouched() && shots[i] == disk.Contents()
      invariant forall k :: 0 <= k < i ==> Linked(shots[k], events[k], shots[k + 1], outcomes[k])
    {
      ghost var was := disk.Contents();
      var outcome: Option<Outcome> := None;
      match events[i] {
        case Starts(w, power) =>
          var r := Start(disk, w, power);
          outcome := Some(r);
        case PutsData(entries) =>
          disk.data := Theirs(disk.Contents(), entries);
          disk.nextId := disk.nextId + 1;
        case PutsStaging(entries) =>
          disk.staging := Theirs(disk.Contents(), entries);
          disk.nextId := disk.nextId + 1;
        case Waits(ms) =>
          disk.now := disk.now + ms;
      }
      assert Linked(was, events[i], disk.Contents(), outcome);
      shots, outcomes := shots + [disk.Contents()], outcomes + [outcome];
    }
  }

  lemma {:induction false} RunIsSound(shots: seq<Snapshot>, events: seq<Event>, outcomes: seq<Option<Outcome>>, i: nat)
    requires IsRun(shots, events, outcomes) && i < |shots|
    ensures Sound(shots[i])
  {
    if i > 0 {
      RunIsSound(shots, events, outcomes, i - 1);
      assert Linked(shots[i - 1], events[i - 1], shots[i], outcomes[i - 1]);
    }
  }

  /**
   * Over any run: a folder with anything in it that this code did not make stays, where the database goes
   * or where the setup is done, until someone else puts another one there.
   */
  lemma {:induction false} ForeignFoldersStay(shots: seq<Snapshot>, events: seq<Event>, outcomes: seq<Option<Outcome>>, i: nat, j: nat)
    requires IsRun(shots, events, outcomes) && i <= j < |shots|
    ensures Foreign(shots[i].data) && (forall k :: i <= k < j ==> !events[k].PutsData?) ==> shots[j].data == shots[i].data
    ensures Foreign(shots[i].staging) && (forall k :: i <= k < j ==> !events[k].PutsStaging?) ==> shots[j].staging == shots[i].staging
  {
    if i < j {
      ForeignFoldersStay(shots, events, outcomes, i, j - 1);
      assert Linked(shots[j - 1], events[j - 1], shots[j], outcomes[j - 1]);
    }
  }

  /**
   * Over any run: where no one else put it, a database folder not there before is one this code made
   * since, moved there whole after initdb finished in it; and a database once there is never changed.
   */
  lemma {:induction false} DatabasesComeFinished(shots: seq<Snapshot>, events: seq<Event>, outcomes: seq<Option<Outcome>>, i: nat, j: nat)
    requires IsRun(shots, events, outcomes) && i <= j < |shots| && forall k :: i <= k < j ==> !events[k].PutsData?
    ensures shots[j].data == shots[i].data || shots[j].data.None?
         || (MadeSince(shots[i], shots[j].data.value) && shots[j].data.value.Cluster())
    ensures HasCluster(shots[i].data) ==> shots[j].data == shots[i].data
    ensures shots[i].made <= shots[j].made
  {
    if i < j {
      DatabasesComeFinished(shots, events, outcomes, i, j - 1);
      RunIsSound(shots, events, outcomes, j);
      assert Linked(shots[j - 1], events[j - 1], shots[j], outcomes[j - 1]);
    }
  }

  // ---- Recovery -----------------------------------------------------------------------

  /** A start that is not cut off leaves a database exactly when it finds one, or may set one up and can. */
  lemma LeavesADatabaseExactly(s: Snapshot, w: World, power: nat, t: Snapshot, r: Outcome)
    requires Started(s, w, power, t, r) && power >= Needed(s.staging, w)
    ensures HasCluster(t.data) <==>
              || HasCluster(s.data)
              || (!LockHeld(s.lock, w, s.now) && Entries(s.data) == 0 && !Foreign(s.staging) && Removable(s.staging, w)
                  && w.initdbSucceeds && Moves(w, 0, 0))
    ensures HasCluster(t.data) <==> r == Created || r == AlreadyThere
  {
    assert HasCluster(s.data) ==> Entries(s.data) != 0;
  }

  predicate OnlyOurs(s: Snapshot) {
    && (s.data.Some? ==> s.data.value.ours) && (s.staging.Some? ==> s.staging.value.ours)
  }

  lemma {:induction false} NothingForeign(shots: seq<Snapshot>, events: seq<Event>, outcomes: seq<Option<Outcome>>, i: nat)
    requires IsRun(shots, events, outcomes) && i < |shots|
    requires forall k :: 0 <= k < i ==> events[k].Starts? || events[k].Waits?
    ensures OnlyOurs(shots[i])
  {
    if i > 0 {
      NothingForeign(shots, events, outcomes, i - 1);
      assert Linked(shots[i - 1], events[i - 1], shots[i], outcomes[i - 1]);
    }
  }

  /**
   * However many starts were cut off, wherever each was: if the lock found is stale, or its process is gone
   * or this one, and what is left of the setup can be removed, a start that is not cut off, whose initdb
   * succeeds and whose folder is let go of within the wait, ends with a database.
   */
  lemma RecoversFromAnyStarts(shots: seq<Snapshot>, events: seq<Event>, outcomes: seq<Option<Outcome>>, i: nat)
    requires IsRun(shots, events, outcomes) && i < |events| && events[i].Starts?
    requires forall k :: 0 <= k < i ==> events[k].Starts? || events[k].Waits?
    requires shots[i].lock.Taken? ==>
               || shots[i].now - shots[i].lock.mtime >= LOCK_STALE_MS
               || (shots[i].lock.pid.Some?
                   && (shots[i].lock.pid.value == events[i].world.pid || shots[i].lock.pid.value !in events[i].world.running))
    requires events[i].power >= Needed(shots[i].staging, events[i].world)
    requires Removable(shots[i].staging, events[i].world)
    requires events[i].world.initdbSucceeds && events[i].world.heldMs <= HELD_WAIT_MS
    ensures HasCluster(shots[i + 1].data) && shots[i + 1].data.value.ours && shots[i + 1].data.value.finished
    ensures (outcomes[i] == Some(Created) && Whole(shots[i + 1].data, events[i].world))
         || (outcomes[i] == Some(AlreadyThere) && shots[i + 1] == shots[i])
  {
    NothingForeign(shots, events, outcomes, i);
    RunIsSound(shots, events, outcomes, i);
    RunIsSound(shots, events, outcomes, i + 1);
    assert Linked(shots[i], events[i], shots[i + 1], outcomes[i]);
    MovesWithinTheWait(events[i].world, 0, 0);
    LeavesADatabaseExactly(shots[i], events[i].world, events[i].power, shots[i + 1], outcomes[i].value);
  }

  /**
   * In any run, cut off or not: with no database there, a start finding a lock less than ten minutes old that
   * is half written, or of another process that is running, is turned away and leaves the disk as it found
   * it; and no other start is turned away so.
   */
  lemma LiveLocksAreKept(shots: seq<Snapshot>, events: seq<Event>, outcomes: seq<Option<Outcome>>, i: nat)
    requires IsRun(shots, events, outcomes) && i < |events| && events[i].Starts? && !HasCluster(shots[i].data)
    ensures outcomes[i] == Some(Busy) <==>
              && shots[i].lock.Taken? && shots[i].now - shots[i].lock.mtime < 600_000
              && (shots[i].lock.pid.None?
                  || (shots[i].lock.pid.value != events[i].world.pid && shots[i].lock.pid.value in events[i].world.running))
    ensures outcomes[i] == Some(Busy) ==> shots[i + 1] == shots[i]
  {
    assert Linked(shots[i], events[i], shots[i + 1], outcomes[i]);
  }

  /** And a start that was not turned away, not cut off, and found no database leaves no lock. */
  lemma LocksAreGivenBack(shots: seq<Snapshot>, events: seq<Event>, outcomes: seq<Option<Outcome>>, i: nat)
    requires IsRun(shots, events, outcomes) && i < |events| && events[i].Starts?
    ensures outcomes[i].Some?
    ensures outcomes[i].value !in {Busy, AlreadyThere, CutOff} ==> shots[i + 1].lock.Free?
  {
    assert Linked(shots[i], events[i], shots[i + 1], outcomes[i]);
  }

  /** A start that fails leaves no setup folder and no owner file, unless something in its own folder cannot be removed. */
  lemma FailureLeavesNothing(shots: seq<Snapshot>, events: seq<Event>, outcomes: seq<Option<Outcome>>, i: nat)
    requires IsRun(shots, events, outcomes) && i < |events| && outcomes[i] == Some(Failed)
    ensures events[i].Starts?
    ensures (shots[i + 1].staging.None? && shots[i + 1].owner.NoOwner?)
         || (shots[i + 1].staging.Some? && shots[i + 1].staging.value.ours
             && exists x :: x in shots[i + 1].staging.value.entries && x in events[i].world.stuck)
    ensures !HasCluster(shots[i + 1].data)
  {
    assert Linked(shots[i], events[i], shots[i + 1], outcomes[i]);
    if HeldBack(shots[i + 1].staging, events[i].world) {
      var x :| x in shots[i + 1].staging.value.entries * events[i].world.stuck;
    }
  }
}
