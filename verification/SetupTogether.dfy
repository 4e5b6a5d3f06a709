/**
 * Starts that set up the database at the same time: the lock (SetupLock) and the folders (ClusterSetup)
 * together, one file operation of one start at a time (electron/windows-initdb.js).
 */
module SetupTogether {
  import opened Wrappers
  import opened Runs
  import opened ClusterSetup
  import SetupLock

  type Id = SetupLock.Id

  /** The folders all starts share, and the identities of those this code has made. */
  datatype Folders = Folders(data: Option<Folder>, staging: Option<Folder>, owner: Owner, made: set<nat>, nextId: nat)

  /** What a start inside is about to do. */
  datatype Work =
    | Looking                          // at the data folder
    | Reading                          // the owner file, if there is a setup folder
    | Checking(recorded: Owner)        // whether the setup folder is the one recorded
    | Removing                         // the setup folder left by an earlier start
    | Making                           // its own setup folder
    | Identifying                      // it
    | Recording(folder: nat)           // its identity: to begin the owner file
    | Writing(folder: nat)             // and to write it
    | Filling(folder: nat)             // initdb runs
    | Placing                          // to remove an empty data folder
    | Moving                           // to move the setup folder there
    | Cleaning                         // nothing created: to remove the setup folder
    | Closing                          // to remove the owner file
    | Leaving                          // to give the lock back

  datatype State = State(lock: SetupLock.State, disk: Folders, work: map<Id, Work>)

  datatype Action =
    | Locks(a: SetupLock.Action)
    | Look(id: Id)
    | ReadOwner(id: Id)
    | Check(id: Id)
    | RemoveEntry(id: Id, entry: string)
    | RemoveFolder(id: Id)
    | RemovalFails(id: Id)
    | MakeFolder(id: Id)
    | Identify(id: Id)
    | Begin(id: Id)
    | Record(id: Id)
    | Fill(id: Id, entry: string)
    | Finish(id: Id)
    | InitdbFails(id: Id)
    | Place(id: Id)
    | Move(id: Id)
    | MoveFails(id: Id)
    | Close(id: Id)

  predicate Inside(s: State, id: Id) { SetupLock.PhaseOf(s.lock, id).Inside? }

  /** Whether a start whose work this is may take the step. */
  predicate Fits(d: Folders, w: Work, a: Action)
    requires !a.Locks?
  {
    match a
    case Look(_) => w.Looking?
    case ReadOwner(_) => w.Reading?
    case Check(_) => w.Checking?
    case RemoveEntry(_, entry) => (w.Removing? || w.Cleaning?) && d.staging.Some? && entry in d.staging.value.entries
    case RemoveFolder(_) => (w.Removing? || w.Cleaning?) && Entries(d.staging) == 0
    case RemovalFails(_) => w.Removing? || w.Cleaning?
    case MakeFolder(_) => w.Making?
    case Identify(_) => w.Identifying?
    case Begin(_) => w.Recording?
    case Record(_) => w.Writing?
    case Fill(_, _) => w.Filling?
    case Finish(_) => w.Filling?
    case InitdbFails(_) => w.Filling?
    case Place(_) => w.Placing?
    case Move(_) => w.Moving?
    case MoveFails(_) => w.Moving?
    case Close(_) => w.Closing?
  }

  ghost predicate Enabled(s: State, a: Action) {
    if a.Locks? then
      SetupLock.Enabled(s.lock, a.a) && (a.a.Release? ==> a.a.id in s.work && s.work[a.a.id].Leaving?)
    else
      Inside(s, a.id) && a.id in s.work && Fits(s.disk, s.work[a.id], a)
  }

  function WithEntries(f: Folder, entries: set<string>): Folder { f.(entries := entries) }

  /** What the step makes of the folders, and what the start does next. Every folder is reached by its path. */
  function Done(d: Folders, w: Work, a: Action): (Folders, Work)
    requires !a.Locks? && Fits(d, w, a)
  {
    match a
    case Look(_) => (d, if Entries(d.data) > 0 then Leaving else Reading)
    case ReadOwner(_) => (d, if d.staging.None? then Making else Checking(d.owner))
    case Check(_) =>
      if d.staging.None? then (d, Leaving)
      else if w.recorded == Records(d.staging.value.id) then (d, Removing)
      else if d.staging.value.entries == {} then (d.(staging := None), Making)
      else (d, Leaving)
    case RemoveEntry(_, entry) =>
      (d.(staging := Some(WithEntries(d.staging.value, d.staging.value.entries - {entry}))), w)
    case RemoveFolder(_) => (d.(staging := None), if w.Removing? then Making else Closing)
    case RemovalFails(_) => (d, Leaving)
    case MakeFolder(_) =>
      if d.staging.Some? then (d, Leaving)
      else (d.(staging := Some(Folder(d.nextId, {}, true, false)), made := d.made + {d.nextId}, nextId := d.nextId + 1),
            Identifying)
    case Identify(_) => (d, if d.staging.None? then Cleaning else Recording(d.staging.value.id))
    case Begin(_) => (d.(owner := Torn), Writing(w.folder))
    case Record(_) => (d.(owner := Records(w.folder)), Filling(w.folder))
    case Fill(_, entry) =>
      if d.staging.None? then (d, w)
      else (d.(staging := Some(WithEntries(d.staging.value, d.staging.value.entries + {entry}))), w)
    // initdb has finished in the folder it began in, if that is the one there
    case Finish(_) =>
      if d.staging.None? then (d, Cleaning)
      else
        var f := d.staging.value;
        (d.(staging := Some(Folder(f.id, f.entries + {"PG_VERSION"}, f.ours, f.finished || f.id == w.folder))), Placing)
    case InitdbFails(_) => (d, Cleaning)
    case Place(_) => if Entries(d.data) > 0 then (d, Cleaning) else (d.(data := None), Moving)
    case Move(_) =>
      if d.staging.None? || d.data.Some? then (d, Cleaning) else (d.(data := d.staging, staging := None), Closing)
    case MoveFails(_) => (d, Cleaning)
    case Close(_) => (d.(owner := NoOwner), Leaving)
  }

  ghost function Apply(s: State, a: Action): State
    requires Enabled(s, a)
  {
    if a.Locks? then
      State(SetupLock.Apply(s.lock, a.a), s.disk, if a.a.WriteId? then s.work[a.a.id := Looking] else s.work)
    else
      var (d, w) := Done(s.disk, s.work[a.id], a);
      State(s.lock, d, s.work[a.id := w])
  }

  ghost function Step(s: State, a: Action): Option<State> {
    if Enabled(s, a) then Some(Apply(s, a)) else None
  }

  function Shot(d: Folders): Snapshot { Snapshot(d.data, d.staging, d.owner, Free, 0, d.made, d.nextId) }

  ghost predicate Init(s: State) {
    SetupLock.Init(s.lock) && Sound(Shot(s.disk)) && s.work == map[]
  }

  // ---- One inside at a time -----------------------------------------------------------

  /** The setup folder is its own, made since the run began, and recorded. */
  ghost predicate Recorded(d: Folders, made: set<nat>) {
    d.staging.Some? && d.staging.value.ours && d.staging.value.id !in made && d.owner == Records(d.staging.value.id)
  }

  /** What the one start inside relies on. */
  ghost predicate WorkFits(d: Folders, w: Work, made: set<nat>) {
    && (w.Looking? || w.Closing? || w.Leaving? || Entries(d.data) == 0)
    && match w
       case Checking(recorded) => recorded == d.owner
       case Removing => d.staging.Some? ==> d.staging.value.ours
       case Making => d.staging.None?
       case Identifying => d.staging.Some? && d.staging.value.ours && d.staging.value.entries == {} && d.staging.value.id !in made
       case Recording(f) => d.staging.Some? && d.staging.value.ours && d.staging.value.entries == {} && d.staging.value.id == f && f !in made
       case Writing(f) => d.staging.Some? && d.staging.value.ours && d.staging.value.entries == {} && d.staging.value.id == f && f !in made
       case Filling(f) => Recorded(d, made) && d.staging.value.id == f
       case Placing => Recorded(d, made) && d.staging.value.finished && d.staging.value.Cluster()
       case Moving => Recorded(d, made) && d.staging.value.finished && d.staging.value.Cluster() && d.data.None?
       case Cleaning => d.staging.Some? ==> d.staging.value.ours
       case Closing => d.staging.None?
       case _ => true
  }

  /** What a run makes of the folders it found: nothing foreign removed, and no database but a finished one. */
  ghost predicate Since(d0: Folders, d: Folders) {
    && d0.made <= d.made
    && (Foreign(d0.data) ==> d.data == d0.data) && (Foreign(d0.staging) ==> d.staging == d0.staging)
    && (HasCluster(d0.data) ==> d.data == d0.data)
    && (d.data == d0.data || d.data.None?
        || (d.data.value.ours && d.data.value.finished && d.data.value.Cluster() && d.data.value.id !in d0.made))
  }

  ghost predicate Good(d0: Folders, s: State) {
    && Sound(Shot(s.disk)) && Since(d0, s.disk)
    && (forall id :: Inside(s, id) ==> id in s.work && WorkFits(s.disk, s.work[id], d0.made))
  }

  /** No two between creating the lock and giving it back. */
  ghost predicate OneInside(s: State) { SetupLock.Exclusive(s.lock) }

  lemma CheckFits(d0: Folders, d: Folders, w: Work, a: Action)
    requires Sound(Shot(d)) && Since(d0, d) && WorkFits(d, w, d0.made)
    requires (a.Look? || a.ReadOwner? || a.Check? || a.RemoveEntry? || a.RemoveFolder? || a.RemovalFails?) && Fits(d, w, a)
    ensures var (e, v) := Done(d, w, a); Sound(Shot(e)) && WorkFits(e, v, d0.made)
  {
  }

  lemma MakeFits(d0: Folders, d: Folders, w: Work, a: Action)
    requires Sound(Shot(d)) && Since(d0, d) && WorkFits(d, w, d0.made)
    requires (a.MakeFolder? || a.Identify? || a.Begin? || a.Record? || a.Fill?) && Fits(d, w, a)
    ensures var (e, v) := Done(d, w, a); Sound(Shot(e)) && WorkFits(e, v, d0.made)
  {
  }

  lemma MoveFits(d0: Folders, d: Folders, w: Work, a: Action)
    requires Sound(Shot(d)) && Since(d0, d) && WorkFits(d, w, d0.made)
    requires (a.Finish? || a.InitdbFails? || a.Place? || a.Move? || a.MoveFails? || a.Close?) && Fits(d, w, a)
    ensures var (e, v) := Done(d, w, a); Sound(Shot(e)) && WorkFits(e, v, d0.made)
  {
  }

  lemma StaysSince(d0: Folders, d: Folders, w: Work, a: Action)
    requires Sound(Shot(d0)) && Sound(Shot(d)) && Since(d0, d) && WorkFits(d, w, d0.made)
    requires !a.Locks? && Fits(d, w, a)
    ensures Since(d0, Done(d, w, a).0)
  {
    assert Foreign(d0.staging) ==> d.staging.value.id !in d.made;
    assert Foreign(d0.data) || HasCluster(d0.data) ==> Entries(d.data) != 0;
  }

  /** A start alone inside keeps what it relies on, and what any later start will. */
  lemma WorkKeeps(d0: Folders, s: State, a: Action)
    requires Sound(Shot(d0)) && Good(d0, s) && OneInside(s) && Enabled(s, a) && !a.Locks?
    ensures Good(d0, Apply(s, a))
  {
    var w := s.work[a.id];
    assert WorkFits(s.disk, w, d0.made);
    StaysSince(d0, s.disk, w, a);
    if a.Look? || a.ReadOwner? || a.Check? || a.RemoveEntry? || a.RemoveFolder? || a.RemovalFails? {
      CheckFits(d0, s.disk, w, a);
    } else if a.MakeFolder? || a.Identify? || a.Begin? || a.Record? || a.Fill? {
      MakeFits(d0, s.disk, w, a);
    } else {
      MoveFits(d0, s.disk, w, a);
    }
    forall id | Inside(Apply(s, a), id)
      ensures id == a.id
    {
      assert SetupLock.Owns(s.lock, id) && SetupLock.Owns(s.lock, a.id);
    }
  }

  lemma LockKeeps(d0: Folders, s: State, a: Action)
    requires Good(d0, s) && Enabled(s, a) && a.Locks?
    ensures Good(d0, Apply(s, a))
  {
    forall id | Inside(Apply(s, a), id)
      ensures Inside(s, id) || (a.a == SetupLock.WriteId(id))
    {
    }
  }

  lemma {:induction false} RunIsGood(d0: Folders, s: State, actions: seq<Action>, t: State)
    requires Sound(Shot(d0)) && Good(d0, s) && Leads(Step, s, actions, t) && Throughout(Step, OneInside, s, actions)
    ensures Good(d0, t)
    decreases |actions|
  {
    if actions != [] {
      if actions[0].Locks? {
        LockKeeps(d0, s, actions[0]);
      } else {
        WorkKeeps(d0, s, actions[0]);
      }
      RunIsGood(d0, Apply(s, actions[0]), actions[1..], t);
    }
  }

  /**
   * In every interleaving of any number of starts, cut off anywhere, while no two are inside at the same
   * time: nothing this code did not make is removed, and a database folder that was not there is one made
   * since, in which initdb finished.
   */
  lemma DatabasesComeFinishedTogether(s: State, actions: seq<Action>, t: State)
    requires Init(s) && Leads(Step, s, actions, t) && Throughout(Step, OneInside, s, actions)
    ensures Sound(Shot(t.disk)) && Since(s.disk, t.disk)
  {
    RunIsGood(s.disk, s, actions, t);
  }

  // ---- What keeps them apart ------------------------------------------------------------

  ghost predicate LockInv(s: State) { SetupLock.Inv(s.lock) }

  ghost predicate Apart(s: State) { SetupLock.Apart(s.lock) }

  ghost predicate Harmless(s: State, a: Action) { a.Locks? ==> SetupLock.Harmless(s.lock, a.a) }

  /** They are kept apart, whatever they do to the folders, if and only if no start removes a live one's lock. */
  lemma ApartExactly(s: State, actions: seq<Action>, t: State)
    requires Init(s) && Leads(Step, s, actions, t)
    ensures Throughout(Step, Apart, s, actions) <==> Always(Step, Harmless, s, actions)
  {
    assert SetupLock.Inv(s.lock);
    forall x | LockInv(x)
      ensures Apart(x)
    {
      SetupLock.InvariantKeepsApart(x.lock);
    }
    forall x, a | LockInv(x) && Harmless(x, a) && Step(x, a).Some?
      ensures LockInv(Step(x, a).value)
    {
      if a.Locks? {
        SetupLock.StepKeepsExactly(x.lock, a.a);
      }
    }
    forall x, a | LockInv(x) && !Harmless(x, a) && Step(x, a).Some?
      ensures !Apart(Step(x, a).value)
    {
      SetupLock.HarmLetsTwoIn(x.lock, a.a);
    }
    HoldsExactly(Step, LockInv, Harmless, Apart, s, actions, t);
  }

  lemma {:induction false} ApartIsAlone(s: State, actions: seq<Action>)
    requires Throughout(Step, Apart, s, actions)
    ensures Throughout(Step, OneInside, s, actions)
    decreases |actions|
  {
    if actions != [] && Step(s, actions[0]).Some? {
      ApartIsAlone(Step(s, actions[0]).value, actions[1..]);
    }
  }

  /** So the folders are safe in every run in which no start removes a live one's lock. */
  lemma HarmlessRunsAreSafe(s: State, actions: seq<Action>, t: State)
    requires Init(s) && Leads(Step, s, actions, t) && Always(Step, Harmless, s, actions)
    ensures Sound(Shot(t.disk)) && Since(s.disk, t.disk)
  {
    ApartExactly(s, actions, t);
    ApartIsAlone(s, actions);
    DatabasesComeFinishedTogether(s, actions, t);
  }

  // ---- With two inside ------------------------------------------------------------------

  /** Every start inside is only about to look. */
  ghost predicate AllLook(s: State) {
    forall id :: Inside(s, id) ==> id in s.work && s.work[id].Looking?
  }

  /** A run of the lock alone is one of the whole, in which no start inside has done anything yet. */
  lemma {:induction false} Lifts(s: State, locks: seq<SetupLock.Action>, u: SetupLock.State) returns (actions: seq<Action>, t: State)
    requires Leads(SetupLock.Step, s.lock, locks, u) && AllLook(s)
    requires SetupLock.NoneReleased(locks)
    ensures Leads(Step, s, actions, t) && t.lock == u && t.disk == s.disk && AllLook(t)
    decreases |locks|
  {
    if locks == [] {
      actions, t := [], s;
    } else {
      assert !locks[0].Release?;
      var next := Apply(s, Locks(locks[0]));
      forall id | Inside(next, id)
        ensures id in next.work && next.work[id].Looking?
      {
        assert Inside(s, id) || locks[0] == SetupLock.WriteId(id);
      }
      var rest;
      rest, t := Lifts(next, locks[1..], u);
      Before(Step, s, Locks(locks[0]), next, rest, t);
      actions := [Locks(locks[0])] + rest;
    }
  }

  /** Starts 1 and 2 inside, at these tasks, over these folders. */
  function With(s: State, d: Folders, one: Work, two: Work): State { State(s.lock, d, s.work[1 := one][2 := two]) }

  ghost predicate TwoInside(s: State) { Inside(s, 1) && Inside(s, 2) }

  /** A step of start 1, or of start 2, named by where it leads. */
  lemma FirstDoes(s: State, d: Folders, one: Work, two: Work, a: Action)
    requires TwoInside(s) && !a.Locks? && a.id == 1 && Fits(d, one, a)
    ensures Leads(Step, With(s, d, one, two), [a], With(s, Done(d, one, a).0, Done(d, one, a).1, two))
  {
    var t := With(s, Done(d, one, a).0, Done(d, one, a).1, two);
    assert Apply(With(s, d, one, two), a).work == t.work;
    One(Step, With(s, d, one, two), a, t);
  }

  lemma SecondDoes(s: State, d: Folders, one: Work, two: Work, a: Action)
    requires TwoInside(s) && !a.Locks? && a.id == 2 && Fits(d, two, a)
    ensures Leads(Step, With(s, d, one, two), [a], With(s, Done(d, two, a).0, one, Done(d, two, a).1))
  {
    var t := With(s, Done(d, two, a).0, one, Done(d, two, a).1);
    assert Apply(With(s, d, one, two), a).work == t.work;
    One(Step, With(s, d, one, two), a, t);
  }

  /** What a start makes of the folders in a run of its own steps. */
  function AllDone(d: Folders, w: Work, steps: seq<Action>): Option<(Folders, Work)>
    decreases |steps|
  {
    if steps == [] then Some((d, w))
    else if steps[0].Locks? || !Fits(d, w, steps[0]) then None
    else AllDone(Done(d, w, steps[0]).0, Done(d, w, steps[0]).1, steps[1..])
  }

  lemma {:induction false} FirstGoesOn(s: State, d: Folders, one: Work, two: Work, steps: seq<Action>, e: Folders, next: Work)
    requires TwoInside(s) && AllDone(d, one, steps) == Some((e, next))
    requires forall i :: 0 <= i < |steps| ==> !steps[i].Locks? && steps[i].id == 1
    ensures Leads(Step, With(s, d, one, two), steps, With(s, e, next, two))
    decreases |steps|
  {
    if steps != [] {
      var (d1, w1) := Done(d, one, steps[0]);
      FirstDoes(s, d, one, two, steps[0]);
      FirstGoesOn(s, d1, w1, two, steps[1..], e, next);
      LeadsThrough(Step, With(s, d, one, two), [steps[0]], With(s, d1, w1, two), steps[1..], With(s, e, next, two));
      assert [steps[0]] + steps[1..] == steps;
    }
  }

  lemma {:induction false} SecondGoesOn(s: State, d: Folders, one: Work, two: Work, steps: seq<Action>, e: Folders, next: Work)
    requires TwoInside(s) && AllDone(d, two, steps) == Some((e, next))
    requires forall i :: 0 <= i < |steps| ==> !steps[i].Locks? && steps[i].id == 2
    ensures Leads(Step, With(s, d, one, two), steps, With(s, e, one, next))
    decreases |steps|
  {
    if steps != [] {
      var (d1, w1) := Done(d, two, steps[0]);
      SecondDoes(s, d, one, two, steps[0]);
      SecondGoesOn(s, d1, one, w1, steps[1..], e, next);
      LeadsThrough(Step, With(s, d, one, two), [steps[0]], With(s, d1, one, w1), steps[1..], With(s, e, one, next));
      assert [steps[0]] + steps[1..] == steps;
    }
  }

  function Nothing(): Folders { Folders(None, None, NoOwner, {}, 0) }

  /** The second start's setup folder, initdb finished in it and about to be moved. */
  function Ready(): Folders { Folders(None, Some(Folder(0, {"PG_VERSION"}, true, true)), Records(0), {0}, 1) }

  /** The first start has removed it, as the owner file says it may, and is filling its own. */
  function Refilled(): Folders { Folders(None, Some(Folder(1, {"PG_VERSION"}, true, false)), Records(1), {0, 1}, 2) }

  /** And the second start has moved that one into place. */
  function Misplaced(): Folders { Folders(Some(Folder(1, {"PG_VERSION"}, true, false)), None, Records(1), {0, 1}, 2) }

  lemma AllDoneThrough(d: Folders, w: Work, first: seq<Action>, e: Folders, v: Work, second: seq<Action>)
    requires AllDone(d, w, first) == Some((e, v))
    ensures AllDone(d, w, first + second) == AllDone(e, v, second)
    decreases |first|
  {
    if first == [] {
      assert first + second == second;
    } else {
      assert (first + second)[1..] == first[1..] + second;
      AllDoneThrough(Done(d, w, first[0]).0, Done(d, w, first[0]).1, first[1..], e, v, second);
    }
  }

  lemma OneDone(d: Folders, w: Work, a: Action)
    requires !a.Locks? && Fits(d, w, a)
    ensures AllDone(d, w, [a]) == Some(Done(d, w, a))
  {
    assert [a][1..] == [];
  }

  lemma ThreeDone(d: Folders, w: Work, a: Action, b: Action, c: Action, d1: Folders, w1: Work, d2: Folders, w2: Work)
    requires !a.Locks? && !b.Locks? && !c.Locks?
    requires Fits(d, w, a) && Done(d, w, a) == (d1, w1) && Fits(d1, w1, b) && Done(d1, w1, b) == (d2, w2) && Fits(d2, w2, c)
    ensures AllDone(d, w, [a, b, c]) == Some(Done(d2, w2, c))
  {
    OneDone(d, w, a);
    OneDone(d1, w1, b);
    OneDone(d2, w2, c);
    AllDoneThrough(d, w, [a], d1, w1, [b]);
    AllDoneThrough(d, w, [a] + [b], d2, w2, [c]);
    assert [a] + [b] + [c] == [a, b, c];
  }

  function SecondsSteps(): seq<Action> {
    [Look(2), ReadOwner(2), MakeFolder(2)] + [Identify(2), Begin(2), Record(2)] + [Finish(2), Place(2)]
  }

  /** A setup folder just made, with what the owner file then holds. */
  function Fresh(id: nat, owner: Owner, made: set<nat>): Folders {
    Folders(None, Some(Folder(id, {}, true, false)), owner, made, id + 1)
  }

  lemma SecondMakesIts()
    ensures AllDone(Nothing(), Looking, [Look(2), ReadOwner(2), MakeFolder(2)]) == Some((Fresh(0, NoOwner, {0}), Identifying))
  {
    ThreeDone(Nothing(), Looking, Look(2), ReadOwner(2), MakeFolder(2), Nothing(), Reading, Nothing(), Making);
    assert {} + {0} == {0};
  }

  lemma Records3(id: Id, folder: nat, owner: Owner, made: set<nat>)
    ensures AllDone(Fresh(folder, owner, made), Identifying, [Identify(id), Begin(id), Record(id)])
         == Some((Fresh(folder, Records(folder), made), Filling(folder)))
  {
    ThreeDone(Fresh(folder, owner, made), Identifying, Identify(id), Begin(id), Record(id),
              Fresh(folder, owner, made), Recording(folder), Fresh(folder, Torn, made), Writing(folder));
  }

  lemma SecondFinishes()
    ensures AllDone(Fresh(0, Records(0), {0}), Filling(0), [Finish(2), Place(2)]) == Some((Ready(), Moving))
  {
    OneDone(Fresh(0, Records(0), {0}), Filling(0), Finish(2));
    assert {} + {"PG_VERSION"} == {"PG_VERSION"};
    assert Done(Fresh(0, Records(0), {0}), Filling(0), Finish(2)) == (Ready(), Placing);
    OneDone(Ready(), Placing, Place(2));
    AllDoneThrough(Fresh(0, Records(0), {0}), Filling(0), [Finish(2)], Ready(), Placing, [Place(2)]);
    assert [Finish(2)] + [Place(2)] == [Finish(2), Place(2)];
  }

  lemma SecondIsReady()
    ensures AllDone(Nothing(), Looking, SecondsSteps()) == Some((Ready(), Moving))
  {
    var a, b := [Look(2), ReadOwner(2), MakeFolder(2)], [Identify(2), Begin(2), Record(2)];
    SecondMakesIts();
    Records3(2, 0, NoOwner, {0});
    SecondFinishes();
    AllDoneThrough(Nothing(), Looking, a, Fresh(0, NoOwner, {0}), Identifying, b);
    AllDoneThrough(Nothing(), Looking, a + b, Fresh(0, Records(0), {0}), Filling(0), [Finish(2), Place(2)]);
  }

  function FirstsSteps(): seq<Action> {
    [Look(1), ReadOwner(1), Check(1)] + [RemoveEntry(1, "PG_VERSION"), RemoveFolder(1), MakeFolder(1)]
    + [Identify(1), Begin(1), Record(1)] + [Fill(1, "PG_VERSION")]
  }

  lemma FirstFindsIt()
    ensures AllDone(Ready(), Looking, [Look(1), ReadOwner(1), Check(1)]) == Some((Ready(), Removing))
  {
    ThreeDone(Ready(), Looking, Look(1), ReadOwner(1), Check(1), Ready(), Reading, Ready(), Checking(Records(0)));
  }

  lemma FirstRemovesIt()
    ensures AllDone(Ready(), Removing, [RemoveEntry(1, "PG_VERSION"), RemoveFolder(1), MakeFolder(1)])
         == Some((Fresh(1, Records(0), {0, 1}), Identifying))
  {
    assert {"PG_VERSION"} - {"PG_VERSION"} == {} && {0} + {1} == {0, 1};
    ThreeDone(Ready(), Removing, RemoveEntry(1, "PG_VERSION"), RemoveFolder(1), MakeFolder(1),
              Folders(None, Some(Folder(0, {}, true, true)), Records(0), {0}, 1), Removing,
              Folders(None, None, Records(0), {0}, 1), Making);
  }

  lemma FirstFills()
    ensures AllDone(Fresh(1, Records(1), {0, 1}), Filling(1), [Fill(1, "PG_VERSION")]) == Some((Refilled(), Filling(1)))
  {
    OneDone(Fresh(1, Records(1), {0, 1}), Filling(1), Fill(1, "PG_VERSION"));
    assert {} + {"PG_VERSION"} == {"PG_VERSION"};
  }

  lemma FirstHasRefilled()
    ensures AllDone(Ready(), Looking, FirstsSteps()) == Some((Refilled(), Filling(1)))
  {
    var a, b := [Look(1), ReadOwner(1), Check(1)], [RemoveEntry(1, "PG_VERSION"), RemoveFolder(1), MakeFolder(1)];
    var c := [Identify(1), Begin(1), Record(1)];
    FirstFindsIt();
    FirstRemovesIt();
    Records3(1, 1, Records(0), {0, 1});
    FirstFills();
    AllDoneThrough(Ready(), Looking, a, Ready(), Removing, b);
    AllDoneThrough(Ready(), Looking, a + b, Fresh(1, Records(0), {0, 1}), Identifying, c);
    AllDoneThrough(Ready(), Looking, a + b + c, Fresh(1, Records(1), {0, 1}), Filling(1), [Fill(1, "PG_VERSION")]);
  }

  lemma BothAreInside()
    ensures SetupLock.PhaseOf(SetupLock.BothInside(), 1).Inside? && SetupLock.PhaseOf(SetupLock.BothInside(), 2).Inside?
  {
  }

  lemma Unmoved(both: State)
    requires 1 in both.work && 2 in both.work && both.work[1] == both.work[2] == Looking && both.disk == Nothing()
    ensures both == With(both, Nothing(), Looking, Looking)
  {
    assert With(both, Nothing(), Looking, Looking).work == both.work;
  }

  lemma LocksTaken(s: State) returns (locks: seq<SetupLock.Action>)
    requires s.lock == SetupLock.Found()
    ensures Leads(SetupLock.Step, s.lock, locks, SetupLock.BothInside()) && SetupLock.NoneReleased(locks)
  {
    SetupLock.BothSetUp();
    SetupLock.OverlapReleasesNone();
    locks := SetupLock.Overlap();
  }

  /** Both are inside, and neither has done anything. */
  lemma ToTwoInside(s: State) returns (actions: seq<Action>, both: State)
    requires s == State(SetupLock.Found(), Nothing(), map[])
    ensures Leads(Step, s, actions, both)
    ensures TwoInside(both) && both == With(both, Nothing(), Looking, Looking)
  {
    var locks := LocksTaken(s);
    BothAreInside();
    actions, both := Lifts(s, locks, SetupLock.BothInside());
    assert Inside(both, 1) && Inside(both, 2);
    Unmoved(both);
  }

  lemma SecondToReady(both: State) returns (actions: seq<Action>)
    requires TwoInside(both)
    ensures Leads(Step, With(both, Nothing(), Looking, Looking), actions, With(both, Ready(), Looking, Moving))
  {
    actions := SecondsSteps();
    SecondIsReady();
    SecondGoesOn(both, Nothing(), Looking, Looking, SecondsSteps(), Ready(), Moving);
  }

  lemma FirstToRefilled(both: State) returns (actions: seq<Action>)
    requires TwoInside(both)
    ensures Leads(Step, With(both, Ready(), Looking, Moving), actions, With(both, Refilled(), Filling(1), Moving))
  {
    actions := FirstsSteps();
    FirstHasRefilled();
    FirstGoesOn(both, Ready(), Looking, Moving, FirstsSteps(), Refilled(), Filling(1));
  }

  lemma SecondMoves(both: State)
    requires TwoInside(both)
    ensures Leads(Step, With(both, Refilled(), Filling(1), Moving), [Move(2)], With(both, Misplaced(), Filling(1), Closing))
  {
    SecondDoes(both, Refilled(), Filling(1), Moving, Move(2));
  }

  lemma ToMisplaced(both: State) returns (actions: seq<Action>)
    requires TwoInside(both)
    ensures Leads(Step, With(both, Nothing(), Looking, Looking), actions, With(both, Misplaced(), Filling(1), Closing))
  {
    var began, end := With(both, Nothing(), Looking, Looking), With(both, Misplaced(), Filling(1), Closing);
    var ready, refilled := With(both, Ready(), Looking, Moving), With(both, Refilled(), Filling(1), Moving);
    var a := SecondToReady(both);
    var b := FirstToRefilled(both);
    SecondMoves(both);
    LeadsThrough(Step, began, a, ready, b, refilled);
    LeadsThrough(Step, began, a + b, refilled, [Move(2)], end);
    actions := a + b + [Move(2)];
  }

  /**
   * With two inside, a database in which initdb has not finished can take its place: one start removes the
   * setup folder the other is about to move, whose identity the owner file records, and the other then
   * moves the folder the first has only begun to fill.
   */
  lemma UnfinishedDatabase() returns (s: State, actions: seq<Action>, t: State)
    ensures Init(s) && s.disk == Nothing() && Leads(Step, s, actions, t)
    ensures HasCluster(t.disk.data) && t.disk.data.value.ours && !t.disk.data.value.finished && !Sound(Shot(t.disk))
  {
    var into, both, on;
    s := State(SetupLock.Found(), Nothing(), map[]);
    into, both := ToTwoInside(s);
    on := ToMisplaced(both);
    t := With(both, Misplaced(), Filling(1), Closing);
    LeadsThrough(Step, s, into, both, on, t);
    actions := into + on;
  }

  // ---- A start by itself ----------------------------------------------------------------

  /** All a start does with nothing in its way. */
  function WholeSetup(id: Id): seq<Action> {
    [Look(id), ReadOwner(id), MakeFolder(id)] + [Identify(id), Begin(id), Record(id)] + [Finish(id), Place(id), Move(id)] + [Close(id)]
  }

  lemma MakesFresh(d: Folders, id: Id)
    requires d.staging.None? && Entries(d.data) == 0
    ensures AllDone(d, Looking, [Look(id), ReadOwner(id), MakeFolder(id)]) == Some((Made(d, d.owner), Identifying))
  {
    ThreeDone(d, Looking, Look(id), ReadOwner(id), MakeFolder(id), d, Reading, d, Making);
  }

  function Made(d: Folders, owner: Owner): Folders {
    Folders(d.data, Some(Folder(d.nextId, {}, true, false)), owner, d.made + {d.nextId}, d.nextId + 1)
  }

  lemma RecordsFresh(d: Folders, id: Id)
    ensures AllDone(Made(d, d.owner), Identifying, [Identify(id), Begin(id), Record(id)])
         == Some((Made(d, Records(d.nextId)), Filling(d.nextId)))
  {
    ThreeDone(Made(d, d.owner), Identifying, Identify(id), Begin(id), Record(id),
              Made(d, d.owner), Recording(d.nextId), Made(d, Torn), Writing(d.nextId));
  }

  function Placed(d: Folders, owner: Owner): Folders {
    Folders(Some(Folder(d.nextId, {"PG_VERSION"}, true, true)), None, owner, d.made + {d.nextId}, d.nextId + 1)
  }

  lemma MovesFresh(d: Folders, id: Id)
    requires Entries(d.data) == 0
    ensures AllDone(Made(d, Records(d.nextId)), Filling(d.nextId), [Finish(id), Place(id), Move(id)])
         == Some((Placed(d, Records(d.nextId)), Closing))
  {
    var filled := Made(d, Records(d.nextId)).(staging := Some(Folder(d.nextId, {"PG_VERSION"}, true, true)));
    assert {} + {"PG_VERSION"} == {"PG_VERSION"};
    ThreeDone(Made(d, Records(d.nextId)), Filling(d.nextId), Finish(id), Place(id), Move(id),
              filled, Placing, filled.(data := None), Moving);
  }

  /** With nothing in its way a start that nothing interrupts puts a finished database in place and leaves nothing else. */
  lemma SetsUpAlone(d: Folders, id: Id)
    requires d.staging.None? && Entries(d.data) == 0
    ensures AllDone(d, Looking, WholeSetup(id)) == Some((Placed(d, NoOwner), Leaving))
  {
    var a, b, c := [Look(id), ReadOwner(id), MakeFolder(id)], [Identify(id), Begin(id), Record(id)], [Finish(id), Place(id), Move(id)];
    MakesFresh(d, id);
    RecordsFresh(d, id);
    MovesFresh(d, id);
    OneDone(Placed(d, Records(d.nextId)), Closing, Close(id));
    AllDoneThrough(d, Looking, a, Made(d, d.owner), Identifying, b);
    AllDoneThrough(d, Looking, a + b, Made(d, Records(d.nextId)), Filling(d.nextId), c);
    AllDoneThrough(d, Looking, a + b + c, Placed(d, Records(d.nextId)), Closing, [Close(id)]);
  }

  /** Where it fails, or the folder is not let go of, it removes what it made. */
  lemma FailsCleanly(d: Folders, id: Id, folder: nat)
    requires d.staging.Some? && d.staging.value.entries == {}
    ensures AllDone(d, Filling(folder), [InitdbFails(id), RemoveFolder(id), Close(id)])
         == Some((d.(staging := None, owner := NoOwner), Leaving))
    ensures AllDone(d, Moving, [MoveFails(id), RemoveFolder(id), Close(id)]) == Some((d.(staging := None, owner := NoOwner), Leaving))
  {
    ThreeDone(d, Filling(folder), InitdbFails(id), RemoveFolder(id), Close(id), d, Cleaning, d.(staging := None), Closing);
    ThreeDone(d, Moving, MoveFails(id), RemoveFolder(id), Close(id), d, Cleaning, d.(staging := None), Closing);
  }

  /** A data folder with anything in it, a foreign setup folder, and one that cannot be removed end the start as they are. */
  lemma StopsAtWhatIsThere(d: Folders, id: Id, recorded: Owner)
    ensures Entries(d.data) > 0 ==> Done(d, Looking, Look(id)) == (d, Leaving)
    ensures d.staging.Some? && d.staging.value.entries != {} && recorded != Records(d.staging.value.id) ==>
              Done(d, Checking(recorded), Check(id)) == (d, Leaving)
    ensures Done(d, Removing, RemovalFails(id)) == (d, Leaving) && Done(d, Cleaning, RemovalFails(id)) == (d, Leaving)
    ensures d.staging.Some? ==> Done(d, Making, MakeFolder(id)) == (d, Leaving)
    ensures d.data.Some? ==> Done(d, Moving, Move(id)) == (d, Cleaning)
  {
  }
}
