/**
 * Restarting the servers against stopping them once, as the steps between one await and the
 * next (electron/restart.js, electron/shutdown.js; what they are given, electron/app-main.js).
 */
module Shutdown {
  import opened Wrappers
  import opened Runs

  const GRACE_MS := 5_000
  const DATABASE_MS := 15_000

  /** A server process: whether a restart spawned it, and whether it has exited. */
  datatype Server = Server(byRestart: bool, exited: bool)

  /** `respawn`, at the await it is waiting in. */
  datatype Restart = Idle | OpeningData | AwaitingApi | AwaitingUi

  /** `stopChild`: the child exited, or was sent SIGTERM, then SIGKILL, or was given up. */
  datatype Stopping = Exited | Terminated(first: int) | Killed(first: int, since: int) | GivenUp(first: int, at: int)

  datatype Slot = Slot(child: Option<nat>, stopping: Stopping)

  /** `run`, at the await it is waiting in. */
  datatype Stop =
    | NotCalled
    | WaitingForRestart(since: int)
    | StoppingServers(timedOut: bool, slots: seq<Slot>)
    | StoppingDatabase(timedOut: bool, slots: seq<Slot>, since: int)
    | Resolved(timedOut: bool, slots: seq<Slot>, all: bool)

  /**
   * The servers ever spawned; the two the app refers to; the API whose exit is watched; the
   * restart and the shutdown under way; the UIs a restart sent SIGTERM and let go of; and how
   * often the shutdown ran and the database was told to stop.
   */
  datatype State = State(servers: seq<Server>, api: Option<nat>, ui: Option<nat>, watched: Option<nat>,
                         restart: Restart, stop: Stop, now: int, letGo: set<nat>, runs: nat, databaseStops: nat)

  datatype Action =
    | Tick(to: int)
    | Exits(server: nat, sentinel: bool)
    | DataRefused
    | SpawnsApi
    | ApiOpens
    | UiOpens
    | RestartFails
    | CallShutdown
    | RestartSettled
    | RestartWaitEnds
    | ChildExited(slot: nat)
    | GraceEnds(slot: nat)
    | ServersDone
    | DatabaseEnds(stopped: bool)

  predicate IsStopping(s: State) { !s.stop.NotCalled? }

  function Slots(stop: Stop): seq<Slot> {
    match stop
    case StoppingServers(_, slots) => slots
    case StoppingDatabase(_, slots, _) => slots
    case Resolved(_, slots, _) => slots
    case _ => []
  }

  predicate HasExited(s: State, server: Option<nat>) {
    server.None? || (server.value < |s.servers| && s.servers[server.value].exited)
  }

  /** The slot waits for its child, since `limit` at the latest. */
  predicate Waited(slot: Slot, limit: int) {
    match slot.stopping
    case Terminated(first) => first <= limit
    case Killed(_, since) => since <= limit
    case _ => false
  }

  predicate Enabled(s: State, a: Action) {
    match a
    case Tick(to) => s.now <= to
    case Exits(p, _) => p < |s.servers| && !s.servers[p].exited
    case DataRefused => s.restart.OpeningData?
    case SpawnsApi => s.restart.OpeningData?
    case ApiOpens => s.restart.AwaitingApi?
    case UiOpens => s.restart.AwaitingUi?
    case RestartFails => !s.restart.Idle?
    case CallShutdown => true
    case RestartSettled => s.stop.WaitingForRestart? && s.restart.Idle?
    case RestartWaitEnds => s.stop.WaitingForRestart? && s.now >= s.stop.since + DATABASE_MS
    case ChildExited(i) => s.stop.StoppingServers? && i < |s.stop.slots| && Waited(s.stop.slots[i], s.now)
                           && HasExited(s, s.stop.slots[i].child)
    case GraceEnds(i) => s.stop.StoppingServers? && i < |s.stop.slots| && Waited(s.stop.slots[i], s.now - GRACE_MS)
    case ServersDone => s.stop.StoppingServers?
                        && forall i :: 0 <= i < |s.stop.slots| ==> s.stop.slots[i].stopping.Exited? || s.stop.slots[i].stopping.GivenUp?
    case DatabaseEnds(_) => s.stop.StoppingDatabase?
  }

  /** `stopChild` at once: nothing to do for a child that is gone, else SIGTERM. */
  function SlotFor(s: State, child: Option<nat>): Slot {
    Slot(child, if HasExited(s, child) then Exited else Terminated(s.now))
  }

  /** The wait for restarts is over: the children are whatever the app refers to now. */
  function BeginStopping(s: State, timedOut: bool): State {
    s.(stop := StoppingServers(timedOut, [SlotFor(s, s.api), SlotFor(s, s.ui)]))
  }

  function Restopped(stop: Stop, i: nat, stopping: Stopping): Stop
    requires stop.StoppingServers? && i < |stop.slots|
  {
    StoppingServers(stop.timedOut, stop.slots[i := Slot(stop.slots[i].child, stopping)])
  }

  function Apply(s: State, a: Action): State
    requires Enabled(s, a)
  {
    match a
    case Tick(to) => s.(now := to)
    case Exits(p, sentinel) =>
      var gone := s.(servers := s.servers[p := s.servers[p].(exited := true)]);
      if s.watched != Some(p) then gone
      else if IsStopping(s) || !sentinel then gone.(watched := None)
      // the UI is sent SIGTERM and let go of before the data is opened again
      else gone.(watched := None, ui := None, restart := OpeningData, letGo := s.letGo + (if s.ui.Some? then {s.ui.value} else {}))
    case DataRefused => s.(restart := Idle)
    case SpawnsApi => s.(servers := s.servers + [Server(true, false)], api := Some(|s.servers|), restart := AwaitingApi)
    case ApiOpens =>
      if IsStopping(s) then s.(restart := Idle)
      else s.(servers := s.servers + [Server(true, false)], ui := Some(|s.servers|), restart := AwaitingUi)
    case UiOpens =>
      if IsStopping(s) then s.(restart := Idle) else s.(restart := Idle, watched := s.api)
    case RestartFails => s.(restart := Idle)
    case CallShutdown => if IsStopping(s) then s else s.(stop := WaitingForRestart(s.now), runs := s.runs + 1)
    case RestartSettled => BeginStopping(s, false)
    case RestartWaitEnds => BeginStopping(s, true)
    case ChildExited(i) => s.(stop := Restopped(s.stop, i, Exited))
    case GraceEnds(i) =>
      var was := s.stop.slots[i].stopping;
      s.(stop := Restopped(s.stop, i, if was.Terminated? then Killed(was.first, s.now) else GivenUp(was.first, s.now)))
    case ServersDone =>
      s.(stop := StoppingDatabase(s.stop.timedOut, s.stop.slots, s.now), databaseStops := s.databaseStops + 1)
    case DatabaseEnds(stopped) =>
      s.(stop := Resolved(s.stop.timedOut, s.stop.slots,
                          stopped && forall i :: 0 <= i < |s.stop.slots| ==> s.stop.slots[i].stopping.Exited?))
  }

  /** The app once it has started: an API whose exit is watched, and a UI. */
  predicate Init(s: State) {
    && s.servers == [Server(false, false), Server(false, false)]
    && s.api == s.watched == Some(0) && s.ui == Some(1) && s.restart.Idle? && s.stop.NotCalled?
    && s.letGo == {} && s.runs == 0 && s.databaseStops == 0
  }

  // ---- What every run keeps -----------------------------------------------------------

  /** A server neither referred to nor let go of has exited. */
  ghost predicate Accounted(s: State, p: nat)
    requires p < |s.servers|
  {
    s.servers[p].exited || Some(p) == s.api || Some(p) == s.ui || p in s.letGo
  }

  /** A slot's child has exited where it says so, and was given both grace periods before it was given up. */
  ghost predicate SlotFits(s: State, slot: Slot) {
    && (slot.child.Some? ==> slot.child.value < |s.servers|)
    && match slot.stopping
       case Exited => HasExited(s, slot.child)
       case Terminated(first) => first <= s.now
       case Killed(first, since) => first + GRACE_MS <= since <= s.now
       case GivenUp(first, at) => first + 2 * GRACE_MS <= at <= s.now
  }

  ghost predicate RestartFits(s: State) {
    && (s.api.Some? ==> s.api.value < |s.servers|) && (s.ui.Some? ==> s.ui.value < |s.servers|)
    && (s.watched.Some? ==> s.watched == s.api && s.restart.Idle?)
    && (s.restart.OpeningData? ==> HasExited(s, s.api) && s.ui.None?)
    && (s.restart.AwaitingApi? ==> s.ui.None?)
    && (s.api.Some? ==> s.api != s.ui)
    && (forall p :: p in s.letGo ==> p < |s.servers| && Some(p) != s.api && Some(p) != s.ui)
  }

  ghost predicate AllAccounted(s: State) {
    forall p :: 0 <= p < |s.servers| ==> Accounted(s, p)
  }

  /** Once its wait for the restart was not cut short, the shutdown stops the very servers the app refers to. */
  ghost predicate StopFits(s: State) {
    var slots := Slots(s.stop);
    && (forall i :: 0 <= i < |slots| ==> SlotFits(s, slots[i]))
    && (s.stop.NotCalled? || s.stop.WaitingForRestart? || |slots| == 2)
    && (|slots| == 2 && !s.stop.timedOut ==> s.restart.Idle? && s.api == slots[0].child && s.ui == slots[1].child)
    && (s.stop.StoppingDatabase? || s.stop.Resolved? ==> AllDone(slots))
    && (s.stop.Resolved? && s.stop.all ==> forall i :: 0 <= i < |slots| ==> slots[i].stopping.Exited?)
  }

  ghost predicate AllDone(slots: seq<Slot>) {
    forall i :: 0 <= i < |slots| ==> slots[i].stopping.Exited? || slots[i].stopping.GivenUp?
  }

  ghost predicate Inv(s: State) {
    && RestartFits(s) && AllAccounted(s) && StopFits(s)
    && s.runs == (if s.stop.NotCalled? then 0 else 1)
    && s.databaseStops == (if s.stop.StoppingDatabase? || s.stop.Resolved? then 1 else 0)
  }

  /** Time goes on, servers are only added, and one that is gone stays gone. */
  ghost predicate Onward(s: State, t: State) {
    && s.now <= t.now && |s.servers| <= |t.servers|
    && (forall p :: 0 <= p < |s.servers| && s.servers[p].exited ==> t.servers[p].exited)
  }

  lemma StepGoesOnward(s: State, a: Action)
    requires Enabled(s, a)
    ensures Onward(s, Apply(s, a))
  {
  }

  lemma StillAccounted(s: State, a: Action, p: nat)
    requires Inv(s) && Enabled(s, a) && p < |Apply(s, a).servers|
    ensures Accounted(Apply(s, a), p)
  {
    if p < |s.servers| {
      assert Accounted(s, p);
    }
  }

  lemma AllStayAccounted(s: State, a: Action)
    requires Inv(s) && Enabled(s, a)
    ensures AllAccounted(Apply(s, a))
  {
    forall p | 0 <= p < |Apply(s, a).servers|
      ensures Accounted(Apply(s, a), p)
    {
      StillAccounted(s, a, p);
    }
  }

  lemma SlotStillFits(s: State, t: State, slot: Slot)
    requires SlotFits(s, slot) && Onward(s, t)
    ensures SlotFits(t, slot)
  {
  }

  /** A slot changes only as its child's wait does. */
  lemma SlotBefore(s: State, a: Action, i: nat)
    requires Enabled(s, a) && i < |Slots(Apply(s, a).stop)| && !a.RestartSettled? && !a.RestartWaitEnds?
    ensures i < |Slots(s.stop)|
    ensures Slots(Apply(s, a).stop)[i] == Slots(s.stop)[i] || a == ChildExited(i) || a == GraceEnds(i)
  {
  }

  lemma SlotStaysFit(s: State, a: Action, i: nat)
    requires Inv(s) && Enabled(s, a) && i < |Slots(Apply(s, a).stop)|
    ensures SlotFits(Apply(s, a), Slots(Apply(s, a).stop)[i])
  {
    if !a.RestartSettled? && !a.RestartWaitEnds? {
      StepGoesOnward(s, a);
      SlotBefore(s, a, i);
      SlotStillFits(s, Apply(s, a), Slots(s.stop)[i]);
    }
  }

  lemma ChildrenStay(s: State, a: Action)
    requires Inv(s) && Enabled(s, a)
    ensures var t := Apply(s, a); var slots := Slots(t.stop);
      && (t.stop.NotCalled? || t.stop.WaitingForRestart? || |slots| == 2)
      && (|slots| == 2 && !t.stop.timedOut ==> t.restart.Idle? && t.api == slots[0].child && t.ui == slots[1].child)
  {
  }

  lemma EndFits(s: State, a: Action)
    requires Inv(s) && Enabled(s, a)
    ensures var t := Apply(s, a); var slots := Slots(t.stop);
      && (t.stop.StoppingDatabase? || t.stop.Resolved? ==> AllDone(slots))
      && (t.stop.Resolved? && t.stop.all ==> forall i :: 0 <= i < |slots| ==> slots[i].stopping.Exited?)
  {
  }

  lemma StopStaysFit(s: State, a: Action)
    requires Inv(s) && Enabled(s, a)
    ensures StopFits(Apply(s, a))
  {
    ChildrenStay(s, a);
    EndFits(s, a);
    forall i | 0 <= i < |Slots(Apply(s, a).stop)|
      ensures SlotFits(Apply(s, a), Slots(Apply(s, a).stop)[i])
    {
      SlotStaysFit(s, a, i);
    }
  }

  lemma RestartStaysFit(s: State, a: Action)
    requires Inv(s) && Enabled(s, a)
    ensures RestartFits(Apply(s, a))
  {
  }

  lemma StepKeeps(s: State, a: Action)
    requires Inv(s) && Enabled(s, a)
    ensures Inv(Apply(s, a))
  {
    AllStayAccounted(s, a);
    StopStaysFit(s, a);
    RestartStaysFit(s, a);
  }

  // ---- Runs ---------------------------------------------------------------------------

  function Step(s: State, a: Action): Option<State> {
    if Enabled(s, a) then Some(Apply(s, a)) else None
  }

  lemma RunKeeps(s: State, actions: seq<Action>, t: State)
    requires (Init(s) || Inv(s)) && Leads(Step, s, actions, t)
    ensures Inv(t)
  {
    forall x, a | Inv(x) && Step(x, a).Some?
      ensures Inv(Step(x, a).value)
    {
      StepKeeps(x, a);
    }
    assert Inv(s);
    Kept(Step, Inv, s, actions, t);
  }

  /** However often it is called, the shutdown runs once, and tells the database to stop at most once. */
  lemma ShutdownRunsOnce(s: State, actions: seq<Action>, t: State)
    requires Init(s) && Leads(Step, s, actions, t)
    ensures t.runs <= 1 && t.databaseStops <= t.runs && (t.runs == 1 <==> IsStopping(t))
  {
    RunKeeps(s, actions, t);
  }

  /** The database is told to stop only after each server it stops has exited or used up both its grace periods. */
  lemma DatabaseStopsLast(s: State, actions: seq<Action>, t: State)
    requires Init(s) && Leads(Step, s, actions, t) && t.databaseStops > 0
    ensures |Slots(t.stop)| == 2
    ensures forall i :: 0 <= i < 2 ==> var slot := Slots(t.stop)[i];
      (slot.stopping.Exited? && HasExited(t, slot.child))
      || (slot.stopping.GivenUp? && slot.stopping.first + 2 * GRACE_MS <= slot.stopping.at <= t.now)
  {
    RunKeeps(s, actions, t);
    forall i | 0 <= i < 2
      ensures SlotFits(t, Slots(t.stop)[i])
    {
    }
  }

  /** The promise is given: resolved true. */
  predicate ResolvedTrue(t: State) { t.stop.Resolved? && t.stop.all }

  ghost predicate AllExited(t: State) {
    forall p :: 0 <= p < |t.servers| ==> t.servers[p].exited
  }

  /** What can be seen as the shutdown is called: no UI a restart let go of is still there. */
  ghost predicate NoneLetGoIsLeft(s: State) {
    forall p :: p in s.letGo && p < |s.servers| ==> s.servers[p].exited
  }

  /** Once the shutdown is called no UI is let go of any more, and a server that is gone stays gone. */
  ghost predicate SinceTheCall(s: State, t: State) {
    && IsStopping(t) && t.letGo == s.letGo && |s.servers| <= |t.servers|
    && (forall p :: 0 <= p < |s.servers| && s.servers[p].exited ==> t.servers[p].exited)
  }

  lemma {:induction false} LetGoStays(s: State, now: State, actions: seq<Action>, t: State)
    requires SinceTheCall(s, now) && Leads(Step, now, actions, t)
    ensures SinceTheCall(s, t)
    decreases |actions|
  {
    if actions != [] {
      LetGoStays(s, Apply(now, actions[0]), actions[1..], t);
    }
  }

  /** No restart has an API still to spawn, and the children being stopped are those the app refers to. */
  ghost predicate Settled(t: State) {
    && IsStopping(t) && !t.restart.OpeningData?
    && (|Slots(t.stop)| == 2 ==> t.api == Slots(t.stop)[0].child && t.ui == Slots(t.stop)[1].child)
  }

  lemma StaysSettled(s: State, a: Action)
    requires Settled(s) && Enabled(s, a)
    ensures Settled(Apply(s, a)) && |Apply(s, a).servers| == |s.servers|
  {
  }

  lemma {:induction false} RunStaysSettled(s: State, actions: seq<Action>, t: State)
    requires Settled(s) && Leads(Step, s, actions, t)
    ensures Settled(t) && |t.servers| == |s.servers|
    decreases |actions|
  {
    if actions != [] {
      StaysSettled(s, actions[0]);
      RunStaysSettled(Apply(s, actions[0]), actions[1..], t);
    }
  }

  lemma LeftAreLetGo(t: State)
    requires Inv(t) && ResolvedTrue(t) && Settled(t)
    ensures forall p :: 0 <= p < |t.servers| && !t.servers[p].exited ==> p in t.letGo
  {
    assert SlotFits(t, t.stop.slots[0]) && SlotFits(t, t.stop.slots[1]);
    forall p | 0 <= p < |t.servers| && !t.servers[p].exited
      ensures p in t.letGo
    {
      assert Accounted(t, p);
    }
  }

  /**
   * Called with none let go of left, it resolves true only once every server ever spawned has exited: when
   * no restart was opening the data as it was called, or else when its wait was not cut short.
   */
  lemma EveryServerIsGone(s: State, actions: seq<Action>, t: State)
    requires Inv(s) && !IsStopping(s) && NoneLetGoIsLeft(s)
    requires Leads(Step, Apply(s, CallShutdown), actions, t) && ResolvedTrue(t)
    requires !s.restart.OpeningData? || !t.stop.timedOut
    ensures AllExited(t) && !t.restart.OpeningData? && (!t.stop.timedOut ==> t.restart.Idle?)
  {
    StepKeeps(s, CallShutdown);
    RunKeeps(Apply(s, CallShutdown), actions, t);
    LetGoStays(s, Apply(s, CallShutdown), actions, t);
    if !s.restart.OpeningData? {
      RunStaysSettled(Apply(s, CallShutdown), actions, t);
    }
    LeftAreLetGo(t);
  }

  /** And none is spawned later, whatever happens, its wait cut short or not: unless a restart is still opening the data. */
  lemma {:induction false} NoneIsSpawnedLater(t: State, actions: seq<Action>, u: State)
    requires Inv(t) && t.stop.Resolved? && !t.restart.OpeningData? && Leads(Step, t, actions, u)
    ensures |u.servers| == |t.servers| && u.stop == t.stop && !u.restart.OpeningData?
    ensures !t.stop.timedOut ==> u.restart.Idle?
    decreases |actions|
  {
    if actions != [] {
      StepKeeps(t, actions[0]);
      NoneIsSpawnedLater(Apply(t, actions[0]), actions[1..], u);
    }
  }

  // ---- And when one is left -------------------------------------------------------------

  /** A shutdown under way, or ended, with server `p` alive and let go of. */
  ghost predicate Outlived(s: State, p: nat) {
    Inv(s) && p in s.letGo && p < |s.servers| && !s.servers[p].exited
  }

  /** A restart under way fails, and the shutdown goes on to the servers. */
  lemma RestartGivesWay(s: State, p: nat) returns (actions: seq<Action>, t: State)
    requires Outlived(s, p) && s.stop.WaitingForRestart?
    ensures Leads(Step, s, actions, t) && Outlived(t, p) && t.stop.StoppingServers? && !t.stop.timedOut
    ensures forall i :: 0 <= i < |t.stop.slots| ==> t.stop.slots[i].stopping.Exited? || t.stop.slots[i].stopping.Terminated?
  {
    var idle := if s.restart.Idle? then s else Apply(s, RestartFails);
    if !s.restart.Idle? {
      StepKeeps(s, RestartFails);
    }
    StepKeeps(idle, RestartSettled);
    t := Apply(idle, RestartSettled);
    One(Step, idle, RestartSettled, t);
    if s.restart.Idle? {
      actions := [RestartSettled];
    } else {
      Two(Step, s, RestartFails, idle, RestartSettled, t);
      actions := [RestartFails, RestartSettled];
    }
  }

  /** A child sent SIGTERM exits, and its slot says so. */
  lemma ChildGoes(s: State, p: nat, i: nat) returns (actions: seq<Action>, t: State)
    requires Outlived(s, p) && s.stop.StoppingServers? && !s.stop.timedOut && i < |s.stop.slots|
    requires s.stop.slots[i].stopping.Terminated?
    ensures Leads(Step, s, actions, t) && Outlived(t, p)
    ensures t.stop == Restopped(s.stop, i, Exited)
  {
    assert SlotFits(s, s.stop.slots[i]);
    var child := s.stop.slots[i].child;
    assert child.Some? ==> child.value != p;
    if HasExited(s, child) {
      t := Apply(s, ChildExited(i));
      StepKeeps(s, ChildExited(i));
      One(Step, s, ChildExited(i), t);
      actions := [ChildExited(i)];
    } else {
      var gone := Apply(s, Exits(child.value, false));
      StepKeeps(s, Exits(child.value, false));
      t := Apply(gone, ChildExited(i));
      StepKeeps(gone, ChildExited(i));
      Two(Step, s, Exits(child.value, false), gone, ChildExited(i), t);
      actions := [Exits(child.value, false), ChildExited(i)];
    }
  }

  lemma ChildrenGo(s: State, p: nat) returns (actions: seq<Action>, t: State)
    requires Outlived(s, p) && s.stop.StoppingServers? && !s.stop.timedOut
    requires forall i :: 0 <= i < |s.stop.slots| ==> s.stop.slots[i].stopping.Exited? || s.stop.slots[i].stopping.Terminated?
    ensures Leads(Step, s, actions, t) && Outlived(t, p) && t.stop.StoppingServers? && !t.stop.timedOut
    ensures forall i :: 0 <= i < |t.stop.slots| ==> t.stop.slots[i].stopping.Exited?
    decreases (if s.stop.slots[0].stopping.Terminated? then 1 else 0) + (if s.stop.slots[1].stopping.Terminated? then 1 else 0)
  {
    if i :| 0 <= i < |s.stop.slots| && s.stop.slots[i].stopping.Terminated? {
      var first, m := ChildGoes(s, p, i);
      var rest;
      rest, t := ChildrenGo(m, p);
      LeadsThrough(Step, s, first, m, rest, t);
      actions := first + rest;
    } else {
      actions, t := [], s;
    }
  }

  lemma ServersAreDone(s: State, p: nat) returns (actions: seq<Action>, t: State)
    requires Outlived(s, p) && s.stop.StoppingServers? && !s.stop.timedOut
    requires forall i :: 0 <= i < |s.stop.slots| ==> s.stop.slots[i].stopping.Exited?
    ensures Leads(Step, s, actions, t) && ResolvedTrue(t) && !t.stop.timedOut && Outlived(t, p)
  {
    var database := Apply(s, ServersDone);
    StepKeeps(s, ServersDone);
    t := Apply(database, DatabaseEnds(true));
    StepKeeps(database, DatabaseEnds(true));
    Two(Step, s, ServersDone, database, DatabaseEnds(true), t);
    actions := [ServersDone, DatabaseEnds(true)];
  }

  /** Whatever the rest of the state at the call, a UI let go of and left can outlive a shutdown that resolves true. */
  lemma LetGoUiOutlives(s: State, p: nat) returns (actions: seq<Action>, t: State)
    requires Outlived(s, p) && !IsStopping(s)
    ensures Leads(Step, Apply(s, CallShutdown), actions, t) && ResolvedTrue(t) && !t.stop.timedOut && !AllExited(t)
  {
    var called := Apply(s, CallShutdown);
    StepKeeps(s, CallShutdown);
    var a, m := RestartGivesWay(called, p);
    var b, n := ChildrenGo(m, p);
    LeadsThrough(Step, called, a, m, b, n);
    var c;
    c, t := ServersAreDone(n, p);
    LeadsThrough(Step, called, a + b, n, c, t);
    actions := a + b + c;
  }

  // ---- And when a restart is opening the data -------------------------------------------

  /** The wait for a restart still opening the data is cut short: neither the API nor the UI is there to stop. */
  lemma WaitIsCutShort(s: State) returns (actions: seq<Action>, t: State)
    requires Inv(s) && !IsStopping(s) && s.restart.OpeningData?
    ensures Leads(Step, Apply(s, CallShutdown), actions, t) && Inv(t) && t.restart.OpeningData?
    ensures t.stop.StoppingServers? && forall i :: 0 <= i < |t.stop.slots| ==> t.stop.slots[i].stopping.Exited?
  {
    var called := Apply(s, CallShutdown);
    StepKeeps(s, CallShutdown);
    var late := Apply(called, Tick(s.now + DATABASE_MS));
    StepKeeps(called, Tick(s.now + DATABASE_MS));
    t := Apply(late, RestartWaitEnds);
    StepKeeps(late, RestartWaitEnds);
    Two(Step, called, Tick(s.now + DATABASE_MS), late, RestartWaitEnds, t);
    actions := [Tick(s.now + DATABASE_MS), RestartWaitEnds];
  }

  /** It then spawns its API, which the shutdown never hears of. */
  lemma SpawnedBehind(s: State) returns (actions: seq<Action>, t: State)
    requires Inv(s) && s.restart.OpeningData? && s.stop.StoppingServers?
    requires forall i :: 0 <= i < |s.stop.slots| ==> s.stop.slots[i].stopping.Exited?
    ensures Leads(Step, s, actions, t) && ResolvedTrue(t) && !AllExited(t)
  {
    var spawned := Apply(s, SpawnsApi);
    var database := Apply(spawned, ServersDone);
    t := Apply(database, DatabaseEnds(true));
    Two(Step, s, SpawnsApi, spawned, ServersDone, database);
    One(Step, database, DatabaseEnds(true), t);
    LeadsThrough(Step, s, [SpawnsApi, ServersDone], database, [DatabaseEnds(true)], t);
    actions := [SpawnsApi, ServersDone] + [DatabaseEnds(true)];
    assert !t.servers[|s.servers|].exited;
  }

  /** So an API can outlive a shutdown called while a restart is opening the data, none let go of left or not. */
  lemma NewApiOutlives(s: State) returns (actions: seq<Action>, t: State)
    requires Inv(s) && !IsStopping(s) && s.restart.OpeningData?
    ensures Leads(Step, Apply(s, CallShutdown), actions, t) && ResolvedTrue(t) && !AllExited(t)
  {
    var a, m := WaitIsCutShort(s);
    var b;
    b, t := SpawnedBehind(m);
    LeadsThrough(Step, Apply(s, CallShutdown), a, m, b, t);
    actions := a + b;
  }

  // ---- When the promise holds -----------------------------------------------------------

  /** Called in `s`, the shutdown can end in `t`, resolved true. */
  ghost predicate CanResolveTrue(s: State, actions: seq<Action>, t: State) {
    Leads(Step, Apply(s, CallShutdown), actions, t) && ResolvedTrue(t)
  }

  /**
   * So resolving true means what it promises, that every server has exited, exactly when at the call no UI
   * a restart let go of is left and no restart is opening the data.
   */
  lemma ResolvesTrueExactly(s: State)
    requires Inv(s) && !IsStopping(s)
    ensures NoneLetGoIsLeft(s) && !s.restart.OpeningData?
       <==> forall actions, t :: CanResolveTrue(s, actions, t) ==> AllExited(t)
  {
    if NoneLetGoIsLeft(s) && !s.restart.OpeningData? {
      forall actions, t | CanResolveTrue(s, actions, t)
        ensures AllExited(t)
      {
        EveryServerIsGone(s, actions, t);
      }
    } else {
      var actions, t;
      if s.restart.OpeningData? {
        actions, t := NewApiOutlives(s);
      } else {
        var p :| p in s.letGo && p < |s.servers| && !s.servers[p].exited;
        actions, t := LetGoUiOutlives(s, p);
      }
      assert CanResolveTrue(s, actions, t);
    }
  }

  /** Of a shutdown whose wait for a restart is not cut short: exactly when no UI let go of is left. */
  lemma UncutResolvesTrueExactly(s: State)
    requires Inv(s) && !IsStopping(s)
    ensures NoneLetGoIsLeft(s)
       <==> forall actions, t :: CanResolveTrue(s, actions, t) && !t.stop.timedOut ==> AllExited(t)
  {
    if NoneLetGoIsLeft(s) {
      forall actions, t | CanResolveTrue(s, actions, t) && !t.stop.timedOut
        ensures AllExited(t)
      {
        EveryServerIsGone(s, actions, t);
      }
    } else {
      var p :| p in s.letGo && p < |s.servers| && !s.servers[p].exited;
      var actions, t := LetGoUiOutlives(s, p);
      assert CanResolveTrue(s, actions, t);
    }
  }

  function Started(): State {
    State([Server(false, false), Server(false, false)], Some(0), Some(1), Some(0), Idle, NotCalled, 0, {}, 0, 0)
  }

  /** And such a state is reached: a restart lets go of a UI that ignores SIGTERM, and cannot open the data. */
  lemma OneIsLeft() returns (actions: seq<Action>, s: State)
    ensures Init(Started()) && Leads(Step, Started(), actions, s) && !IsStopping(s) && s.restart.Idle? && !NoneLetGoIsLeft(s)
  {
    var opening := Apply(Started(), Exits(0, true));
    s := Apply(opening, DataRefused);
    Two(Step, Started(), Exits(0, true), opening, DataRefused, s);
    actions := [Exits(0, true), DataRefused];
    assert 1 in s.letGo && !s.servers[1].exited;
  }

  /** As is one with none let go of left in which a restart is opening the data. */
  lemma OneIsOpening() returns (actions: seq<Action>, s: State)
    ensures Init(Started()) && Leads(Step, Started(), actions, s) && !IsStopping(s)
    ensures NoneLetGoIsLeft(s) && s.restart.OpeningData?
  {
    var opening := Apply(Started(), Exits(0, true));
    s := Apply(opening, Exits(1, false));
    Two(Step, Started(), Exits(0, true), opening, Exits(1, false), s);
    actions := [Exits(0, true), Exits(1, false)];
  }

  // ---- One restart after another ----------------------------------------------------------

  predicate Alive(s: State, server: Option<nat>) {
    server.Some? && server.value < |s.servers| && !s.servers[server.value].exited
  }

  /** Nothing is under way, and the exit of the API is watched. */
  ghost predicate Running(s: State) {
    Inv(s) && !IsStopping(s) && s.restart.Idle? && s.watched == s.api && Alive(s, s.api) && s.ui.Some?
  }

  /** A restart that completes watches the API it spawned: its exit, asked for, begins the next. */
  lemma NextRestartBegins(s: State)
    requires Inv(s) && !IsStopping(s) && s.restart.AwaitingUi? && Alive(s, s.api)
    ensures var up := Apply(s, UiOpens);
      && up.restart.Idle? && Enabled(up, Exits(s.api.value, true))
      && Apply(up, Exits(s.api.value, true)).restart.OpeningData?
      && Apply(up, Exits(s.api.value, false)).restart.Idle?
  {
  }

  /** While the app is stopping no exit begins a restart, nor one of a server that is not watched, nor one not asked for. */
  lemma NoRestartUnasked(s: State, p: nat, sentinel: bool)
    requires Enabled(s, Exits(p, sentinel)) && (IsStopping(s) || s.watched != Some(p) || !sentinel)
    ensures var t := Apply(s, Exits(p, sentinel));
      && t.restart == s.restart && t.ui == s.ui && t.letGo == s.letGo && |t.servers| == |s.servers| && t.servers[p].exited
      && t.watched == (if s.watched == Some(p) then None else s.watched)
  {
  }

  function OneRestart(api: nat): seq<Action> { [Exits(api, true), SpawnsApi] + [ApiOpens, UiOpens] }

  /** The exit of the API asked for: both servers are spawned anew, and the UI that was there is let go of. */
  lemma RestartCompletes(s: State) returns (t: State)
    requires Running(s)
    ensures Leads(Step, s, OneRestart(s.api.value), t) && Running(t)
    ensures |t.servers| == |s.servers| + 2 && t.api == Some(|s.servers|) && t.ui == Some(|s.servers| + 1)
    ensures Alive(t, t.api) && Alive(t, t.ui) && t.servers[s.api.value].exited && t.letGo == s.letGo + {s.ui.value}
    ensures t.servers[t.api.value].byRestart && t.servers[t.ui.value].byRestart
  {
    var opening := Apply(s, Exits(s.api.value, true));
    StepKeeps(s, Exits(s.api.value, true));
    var spawned := Apply(opening, SpawnsApi);
    StepKeeps(opening, SpawnsApi);
    var open := Apply(spawned, ApiOpens);
    StepKeeps(spawned, ApiOpens);
    t := Apply(open, UiOpens);
    StepKeeps(open, UiOpens);
    Two(Step, s, Exits(s.api.value, true), opening, SpawnsApi, spawned);
    Two(Step, spawned, ApiOpens, open, UiOpens, t);
    LeadsThrough(Step, s, [Exits(s.api.value, true), SpawnsApi], spawned, [ApiOpens, UiOpens], t);
  }

  /** `k` restarts, each begun by the exit of the API the one before it spawned. */
  function Restarts(api: nat, servers: nat, k: nat): seq<Action>
    decreases k
  {
    if k == 0 then [] else OneRestart(api) + Restarts(servers, servers + 2, k - 1)
  }

  /** One restart can follow another any number of times. */
  lemma {:induction false} RestartsGoOn(s: State, k: nat) returns (t: State)
    requires Running(s)
    ensures Leads(Step, s, Restarts(s.api.value, |s.servers|, k), t) && Running(t) && |t.servers| == |s.servers| + 2 * k
    decreases k
  {
    if k == 0 {
      t := s;
    } else {
      var m := RestartCompletes(s);
      t := RestartsGoOn(m, k - 1);
      LeadsThrough(Step, s, OneRestart(s.api.value), m, Restarts(m.api.value, |m.servers|, k - 1), t);
    }
  }

  lemma StartedRuns()
    ensures Running(Started())
  {
    assert Init(Started());
  }

  // ---- Whatever the servers do --------------------------------------------------------------

  function Later(a: int, b: int): int { if a < b then b else a }

  /** A child that stays is sent SIGKILL once its grace is over, and given up after another. */
  lemma GraceRunsOut(s: State, i: nat) returns (actions: seq<Action>, t: State)
    requires Inv(s) && s.stop.StoppingServers? && i < |s.stop.slots|
    requires s.stop.slots[i].stopping.Terminated? || s.stop.slots[i].stopping.Killed?
    ensures Leads(Step, s, actions, t) && Inv(t) && t.servers == s.servers && t.restart == s.restart
    ensures var was := s.stop.slots[i].stopping;
      && t.now == Later(s.now, (if was.Terminated? then was.first else was.since) + GRACE_MS)
      && t.stop == Restopped(s.stop, i, if was.Terminated? then Killed(was.first, t.now) else GivenUp(was.first, t.now))
  {
    var was := s.stop.slots[i].stopping;
    var to := Later(s.now, (if was.Terminated? then was.first else was.since) + GRACE_MS);
    var late := Apply(s, Tick(to));
    StepKeeps(s, Tick(to));
    t := Apply(late, GraceEnds(i));
    StepKeeps(late, GraceEnds(i));
    Two(Step, s, Tick(to), late, GraceEnds(i), t);
    actions := [Tick(to), GraceEnds(i)];
  }

  function Left(slot: Slot): nat {
    if slot.stopping.Terminated? then 2 else if slot.stopping.Killed? then 1 else 0
  }

  lemma ServersGiveWay(s: State) returns (actions: seq<Action>, t: State)
    requires Inv(s) && s.stop.StoppingServers?
    ensures Leads(Step, s, actions, t) && Inv(t) && t.stop.StoppingServers? && AllDone(t.stop.slots)
    ensures t.servers == s.servers && t.restart == s.restart
    decreases Left(s.stop.slots[0]) + Left(s.stop.slots[1])
  {
    if i :| 0 <= i < 2 && Left(s.stop.slots[i]) > 0 {
      var first, m := GraceRunsOut(s, i);
      var rest;
      rest, t := ServersGiveWay(m);
      LeadsThrough(Step, s, first, m, rest, t);
      actions := first + rest;
    } else {
      actions, t := [], s;
    }
  }

  /** A shutdown comes to an end although no server ever exits, the restart never settles and the database never answers. */
  lemma ShutdownEnds(s: State) returns (actions: seq<Action>, t: State)
    requires Inv(s) && IsStopping(s)
    ensures Leads(Step, s, actions, t) && t.stop.Resolved? && t.servers == s.servers && t.restart == s.restart
    ensures !s.stop.Resolved? ==> !t.stop.all
    decreases match s.stop case WaitingForRestart(_) => 3 case StoppingServers(_, _) => 2 case StoppingDatabase(_, _, _) => 1 case _ => 0
  {
    match s.stop {
      case Resolved(_, _, _) => actions, t := [], s;
      case StoppingDatabase(_, _, _) =>
        t := Apply(s, DatabaseEnds(false));
        One(Step, s, DatabaseEnds(false), t);
        actions := [DatabaseEnds(false)];
      case StoppingServers(_, _) =>
        var first, m := ServersGiveWay(s);
        var done := Apply(m, ServersDone);
        StepKeeps(m, ServersDone);
        One(Step, m, ServersDone, done);
        var rest;
        rest, t := ShutdownEnds(done);
        LeadsThrough(Step, m, [ServersDone], done, rest, t);
        LeadsThrough(Step, s, first, m, [ServersDone] + rest, t);
        actions := first + ([ServersDone] + rest);
      case WaitingForRestart(since) =>
        var to := Later(s.now, since + DATABASE_MS);
        var late := Apply(s, Tick(to));
        StepKeeps(s, Tick(to));
        var begun := Apply(late, RestartWaitEnds);
        StepKeeps(late, RestartWaitEnds);
        Two(Step, s, Tick(to), late, RestartWaitEnds, begun);
        var rest;
        rest, t := ShutdownEnds(begun);
        LeadsThrough(Step, s, [Tick(to), RestartWaitEnds], begun, rest, t);
        actions := [Tick(to), RestartWaitEnds] + rest;
      case NotCalled => assert false;
    }
  }

  /** Once the app is stopping, a restart that gets its API or its UI open goes no further, and settles. */
  lemma RestartSettlesWhileStopping(s: State)
    requires IsStopping(s)
    ensures s.restart.AwaitingApi? ==> Apply(s, ApiOpens) == s.(restart := Idle)
    ensures s.restart.AwaitingUi? ==> Apply(s, UiOpens) == s.(restart := Idle)
    ensures s.restart.OpeningData? ==> Apply(s, DataRefused) == s.(restart := Idle)
  {
  }

  /** When the shutdown began, as long as it waits for a restart. */
  ghost predicate CutShortLate(s: State, called: int) {
    && s.now >= called
    && (s.stop.WaitingForRestart? ==> s.stop.since >= called)
    && (|Slots(s.stop)| == 2 && s.stop.timedOut ==> s.now >= called + DATABASE_MS)
  }

  lemma {:induction false} WaitIsFifteenSeconds(s: State, actions: seq<Action>, t: State, called: int)
    requires IsStopping(s) && CutShortLate(s, called) && Leads(Step, s, actions, t)
    ensures CutShortLate(t, called)
    decreases |actions|
  {
    if actions != [] {
      WaitIsFifteenSeconds(Apply(s, actions[0]), actions[1..], t, called);
    }
  }

  /** A restart under way has fifteen seconds from the call before the shutdown goes on without it. */
  lemma RestartHasItsTime(s: State, actions: seq<Action>, t: State)
    requires Inv(s) && !IsStopping(s) && Leads(Step, Apply(s, CallShutdown), actions, t) && t.stop.Resolved? && t.stop.timedOut
    ensures t.now >= s.now + DATABASE_MS
  {
    StepKeeps(s, CallShutdown);
    RunKeeps(Apply(s, CallShutdown), actions, t);
    WaitIsFifteenSeconds(Apply(s, CallShutdown), actions, t, s.now);
  }

  ghost predicate GivenUpAt(s: State, i: nat) {
    i < |Slots(s.stop)| && Slots(s.stop)[i].stopping.GivenUp?
  }

  lemma {:induction false} StaysGivenUp(s: State, actions: seq<Action>, t: State, i: nat)
    requires Inv(s) && GivenUpAt(s, i) && Leads(Step, s, actions, t)
    ensures Inv(t) && GivenUpAt(t, i)
    decreases |actions|
  {
    if actions != [] {
      StepKeeps(s, actions[0]);
      StaysGivenUp(Apply(s, actions[0]), actions[1..], t, i);
    }
  }

  /** A server given up makes the shutdown resolve false, even if it exits before the database has stopped. */
  lemma GivenUpIsToldSo(s: State, actions: seq<Action>, t: State, i: nat)
    requires Inv(s) && GivenUpAt(s, i) && Leads(Step, s, actions, t) && t.stop.Resolved?
    ensures !t.stop.all
  {
    StaysGivenUp(s, actions, t, i);
  }

  /** It resolves true when each child has exited and the database has stopped, and not otherwise. */
  lemma AnswersTruly(s: State, stopped: bool)
    requires Inv(s) && Enabled(s, DatabaseEnds(stopped))
    ensures Apply(s, DatabaseEnds(stopped)).stop.all <==>
              stopped && forall i :: 0 <= i < |s.stop.slots| ==> s.stop.slots[i].stopping.Exited?
  {
  }

  /**
   * A restart goes from one await to the next, or gives up; servers are spawned only as it does, a server
   * exits once, and an exit comes to be watched only when a restart completes.
   */
  lemma OneAwaitAfterAnother(s: State, a: Action)
    requires Inv(s) && Enabled(s, a)
    ensures var t := Apply(s, a);
      && (t.restart != s.restart && !t.restart.Idle? ==>
            match t.restart
            case OpeningData => s.restart.Idle? && a.Exits? && s.watched == Some(a.server)
            case AwaitingApi => s.restart.OpeningData?
            case AwaitingUi => s.restart.AwaitingApi?
            case Idle => true)
      && (|t.servers| != |s.servers| ==>
            |t.servers| == |s.servers| + 1 && t.restart != s.restart && (t.restart.AwaitingApi? || t.restart.AwaitingUi?))
      && (t.watched != s.watched && t.watched.Some? ==> s.restart.AwaitingUi? && t.restart.Idle? && t.watched == t.api)
      && (a.Exits? ==> !s.servers[a.server].exited && t.servers[a.server].exited)
      && (a.DataRefused? || a.RestartFails? || a.UiOpens? ==> !s.restart.Idle? && t.restart.Idle?)
      && (a.DataRefused? ==> s.restart.OpeningData?)
  {
  }
}
