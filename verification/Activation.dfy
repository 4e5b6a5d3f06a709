/**
 * Who this install is to the cloud: identity, verifier and activation, each changed under the
 * config lock by any number of processes (celerp/config.py).
 */
module Activation {
  import opened Wrappers
  import opened Runs

  /** The [cloud] section's values; an empty string stands for an absent one where the source reads both alike. */
  datatype Cloud = Cloud(token: Option<string>, instanceId: string, verifier: string, disconnected: bool,
                         publicUrl: string, tosVersion: string, backupKey: string)

  /** What a process keeps of it in memory. */
  datatype Settings = Settings(instanceId: string, verifier: string)

  /** `record_cloud_activation`'s arguments. */
  datatype Activate = Activate(token: string, instanceId: string, publicUrl: string, tosVersion: string, backupKey: string,
                               expectedKey: Option<string>, expectedVerifier: Option<string>, keepDisconnected: bool)

  // ---- The locked updates -------------------------------------------------------------

  /** An activation is accepted unless a disconnect stands, or what it expected has changed meanwhile. */
  predicate Accepts(cloud: Cloud, a: Activate) {
    && (cloud.disconnected ==> a.keepDisconnected)
    && (a.expectedKey.Some? ==>
          cloud.token == a.expectedKey && (cloud.verifier == "" || cloud.instanceId == "" || cloud.instanceId == a.instanceId))
    && (a.expectedVerifier.Some? ==>
          cloud.verifier == a.expectedVerifier.value && (cloud.instanceId == "" || cloud.instanceId == a.instanceId))
  }

  function Accepted(cloud: Cloud, a: Activate): Cloud {
    Cloud(Some(a.token), a.instanceId, if a.expectedVerifier.Some? then "" else cloud.verifier, cloud.disconnected, a.publicUrl,
          if a.tosVersion != "" then a.tosVersion else cloud.tosVersion, if a.backupKey != "" then a.backupKey else cloud.backupKey)
  }

  function WithIdentity(cloud: Cloud, freshId: string, freshVerifier: Option<string>): Cloud {
    cloud.(instanceId := if cloud.instanceId != "" then cloud.instanceId else freshId,
           verifier := if cloud.verifier != "" || freshVerifier.None? then cloud.verifier else freshVerifier.value)
  }

  /** The section as a mutator changes it, under the lock. */
  class CloudFile {
    var cloud: Cloud

    constructor (cloud: Cloud)
      ensures this.cloud == cloud
    {
      this.cloud := cloud;
    }

    /** `ensure_instance_id`'s mutator, and with a verifier `ensure_connect_identity`'s. */
    method EnsureIdentity(freshId: string, freshVerifier: Option<string>) returns (iid: string, verifier: string)
      modifies this
      ensures cloud == WithIdentity(old(cloud), freshId, freshVerifier)
      ensures iid == cloud.instanceId && verifier == cloud.verifier
    {
      iid := cloud.instanceId;
      if iid == "" {
        iid := freshId;
        cloud := cloud.(instanceId := iid);
      }
      verifier := cloud.verifier;
      if verifier == "" && freshVerifier.Some? {
        verifier := freshVerifier.value;
        cloud := cloud.(verifier := verifier);
      }
    }

    /** `record_cloud_activation`'s mutator. */
    method Record(a: Activate) returns (accepted: bool)
      modifies this
      ensures accepted <==> Accepts(old(cloud), a)
      ensures cloud == if accepted then Accepted(old(cloud), a) else old(cloud)
    {
      if cloud.disconnected && !a.keepDisconnected { return false; }
      var current := cloud.instanceId;
      var pending := cloud.verifier;
      if a.expectedKey.Some? {
        if cloud.token != a.expectedKey { return false; }
        if pending != "" && current != "" && current != a.instanceId { return false; }
      }
      if a.expectedVerifier.Some? {
        if pending != a.expectedVerifier.value { return false; }
        if current != "" && current != a.instanceId { return false; }
      }
      cloud := cloud.(token := Some(a.token), instanceId := a.instanceId, publicUrl := a.publicUrl);
      if a.tosVersion != "" { cloud := cloud.(tosVersion := a.tosVersion); }
      if a.backupKey != "" { cloud := cloud.(backupKey := a.backupKey); }
      if a.expectedVerifier.Some? { cloud := cloud.(verifier := ""); }
      return true;
    }
  }

  // ---- Any number of processes --------------------------------------------------------

  datatype Event =
    | EnsureInstance(p: nat, freshId: string)
    | EnsureVerifier(p: nat, freshVerifier: string)
    | RefreshVerifier(p: nat, freshVerifier: string)
    | EnsureConnect(p: nat, freshId: string, freshVerifier: string)
    | SetDisconnected(disconnected: bool)
    | Record(p: nat, activate: Activate)
    | Associate(p: nat, token: string, instanceId: string)      // record_deployment_association
    | LoadConfig(p: nat)
    | Starts(p: nat)

  /**
   * The file and each process's memory, with what a run has shown so far: the verifiers ever
   * made, those consumed in order, the ids given out, whether an accepted activation named
   * another id than the one there, and whether the last explicit choice was to disconnect.
   */
  datatype State = State(cloud: Cloud, settings: map<nat, Settings>, made: set<string>, consumed: seq<string>,
                         given: set<string>, renamed: bool, choseDisconnect: bool)

  function SettingsOf(s: State, p: nat): Settings {
    if p in s.settings then s.settings[p] else Settings("", "")
  }

  function Remember(s: State, p: nat, settings: Settings): State {
    s.(settings := s.settings[p := settings])
  }

  /** A generated id or verifier is not empty, and a generated verifier was never made before. */
  predicate Enabled(s: State, e: Event) {
    match e
    case EnsureInstance(_, id) => id != ""
    case EnsureVerifier(_, v) => v != "" && v !in s.made
    case RefreshVerifier(_, v) => v != "" && v !in s.made
    case EnsureConnect(_, id, v) => id != "" && v != "" && v !in s.made
    case _ => true
  }

  function Apply(s: State, e: Event): State {
    match e
    case EnsureInstance(p, id) =>
      if SettingsOf(s, p).instanceId != "" then s.(given := s.given + {SettingsOf(s, p).instanceId})
      else
        var cloud := WithIdentity(s.cloud, id, None);
        Remember(s.(cloud := cloud, given := s.given + {cloud.instanceId}), p, SettingsOf(s, p).(instanceId := cloud.instanceId))
    case EnsureVerifier(p, v) =>
      if SettingsOf(s, p).verifier != "" then s
      else
        var verifier := if s.cloud.verifier != "" then s.cloud.verifier else v;
        Remember(s.(cloud := s.cloud.(verifier := verifier), made := s.made + {verifier}), p, SettingsOf(s, p).(verifier := verifier))
    case RefreshVerifier(p, v) =>
      Remember(s.(cloud := s.cloud.(verifier := v), made := s.made + {v}), p, SettingsOf(s, p).(verifier := v))
    case EnsureConnect(p, id, v) =>
      if SettingsOf(s, p).instanceId != "" && SettingsOf(s, p).verifier != ""
      then s.(given := s.given + {SettingsOf(s, p).instanceId})
      else
        var cloud := WithIdentity(s.cloud, id, Some(v));
        Remember(s.(cloud := cloud, made := s.made + {cloud.verifier}, given := s.given + {cloud.instanceId}),
                 p, Settings(cloud.instanceId, cloud.verifier))
    case SetDisconnected(d) => s.(cloud := s.cloud.(disconnected := d), choseDisconnect := d)
    case Record(p, a) =>
      if !Accepts(s.cloud, a) then s
      else
        var settings := if a.expectedVerifier.Some? then SettingsOf(s, p).(verifier := "") else SettingsOf(s, p);
        Remember(s.(cloud := Accepted(s.cloud, a),
                    consumed := if Consumes(a) then s.consumed + [a.expectedVerifier.value] else s.consumed,
                    renamed := s.renamed || Renames(s.cloud, a.instanceId)), p, settings)
    case Associate(p, token, id) =>
      Remember(s.(cloud := s.cloud.(token := Some(token), instanceId := id), renamed := s.renamed || Renames(s.cloud, id)),
               p, SettingsOf(s, p).(instanceId := id))
    case LoadConfig(p) =>
      var has := SettingsOf(s, p);
      Remember(s, p, Settings(if has.instanceId != "" then has.instanceId else s.cloud.instanceId,
                              if has.verifier != "" then has.verifier else s.cloud.verifier))
    case Starts(p) => Remember(s, p, Settings("", ""))
  }

  predicate Renames(cloud: Cloud, id: string) {
    cloud.instanceId != "" && cloud.instanceId != id
  }

  predicate Consumes(a: Activate) {
    a.expectedVerifier.Some? && a.expectedVerifier.value != ""
  }

  ghost predicate Init(s: State) {
    && s.settings == map[] && s.consumed == [] && s.given == {} && !s.renamed
    && s.made == (if s.cloud.verifier == "" then {} else {s.cloud.verifier})
    && s.choseDisconnect == s.cloud.disconnected
  }

  ghost predicate Distinct(s: seq<string>) {
    forall i, j :: 0 <= i < j < |s| ==> s[i] != s[j]
  }

  ghost predicate Inv(s: State) {
    && VerifiersAreSpentOnce(s)
    && s.choseDisconnect == s.cloud.disconnected
    && (!s.renamed ==> OneId(s))
  }

  ghost predicate OneId(s: State) {
    && (forall id :: id in s.given ==> id != "" && id == s.cloud.instanceId)
    && (forall p :: SettingsOf(s, p).instanceId != "" ==> SettingsOf(s, p).instanceId == s.cloud.instanceId)
  }

  lemma IdStaysOne(s: State, e: Event)
    requires OneId(s) && Enabled(s, e) && !Apply(s, e).renamed && !s.renamed
    ensures OneId(Apply(s, e))
  {
    var t := Apply(s, e);
    forall p | SettingsOf(t, p).instanceId != ""
      ensures SettingsOf(t, p).instanceId == t.cloud.instanceId
    {
      if SettingsOf(t, p) == SettingsOf(s, p) {
        assert SettingsOf(s, p).instanceId == s.cloud.instanceId;
      } else if e.Associate? || e.LoadConfig? || e.EnsureInstance? || e.EnsureConnect? {
        assert SettingsOf(s, e.p).instanceId != "" ==> SettingsOf(s, e.p).instanceId == s.cloud.instanceId;
      }
    }
  }

  ghost predicate VerifiersAreSpentOnce(s: State) {
    && Distinct(s.consumed) && (forall v :: v in s.consumed ==> v in s.made)
    && (s.cloud.verifier != "" ==> s.cloud.verifier in s.made && s.cloud.verifier !in s.consumed)
  }

  lemma VerifiersStaySpent(s: State, e: Event)
    requires VerifiersAreSpentOnce(s) && Enabled(s, e)
    ensures VerifiersAreSpentOnce(Apply(s, e))
  {
  }

  lemma StepKeeps(s: State, e: Event)
    requires Inv(s) && Enabled(s, e)
    ensures Inv(Apply(s, e))
  {
    VerifiersStaySpent(s, e);
    if !Apply(s, e).renamed {
      IdStaysOne(s, e);
    }
  }

  function Step(s: State, e: Event): Option<State> {
    if Enabled(s, e) then Some(Apply(s, e)) else None
  }

  /**
   * Whatever the processes do, in whatever order: no verifier is consumed twice, the stored
   * choice is the last one made, and while no accepted activation has named another id, every
   * id ever given out is one and the same.
   */
  lemma EveryRun(s: State, events: seq<Event>, t: State)
    requires (Init(s) || Inv(s)) && Leads(Step, s, events, t)
    ensures Inv(t) && Distinct(t.consumed) && t.cloud.disconnected == t.choseDisconnect
    ensures !t.renamed ==> forall a, b :: a in t.given && b in t.given ==> a == b != ""
  {
    forall x, e | Inv(x) && Step(x, e).Some?
      ensures Inv(Step(x, e).value)
    {
      StepKeeps(x, e);
    }
    assert Inv(s);
    Kept(Step, Inv, s, events, t);
  }

  /** Once the choice was to disconnect, only an activation that asks to stay disconnected is accepted, and it stays so. */
  lemma DisconnectStands(s: State, events: seq<Event>, t: State, a: Activate)
    requires Init(s) && Leads(Step, s, events, t) && t.choseDisconnect && Accepts(t.cloud, a)
    ensures a.keepDisconnected && Accepted(t.cloud, a).disconnected
  {
    EveryRun(s, events, t);
  }

  /** A consumed verifier is never accepted again, and an activation holding the pending one cannot rename the install. */
  lemma ConsumedIsSpent(s: State, events: seq<Event>, t: State, a: Activate)
    requires Init(s) && Leads(Step, s, events, t) && Accepts(t.cloud, a) && Consumes(a)
    ensures a.expectedVerifier.value !in t.consumed
    ensures t.cloud.instanceId != "" ==> Accepted(t.cloud, a).instanceId == t.cloud.instanceId
    ensures Apply(t, Record(0, a)).renamed == t.renamed
  {
    EveryRun(s, events, t);
  }

  // ---- What a process is given ----------------------------------------------------------

  /** The id a call returns to its caller. */
  function Returned(s: State, e: Event): Option<string> {
    match e
    case EnsureInstance(p, _) => Some(SettingsOf(Apply(s, e), p).instanceId)
    case EnsureConnect(p, _, _) => Some(SettingsOf(Apply(s, e), p).instanceId)
    case _ => None
  }

  /** Every id a run returns. */
  function AllReturned(s: State, events: seq<Event>): seq<string>
    decreases |events|
  {
    if events == [] then [] else
      (match Returned(s, events[0]) case Some(id) => [id] case None => []) + AllReturned(Apply(s, events[0]), events[1..])
  }

  lemma GivenStays(s: State, e: Event)
    ensures s.given <= Apply(s, e).given && (s.renamed ==> Apply(s, e).renamed)
    ensures Returned(s, e).Some? ==> Returned(s, e).value in Apply(s, e).given
  {
  }

  lemma {:induction false} ReturnedAreGiven(s: State, events: seq<Event>, t: State)
    requires Leads(Step, s, events, t)
    ensures s.given <= t.given && forall id :: id in AllReturned(s, events) ==> id in t.given
    decreases |events|
  {
    if events != [] {
      GivenStays(s, events[0]);
      ReturnedAreGiven(Apply(s, events[0]), events[1..], t);
    }
  }

  /** While no accepted activation names another id, every call of every process returns one and the same. */
  lemma OneIdIsReturned(s: State, events: seq<Event>, t: State)
    requires Init(s) && Leads(Step, s, events, t) && !t.renamed
    ensures forall a, b :: a in AllReturned(s, events) && b in AllReturned(s, events) ==> a == b != ""
  {
    EveryRun(s, events, t);
    ReturnedAreGiven(s, events, t);
  }

  /** A process that remembers nothing is given what is stored, and what it makes is stored for the next. */
  lemma IdentityIsShared(s: State, p: nat, id: string, q: nat, other: string)
    requires p != q && SettingsOf(s, p).instanceId == "" == SettingsOf(s, q).instanceId && id != "" && other != ""
    ensures var t := Apply(Apply(s, EnsureInstance(p, id)), EnsureInstance(q, other));
      && t.cloud == s.cloud.(instanceId := if s.cloud.instanceId != "" then s.cloud.instanceId else id)
      && SettingsOf(t, p).instanceId == SettingsOf(t, q).instanceId == t.cloud.instanceId
      && SettingsOf(t, p).verifier == SettingsOf(s, p).verifier
  {
  }

  lemma VerifierIsShared(s: State, p: nat, v: string, q: nat, other: string)
    requires p != q && SettingsOf(s, p).verifier == "" == SettingsOf(s, q).verifier && v != "" && other != ""
    ensures var t := Apply(Apply(s, EnsureVerifier(p, v)), EnsureVerifier(q, other));
      && t.cloud == s.cloud.(verifier := if s.cloud.verifier != "" then s.cloud.verifier else v)
      && SettingsOf(t, p).verifier == SettingsOf(t, q).verifier == t.cloud.verifier
      && SettingsOf(t, p).instanceId == SettingsOf(s, p).instanceId
  {
  }

  lemma ConnectIdentityIsShared(s: State, p: nat, id: string, v: string, q: nat, other: string, w: string)
    requires p != q && SettingsOf(s, p) == Settings("", "") == SettingsOf(s, q) && id != "" && v != "" && other != "" && w != ""
    ensures var t := Apply(Apply(s, EnsureConnect(p, id, v)), EnsureConnect(q, other, w));
      && t.cloud.instanceId == (if s.cloud.instanceId != "" then s.cloud.instanceId else id)
      && t.cloud.verifier == (if s.cloud.verifier != "" then s.cloud.verifier else v)
      && SettingsOf(t, p) == SettingsOf(t, q) == Settings(t.cloud.instanceId, t.cloud.verifier)
  {
  }

  /** One that remembers is given what it remembers, and nothing stored changes. */
  lemma RememberedIsGiven(s: State, p: nat, id: string, v: string)
    ensures SettingsOf(s, p).instanceId != "" ==>
              var t := Apply(s, EnsureInstance(p, id));
              t.cloud == s.cloud && t.settings == s.settings && Returned(s, EnsureInstance(p, id)) == Some(SettingsOf(s, p).instanceId)
    ensures SettingsOf(s, p).verifier != "" ==> Apply(s, EnsureVerifier(p, v)) == s
    ensures SettingsOf(s, p).instanceId != "" && SettingsOf(s, p).verifier != "" ==>
              var t := Apply(s, EnsureConnect(p, id, v)); t.cloud == s.cloud && t.settings == s.settings
    ensures SettingsOf(s, p).verifier == "" || SettingsOf(s, p).instanceId == "" ==>
              SettingsOf(Apply(s, EnsureConnect(p, id, v)), p) ==
              Settings(Apply(s, EnsureConnect(p, id, v)).cloud.instanceId, Apply(s, EnsureConnect(p, id, v)).cloud.verifier)
  {
  }

  /** Loading the config gives a process what is stored only where it remembers nothing; a new process remembers nothing. */
  lemma LoadFillsIn(s: State, p: nat)
    ensures var t := Apply(s, LoadConfig(p));
      && t.cloud == s.cloud
      && SettingsOf(t, p).instanceId == (if SettingsOf(s, p).instanceId == "" then s.cloud.instanceId else SettingsOf(s, p).instanceId)
      && SettingsOf(t, p).verifier == (if SettingsOf(s, p).verifier == "" then s.cloud.verifier else SettingsOf(s, p).verifier)
    ensures var t := Apply(s, Starts(p)); t.cloud == s.cloud && SettingsOf(t, p) == Settings("", "")
  {
  }

  /** A refresh replaces the pending verifier: an activation still holding the old one is refused. */
  lemma RefreshReplaces(s: State, p: nat, v: string, a: Activate)
    requires v != "" && a.expectedVerifier.Some? && a.expectedVerifier.value != v
    ensures var t := Apply(s, RefreshVerifier(p, v));
      t.cloud.verifier == v && SettingsOf(t, p).verifier == v && !Accepts(t.cloud, a) && t.cloud.instanceId == s.cloud.instanceId
  {
  }

  /** An explicit choice is stored at once, and nothing else. */
  lemma ChoiceIsStored(s: State, disconnected: bool)
    ensures Apply(s, SetDisconnected(disconnected)) == s.(cloud := s.cloud.(disconnected := disconnected), choseDisconnect := disconnected)
  {
  }

  // ---- How often a verifier is consumed ---------------------------------------------------

  predicate ConsumesNow(s: State, e: Event, v: string) {
    e.Record? && Accepts(s.cloud, e.activate) && e.activate.expectedVerifier == Some(v)
  }

  /** The accepted activations of a run that consumed `v`. */
  function TimesConsumed(s: State, events: seq<Event>, v: string): nat
    decreases |events|
  {
    if events == [] then 0
    else (if ConsumesNow(s, events[0], v) then 1 else 0) + TimesConsumed(Apply(s, events[0]), events[1..], v)
  }

  lemma ConsumingStep(s: State, e: Event, v: string)
    requires VerifiersAreSpentOnce(s) && Enabled(s, e) && v != ""
    ensures v in s.consumed ==> !ConsumesNow(s, e, v) && v in Apply(s, e).consumed
    ensures ConsumesNow(s, e, v) ==> v in Apply(s, e).consumed && Apply(s, e).cloud.verifier == ""
                                     && SettingsOf(Apply(s, e), e.p).verifier == ""
  {
  }

  lemma {:induction false} ConsumedAtMostOnce(s: State, events: seq<Event>, t: State, v: string)
    requires VerifiersAreSpentOnce(s) && Leads(Step, s, events, t) && v != ""
    ensures TimesConsumed(s, events, v) <= if v in s.consumed then 0 else 1
    decreases |events|
  {
    if events != [] {
      VerifiersStaySpent(s, events[0]);
      ConsumingStep(s, events[0], v);
      ConsumedAtMostOnce(Apply(s, events[0]), events[1..], t, v);
    }
  }

  /** Over any run of any number of processes, a verifier is consumed by one accepted activation at most. */
  lemma OneActivationConsumes(s: State, events: seq<Event>, t: State, v: string)
    requires Init(s) && Leads(Step, s, events, t) && v != ""
    ensures TimesConsumed(s, events, v) <= 1
  {
    ConsumedAtMostOnce(s, events, t, v);
  }

  /** An association is stored with its id, and remembered. */
  lemma AssociationIsStored(s: State, p: nat, token: string, id: string)
    ensures var t := Apply(s, Associate(p, token, id));
      && t.cloud == s.cloud.(token := Some(token), instanceId := id)
      && SettingsOf(t, p).instanceId == id && SettingsOf(t, p).verifier == SettingsOf(s, p).verifier
  {
  }

  function Fresh(): Cloud { Cloud(None, "", "", false, "", "", "") }

  /** A new install: nothing stored, and no process remembers anything. */
  function NewInstall(): State { State(Fresh(), map[], {}, [], {}, false, false) }

  function Claim(id: string, v: string): Activate { Activate("token", id, "", "", "", None, Some(v), false) }

  /** It makes its identity, is activated with its verifier, and disconnects: from then on it is not activated again. */
  lemma FirstActivation(id: string, v: string) returns (t: State)
    requires id != "" && v != ""
    ensures Init(NewInstall())
    ensures Leads(Step, NewInstall(), [EnsureConnect(0, id, v), Record(0, Claim(id, v))] + [Record(0, Claim(id, v)), SetDisconnected(true)], t)
    ensures t.consumed == [v] && t.cloud == Cloud(Some("token"), id, "", true, "", "", "") && !t.renamed
    ensures !Accepts(t.cloud, Claim(id, ""))
  {
    var s := NewInstall();
    var made := Apply(s, EnsureConnect(0, id, v));
    var active := Apply(made, Record(0, Claim(id, v)));
    var again := Apply(active, Record(0, Claim(id, v)));
    t := Apply(again, SetDisconnected(true));
    Two(Step, s, EnsureConnect(0, id, v), made, Record(0, Claim(id, v)), active);
    Two(Step, active, Record(0, Claim(id, v)), again, SetDisconnected(true), t);
    LeadsThrough(Step, s, [EnsureConnect(0, id, v), Record(0, Claim(id, v))], active, [Record(0, Claim(id, v)), SetDisconnected(true)], t);
  }

  /** A call that makes an id or a verifier can be made in any state, and so can any other. */
  lemma AnyCallCanBeMade(s: State, e: Event)
    requires e.EnsureInstance? || e.EnsureConnect? ==> e.freshId != ""
    requires e.EnsureVerifier? || e.RefreshVerifier? || e.EnsureConnect? ==> e.freshVerifier != "" && e.freshVerifier !in s.made
    ensures Step(s, e) == Some(Apply(s, e))
  {
  }
}
