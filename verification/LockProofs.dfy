/**
 * The lock proofs a session holds (celerp/services/company_lock.py), and the index a request keeps of
 * them so that it need not read the whole list after every statement (mutation_observer.py).
 */
module LockProofs {

  type Kind = string
  type Request = nat

  /** A key as a caller notes it; a list or a set cannot be a dictionary key. */
  datatype Key = Hashed(text: string) | Unhashable(text: string)

  /** What a kept key is told apart by: itself, or its proof's identity. */
  datatype Slot = ByKey(text: string) | ByProof(id: nat)

  /** `within` is the transaction the lock was taken in and every one around it. */
  datatype Proof = Proof(id: nat, kind: Kind, key: Key, within: set<nat>) {
    function Slot(): Slot { if key.Hashed? then ByKey(key.text) else ByProof(id) }

    predicate SameAs(other: Proof) { kind == other.kind && Slot() == other.Slot() }
  }

  /** Two proofs count once when they are of one kind and of equal keys; a key that cannot be compared counts by its proof. */
  lemma SameExactly(p: Proof, q: Proof)
    ensures p.SameAs(q) <==>
              p.kind == q.kind
              && ((p.key.Hashed? && q.key.Hashed? && p.key.text == q.key.text) || (p.key.Unhashable? && q.key.Unhashable? && p.id == q.id))
  {
  }

  // --- What a full scan says ---------------------------------------------------------------------

  /** The proofs not inherited, in order. */
  function Taken(proofs: seq<Proof>, inherited: set<nat>): seq<Proof> {
    if proofs == [] then [] else
      var last := proofs[|proofs| - 1];
      Taken(proofs[..|proofs| - 1], inherited) + (if last.id in inherited then [] else [last])
  }

  /** Whether a key of this kind has been kept already. */
  predicate Kept(seen: seq<Proof>, p: Proof) {
    exists i :: 0 <= i < |seen| && seen[i].SameAs(p)
  }

  /** The proofs of `kind` whose key no earlier proof of that kind has. */
  function Firsts(proofs: seq<Proof>, kind: Kind): seq<Proof> {
    if proofs == [] then [] else
      var n := |proofs| - 1;
      Firsts(proofs[..n], kind)
      + (if proofs[n].kind == kind && !Kept(proofs[..n], proofs[n]) then [proofs[n]] else [])
  }

  function Keys(proofs: seq<Proof>): seq<Key> { seq(|proofs|, i requires 0 <= i < |proofs| => proofs[i].key) }

  /** A reading: the distinct keys of a kind, in the order they were first noted. */
  function FullScan(proofs: seq<Proof>, inherited: set<nat>, kind: Kind): seq<Key> {
    Keys(Firsts(Taken(proofs, inherited), kind))
  }

  ghost predicate Rising(at: seq<nat>, bound: nat) {
    && (forall i :: 0 <= i < |at| ==> at[i] < bound)
    && (forall i, j :: 0 <= i < j < |at| ==> at[i] < at[j])
  }

  ghost predicate IsFirst(proofs: seq<Proof>, kind: Kind, i: nat)
    requires i < |proofs|
  {
    proofs[i].kind == kind && forall j :: 0 <= j < i ==> !proofs[j].SameAs(proofs[i])
  }

  /** Firsts picks, in order and once each, exactly the places where a key first occurs. */
  lemma {:induction false} FirstsAre(proofs: seq<Proof>, kind: Kind) returns (at: seq<nat>)
    ensures Picks(proofs, kind, at, Firsts(proofs, kind))
  {
    if proofs == [] {
      at := [];
    } else {
      var n := |proofs| - 1;
      var before := FirstsAre(proofs[..n], kind);
      at := PickOneMore(proofs[..n], proofs[n], kind, before, Firsts(proofs[..n], kind));
      assert proofs[..n] + [proofs[n]] == proofs;
    }
  }

  /** `picked` are the proofs at the places `at`, in order and once each: exactly where a key first occurs. */
  ghost predicate Picks(proofs: seq<Proof>, kind: Kind, at: seq<nat>, picked: seq<Proof>) {
    && Rising(at, |proofs|) && |at| == |picked|
    && (forall k :: 0 <= k < |at| ==> picked[k] == proofs[at[k]])
    && (forall i :: 0 <= i < |proofs| ==> (i in at <==> IsFirst(proofs, kind, i)))
  }

  lemma PickOneMore(before: seq<Proof>, p: Proof, kind: Kind, at: seq<nat>, picked: seq<Proof>) returns (more: seq<nat>)
    requires Picks(before, kind, at, picked)
    ensures Picks(before + [p], kind, more, picked + (if p.kind == kind && !Kept(before, p) then [p] else []))
  {
    var n, proofs := |before|, before + [p];
    forall i | 0 <= i < n
      ensures IsFirst(before, kind, i) <==> IsFirst(proofs, kind, i)
    {
      assert proofs[..n] == before;
    }
    assert IsFirst(proofs, kind, n) <==> p.kind == kind && !Kept(before, p) by {
      assert forall j :: 0 <= j < n ==> proofs[j] == before[j];
    }
    more := at + (if p.kind == kind && !Kept(before, p) then [n] else []);
    assert forall i :: 0 <= i < n ==> (i in more <==> i in at);
    assert n !in at;
  }

  /** No two kept proofs of a kind have the same key, and every proof's key is kept. */
  lemma ScanIsDistinctAndWhole(proofs: seq<Proof>, kind: Kind)
    ensures forall i, j :: 0 <= i < j < |Firsts(proofs, kind)| ==> !Firsts(proofs, kind)[i].SameAs(Firsts(proofs, kind)[j])
    ensures forall p :: p in proofs && p.kind == kind ==> Kept(Firsts(proofs, kind), p)
  {
    var at := FirstsAre(proofs, kind);
    var firsts := Firsts(proofs, kind);
    forall i, j | 0 <= i < j < |firsts|
      ensures !firsts[i].SameAs(firsts[j])
    {
      assert at[j] in at && at[i] in at;
      assert IsFirst(proofs, kind, at[j]);
    }
    forall p | p in proofs && p.kind == kind
      ensures Kept(firsts, p)
    {
      var k :| 0 <= k < |proofs| && proofs[k] == p;
      var i := Earliest(proofs, p, k);
      assert i in at;
      var f :| 0 <= f < |at| && at[f] == i;
      assert firsts[f].SameAs(p);
    }
  }

  lemma {:induction false} Earliest(proofs: seq<Proof>, p: Proof, k: nat) returns (i: nat)
    requires k < |proofs| && proofs[k].SameAs(p)
    ensures i <= k && proofs[i].SameAs(p) && IsFirst(proofs, p.kind, i)
    decreases k
  {
    if j :| 0 <= j < k && proofs[j].SameAs(p) {
      i := Earliest(proofs, p, j);
    } else {
      i := k;
    }
  }

  // --- The index -----------------------------------------------------------------------------------

  /** What a request remembers of the list it last read, and how far it read. */
  datatype Read = Read(list: nat, filtered: nat, upto: nat, keys: map<Kind, seq<Proof>>)

  /** Reads the next proof into the index: a dictionary keeps the first of each key. */
  function Index(keys: map<Kind, seq<Proof>>, p: Proof): map<Kind, seq<Proof>> {
    var kept := Of(keys, p.kind);
    keys[p.kind := if Kept(kept, p) then kept else kept + [p]]
  }

  /** Inherited proofs are passed over. */
  function Next(index: map<Kind, seq<Proof>>, p: Proof, inherited: set<nat>): map<Kind, seq<Proof>> {
    if p.id in inherited then index else Index(index, p)
  }

  function Of(keys: map<Kind, seq<Proof>>, kind: Kind): seq<Proof> {
    if kind in keys then keys[kind] else []
  }

  /** The index holds the first occurrences among `proofs`, for every kind. */
  ghost predicate Indexes(keys: map<Kind, seq<Proof>>, proofs: seq<Proof>) {
    forall kind :: Of(keys, kind) == Firsts(proofs, kind)
  }

  lemma IndexedOneMore(keys: map<Kind, seq<Proof>>, proofs: seq<Proof>, p: Proof)
    requires Indexes(keys, proofs)
    ensures Indexes(Index(keys, p), proofs + [p])
  {
    assert (proofs + [p])[..|proofs|] == proofs;
    ScanIsDistinctAndWhole(proofs, p.kind);
    var at := FirstsAre(proofs, p.kind);
    var firsts := Firsts(proofs, p.kind);
    assert Kept(firsts, p) <==> Kept(proofs, p) by {
      if Kept(firsts, p) {
        var f :| 0 <= f < |firsts| && firsts[f].SameAs(p);
        assert proofs[at[f]].SameAs(p);
      }
      if Kept(proofs, p) {
        var i :| 0 <= i < |proofs| && proofs[i].SameAs(p);
        assert proofs[i] in proofs && Kept(firsts, proofs[i]);
      }
    }
  }

  /** Whether a remembered reading, if it is of the list now held, still describes how the list begins. */
  ghost predicate Current(r: Read, list: nat, filtered: nat, proofs: seq<Proof>, inherited: set<nat>) {
    r.list == list && r.filtered == filtered ==>
      r.upto <= |proofs| && Indexes(r.keys, Taken(proofs[..r.upto], inherited))
  }

  /** It is of the list now held or of one that is never held again, other than the empty one. */
  ghost predicate Sound(r: Read, list: nat, made: nat, filtered: nat, proofs: seq<Proof>, inherited: set<nat>) {
    && r.list <= made && r.filtered <= filtered
    && Current(r, list, filtered, proofs, inherited)
    && (r.list == 0 ==> Current(r, 0, r.filtered, [], inherited))
  }

  lemma JustRead(r: Read, made: nat, proofs: seq<Proof>, inherited: set<nat>)
    requires r.list <= made && (r.list == 0 ==> proofs == [])
    requires r.upto == |proofs| && Indexes(r.keys, Taken(proofs, inherited))
    ensures Sound(r, r.list, made, r.filtered, proofs, inherited)
  {
    assert proofs[..r.upto] == proofs;
  }

  lemma MoreNoted(r: Read, list: nat, made: nat, filtered: nat, proofs: seq<Proof>, inherited: set<nat>, added: Proof)
    requires Sound(r, list, made, filtered, proofs, inherited) && list <= made
    ensures Sound(r, if list == 0 then made + 1 else list, if list == 0 then made + 1 else made, filtered,
                  proofs + [added], inherited)
  {
    if r.upto <= |proofs| {
      assert (proofs + [added])[..r.upto] == proofs[..r.upto];
    }
  }

  /** The index once the proofs from `i` on are read. */
  function ReadRest(index: map<Kind, seq<Proof>>, proofs: seq<Proof>, i: nat, inherited: set<nat>): map<Kind, seq<Proof>>
    requires i <= |proofs|
    decreases |proofs| - i
  {
    if i == |proofs| then index else ReadRest(Next(index, proofs[i], inherited), proofs, i + 1, inherited)
  }

  /** Reads the proofs from `upto` on into the index. */
  method ReadOn(keys: map<Kind, seq<Proof>>, upto: nat, proofs: seq<Proof>, inherited: set<nat>)
    returns (index: map<Kind, seq<Proof>>)
    requires upto <= |proofs|
    ensures index == ReadRest(keys, proofs, upto, inherited)
  {
    var i := upto;
    index := keys;
    while i < |proofs|
      invariant i <= |proofs|
      invariant ReadRest(index, proofs, i, inherited) == ReadRest(keys, proofs, upto, inherited)
    {
      index := Next(index, proofs[i], inherited);
      i := i + 1;
    }
  }

  lemma {:induction false} RestIsIndexed(index: map<Kind, seq<Proof>>, proofs: seq<Proof>, i: nat, inherited: set<nat>)
    requires i <= |proofs| && Indexes(index, Taken(proofs[..i], inherited))
    ensures Indexes(ReadRest(index, proofs, i, inherited), Taken(proofs, inherited))
    decreases |proofs| - i
  {
    if i == |proofs| {
      assert proofs[..i] == proofs;
    } else {
      ReadOneMore(index, proofs, i, inherited);
      RestIsIndexed(Next(index, proofs[i], inherited), proofs, i + 1, inherited);
    }
  }

  lemma ReadOneMore(index: map<Kind, seq<Proof>>, proofs: seq<Proof>, i: nat, inherited: set<nat>)
    requires i < |proofs| && Indexes(index, Taken(proofs[..i], inherited))
    ensures Indexes(Next(index, proofs[i], inherited), Taken(proofs[..i + 1], inherited))
  {
    var before := Taken(proofs[..i], inherited);
    assert proofs[..i + 1][..|proofs[..i + 1]| - 1] == proofs[..i];
    if proofs[i].id in inherited {
      assert Taken(proofs[..i + 1], inherited) == before;
    } else {
      assert Taken(proofs[..i + 1], inherited) == before + [proofs[i]];
      IndexedOneMore(index, before, proofs[i]);
    }
  }

  /** A session, and the requests reading its proofs. */
  class Session {
    /** Which list is held: 0 is the empty tuple read when there is none. A new list is a new object. */
    var list: nat
    var made: nat
    var proofs: seq<Proof>
    var filtered: nat
    var next: nat
    var inherited: map<Request, set<nat>>
    var indexes: map<Request, Read>
    /** The identity the next proof had when the request began. */
    ghost var began: map<Request, nat>

    ghost predicate Valid()
      reads this
    {
      && list <= made
      && (list == 0 ==> proofs == [])
      && (forall i :: 0 <= i < |proofs| ==> proofs[i].id < next)
      && indexes.Keys <= inherited.Keys && began.Keys == inherited.Keys
      && (forall q :: q in inherited ==> Inherits(q))
      && (forall q :: q in indexes ==> Sound(indexes[q], list, made, filtered, proofs, inherited[q]))
    }

    /** The held proofs a request does not count are exactly those noted before it began. */
    ghost predicate Inherits(q: Request)
      reads this
      requires q in inherited
    {
      && q in began && began[q] <= next
      && (forall i :: 0 <= i < |proofs| ==> (proofs[i].id in inherited[q] <==> proofs[i].id < began[q]))
      && (forall id :: id in inherited[q] ==> id < began[q])
    }

    constructor ()
      ensures Valid() && proofs == [] && inherited == map[] && next == 0
    {
      list, made, proofs, filtered, next := 0, 0, [], 0, 0;
      inherited, indexes, began := map[], map[], map[];
    }

    /** `note`: the list is made when there is none, and otherwise grows at its end. */
    method Note(kind: Kind, key: Key, within: set<nat>)
      requires Valid()
      modifies this
      ensures Valid()
      ensures proofs == old(proofs) + [Proof(old(next), kind, key, within)] && next == old(next) + 1
      ensures filtered == old(filtered) && inherited == old(inherited) && began == old(began) && indexes == old(indexes)
      ensures old(list) != 0 ==> list == old(list)
    {
      forall q | q in indexes
        ensures Sound(indexes[q], if list == 0 then made + 1 else list, if list == 0 then made + 1 else made, filtered,
                      proofs + [Proof(next, kind, key, within)], inherited[q])
      {
        MoreNoted(indexes[q], list, made, filtered, proofs, inherited[q], Proof(next, kind, key, within));
      }
      if list == 0 {
        made := made + 1;
        list := made;
      }
      proofs := proofs + [Proof(next, kind, key, within)];
      next := next + 1;
    }

    /** A rolled-back savepoint takes back the proofs noted inside it, in place, and is counted. */
    method RollBack(boundary: nat)
      requires Valid()
      modifies this
      ensures Valid()
      ensures proofs == Outside(old(proofs), boundary) && filtered == old(filtered) + 1 && list == old(list)
      ensures next == old(next) && inherited == old(inherited) && began == old(began) && indexes == old(indexes)
    {
      OutsideIsPart(proofs, boundary);
      proofs := Outside(proofs, boundary);
      filtered := filtered + 1;
    }

    /** The outer transaction ends: the list is dropped. */
    method End()
      requires Valid()
      modifies this
      ensures Valid()
      ensures proofs == [] && list == 0
      ensures next == old(next) && inherited == old(inherited) && began == old(began) && indexes == old(indexes)
      ensures filtered == old(filtered)
    {
      list, proofs := 0, [];
    }

    /** A request starts: the proofs held now are not its evidence. */
    method Begin(q: Request)
      requires Valid() && q !in inherited
      modifies this
      ensures Valid()
      ensures proofs == old(proofs) && next == old(next)
      ensures inherited == old(inherited)[q := set p <- proofs :: p.id] && began == old(began)[q := next]
    {
      inherited := inherited[q := set p <- proofs :: p.id];
      began := began[q := next];
    }

    method Handle(e: Event) returns (answer: seq<Key>)
      requires Valid()
      modifies this
      ensures Valid()
      ensures answer == Answer(old(Plain(proofs, next, began)), e)
      ensures Plain(proofs, next, began) == After(old(Plain(proofs, next, began)), e)
    {
      answer := [];
      match e {
        case Noted(kind, key, within) => Note(kind, key, within);
        case RolledBack(boundary) => RollBack(boundary);
        case Ended => End();
        case Began(q) => if q !in inherited { Begin(q); }
        case Asked(q, kind) =>
          if q in inherited {
            answer := Here(q, kind);
            TakenIsSince(proofs, inherited[q], began[q]);
          }
      }
    }

    /** The request's last reading, when it is of this list as it now begins; else a new one. */
    function Remembered(q: Request): (r: Read)
      requires Valid() && q in inherited
      reads this
      ensures r.upto <= |proofs| && Indexes(r.keys, Taken(proofs[..r.upto], inherited[q]))
    {
      if q in indexes && indexes[q].list == list && indexes[q].filtered == filtered && indexes[q].upto <= |proofs|
      then
        assert Sound(indexes[q], list, made, filtered, proofs, inherited[q]);
        indexes[q]
      else
        assert proofs[..0] == [];
        Read(list, filtered, 0, map[])
    }

    /**
     * `_here`: reads only what was noted since the last reading, starting over when the list is another
     * one or was filtered. The answer is what a scan of the whole list gives.
     */
    method Here(q: Request, kind: Kind) returns (keys: seq<Key>)
      requires Valid() && q in inherited
      modifies this
      ensures Valid()
      ensures proofs == old(proofs) && next == old(next) && inherited == old(inherited) && began == old(began)
      ensures keys == FullScan(proofs, inherited[q], kind)
      // and the next reading begins where this one ended
      ensures q in indexes && indexes[q].upto == |proofs| && Remembered(q) == indexes[q]
      ensures list == old(list) && filtered == old(filtered) && indexes.Keys == old(indexes.Keys) + {q}
      ensures forall other :: other in old(indexes) && other != q ==> indexes[other] == old(indexes)[other]
    {
      var read := Remembered(q);
      var index := ReadOn(read.keys, read.upto, proofs, inherited[q]);
      RestIsIndexed(read.keys, proofs, read.upto, inherited[q]);
      JustRead(Read(list, filtered, |proofs|, index), made, proofs, inherited[q]);
      indexes := indexes[q := Read(list, filtered, |proofs|, index)];
      keys := Keys(Of(index, kind));
    }
  }

  function Outside(proofs: seq<Proof>, boundary: nat): seq<Proof> {
    if proofs == [] then [] else
      (if boundary in proofs[0].within then [] else [proofs[0]]) + Outside(proofs[1..], boundary)
  }

  lemma {:induction false} OutsideIsPart(proofs: seq<Proof>, boundary: nat)
    ensures forall p :: p in Outside(proofs, boundary) <==> p in proofs && boundary !in p.within
  {
    if proofs != [] {
      OutsideIsPart(proofs[1..], boundary);
      assert forall p :: p in proofs <==> p == proofs[0] || p in proofs[1..];
    }
  }

  // --- Whole runs ------------------------------------------------------------------------------------

  datatype Event =
    | Noted(kind: Kind, key: Key, within: set<nat>)
    | RolledBack(boundary: nat)
    | Ended
    | Began(q: Request)
    | Asked(q: Request, kind: Kind)

  /** What a session would hold with no index at all. */
  datatype Plain = Plain(proofs: seq<Proof>, next: nat, began: map<Request, nat>)

  function After(s: Plain, e: Event): Plain {
    match e
    case Noted(kind, key, within) => s.(proofs := s.proofs + [Proof(s.next, kind, key, within)], next := s.next + 1)
    case RolledBack(boundary) => s.(proofs := Outside(s.proofs, boundary))
    case Ended => s.(proofs := [])
    case Began(q) => if q in s.began then s else s.(began := s.began[q := s.next])
    case Asked(_, _) => s
  }

  /** A request's answer by definition: the keys first noted since it began and not taken back. */
  function Answer(s: Plain, e: Event): seq<Key> {
    if e.Asked? && e.q in s.began then Keys(Firsts(Since(s.proofs, s.began[e.q]), e.kind)) else []
  }

  function Since(proofs: seq<Proof>, mark: nat): seq<Proof> {
    if proofs == [] then [] else
      var last := proofs[|proofs| - 1];
      Since(proofs[..|proofs| - 1], mark) + (if last.id < mark then [] else [last])
  }

  function Answers(s: Plain, events: seq<Event>): seq<seq<Key>>
    decreases |events|
  {
    if events == [] then [] else [Answer(s, events[0])] + Answers(After(s, events[0]), events[1..])
  }

  lemma {:induction false} TakenIsSince(proofs: seq<Proof>, inherited: set<nat>, mark: nat)
    requires forall i :: 0 <= i < |proofs| ==> (proofs[i].id in inherited <==> proofs[i].id < mark)
    ensures Taken(proofs, inherited) == Since(proofs, mark)
  {
    if proofs != [] {
      TakenIsSince(proofs[..|proofs| - 1], inherited, mark);
    }
  }

  /** In every run, with any number of requests, each answer is the keys noted since that request began. */
  method EveryRun(events: seq<Event>) returns (answers: seq<seq<Key>>)
    ensures answers == Answers(Plain([], 0, map[]), events)
  {
    var s := new Session();
    answers := [];
    ghost var plain := Plain([], 0, map[]);
    var i := 0;
    while i < |events|
      decreases |events| - i
      invariant 0 <= i <= |events|
      invariant s.Valid() && fresh(s)
      invariant plain == Plain(s.proofs, s.next, s.began)
      invariant answers + Answers(plain, events[i..]) == Answers(Plain([], 0, map[]), events)
    {
      var e := events[i];
      var answer := s.Handle(e);
      assert events[i..][1..] == events[i + 1..];
      plain := After(plain, e);
      answers := answers + [answer];
      i := i + 1;
    }
  }
}
