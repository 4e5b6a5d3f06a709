/**
 * A write request refused for older stock runs once more, and only when its first run kept nothing
 * (celerp/middleware.py).
 */
module Reruns {

  type Connection = nat

  datatype Event =
    | Begun(conn: Connection)
    | RolledBack(conn: Connection)
    | Executed(conn: Connection, statement: string)
    | Committed(conn: Connection)

  // --- Statements ------------------------------------------------------------------------------------

  /** Where Python's `split` breaks: at ASCII white space and separators, and at the Unicode spaces. */
  predicate Blank(c: char) {
    var n := c as int;
    9 <= n <= 13 || 28 <= n <= 32 || n == 0x85 || n == 0xA0 || n == 0x1680 || 0x2000 <= n <= 0x200A
    || n == 0x2028 || n == 0x2029 || n == 0x202F || n == 0x205F || n == 0x3000
  }

  function Trimmed(s: string): string {
    if s != "" && Blank(s[0]) then Trimmed(s[1..]) else s
  }

  function Word(s: string): string {
    if s == "" || Blank(s[0]) then "" else [Upper(s[0])] + Word(s[1..])
  }

  /** Upper case, as far as it can give a letter of `READS`: U+017F and U+0131 are upper cased to S and I too. */
  function Upper(c: char): char {
    if 'a' <= c <= 'z' then c - 32 as char
    else if c as int == 0x17F then 'S'
    else if c as int == 0x131 then 'I'
    else c
  }

  const READS: set<string> := {"SELECT", "SHOW", "SAVEPOINT", "RELEASE", "ROLLBACK", "BEGIN", "COMMIT", "SET"}

  /** A statement is a read by its first word; one with no word at all counts as a read. */
  predicate IsRead(statement: string) {
    var rest := Trimmed(statement);
    (if rest == "" then "SELECT" else Word(rest)) in READS
  }

  function UpperAll(s: string): string { seq(|s|, i requires 0 <= i < |s| => Upper(s[i])) }

  lemma {:induction false} TrimmedTo(blanks: string, rest: string)
    requires (forall i :: 0 <= i < |blanks| ==> Blank(blanks[i])) && (rest == "" || !Blank(rest[0]))
    ensures Trimmed(blanks + rest) == rest
  {
    if blanks == "" {
      assert blanks + rest == rest;
    } else {
      assert (blanks + rest)[1..] == blanks[1..] + rest;
      TrimmedTo(blanks[1..], rest);
    }
  }

  lemma {:induction false} WordOf(word: string, rest: string)
    requires (forall i :: 0 <= i < |word| ==> !Blank(word[i])) && (rest == "" || Blank(rest[0]))
    ensures Word(word + rest) == UpperAll(word)
  {
    if word == "" {
      assert word + rest == rest;
    } else {
      assert (word + rest)[1..] == word[1..] + rest;
      WordOf(word[1..], rest);
      assert UpperAll(word) == [Upper(word[0])] + UpperAll(word[1..]);
    }
  }

  /** Whatever space is before it and whatever follows, a statement is a read exactly when its first word, in any case, is one of a read's. */
  lemma ReadByItsFirstWord(blanks: string, word: string, rest: string)
    requires forall i :: 0 <= i < |blanks| ==> Blank(blanks[i])
    requires word != "" && (forall i :: 0 <= i < |word| ==> !Blank(word[i])) && (rest == "" || Blank(rest[0]))
    ensures IsRead(blanks + word + rest) <==> UpperAll(word) in READS
  {
    assert blanks + word + rest == blanks + (word + rest);
    TrimmedTo(blanks, word + rest);
    WordOf(word, rest);
  }

  /** A statement of no word at all is a read. */
  lemma NothingIsARead(blanks: string)
    requires forall i :: 0 <= i < |blanks| ==> Blank(blanks[i])
    ensures IsRead(blanks)
  {
    TrimmedTo(blanks, "");
    assert blanks + "" == blanks;
  }

  lemma UpperOfLetters()
    ensures UpperAll("select") == "SELECT" && UpperAll("Insert") == "INSERT" && UpperAll("azAZ_1") == "AZAZ_1"
    ensures Upper(0x17F as char) == 'S' && Upper(0x131 as char) == 'I'
    ensures "SELECT" in READS && "INSERT" !in READS && "UPDATE" !in READS && "DELETE" !in READS && "WITH" !in READS
  {
  }

  // --- What a run leaves in the database -----------------------------------------------------------------

  /** Statements in transactions still open, by connection, and those made durable, in commit order. */
  datatype Database = Database(open: map<Connection, seq<string>>, durable: seq<string>)

  function InOpen(db: Database, conn: Connection): seq<string> {
    if conn in db.open then db.open[conn] else []
  }

  function After(db: Database, e: Event): Database {
    match e
    case Begun(c) => Database(db.open[c := []], db.durable)
    case RolledBack(c) => Database(db.open[c := []], db.durable)
    case Executed(c, s) => if IsRead(s) then db else Database(db.open[c := InOpen(db, c) + [s]], db.durable)
    case Committed(c) => Database(db.open[c := []], db.durable + InOpen(db, c))
  }

  function Replay(trace: seq<Event>): Database {
    if trace == [] then Database(map[], []) else After(Replay(trace[..|trace| - 1]), trace[|trace| - 1])
  }

  predicate Closes(e: Event, conn: Connection) {
    (e.Begun? || e.RolledBack? || e.Committed?) && e.conn == conn
  }

  ghost predicate HoldsAWrite(trace: seq<Event>, conn: Connection, i: nat, end: nat)
    requires i < |trace| && end <= |trace|
  {
    && i < end && trace[i].Executed? && trace[i].conn == conn && !IsRead(trace[i].statement)
    && (forall k :: i < k < end ==> !Closes(trace[k], conn))
  }

  /** Some commit closed a transaction in which a statement other than a read ran. */
  ghost predicate KeptAWrite(trace: seq<Event>) {
    exists i: nat, j: nat :: KeptBy(trace, i, j)
  }

  ghost predicate KeptBy(trace: seq<Event>, i: nat, j: nat) {
    i < j < |trace| && trace[j].Committed? && HoldsAWrite(trace, trace[j].conn, i, j)
  }

  ghost predicate HasOpenWrite(trace: seq<Event>, conn: Connection) {
    exists i :: 0 <= i < |trace| && HoldsAWrite(trace, conn, i, |trace|)
  }

  /** Whether a write is still held at `end` is settled by the events before `end`. */
  lemma HeldBefore(trace: seq<Event>, n: nat, conn: Connection, i: nat, end: nat)
    requires i < n && end <= n <= |trace|
    ensures HoldsAWrite(trace, conn, i, end) <==> HoldsAWrite(trace[..n], conn, i, end)
  {
    assert forall k :: i <= k < end ==> trace[..n][k] == trace[k];
  }

  predicate Writes(e: Event, conn: Connection) { e.Executed? && e.conn == conn && !IsRead(e.statement) }

  lemma OpenAfter(trace: seq<Event>, conn: Connection)
    requires trace != []
    ensures var e := trace[|trace| - 1];
            InOpen(Replay(trace), conn) != [] <==>
              Writes(e, conn) || (!Closes(e, conn) && InOpen(Replay(trace[..|trace| - 1]), conn) != [])
  {
  }

  lemma HasOpenAfter(trace: seq<Event>, conn: Connection)
    requires trace != []
    ensures var e := trace[|trace| - 1];
            HasOpenWrite(trace, conn) <==>
              Writes(e, conn) || (!Closes(e, conn) && HasOpenWrite(trace[..|trace| - 1], conn))
  {
    var n := |trace| - 1;
    var before := trace[..n];
    if Writes(trace[n], conn) {
      assert HoldsAWrite(trace, conn, n, |trace|);
    } else if !Closes(trace[n], conn) && HasOpenWrite(before, conn) {
      var i :| 0 <= i < |before| && HoldsAWrite(before, conn, i, n);
      HeldBefore(trace, n, conn, i, n);
      assert HoldsAWrite(trace, conn, i, |trace|);
    }
    if HasOpenWrite(trace, conn) && !Writes(trace[n], conn) {
      var i :| 0 <= i < |trace| && HoldsAWrite(trace, conn, i, |trace|);
      assert i < n && HoldsAWrite(trace, conn, i, n);
      HeldBefore(trace, n, conn, i, n);
    }
  }

  lemma {:induction false} OpenExactly(trace: seq<Event>, conn: Connection)
    ensures InOpen(Replay(trace), conn) != [] <==> HasOpenWrite(trace, conn)
  {
    if trace != [] {
      OpenExactly(trace[..|trace| - 1], conn);
      OpenAfter(trace, conn);
      HasOpenAfter(trace, conn);
    }
  }

  lemma KeptStays(trace: seq<Event>)
    requires trace != [] && KeptAWrite(trace[..|trace| - 1])
    ensures KeptAWrite(trace)
  {
    var n := |trace| - 1;
    var i: nat, j: nat :| KeptBy(trace[..n], i, j);
    HeldBefore(trace, n, trace[j].conn, i, j);
    assert KeptBy(trace, i, j);
  }

  lemma CommitKeeps(trace: seq<Event>)
    requires trace != [] && trace[|trace| - 1].Committed?
    requires HasOpenWrite(trace[..|trace| - 1], trace[|trace| - 1].conn)
    ensures KeptAWrite(trace)
  {
    var n := |trace| - 1;
    var i :| 0 <= i < n && HoldsAWrite(trace[..n], trace[n].conn, i, n);
    HeldBefore(trace, n, trace[n].conn, i, n);
    assert KeptBy(trace, i, n);
  }

  lemma KeptBefore(trace: seq<Event>)
    requires trace != [] && KeptAWrite(trace)
    ensures var e := trace[|trace| - 1];
            KeptAWrite(trace[..|trace| - 1]) || (e.Committed? && HasOpenWrite(trace[..|trace| - 1], e.conn))
  {
    var n := |trace| - 1;
    var i: nat, j: nat :| KeptBy(trace, i, j);
    HeldBefore(trace, n, trace[j].conn, i, j);
    if j < n {
      assert KeptBy(trace[..n], i, j);
    }
  }

  lemma {:induction false} DurableExactly(trace: seq<Event>)
    ensures Replay(trace).durable != [] <==> KeptAWrite(trace)
  {
    if trace != [] {
      var n := |trace| - 1;
      DurableExactly(trace[..n]);
      OpenExactly(trace[..n], trace[n].conn);
      if KeptAWrite(trace) {
        KeptBefore(trace);
      }
      if KeptAWrite(trace[..n]) {
        KeptStays(trace);
      } else if trace[n].Committed? && HasOpenWrite(trace[..n], trace[n].conn) {
        CommitKeeps(trace);
      }
    }
  }

  /** `_Writes`: what a request wrote, kept up to date by the engine's events. */
  class WriteTracker {
    var pending: set<Connection>
    var committed: bool
    ghost var trace: seq<Event>

    ghost predicate Valid()
      reads this
    {
      && (forall c :: c in pending <==> InOpen(Replay(trace), c) != [])
      && (committed <==> Replay(trace).durable != [])
    }

    constructor ()
      ensures Valid() && trace == []
    {
      pending, committed, trace := {}, false, [];
    }

    /** `_discarded`, `_executed` and `_committed`. */
    method Heard(e: Event)
      requires Valid()
      modifies this
      ensures Valid() && trace == old(trace) + [e]
    {
      match e {
        case Begun(c) => pending := pending - {c};
        case RolledBack(c) => pending := pending - {c};
        case Executed(c, statement) => if !IsRead(statement) { pending := pending + {c}; }
        case Committed(c) =>
          if c in pending {
            pending := pending - {c};
            committed := true;
          }
      }
      assert (trace + [e])[..|trace|] == trace;
      trace := trace + [e];
    }
  }

  /** The flag is set exactly when some commit closed a transaction holding a write. */
  method WatchRun(trace: seq<Event>) returns (committed: bool)
    ensures committed <==> KeptAWrite(trace)
    ensures committed <==> Replay(trace).durable != []
  {
    var writes := new WriteTracker();
    var i := 0;
    while i < |trace|
      invariant 0 <= i <= |trace|
      invariant writes.Valid() && fresh(writes) && writes.trace == trace[..i]
    {
      writes.Heard(trace[i]);
      i := i + 1;
    }
    assert trace[..|trace|] == trace;
    DurableExactly(trace);
    committed := writes.committed;
  }

  // --- The answer ------------------------------------------------------------------------------------------

  datatype Message = Start(status: int) | Body(text: string) | Trailer(text: string)

  /** One run of the request: what it did to the database, and what it answered. */
  datatype Run = Run(trace: seq<Event>, messages: seq<Message>)

  /** What decides whether the request runs again, besides what it wrote. */
  datatype Facts = Facts(company: bool, placeable: seq<Message> -> bool, placed: bool, reruns: bool)

  predicate Refuses(m: Message) { m.Start? && (m.status == 409 || m.status == 422) }

  predicate Refused(messages: seq<Message>) { exists i :: 0 <= i < |messages| && Refuses(messages[i]) }

  /** What is held back is a conflict or an answer that cannot be processed, and nothing else. */
  lemma RefusesExactly(m: Message)
    ensures Refuses(m) <==> m == Start(409) || m == Start(422)
  {
  }

  /** Where the first refusal starts; the whole length when there is none. */
  function RefusedAt(messages: seq<Message>): (k: nat)
    ensures k <= |messages|
    ensures k < |messages| ==> Refuses(messages[k])
    ensures forall i :: 0 <= i < k ==> !Refuses(messages[i])
  {
    if messages == [] || Refuses(messages[0]) then 0 else 1 + RefusedAt(messages[1..])
  }

  /** `keep`, message by message. */
  method Keep(messages: seq<Message>, hold: bool) returns (sent: seq<Message>, held: seq<Message>)
    ensures sent + held == messages
    ensures !hold ==> held == []
    ensures hold ==> sent == messages[..RefusedAt(messages)] && held == messages[RefusedAt(messages)..]
  {
    sent, held := [], [];
    var i := 0;
    while i < |messages|
      invariant 0 <= i <= |messages|
      invariant sent + held == messages[..i]
      invariant held != [] ==> hold && Refuses(held[0])
      invariant hold ==> forall m :: m in sent ==> !Refuses(m)
    {
      if held != [] || (hold && Refuses(messages[i])) {
        held := held + [messages[i]];
      } else {
        sent := sent + [messages[i]];
      }
      i := i + 1;
    }
    assert messages[..|messages|] == messages;
    if hold {
      var k := RefusedAt(messages);
      assert forall j :: 0 <= j < |sent| ==> messages[j] == sent[j];
      assert held != [] ==> messages[|sent|] == held[0];
      assert k == |sent|;
    }
  }

  /** The request runs again. */
  ghost predicate RunsAgain(first: Run, facts: Facts) {
    && Refused(first.messages)
    && facts.company && facts.placeable(first.messages[RefusedAt(first.messages)..]) && facts.placed
    && !KeptAWrite(first.trace) && facts.reruns
  }

  /** `OlderStockMiddleware`: the request is run, a refusal held back, and the request run again or the refusal sent. */
  method Serve(first: Run, second: Run, facts: Facts)
    returns (client: seq<Message>, runs: nat, ghost durable: seq<string>)
    ensures runs == if RunsAgain(first, facts) then 2 else 1
    ensures client == if runs == 1 then first.messages
                      else first.messages[..RefusedAt(first.messages)] + second.messages
    ensures durable == if runs == 1 then Replay(first.trace).durable else Replay(second.trace).durable
    ensures runs == 2 ==> Replay(first.trace).durable == []
  {
    var sent, held := Keep(first.messages, true);
    var committed := WatchRun(first.trace);
    client, runs := sent, 1;
    durable := Replay(first.trace).durable;
    if held != [] {
      if facts.company && facts.placeable(held) && facts.placed && !committed && facts.reruns {
        var again, none := Keep(second.messages, false);
        client, runs := client + again, 2;
        durable := durable + Replay(second.trace).durable;
      } else {
        client := client + held;
      }
    }
    assert held != [] <==> Refused(first.messages);
  }

  /** An answer's one start message comes first. */
  predicate StartsOnce(messages: seq<Message>) {
    forall i :: 0 < i < |messages| ==> !messages[i].Start?
  }

  /** The client hears one run, whole: the first, or the second with nothing of the first before it. */
  method ServeWellFormed(first: Run, second: Run, facts: Facts) returns (client: seq<Message>, runs: nat)
    requires StartsOnce(first.messages)
    ensures client == if RunsAgain(first, facts) then second.messages else first.messages
    ensures runs <= 2 && (runs == 2 <==> RunsAgain(first, facts))
  {
    ghost var durable;
    client, runs, durable := Serve(first, second, facts);
  }

  /** A run sending anything ahead of its refusal is the one case where the client hears two runs. */
  lemma OneAnswerExactly(first: Run, second: Run)
    requires Refused(first.messages)
    ensures first.messages[..RefusedAt(first.messages)] + second.messages == second.messages
       <==> Refuses(first.messages[0])
  {
    var k := RefusedAt(first.messages);
    assert |first.messages[..k] + second.messages| == k + |second.messages|;
    if Refuses(first.messages[0]) {
      assert k == 0;
    }
  }
}
