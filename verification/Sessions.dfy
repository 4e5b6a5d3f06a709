/**
 * Issuing session tokens against revoking them, in any interleaving of transactions
 * (celerp/credentials.py, celerp/middleware.py, celerp/services/session_tracker.py).
 */
module Sessions {
  import opened Wrappers
  import opened Runs

  type User = nat

  /** A random nonce never repeats: the `nr`th made by one transaction. */
  datatype Nonce = Nonce(txn: nat, nr: nat)

  /** A token as issued: on which nonce, and after which token (a continuation) or on which password (a fresh one). */
  datatype Token = Token(user: User, nonce: Nonce, credential: Credential)

  datatype Credential = Continues(parent: nat) | Fresh(password: nat)

  /** A transaction: the auth-state rows it holds, and what it has written but not committed. */
  datatype Txn = Txn(held: set<User>, nonces: map<User, Nonce>, made: nat, passwords: map<User, nat>, unrotated: set<User>,
                     minted: seq<Token>)

  /**
   * What is committed, the transactions open and over, the tokens a request was
   * authenticated on, and for each user how many tokens were out at the last rotation.
   */
  datatype State = State(nonces: map<User, Nonce>, passwords: map<User, nat>, tokens: seq<Token>, validated: set<nat>,
                         rotatedAt: map<User, nat>, txns: map<nat, Txn>, over: set<nat>)

  datatype Action =
    | Begin(t: nat)
    | Validate(t: nat, token: nat)                                // validate_access_token, in any transaction
    | Lock(t: nat, user: User)                                    // lock_auth_state
    | IssueOn(t: nat, token: nat)                                 // issue_token_pair, expected_snonce given
    | IssueFresh(t: nat, user: User, checked: nat)                // issue_token_pair, expected_snonce None
    | Rotate(t: nat, user: User, expected: Option<Nonce>)         // invalidate_sessions, _rotate_every_nonce
    | SetPassword(t: nat, user: User, password: nat)
    | Commit(t: nat)
    | Abort(t: nat)

  function Get<V>(m: map<User, V>, user: User): Option<V> {
    if user in m then Some(m[user]) else None
  }

  /** The nonce and password a transaction reads: its own write, else what is committed. */
  function Read(s: State, x: Txn, user: User): Option<Nonce> {
    if user in x.nonces then Some(x.nonces[user]) else Get(s.nonces, user)
  }

  function Password(s: State, x: Txn, user: User): Option<nat> {
    if user in x.passwords then Some(x.passwords[user]) else Get(s.passwords, user)
  }

  ghost predicate Enabled(s: State, a: Action) {
    match a
    case Begin(t) => t !in s.txns && t !in s.over
    case Validate(t, k) => t in s.txns && k < |s.tokens|
    case Lock(t, u) => t in s.txns && forall o :: o in s.txns && o != t ==> u !in s.txns[o].held
    // a continuation is issued on the nonce of a token the request was authenticated on, then or earlier
    case IssueOn(t, k) => t in s.txns && k in s.validated && k < |s.tokens| && s.tokens[k].user in s.txns[t].held
    case IssueFresh(t, u, _) => t in s.txns && u in s.txns[t].held
    case Rotate(t, u, _) => t in s.txns && u in s.txns[t].held
    case SetPassword(t, _, _) => t in s.txns
    // a password change is followed by the rotation it is committed with (invalidate_sessions)
    case Commit(t) => t in s.txns && s.txns[t].unrotated == {}
    case Abort(t) => t in s.txns
  }

  /** A transaction whose auth-state row for `user` gets a nonce of its own making. */
  function Renewed(x: Txn, t: nat, user: User): Txn {
    x.(nonces := x.nonces[user := Nonce(t, x.made)], made := x.made + 1, unrotated := x.unrotated - {user})
  }

  /** What an action makes of its transaction; where the source answers 401, it mints nothing. */
  function Changed(s: State, a: Action, x: Txn): Txn
    requires a.IssueOn? ==> a.token < |s.tokens|
  {
    match a
    case Lock(t, u) =>
      var locked := x.(held := x.held + {u});
      if Read(s, x, u).Some? then locked else Renewed(locked, t, u)
    case IssueOn(_, k) =>
      if Read(s, x, s.tokens[k].user) != Some(s.tokens[k].nonce) then x
      else x.(minted := x.minted + [Token(s.tokens[k].user, s.tokens[k].nonce, Continues(k))])
    case IssueFresh(_, u, checked) =>
      if Password(s, x, u) != Some(checked) || Read(s, x, u).None? then x
      else x.(minted := x.minted + [Token(u, Read(s, x, u).value, Fresh(checked))])
    case Rotate(t, u, expected) => if expected.Some? && expected != Read(s, x, u) then x else Renewed(x, t, u)
    case SetPassword(_, u, p) => x.(passwords := x.passwords[u := p], unrotated := x.unrotated + {u})
    case _ => x
  }

  ghost function Apply(s: State, a: Action): State
    requires Enabled(s, a)
  {
    match a
    case Begin(t) => s.(txns := s.txns[t := Txn({}, map[], 0, map[], {}, [])])
    case Validate(_, k) =>
      if Get(s.nonces, s.tokens[k].user) == Some(s.tokens[k].nonce) then s.(validated := s.validated + {k}) else s
    case Commit(t) =>
      var x := s.txns[t];
      State(s.nonces + x.nonces, s.passwords + x.passwords, s.tokens + x.minted, s.validated,
            s.rotatedAt + (map u | u in x.nonces :: |s.tokens|), s.txns - {t}, s.over + {t})
    case Abort(t) => s.(txns := s.txns - {t}, over := s.over + {t})
    case _ => s.(txns := s.txns[a.t := Changed(s, a, s.txns[a.t])])
  }

  ghost predicate Init(s: State) {
    s.nonces == map[] && s.tokens == [] && s.validated == {} && s.rotatedAt == map[] && s.txns == map[] && s.over == {}
  }

  // ---- What every run keeps -----------------------------------------------------------

  /** A continuation comes after a token of the same user on the same nonce, which a request was authenticated on. */
  ghost predicate Descends(tokens: seq<Token>, validated: set<nat>, token: Token) {
    token.credential.Continues? ==>
      var k := token.credential.parent;
      k < |tokens| && k in validated && tokens[k].user == token.user && tokens[k].nonce == token.nonce
  }

  /** A committed token on its user's current nonce is no older than that nonce, and its password is still the user's. */
  ghost predicate TokenFits(s: State, i: nat)
    requires i < |s.tokens|
  {
    var token := s.tokens[i];
    && Descends(s.tokens[..i], s.validated, token) && token.nonce.txn in s.over
    && (Get(s.nonces, token.user) == Some(token.nonce) ==>
          && token.user in s.rotatedAt && s.rotatedAt[token.user] <= i
          && (token.credential.Fresh? ==> Get(s.passwords, token.user) == Some(token.credential.password)))
  }

  /** So will a token waiting for its transaction to commit be. */
  ghost predicate MintedFits(s: State, t: nat, x: Txn, token: Token) {
    && Descends(s.tokens, s.validated, token) && token.user in x.held
    && (token.nonce.txn in s.over || (token.nonce.txn == t && token.nonce.nr < x.made))
    && (Read(s, x, token.user) == Some(token.nonce) && token.credential.Fresh? && token.user !in x.unrotated ==>
          Password(s, x, token.user) == Some(token.credential.password))
  }

  ghost predicate TxnFits(s: State, t: nat, x: Txn) {
    && t !in s.over
    && x.passwords.Keys <= x.nonces.Keys + x.unrotated && x.nonces.Keys <= x.held
    && (forall u :: u in x.nonces ==> x.nonces[u].txn == t && x.nonces[u].nr < x.made)
    && (forall i :: 0 <= i < |x.minted| ==> MintedFits(s, t, x, x.minted[i]))
  }

  ghost predicate Inv(s: State) {
    && (forall i :: 0 <= i < |s.tokens| ==> TokenFits(s, i))
    && (forall t :: t in s.txns ==> TxnFits(s, t, s.txns[t]))
    && (forall t, o, u :: t in s.txns && o in s.txns && u in s.txns[t].held && u in s.txns[o].held ==> t == o)
    && (forall u :: u in s.nonces ==> s.nonces[u].txn in s.over && u in s.rotatedAt && s.rotatedAt[u] <= |s.tokens|)
  }

  /** A token waiting on a nonce the transaction had before is not on the one it makes now. */
  lemma RenewedFits(s: State, t: nat, x: Txn, user: User)
    requires TxnFits(s, t, x) && user in x.held
    ensures TxnFits(s, t, Renewed(x, t, user))
  {
    var y := Renewed(x, t, user);
    forall i | 0 <= i < |y.minted|
      ensures MintedFits(s, t, y, y.minted[i])
    {
      assert MintedFits(s, t, x, x.minted[i]);
      assert x.minted[i].nonce != Nonce(t, x.made);
    }
  }

  lemma HeldFits(s: State, t: nat, x: Txn, user: User)
    requires TxnFits(s, t, x)
    ensures TxnFits(s, t, x.(held := x.held + {user}))
  {
    var y := x.(held := x.held + {user});
    forall i | 0 <= i < |y.minted|
      ensures MintedFits(s, t, y, y.minted[i])
    {
      assert MintedFits(s, t, x, x.minted[i]);
    }
  }

  lemma MintedOneMore(s: State, t: nat, x: Txn, token: Token)
    requires TxnFits(s, t, x) && MintedFits(s, t, x, token)
    ensures TxnFits(s, t, x.(minted := x.minted + [token]))
  {
    var y := x.(minted := x.minted + [token]);
    forall i | 0 <= i < |y.minted|
      ensures MintedFits(s, t, y, y.minted[i])
    {
      assert MintedFits(s, t, x, if i < |x.minted| then x.minted[i] else token);
    }
  }

  lemma PasswordFits(s: State, t: nat, x: Txn, user: User, password: nat)
    requires TxnFits(s, t, x)
    ensures TxnFits(s, t, x.(passwords := x.passwords[user := password], unrotated := x.unrotated + {user}))
  {
    var y := x.(passwords := x.passwords[user := password], unrotated := x.unrotated + {user});
    forall i | 0 <= i < |y.minted|
      ensures MintedFits(s, t, y, y.minted[i])
    {
      assert MintedFits(s, t, x, x.minted[i]);
    }
  }

  /** The nonce a transaction reads was made by one that is over, or by itself. */
  lemma ReadFits(s: State, t: nat, user: User)
    requires Inv(s) && t in s.txns
    ensures var n := Read(s, s.txns[t], user);
            n.Some? ==> n.value.txn in s.over || (n.value.txn == t && n.value.nr < s.txns[t].made)
  {
    assert TxnFits(s, t, s.txns[t]);
  }

  lemma IssuedFits(s: State, a: Action)
    requires Inv(s) && Enabled(s, a) && (a.IssueOn? || a.IssueFresh?)
    ensures TxnFits(s, a.t, Changed(s, a, s.txns[a.t]))
  {
    var x := s.txns[a.t];
    assert TxnFits(s, a.t, x);
    if a.IssueOn? {
      var parent := s.tokens[a.token];
      ReadFits(s, a.t, parent.user);
      if Read(s, x, parent.user) == Some(parent.nonce) {
        MintedOneMore(s, a.t, x, Token(parent.user, parent.nonce, Continues(a.token)));
      }
    } else {
      ReadFits(s, a.t, a.user);
      if Password(s, x, a.user) == Some(a.checked) && Read(s, x, a.user).Some? {
        MintedOneMore(s, a.t, x, Token(a.user, Read(s, x, a.user).value, Fresh(a.checked)));
      }
    }
  }

  lemma ChangedFits(s: State, a: Action)
    requires Inv(s) && Enabled(s, a) && !a.Begin? && !a.Validate? && !a.Commit? && !a.Abort?
    ensures TxnFits(s, a.t, Changed(s, a, s.txns[a.t]))
  {
    var x := s.txns[a.t];
    assert TxnFits(s, a.t, x);
    match a {
      case Lock(t, u) =>
        HeldFits(s, t, x, u);
        RenewedFits(s, t, x.(held := x.held + {u}), u);
      case Rotate(t, u, _) => RenewedFits(s, t, x, u);
      case SetPassword(t, u, p) => PasswordFits(s, t, x, u, p);
      case _ => IssuedFits(s, a);
    }
  }

  /** A change to one transaction, in rows no other holds, leaves all else as it was. */
  lemma LocalStep(s: State, t: nat, x: Txn)
    requires Inv(s) && TxnFits(s, t, x)
    requires forall o, u :: o in s.txns && o != t && u in x.held ==> u !in s.txns[o].held
    ensures Inv(s.(txns := s.txns[t := x]))
  {
    var s' := s.(txns := s.txns[t := x]);
    forall i | 0 <= i < |s'.tokens|
      ensures TokenFits(s', i)
    {
      assert TokenFits(s, i);
    }
    forall o | o in s'.txns
      ensures TxnFits(s', o, s'.txns[o])
    {
      TxnFitsAlike(s, s', o, s'.txns[o]);
    }
  }

  lemma TxnFitsAlike(s: State, s': State, t: nat, x: Txn)
    requires TxnFits(s, t, x) && s' == s.(txns := s'.txns, validated := s'.validated) && s.validated <= s'.validated
    ensures TxnFits(s', t, x)
  {
    forall i | 0 <= i < |x.minted|
      ensures MintedFits(s', t, x, x.minted[i])
    {
      assert MintedFits(s, t, x, x.minted[i]);
    }
  }

  lemma OldTokenFits(s: State, t: nat, i: nat)
    requires Inv(s) && Enabled(s, Commit(t)) && i < |s.tokens|
    ensures TokenFits(Apply(s, Commit(t)), i)
  {
    var s' := Apply(s, Commit(t));
    assert TokenFits(s, i) && s'.tokens[..i] == s.tokens[..i] && s'.tokens[i] == s.tokens[i];
    assert TxnFits(s, t, s.txns[t]);
  }

  lemma NewTokenFits(s: State, t: nat, i: nat)
    requires Inv(s) && Enabled(s, Commit(t)) && |s.tokens| <= i < |s.tokens| + |s.txns[t].minted|
    ensures TokenFits(Apply(s, Commit(t)), i)
  {
    var s', x := Apply(s, Commit(t)), s.txns[t];
    assert TxnFits(s, t, x);
    var token := x.minted[i - |s.tokens|];
    assert MintedFits(s, t, x, token) && s'.tokens[i] == token;
    assert s.tokens <= s'.tokens[..i];
  }

  lemma CommittedTokensFit(s: State, t: nat)
    requires Inv(s) && Enabled(s, Commit(t))
    ensures var s' := Apply(s, Commit(t)); forall i :: 0 <= i < |s'.tokens| ==> TokenFits(s', i)
  {
    forall i | 0 <= i < |Apply(s, Commit(t)).tokens|
      ensures TokenFits(Apply(s, Commit(t)), i)
    {
      if i < |s.tokens| {
        OldTokenFits(s, t, i);
      } else {
        NewTokenFits(s, t, i);
      }
    }
  }

  lemma OtherMintedFits(s: State, a: Action, o: nat, token: Token)
    requires Inv(s) && Enabled(s, a) && (a.Commit? || a.Abort?) && o in s.txns && o != a.t
    requires MintedFits(s, o, s.txns[o], token)
    ensures MintedFits(Apply(s, a), o, s.txns[o], token)
  {
    assert TxnFits(s, a.t, s.txns[a.t]);
    assert token.user !in s.txns[a.t].held;
  }

  lemma OtherFitsAfter(s: State, a: Action, o: nat)
    requires Inv(s) && Enabled(s, a) && (a.Commit? || a.Abort?) && o in s.txns && o != a.t
    ensures TxnFits(Apply(s, a), o, s.txns[o])
  {
    var x := s.txns[o];
    assert TxnFits(s, o, x);
    forall i | 0 <= i < |x.minted|
      ensures MintedFits(Apply(s, a), o, x, x.minted[i])
    {
      assert MintedFits(s, o, x, x.minted[i]);
      OtherMintedFits(s, a, o, x.minted[i]);
    }
  }

  lemma ValidatedFits(s: State, a: Action)
    requires Inv(s) && Enabled(s, a) && a.Validate?
    ensures Inv(Apply(s, a))
  {
    var s' := Apply(s, a);
    forall i | 0 <= i < |s'.tokens|
      ensures TokenFits(s', i)
    {
      assert TokenFits(s, i);
    }
    forall t | t in s'.txns
      ensures TxnFits(s', t, s'.txns[t])
    {
      TxnFitsAlike(s, s', t, s'.txns[t]);
    }
  }

  lemma CommitKeeps(s: State, t: nat)
    requires Inv(s) && Enabled(s, Commit(t))
    ensures Inv(Apply(s, Commit(t)))
  {
    forall o | o in s.txns && o != t
      ensures TxnFits(Apply(s, Commit(t)), o, s.txns[o])
    {
      OtherFitsAfter(s, Commit(t), o);
    }
    assert TxnFits(s, t, s.txns[t]);
    CommittedTokensFit(s, t);
  }

  lemma AbortKeeps(s: State, t: nat)
    requires Inv(s) && Enabled(s, Abort(t))
    ensures Inv(Apply(s, Abort(t)))
  {
    forall o | o in s.txns && o != t
      ensures TxnFits(Apply(s, Abort(t)), o, s.txns[o])
    {
      OtherFitsAfter(s, Abort(t), o);
    }
    forall i | 0 <= i < |s.tokens|
      ensures TokenFits(Apply(s, Abort(t)), i)
    {
      assert TokenFits(s, i);
    }
  }

  lemma StepKeeps(s: State, a: Action)
    requires Inv(s) && Enabled(s, a)
    ensures Inv(Apply(s, a))
  {
    match a {
      case Commit(t) => CommitKeeps(s, t);
      case Abort(t) => AbortKeeps(s, t);
      case Validate(_, _) => ValidatedFits(s, a);
      case Begin(t) => LocalStep(s, t, Txn({}, map[], 0, map[], {}, []));
      case _ =>
        ChangedFits(s, a);
        LocalStep(s, a.t, Changed(s, a, s.txns[a.t]));
    }
  }

  // ---- Runs ---------------------------------------------------------------------------

  ghost function Step(s: State, a: Action): Option<State> {
    if Enabled(s, a) then Some(Apply(s, a)) else None
  }

  lemma RunKeeps(s: State, actions: seq<Action>, t: State)
    requires (Init(s) || Inv(s)) && Leads(Step, s, actions, t)
    ensures Inv(t)
  {
    forall x, a | Inv(x) && Step(x, a).Some?
      ensures Inv(Step(x, a).value)
    {
      StepKeeps(x, a);
    }
    assert Inv(s);
    Kept(Step, Inv, s, actions, t);
  }

  /** The token and those it was issued after, one before another, back to a fresh credential. */
  ghost predicate Lineage(s: State, line: seq<nat>, token: nat) {
    && line != [] && line[0] == token
    && (forall i :: 0 <= i < |line| ==> line[i] < |s.tokens|)
    && (forall i :: 0 < i < |line| ==> line[i] in s.validated && s.tokens[line[i - 1]].credential == Continues(line[i]))
    && s.tokens[line[|line| - 1]].credential.Fresh?
  }

  lemma {:induction false} EveryTokenHasALineage(s: State, token: nat) returns (line: seq<nat>)
    requires Inv(s) && token < |s.tokens|
    ensures Lineage(s, line, token)
    ensures forall i :: 0 <= i < |line| ==>
      s.tokens[line[i]].nonce == s.tokens[token].nonce && s.tokens[line[i]].user == s.tokens[token].user
  {
    assert TokenFits(s, token);
    if s.tokens[token].credential.Fresh? {
      line := [token];
    } else {
      var rest := EveryTokenHasALineage(s, s.tokens[token].credential.parent);
      line := [token] + rest;
      assert forall i :: 0 < i < |line| ==> line[i] == rest[i - 1];
    }
  }

  /**
   * In every interleaving: each token out on its user's current nonce descends, through
   * continuations that requests were authenticated on, all on that same nonce, from a fresh
   * credential. All of them were issued since the last rotation, and the password that
   * credential was checked against is still the user's.
   */
  lemma CurrentTokensDescend(s: State, actions: seq<Action>, t: State, token: nat) returns (line: seq<nat>)
    requires Init(s) && Leads(Step, s, actions, t)
    requires token < |t.tokens| && Get(t.nonces, t.tokens[token].user) == Some(t.tokens[token].nonce)
    ensures Lineage(t, line, token)
    ensures forall i :: 0 <= i < |line| ==>
      && t.tokens[line[i]].nonce == t.tokens[token].nonce && t.tokens[line[i]].user == t.tokens[token].user
      && t.tokens[token].user in t.rotatedAt && t.rotatedAt[t.tokens[token].user] <= line[i]
    ensures Get(t.passwords, t.tokens[token].user) == Some(t.tokens[line[|line| - 1]].credential.password)
  {
    RunKeeps(s, actions, t);
    line := EveryTokenHasALineage(t, token);
    forall i | 0 <= i < |line|
      ensures TokenFits(t, line[i])
    {
    }
  }

  /** A continuation never lands on another nonce than the one it was authenticated on, whatever rotates meanwhile. */
  lemma ContinuationsStayPut(s: State, actions: seq<Action>, t: State, token: nat)
    requires Init(s) && Leads(Step, s, actions, t) && token < |t.tokens| && t.tokens[token].credential.Continues?
    ensures var k := t.tokens[token].credential.parent;
      k < token && k in t.validated && t.tokens[k].user == t.tokens[token].user && t.tokens[k].nonce == t.tokens[token].nonce
  {
    RunKeeps(s, actions, t);
    assert TokenFits(t, token);
  }

  // ---- What a revocation revokes --------------------------------------------------------

  /** The transaction will commit a new nonce for the user. */
  ghost predicate WillRotate(s: State, t: nat, user: User) {
    t in s.txns && user in s.txns[t].nonces
  }

  /** The revocation goes through: nothing else was expected. */
  ghost predicate Revokes(s: State, a: Action) {
    a.Rotate? && Enabled(s, a) && (a.expected.None? || a.expected == Read(s, s.txns[a.t], a.user))
  }

  lemma RevocationRotates(s: State, a: Action)
    requires Revokes(s, a)
    ensures WillRotate(Apply(s, a), a.t, a.user)
  {
  }

  /** One that expected another nonce changes nothing. */
  lemma StaleRevocationDoesNothing(s: State, t: nat, user: User, expected: Option<Nonce>)
    requires Enabled(s, Rotate(t, user, expected)) && expected.Some? && expected != Read(s, s.txns[t], user)
    ensures Apply(s, Rotate(t, user, expected)) == s
  {
    assert s.txns[t := s.txns[t]] == s.txns;
  }

  /** A transaction keeps what it is to rotate until it is over, and it is over once. */
  lemma StillRotates(s: State, a: Action, t: nat, user: User)
    requires Inv(s) && Enabled(s, a) && WillRotate(s, t, user)
    ensures WillRotate(Apply(s, a), t, user) || t in Apply(s, a).over
  {
  }

  lemma OverStaysOver(s: State, a: Action, t: nat)
    requires Inv(s) && Enabled(s, a) && t in s.over
    ensures t in Apply(s, a).over
  {
  }

  lemma {:induction false} RotatesUntilOver(s: State, actions: seq<Action>, c: State, t: nat, user: User)
    requires Inv(s) && (WillRotate(s, t, user) || t in s.over) && Leads(Step, s, actions, c)
    ensures Inv(c) && (t in c.txns ==> WillRotate(c, t, user))
    decreases |actions|
  {
    if actions == [] {
      assert t in c.txns ==> TxnFits(c, t, c.txns[t]);
    } else {
      StepKeeps(s, actions[0]);
      if t in s.over {
        OverStaysOver(s, actions[0], t);
      } else {
        StillRotates(s, actions[0], t, user);
      }
      RotatesUntilOver(Apply(s, actions[0]), actions[1..], c, t, user);
    }
  }

  /** The first `n` tokens of the user are from before the last rotation. */
  ghost predicate RevokedBefore(s: State, user: User, n: nat) {
    n <= |s.tokens| && user in s.rotatedAt && n <= s.rotatedAt[user]
  }

  lemma StillRevoked(s: State, a: Action, user: User, n: nat)
    requires Inv(s) && Enabled(s, a) && RevokedBefore(s, user, n)
    ensures RevokedBefore(Apply(s, a), user, n) && s.tokens <= Apply(s, a).tokens
  {
  }

  lemma {:induction false} RevokedStays(s: State, actions: seq<Action>, z: State, user: User, n: nat)
    requires Inv(s) && RevokedBefore(s, user, n) && Leads(Step, s, actions, z)
    ensures Inv(z) && RevokedBefore(z, user, n) && s.tokens <= z.tokens
    decreases |actions|
  {
    if actions != [] {
      StepKeeps(s, actions[0]);
      StillRevoked(s, actions[0], user, n);
      RevokedStays(Apply(s, actions[0]), actions[1..], z, user, n);
    }
  }

  /** No request is authenticated on the token any more, and no continuation is issued on it. */
  ghost predicate Rejected(s: State, k: nat)
    requires k < |s.tokens|
  {
    && Get(s.nonces, s.tokens[k].user) != Some(s.tokens[k].nonce)
    && (forall t :: Enabled(s, Validate(t, k)) ==> Apply(s, Validate(t, k)) == s)
    && (forall t :: Enabled(s, IssueOn(t, k)) ==> Apply(s, IssueOn(t, k)).txns[t] == s.txns[t])
  }

  lemma OldTokenIsRejected(s: State, user: User, n: nat, k: nat)
    requires Inv(s) && RevokedBefore(s, user, n) && k < n && s.tokens[k].user == user
    ensures Rejected(s, k)
  {
    assert TokenFits(s, k);
    forall t | Enabled(s, IssueOn(t, k))
      ensures Apply(s, IssueOn(t, k)).txns[t] == s.txns[t]
    {
      assert TxnFits(s, t, s.txns[t]);
    }
  }

  /**
   * In every interleaving: once a revocation of the user has committed, every token of the user out by then
   * is rejected, at once and ever after, whether or not a request was authenticated on it before.
   */
  lemma RevocationRevokes(s0: State, before: seq<Action>, s: State, revoke: Action, on: seq<Action>, c: State,
                          after: seq<Action>, z: State, k: nat)
    requires Init(s0) && Leads(Step, s0, before, s) && Revokes(s, revoke)
    requires Leads(Step, Apply(s, revoke), on, c) && Enabled(c, Commit(revoke.t))
    requires Leads(Step, Apply(c, Commit(revoke.t)), after, z)
    requires k < |c.tokens| && c.tokens[k].user == revoke.user
    ensures k < |z.tokens| && z.tokens[k] == c.tokens[k] && Rejected(z, k)
  {
    RunKeeps(s0, before, s);
    StepKeeps(s, revoke);
    RevocationRotates(s, revoke);
    RotatesUntilOver(Apply(s, revoke), on, c, revoke.t, revoke.user);
    var d := Apply(c, Commit(revoke.t));
    StepKeeps(c, Commit(revoke.t));
    assert RevokedBefore(d, revoke.user, |c.tokens|);
    assert c.tokens <= d.tokens;
    RevokedStays(d, after, z, revoke.user, |c.tokens|);
    OldTokenIsRejected(z, revoke.user, |c.tokens|, k);
  }

  // ---- What is issued -------------------------------------------------------------------

  /** A token that is not revoked is accepted. */
  lemma CurrentTokenIsAccepted(s: State, t: nat, k: nat)
    requires Enabled(s, Validate(t, k))
    ensures k in Apply(s, Validate(t, k)).validated
       <==> k in s.validated || Get(s.nonces, s.tokens[k].user) == Some(s.tokens[k].nonce)
    ensures Apply(s, Validate(t, k)) == s.(validated := Apply(s, Validate(t, k)).validated)
  {
  }

  lemma LockedRowIsHeld(s: State, t: nat, user: User)
    requires Enabled(s, Lock(t, user))
    ensures var x := Apply(s, Lock(t, user)).txns[t];
      && user in x.held && Read(Apply(s, Lock(t, user)), x, user).Some? && x.minted == s.txns[t].minted
      && (Read(s, s.txns[t], user).Some? ==> x == s.txns[t].(held := s.txns[t].held + {user}))
  {
  }

  /** What a transaction reads is what is there once it has committed, and what it minted is then out. */
  lemma CommitMakesItSo(s: State, t: nat)
    requires Enabled(s, Commit(t))
    ensures var x, z := s.txns[t], Apply(s, Commit(t));
      && (forall u :: Get(z.nonces, u) == Read(s, x, u) && Get(z.passwords, u) == Password(s, x, u))
      && z.tokens == s.tokens + x.minted && z.validated == s.validated && t !in z.txns && t in z.over
      && (forall o :: o != t && o in s.txns ==> o in z.txns && z.txns[o] == s.txns[o])
  {
  }

  /** And nothing of it when it is aborted. */
  lemma AbortLeavesNothing(s: State, t: nat)
    requires Enabled(s, Abort(t))
    ensures var z := Apply(s, Abort(t));
      && z.nonces == s.nonces && z.passwords == s.passwords && z.tokens == s.tokens && z.validated == s.validated
      && t !in z.txns && t in z.over && (forall o :: o != t && o in s.txns ==> o in z.txns && z.txns[o] == s.txns[o])
  {
  }

  /** A continuation on the nonce still current is out with the commit; on any other, none ever is. */
  lemma ContinuationIsIssued(s: State, t: nat, k: nat)
    requires Enabled(s, IssueOn(t, k)) && s.txns[t].unrotated == {}
    ensures var y := Apply(s, IssueOn(t, k)); var z := Apply(y, Commit(t));
      if Read(s, s.txns[t], s.tokens[k].user) == Some(s.tokens[k].nonce)
      then z.tokens == s.tokens + s.txns[t].minted + [Token(s.tokens[k].user, s.tokens[k].nonce, Continues(k))]
      else z.tokens == s.tokens + s.txns[t].minted
  {
  }

  /** So is a fresh credential, on the nonce read, when the password checked is still the user's. */
  lemma FreshCredentialIsIssued(s: State, t: nat, user: User, checked: nat)
    requires Enabled(s, IssueFresh(t, user, checked)) && s.txns[t].unrotated == {} && Read(s, s.txns[t], user).Some?
    ensures var y := Apply(s, IssueFresh(t, user, checked)); var z := Apply(y, Commit(t));
      if Password(s, s.txns[t], user) == Some(checked)
      then z.tokens == s.tokens + s.txns[t].minted + [Token(user, Read(s, s.txns[t], user).value, Fresh(checked))]
      else z.tokens == s.tokens + s.txns[t].minted
  {
  }

  /** A password set, and the rotation it is committed with, are what the next sign-in is checked against. */
  lemma PasswordIsSet(s: State, t: nat, user: User, password: nat)
    requires Inv(s) && t in s.txns && user in s.txns[t].held && s.txns[t].unrotated <= {user}
    ensures var y := Apply(s, SetPassword(t, user, password)); var r := Apply(y, Rotate(t, user, None));
      && !Enabled(y, Commit(t)) && Enabled(r, Commit(t))
      && var z := Apply(r, Commit(t));
         Get(z.passwords, user) == Some(password) && Get(z.nonces, user) != Get(s.nonces, user) && Get(z.nonces, user).Some?
  {
    assert TxnFits(s, t, s.txns[t]);
    var y := Apply(s, SetPassword(t, user, password));
    assert user in y.txns[t].unrotated;
    var r := Apply(y, Rotate(t, user, None));
    assert r.txns[t].unrotated == {};
  }

  // ---- A session from its start ---------------------------------------------------------

  function Empty(): State { State(map[], map[], [], {}, map[], map[], {}) }

  function NewTxn(): Txn { Txn({}, map[], 0, map[], {}, []) }

  lemma BeginsEmpty(s: State, t: nat)
    requires Enabled(s, Begin(t))
    ensures Apply(s, Begin(t)) == s.(txns := s.txns[t := NewTxn()])
  {
  }

  /** A user registers with a password and is signed in. */
  function Registration(user: User, password: nat): seq<Action> {
    [Begin(0), Lock(0, user)] + [SetPassword(0, user, password), Rotate(0, user, None)] + [IssueFresh(0, user, password), Commit(0)]
  }

  function Registered(user: User, password: nat): State {
    State(map[user := Nonce(0, 1)], map[user := password], [Token(user, Nonce(0, 1), Fresh(password))], {},
          map[user := 0], map[], {0})
  }

  lemma Registers(user: User, password: nat)
    ensures Init(Empty()) && Leads(Step, Empty(), Registration(user, password), Registered(user, password))
  {
    var begun := Apply(Empty(), Begin(0));
    var locked := Apply(begun, Lock(0, user));
    var put := Apply(locked, SetPassword(0, user, password));
    var rotated := Apply(put, Rotate(0, user, None));
    var issued := Apply(rotated, IssueFresh(0, user, password));
    assert locked.txns[0] == Txn({user}, map[user := Nonce(0, 0)], 1, map[], {}, []);
    assert put.txns[0] == Txn({user}, map[user := Nonce(0, 0)], 1, map[user := password], {user}, []);
    assert rotated.txns[0] == Txn({user}, map[user := Nonce(0, 1)], 2, map[user := password], {}, []);
    assert rotated.txns == map[0 := rotated.txns[0]];
    RegisteredThen(issued, user, password, rotated);
    Two(Step, Empty(), Begin(0), begun, Lock(0, user), locked);
    Two(Step, locked, SetPassword(0, user, password), put, Rotate(0, user, None), rotated);
    Two(Step, rotated, IssueFresh(0, user, password), issued, Commit(0), Registered(user, password));
    LeadsThrough(Step, Empty(), [Begin(0), Lock(0, user)], locked, [SetPassword(0, user, password), Rotate(0, user, None)], rotated);
    LeadsThrough(Step, Empty(), [Begin(0), Lock(0, user)] + [SetPassword(0, user, password), Rotate(0, user, None)], rotated,
                 [IssueFresh(0, user, password), Commit(0)], Registered(user, password));
  }

  lemma RegisteredThen(s: State, user: User, password: nat, before: State)
    requires before == Empty().(txns := map[0 := Txn({user}, map[user := Nonce(0, 1)], 2, map[user := password], {}, [])])
    requires Enabled(before, IssueFresh(0, user, password)) && s == Apply(before, IssueFresh(0, user, password))
    ensures Enabled(s, Commit(0)) && Apply(s, Commit(0)) == Registered(user, password)
  {
    var z := Apply(s, Commit(0));
    assert z.tokens == Registered(user, password).tokens;
    assert z.rotatedAt == map[user := 0];
    assert z.txns == map[];
  }

  /** A later request is authenticated on that token. */
  function Authenticated(user: User, password: nat): State {
    State(map[user := Nonce(0, 1)], map[user := password], [Token(user, Nonce(0, 1), Fresh(password))], {0},
          map[user := 0], map[1 := NewTxn()], {0})
  }

  lemma IsAuthenticated(user: User, password: nat)
    ensures Leads(Step, Registered(user, password), [Begin(1), Validate(1, 0)], Authenticated(user, password))
  {
    var s := Registered(user, password);
    var begun := Apply(s, Begin(1));
    assert begun == s.(txns := map[1 := NewTxn()]);
    assert Apply(begun, Validate(1, 0)) == Authenticated(user, password);
    Two(Step, s, Begin(1), begun, Validate(1, 0), Authenticated(user, password));
  }

  lemma IsContinued(user: User, password: nat) returns (t: State)
    ensures Leads(Step, Authenticated(user, password), [Lock(1, user), IssueOn(1, 0)] + [Commit(1)], t)
    ensures t.tokens == Authenticated(user, password).tokens + [Token(user, Nonce(0, 1), Continues(0))]
    ensures Get(t.nonces, user) == Some(Nonce(0, 1)) && t.validated == {0}
  {
    var s := Authenticated(user, password);
    var locked := Apply(s, Lock(1, user));
    assert locked.txns[1] == NewTxn().(held := {user});
    var issued := Apply(locked, IssueOn(1, 0));
    t := Apply(issued, Commit(1));
    ContinuationIsIssued(locked, 1, 0);
    CommitMakesItSo(issued, 1);
    Two(Step, s, Lock(1, user), locked, IssueOn(1, 0), issued);
    Further(Step, s, [Lock(1, user), IssueOn(1, 0)], issued, Commit(1), t);
  }

  /** And slides the session on. */
  lemma SlidesOn(user: User, password: nat) returns (actions: seq<Action>, t: State)
    ensures Leads(Step, Registered(user, password), actions, t) && t.validated == {0}
    ensures t.tokens == Registered(user, password).tokens + [Token(user, Nonce(0, 1), Continues(0))]
    ensures Get(t.nonces, user) == Some(Nonce(0, 1))
  {
    IsAuthenticated(user, password);
    t := IsContinued(user, password);
    var on := [Lock(1, user), IssueOn(1, 0)] + [Commit(1)];
    LeadsThrough(Step, Registered(user, password), [Begin(1), Validate(1, 0)], Authenticated(user, password), on, t);
    actions := [Begin(1), Validate(1, 0)] + on;
  }
}
