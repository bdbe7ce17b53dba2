/** Refresh-token rotation with reuse detection.

    Only hashes are stored, hashing is injective and plaintexts are never reused, so presenting a
    plaintext is presenting the id of at most one row. */
module Sessions {
  import opened Basics

  datatype Token = Token(user: Id, expiresAt: int, revokedAt: Option<int>, replacedBy: Option<Id>)

  type Tokens = map<Id, Token>

  predicate Live(tokens: Tokens, id: Id) {
    id in tokens && tokens[id].revokedAt.None?
  }

  function Create(tokens: Tokens, id: Id, user: Id, expiresAt: int): Tokens {
    tokens[id := Token(user, expiresAt, None, None)]
  }

  /** rotateRefreshToken's transaction: the old row is revoked whatever it was, the new one created. */
  function Rotate(tokens: Tokens, presented: Id, next: Id, expiresAt: int, now: int): Tokens
    requires presented in tokens
  {
    Create(tokens[presented := tokens[presented].(revokedAt := Some(now))], next, tokens[presented].user, expiresAt)
  }

  function Link(tokens: Tokens, presented: Id, next: Id): Tokens
    requires presented in tokens
  {
    tokens[presented := tokens[presented].(replacedBy := Some(next))]
  }

  function RevokeAllForUser(tokens: Tokens, user: Id, now: int): Tokens {
    map id | id in tokens ::
      if tokens[id].user == user && tokens[id].revokedAt.None? then tokens[id].(revokedAt := Some(now)) else tokens[id]
  }

  function Revoke(tokens: Tokens, id: Id, now: int): Tokens {
    if Live(tokens, id) then tokens[id := tokens[id].(revokedAt := Some(now))] else tokens
  }

  /** The checks of refreshSession that let a rotation go ahead. */
  predicate Exchangeable(tokens: Tokens, users: set<Id>, id: Id, now: int) {
    Live(tokens, id) && tokens[id].expiresAt >= now && tokens[id].user in users
  }

  /** One refreshSession as one step; `next` is the row id of the token it issues. */
  function Refresh(tokens: Tokens, users: set<Id>, id: Id, next: Id, ttl: int, now: int): Tokens {
    if id !in tokens then tokens
    else if tokens[id].revokedAt.Some? then RevokeAllForUser(tokens, tokens[id].user, now)
    else if !Exchangeable(tokens, users, id, now) then tokens
    else Link(Rotate(tokens, id, next, now + ttl, now), id, next)
  }

  class SessionService {
    var tokens: Tokens
    const users: set<Id>
    const ttl: int

    constructor (users: set<Id>, ttl: int)
      ensures tokens == map[] && this.users == users && this.ttl == ttl
    {
      tokens, this.users, this.ttl := map[], users, ttl;
    }

    method IssueRefreshToken(user: Id, id: Id, now: int)
      requires id !in tokens
      modifies this
      ensures tokens == Create(old(tokens), id, user, now + ttl)
    {
      tokens := tokens[id := Token(user, now + ttl, None, None)];
    }

    method RotateRefreshToken(presented: Id, user: Id, next: Id, expiresAt: int, now: int)
      requires presented in tokens && tokens[presented].user == user && next !in tokens
      modifies this
      ensures tokens == Link(Rotate(old(tokens), presented, next, expiresAt, now), presented, next)
    {
      tokens := tokens[presented := tokens[presented].(revokedAt := Some(now))][next := Token(user, expiresAt, None, None)];
      tokens := tokens[presented := tokens[presented].(replacedBy := Some(next))];
    }

    /** Answers with the user, or throws (None). */
    method RefreshSession(id: Id, next: Id, now: int) returns (user: Option<Id>)
      requires next !in tokens
      modifies this
      ensures tokens == Refresh(old(tokens), users, id, next, ttl, now)
      ensures user == if Exchangeable(old(tokens), users, id, now) then Some(old(tokens)[id].user) else None
      ensures user.Some? <==>
                && id in old(tokens) && old(tokens)[id].revokedAt == None
                && now <= old(tokens)[id].expiresAt && old(tokens)[id].user in users
      ensures user.Some? ==>
                var was := old(tokens)[id];
                && user.value == was.user
                && tokens == old(tokens)[id := Token(was.user, was.expiresAt, Some(now), Some(next))]
                                        [next := Token(was.user, now + ttl, None, None)]
    {
      if id !in tokens {
        return None;
      }
      var record := tokens[id];
      if record.revokedAt.Some? {
        tokens := RevokeAllForUser(tokens, record.user, now);
        return None;
      }
      if record.expiresAt < now || record.user !in users {
        return None;
      }
      RotateRefreshToken(id, record.user, next, now + ttl, now);
      user := Some(record.user);
    }

    method EndSession(id: Id, now: int)
      modifies this
      ensures tokens == Revoke(old(tokens), id, now)
    {
      if id in tokens && tokens[id].revokedAt.None? {
        tokens := tokens[id := tokens[id].(revokedAt := Some(now))];
      }
    }
  }

  // ---- Reuse -----------------------------------------------------------------------------

  /** Presenting a token that is already revoked leaves its user without any live token and every other
      user's tokens exactly as they were; nobody gets a new one. */
  lemma ReuseSignsOut(tokens: Tokens, users: set<Id>, id: Id, next: Id, ttl: int, now: int)
    requires id in tokens && tokens[id].revokedAt.Some?
    ensures var tokens' := Refresh(tokens, users, id, next, ttl, now);
            && tokens'.Keys == tokens.Keys
            && (forall x :: x in tokens && tokens[x].user == tokens[id].user ==> !Live(tokens', x))
            && (forall x :: x in tokens && tokens[x].user != tokens[id].user ==> tokens'[x] == tokens[x])
            && (forall x :: x in tokens && tokens[x].user == tokens[id].user ==>
                  tokens'[x] == if Live(tokens, x) then tokens[x].(revokedAt := Some(now)) else tokens[x])
  {
  }

  function LiveTokens(tokens: Tokens, user: Id): set<Id> {
    set id | id in tokens && tokens[id].user == user && Live(tokens, id)
  }

  /** A token just issued can be exchanged from any moment up to its expiry, and is one session more for
      its user and for nobody else. */
  lemma IssueOpensOneSession(tokens: Tokens, users: set<Id>, id: Id, user: Id, ttl: int, issued: int, now: int)
    requires id !in tokens
    ensures var tokens' := Create(tokens, id, user, issued + ttl);
            && (Exchangeable(tokens', users, id, now) <==> now <= issued + ttl && user in users)
            && forall u :: LiveTokens(tokens', u) == LiveTokens(tokens, u) + (if u == user then {id} else {})
  {
  }

  /** Signing out ends exactly the presented session; a second time, or with an unknown token, it changes
      nothing. */
  lemma SignOutEndsOneSession(tokens: Tokens, id: Id, now: int, later: int)
    ensures Revoke(Revoke(tokens, id, now), id, later) == Revoke(tokens, id, now)
    ensures id !in tokens ==> Revoke(tokens, id, now) == tokens
    ensures forall u :: LiveTokens(Revoke(tokens, id, now), u) == LiveTokens(tokens, u) - {id}
  {
  }

  /** A token that was signed out is a revoked token like any other: presented again, it ends every other
      session of its user, and no session of anyone else. */
  lemma RefreshAfterSignOut(tokens: Tokens, users: set<Id>, id: Id, next: Id, ttl: int, ended: int, now: int)
    requires id in tokens
    ensures var tokens' := Refresh(Revoke(tokens, id, ended), users, id, next, ttl, now);
            && LiveTokens(tokens', tokens[id].user) == {}
            && forall u :: u != tokens[id].user ==> LiveTokens(tokens', u) == LiveTokens(tokens, u)
  {
    ReuseSignsOut(Revoke(tokens, id, ended), users, id, next, ttl, now);
  }

  /** A refresh renews the session: the new token passes the checks of a later refresh exactly until `ttl`
      after this one, whatever was left of the old token, which passes them no more. */
  lemma RefreshRenews(tokens: Tokens, users: set<Id>, id: Id, next: Id, ttl: int, now: int, later: set<Id>, t: int)
    requires Exchangeable(tokens, users, id, now) && next !in tokens
    ensures var tokens' := Refresh(tokens, users, id, next, ttl, now);
            && (Exchangeable(tokens', later, next, t) <==> t <= now + ttl && tokens[id].user in later)
            && !Exchangeable(tokens', later, id, t)
            && forall u :: LiveTokens(tokens', u) ==
                 if u == tokens[id].user then LiveTokens(tokens, u) - {id} + {next} else LiveTokens(tokens, u)
  {
  }

  /** The tokens after presenting each id in turn for the next one. */
  function Refreshed(tokens: Tokens, users: set<Id>, ttl: int, ids: seq<Id>, times: seq<int>): Tokens
    requires |ids| == |times| + 1
  {
    if times == [] then tokens
    else
      var n := |times|;
      Refresh(Refreshed(tokens, users, ttl, ids[..n], times[..n - 1]), users, ids[n - 1], ids[n], ttl, times[n - 1])
  }

  /** A session refreshed at least every `ttl` never ends, however long ago its first token was issued. */
  lemma {:induction false} SessionInUseStaysAlive(tokens: Tokens, users: set<Id>, ttl: int, ids: seq<Id>, times: seq<int>, t: int)
    requires |ids| == |times| + 1 && Distinct(ids) && forall i :: 0 < i < |ids| ==> ids[i] !in tokens
    requires |times| > 0 && Exchangeable(tokens, users, ids[0], times[0])
    requires (forall i :: 0 < i < |times| ==> times[i] <= times[i - 1] + ttl) && t <= times[|times| - 1] + ttl
    ensures Refreshed(tokens, users, ttl, ids, times).Keys == tokens.Keys + Elems(ids)
    ensures Exchangeable(Refreshed(tokens, users, ttl, ids, times), users, ids[|times|], t)
  {
    var n := |times|;
    var before := Refreshed(tokens, users, ttl, ids[..n], times[..n - 1]);
    assert Elems(ids) == Elems(ids[..n]) + {ids[n]};
    if n == 1 {
      assert Elems(ids[..1]) == {ids[0]};
    } else {
      SessionInUseStaysAlive(tokens, users, ttl, ids[..n], times[..n - 1], times[n - 1]);
    }
    assert ids[n] !in before;
    RefreshRenews(before, users, ids[n - 1], ids[n], ttl, times[n - 1], users, t);
  }

  // ---- Lineages over whole runs ------------------------------------------------------------

  /** `born` orders tokens by creation; `exchanged` lists the tokens that were swapped for a new one. */
  datatype History = History(tokens: Tokens, born: map<Id, nat>, exchanged: seq<Id>)

  datatype Operation =
    | Issue(id: Id, user: Id, now: int)
    | Present(id: Id, next: Id, now: int)
    | SignOut(id: Id, now: int)

  ghost predicate Enabled(h: History, op: Operation) {
    match op
    case Issue(id, _, _) => id !in h.tokens
    case Present(_, next, _) => next !in h.tokens
    case SignOut(_, _) => true
  }

  ghost function Perform(h: History, users: set<Id>, ttl: int, op: Operation): History {
    match op
    case Issue(id, user, now) =>
      History(Create(h.tokens, id, user, now + ttl), h.born[id := |h.tokens|], h.exchanged)
    case Present(id, next, now) =>
      var tokens := Refresh(h.tokens, users, id, next, ttl, now);
      if Exchangeable(h.tokens, users, id, now) then History(tokens, h.born[next := |h.tokens|], h.exchanged + [id])
      else h.(tokens := tokens)
    case SignOut(id, now) =>
      h.(tokens := Revoke(h.tokens, id, now))
  }

  ghost function PerformAll(users: set<Id>, ttl: int, ops: seq<Operation>): Option<History> {
    if ops == [] then Some(History(map[], map[], []))
    else
      var before := PerformAll(users, ttl, ops[..|ops| - 1]);
      if before.Some? && Enabled(before.value, ops[|ops| - 1])
      then Some(Perform(before.value, users, ttl, ops[|ops| - 1]))
      else None
  }

  /** A successor is a younger token of the same user, belongs to one predecessor only, and exists
      only for a token that was exchanged and is therefore revoked. */
  ghost predicate Sound(h: History) {
    && h.born.Keys == h.tokens.Keys
    && (forall id :: id in h.tokens ==> h.born[id] < |h.tokens|)
    && Distinct(h.exchanged)
    && (forall id :: id in h.exchanged ==> id in h.tokens && h.tokens[id].replacedBy.Some? && h.tokens[id].revokedAt.Some?)
    && (forall id :: id in h.tokens && h.tokens[id].replacedBy.Some? ==> id in h.exchanged && Succeeds(h, id, h.tokens[id].replacedBy.value))
    && (forall a, b :: a in h.tokens && b in h.tokens && h.tokens[a].replacedBy.Some? && h.tokens[a].replacedBy == h.tokens[b].replacedBy
          ==> a == b)
  }

  ghost predicate Succeeds(h: History, id: Id, next: Id)
    requires id in h.tokens && h.born.Keys == h.tokens.Keys
  {
    next in h.tokens && h.tokens[next].user == h.tokens[id].user && h.born[id] < h.born[next]
  }

  lemma IssueKeepsSound(h: History, users: set<Id>, ttl: int, id: Id, user: Id, now: int)
    requires Sound(h) && id !in h.tokens
    ensures Sound(Perform(h, users, ttl, Issue(id, user, now)))
  {
    var h' := Perform(h, users, ttl, Issue(id, user, now));
    assert h'.tokens.Keys == h.tokens.Keys + {id};
    forall x | x in h'.tokens && h'.tokens[x].replacedBy.Some?
      ensures x in h'.exchanged && Succeeds(h', x, h'.tokens[x].replacedBy.value)
    {
      assert x != id && Succeeds(h, x, h.tokens[x].replacedBy.value);
    }
  }

  /** `id` has been swapped for the new token `next`; nothing else has changed. */
  ghost predicate Exchanged(h: History, h': History, id: Id, next: Id) {
    && id in h.tokens && next !in h.tokens && id in h'.tokens && next in h'.tokens
    && h'.tokens.Keys == h.tokens.Keys + {next}
    && (forall x :: x in h.tokens && x != id ==> h'.tokens[x] == h.tokens[x])
    && h'.tokens[id].user == h'.tokens[next].user == h.tokens[id].user
    && h'.tokens[id].revokedAt.Some? && h'.tokens[id].replacedBy == Some(next) && h'.tokens[next].replacedBy == None
    && h'.born == h.born[next := |h.tokens|] && h'.exchanged == h.exchanged + [id]
  }

  lemma PresentExchanges(h: History, users: set<Id>, ttl: int, id: Id, next: Id, now: int)
    requires next !in h.tokens && Exchangeable(h.tokens, users, id, now)
    ensures Exchanged(h, Perform(h, users, ttl, Present(id, next, now)), id, next)
  {
    var h' := Perform(h, users, ttl, Present(id, next, now));
    assert h'.tokens == Link(Rotate(h.tokens, id, next, now + ttl, now), id, next);
    assert h'.tokens.Keys == h.tokens.Keys + {next};
  }

  lemma ExchangedTwice(h: History, h': History, id: Id, next: Id)
    requires Sound(h) && Exchanged(h, h', id, next) && Live(h.tokens, id)
    ensures Distinct(h'.exchanged) && |h'.tokens| == |h.tokens| + 1
    ensures forall x :: x in h'.exchanged ==> x in h'.tokens && h'.tokens[x].replacedBy.Some? && h'.tokens[x].revokedAt.Some?
  {
    assert id !in h.exchanged;
    assert |h'.tokens.Keys| == |h.tokens.Keys| + 1;
  }

  lemma ExchangeKeepsSound(h: History, h': History, id: Id, next: Id)
    requires Sound(h) && Exchanged(h, h', id, next) && Live(h.tokens, id)
    ensures Sound(h')
  {
    ExchangedTwice(h, h', id, next);
    assert forall x :: x in h.tokens ==> h'.born[x] == h.born[x];
    forall x | x in h'.tokens && h'.tokens[x].replacedBy.Some?
      ensures x in h'.exchanged && Succeeds(h', x, h'.tokens[x].replacedBy.value)
      ensures h'.tokens[x].replacedBy == Some(next) ==> x == id
    {
      if x != id {
        assert Succeeds(h, x, h.tokens[x].replacedBy.value);
      }
    }
  }

  /** Revoking only ever sets revokedAt. */
  lemma RevocationKeepsSound(h: History, tokens: Tokens)
    requires Sound(h) && tokens.Keys == h.tokens.Keys
    requires forall x :: x in tokens ==> tokens[x] == h.tokens[x] || (tokens[x].revokedAt.Some? && tokens[x] == h.tokens[x].(revokedAt := tokens[x].revokedAt))
    ensures Sound(h.(tokens := tokens))
  {
    var h' := h.(tokens := tokens);
    assert |tokens.Keys| == |h.tokens.Keys|;
    forall x | x in h'.tokens && h'.tokens[x].replacedBy.Some?
      ensures x in h'.exchanged && Succeeds(h', x, h'.tokens[x].replacedBy.value)
    {
      assert Succeeds(h, x, h.tokens[x].replacedBy.value);
    }
  }

  lemma OperationKeepsSound(h: History, users: set<Id>, ttl: int, op: Operation)
    requires Sound(h) && Enabled(h, op)
    ensures Sound(Perform(h, users, ttl, op))
  {
    match op
    case Issue(id, user, now) => IssueKeepsSound(h, users, ttl, id, user, now);
    case Present(id, next, now) =>
      if Exchangeable(h.tokens, users, id, now) {
        PresentExchanges(h, users, ttl, id, next, now);
        ExchangeKeepsSound(h, Perform(h, users, ttl, op), id, next);
      } else {
        RevocationKeepsSound(h, Refresh(h.tokens, users, id, next, ttl, now));
      }
    case SignOut(id, now) => RevocationKeepsSound(h, Revoke(h.tokens, id, now));
  }

  lemma {:induction false} RunKeepsSound(users: set<Id>, ttl: int, ops: seq<Operation>)
    requires PerformAll(users, ttl, ops).Some?
    ensures Sound(PerformAll(users, ttl, ops).value)
  {
    if ops != [] {
      RunKeepsSound(users, ttl, ops[..|ops| - 1]);
      OperationKeepsSound(PerformAll(users, ttl, ops[..|ops| - 1]).value, users, ttl, ops[|ops| - 1]);
    }
  }

  /** A rotation chain: each token was replaced by the next. */
  ghost predicate Chain(tokens: Tokens, path: seq<Id>) {
    && (forall i :: 0 <= i < |path| ==> path[i] in tokens)
    && (forall i :: 0 <= i < |path| - 1 ==> tokens[path[i]].replacedBy == Some(path[i + 1]))
  }

  lemma {:induction false} ChainRises(h: History, path: seq<Id>, i: nat, j: nat)
    requires Sound(h) && Chain(h.tokens, path) && i < j < |path|
    ensures h.born[path[i]] < h.born[path[j]]
    decreases j
  {
    if i < j - 1 {
      ChainRises(h, path, i, j - 1);
    }
    assert h.tokens[path[j - 1]].replacedBy == Some(path[j - 1 + 1]);
    assert Succeeds(h, path[j - 1], path[j]);
  }

  /** With each refresh one step, over any run: no token is exchanged twice, no chain comes back to
      itself, and only the last token of a chain can still be live. */
  lemma LineagesAreLinear(users: set<Id>, ttl: int, ops: seq<Operation>, path: seq<Id>)
    requires PerformAll(users, ttl, ops).Some? && Chain(PerformAll(users, ttl, ops).value.tokens, path)
    ensures var h := PerformAll(users, ttl, ops).value;
            && Distinct(h.exchanged)
            && Distinct(path)
            && (forall i :: 0 <= i < |path| - 1 ==> !Live(h.tokens, path[i]) && path[i] in h.exchanged)
            && (forall a, b :: a in h.tokens && b in h.tokens && h.tokens[a].replacedBy.Some? && h.tokens[a].replacedBy == h.tokens[b].replacedBy
                  ==> a == b)
  {
    RunKeepsSound(users, ttl, ops);
    var h := PerformAll(users, ttl, ops).value;
    forall i, j | 0 <= i < j < |path| ensures path[i] != path[j] {
      ChainRises(h, path, i, j);
    }
    forall i | 0 <= i < |path| - 1 ensures !Live(h.tokens, path[i]) && path[i] in h.exchanged {
      assert h.tokens[path[i]].replacedBy == Some(path[i + 1]);
    }
  }

  // ---- Refreshes that overlap ----------------------------------------------------------------

  /** The transaction does not look at the row again.  It keeps the number of a user's live tokens
      exactly when the presented token is still live as it runs. */
  lemma RotationKeepsCountIff(tokens: Tokens, id: Id, next: Id, expiresAt: int, now: int)
    requires id in tokens && next !in tokens
    ensures var user := tokens[id].user;
            |LiveTokens(Rotate(tokens, id, next, expiresAt, now), user)| == |LiveTokens(tokens, user)| <==> Live(tokens, id)
  {
    var user := tokens[id].user;
    var before, after := LiveTokens(tokens, user), LiveTokens(Rotate(tokens, id, next, expiresAt, now), user);
    assert after == (before - {id}) + {next};
    assert next !in before - {id};
  }

  /** Two refreshes of one token that both pass the checks before either rotates: the user ends with
      two live tokens that both descend from it. */
  lemma OverlappingRefreshesFork(tokens: Tokens, users: set<Id>, id: Id, a: Id, b: Id, ttl: int, now: int)
    requires Exchangeable(tokens, users, id, now) && a !in tokens && b !in tokens && a != b
    ensures var first := Rotate(tokens, id, a, now + ttl, now);
            var both := Rotate(first, id, b, now + ttl, now);
            && !Exchangeable(first, users, id, now)
            && Live(both, a) && Live(both, b) && both[a].user == both[b].user == tokens[id].user
            && |LiveTokens(both, tokens[id].user)| == |LiveTokens(tokens, tokens[id].user)| + 1
  {
    var user := tokens[id].user;
    var first := Rotate(tokens, id, a, now + ttl, now);
    var both := Rotate(first, id, b, now + ttl, now);
    assert LiveTokens(both, user) == LiveTokens(tokens, user) - {id} + {a, b};
  }
}
