/**
 Refresh-token rotation as a protocol between requests: each request reads the session, decides, and commits its
 own column writes later, so other requests may commit in between.
 Token identifiers are fresh, token signatures cannot be forged, and a token's hash stands for the token itself.
 Passwords, audit records and request metadata are not modelled.
 */
module AuthSessions {
  import opened Outcomes

  datatype RefreshToken = RefreshToken(sessionId: nat, jti: nat, expiresAt: nat)

  datatype AccessToken = AccessToken(sessionId: nat, userId: nat, expiresAt: nat)

  // A session row. `tokenHash` is the hash of the refresh token last written.
  datatype SessionRow = SessionRow(userId: nat, tokenJti: nat, tokenHash: RefreshToken, expiresAt: nat, revoked: bool)

  datatype AuthError = InvalidToken | InvalidSession | InvalidUser

  // A request that has read and checked its session and has not committed yet.
  datatype PendingRequest = RefreshPending(next: RefreshToken) | LogoutPending(sessionId: nat)

  datatype Tables = Tables(sessions: map<nat, SessionRow>, activeUsers: set<nat>)

  // ---------- the checks ----------

  // _get_valid_refresh_session
  function RefreshFault(t: Tables, token: RefreshToken, now: nat): Option<AuthError> {
    if token.expiresAt <= now then Some(InvalidToken)
    else if token.sessionId !in t.sessions then Some(InvalidSession)
    else
      var row := t.sessions[token.sessionId];
      if row.revoked || row.expiresAt <= now || row.tokenJti != token.jti || row.tokenHash != token then
        Some(InvalidSession)
      else if row.userId !in t.activeUsers then Some(InvalidUser)
      else None
  }

  // get_current_user_from_access_token
  function AccessFault(t: Tables, token: AccessToken, now: nat): Option<AuthError> {
    if token.expiresAt <= now then Some(InvalidToken)
    else if token.sessionId !in t.sessions then Some(InvalidSession)
    else
      var row := t.sessions[token.sessionId];
      if row.userId != token.userId || row.revoked || row.expiresAt <= now then Some(InvalidSession)
      else if token.userId !in t.activeUsers then Some(InvalidUser)
      else None
  }

  function WithToken(row: SessionRow, token: RefreshToken): SessionRow {
    row.(tokenJti := token.jti, tokenHash := token, expiresAt := token.expiresAt)
  }

  // A request's commit writes only its own columns, on the row as it is by then.
  function Committed(t: Tables, request: PendingRequest): Tables {
    match request
    case RefreshPending(token) =>
      if token.sessionId in t.sessions then
        t.(sessions := t.sessions[token.sessionId := WithToken(t.sessions[token.sessionId], token)])
      else t
    case LogoutPending(id) =>
      if id in t.sessions then t.(sessions := t.sessions[id := t.sessions[id].(revoked := true)]) else t
  }

  function NewSession(userId: nat, token: RefreshToken): SessionRow {
    SessionRow(userId, token.jti, token, token.expiresAt, false)
  }

  /** A stored session, whose fields the service assigns. */
  class AuthSession {
    const userId: nat
    var tokenJti: nat
    var tokenHash: RefreshToken
    var expiresAt: nat
    var revoked: bool

    function Row(): SessionRow
      reads this
    {
      SessionRow(userId, tokenJti, tokenHash, expiresAt, revoked)
    }

    constructor (userId: nat, token: RefreshToken)
      ensures Row() == NewSession(userId, token)
    {
      this.userId := userId;
      tokenJti, tokenHash, expiresAt, revoked := token.jti, token, token.expiresAt, false;
    }
  }

  /** The service, one request at a time. */
  class AuthService {
    var sessions: map<nat, AuthSession>
    var activeUsers: set<nat>

    ghost predicate Valid()
      reads this, sessions.Values
    {
      forall i, j :: i in sessions && j in sessions && i != j ==> sessions[i] != sessions[j]
    }

    ghost function View(): Tables
      reads this, sessions.Values
    {
      Tables(map id | id in sessions :: sessions[id].Row(), activeUsers)
    }

    constructor (activeUsers: set<nat>)
      ensures Valid() && View() == Tables(map[], activeUsers)
    {
      sessions := map[];
      this.activeUsers := activeUsers;
    }

    // The session a login creates, under a new identifier.
    method CreateSession(id: nat, userId: nat, token: RefreshToken)
      requires Valid() && id !in sessions
      modifies this`sessions
      ensures Valid()
      ensures View() == old(View()).(sessions := old(View()).sessions[id := NewSession(userId, token)])
    {
      var session := new AuthSession(userId, token);
      sessions := sessions[id := session];
    }

    method GetValidRefreshSession(token: RefreshToken, now: nat) returns (r: Result<AuthSession, AuthError>)
      requires Valid()
      ensures r.Err? ==> RefreshFault(View(), token, now) == Some(r.error)
      ensures r.Ok? ==>
                RefreshFault(View(), token, now).None?
                && token.sessionId in sessions && r.value == sessions[token.sessionId]
    {
      if token.expiresAt <= now {
        return Err(InvalidToken);
      }
      if token.sessionId !in sessions {
        return Err(InvalidSession);
      }
      var session := sessions[token.sessionId];
      if session.revoked || session.expiresAt <= now || session.tokenJti != token.jti || session.tokenHash != token {
        return Err(InvalidSession);
      }
      if session.userId !in activeUsers {
        return Err(InvalidUser);
      }
      r := Ok(session);
    }

    method Refresh(token: RefreshToken, next: RefreshToken, now: nat) returns (error: Option<AuthError>)
      requires Valid() && next.sessionId == token.sessionId
      modifies sessions.Values
      ensures Valid()
      ensures error == RefreshFault(old(View()), token, now)
      ensures View() == if error.None? then Committed(old(View()), RefreshPending(next)) else old(View())
    {
      var found := GetValidRefreshSession(token, now);
      if found.Err? {
        return Some(found.error);
      }
      var session := found.value;
      session.tokenHash := next;
      session.tokenJti := next.jti;
      session.expiresAt := next.expiresAt;
      error := None;
    }

    // An invalid token is ignored.
    method Logout(token: Option<RefreshToken>, now: nat)
      requires Valid()
      modifies sessions.Values
      ensures Valid()
      ensures View() == if token.Some? && RefreshFault(old(View()), token.value, now).None? then
                          Committed(old(View()), LogoutPending(token.value.sessionId))
                        else old(View())
    {
      if token.None? {
        return;
      }
      var found := GetValidRefreshSession(token.value, now);
      if found.Ok? {
        found.value.revoked := true;
      }
    }
  }

  // ---------- every interleaving of requests ----------

  // `history` lists, per session, the refresh tokens committed so far, oldest first; `drawn` the token
  // identifiers used so far.
  datatype System = System(
    tables: Tables, now: nat, pending: map<nat, PendingRequest>, history: map<nat, seq<RefreshToken>>, drawn: set<nat>)

  datatype Action =
    | Login(id: nat, userId: nat, jti: nat, lifetime: nat)
    | ReadRefresh(request: nat, token: RefreshToken, jti: nat, lifetime: nat)
    | ReadLogout(request: nat, token: RefreshToken)
    | Commit(request: nat)
    | Tick(elapsed: nat)
    | SetActiveUsers(users: set<nat>)

  const EMPTY := System(Tables(map[], {}), 0, map[], map[], {})

  function AfterCommit(s: System, request: nat): System
    requires request in s.pending
  {
    var p := s.pending[request];
    var history :=
      if p.RefreshPending? && p.next.sessionId in s.history then
        s.history[p.next.sessionId := s.history[p.next.sessionId] + [p.next]]
      else s.history;
    s.(tables := Committed(s.tables, p), pending := s.pending - {request}, history := history)
  }

  // Session and token identifiers are drawn fresh; an action that draws a used one changes nothing.
  function Next(s: System, action: Action): System {
    match action
    case Login(id, userId, jti, lifetime) =>
      if id in s.tables.sessions || jti in s.drawn then s
      else
        var token := RefreshToken(id, jti, s.now + lifetime);
        s.(tables := s.tables.(sessions := s.tables.sessions[id := NewSession(userId, token)]),
           history := s.history[id := [token]], drawn := s.drawn + {jti})
    case ReadRefresh(request, token, jti, lifetime) =>
      if request in s.pending || jti in s.drawn || RefreshFault(s.tables, token, s.now).Some? then s
      else s.(pending := s.pending[request := RefreshPending(RefreshToken(token.sessionId, jti, s.now + lifetime))],
              drawn := s.drawn + {jti})
    case ReadLogout(request, token) =>
      if request in s.pending || RefreshFault(s.tables, token, s.now).Some? then s
      else s.(pending := s.pending[request := LogoutPending(token.sessionId)])
    case Commit(request) => if request in s.pending then AfterCommit(s, request) else s
    case Tick(elapsed) => s.(now := s.now + elapsed)
    case SetActiveUsers(users) => s.(tables := s.tables.(activeUsers := users))
  }

  function Run(s: System, actions: seq<Action>): System
    decreases |actions|
  {
    if actions == [] then s else Next(Run(s, actions[..|actions| - 1]), actions[|actions| - 1])
  }

  // A session's row carries the token last committed for it.
  predicate CarriesLast(row: SessionRow, tokens: seq<RefreshToken>, id: nat) {
    && tokens != []
    && row.tokenHash == tokens[|tokens| - 1]
    && row.tokenJti == row.tokenHash.jti && row.expiresAt == row.tokenHash.expiresAt
    && row.tokenHash.sessionId == id
  }

  predicate JtisDistinct(tokens: seq<RefreshToken>) {
    forall i, j :: 0 <= i < j < |tokens| ==> tokens[i].jti != tokens[j].jti
  }

  // A token still to be committed: drawn, and in no session's history.
  predicate IsUncommitted(s: System, token: RefreshToken) {
    && token.jti in s.drawn && token.sessionId in s.tables.sessions
    && forall id, i :: id in s.history && 0 <= i < |s.history[id]| ==> s.history[id][i].jti != token.jti
  }

  predicate PendingJtisDiffer(a: PendingRequest, b: PendingRequest) {
    a.RefreshPending? && b.RefreshPending? ==> a.next.jti != b.next.jti
  }

  ghost predicate Inv(s: System) {
    && s.history.Keys == s.tables.sessions.Keys
    && (forall id :: id in s.history ==>
          CarriesLast(s.tables.sessions[id], s.history[id], id) && JtisDistinct(s.history[id]))
    && (forall id, i :: id in s.history && 0 <= i < |s.history[id]| ==> s.history[id][i].jti in s.drawn)
    && (forall r :: r in s.pending && s.pending[r].RefreshPending? ==> IsUncommitted(s, s.pending[r].next))
    && (forall r, q :: r in s.pending && q in s.pending && r != q ==> PendingJtisDiffer(s.pending[r], s.pending[q]))
  }

  lemma LoginKeepsInv(s: System, id: nat, userId: nat, jti: nat, lifetime: nat)
    requires Inv(s)
    ensures Inv(Next(s, Login(id, userId, jti, lifetime)))
  {
    var s' := Next(s, Login(id, userId, jti, lifetime));
    if s' != s {
      forall r | r in s'.pending && s'.pending[r].RefreshPending? ensures IsUncommitted(s', s'.pending[r].next) {
        assert IsUncommitted(s, s.pending[r].next);
      }
    }
  }

  lemma ReadKeepsInv(s: System, request: nat, token: RefreshToken, jti: nat, lifetime: nat)
    requires Inv(s)
    ensures Inv(Next(s, ReadRefresh(request, token, jti, lifetime)))
  {
    var s' := Next(s, ReadRefresh(request, token, jti, lifetime));
    if s' != s {
      forall r | r in s'.pending && s'.pending[r].RefreshPending? ensures IsUncommitted(s', s'.pending[r].next) {
        if r != request {
          assert IsUncommitted(s, s.pending[r].next);
        }
      }
      forall r, q | r in s'.pending && q in s'.pending && r != q
        ensures PendingJtisDiffer(s'.pending[r], s'.pending[q])
      {
        if r != request && s.pending[r].RefreshPending? {
          assert IsUncommitted(s, s.pending[r].next);
        }
        if q != request && s.pending[q].RefreshPending? {
          assert IsUncommitted(s, s.pending[q].next);
        }
        if r != request && q != request {
          assert PendingJtisDiffer(s.pending[r], s.pending[q]);
        }
      }
    }
  }

  lemma CommitKeepsInv(s: System, request: nat)
    requires Inv(s) && request in s.pending
    ensures Inv(AfterCommit(s, request))
  {
    var s', p := AfterCommit(s, request), s.pending[request];
    if p.RefreshPending? {
      assert IsUncommitted(s, p.next);
      assert p.next.sessionId in s.history;
    }
    forall r | r in s'.pending && s'.pending[r].RefreshPending? ensures IsUncommitted(s', s'.pending[r].next) {
      assert IsUncommitted(s, s.pending[r].next) && PendingJtisDiffer(s.pending[r], p);
    }
  }

  lemma PendingUnchanged(s: System, s': System)
    requires Inv(s)
    requires s'.tables.sessions == s.tables.sessions && s'.history == s.history && s'.drawn == s.drawn
    requires forall r :: r in s'.pending && s'.pending[r].RefreshPending? ==>
               r in s.pending && s.pending[r] == s'.pending[r]
    ensures Inv(s')
  {
    forall r | r in s'.pending && s'.pending[r].RefreshPending? ensures IsUncommitted(s', s'.pending[r].next) {
      assert IsUncommitted(s, s.pending[r].next);
    }
    forall r, q | r in s'.pending && q in s'.pending && r != q ensures PendingJtisDiffer(s'.pending[r], s'.pending[q]) {
      if s'.pending[r].RefreshPending? && s'.pending[q].RefreshPending? {
        assert PendingJtisDiffer(s.pending[r], s.pending[q]);
      }
    }
  }

  lemma NextKeepsInv(s: System, action: Action)
    requires Inv(s)
    ensures Inv(Next(s, action))
  {
    match action
    case Login(id, userId, jti, lifetime) => LoginKeepsInv(s, id, userId, jti, lifetime);
    case ReadRefresh(request, token, jti, lifetime) => ReadKeepsInv(s, request, token, jti, lifetime);
    case ReadLogout(request, token) => PendingUnchanged(s, Next(s, action));
    case Commit(request) =>
      if request in s.pending {
        CommitKeepsInv(s, request);
      }
    case Tick(_) => PendingUnchanged(s, Next(s, action));
    case SetActiveUsers(_) => PendingUnchanged(s, Next(s, action));
  }

  lemma {:induction false} RunKeepsInv(s: System, actions: seq<Action>)
    requires Inv(s)
    ensures Inv(Run(s, actions))
    decreases |actions|
  {
    if actions != [] {
      RunKeepsInv(s, actions[..|actions| - 1]);
      NextKeepsInv(Run(s, actions[..|actions| - 1]), actions[|actions| - 1]);
    }
  }

  predicate Accepts(s: System, token: RefreshToken) { RefreshFault(s.tables, token, s.now).None? }

  predicate IsLast(token: RefreshToken, tokens: seq<RefreshToken>) { tokens != [] && token == tokens[|tokens| - 1] }

  // The session may be used: not revoked, the token not expired, its user active.
  predicate IsOpen(s: System, token: RefreshToken) {
    && token.sessionId in s.tables.sessions && !s.tables.sessions[token.sessionId].revoked
    && s.now < token.expiresAt && s.tables.sessions[token.sessionId].userId in s.tables.activeUsers
  }

  // A refresh token is acceptable exactly when it was committed last for its session and the session may be used.
  lemma AcceptedExactly(actions: seq<Action>, token: RefreshToken)
    ensures var s := Run(EMPTY, actions);
            Accepts(s, token) <==>
            token.sessionId in s.history && IsLast(token, s.history[token.sessionId]) && IsOpen(s, token)
  {
    RunKeepsInv(EMPTY, actions);
    var s := Run(EMPTY, actions);
    if token.sessionId in s.history {
      assert CarriesLast(s.tables.sessions[token.sessionId], s.history[token.sessionId], token.sessionId);
    }
  }

  // And otherwise it is refused as expired, as not the last of an unrevoked session, or for its inactive user.
  lemma RefusedExactly(actions: seq<Action>, token: RefreshToken)
    ensures var s := Run(EMPTY, actions);
            RefreshFault(s.tables, token, s.now) ==
            if s.now >= token.expiresAt then Some(InvalidToken)
            else if token.sessionId !in s.history || token.sessionId !in s.tables.sessions then Some(InvalidSession)
            else if !IsLast(token, s.history[token.sessionId]) || s.tables.sessions[token.sessionId].revoked then
              Some(InvalidSession)
            else if s.tables.sessions[token.sessionId].userId !in s.tables.activeUsers then Some(InvalidUser)
            else None
  {
    RunKeepsInv(EMPTY, actions);
    var s := Run(EMPTY, actions);
    if token.sessionId in s.history {
      assert CarriesLast(s.tables.sessions[token.sessionId], s.history[token.sessionId], token.sessionId);
    }
  }

  // An access token is good exactly for its own user, while it has not expired, the refresh token last committed for
  // its session has not expired either, the session is not revoked and the user is active.
  lemma AccessExactly(actions: seq<Action>, token: AccessToken)
    ensures var s := Run(EMPTY, actions);
            AccessFault(s.tables, token, s.now) ==
            if s.now >= token.expiresAt then Some(InvalidToken)
            else if token.sessionId !in s.history || token.sessionId !in s.tables.sessions then Some(InvalidSession)
            else if s.history[token.sessionId] == []
              || s.now >= s.history[token.sessionId][|s.history[token.sessionId]| - 1].expiresAt
              || s.tables.sessions[token.sessionId].revoked
              || s.tables.sessions[token.sessionId].userId != token.userId then Some(InvalidSession)
            else if token.userId !in s.tables.activeUsers then Some(InvalidUser)
            else None
  {
    RunKeepsInv(EMPTY, actions);
    var s := Run(EMPTY, actions);
    if token.sessionId in s.history {
      assert CarriesLast(s.tables.sessions[token.sessionId], s.history[token.sessionId], token.sessionId);
    }
  }

  // So at any moment at most one refresh token per session is acceptable.
  lemma OnlyLastCommittedIsAccepted(actions: seq<Action>, token: RefreshToken, other: RefreshToken)
    requires Accepts(Run(EMPTY, actions), token) && Accepts(Run(EMPTY, actions), other)
    requires token.sessionId == other.sessionId
    ensures token == other
  {
    AcceptedExactly(actions, token);
    AcceptedExactly(actions, other);
  }

  // ---------- what stays so ----------

  lemma {:induction false} RunConcat(s: System, a: seq<Action>, b: seq<Action>)
    ensures Run(s, a + b) == Run(Run(s, a), b)
    decreases |b|
  {
    if b == [] {
      assert a + b == a;
    } else {
      assert (a + b)[..|a + b| - 1] == a + b[..|b| - 1];
      RunConcat(s, a, b[..|b| - 1]);
    }
  }

  predicate IsPrefix(a: seq<RefreshToken>, b: seq<RefreshToken>) { |a| <= |b| && b[..|a|] == a }

  lemma NextGrows(s: System, action: Action, id: nat)
    requires Inv(s) && id in s.history
    ensures id in Next(s, action).history && IsPrefix(s.history[id], Next(s, action).history[id])
  {
    var tokens := s.history[id];
    assert tokens[..|tokens|] == tokens;
  }

  lemma LongerStill(a: seq<RefreshToken>, b: seq<RefreshToken>, c: seq<RefreshToken>)
    requires IsPrefix(a, b) && IsPrefix(b, c)
    ensures IsPrefix(a, c)
  {
    assert c[..|a|] == c[..|b|][..|a|];
  }

  lemma {:induction false} HistoryOnlyGrows(s: System, actions: seq<Action>, id: nat)
    requires Inv(s) && id in s.history
    ensures id in Run(s, actions).history && IsPrefix(s.history[id], Run(s, actions).history[id])
    decreases |actions|
  {
    if actions != [] {
      var earlier := Run(s, actions[..|actions| - 1]);
      HistoryOnlyGrows(s, actions[..|actions| - 1], id);
      RunKeepsInv(s, actions[..|actions| - 1]);
      NextGrows(earlier, actions[|actions| - 1], id);
      LongerStill(s.history[id], earlier.history[id], Run(s, actions).history[id]);
    } else {
      assert s.history[id][..|s.history[id]|] == s.history[id];
    }
  }

  // Every token in a session's history was issued for that session.
  ghost predicate OwnTokens(s: System) {
    && (forall id, i :: id in s.history && 0 <= i < |s.history[id]| ==> s.history[id][i].sessionId == id)
  }

  lemma {:induction false} RunKeepsOwnTokens(actions: seq<Action>)
    ensures OwnTokens(Run(EMPTY, actions))
    decreases |actions|
  {
    if actions != [] {
      RunKeepsOwnTokens(actions[..|actions| - 1]);
    }
  }

  lemma TokensKnowTheirSession(actions: seq<Action>, id: nat, i: nat)
    requires id in Run(EMPTY, actions).history && i < |Run(EMPTY, actions).history[id]|
    ensures Run(EMPTY, actions).history[id][i].sessionId == id
  {
    RunKeepsOwnTokens(actions);
  }

  // A token that another has superseded is never accepted again, whatever requests were still in flight.
  lemma SupersededStaysRejected(before: seq<Action>, more: seq<Action>, id: nat, i: nat)
    requires id in Run(EMPTY, before).history && i + 1 < |Run(EMPTY, before).history[id]|
    ensures !Accepts(Run(EMPTY, before + more), Run(EMPTY, before).history[id][i])
  {
    var s := Run(EMPTY, before);
    var token := s.history[id][i];
    RunKeepsInv(EMPTY, before);
    RunConcat(EMPTY, before, more);
    RunKeepsInv(s, more);
    var s' := Run(s, more);
    HistoryOnlyGrows(s, more, id);
    assert s'.history[id][i] == token;
    if Accepts(s', token) {
      var row := s'.tables.sessions[token.sessionId];
      assert CarriesLast(row, s'.history[token.sessionId], token.sessionId);
      assert token == s'.history[token.sessionId][|s'.history[token.sessionId]| - 1];
      TokensKnowTheirSession(before, id, i);
      assert false;
    }
  }

  lemma {:induction false} RevokedStaysRevoked(s: System, actions: seq<Action>, id: nat)
    requires id in s.tables.sessions && s.tables.sessions[id].revoked
    ensures id in Run(s, actions).tables.sessions && Run(s, actions).tables.sessions[id].revoked
    decreases |actions|
  {
    if actions != [] {
      RevokedStaysRevoked(s, actions[..|actions| - 1], id);
    }
  }

  // Once a session is revoked no refresh token and no access token for it is ever accepted again, not even after
  // refreshes that had read the session before it was revoked commit their new tokens.
  lemma RevocationIsFinal(before: seq<Action>, more: seq<Action>, id: nat, token: RefreshToken, access: AccessToken)
    requires id in Run(EMPTY, before).tables.sessions && Run(EMPTY, before).tables.sessions[id].revoked
    requires token.sessionId == id && access.sessionId == id
    ensures var s := Run(EMPTY, before + more);
            !Accepts(s, token) && AccessFault(s.tables, access, s.now).Some?
  {
    RunConcat(EMPTY, before, more);
    RevokedStaysRevoked(Run(EMPTY, before), more, id);
  }

  // ---------- single use ----------

  // This action commits a refresh of the session.
  predicate CommitsRefresh(s: System, action: Action, id: nat) {
    && action.Commit? && action.request in s.pending
    && s.pending[action.request].RefreshPending? && s.pending[action.request].next.sessionId == id
  }

  function RefreshCommits(s: System, actions: seq<Action>, id: nat): nat
    decreases |actions|
  {
    if actions == [] then 0
    else
      var front := actions[..|actions| - 1];
      RefreshCommits(s, front, id) + if CommitsRefresh(Run(s, front), actions[|actions| - 1], id) then 1 else 0
  }

  lemma StepCountsCommit(s: System, action: Action, id: nat)
    requires Inv(s) && id in s.history
    ensures id in Next(s, action).history
    ensures |Next(s, action).history[id]| == |s.history[id]| + if CommitsRefresh(s, action, id) then 1 else 0
  {
  }

  lemma {:induction false} HistoryCountsCommits(s: System, actions: seq<Action>, id: nat)
    requires Inv(s) && id in s.history
    ensures id in Run(s, actions).history
    ensures |Run(s, actions).history[id]| == |s.history[id]| + RefreshCommits(s, actions, id)
    decreases |actions|
  {
    if actions != [] {
      var front := actions[..|actions| - 1];
      HistoryCountsCommits(s, front, id);
      RunKeepsInv(s, front);
      StepCountsCommit(Run(s, front), actions[|actions| - 1], id);
    }
  }

  lemma LastOfLonger(token: RefreshToken, tokens: seq<RefreshToken>, longer: seq<RefreshToken>)
    requires IsLast(token, tokens) && IsPrefix(tokens, longer) && JtisDistinct(longer)
    ensures IsLast(token, longer) <==> |longer| == |tokens|
  {
    assert longer[|tokens| - 1] == tokens[|tokens| - 1];
  }

  // A token once acceptable stays acceptable exactly as long as no refresh of its session commits and the session
  // may be used.
  lemma AcceptedLaterExactly(before: seq<Action>, more: seq<Action>, token: RefreshToken)
    requires Accepts(Run(EMPTY, before), token)
    ensures Accepts(Run(EMPTY, before + more), token) <==>
            RefreshCommits(Run(EMPTY, before), more, token.sessionId) == 0 && IsOpen(Run(EMPTY, before + more), token)
  {
    var s, id := Run(EMPTY, before), token.sessionId;
    RunKeepsInv(EMPTY, before);
    RunConcat(EMPTY, before, more);
    AcceptedExactly(before, token);
    AcceptedExactly(before + more, token);
    HistoryOnlyGrows(s, more, id);
    HistoryCountsCommits(s, more, id);
    RunKeepsInv(s, more);
    LastOfLonger(token, s.history[id], Run(s, more).history[id]);
  }

  // This request presents the token and is let through: it will exchange the token when it commits.
  predicate Exchanges(s: System, action: Action, token: RefreshToken) {
    && action.ReadRefresh? && action.token == token && Accepts(s, token)
    && action.request !in s.pending && action.jti !in s.drawn
  }

  lemma RunSnoc(s: System, actions: seq<Action>, action: Action)
    ensures Run(s, actions + [action]) == Next(Run(s, actions), action)
  {
    assert (actions + [action])[..|actions|] == actions;
  }

  // A token is exchanged a second time exactly when its second reader comes before any refresh of the session,
  // the first one's included, has committed, and while the session may still be used.
  lemma ExchangedTwiceExactly(
    before: seq<Action>, first: Action, between: seq<Action>, second: Action, token: RefreshToken)
    requires Exchanges(Run(EMPTY, before), first, token)
    requires second.ReadRefresh? && second.token == token
    requires var s := Run(EMPTY, before + [first] + between);
             second.request !in s.pending && second.jti !in s.drawn
    ensures var s := Run(EMPTY, before + [first] + between);
            Exchanges(s, second, token) <==>
            RefreshCommits(Run(EMPTY, before + [first]), between, token.sessionId) == 0 && IsOpen(s, token)
  {
    RunSnoc(EMPTY, before, first);
    AcceptedLaterExactly(before + [first], between, token);
  }

  lemma {:induction false} PendingStays(s: System, actions: seq<Action>, request: nat)
    requires request in s.pending && forall i :: 0 <= i < |actions| ==> actions[i] != Commit(request)
    ensures request in Run(s, actions).pending && Run(s, actions).pending[request] == s.pending[request]
    decreases |actions|
  {
    if actions != [] {
      PendingStays(s, actions[..|actions| - 1], request);
    }
  }

  // The token a request will put in place of the one it presents.
  function Replacement(s: System, read: Action): RefreshToken
    requires read.ReadRefresh?
  {
    RefreshToken(read.token.sessionId, read.jti, s.now + read.lifetime)
  }

  lemma ExchangePends(s: System, read: Action, token: RefreshToken)
    requires Exchanges(s, read, token)
    ensures var s' := Next(s, read);
            read.request in s'.pending && s'.pending[read.request] == RefreshPending(Replacement(s, read))
  {
  }

  lemma CommitAppends(s: System, request: nat, next: RefreshToken)
    requires request in s.pending && s.pending[request] == RefreshPending(next) && next.sessionId in s.history
    ensures next.sessionId in Next(s, Commit(request)).history
    ensures Next(s, Commit(request)).history[next.sessionId] == s.history[next.sessionId] + [next]
  {
  }

  // A request let through always completes its exchange: whatever happens before its commit, the commit makes its
  // new token the session's last.
  lemma EveryExchangeCommits(before: seq<Action>, read: Action, between: seq<Action>, token: RefreshToken)
    requires Exchanges(Run(EMPTY, before), read, token)
    requires forall i :: 0 <= i < |between| ==> between[i] != Commit(read.request)
    ensures var s, next := Run(EMPTY, before + [read] + between), Replacement(Run(EMPTY, before), read);
            && token.sessionId in s.history && token.sessionId in Next(s, Commit(read.request)).history
            && Next(s, Commit(read.request)).history[token.sessionId] == s.history[token.sessionId] + [next]
  {
    var s0 := Run(EMPTY, before);
    var s1, next := Next(s0, read), Replacement(s0, read);
    RunKeepsInv(EMPTY, before);
    NextKeepsInv(s0, read);
    ExchangePends(s0, read, token);
    RunSnoc(EMPTY, before, read);
    RunConcat(EMPTY, before + [read], between);
    PendingStays(s1, between, read.request);
    assert token.sessionId in s1.history;
    HistoryOnlyGrows(s1, between, token.sessionId);
    CommitAppends(Run(s1, between), read.request, next);
  }

  // A login opens a session for its user whose first token is accepted from then on, until it expires, if the user is
  // active.
  lemma LoginOpens(before: seq<Action>, id: nat, userId: nat, jti: nat, lifetime: nat)
    requires id !in Run(EMPTY, before).tables.sessions && jti !in Run(EMPTY, before).drawn
    ensures var s := Run(EMPTY, before);
            var s' := Next(s, Login(id, userId, jti, lifetime));
            && id in s'.tables.sessions && s'.tables.sessions[id].userId == userId
            && (Accepts(s', RefreshToken(id, jti, s.now + lifetime)) <==>
                  lifetime > 0 && userId in s.tables.activeUsers)
            && (forall other :: other in s.tables.sessions ==>
                  other in s'.tables.sessions && s'.tables.sessions[other] == s.tables.sessions[other])
  {
  }

  // A request is let through exactly when its token is accepted, and one that is not changes nothing; no reading
  // changes a session.
  lemma ReadsExactly(s: System, action: Action)
    requires action.ReadRefresh? || action.ReadLogout?
    requires action.request !in s.pending && (action.ReadRefresh? ==> action.jti !in s.drawn)
    ensures action.request in Next(s, action).pending <==> Accepts(s, action.token)
    ensures !Accepts(s, action.token) ==> Next(s, action) == s
    ensures Next(s, action).tables == s.tables && Next(s, action).now == s.now
    ensures Accepts(s, action.token) && action.ReadLogout? ==>
              Next(s, action).pending[action.request] == LogoutPending(action.token.sessionId)
  {
  }

  // Only time moves the clock, and only it; only the users' own administration changes who is active.
  lemma ClockAndUsers(s: System, action: Action)
    ensures Next(s, action).now == s.now + if action.Tick? then action.elapsed else 0
    ensures Next(s, action).tables.activeUsers ==
            if action.SetActiveUsers? then action.users else s.tables.activeUsers
  {
  }

  // A logout let through revokes its session when it commits, whatever happens in between; with RevocationIsFinal no
  // token of that session is accepted again.
  lemma {:induction false} EveryLogoutRevokes(
    before: seq<Action>, request: nat, token: RefreshToken, between: seq<Action>)
    requires Accepts(Run(EMPTY, before), token) && request !in Run(EMPTY, before).pending
    requires forall i :: 0 <= i < |between| ==> between[i] != Commit(request)
    ensures var s' := Next(Run(EMPTY, before + [ReadLogout(request, token)] + between), Commit(request));
            token.sessionId in s'.tables.sessions && s'.tables.sessions[token.sessionId].revoked
  {
    var s0, read := Run(EMPTY, before), ReadLogout(request, token);
    RunKeepsInv(EMPTY, before);
    NextKeepsInv(s0, read);
    RunSnoc(EMPTY, before, read);
    RunConcat(EMPTY, before + [read], between);
    PendingStays(Next(s0, read), between, request);
    RunKeepsInv(Next(s0, read), between);
    HistoryOnlyGrows(Next(s0, read), between, token.sessionId);
  }

  // Two requests that both read before either commits: both succeed, and only the later commit's token lasts.
  lemma ConcurrentRefreshesBothCommit(
    s: System, token: RefreshToken, first: nat, second: nat, jti1: nat, jti2: nat, lifetime: nat)
    requires Inv(s) && Accepts(s, token) && lifetime > 0
    requires first != second && first !in s.pending && second !in s.pending
    requires jti1 != jti2 && jti1 !in s.drawn && jti2 !in s.drawn
    ensures var s1 := Next(Next(s, ReadRefresh(first, token, jti1, lifetime)),
                           ReadRefresh(second, token, jti2, lifetime));
            var s2 := Next(Next(s1, Commit(first)), Commit(second));
            && Accepts(s2, RefreshToken(token.sessionId, jti2, s.now + lifetime))
            && !Accepts(s2, RefreshToken(token.sessionId, jti1, s.now + lifetime))
            && !Accepts(s2, token)
  {
    assert CarriesLast(s.tables.sessions[token.sessionId], s.history[token.sessionId], token.sessionId);
    var n := |s.history[token.sessionId]|;
    assert s.history[token.sessionId][n - 1] == token;
    assert token.jti in s.drawn;
  }
}
