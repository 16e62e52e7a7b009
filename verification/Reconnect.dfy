/**
 The agent's reconnect loop against the operator's auth manager: session tokens
 slide, so an agent that keeps reconnecting in time never needs a second code.
 */
module Reconnect {
  import opened Wrappers
  import opened Auth
  import E = Endpoints
  import T = Transport

  const MAX_RETRIES := 5

  // ---------------------------------------------------------------- one handshake

  datatype AuthResult = AuthResult(accepted: bool, session: string)

  function Asked(h: History, now: Time, session: string, bySession: bool): History {
    if session != "" then h + [SessionTried(now, session, bySession)] else h
  }

  /** What a handshake with these answers adds to the manager's history. */
  function Handshaken(h: History, now: Time, token: string, session: string,
                      bySession: bool, byCode: bool, renewal: Option<string>): History
  {
    Asked(h, now, session, bySession)
      + (if bySession then [] else [CodeTried(now, token, byCode)])
      + (if (bySession || byCode) && renewal.Some? then [SessionIssued(now, renewal.value)] else [])
  }

  /** The session token offered gets the agent in. */
  ghost predicate BySession(h: History, now: Time, session: string) {
    session != "" && SessionGood(h, now, session)
  }

  /** The session token does not, and the one-time token does. */
  ghost predicate ByCode(h: History, now: Time, token: string, session: string) {
    !BySession(h, now, session) && TokenGood(Asked(h, now, session, false), now, token)
  }

  /** The history after a handshake that was judged by the history before it. */
  ghost function After(h: History, now: Time, token: string, session: string, renewal: Option<string>): History {
    Handshaken(h, now, token, session, BySession(h, now, session), ByCode(h, now, token, session), renewal)
  }

  /** The session token first, the one-time token when that fails. */
  method Check(m: Manager, now: Time, token: string, session: string) returns (authenticated: bool, bySession: bool)
    requires m.Valid() && m.clock <= now
    modifies m
    ensures m.Valid() && m.clock == now
    ensures bySession == BySession(old(m.history), now, session)
    ensures authenticated == (bySession || ByCode(old(m.history), now, token, session))
    ensures m.history == Handshaken(old(m.history), now, token, session, bySession, authenticated && !bySession, None)
  {
    authenticated := false;
    if session != "" {
      authenticated := m.ValidateSessionToken(now, session);
    }
    bySession := authenticated;
    if !authenticated {
      authenticated := m.ValidateToken(now, token);
    }
  }

  /** The authentication part of handleWebSocket. */
  method Authenticate(m: Manager, now: Time, token: string, session: string, renewal: Option<string>)
    returns (r: AuthResult, bySession: bool)
    requires m.Valid() && m.clock <= now && (renewal.Some? ==> Unissued(m.history, renewal.value))
    modifies m
    ensures m.Valid() && m.clock == now
    ensures bySession == BySession(old(m.history), now, session)
    ensures r.accepted == (bySession || ByCode(old(m.history), now, token, session))
    ensures r.session == if r.accepted && renewal.Some? then renewal.value else ""
    ensures m.history == After(old(m.history), now, token, session, renewal)
  {
    var authenticated;
    authenticated, bySession := Check(m, now, token, session);
    if !authenticated {
      return AuthResult(false, ""), bySession;
    }
    var issued := m.GenerateSessionToken(now, renewal);
    r := AuthResult(true, if issued.Ok? then issued.value else "");
  }

  // ---------------------------------------------------------------- one turn of the world

  /** One turn: somebody else uses the manager, or this agent tries to connect. */
  datatype Turn =
    | NewCode(now: Time, token: string, code: string)
    | OtherAgent(now: Time, offeredToken: string, offeredSession: string, renewal: Option<string>)
    | Sweep(now: Time)
    | Attempt(now: Time, dialled: bool, renewal: Option<string>, delivered: bool)
  {
    /** The random token this turn draws. */
    function Drawn(): Option<string> {
      match this
      case NewCode(_, token, _) => Some(token)
      case OtherAgent(_, _, _, renewal) => renewal
      case Sweep(_) => None
      case Attempt(_, _, renewal, _) => renewal
    }
  }

  /** `accepted` with `taken` means that Connect succeeded on the agent's side too. */
  datatype Outcome = Elsewhere | Tried(reached: bool, accepted: bool, bySession: bool, issued: string, taken: bool)

  /** What a turn must come to, by the history the operator has then and the token the agent has stored. */
  ghost function Result(h: History, turn: Turn, token: string, stored: string): Outcome {
    if !turn.Attempt? then Elsewhere
    else if !turn.dialled then Tried(false, false, false, "", false)
    else
      var bySession := BySession(h, turn.now, stored);
      var accepted := bySession || ByCode(h, turn.now, token, stored);
      var issued := if accepted && turn.renewal.Some? then turn.renewal.value else "";
      Tried(true, accepted, bySession, issued, accepted && turn.delivered && (stored != "" || token != ""))
  }

  /** What a turn makes of the history. */
  ghost function Recorded(h: History, turn: Turn, token: string, stored: string): History {
    match turn
    case NewCode(now, newToken, code) => h + [CodeIssued(now, code, newToken)]
    case OtherAgent(now, offered, session, renewal) => After(h, now, offered, session, renewal)
    case Sweep(now) => h + [Swept(now)]
    case Attempt(now, dialled, renewal, _) => if dialled then After(h, now, token, stored, renewal) else h
  }

  /** An outcome that brings a new session token replaces the stored one. */
  function Kept(o: Outcome, stored: string): string {
    if o.Tried? && o.accepted && o.taken && o.issued != "" then o.issued else stored
  }

  /** A turn of somebody else. */
  method Bystand(m: Manager, turn: Turn)
    requires m.Valid() && m.clock <= turn.now && !turn.Attempt?
    requires turn.Drawn().Some? ==> Unissued(m.history, turn.Drawn().value)
    modifies m
    ensures m.Valid() && m.clock == turn.now && m.history == Recorded(old(m.history), turn, "", "")
  {
    match turn
    case NewCode(now, token, code) =>
      var _ := m.GenerateCode(now, Some(token), Some(code));
    case OtherAgent(now, offeredToken, offeredSession, renewal) =>
      var _, _ := Authenticate(m, now, offeredToken, offeredSession, renewal);
    case Sweep(now) =>
      m.Cleanup(now);
  }

  /** Connect on the agent's side: dial, shake hands, and hear about the result or not. */
  method Connect(m: Manager, client: E.Client, turn: Turn) returns (o: Outcome)
    requires turn.Attempt? && m.Valid() && m.clock <= turn.now
    requires turn.renewal.Some? ==> Unissued(m.history, turn.renewal.value)
    requires client.conn == T.Waiting && client.cipher == None
    modifies m, client
    ensures m.Valid() && m.clock <= turn.now
    ensures o == Result(old(m.history), turn, client.token, old(client.sessionToken))
    ensures m.history == Recorded(old(m.history), turn, client.token, old(client.sessionToken))
    ensures client.sessionToken == Kept(o, old(client.sessionToken))
  {
    if !turn.dialled {
      return Tried(false, false, false, "", false);
    }
    var r, bySession := Authenticate(m, turn.now, client.token, client.sessionToken, turn.renewal);
    if !r.accepted || !turn.delivered {
      return Tried(true, r.accepted, bySession, r.session, false);
    }
    client.Accept(r.session);
    o := Tried(true, true, bySession, r.session, client.conn == T.Open);
  }

  /** One turn of the world; on the agent's own turn a fresh client tries to connect. */
  method Take(m: Manager, token: string, stored: string, turn: Turn) returns (o: Outcome, kept: string)
    requires m.Valid() && m.clock <= turn.now
    requires turn.Drawn().Some? ==> Unissued(m.history, turn.Drawn().value)
    modifies m
    ensures m.Valid() && m.clock <= turn.now
    ensures o == Result(old(m.history), turn, token, stored) && kept == Kept(o, stored)
    ensures m.history == Recorded(old(m.history), turn, token, stored)
  {
    kept := stored;
    if !turn.Attempt? {
      Bystand(m, turn);
      return Outcome.Elsewhere, kept;
    }
    var client := new E.Client(token, stored);
    o := Connect(m, client, turn);
    if o.accepted && o.taken && client.sessionToken != "" {
      kept := client.sessionToken;
    }
  }

  // ---------------------------------------------------------------- the whole run

  /** A turn that starts with this history and stored token has this outcome and ends with those. */
  ghost predicate Turned(token: string, turn: Turn, o: Outcome, h: History, g: History, stored: string, kept: string) {
    o == Result(h, turn, token, stored) && g == Recorded(h, turn, token, stored) && kept == Kept(o, stored)
  }

  /** Turn `k` takes history and stored token `k` to the next ones, with outcome `k`. */
  ghost predicate Played(token: string, schedule: seq<Turn>, log: seq<Outcome>, hs: seq<History>, tokens: seq<string>) {
    && |log| <= |schedule| && |hs| == |tokens| == |log| + 1
    && forall k {:trigger log[k]} :: 0 <= k < |log| ==>
         Turned(token, schedule[k], log[k], hs[k], hs[k + 1], tokens[k], tokens[k + 1])
  }

  lemma PlayedGrows(token: string, schedule: seq<Turn>, log: seq<Outcome>, hs: seq<History>, tokens: seq<string>,
                    o: Outcome, h: History, kept: string)
    requires Played(token, schedule, log, hs, tokens) && |log| < |schedule|
    requires Turned(token, schedule[|log|], o, hs[|log|], h, tokens[|log|], kept)
    ensures Played(token, schedule, log + [o], hs + [h], tokens + [kept])
  {
    var log', hs', tokens' := log + [o], hs + [h], tokens + [kept];
    forall k | 0 <= k < |log'|
      ensures Turned(token, schedule[k], log'[k], hs'[k], hs'[k + 1], tokens'[k], tokens'[k + 1])
    {
      assert k < |log| ==> log'[k] == log[k];
    }
  }

  /** Time moves on, and the random tokens are new and all different. */
  ghost predicate Orderly(schedule: seq<Turn>, h: History, clock: Time) {
    && (forall a :: 0 <= a < |schedule| ==> clock <= schedule[a].now)
    && (forall a, b :: 0 <= a < b < |schedule| ==> schedule[a].now <= schedule[b].now)
    && (forall a {:trigger schedule[a]} :: 0 <= a < |schedule| && schedule[a].Drawn().Some? ==>
         Unissued(h, schedule[a].Drawn().value))
    && (forall a, b :: 0 <= a < b < |schedule| && schedule[a].Drawn().Some? ==>
         schedule[a].Drawn() != schedule[b].Drawn())
  }

  /** What one turn does to the history: it revokes nothing, and issues only with its own random token. */
  ghost predicate Follows(h: History, g: History, drawn: Option<string>) {
    && h <= g
    && (forall j :: |h| <= j < |g| ==> !g[j].SessionRevoked?)
    && (forall j :: |h| <= j < |g| && (g[j].CodeIssued? || g[j].SessionIssued?) ==> drawn == Some(g[j].token))
  }

  lemma HandshakenFollows(h: History, now: Time, token: string, session: string,
                          bySession: bool, byCode: bool, renewal: Option<string>)
    ensures Follows(h, Handshaken(h, now, token, session, bySession, byCode, renewal), renewal)
  {
  }

  lemma RecordedFollows(h: History, turn: Turn, token: string, stored: string)
    ensures Follows(h, Recorded(h, turn, token, stored), turn.Drawn())
  {
    match turn
    case OtherAgent(now, offered, session, renewal) =>
      HandshakenFollows(h, now, offered, session,
                        BySession(h, now, session), ByCode(h, now, offered, session), renewal);
    case Attempt(now, _, renewal, _) =>
      HandshakenFollows(h, now, token, stored, BySession(h, now, stored), ByCode(h, now, token, stored), renewal);
    case _ =>
  }

  /** The random tokens still to be drawn are new to the history. */
  ghost predicate Ahead(schedule: seq<Turn>, n: nat, h: History) {
    forall b {:trigger schedule[b]} :: n <= b < |schedule| && schedule[b].Drawn().Some? ==>
      Unissued(h, schedule[b].Drawn().value)
  }

  lemma AheadLasts(schedule: seq<Turn>, n: nat, h: History, g: History, start: History, clock: Time)
    requires Orderly(schedule, start, clock) && n < |schedule| && Ahead(schedule, n, h)
    requires Follows(h, g, schedule[n].Drawn())
    ensures Ahead(schedule, n + 1, g)
  {
  }

  /** Outcome `j` is the last one before `k` that gave the agent a new session token, by session or by code. */
  ghost predicate Latest(log: seq<Outcome>, j: int, k: int) {
    && 0 <= j < k <= |log| && log[j].Tried? && log[j].accepted && log[j].taken && log[j].issued != ""
    && forall i :: j < i < k && log[i].Tried? && log[i].accepted && log[i].taken ==> log[i].issued == ""
  }

  /** Issued at `at` and not revoked since: what makes the stored token good for 24 hours. */
  ghost predicate Issued(h: History, at: nat, now: Time, token: string) {
    at < |h| && h[at] == SessionIssued(now, token) && !RevokedSince(h, at, token)
  }

  lemma IssuedLasts(h: History, g: History, drawn: Option<string>, at: nat, now: Time, token: string)
    requires Issued(h, at, now, token) && Follows(h, g, drawn)
    ensures Issued(g, at, now, token)
  {
  }

  lemma RenewalIssues(h: History, turn: Turn, token: string, stored: string)
    requires var o := Result(h, turn, token, stored); o.Tried? && o.accepted && o.taken && o.issued != ""
    ensures var o, g := Result(h, turn, token, stored), Recorded(h, turn, token, stored);
      g != [] && Issued(g, |g| - 1, turn.now, o.issued)
  {
  }

  /** The stored token is the one outcome `j` brought, issued at that turn and not revoked in the history. */
  ghost predicate Stands(schedule: seq<Turn>, log: seq<Outcome>, j: int, h: History, stored: string)
    requires |log| <= |schedule| && 0 <= j < |log| && log[j].Tried?
  {
    stored == log[j].issued != "" && exists at: nat :: Issued(h, at, schedule[j].now, stored)
  }

  lemma StandsLasts(token: string, schedule: seq<Turn>, log: seq<Outcome>, j: int, turn: Turn, o: Outcome,
                    h: History, g: History, stored: string, kept: string)
    requires |log| <= |schedule| && 0 <= j < |log| && log[j].Tried? && Stands(schedule, log, j, h, stored)
    requires Turned(token, turn, o, h, g, stored, kept) && kept == stored
    ensures Stands(schedule, log, j, g, kept)
  {
    var at: nat :| Issued(h, at, schedule[j].now, stored);
    RecordedFollows(h, turn, token, stored);
    IssuedLasts(h, g, turn.Drawn(), at, schedule[j].now, stored);
  }

  /**
   Before every turn the stored token is the one issued at the latest handshake
   the agent knows it passed, and it stands in the operator's history.
   */
  lemma {:induction false} TokenStands(token: string, schedule: seq<Turn>, log: seq<Outcome>, hs: seq<History>,
                                       tokens: seq<string>, k: nat)
    requires Played(token, schedule, log, hs, tokens) && tokens[0] == "" && k <= |log|
    ensures (forall i :: 0 <= i < k && log[i].Tried? && log[i].accepted && log[i].taken ==> log[i].issued == "") ==>
      tokens[k] == ""
    ensures forall j :: Latest(log, j, k) ==> Stands(schedule, log, j, hs[k], tokens[k])
    decreases k
  {
    if k > 0 {
      var n := k - 1;
      TokenStands(token, schedule, log, hs, tokens, n);
      assert Turned(token, schedule[n], log[n], hs[n], hs[k], tokens[n], tokens[k]);
      forall j | Latest(log, j, k) ensures Stands(schedule, log, j, hs[k], tokens[k]) {
        if j == n {
          RenewalIssues(hs[n], schedule[n], token, tokens[n]);
        } else {
          assert Latest(log, j, n);
          StandsLasts(token, schedule, log, j, schedule[n], log[n], hs[n], hs[k], tokens[n], tokens[k]);
        }
      }
    }
  }

  lemma {:induction false} HistoryGrows(token: string, schedule: seq<Turn>, log: seq<Outcome>, hs: seq<History>,
                                        tokens: seq<string>, k: nat)
    requires Played(token, schedule, log, hs, tokens) && k <= |log|
    ensures hs[k] <= hs[|log|]
    decreases |log| - k
  {
    if k < |log| {
      HistoryGrows(token, schedule, log, hs, tokens, k + 1);
      assert Turned(token, schedule[k], log[k], hs[k], hs[k + 1], tokens[k], tokens[k + 1]);
      RecordedFollows(hs[k], schedule[k], token, tokens[k]);
    }
  }

  /** Between the two histories no one-time token was tried. */
  ghost predicate Codeless(h: History, g: History) {
    h <= g && forall i :: |h| <= i < |g| ==> !g[i].CodeTried?
  }

  /**
   A reconnect `k` is accepted on the session token alone exactly within 24 hours
   (in nanoseconds) of the latest handshake `j` that brought a new token, and
   then no one-time token is touched.
   */
  ghost predicate Slides(schedule: seq<Turn>, log: seq<Outcome>, hs: seq<History>)
    requires |log| <= |schedule| && |hs| == |log| + 1
  {
    forall j, k :: (
      && 0 <= j < k < |log| && log[j].Tried? && log[j].accepted && log[j].taken && log[j].issued != ""
      && (forall i :: j < i < k && log[i].Tried? && log[i].accepted && log[i].taken ==> log[i].issued == "")
      && log[k].Tried? && log[k].reached) ==>
        && (log[k].bySession <==> schedule[k].now - schedule[j].now <= 86_400_000_000_000)
        && (log[k].bySession ==> log[k].accepted && Codeless(hs[k], hs[k + 1]))
  }

  lemma SessionGoodExactly(h: History, at: nat, issued: Time, now: Time, token: string)
    requires TokensDistinct(h) && Issued(h, at, issued, token)
    ensures SessionGood(h, now, token) <==> now - issued <= SESSION_EXPIRATION
  {
    if SessionGood(h, now, token) {
      var i :| 0 <= i < |h| && h[i].SessionIssued? && h[i].token == token
        && now - h[i].at <= SESSION_EXPIRATION && !RevokedSince(h, i, token);
      assert i == at;
    }
  }

  lemma SessionIsCodeless(h: History, turn: Turn, token: string, stored: string)
    requires Result(h, turn, token, stored).Tried? && Result(h, turn, token, stored).bySession
    ensures Codeless(h, Recorded(h, turn, token, stored))
  {
  }

  /** One reconnect, and the latest handshake before it that brought a new token. */
  lemma ReconnectSlides(token: string, schedule: seq<Turn>, log: seq<Outcome>, hs: seq<History>, tokens: seq<string>,
                        j: nat, k: nat)
    requires Played(token, schedule, log, hs, tokens) && tokens[0] == "" && TokensDistinct(hs[|log|])
    requires Latest(log, j, k) && k < |log| && log[k].Tried? && log[k].reached
    ensures log[k].bySession <==> schedule[k].now - schedule[j].now <= 86_400_000_000_000
    ensures log[k].bySession ==> log[k].accepted && Codeless(hs[k], hs[k + 1])
  {
    TokenStands(token, schedule, log, hs, tokens, k);
    HistoryGrows(token, schedule, log, hs, tokens, k);
    var at: nat :| Issued(hs[k], at, schedule[j].now, tokens[k]);
    SessionGoodExactly(hs[k], at, schedule[j].now, schedule[k].now, tokens[k]);
    assert Turned(token, schedule[k], log[k], hs[k], hs[k + 1], tokens[k], tokens[k + 1]);
    if log[k].bySession {
      SessionIsCodeless(hs[k], schedule[k], token, tokens[k]);
    }
  }

  lemma {:induction false} AlwaysSlides(token: string, schedule: seq<Turn>, log: seq<Outcome>,
                                        hs: seq<History>, tokens: seq<string>)
    requires Played(token, schedule, log, hs, tokens) && tokens[0] == "" && TokensDistinct(hs[|log|])
    ensures Slides(schedule, log, hs)
  {
    forall j, k | 0 <= j < k < |log| && log[j].Tried? && log[j].accepted && log[j].taken && log[j].issued != ""
      && (forall i :: j < i < k && log[i].Tried? && log[i].accepted && log[i].taken ==> log[i].issued == "")
      && log[k].Tried? && log[k].reached
      ensures log[k].bySession <==> schedule[k].now - schedule[j].now <= 86_400_000_000_000
      ensures log[k].bySession ==> log[k].accepted && Codeless(hs[k], hs[k + 1])
    {
      assert Latest(log, j, k);
      ReconnectSlides(token, schedule, log, hs, tokens, j, k);
    }
  }

  /** A session token that was offered changes nothing about what the one-time token is worth. */
  lemma AskedKeepsGood(h: History, now: Time, session: string, ok: bool, token: string)
    ensures TokenGood(Asked(h, now, session, ok), now, token) <==> TokenGood(h, now, token)
  {
    if session != "" {
      var e := SessionTried(now, session, ok);
      SpentGrows(h, e, token);
      forall i: nat ensures Standing(h + [e], i) <==> Standing(h, i) {
        StandingGrows(h, e, i);
      }
    }
  }

  /**
   What becomes of one attempt. Whoever has a good session token or a good
   one-time token gets in, a stale session token falls back to the code, everyone
   accepted is issued the new token, and the agent stores it if it hears of it.
   */
  lemma AttemptOutcome(token: string, schedule: seq<Turn>, log: seq<Outcome>, hs: seq<History>, tokens: seq<string>,
                       k: nat)
    requires Played(token, schedule, log, hs, tokens) && k < |log| && schedule[k].Attempt?
    ensures log[k].Tried? && log[k].reached == schedule[k].dialled
    ensures log[k].accepted <==>
      && schedule[k].dialled
      && ((tokens[k] != "" && SessionGood(hs[k], schedule[k].now, tokens[k]))
          || TokenGood(hs[k], schedule[k].now, token))
    ensures log[k].issued ==
      if log[k].accepted && schedule[k].renewal.Some? then schedule[k].renewal.value else ""
    ensures log[k].taken <==> log[k].accepted && schedule[k].delivered && (token != "" || tokens[k] != "")
    ensures tokens[k + 1] ==
      if log[k].accepted && log[k].taken && log[k].issued != "" then log[k].issued else tokens[k]
    ensures log[k].accepted && schedule[k].renewal.Some? ==>
      SessionIssued(schedule[k].now, schedule[k].renewal.value) in hs[k + 1]
  {
    assert Turned(token, schedule[k], log[k], hs[k], hs[k + 1], tokens[k], tokens[k + 1]);
    AskedKeepsGood(hs[k], schedule[k].now, tokens[k], false, token);
  }

  /** In a turn of somebody else the agent keeps what it has. */
  lemma OthersKeepToken(token: string, schedule: seq<Turn>, log: seq<Outcome>, hs: seq<History>, tokens: seq<string>,
                        k: nat)
    requires Played(token, schedule, log, hs, tokens) && k < |log| && !schedule[k].Attempt?
    ensures log[k].Elsewhere? && tokens[k + 1] == tokens[k]
  {
    assert Turned(token, schedule[k], log[k], hs[k], hs[k + 1], tokens[k], tokens[k + 1]);
  }

  // ---------------------------------------------------------------- giving up

  /** The agent's own attempts, in order. */
  function Tries(log: seq<Outcome>): seq<Outcome> {
    if log == [] then []
    else
      var o := log[|log| - 1];
      Tries(log[..|log| - 1]) + if o.Tried? then [o] else []
  }

  /** The last six attempts all failed on one side or the other. */
  predicate SixFailures(tries: seq<Outcome>) {
    |tries| >= 6 && forall i :: |tries| - 6 <= i < |tries| ==> tries[i].Tried? && !(tries[i].accepted && tries[i].taken)
  }

  /** How many attempts in a row have failed. */
  function Streak(log: seq<Outcome>): nat {
    if log == [] then 0
    else
      var o, before := log[|log| - 1], Streak(log[..|log| - 1]);
      if o.Elsewhere? then before else if o.accepted && o.taken then 0 else before + 1
  }

  lemma {:induction false} StreakEnds(log: seq<Outcome>)
    ensures var tries, n := Tries(log), Streak(log);
      && n <= |tries|
      && (forall i :: 0 <= i < |tries| ==> tries[i].Tried?)
      && (forall i :: |tries| - n <= i < |tries| ==> !(tries[i].accepted && tries[i].taken))
      && (n < |tries| ==> tries[|tries| - n - 1].accepted && tries[|tries| - n - 1].taken)
  {
    if log != [] {
      StreakEnds(log[..|log| - 1]);
    }
  }

  lemma StreakIsSix(log: seq<Outcome>)
    ensures Streak(log) > MAX_RETRIES <==> SixFailures(Tries(log))
  {
    StreakEnds(log);
    var tries, n := Tries(log), Streak(log);
    if n <= MAX_RETRIES && |tries| >= 6 {
      assert tries[|tries| - n - 1].accepted && tries[|tries| - n - 1].taken;
    }
  }

  lemma StreakGrows(log: seq<Outcome>, o: Outcome)
    ensures Streak(log + [o]) ==
      if o.Elsewhere? then Streak(log) else if o.accepted && o.taken then 0 else Streak(log) + 1
  {
    assert (log + [o])[..|log|] == log;
  }

  /** No six failures in a row before the end of the log. */
  ghost predicate Persists(log: seq<Outcome>) {
    forall n :: 0 <= n < |log| ==> !SixFailures(Tries(log[..n]))
  }

  lemma PersistsGrows(log: seq<Outcome>, o: Outcome)
    requires Persists(log) && Streak(log) <= MAX_RETRIES
    ensures Persists(log + [o])
  {
    var g := log + [o];
    StreakIsSix(log);
    forall n | 0 <= n < |g| ensures !SixFailures(Tries(g[..n])) {
      assert g[..n] == log[..n] && log[..|log|] == log;
    }
  }

  // ---------------------------------------------------------------- the loop

  /**
   connectAndRun. Every outcome is the one that the operator's history and the
   stored session token call for at that moment, from the history found at the
   start to the one left behind; the stored token is the one issued at the latest
   handshake the agent knows it passed, a reconnect is accepted on it alone
   exactly within 24 hours of that handshake, however often that happened before,
   and the agent gives up after exactly six failures in a row.
   */
  method ConnectAndRun(m: Manager, token: string, schedule: seq<Turn>)
    returns (log: seq<Outcome>, sessionToken: string, ghost hs: seq<History>, ghost tokens: seq<string>)
    requires m.Valid() && Orderly(schedule, m.history, m.clock)
    modifies m
    ensures m.Valid() && Played(token, schedule, log, hs, tokens)
    ensures hs[0] == old(m.history) && hs[|log|] == m.history
    ensures tokens[0] == "" && tokens[|log|] == sessionToken
    ensures Slides(schedule, log, hs)
    ensures forall j :: Latest(log, j, |log|) ==> Stands(schedule, log, j, m.history, sessionToken)
    ensures (forall j :: 0 <= j < |log| && log[j].Tried? && log[j].accepted && log[j].taken ==> log[j].issued == "") ==>
      sessionToken == ""
    ensures |log| < |schedule| ==> SixFailures(Tries(log))
    ensures forall n :: 0 <= n < |log| ==> !SixFailures(Tries(log[..n]))
  {
    var retries, gaveUp := 0, false;
    log, sessionToken := [], "";
    hs, tokens := [m.history], [""];
    while |log| < |schedule| && !gaveUp
      invariant m.Valid() && Played(token, schedule, log, hs, tokens)
      invariant hs[0] == old(m.history) && hs[|log|] == m.history
      invariant tokens[0] == "" && tokens[|log|] == sessionToken
      invariant |log| < |schedule| ==> m.clock <= schedule[|log|].now
      invariant Ahead(schedule, |log|, m.history)
      invariant Persists(log) && retries == Streak(log) && gaveUp == (retries > MAX_RETRIES)
    {
      var turn := schedule[|log|];
      ghost var h := m.history;
      var o, kept := Take(m, token, sessionToken, turn);
      if o.Tried? {
        retries := if o.accepted && o.taken then 0 else retries + 1;
      }
      RecordedFollows(h, turn, token, sessionToken);
      AheadLasts(schedule, |log|, h, m.history, old(m.history), old(m.clock));
      PlayedGrows(token, schedule, log, hs, tokens, o, m.history, kept);
      PersistsGrows(log, o);
      StreakGrows(log, o);
      log, sessionToken := log + [o], kept;
      hs, tokens := hs + [m.history], tokens + [kept];
      gaveUp := retries > MAX_RETRIES;
    }
    AlwaysSlides(token, schedule, log, hs, tokens);
    TokenStands(token, schedule, log, hs, tokens, |log|);
    StreakIsSix(log);
  }
}
