/**
 The auth manager against a plain history of what was asked of it: one-time
 codes, session tokens, eager expiry sweeps and iteration in any order.
 */
module Auth {
  import opened Wrappers

  type Time = int

  const SECOND: Time := 1_000_000_000
  const CODE_EXPIRATION: Time := 15 * 60 * SECOND
  const SESSION_EXPIRATION: Time := 24 * 3600 * SECOND

  // ---------------------------------------------------------------- history

  /** One operation of the manager, when it happened and what it answered. */
  datatype Event =
    | CodeIssued(at: Time, code: string, token: string)
    | CodeTried(at: Time, token: string, ok: bool)
    | SessionIssued(at: Time, token: string)
    | SessionTried(at: Time, token: string, ok: bool)
    | SessionRevoked(at: Time, token: string)
    | Swept(at: Time)

  type History = seq<Event>

  /** The token was accepted before. */
  ghost predicate Spent(h: History, token: string) {
    exists j :: 0 <= j < |h| && h[j].CodeTried? && h[j].token == token && h[j].ok
  }

  /** Event `i` issued a code that no later event issued again. */
  ghost predicate Standing(h: History, i: nat) {
    && i < |h| && h[i].CodeIssued?
    && forall j :: i < j < |h| && h[j].CodeIssued? ==> h[j].code != h[i].code
  }

  /** What a one-time token is worth: issued at most 15 minutes ago, not overwritten, never accepted. */
  ghost predicate TokenGood(h: History, now: Time, token: string) {
    && !Spent(h, token)
    && exists i: nat :: Standing(h, i) && h[i].token == token && now - h[i].at <= CODE_EXPIRATION
  }

  ghost predicate RevokedSince(h: History, i: nat, token: string) {
    exists j :: i < j < |h| && h[j].SessionRevoked? && h[j].token == token
  }

  /** What a session token is worth: issued at most 24 hours ago and not revoked since. */
  ghost predicate SessionGood(h: History, now: Time, token: string) {
    exists i :: 0 <= i < |h| && h[i].SessionIssued? && h[i].token == token
      && now - h[i].at <= SESSION_EXPIRATION && !RevokedSince(h, i, token)
  }

  ghost predicate Chronological(h: History) {
    forall i, j :: 0 <= i < j < |h| ==> h[i].at <= h[j].at
  }

  ghost predicate NotBefore(h: History, now: Time) {
    forall i :: 0 <= i < |h| ==> h[i].at <= now
  }

  /** A token fresh from crypto/rand: nothing in the history was issued with it. */
  ghost predicate Unissued(h: History, token: string) {
    forall i :: 0 <= i < |h| && (h[i].CodeIssued? || h[i].SessionIssued?) ==> h[i].token != token
  }

  // ---------------------------------------------------------------- the manager's tables

  datatype ConnectionCode = ConnectionCode(token: string, createdAt: Time, used: bool)

  /** The code table holds what stands in the history; what it lacks has expired by `now`. */
  ghost predicate CodesMatch(codes: map<string, ConnectionCode>, h: History, now: Time) {
    && (forall i: nat :: Standing(h, i) ==>
         if h[i].code in codes then codes[h[i].code] == ConnectionCode(h[i].token, h[i].at, Spent(h, h[i].token))
         else now - h[i].at > CODE_EXPIRATION)
    && (forall code :: code in codes ==> exists i: nat :: Standing(h, i) && h[i].code == code)
  }

  ghost predicate SessionsMatch(sessions: map<string, Time>, h: History, now: Time) {
    && (forall i :: 0 <= i < |h| && h[i].SessionIssued? ==>
         if h[i].token in sessions then sessions[h[i].token] == h[i].at && !RevokedSince(h, i, h[i].token)
         else now - h[i].at > SESSION_EXPIRATION || RevokedSince(h, i, h[i].token))
    && (forall token :: token in sessions ==> exists i :: 0 <= i < |h| && h[i].SessionIssued? && h[i].token == token)
  }

  /** Distinct tokens: crypto/rand never repeats one. */
  ghost predicate TokensDistinct(h: History) {
    forall i, j :: 0 <= i < j < |h|
      && (h[i].CodeIssued? || h[i].SessionIssued?) && (h[j].CodeIssued? || h[j].SessionIssued?)
      ==> h[i].token != h[j].token
  }

  /** Every recorded answer is the one the history before it calls for. */
  ghost predicate Truthful(h: History) {
    forall j :: 0 <= j < |h| ==>
      && (h[j].CodeTried? ==> h[j].ok == TokenGood(h[..j], h[j].at, h[j].token))
      && (h[j].SessionTried? ==> h[j].ok == SessionGood(h[..j], h[j].at, h[j].token))
  }

  ghost predicate Sound(h: History, now: Time) {
    NotBefore(h, now) && Chronological(h) && TokensDistinct(h) && Truthful(h)
  }

  function UnexpiredCodes(codes: map<string, ConnectionCode>, now: Time): map<string, ConnectionCode> {
    map code | code in codes && now - codes[code].createdAt <= CODE_EXPIRATION :: codes[code]
  }

  function UnexpiredSessions(sessions: map<string, Time>, now: Time): map<string, Time> {
    map token | token in sessions && now - sessions[token] <= SESSION_EXPIRATION :: sessions[token]
  }

  // ---------------------------------------------------------------- how the history grows

  lemma SpentGrows(h: History, e: Event, token: string)
    ensures Spent(h + [e], token) <==> Spent(h, token) || (e.CodeTried? && e.token == token && e.ok)
  {
    var g := h + [e];
    if Spent(h, token) {
      var j :| 0 <= j < |h| && h[j].CodeTried? && h[j].token == token && h[j].ok;
      assert g[j] == h[j];
    }
    assert g[|h|] == e;
  }

  lemma StandingGrows(h: History, e: Event, i: nat)
    ensures Standing(h + [e], i) <==>
      (i == |h| && e.CodeIssued?) || (Standing(h, i) && !(e.CodeIssued? && e.code == h[i].code))
  {
    var g := h + [e];
    assert g[|h|] == e;
    if i < |h| {
      assert forall j :: i < j < |h| ==> g[j] == h[j];
    }
  }

  lemma RevokedGrows(h: History, e: Event, i: nat, token: string)
    requires i < |h|
    ensures RevokedSince(h + [e], i, token) <==> RevokedSince(h, i, token) || (e.SessionRevoked? && e.token == token)
  {
    var g := h + [e];
    if RevokedSince(h, i, token) {
      var j :| i < j < |h| && h[j].SessionRevoked? && h[j].token == token;
      assert g[j] == h[j];
    }
    assert g[|h|] == e;
  }

  lemma TruthfulGrows(h: History, e: Event)
    requires Truthful(h)
    requires e.CodeTried? ==> e.ok == TokenGood(h, e.at, e.token)
    requires e.SessionTried? ==> e.ok == SessionGood(h, e.at, e.token)
    ensures Truthful(h + [e])
  {
    var g := h + [e];
    forall j | 0 <= j < |g|
      ensures g[j].CodeTried? ==> g[j].ok == TokenGood(g[..j], g[j].at, g[j].token)
      ensures g[j].SessionTried? ==> g[j].ok == SessionGood(g[..j], g[j].at, g[j].token)
    {
      assert g[..j] == h[..j];
      if j == |h| {
        assert h[..j] == h;
      }
    }
  }

  lemma SoundGrows(h: History, before: Time, e: Event)
    requires Sound(h, before) && before <= e.at
    requires e.CodeIssued? || e.SessionIssued? ==> Unissued(h, e.token)
    requires e.CodeTried? ==> e.ok == TokenGood(h, e.at, e.token)
    requires e.SessionTried? ==> e.ok == SessionGood(h, e.at, e.token)
    ensures Sound(h + [e], e.at)
  {
    TruthfulGrows(h, e);
  }

  lemma SpentWasIssued(h: History, token: string)
    requires Truthful(h) && Spent(h, token)
    ensures !Unissued(h, token)
  {
    var j :| 0 <= j < |h| && h[j].CodeTried? && h[j].token == token && h[j].ok;
    var i: nat :| Standing(h[..j], i) && h[..j][i].token == token;
    assert h[i].CodeIssued? && h[i].token == token;
  }

  // ---------------------------------------------------------------- the code table

  lemma SweepMatches(codes: map<string, ConnectionCode>, h: History, before: Time, now: Time)
    requires CodesMatch(codes, h, before) && before <= now
    ensures CodesMatch(UnexpiredCodes(codes, now), h, now)
  {
  }

  /** A swept table holds an unused entry for a token exactly when the history makes the token good. */
  lemma SearchMatches(codes: map<string, ConnectionCode>, h: History, now: Time, token: string)
    requires CodesMatch(codes, h, now) && UnexpiredCodes(codes, now) == codes
    ensures TokenGood(h, now, token) <==>
      exists code :: code in codes && codes[code].token == token && !codes[code].used
  {
    if code :| code in codes && codes[code].token == token && !codes[code].used {
      var i: nat :| Standing(h, i) && h[i].code == code;
      assert code in UnexpiredCodes(codes, now);
    }
    if TokenGood(h, now, token) {
      var i: nat :| Standing(h, i) && h[i].token == token && now - h[i].at <= CODE_EXPIRATION;
      assert h[i].code in codes;
    }
  }

  /** Events that neither issue a code nor accept a token leave the code table right. */
  lemma OtherKeepsCodes(codes: map<string, ConnectionCode>, h: History, e: Event, before: Time, now: Time)
    requires CodesMatch(codes, h, before) && before <= now && !e.CodeIssued? && !(e.CodeTried? && e.ok)
    ensures CodesMatch(codes, h + [e], now)
  {
    var g := h + [e];
    forall i: nat ensures Standing(g, i) <==> Standing(h, i) { StandingGrows(h, e, i); }
    forall token ensures Spent(g, token) <==> Spent(h, token) { SpentGrows(h, e, token); }
    forall code | code in codes ensures exists i: nat :: Standing(g, i) && g[i].code == code {
      var i: nat :| Standing(h, i) && h[i].code == code;
      assert Standing(g, i) && g[i].code == code;
    }
  }

  lemma IssueKeepsCodes(codes: map<string, ConnectionCode>, h: History, before: Time, now: Time,
                        code: string, token: string)
    requires CodesMatch(codes, h, before) && before <= now && Truthful(h) && Unissued(h, token)
    ensures CodesMatch(codes[code := ConnectionCode(token, now, false)], h + [CodeIssued(now, code, token)], now)
  {
    var e := CodeIssued(now, code, token);
    var g := h + [e];
    var codes' := codes[code := ConnectionCode(token, now, false)];
    forall i: nat ensures Standing(g, i) <==> i == |h| || (Standing(h, i) && h[i].code != code) {
      StandingGrows(h, e, i);
    }
    forall t ensures Spent(g, t) <==> Spent(h, t) { SpentGrows(h, e, t); }
    if Spent(h, token) {
      SpentWasIssued(h, token);
    }
    forall c | c in codes' ensures exists i: nat :: Standing(g, i) && g[i].code == c {
      if c == code {
        assert Standing(g, |h|) && g[|h|].code == c;
      } else {
        var i: nat :| Standing(h, i) && h[i].code == c;
        assert Standing(g, i) && g[i].code == c;
      }
    }
  }

  lemma AcceptKeepsCodes(codes: map<string, ConnectionCode>, h: History, now: Time, code: string)
    requires CodesMatch(codes, h, now) && TokensDistinct(h) && code in codes
    ensures CodesMatch(codes[code := codes[code].(used := true)], h + [CodeTried(now, codes[code].token, true)], now)
  {
    var e := CodeTried(now, codes[code].token, true);
    var g := h + [e];
    forall i: nat ensures Standing(g, i) <==> Standing(h, i) { StandingGrows(h, e, i); }
    forall t ensures Spent(g, t) <==> Spent(h, t) || t == e.token { SpentGrows(h, e, t); }
    forall c | c in codes ensures exists i: nat :: Standing(g, i) && g[i].code == c {
      var i: nat :| Standing(h, i) && h[i].code == c;
      assert Standing(g, i) && g[i].code == c;
    }
    var owner: nat :| Standing(h, owner) && h[owner].code == code;
    assert h[owner].token == e.token;
    forall i: nat | Standing(g, i) && i != owner ensures h[i].token != e.token && h[i].code != code {
      if i < owner { assert h[i].token != h[owner].token; } else { assert h[owner].token != h[i].token; }
    }
  }

  // ---------------------------------------------------------------- the session table

  lemma SweepMatchesSessions(sessions: map<string, Time>, h: History, before: Time, now: Time)
    requires SessionsMatch(sessions, h, before) && before <= now
    ensures SessionsMatch(UnexpiredSessions(sessions, now), h, now)
  {
  }

  lemma SearchMatchesSessions(sessions: map<string, Time>, h: History, now: Time, token: string)
    requires SessionsMatch(sessions, h, now) && UnexpiredSessions(sessions, now) == sessions
    ensures token in sessions <==> SessionGood(h, now, token)
  {
    if token in sessions {
      var i :| 0 <= i < |h| && h[i].SessionIssued? && h[i].token == token;
      assert token in UnexpiredSessions(sessions, now);
    }
  }

  lemma OtherKeepsSessions(sessions: map<string, Time>, h: History, e: Event, before: Time, now: Time)
    requires SessionsMatch(sessions, h, before) && before <= now && !e.SessionIssued? && !e.SessionRevoked?
    ensures SessionsMatch(sessions, h + [e], now)
  {
    RevokeKeepsSessions(sessions, h, e, before, now, "");
  }

  /** Any event but an issue: the table loses exactly the token the event revokes. */
  lemma RevokeKeepsSessions(sessions: map<string, Time>, h: History, e: Event, before: Time, now: Time, token: string)
    requires SessionsMatch(sessions, h, before) && before <= now && !e.SessionIssued?
    requires e.SessionRevoked? ==> e.token == token
    ensures SessionsMatch(if e.SessionRevoked? then sessions - {token} else sessions, h + [e], now)
  {
    var g := h + [e];
    forall i: nat, t | i < |h|
      ensures RevokedSince(g, i, t) <==> RevokedSince(h, i, t) || (e.SessionRevoked? && e.token == t)
    {
      RevokedGrows(h, e, i, t);
    }
    forall t | t in sessions ensures exists i :: 0 <= i < |g| && g[i].SessionIssued? && g[i].token == t {
      var i :| 0 <= i < |h| && h[i].SessionIssued? && h[i].token == t;
      assert g[i] == h[i];
    }
  }

  lemma IssueKeepsSessions(sessions: map<string, Time>, h: History, before: Time, now: Time, token: string)
    requires SessionsMatch(sessions, h, before) && before <= now && Unissued(h, token)
    ensures SessionsMatch(sessions[token := now], h + [SessionIssued(now, token)], now)
  {
    var e := SessionIssued(now, token);
    var g := h + [e];
    forall i: nat, t | i < |h| ensures RevokedSince(g, i, t) <==> RevokedSince(h, i, t) {
      RevokedGrows(h, e, i, t);
    }
    var sessions' := sessions[token := now];
    forall t | t in sessions' ensures exists i :: 0 <= i < |g| && g[i].SessionIssued? && g[i].token == t {
      if t == token {
        assert g[|h|] == e;
      } else {
        var i :| 0 <= i < |h| && h[i].SessionIssued? && h[i].token == t;
        assert g[i] == h[i];
      }
    }
  }

  // ---------------------------------------------------------------- consequences for whole histories

  /** Event `j` tries a token issued at most 15 minutes before, its code not issued again in between. */
  ghost predicate InTime(h: History, j: nat) {
    && j < |h| && h[j].CodeTried?
    && exists i: nat :: i < j && h[i].CodeIssued? && h[i].token == h[j].token
         && h[j].at - h[i].at <= 900_000_000_000
         && forall k :: i < k < j && h[k].CodeIssued? ==> h[k].code != h[i].code
  }

  /** Event `k` is an earlier try of the same token that was in time. */
  ghost predicate TriedBefore(h: History, j: nat, k: nat)
    requires j < |h| && h[j].CodeTried?
  {
    k < j && InTime(h, k) && h[k].token == h[j].token
  }

  lemma TokenGoodIsInTime(h: History, j: nat)
    requires j < |h| && h[j].CodeTried?
    ensures TokenGood(h[..j], h[j].at, h[j].token) <==> InTime(h, j) && !Spent(h[..j], h[j].token)
  {
    if TokenGood(h[..j], h[j].at, h[j].token) {
      var i: nat :| Standing(h[..j], i) && h[..j][i].token == h[j].token && h[j].at - h[..j][i].at <= CODE_EXPIRATION;
      assert h[..j][i] == h[i];
      assert forall k :: i < k < j ==> h[..j][k] == h[k];
    }
    if InTime(h, j) {
      var i: nat :| i < j && h[i].CodeIssued? && h[i].token == h[j].token && h[j].at - h[i].at <= 900_000_000_000
        && forall k :: i < k < j && h[k].CodeIssued? ==> h[k].code != h[i].code;
      assert Standing(h[..j], i) && h[..j][i] == h[i];
    }
  }

  /**
   Without looking at any recorded answer: of all tries of a one-time token the
   first one in time is accepted, and no other. So a token is accepted at most
   once, and never later than 15 minutes after it was issued.
   */
  lemma {:induction false} FirstTryWins(h: History, j: nat)
    requires Truthful(h) && j < |h| && h[j].CodeTried?
    ensures h[j].ok <==> InTime(h, j) && !exists k :: TriedBefore(h, j, k)
    decreases j
  {
    TokenGoodIsInTime(h, j);
    if Spent(h[..j], h[j].token) {
      var k: nat :| k < j && h[..j][k].CodeTried? && h[..j][k].token == h[j].token && h[..j][k].ok;
      FirstTryWins(h, k);
      assert TriedBefore(h, j, k);
    }
    if k :| TriedBefore(h, j, k) {
      SpentAfter(h, j, k);
    }
  }

  /** Event `i` issued the session token of event `j` at most 24 hours before, and none in between revoked it. */
  ghost predicate StillGood(h: History, i: nat, j: nat)
    requires i < j < |h| && h[j].SessionTried?
  {
    && h[i].SessionIssued? && h[i].token == h[j].token && h[j].at - h[i].at <= 86_400_000_000_000
    && forall k :: i < k < j && h[k].SessionRevoked? ==> h[k].token != h[j].token
  }

  /** A session token is accepted exactly within 24 hours of its issue and before it is revoked. */
  lemma SessionAnswers(h: History, j: nat)
    requires Truthful(h) && j < |h| && h[j].SessionTried?
    ensures h[j].ok <==> exists i: nat :: i < j && StillGood(h, i, j)
  {
    if h[j].ok {
      var i :| 0 <= i < |h[..j]| && h[..j][i].SessionIssued? && h[..j][i].token == h[j].token
        && h[j].at - h[..j][i].at <= SESSION_EXPIRATION && !RevokedSince(h[..j], i, h[j].token);
      assert h[..j][i] == h[i];
      forall k | i < k < j && h[k].SessionRevoked? ensures h[k].token != h[j].token {
        assert h[..j][k] == h[k];
      }
      assert StillGood(h, i, j);
    }
    if i: nat :| i < j && StillGood(h, i, j) {
      assert h[..j][i] == h[i] && !RevokedSince(h[..j], i, h[j].token);
    }
  }

  /** Once a token was tried in time it is spent. */
  lemma SpentAfter(h: History, j: nat, k: nat)
    requires Truthful(h) && j < |h| && h[j].CodeTried? && TriedBefore(h, j, k)
    ensures Spent(h[..j], h[j].token)
  {
    TokenGoodIsInTime(h, k);
    if h[k].ok {
      assert h[..j][k] == h[k];
    } else {
      var l: nat :| l < k && h[..k][l].CodeTried? && h[..k][l].token == h[k].token && h[..k][l].ok;
      assert h[..j][l] == h[..k][l];
    }
  }

  // ---------------------------------------------------------------- clean-up changes no answer

  /** A history without its clean-ups. */
  function Unswept(h: History): History {
    if h == [] then []
    else
      var e := h[|h| - 1];
      Unswept(h[..|h| - 1]) + if e.Swept? then [] else [e]
  }

  /** An event without the answer it records. */
  function Question(e: Event): Event {
    if e.CodeTried? || e.SessionTried? then e.(ok := false) else e
  }

  /** What the manager was asked, and when, apart from clean-ups. */
  function Questions(h: History): History {
    if h == [] then []
    else
      var e := h[|h| - 1];
      Questions(h[..|h| - 1]) + if e.Swept? then [] else [Question(e)]
  }

  /** The code was issued with this token at this time, and stands. */
  ghost predicate Holds(h: History, at: Time, code: string, token: string) {
    exists i: nat :: Standing(h, i) && h[i] == CodeIssued(at, code, token)
  }

  /** The session token was issued at this time and not revoked since. */
  ghost predicate Lasts(h: History, at: Time, token: string) {
    exists i: nat :: i < |h| && h[i] == SessionIssued(at, token) && !RevokedSince(h, i, token)
  }

  /** Nothing an answer depends on differs between the two histories. */
  ghost predicate Alike(a: History, b: History) {
    && (forall token :: Spent(a, token) <==> Spent(b, token))
    && (forall at, code, token :: Holds(a, at, code, token) <==> Holds(b, at, code, token))
    && (forall at, token :: Lasts(a, at, token) <==> Lasts(b, at, token))
  }

  lemma HoldsGrows(h: History, e: Event, at: Time, code: string, token: string)
    ensures Holds(h + [e], at, code, token) <==>
      e == CodeIssued(at, code, token) || (Holds(h, at, code, token) && !(e.CodeIssued? && e.code == code))
  {
    var g := h + [e];
    if i: nat :| Standing(g, i) && g[i] == CodeIssued(at, code, token) {
      StandingGrows(h, e, i);
    }
    if i: nat :| Standing(h, i) && h[i] == CodeIssued(at, code, token) {
      StandingGrows(h, e, i);
      assert g[i] == h[i];
    }
    StandingGrows(h, e, |h|);
    assert g[|h|] == e;
  }

  lemma LastsGrows(h: History, e: Event, at: Time, token: string)
    ensures Lasts(h + [e], at, token) <==>
      e == SessionIssued(at, token) || (Lasts(h, at, token) && !(e.SessionRevoked? && e.token == token))
  {
    var g := h + [e];
    if i: nat :| i < |g| && g[i] == SessionIssued(at, token) && !RevokedSince(g, i, token) && i < |h| {
      RevokedGrows(h, e, i, token);
    }
    if i: nat :| i < |h| && h[i] == SessionIssued(at, token) && !RevokedSince(h, i, token) {
      RevokedGrows(h, e, i, token);
      assert g[i] == h[i];
    }
    assert g[|h|] == e;
  }

  lemma AlikeAnswers(a: History, b: History, now: Time, token: string)
    requires Alike(a, b)
    ensures TokenGood(a, now, token) ==> TokenGood(b, now, token)
    ensures SessionGood(a, now, token) ==> SessionGood(b, now, token)
  {
    if TokenGood(a, now, token) {
      var i: nat :| Standing(a, i) && a[i].token == token && now - a[i].at <= CODE_EXPIRATION;
      assert Holds(a, a[i].at, a[i].code, token);
    }
    if SessionGood(a, now, token) {
      var i :| 0 <= i < |a| && a[i].SessionIssued? && a[i].token == token
        && now - a[i].at <= SESSION_EXPIRATION && !RevokedSince(a, i, token);
      assert Lasts(a, a[i].at, token);
    }
  }

  lemma AlikeGrows(a: History, b: History, e: Event)
    requires Alike(a, b)
    ensures Alike(a + [e], b + [e])
  {
    forall token ensures Spent(a + [e], token) <==> Spent(b + [e], token) {
      SpentGrows(a, e, token);
      SpentGrows(b, e, token);
    }
    forall at, code, token ensures Holds(a + [e], at, code, token) <==> Holds(b + [e], at, code, token) {
      HoldsGrows(a, e, at, code, token);
      HoldsGrows(b, e, at, code, token);
    }
    forall at, token ensures Lasts(a + [e], at, token) <==> Lasts(b + [e], at, token) {
      LastsGrows(a, e, at, token);
      LastsGrows(b, e, at, token);
    }
  }

  lemma SweptAlike(h: History, e: Event)
    requires e.Swept?
    ensures Alike(h + [e], h)
  {
    forall token ensures Spent(h + [e], token) <==> Spent(h, token) {
      SpentGrows(h, e, token);
    }
    forall at, code, token ensures Holds(h + [e], at, code, token) <==> Holds(h, at, code, token) {
      HoldsGrows(h, e, at, code, token);
    }
    forall at, token ensures Lasts(h + [e], at, token) <==> Lasts(h, at, token) {
      LastsGrows(h, e, at, token);
    }
  }

  lemma TruthfulFront(h: History)
    requires Truthful(h) && h != []
    ensures var front, e := h[..|h| - 1], h[|h| - 1];
      && h == front + [e] && Truthful(front)
      && (e.CodeTried? ==> e.ok == TokenGood(front, e.at, e.token))
      && (e.SessionTried? ==> e.ok == SessionGood(front, e.at, e.token))
  {
    var front := h[..|h| - 1];
    forall j | 0 <= j < |front| ensures front[..j] == h[..j] {
    }
  }

  /**
   Two managers that were asked the same at the same times answered the same
   throughout, whatever was cleaned up when, or never.
   */
  lemma {:induction false} SweepsDoNotMatter(a: History, b: History)
    requires Truthful(a) && Truthful(b) && Questions(a) == Questions(b)
    ensures Unswept(a) == Unswept(b) && Alike(a, b)
    decreases |a| + |b|
  {
    if a != [] && a[|a| - 1].Swept? {
      TruthfulFront(a);
      SweepsDoNotMatter(a[..|a| - 1], b);
      SweptAlike(a[..|a| - 1], a[|a| - 1]);
    } else if b != [] && b[|b| - 1].Swept? {
      TruthfulFront(b);
      SweepsDoNotMatter(a, b[..|b| - 1]);
      SweptAlike(b[..|b| - 1], b[|b| - 1]);
    } else if a != [] && b != [] {
      var a', b', d, e := a[..|a| - 1], b[..|b| - 1], a[|a| - 1], b[|b| - 1];
      TruthfulFront(a);
      TruthfulFront(b);
      assert Questions(a)[..|Questions(a)| - 1] == Questions(a') && Questions(b)[..|Questions(b)| - 1] == Questions(b');
      assert Question(d) == Questions(a)[|Questions(a)| - 1] == Question(e);
      SweepsDoNotMatter(a', b');
      if d.CodeTried? || d.SessionTried? {
        AlikeAnswers(a', b', d.at, d.token);
        AlikeAnswers(b', a', d.at, d.token);
      }
      AlikeGrows(a', b', d);
    }
  }

  // ---------------------------------------------------------------- recording an answer

  /** What holds of the two tables, the history behind them and the time of its last event. */
  ghost predicate Consistent(codes: map<string, ConnectionCode>, sessions: map<string, Time>, h: History, now: Time) {
    CodesMatch(codes, h, now) && SessionsMatch(sessions, h, now) && Sound(h, now)
  }

  /** `spent` is what a search for an unused entry with the token makes of a table. */
  ghost predicate Searched(codes: map<string, ConnectionCode>, token: string,
                           ok: bool, spent: map<string, ConnectionCode>)
  {
    && (ok <==> exists code :: code in codes && codes[code].token == token && !codes[code].used)
    && if ok
       then exists hit :: hit in codes && codes[hit].token == token && spent == codes[hit := codes[hit].(used := true)]
       else spent == codes
  }

  lemma CodeTriedKeeps(codes: map<string, ConnectionCode>, sessions: map<string, Time>, h: History,
                       before: Time, now: Time, token: string, ok: bool, spent: map<string, ConnectionCode>)
    requires Consistent(codes, sessions, h, before) && before <= now
    requires Searched(UnexpiredCodes(codes, now), token, ok, spent)
    ensures ok == TokenGood(h, now, token)
    ensures Consistent(spent, sessions, h + [CodeTried(now, token, ok)], now)
  {
    var swept := UnexpiredCodes(codes, now);
    var e := CodeTried(now, token, ok);
    SweepMatches(codes, h, before, now);
    assert UnexpiredCodes(swept, now) == swept;
    SearchMatches(swept, h, now, token);
    if ok {
      var hit :| hit in swept && swept[hit].token == token && spent == swept[hit := swept[hit].(used := true)];
      AcceptKeepsCodes(swept, h, now, hit);
    } else {
      OtherKeepsCodes(swept, h, e, now, now);
    }
    OtherKeepsSessions(sessions, h, e, before, now);
    SoundGrows(h, before, e);
  }

  lemma SessionTriedKeeps(codes: map<string, ConnectionCode>, sessions: map<string, Time>, h: History,
                          before: Time, now: Time, token: string, ok: bool)
    requires Consistent(codes, sessions, h, before) && before <= now
    requires ok <==> token in UnexpiredSessions(sessions, now)
    ensures ok == SessionGood(h, now, token)
    ensures Consistent(codes, UnexpiredSessions(sessions, now), h + [SessionTried(now, token, ok)], now)
  {
    var swept := UnexpiredSessions(sessions, now);
    var e := SessionTried(now, token, ok);
    SweepMatchesSessions(sessions, h, before, now);
    assert UnexpiredSessions(swept, now) == swept;
    SearchMatchesSessions(swept, h, now, token);
    OtherKeepsSessions(swept, h, e, now, now);
    OtherKeepsCodes(codes, h, e, before, now);
    SoundGrows(h, before, e);
  }

  // ---------------------------------------------------------------- the manager

  class Manager {
    var codes: map<string, ConnectionCode>
    var sessionTokens: map<string, Time>
    ghost var history: History
    ghost var clock: Time

    ghost predicate Valid()
      reads this
    {
      Consistent(codes, sessionTokens, history, clock)
    }

    constructor (ghost now: Time)
      ensures Valid() && history == [] && clock == now
    {
      codes, sessionTokens, history, clock := map[], map[], [], now;
    }

    /** Random bytes come in as `token` and `code`; None is a failing crypto/rand. */
    method GenerateCode(now: Time, token: Option<string>, code: Option<string>) returns (r: Result<(string, string)>)
      requires Valid() && clock <= now && (token.Some? ==> Unissued(history, token.value))
      modifies this
      ensures Valid() && clock == now
      ensures r.Ok? <==> token.Some? && code.Some?
      ensures if r.Ok?
        then
          && r.value == (code.value, token.value)
          && history == old(history) + [CodeIssued(now, code.value, token.value)]
        else history == old(history) && codes == old(codes)
    {
      if token.None? {
        clock := now;
        return Err("generate token");
      }
      if code.None? {
        clock := now;
        return Err("generate code");
      }
      IssueKeepsCodes(codes, history, clock, now, code.value, token.value);
      OtherKeepsSessions(sessionTokens, history, CodeIssued(now, code.value, token.value), clock, now);
      SoundGrows(history, clock, CodeIssued(now, code.value, token.value));
      codes := codes[code.value := ConnectionCode(token.value, now, false)];
      history, clock := history + [CodeIssued(now, code.value, token.value)], now;
      r := Ok((code.value, token.value));
    }

    /** Deletes what has expired, visiting the map in any order. */
    method SweepCodes(now: Time)
      modifies this`codes
      ensures codes == UnexpiredCodes(old(codes), now)
    {
      var todo := codes.Keys;
      while todo != {}
        invariant todo <= codes.Keys <= old(codes).Keys
        invariant forall code :: code in codes ==> codes[code] == old(codes)[code]
        invariant forall code :: code in old(codes) && code !in todo ==>
          (code in codes <==> now - old(codes)[code].createdAt <= CODE_EXPIRATION)
        decreases |todo|
      {
        var code :| code in todo;
        todo := todo - {code};
        if now - codes[code].createdAt > CODE_EXPIRATION {
          codes := codes - {code};
        }
      }
    }

    method SweepSessions(now: Time)
      modifies this`sessionTokens
      ensures sessionTokens == UnexpiredSessions(old(sessionTokens), now)
    {
      var todo := sessionTokens.Keys;
      while todo != {}
        invariant todo <= sessionTokens.Keys <= old(sessionTokens).Keys
        invariant forall t :: t in sessionTokens ==> sessionTokens[t] == old(sessionTokens)[t]
        invariant forall t :: t in old(sessionTokens) && t !in todo ==>
          (t in sessionTokens <==> now - old(sessionTokens)[t] <= SESSION_EXPIRATION)
        decreases |todo|
      {
        var t :| t in todo;
        todo := todo - {t};
        if now - sessionTokens[t] > SESSION_EXPIRATION {
          sessionTokens := sessionTokens - {t};
        }
      }
    }

    /** Looks for an unused entry with the token, visiting the map in any order, and marks it. */
    method Spend(token: string) returns (ok: bool)
      modifies this`codes
      ensures Searched(old(codes), token, ok, codes)
    {
      var todo := codes.Keys;
      while todo != {}
        invariant codes == old(codes) && todo <= codes.Keys
        invariant forall code :: code in codes && code !in todo ==> codes[code].token != token || codes[code].used
        decreases |todo|
      {
        var code :| code in todo;
        todo := todo - {code};
        if codes[code].token == token && !codes[code].used {
          codes := codes[code := codes[code].(used := true)];
          return true;
        }
      }
      return false;
    }

    method ValidateToken(now: Time, token: string) returns (ok: bool)
      requires Valid() && clock <= now
      modifies this
      ensures Valid() && clock == now
      ensures ok == TokenGood(old(history), now, token)
      ensures history == old(history) + [CodeTried(now, token, ok)]
    {
      SweepCodes(now);
      ok := Spend(token);
      CodeTriedKeeps(old(codes), sessionTokens, history, clock, now, token, ok, codes);
      history, clock := history + [CodeTried(now, token, ok)], now;
    }

    method GenerateSessionToken(now: Time, token: Option<string>) returns (r: Result<string>)
      requires Valid() && clock <= now && (token.Some? ==> Unissued(history, token.value))
      modifies this
      ensures Valid() && clock == now
      ensures r.Ok? <==> token.Some?
      ensures if r.Ok? then r.value == token.value && history == old(history) + [SessionIssued(now, token.value)]
        else history == old(history)
    {
      if token.None? {
        clock := now;
        return Err("generate session token");
      }
      ghost var e := SessionIssued(now, token.value);
      IssueKeepsSessions(sessionTokens, history, clock, now, token.value);
      OtherKeepsCodes(codes, history, e, clock, now);
      SoundGrows(history, clock, e);
      sessionTokens := sessionTokens[token.value := now];
      history, clock := history + [e], now;
      r := Ok(token.value);
    }

    method ValidateSessionToken(now: Time, token: string) returns (ok: bool)
      requires Valid() && clock <= now
      modifies this
      ensures Valid() && clock == now
      ensures ok == SessionGood(old(history), now, token)
      ensures history == old(history) + [SessionTried(now, token, ok)]
    {
      SweepSessions(now);
      ok := false;
      var todo := sessionTokens.Keys;
      while todo != {} && !ok
        invariant todo <= sessionTokens.Keys
        invariant !ok ==> token in sessionTokens ==> token in todo
        invariant ok ==> token in sessionTokens
        decreases |todo|
      {
        var t :| t in todo;
        todo := todo - {t};
        ok := t == token;
      }
      SessionTriedKeeps(codes, old(sessionTokens), history, clock, now, token, ok);
      history, clock := history + [SessionTried(now, token, ok)], now;
    }

    method RevokeSessionToken(now: Time, token: string)
      requires Valid() && clock <= now
      modifies this
      ensures Valid() && clock == now
      ensures history == old(history) + [SessionRevoked(now, token)]
    {
      ghost var e := SessionRevoked(now, token);
      RevokeKeepsSessions(sessionTokens, history, e, clock, now, token);
      OtherKeepsCodes(codes, history, e, clock, now);
      SoundGrows(history, clock, e);
      sessionTokens := sessionTokens - {token};
      history, clock := history + [e], now;
    }

    method Cleanup(now: Time)
      requires Valid() && clock <= now
      modifies this
      ensures Valid() && clock == now
      ensures history == old(history) + [Swept(now)]
      ensures codes == UnexpiredCodes(old(codes), now)
      ensures sessionTokens == UnexpiredSessions(old(sessionTokens), now)
    {
      SweepMatches(codes, history, clock, now);
      SweepMatchesSessions(sessionTokens, history, clock, now);
      SweepCodes(now);
      SweepSessions(now);
      OtherKeepsCodes(codes, history, Swept(now), now, now);
      OtherKeepsSessions(sessionTokens, history, Swept(now), now, now);
      SoundGrows(history, clock, Swept(now));
      history, clock := history + [Swept(now)], now;
    }
  }
}
