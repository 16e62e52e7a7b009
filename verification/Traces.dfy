/**
 What a state tells about the run that led to it: who was let in, how each call
 ended, and under which key and to which connection each request went out.
 */
module Traces {
  import L = Links
  import opened Transport
  import opened Wrappers

  /** Some step of the run, in the state it was taken in, satisfies `p`. */
  ghost predicate Somewhere(p: (State, Event) -> bool, s: State, es: seq<Event>)
    decreases |es|
  {
    es != [] && Enabled(s, es[0]) && (p(s, es[0]) || Somewhere(p, Apply(s, es[0]), es[1..]))
  }

  // ---------------------------------------------------------------- handshakes

  /** The handshake was accepted, or the client believes so. */
  predicate LetIn(l: Link) { l.phase.Admitted? || l.phase.Live? || l.phase.Ended? || l.client.socket.Open? }

  lemma LetInStep(s: State, e: Event, k: nat)
    requires Enabled(s, e) && k < |Apply(s, e).links| && LetIn(Apply(s, e).links[k])
    ensures (k < |s.links| && LetIn(s.links[k])) || (e.Judge? && e.k == k && e.accepted)
  {
  }

  lemma {:induction false} LetInRun(s: State, es: seq<Event>, t: State, k: nat)
    requires Runs(s, es, t) && k < |t.links| && LetIn(t.links[k])
    ensures (k < |s.links| && LetIn(s.links[k])) || exists issued :: Judge(k, true, issued) in es
    decreases |es|
  {
    if es == [] {
    } else {
      var u := Apply(s, es[0]);
      LetInRun(u, es[1..], t, k);
      if k < |u.links| && LetIn(u.links[k]) {
        LetInStep(s, es[0], k);
        assert es[0].Judge? ==> es[0] == Judge(es[0].k, es[0].accepted, es[0].issued);
      }
    }
  }

  /** What is over stays over: a refused handshake, and a client that has shut its socket. */
  lemma OverStep(s: State, e: Event, k: nat)
    requires Enabled(s, e) && k < |Apply(s, e).links|
    ensures var l := Apply(s, e).links[k];
      && ((k < |s.links| && s.links[k].phase.Refused?) || (e.Judge? && e.k == k && !e.accepted) ==> l.phase.Refused?)
      && ((k < |s.links| && s.links[k].client.socket.Shut?) || e == GiveUp(k) ==> l.client.socket.Shut?)
      && (e.Judge? && e.k == k && !e.accepted ==> l.client.socket.Shut?)
  {
  }

  lemma LinksGrow(s: State, e: Event)
    requires Enabled(s, e)
    ensures |s.links| <= |Apply(s, e).links| && ((e.Judge? || e.GiveUp?) ==> e.k < |s.links|)
  {
  }

  lemma {:induction false} OverRun(s: State, es: seq<Event>, t: State, k: nat)
    requires Runs(s, es, t) && k < |t.links|
    ensures |s.links| <= |t.links|
    ensures (k < |s.links| && s.links[k].phase.Refused?) || (exists issued :: Judge(k, false, issued) in es) ==>
      t.links[k].phase.Refused?
    ensures (k < |s.links| && s.links[k].client.socket.Shut?) || GiveUp(k) in es ==> t.links[k].client.socket.Shut?
    ensures (exists issued :: Judge(k, false, issued) in es) ==> t.links[k].client.socket.Shut?
    decreases |es|
  {
    if es == [] {
    } else {
      var u := Apply(s, es[0]);
      LinksGrow(s, es[0]);
      OverRun(u, es[1..], t, k);
      if k < |u.links| {
        OverStep(s, es[0], k);
      }
    }
  }

  /**
   Nobody gets in without being accepted: a live or current connection, and a
   client that is up, had its handshake accepted. A refused one, or one the client
   gave up, is never up again.
   */
  lemma OnlyAccepted(es: seq<Event>, t: State, k: nat)
    requires Runs(INIT, es, t) && k < |t.links|
    ensures t.links[k].phase.Live? || t.shared.conn == Some(k) || t.links[k].client.socket.Open? ==>
      exists issued :: Judge(k, true, issued) in es
    ensures (exists issued :: Judge(k, false, issued) in es) ==>
      t.links[k].phase.Refused? && t.links[k].client.socket.Shut?
    ensures GiveUp(k) in es ==> t.links[k].client.socket.Shut?
  {
    OverRun(INIT, es, t, k);
    L.Coherent(es, t);
    if LetIn(t.links[k]) {
      LetInRun(INIT, es, t, k);
    }
  }

  // ---------------------------------------------------------------- how calls end

  /** This step makes call `r` fail: no cipher text, no connection, no write, or no time left. */
  function Failing(r: nat): (State, Event) -> bool {
    (s: State, e: Event) =>
      || e == Seal(r, false) || e == TimeOut(r)
      || (e.Write? && e.r == r && (s.shared.conn.None? || e.written.Failed?))
  }

  /** This step puts the request of call `r` on the wire of connection `k`. */
  function Writing(r: nat, k: nat): (State, Event) -> bool {
    (s: State, e: Event) =>
      e.Write? && e.r == r && s.shared.conn == Some(k) && (e.written.NoError? || e.written.delivered)
  }

  /** This step seals the request of call `r` with this key, for this connection or for none. */
  function Sealing(r: nat, key: Option<Secret>, conn: Option<nat>): (State, Event) -> bool {
    (s: State, e: Event) => e == Seal(r, true) && s.shared.cipher == key && s.shared.conn == conn
  }

  function PcOf(s: State, r: nat): Pc { if r < |s.calls| then s.calls[r].pc else Created }

  predicate Over(pc: Pc) { pc.Leaving? || pc.Returned? }

  lemma AnswerStep(s: State, e: Event, r: nat)
    requires Enabled(s, e) && r < |Apply(s, e).calls|
    ensures var pc, before := Apply(s, e).calls[r].pc, PcOf(s, r);
      Over(pc) && pc.out.Some? <==> (Over(before) && before.out.Some?) || e == Receive(r)
  {
  }

  lemma FailureStep(s: State, e: Event, r: nat)
    requires Enabled(s, e) && r < |Apply(s, e).calls|
    ensures var pc, before := Apply(s, e).calls[r].pc, PcOf(s, r);
      Over(pc) && pc.out.None? <==> (Over(before) && before.out.None?) || Failing(r)(s, e)
  {
  }

  lemma ReturnStep(s: State, e: Event, r: nat)
    requires Enabled(s, e) && r < |Apply(s, e).calls|
    ensures Apply(s, e).calls[r].pc.Returned? <==> PcOf(s, r).Returned? || e == Unregister(r)
  {
  }

  lemma StartStep(s: State, e: Event, r: nat)
    requires Enabled(s, e) && r < |Apply(s, e).calls|
    ensures var c := Apply(s, e).calls[r];
      if r < |s.calls| then c.id == s.calls[r].id && c.req == s.calls[r].req else e == Start(c.id, c.req)
  {
  }

  lemma CallsGrow(s: State, e: Event, r: nat)
    requires Enabled(s, e)
    ensures |s.calls| <= |Apply(s, e).calls|
    ensures e == Receive(r) || e == Unregister(r) || Failing(r)(s, e) ==> r < |s.calls|
  {
  }

  lemma {:induction false} CallRun(s: State, es: seq<Event>, t: State, r: nat)
    requires Runs(s, es, t) && r < |t.calls|
    ensures |s.calls| <= |t.calls|
    ensures var pc, before := t.calls[r].pc, PcOf(s, r);
      && (Over(pc) && pc.out.Some? <==> (Over(before) && before.out.Some?) || Receive(r) in es)
      && (Over(pc) && pc.out.None? <==> (Over(before) && before.out.None?) || Somewhere(Failing(r), s, es))
      && (pc.Returned? <==> before.Returned? || Unregister(r) in es)
    ensures var c := t.calls[r];
      if r < |s.calls| then c.id == s.calls[r].id && c.req == s.calls[r].req else Start(c.id, c.req) in es
    decreases |es|
  {
    if es == [] {
    } else {
      var u := Apply(s, es[0]);
      CallRun(u, es[1..], t, r);
      CallsGrow(s, es[0], r);
      if r < |u.calls| {
        AnswerStep(s, es[0], r);
        FailureStep(s, es[0], r);
        ReturnStep(s, es[0], r);
        StartStep(s, es[0], r);
      }
    }
  }

  /**
   A call is the one that was started. It has an answer exactly if it received
   one, has failed exactly if its sealing or writing failed, nobody was connected
   when it wrote or its time ran out, and has returned exactly if it unregistered.
   */
  lemma CallOutcome(es: seq<Event>, t: State, r: nat)
    requires Runs(INIT, es, t) && r < |t.calls|
    ensures Start(t.calls[r].id, t.calls[r].req) in es
    ensures var pc := t.calls[r].pc;
      && ((pc.Leaving? || pc.Returned?) && pc.out.Some? <==> Receive(r) in es)
      && ((pc.Leaving? || pc.Returned?) && pc.out.None? <==> Somewhere(Failing(r), INIT, es))
      && (pc.Returned? <==> Unregister(r) in es)
  {
    CallRun(INIT, es, t, r);
  }

  // ---------------------------------------------------------------- requests on the wire

  /** The request of the call has been sealed and has not failed before it was written. */
  predicate Sealed(c: Call) { c.pc.Sealed? || c.pc.Pending? || c.sent }

  /** What is on its way to the agent is what its call sealed, and a call is on the wire only after that. */
  ghost predicate Inv(s: State) {
    && (forall r {:trigger s.calls[r]} :: 0 <= r < |s.calls| && s.calls[r].sent ==>
         !s.calls[r].pc.Created? && !s.calls[r].pc.Registered? && !s.calls[r].pc.Sealed?)
    && (forall i {:trigger s.soup[i]} :: 0 <= i < |s.soup| && s.soup[i].ToAgent? ==> Carries(s.soup[i], s.calls))
  }

  predicate Carries(it: Item, calls: seq<Call>)
    requires it.ToAgent?
  {
    && it.caller < |calls| && calls[it.caller].sent && calls[it.caller].key == it.key
    && calls[it.caller].id == it.id && calls[it.caller].req == it.req
  }

  /** A call keeps its text; its key changes only when it is sealed, and it is on the wire only after that. */
  lemma CallKeeps(s: State, e: Event, r: nat)
    requires Inv(s) && Enabled(s, e) && r < |s.calls|
    ensures r < |Apply(s, e).calls|
    ensures var c, before := Apply(s, e).calls[r], s.calls[r];
      && c.id == before.id && c.req == before.req && (before.sent ==> c.sent && c.key == before.key)
      && (c.sent ==> !c.pc.Created? && !c.pc.Registered? && !c.pc.Sealed?)
  {
  }

  lemma WrittenStep(s: State, e: Event, i: nat)
    requires Inv(s) && Enabled(s, e) && i < |Apply(s, e).soup| && Apply(s, e).soup[i].ToAgent?
    ensures (i < |s.soup| && s.soup[i] == Apply(s, e).soup[i]) || Carries(Apply(s, e).soup[i], Apply(s, e).calls)
  {
  }

  lemma StepKeeps(s: State, e: Event)
    requires Inv(s) && Enabled(s, e)
    ensures Inv(Apply(s, e))
  {
    var t := Apply(s, e);
    forall r {:trigger t.calls[r]} | 0 <= r < |t.calls| && t.calls[r].sent
      ensures !t.calls[r].pc.Created? && !t.calls[r].pc.Registered? && !t.calls[r].pc.Sealed?
    {
      if r < |s.calls| {
        CallKeeps(s, e, r);
      }
    }
    forall i {:trigger t.soup[i]} | 0 <= i < |t.soup| && t.soup[i].ToAgent? ensures Carries(t.soup[i], t.calls) {
      WrittenStep(s, e, i);
      if i < |s.soup| && s.soup[i] == t.soup[i] {
        CallKeeps(s, e, t.soup[i].caller);
      }
    }
  }

  lemma SealedStep(s: State, e: Event, r: nat)
    requires Inv(s) && Enabled(s, e) && r < |Apply(s, e).calls| && Sealed(Apply(s, e).calls[r])
    ensures var c := Apply(s, e).calls[r];
      || Sealing(r, c.key, c.sealedFor)(s, e)
      || (r < |s.calls| && Sealed(s.calls[r]) && s.calls[r].key == c.key && s.calls[r].sealedFor == c.sealedFor)
  {
  }

  lemma {:induction false} SealedRun(s: State, es: seq<Event>, t: State, r: nat)
    requires Inv(s) && Runs(s, es, t) && r < |t.calls| && Sealed(t.calls[r])
    ensures var c := t.calls[r];
      || Somewhere(Sealing(r, c.key, c.sealedFor), s, es)
      || (r < |s.calls| && Sealed(s.calls[r]) && s.calls[r].key == c.key && s.calls[r].sealedFor == c.sealedFor)
    decreases |es|
  {
    if es == [] {
    } else {
      var u := Apply(s, es[0]);
      StepKeeps(s, es[0]);
      SealedRun(u, es[1..], t, r);
      if r < |u.calls| && Sealed(u.calls[r]) {
        SealedStep(s, es[0], r);
      }
    }
  }

  /**
   This step writes a response on connection `k`, from a client that is up: under
   its key, or in the clear when sealing failed.
   */
  function Responding(k: nat, key: Option<Secret>): (State, Event) -> bool {
    (s: State, e: Event) =>
      && e.Respond? && e.delivered && e.i < |s.soup| && s.soup[e.i].Answered? && s.soup[e.i].link == k
      && k < |s.links| && s.links[k].client.socket.Open?
      && key == if e.sealed then s.links[k].client.cipher else None
  }

  /** This step has the handler run for this request and produce this response. */
  function Handling(ran: Ran): (State, Event) -> bool {
    (s: State, e: Event) =>
      && e.Handle? && e.resp == ran.resp && e.i < |s.soup| && s.soup[e.i].Running?
      && s.soup[e.i].caller == ran.caller && s.soup[e.i].id == ran.id && s.soup[e.i].req == ran.req
  }

  lemma WireStep(s: State, e: Event, i: nat)
    requires Enabled(s, e) && i < |Apply(s, e).soup|
    ensures var it := Apply(s, e).soup[i];
      && (it.ToAgent? ==> (i < |s.soup| && s.soup[i] == it) || Writing(it.caller, it.link)(s, e))
      && (it.ToOperator? ==> (i < |s.soup| && s.soup[i] == it) || Responding(it.link, it.key)(s, e))
  {
  }

  lemma {:induction false} WireRun(s: State, es: seq<Event>, t: State, i: nat)
    requires Runs(s, es, t) && i < |t.soup|
    ensures var it := t.soup[i];
      && (it.ToAgent? ==> (i < |s.soup| && s.soup[i] == it) || Somewhere(Writing(it.caller, it.link), s, es))
      && (it.ToOperator? ==> (i < |s.soup| && s.soup[i] == it) || Somewhere(Responding(it.link, it.key), s, es))
    decreases |es|
  {
    if es == [] {
    } else {
      var u := Apply(s, es[0]);
      WireRun(u, es[1..], t, i);
      if i < |u.soup| && u.soup[i] == t.soup[i] {
        WireStep(s, es[0], i);
      }
    }
  }

  lemma RanStep(s: State, e: Event)
    requires Enabled(s, e)
    ensures Apply(s, e).ran == s.ran
      || (e.Handle? && Apply(s, e).ran == s.ran + [Ran(s.soup[e.i].caller, s.soup[e.i].id, s.soup[e.i].req, e.resp)])
  {
  }

  lemma {:induction false} RanRun(s: State, es: seq<Event>, t: State, k: nat)
    requires Runs(s, es, t) && k < |t.ran|
    ensures |s.ran| <= |t.ran| && s.ran == t.ran[..|s.ran|]
    ensures k < |s.ran| || Somewhere(Handling(t.ran[k]), s, es)
    decreases |es|
  {
    if es == [] {
    } else {
      RanStep(s, es[0]);
      RanRun(Apply(s, es[0]), es[1..], t, k);
    }
  }

  /**
   A request on the wire is that of a call that was started, sealed with this key
   for the connection that was up then or for none, and written to this
   connection while it was the current one; a response on the wire was written by
   a client that was up, under its key unless sealing failed.
   */
  lemma MessageTrace(es: seq<Event>, t: State, i: nat)
    requires Runs(INIT, es, t) && i < |t.soup|
    ensures var it := t.soup[i]; it.ToAgent? ==>
      && it.caller < |t.calls| && Start(it.id, it.req) in es
      && Somewhere(Sealing(it.caller, it.key, t.calls[it.caller].sealedFor), INIT, es)
      && Somewhere(Writing(it.caller, it.link), INIT, es)
    ensures t.soup[i].ToOperator? ==> Somewhere(Responding(t.soup[i].link, t.soup[i].key), INIT, es)
  {
    WireRun(INIT, es, t, i);
    if t.soup[i].ToAgent? {
      InvRun(INIT, es, t);
      assert Carries(t.soup[i], t.calls);
      SealedRun(INIT, es, t, t.soup[i].caller);
      CallOutcome(es, t, t.soup[i].caller);
    }
  }

  lemma {:induction false} InvRun(s: State, es: seq<Event>, t: State)
    requires Inv(s) && Runs(s, es, t)
    ensures Inv(t)
    decreases |es|
  {
    if es == [] {
    } else {
      StepKeeps(s, es[0]);
      InvRun(Apply(s, es[0]), es[1..], t);
    }
  }

  /** Every recorded response was produced by the handler, running for the recorded request. */
  lemma HandlersAnswer(es: seq<Event>, t: State, k: nat)
    requires Runs(INIT, es, t) && k < |t.ran|
    ensures Somewhere(Handling(t.ran[k]), INIT, es)
  {
    RanRun(INIT, es, t, k);
  }
}
