/** Concrete runs that show where the protocol's guarantees end. */
module Scenarios {
  import opened Links
  import opened Requests
  import opened Transport
  import opened Wrappers

  lemma {:induction false} SoloExtends(s: State, es: seq<Event>, t: State, e: Event)
    requires Runs(s, es, t) && Solo(s, es) && Enabled(t, e) && (Installs(t, e) ==> !SomeLive(t))
    ensures Solo(s, es + [e])
    decreases |es|
  {
    if es == [] {
      assert [e][1..] == [];
    } else {
      assert (es + [e])[1..] == es[1..] + [e];
      SoloExtends(Apply(s, es[0]), es[1..], t, e);
    }
  }

  /** One more step of a run, which stays without overlap when that step allows it. */
  lemma Step(es: seq<Event>, t: State, e: Event) returns (es': seq<Event>, u: State)
    requires Runs(INIT, es, t) && Enabled(t, e)
    ensures es' == es + [e] && u == Apply(t, e) && Runs(INIT, es', u)
    ensures Solo(INIT, es) && (Installs(t, e) ==> !SomeLive(t)) ==> Solo(INIT, es')
  {
    RunExtends(INIT, es, t, e);
    es', u := es + [e], Apply(t, e);
    if Solo(INIT, es) && (Installs(t, e) ==> !SomeLive(t)) {
      SoloExtends(INIT, es, t, e);
    }
  }

  /** An agent dials, is accepted and hears about it. */
  lemma Knock(es: seq<Event>, t: State, c: Client, host: string, issued: string) returns (es': seq<Event>, u: State)
    requires Runs(INIT, es, t) && c == Client(c.token, c.session, Waiting, None)
    ensures Runs(INIT, es', u) && (Solo(INIT, es) ==> Solo(INIT, es'))
    ensures u == t.(links := t.links + [Link(c.Greeting(host), Admitted, issued, c.Accepted(issued), 0)])
  {
    var k, u1, u2 := |t.links|, t, t;
    es', u1 := Step(es, t, Dial(c.token, c.session, host));
    assert u1.links == t.links + [Link(c.Greeting(host), Greeting, "", c, 0)];
    es', u2 := Step(es', u1, Judge(k, true, issued));
    assert u2.links == t.links + [Link(c.Greeting(host), Admitted, issued, c, 0)];
    es', u := Step(es', u2, Connected(k));
    assert u.links == t.links + [Link(c.Greeting(host), Admitted, issued, c.Accepted(issued), 0)];
  }

  /** An agent connects, is accepted and installed. */
  lemma Join(es: seq<Event>, t: State, c: Client, host: string, issued: string) returns (es': seq<Event>, u: State)
    requires Runs(INIT, es, t) && c == Client(c.token, c.session, Waiting, None)
    requires OperatorSecret(c.Greeting(host)) != ""
    ensures Runs(INIT, es', u) && (Solo(INIT, es) && !SomeLive(t) ==> Solo(INIT, es'))
    ensures u == t.(
      links := t.links + [Link(c.Greeting(host), Live, issued, c.Accepted(issued), 0)],
      shared := Shared(Some(|t.links|), Some(OperatorSecret(c.Greeting(host))), Some(host)),
      epoch := t.epoch + 1)
  {
    var v;
    es', v := Knock(es, t, c, host, issued);
    if SomeLive(v) {
      var j :| 0 <= j < |v.links| && v.links[j].phase.Live?;
      assert t.links[j].phase.Live?;
    }
    es', u := Step(es', v, Install(|t.links|));
    assert u.links == t.links + [Link(c.Greeting(host), Live, issued, c.Accepted(issued), 0)];
  }

  /** A second agent connects, the first one's handler cleans up: live, yet not connected. */
  lemma OverlapDisconnects() returns (es: seq<Event>, t: State)
    ensures Runs(INIT, es, t) && !IsConnected(t) && SomeLive(t)
  {
    es, t := Join([], INIT, Client("a", "", Waiting, None), "one", "s");
    es, t := Join(es, t, Client("b", "", Waiting, None), "two", "u");
    assert t.links[1].phase.Live?;
    es, t := Step(es, t, Clear(0));
    assert t.links[1].phase.Live?;
  }

  /** A call is made, registered and sealed under the current key. */
  lemma Prepare(es: seq<Event>, t: State, id: Id, req: Req) returns (es': seq<Event>, u: State)
    requires Runs(INIT, es, t) && |t.chans| == |t.calls|
    ensures Runs(INIT, es', u) && (Solo(INIT, es) ==> Solo(INIT, es'))
    ensures u == t.(
      calls := t.calls + [Call(id, req, Sealed, t.shared.cipher, t.shared.conn, t.epoch, false)],
      chans := t.chans + [[]],
      pending := t.pending[id := |t.calls|])
  {
    var r := |t.calls|;
    var u1, u2;
    es', u1 := Step(es, t, Start(id, req));
    assert u1.calls == t.calls + [Call(id, req, Created, None, None, 0, false)];
    es', u2 := Step(es', u1, Register(r));
    assert u2.calls == t.calls + [Call(id, req, Registered, None, None, 0, false)];
    es', u := Step(es', u2, Seal(r, true));
    assert u.calls == t.calls + [Call(id, req, Sealed, t.shared.cipher, t.shared.conn, t.epoch, false)];
  }

  /** A caller seals its request, then the connection it sealed for goes away. */
  lemma SealedThenCut() returns (es: seq<Event>, t: State)
    ensures Runs(INIT, es, t) && Solo(INIT, es) && !SomeLive(t) && |t.links| == 1
    ensures t.calls == [Call("req-1", "q", Sealed, Some("a"), Some(0), 1, false)] && t.soup == []
  {
    es, t := Join([], INIT, Client("a", "", Waiting, None), "one", "s");
    es, t := Prepare(es, t, "req-1", "q");
    es, t := Step(es, t, Clear(0));
  }

  /**
   SendRequest reads the cipher before it takes the lock: a caller that seals,
   is overtaken by a reconnection and then writes, is dropped by the new peer
   although no two connections ever overlapped.
   */
  lemma StraddlingRequestDropped() returns (es: seq<Event>, t: State)
    ensures Runs(INIT, es, t) && Solo(INIT, es)
    ensures Enabled(t, AgentRead(0)) && Apply(t, AgentRead(0)).soup[0].Gone?
  {
    es, t := SealedThenCut();
    es, t := Join(es, t, Client("a", "s", Waiting, None), "one", "u");
    var links := t.links;
    es, t := Step(es, t, Write(0, NoError));
    assert t.soup == [ToAgent(0, 1, Some("a"), "req-1", "q", t.epoch)] && t.links == links;
    assert links[1].client == Client("a", "u", Open, Some("s"));
    assert "a"[0] != "s"[0];
  }

  /** A caller seals before any connection is up and writes once one is: the request goes out in the clear. */
  lemma PlainRequest() returns (es: seq<Event>, t: State)
    ensures Runs(INIT, es, t) && Solo(INIT, es) && t.shared == Shared(Some(0), Some("a"), Some("one"))
    ensures t.soup == [ToAgent(0, 0, None, "req-1", "q", 1)]
    ensures Enabled(t, AgentRead(0)) && Apply(t, AgentRead(0)).soup[0].AtAgent?
  {
    es, t := Prepare([], INIT, "req-1", "q");
    es, t := Join(es, t, Client("a", "", Waiting, None), "one", "s");
    var links := t.links;
    es, t := Step(es, t, Write(0, NoError));
    assert t.soup == [ToAgent(0, 0, None, "req-1", "q", 1)] && t.links == links;
  }

  // ---------------------------------------------------------------- two calls under one id

  /** A call is made, registered, sealed under the current key and written. */
  lemma Send(es: seq<Event>, t: State, id: Id, req: Req) returns (es': seq<Event>, u: State)
    requires Runs(INIT, es, t) && IsConnected(t) && |t.chans| == |t.calls|
    ensures Runs(INIT, es', u) && (Solo(INIT, es) ==> Solo(INIT, es'))
    ensures var r := |t.calls|;
      u == t.(
        calls := t.calls + [Call(id, req, Pending, t.shared.cipher, t.shared.conn, t.epoch, true)],
        chans := t.chans + [[]],
        pending := t.pending[id := r],
        soup := t.soup + [ToAgent(r, t.shared.conn.value, t.shared.cipher, id, req, t.epoch)])
  {
    var v;
    es', v := Prepare(es, t, id, req);
    es', u := Step(es', v, Write(|t.calls|, NoError));
    assert u.calls == t.calls + [Call(id, req, Pending, t.shared.cipher, t.shared.conn, t.epoch, true)];
  }

  /** Message `i` can be read by an agent that is free to start a worker for it. */
  ghost predicate Readable(t: State, i: nat, l: Link) {
    && i < |t.soup| && t.soup[i].ToAgent? && t.soup[i].link < |t.links| && l == t.links[t.soup[i].link]
    && l.client.socket.Open? && Opens(t.soup[i].key, l.client.cipher) && l.slots < WORKER_SLOTS
    && forall j :: 0 <= j < |t.soup| ==> !t.soup[j].AtAgent?
  }

  /** A message is read and given a worker. */
  lemma TakeUp(es: seq<Event>, t: State, i: nat, l: Link) returns (es': seq<Event>, u: State)
    requires Runs(INIT, es, t) && Readable(t, i, l)
    ensures Runs(INIT, es', u) && (Solo(INIT, es) ==> Solo(INIT, es'))
    ensures var it := t.soup[i];
      u == t.(
        soup := t.soup[i := Running(it.caller, it.link, it.id, it.req)],
        links := t.links[it.link := l.(slots := l.slots + 1)])
  {
    var it := t.soup[i];
    var v;
    es', v := Step(es, t, AgentRead(i));
    assert v.soup == t.soup[i := AtAgent(it.caller, it.link, it.id, it.req)];
    es', u := Step(es', v, Spawn(i));
    assert u.soup == t.soup[i := Running(it.caller, it.link, it.id, it.req)];
  }

  /** The handler runs, its answer is written and the worker ends. */
  lemma Answer(es: seq<Event>, t: State, i: nat, l: Link, resp: Resp) returns (es': seq<Event>, u: State)
    requires Runs(INIT, es, t) && i < |t.soup| && t.soup[i].Running? && t.soup[i].link < |t.links|
    requires l == t.links[t.soup[i].link] && l.client.socket.Open? && l.slots > 0
    ensures Runs(INIT, es', u)
    ensures var it := t.soup[i];
      u == t.(
        soup := t.soup[i := ToOperator(it.caller, it.link, l.client.cipher, it.id, resp)],
        links := t.links[it.link := l.(slots := l.slots - 1)],
        ran := t.ran + [Ran(it.caller, it.id, it.req, resp)])
  {
    var it := t.soup[i];
    var v;
    es', v := Step(es, t, Handle(i, resp));
    assert v.soup == t.soup[i := Answered(it.caller, it.link, it.id, resp)];
    es', u := Step(es', v, Respond(i, true, true));
    assert u.soup == t.soup[i := ToOperator(it.caller, it.link, l.client.cipher, it.id, resp)];
  }

  /** One of two calls under the id "x", waiting for its answer. */
  function Twin(req: Req): Call { Call("x", req, Pending, Some("k"), Some(0), 1, true) }

  lemma TwoSent() returns (es: seq<Event>, t: State)
    ensures Runs(INIT, es, t) && |t.links| == 1 && t.links[0].phase.Live? && t.shared.cipher == Some("k")
    ensures t.links[0].client == Client("k", "s", Open, Some("k")) && t.links[0].slots == 0
    ensures t.calls == [Twin("one"), Twin("two")]
    ensures t.chans == [[], []] && t.pending == map["x" := 1] && t.ran == []
    ensures t.soup == [ToAgent(0, 0, Some("k"), "x", "one", 1), ToAgent(1, 0, Some("k"), "x", "two", 1)]
  {
    es, t := Join([], INIT, Client("k", "", Waiting, None), "host", "s");
    es, t := Send(es, t, "x", "one");
    es, t := Send(es, t, "x", "two");
  }

  lemma TwoCalls() returns (es: seq<Event>, t: State)
    ensures Runs(INIT, es, t) && |t.links| == 1 && t.links[0].phase.Live? && t.shared.cipher == Some("k")
    ensures t.calls == [Twin("one"), Twin("two")]
    ensures t.chans == [[], []] && t.pending == map["x" := 1]
    ensures t.soup == [ToOperator(0, 0, Some("k"), "x", "first"), ToAgent(1, 0, Some("k"), "x", "two", 1)]
    ensures t.ran == [Ran(0, "x", "one", "first")]
  {
    es, t := TwoSent();
    es, t := TakeUp(es, t, 0, t.links[0]);
    es, t := Answer(es, t, 0, t.links[0], "first");
  }

  /** Calls, connection and history, which moving a message through the read loop leaves alone. */
  ghost predicate SameCalls(s: State, t: State) {
    t.calls == s.calls && t.links == s.links && t.shared == s.shared && t.ran == s.ran && t.pending == s.pending
  }

  /** The read loop takes the answer in and looks its call up, which by now is the second one. */
  lemma Looked() returns (es: seq<Event>, t: State)
    ensures Runs(INIT, es, t) && |t.soup| == 2 && t.soup[0] == Sending(0, 0, 1, "x", "first")
    ensures t.calls == [Twin("one"), Twin("two")]
    ensures t.chans == [[], []] && t.ran == [Ran(0, "x", "one", "first")]
  {
    var s;
    es, s := TwoCalls();
    var other := s.soup[1];
    es, t := Step(es, s, LoopRead(0));
    assert t.soup == [AtLoop(0, 0, "x", "first"), other] && SameCalls(s, t) && t.chans == s.chans;
    es, t := Step(es, t, Lookup(0));
    assert t.soup == [Sending(0, 0, 1, "x", "first"), other] && SameCalls(s, t) && t.chans == s.chans;
  }

  /** When two calls share an id, one of them returns the answer to the other's request. */
  lemma SharedIdMixesAnswers() returns (es: seq<Event>, t: State)
    ensures Runs(INIT, es, t) && |t.calls| == 2 && t.calls[1].req == "two"
    ensures t.calls[1].pc == Leaving(Some("first")) && t.ran == [Ran(0, "x", "one", "first")]
  {
    var s;
    es, s := Looked();
    es, t := Step(es, s, Deliver(0));
    assert s.chans[1] + ["first"] == ["first"];
    assert t.chans == [[], ["first"]] && SameCalls(s, t);
    es, t := Step(es, t, Receive(1));
  }

  // ---------------------------------------------------------------- more than 20 requests at once

  /** There were `n` calls, numbered under these ids, and all their requests are being handled. */
  ghost predicate Crowd(t: State, n: nat, ids: nat -> Id) {
    && |t.calls| == |t.chans| == |t.soup| == n
    && forall i: nat :: i < n ==> t.calls[i].id == ids(i) && t.soup[i].Running?
  }

  /** Connection `k` is the current one and both ends are up. */
  ghost predicate Up(t: State, k: nat) {
    && k < |t.links| && t.shared.conn == Some(k) && t.links[k].phase.Live?
    && t.links[k].client.socket.Open? && t.links[k].client.cipher == t.shared.cipher
  }

  /** One more request of the current connection comes to be handled. */
  lemma Admit(es: seq<Event>, t: State, n: nat, ids: nat -> Id, k: nat) returns (es': seq<Event>, u: State)
    requires Runs(INIT, es, t) && Solo(INIT, es) && Crowd(t, n, ids) && Up(t, k) && t.links[k].slots < WORKER_SLOTS
    ensures Runs(INIT, es', u) && Solo(INIT, es') && Crowd(u, n + 1, ids) && Up(u, k)
    ensures u.links == t.links[k := t.links[k].(slots := t.links[k].slots + 1)]
  {
    var v;
    es', v := Send(es, t, ids(n), "work");
    es', u := TakeUp(es', v, n, t.links[k]);
  }

  lemma {:induction false} Fill(es: seq<Event>, t: State, n: nat, ids: nat -> Id, k: nat, m: nat)
    returns (es': seq<Event>, u: State)
    requires Runs(INIT, es, t) && Solo(INIT, es) && Crowd(t, n, ids) && Up(t, k) && t.links[k].slots + m <= WORKER_SLOTS
    ensures Runs(INIT, es', u) && Solo(INIT, es') && Crowd(u, n + m, ids) && Up(u, k)
    ensures |u.links| == |t.links| && u.links[k].slots == t.links[k].slots + m
    ensures forall j :: 0 <= j < |t.links| && j != k ==> u.links[j] == t.links[j]
    decreases m
  {
    if m == 0 {
      es', u := es, t;
    } else {
      var v;
      es', v := Fill(es, t, n, ids, k, m - 1);
      es', u := Admit(es', v, n + m - 1, ids, k);
    }
  }

  /** The connection breaks: the agent's client gives up and the operator's handler cleans up. */
  lemma Drop(es: seq<Event>, t: State, n: nat, ids: nat -> Id, k: nat) returns (es': seq<Event>, u: State)
    requires Runs(INIT, es, t) && Solo(INIT, es) && Crowd(t, n, ids) && Up(t, k)
    ensures Runs(INIT, es', u) && Solo(INIT, es') && Crowd(u, n, ids) && |u.links| == |t.links|
    ensures forall j: nat :: j < |u.links| && u.links[j].phase.Live? ==> j != k && t.links[j].phase.Live?
  {
    var v;
    es', v := Step(es, t, GiveUp(k));
    es', u := Step(es', v, Clear(k));
  }

  /** An agent that loses its connection `c` times leaves 20 requests of each behind, all being handled. */
  lemma {:induction false} LeftBehind(c: nat, ids: nat -> Id) returns (es: seq<Event>, t: State)
    ensures Runs(INIT, es, t) && Solo(INIT, es)
    ensures |t.links| == c && !SomeLive(t) && Crowd(t, WORKER_SLOTS * c, ids)
    decreases c
  {
    if c == 0 {
      es, t := [], INIT;
    } else {
      es, t := LeftBehind(c - 1, ids);
      es, t := Join(es, t, Client("a", "s", Waiting, None), "host", "s");
      es, t := Fill(es, t, WORKER_SLOTS * (c - 1), ids, c - 1, WORKER_SLOTS);
      es, t := Drop(es, t, WORKER_SLOTS * c, ids, c - 1);
    }
  }

  /**
   The limit of 20 holds for each connection only. An agent that loses its
   connection `c` times, never having two at once, can be left with 20 requests
   of each, all being handled at the same time.
   */
  lemma LimitPerConnection(c: nat) returns (es: seq<Event>, t: State)
    ensures Runs(INIT, es, t) && Solo(INIT, es) && DistinctIds(es)
    ensures |t.links| == c && !SomeLive(t) && Crowd(t, 20 * c, RequestId)
  {
    es, t := LeftBehind(c, RequestId);
    forall q: nat, r: nat | q < r < |t.calls| ensures t.calls[q].id != t.calls[r].id {
      RequestIdInjective(q, r);
    }
    IdsOfCalls(INIT, es, t);
  }
}
