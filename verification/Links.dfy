/**
 Handshakes: both ends derive their key from the same secret, the operator's
 connection fields stay coherent, and which messages the peer can open.
 */
module Links {
  import opened Wrappers
  import opened Transport

  ghost predicate LinkInv(l: Link) {
    && l.client.token == l.hello.token
    && (l.client.socket.Waiting? ==> l.client.session == l.hello.session)
    && (l.client.cipher.Some? ==> l.client.cipher == Some(OperatorSecret(l.hello)))
    && (l.client.socket.Open? ==> l.client.cipher.Some?)
  }

  ghost predicate SharedInv(shared: Shared, links: seq<Link>) {
    if shared.conn.None? then shared == DISCONNECTED
    else
      && shared.conn.value < |links|
      && var l := links[shared.conn.value];
      l.phase.Live? && shared.cipher == Some(OperatorSecret(l.hello)) && shared.info == Some(l.hello.host)
  }

  /** What sealing for the given connection, or for none, leaves as the key. */
  ghost predicate KeyOf(key: Option<Secret>, conn: Option<nat>, links: seq<Link>) {
    if conn.None? then key.None?
    else conn.value < |links| && key == Some(OperatorSecret(links[conn.value].hello))
  }

  /** A call holds the key it was sealed with, which is current while its epoch lasts. */
  ghost predicate SealInv(c: Call, shared: Shared, epoch: nat, links: seq<Link>) {
    && c.sealedAt <= epoch && KeyOf(c.key, c.sealedFor, links)
    && (c.pc.Sealed? && c.sealedAt == epoch ==> c.sealedFor == shared.conn)
  }

  /** A call past its sealing, whose message is on the wire. */
  ghost predicate Written(c: Call) { !c.pc.Created? && !c.pc.Registered? && !c.pc.Sealed? }

  ghost predicate WireInv(it: Item, links: seq<Link>, calls: seq<Call>) {
    it.Gone? ||
    (&& it.link < |links|
     && (it.ToOperator? ==> it.key.None? || it.key == Some(OperatorSecret(links[it.link].hello)))
     && (it.ToAgent? ==>
          && it.caller < |calls| && Written(calls[it.caller])
          && calls[it.caller].key == it.key && calls[it.caller].sealedAt <= it.writtenAt
          && (calls[it.caller].sealedAt == it.writtenAt ==> calls[it.caller].sealedFor == Some(it.link))))
  }

  ghost predicate Inv(s: State) {
    && (forall k {:trigger s.links[k]} :: 0 <= k < |s.links| ==> LinkInv(s.links[k]))
    && SharedInv(s.shared, s.links)
    && (forall r {:trigger s.calls[r]} :: 0 <= r < |s.calls| ==> SealInv(s.calls[r], s.shared, s.epoch, s.links))
    && (forall i {:trigger s.soup[i]} :: 0 <= i < |s.soup| ==> WireInv(s.soup[i], s.links, s.calls))
  }

  /** A call may move on; once it is past its sealing it keeps its key. */
  lemma CallMovedKeeps(s: State, r: nat, c: Call)
    requires Inv(s) && r < |s.calls| && SealInv(c, s.shared, s.epoch, s.links)
    requires Written(s.calls[r]) ==>
      Written(c) && c.key == s.calls[r].key && c.sealedFor == s.calls[r].sealedFor && c.sealedAt == s.calls[r].sealedAt
    ensures Inv(s.(calls := s.calls[r := c]))
  {
  }

  lemma PostedKeeps(s: State, it: Item)
    requires Inv(s) && WireInv(it, s.links, s.calls)
    ensures Inv(s.(soup := s.soup + [it]))
  {
  }

  lemma StartKeeps(s: State, e: Event)
    requires Inv(s) && e.Start?
    ensures Inv(Apply(s, e))
  {
  }

  lemma CallStepKeeps(s: State, e: Event)
    requires Inv(s) && Enabled(s, e)
    requires e.Register? || e.Seal? || e.Write? || e.TimeOut? || e.Receive? || e.Unregister?
    ensures Inv(Apply(s, e))
  {
    var t := Apply(s, e);
    assert SealInv(s.calls[e.r], s.shared, s.epoch, s.links);
    CallMovedKeeps(s, e.r, t.calls[e.r]);
    if e.Write? && t.soup != s.soup {
      PostedKeeps(s.(calls := t.calls), t.soup[|s.soup|]);
    }
  }

  /** A link may move on as long as it keeps its greeting and, while installed, stays live. */
  lemma LinkMovedKeeps(s: State, k: nat, l: Link)
    requires Inv(s) && k < |s.links| && LinkInv(l) && l.hello == s.links[k].hello
    requires s.shared.conn == Some(k) ==> l.phase.Live?
    ensures Inv(SetLink(s, k, l))
  {
  }

  /** Whatever is installed, it starts a new epoch, so no call is still sealed in it. */
  lemma EpochKeeps(s: State, shared: Shared)
    requires Inv(s) && SharedInv(shared, s.links)
    ensures Inv(s.(shared := shared, epoch := s.epoch + 1))
  {
  }

  lemma LinkStepKeeps(s: State, e: Event)
    requires Inv(s) && Enabled(s, e)
    requires e.Judge? || e.Connected? || e.GiveUp? || e.Install? || e.Clear?
    ensures Inv(Apply(s, e))
  {
    var t := Apply(s, e);
    if e.Clear? {
      EpochKeeps(s, DISCONNECTED);
      LinkMovedKeeps(s.(shared := DISCONNECTED, epoch := s.epoch + 1), e.k, t.links[e.k]);
    } else {
      LinkMovedKeeps(s, e.k, t.links[e.k]);
      if t.shared != s.shared {
        EpochKeeps(SetLink(s, e.k, t.links[e.k]), t.shared);
      }
    }
  }

  lemma DialKeeps(s: State, e: Event)
    requires Inv(s) && e.Dial?
    ensures Inv(Apply(s, e))
  {
  }

  /** A message may move on within its connection, to where it is no longer on the wire. */
  lemma ItemMovedKeeps(s: State, i: nat, it: Item)
    requires Inv(s) && i < |s.soup| && WireInv(it, s.links, s.calls)
    ensures Inv(SetItem(s, i, it))
  {
  }

  /** Moving a message touches neither the links nor the calls, and takes it off the wire. */
  lemma MessageMoves(s: State, e: Event)
    requires Enabled(s, e)
    requires e.Lose? || e.AgentRead? || e.Handle? || e.LoopRead? || e.Lookup? || e.Deliver?
    ensures e.i < |s.soup|
    ensures var t := Apply(s, e);
      && t.links == s.links && t.calls == s.calls && t.shared == s.shared && t.epoch == s.epoch
      && |t.soup| == |s.soup| && t.soup == s.soup[e.i := t.soup[e.i]]
      && (t.soup[e.i].Gone? || (!s.soup[e.i].Gone? && t.soup[e.i].link == s.soup[e.i].link))
      && !t.soup[e.i].ToAgent? && !t.soup[e.i].ToOperator?
  {
  }

  lemma MessageStepKeeps(s: State, e: Event)
    requires Inv(s) && Enabled(s, e)
    requires e.Lose? || e.AgentRead? || e.Handle? || e.LoopRead? || e.Lookup? || e.Deliver?
    ensures Inv(Apply(s, e))
  {
    MessageMoves(s, e);
    assert WireInv(s.soup[e.i], s.links, s.calls);
    ItemMovedKeeps(s, e.i, Apply(s, e).soup[e.i]);
  }

  /** A worker is started, or ends: the message moves on and its connection's semaphore with it. */
  lemma WorkerStepKeeps(s: State, e: Event)
    requires Inv(s) && Enabled(s, e) && (e.Spawn? || e.Respond?)
    ensures Inv(Apply(s, e))
  {
    var t, k := Apply(s, e), s.soup[e.i].link;
    assert WireInv(t.soup[e.i], s.links, s.calls) by {
      assert LinkInv(s.links[k]);
    }
    LinkMovedKeeps(SetItem(s, e.i, t.soup[e.i]), k, t.links[k]);
  }

  lemma StepKeeps(s: State, e: Event)
    requires Inv(s) && Enabled(s, e)
    ensures Inv(Apply(s, e))
  {
    if e.Start? {
      StartKeeps(s, e);
    } else if e.Register? || e.Seal? || e.Write? || e.TimeOut? || e.Receive? || e.Unregister? {
      CallStepKeeps(s, e);
    } else if e.Dial? {
      DialKeeps(s, e);
    } else if e.Judge? || e.Connected? || e.GiveUp? || e.Install? || e.Clear? {
      LinkStepKeeps(s, e);
    } else if e.Spawn? || e.Respond? {
      WorkerStepKeeps(s, e);
    } else {
      MessageStepKeeps(s, e);
    }
  }

  lemma {:induction false} RunKeeps(s: State, es: seq<Event>, t: State)
    requires Inv(s) && Runs(s, es, t)
    ensures Inv(t)
    decreases |es|
  {
    if es == [] {
    } else {
      StepKeeps(s, es[0]);
      RunKeeps(Apply(s, es[0]), es[1..], t);
    }
  }

  /** Both ends of every connection that came up derive their keys from one secret. */
  lemma KeyAgreement(es: seq<Event>, t: State, k: nat)
    requires Runs(INIT, es, t) && k < |t.links|
    ensures var hello := t.links[k].hello;
      var secret := if hello.session != "" then hello.session else hello.token;
      && (t.links[k].client.socket.Open? ==> t.links[k].client.cipher == Some(secret))
      && (t.shared.conn == Some(k) ==> t.shared.cipher == Some(secret))
  {
    RunKeeps(INIT, es, t);
  }

  /** The operator's fields are all nil or all from one live handshake. */
  lemma Coherent(es: seq<Event>, t: State)
    requires Runs(INIT, es, t)
    ensures SharedInv(t.shared, t.links)
  {
    RunKeeps(INIT, es, t);
  }

  // ---------------------------------------------------------------- connections that do not overlap

  predicate IsConnected(s: State) { s.shared.conn.Some? }

  ghost predicate SomeLive(s: State) { exists k :: 0 <= k < |s.links| && s.links[k].phase.Live? }

  /** A connection is the current one exactly from its install to its clear. */
  ghost predicate Exclusive(s: State) {
    forall k :: 0 <= k < |s.links| ==> (s.links[k].phase.Live? <==> s.shared.conn == Some(k))
  }

  /** `IsConnected` tells whether some handler is live. */
  ghost predicate Reports(s: State) { IsConnected(s) <==> SomeLive(s) }

  /** `p` holds in every state of the run. */
  ghost predicate Throughout(p: State -> bool, s: State, es: seq<Event>)
    decreases |es|
  {
    p(s) && (es != [] && Enabled(s, es[0]) ==> Throughout(p, Apply(s, es[0]), es[1..]))
  }

  /** The handler has a secret to derive a key from; without one it gives up. */
  predicate Installs(s: State, e: Event) {
    e.Install? && e.k < |s.links| && OperatorSecret(s.links[e.k].hello) != ""
  }

  /** Every connection of the run is installed while no other is live. */
  ghost predicate Solo(s: State, es: seq<Event>)
    decreases |es|
  {
    es != [] && Enabled(s, es[0]) ==> (Installs(s, es[0]) ==> !SomeLive(s)) && Solo(Apply(s, es[0]), es[1..])
  }

  /** Connection `k` ends while another one is live. */
  ghost predicate Outlived(s: State, e: Event) {
    e.Clear? && exists j :: 0 <= j < |s.links| && j != e.k && s.links[j].phase.Live?
  }

  /** Every handler of the run cleans up while no other is live. */
  ghost predicate LastOut(s: State, es: seq<Event>)
    decreases |es|
  {
    es != [] && Enabled(s, es[0]) ==> !Outlived(s, es[0]) && LastOut(Apply(s, es[0]), es[1..])
  }

  /** What one step does to one handler and to the current connection. */
  lemma LiveStep(s: State, e: Event, j: nat)
    requires Enabled(s, e) && j < |Apply(s, e).links|
    ensures |s.links| <= |Apply(s, e).links|
    ensures Apply(s, e).links[j].phase.Live? <==>
      (Installs(s, e) && e.k == j) || (j < |s.links| && s.links[j].phase.Live? && !(e.Clear? && e.k == j))
    ensures Apply(s, e).shared.conn == if Installs(s, e) then Some(e.k) else if e.Clear? then None else s.shared.conn
  {
  }

  lemma ExclusiveStep(s: State, e: Event)
    requires Inv(s) && Exclusive(s) && Enabled(s, e)
    ensures Exclusive(Apply(s, e)) <==> (Installs(s, e) ==> !SomeLive(s))
  {
    var t := Apply(s, e);
    forall j: nat | j < |t.links| {
      LiveStep(s, e, j);
    }
    if j :| Installs(s, e) && 0 <= j < |s.links| && s.links[j].phase.Live? {
      LiveStep(s, e, j);
      assert t.links[j].phase.Live? && t.shared.conn == Some(e.k);
    }
  }

  lemma {:induction false} ExclusiveRun(s: State, es: seq<Event>, t: State)
    requires Inv(s) && Exclusive(s) && Runs(s, es, t)
    ensures Throughout(Exclusive, s, es) <==> Solo(s, es)
    ensures Solo(s, es) ==> Exclusive(t) && LastOut(s, es)
    decreases |es|
  {
    if es == [] {
    } else {
      var u := Apply(s, es[0]);
      ExclusiveStep(s, es[0]);
      StepKeeps(s, es[0]);
      if Exclusive(u) {
        ExclusiveRun(u, es[1..], t);
      }
    }
  }

  /** Some handler is live after a step: a new one, or an old one that the step does not end. */
  lemma SomeLiveStep(s: State, e: Event)
    requires Enabled(s, e)
    ensures SomeLive(Apply(s, e)) <==>
      Installs(s, e) || exists j :: 0 <= j < |s.links| && s.links[j].phase.Live? && !(e.Clear? && j == e.k)
  {
    var t := Apply(s, e);
    if Installs(s, e) {
      LiveStep(s, e, e.k);
    } else if j :| 0 <= j < |s.links| && s.links[j].phase.Live? && !(e.Clear? && j == e.k) {
      LiveStep(s, e, j);
    } else if j :| 0 <= j < |t.links| && t.links[j].phase.Live? {
      LiveStep(s, e, j);
    }
  }

  lemma ReportsStep(s: State, e: Event)
    requires Inv(s) && Reports(s) && Enabled(s, e)
    ensures Reports(Apply(s, e)) <==> !Outlived(s, e)
  {
    SomeLiveStep(s, e);
    if e.Install? || e.Clear? {
      LiveStep(s, e, e.k);
    }
  }

  lemma {:induction false} ReportsRun(s: State, es: seq<Event>, t: State)
    requires Inv(s) && Reports(s) && Runs(s, es, t)
    ensures Throughout(Reports, s, es) <==> LastOut(s, es)
    ensures LastOut(s, es) ==> Reports(t)
    decreases |es|
  {
    if es == [] {
    } else {
      var u := Apply(s, es[0]);
      ReportsStep(s, es[0]);
      StepKeeps(s, es[0]);
      if Reports(u) {
        ReportsRun(u, es[1..], t);
      }
    }
  }

  /**
   In every state of a run a connection is the current one exactly from its
   install to its clear, if and only if none is installed while another is live.
   */
  lemma ConnectedWhileLive(es: seq<Event>, t: State)
    requires Runs(INIT, es, t)
    ensures Throughout(Exclusive, INIT, es) <==> Solo(INIT, es)
    ensures Solo(INIT, es) ==> Exclusive(t) && LastOut(INIT, es)
  {
    ExclusiveRun(INIT, es, t);
  }

  /**
   In every state of a run `IsConnected` tells whether some handler is live, if
   and only if no handler cleans up while another is live: an older handler's
   cleanup wipes the fields of a newer connection.
   */
  lemma StatusTruthful(es: seq<Event>, t: State)
    requires Runs(INIT, es, t)
    ensures Throughout(Reports, INIT, es) <==> LastOut(INIT, es)
    ensures LastOut(INIT, es) ==> Reports(t)
  {
    ReportsRun(INIT, es, t);
  }

  /**
   The read loop opens what the agent sealed exactly while the operator holds the
   key of that connection, and without overlap always; plain text passes.
   */
  lemma ResponsesOpen(es: seq<Event>, t: State, i: nat)
    requires Runs(INIT, es, t) && Enabled(t, LoopRead(i))
    ensures t.soup[i].link < |t.links|
    ensures Apply(t, LoopRead(i)).soup[i].AtLoop? <==>
      t.soup[i].key.None? || t.shared.cipher == Some(OperatorSecret(t.links[t.soup[i].link].hello))
    ensures Solo(INIT, es) ==> Apply(t, LoopRead(i)).soup[i].AtLoop?
  {
    ConnectedWhileLive(es, t);
    RunKeeps(INIT, es, t);
    assert WireInv(t.soup[i], t.links, t.calls);
  }

  /**
   A request the agent reads opens exactly when no connection was up while it was
   sealed (it goes out in the clear) or the one that was up had the secret of the
   one it was written to. With no install or clear between sealing and writing it
   always opens, and is never in the clear.
   */
  lemma RequestsOpen(es: seq<Event>, t: State, i: nat)
    requires Runs(INIT, es, t) && Enabled(t, AgentRead(i))
    ensures t.soup[i].caller < |t.calls|
    ensures var it, c := t.soup[i], t.calls[t.soup[i].caller];
      && (c.sealedFor.Some? ==> c.sealedFor.value < |t.links|)
      && (Apply(t, AgentRead(i)).soup[i].AtAgent? <==>
           || c.sealedFor.None?
           || OperatorSecret(t.links[c.sealedFor.value].hello) == OperatorSecret(t.links[it.link].hello))
      && (c.sealedAt == it.writtenAt ==> it.key.Some? && Apply(t, AgentRead(i)).soup[i].AtAgent?)
  {
    RunKeeps(INIT, es, t);
    assert WireInv(t.soup[i], t.links, t.calls);
    assert LinkInv(t.links[t.soup[i].link]);
    assert SealInv(t.calls[t.soup[i].caller], t.shared, t.epoch, t.links);
  }

  /**
   A request on the wire is in the clear exactly when it was sealed while no
   connection was up; a response that is sealed has the key of both ends.
   */
  lemma ClearExactly(es: seq<Event>, t: State, i: nat)
    requires Runs(INIT, es, t) && i < |t.soup| && (t.soup[i].ToAgent? || t.soup[i].ToOperator?)
    ensures t.soup[i].link < |t.links| && (t.soup[i].ToAgent? ==> t.soup[i].caller < |t.calls|)
    ensures t.soup[i].ToAgent? ==> (t.soup[i].key.None? <==> t.calls[t.soup[i].caller].sealedFor.None?)
    ensures t.soup[i].ToOperator? && t.soup[i].key.Some? ==>
      t.soup[i].key == Some(OperatorSecret(t.links[t.soup[i].link].hello))
  {
    RunKeeps(INIT, es, t);
    assert WireInv(t.soup[i], t.links, t.calls);
    if t.soup[i].ToAgent? {
      assert SealInv(t.calls[t.soup[i].caller], t.shared, t.epoch, t.links);
    }
  }

  /** A call that is about to write sealed for the connection it writes to, while its epoch lasts. */
  lemma SealedForCurrent(es: seq<Event>, t: State, r: nat)
    requires Runs(INIT, es, t) && r < |t.calls| && t.calls[r].pc.Sealed?
    ensures SharedInv(t.shared, t.links)
    ensures t.calls[r].sealedAt == t.epoch && t.shared.conn.Some? ==>
      t.calls[r].key == Some(OperatorSecret(t.links[t.shared.conn.value].hello))
  {
    RunKeeps(INIT, es, t);
    assert SealInv(t.calls[r], t.shared, t.epoch, t.links);
  }
}
