/**
 What callers of SendRequest can rely on, whatever the interleaving: they get
 their own answer, the read loop never blocks, and the pending map is exact.
 */
module Requests {
  import opened Text
  import opened Wrappers
  import opened Transport

  predicate InProgress(pc: Pc) { pc.Registered? || pc.Sealed? || pc.Pending? || pc.Leaving? }

  predicate HasAnswer(pc: Pc) { (pc.Leaving? || pc.Returned?) && pc.out.Some? }

  ghost predicate IdsDistinct(calls: seq<Call>) {
    forall q, r :: 0 <= q < r < |calls| ==> calls[q].id != calls[r].id
  }

  /** One call, its channel, its entry in the pending map and its answer. */
  ghost predicate CallInv(r: nat, c: Call, chan: seq<Resp>, pending: map<Id, nat>, ran: seq<Ran>) {
    && ((c.pc.Created? || c.pc.Registered? || c.pc.Sealed?) ==> !c.sent)
    && (chan != [] ==> |chan| == 1 && c.sent && !HasAnswer(c.pc) && Ran(r, c.id, c.req, chan[0]) in ran)
    && (HasAnswer(c.pc) ==> c.sent && Ran(r, c.id, c.req, c.pc.out.value) in ran)
    && (InProgress(c.pc) ==> c.id in pending && pending[c.id] == r)
  }

  ghost predicate CallsInv(calls: seq<Call>, chans: seq<seq<Resp>>, pending: map<Id, nat>, ran: seq<Ran>)
    requires |chans| == |calls|
  {
    forall r {:trigger calls[r]} {:trigger chans[r]} :: 0 <= r < |calls| ==>
      CallInv(r, calls[r], chans[r], pending, ran)
  }

  ghost predicate PendingInv(calls: seq<Call>, pending: map<Id, nat>) {
    forall id :: id in pending ==>
      pending[id] < |calls| && calls[pending[id]].id == id && InProgress(calls[pending[id]].pc)
  }

  /** A message, against the call it stems from. */
  ghost predicate ItemInv(it: Item, calls: seq<Call>, chans: seq<seq<Resp>>, ran: seq<Ran>)
    requires |chans| == |calls|
  {
    it.Gone? ||
    (&& it.caller < |calls|
     && var c := calls[it.caller];
     && c.id == it.id && c.sent && chans[it.caller] == [] && !HasAnswer(c.pc)
     && (it.Asks() ==> it.req == c.req)
     && (it.Replies() ==> Ran(it.caller, it.id, c.req, it.resp) in ran)
     && (it.Sending? ==> it.chan == it.caller))
  }

  ghost predicate SoupInv(soup: seq<Item>, calls: seq<Call>, chans: seq<seq<Resp>>, ran: seq<Ran>)
    requires |chans| == |calls|
  {
    && (forall i {:trigger soup[i]} :: 0 <= i < |soup| ==> ItemInv(soup[i], calls, chans, ran))
    && (forall i, j :: 0 <= i < j < |soup| && !soup[i].Gone? && !soup[j].Gone? ==> soup[i].caller != soup[j].caller)
  }

  ghost predicate RanInv(ran: seq<Ran>, soup: seq<Item>, calls: seq<Call>) {
    && (forall k, l :: 0 <= k < l < |ran| ==> ran[k].caller != ran[l].caller)
    && (forall k {:trigger ran[k]} :: 0 <= k < |ran| ==>
         ran[k].caller < |calls| && calls[ran[k].caller].sent
         && calls[ran[k].caller].id == ran[k].id && calls[ran[k].caller].req == ran[k].req)
    && (forall i, k :: 0 <= i < |soup| && soup[i].Asks() && 0 <= k < |ran| ==> ran[k].caller != soup[i].caller)
  }

  ghost predicate Inv(s: State) {
    && |s.chans| == |s.calls|
    && IdsDistinct(s.calls)
    && CallsInv(s.calls, s.chans, s.pending, s.ran)
    && PendingInv(s.calls, s.pending)
    && SoupInv(s.soup, s.calls, s.chans, s.ran)
    && RanInv(s.ran, s.soup, s.calls)
  }

  lemma StartKeeps(s: State, e: Event)
    requires Inv(s) && Enabled(s, e) && e.Start?
    requires forall r :: 0 <= r < |s.calls| ==> s.calls[r].id != e.id
    ensures Inv(Apply(s, e))
  {
  }

  lemma RegisterKeeps(s: State, r: nat)
    requires Inv(s) && Enabled(s, Register(r))
    ensures Inv(Apply(s, Register(r)))
  {
  }

  lemma UnregisterKeeps(s: State, r: nat)
    requires Inv(s) && Enabled(s, Unregister(r))
    ensures Inv(Apply(s, Unregister(r)))
  {
    var t := Apply(s, Unregister(r));
    assert CallInv(r, s.calls[r], s.chans[r], s.pending, s.ran);
    assert t.pending == s.pending - {s.calls[r].id};
    assert CallsInv(t.calls, t.chans, t.pending, t.ran);
    assert PendingInv(t.calls, t.pending);
    assert SoupInv(t.soup, t.calls, t.chans, t.ran);
  }

  /** A call in progress may move on, and may come to count as sent. */
  lemma CallMovedKeeps(s: State, r: nat, c: Call)
    requires Inv(s) && r < |s.calls| && InProgress(s.calls[r].pc) && InProgress(c.pc) && !HasAnswer(c.pc)
    requires c.id == s.calls[r].id && c.req == s.calls[r].req && (s.calls[r].sent ==> c.sent)
    requires CallInv(r, c, s.chans[r], s.pending, s.ran)
    ensures Inv(s.(calls := s.calls[r := c]))
  {
  }

  lemma UnsentKeeps(s: State, r: nat)
    requires Inv(s) && r < |s.calls| && !s.calls[r].sent
    ensures forall i {:trigger s.soup[i]} :: 0 <= i < |s.soup| && !s.soup[i].Gone? ==> s.soup[i].caller != r
    ensures forall k {:trigger s.ran[k]} :: 0 <= k < |s.ran| ==> s.ran[k].caller != r
  {
  }

  lemma PostedKeeps(s: State, r: nat, it: Item)
    requires Inv(s) && r < |s.calls| && it.ToAgent? && it.caller == r && ItemInv(it, s.calls, s.chans, s.ran)
    requires forall i {:trigger s.soup[i]} :: 0 <= i < |s.soup| && !s.soup[i].Gone? ==> s.soup[i].caller != r
    requires forall k {:trigger s.ran[k]} :: 0 <= k < |s.ran| ==> s.ran[k].caller != r
    ensures Inv(s.(soup := s.soup + [it]))
  {
  }

  lemma PcStepKeeps(s: State, e: Event)
    requires Inv(s) && Enabled(s, e) && (e.Seal? || e.TimeOut? || e.Write?)
    ensures Inv(Apply(s, e))
  {
    var t := Apply(s, e);
    assert CallInv(e.r, s.calls[e.r], s.chans[e.r], s.pending, s.ran);
    CallMovedKeeps(s, e.r, t.calls[e.r]);
    if e.Write? && t.soup != s.soup {
      UnsentKeeps(s, e.r);
      PostedKeeps(s.(calls := t.calls), e.r, t.soup[|s.soup|]);
    }
  }

  lemma ReceiveKeeps(s: State, r: nat)
    requires Inv(s) && Enabled(s, Receive(r))
    ensures Inv(Apply(s, Receive(r)))
  {
  }

  lemma LinkStepKeeps(s: State, e: Event)
    requires Inv(s) && Enabled(s, e)
    requires e.Dial? || e.Judge? || e.Connected? || e.GiveUp? || e.Install? || e.Clear?
    ensures Inv(Apply(s, e))
  {
  }

  /** A message may vanish, or change into one of the same call that says no more than it may. */
  lemma MovedKeeps(s: State, i: nat, it: Item)
    requires Inv(s) && i < |s.soup|
    requires it.Gone? || (!s.soup[i].Gone? && it.caller == s.soup[i].caller)
    requires ItemInv(it, s.calls, s.chans, s.ran) && (it.Asks() ==> s.soup[i].Asks())
    ensures Inv(SetItem(s, i, it))
  {
  }

  lemma MessageStepKeeps(s: State, e: Event)
    requires Inv(s) && Enabled(s, e)
    requires e.Lose? || e.AgentRead? || e.Spawn? || e.Respond? || e.LoopRead? || e.Lookup?
    ensures Inv(Apply(s, e))
  {
    var it := s.soup[e.i];
    assert ItemInv(it, s.calls, s.chans, s.ran);
    if e.Lookup? && it.id in s.pending {
      assert s.pending[it.id] == it.caller;
    }
    MovedKeeps(s, e.i, Apply(s, e).soup[e.i]);
  }

  lemma HandleKeeps(s: State, i: nat, resp: Resp)
    requires Inv(s) && Enabled(s, Handle(i, resp))
    ensures Inv(Apply(s, Handle(i, resp)))
  {
  }

  lemma DeliverKeeps(s: State, i: nat)
    requires Inv(s) && Enabled(s, Deliver(i))
    ensures Inv(Apply(s, Deliver(i)))
  {
  }

  lemma StepKeeps(s: State, e: Event)
    requires Inv(s) && Enabled(s, e)
    requires e.Start? ==> forall r :: 0 <= r < |s.calls| ==> s.calls[r].id != e.id
    ensures Inv(Apply(s, e))
  {
    match e
    case Start(_, _) => StartKeeps(s, e);
    case Register(r) => RegisterKeeps(s, r);
    case Seal(_, _) => PcStepKeeps(s, e);
    case Write(_, _) => PcStepKeeps(s, e);
    case TimeOut(_) => PcStepKeeps(s, e);
    case Receive(r) => ReceiveKeeps(s, r);
    case Unregister(r) => UnregisterKeeps(s, r);
    case Handle(i, resp) => HandleKeeps(s, i, resp);
    case Deliver(i) => DeliverKeeps(s, i);
    case Lose(_) => MessageStepKeeps(s, e);
    case AgentRead(_) => MessageStepKeeps(s, e);
    case Spawn(_) => MessageStepKeeps(s, e);
    case Respond(_, _, _) => MessageStepKeeps(s, e);
    case LoopRead(_) => MessageStepKeeps(s, e);
    case Lookup(_) => MessageStepKeeps(s, e);
    case _ => LinkStepKeeps(s, e);
  }

  /** The invariant holds in every state of every run that uses each id once. */
  lemma {:induction false} RunKeeps(s: State, es: seq<Event>, t: State)
    requires Inv(s) && Runs(s, es, t) && DistinctIds(es)
    requires forall a, r :: 0 <= a < |es| && es[a].Start? && 0 <= r < |s.calls| ==> es[a].id != s.calls[r].id
    ensures Inv(t)
    decreases |es|
  {
    if es == [] {
    } else {
      var u := Apply(s, es[0]);
      StepKeeps(s, es[0]);
      forall r: nat | r < |u.calls| ensures u.calls[r].id == if r < |s.calls| then s.calls[r].id else es[0].id {
        CallIdAfter(s, es[0], r);
      }
      RunKeeps(u, es[1..], t);
    }
  }

  /** A step leaves the ids of calls alone; only a start adds one. */
  lemma CallIdAfter(s: State, e: Event, r: nat)
    requires Enabled(s, e) && r < |Apply(s, e).calls|
    ensures |Apply(s, e).calls| == if e.Start? then |s.calls| + 1 else |s.calls|
    ensures Apply(s, e).calls[r].id == if r < |s.calls| then s.calls[r].id else e.id
  {
  }

  lemma ReachableInv(es: seq<Event>, t: State)
    requires Runs(INIT, es, t) && DistinctIds(es)
    ensures Inv(t)
  {
    RunKeeps(INIT, es, t);
  }

  /**
   A call that returns a response returns what the handler produced for the
   request that call sent, and the handler ran once for that id. It never runs
   twice for an id, so a call that fails had its request executed at most once.
   */
  lemma OwnAnswer(es: seq<Event>, t: State, r: nat)
    requires Runs(INIT, es, t) && DistinctIds(es) && r < |t.calls|
    ensures forall k, l :: 0 <= k < l < |t.ran| ==> t.ran[k].id != t.ran[l].id
    ensures forall resp :: t.calls[r].pc == Leaving(Some(resp)) || t.calls[r].pc == Returned(Some(resp)) ==>
      exists k :: 0 <= k < |t.ran| && t.ran[k] == Ran(r, t.calls[r].id, t.calls[r].req, resp)
    ensures forall k :: 0 <= k < |t.ran| && t.ran[k].id == t.calls[r].id ==> t.ran[k].req == t.calls[r].req
  {
    ReachableInv(es, t);
    assert CallInv(r, t.calls[r], t.chans[r], t.pending, t.ran);
  }

  /** Whenever a read loop is about to send on a call's channel, the channel has room. */
  lemma ReadLoopNeverBlocks(es: seq<Event>, t: State, i: nat)
    requires Runs(INIT, es, t) && DistinctIds(es) && i < |t.soup| && t.soup[i].Sending?
    ensures Enabled(t, Deliver(i))
  {
    ReachableInv(es, t);
    assert ItemInv(t.soup[i], t.calls, t.chans, t.ran);
  }

  /** The keys of `pending` are exactly the ids of the calls in progress. */
  lemma PendingExact(es: seq<Event>, t: State)
    requires Runs(INIT, es, t) && DistinctIds(es)
    ensures t.pending.Keys ==
      set r | 0 <= r < |t.calls| && !t.calls[r].pc.Created? && !t.calls[r].pc.Returned? :: t.calls[r].id
    ensures (forall r :: 0 <= r < |t.calls| ==> t.calls[r].pc.Returned?) ==> t.pending == map[]
  {
    ReachableInv(es, t);
    forall id | id in t.pending
      ensures exists r :: 0 <= r < |t.calls| && InProgress(t.calls[r].pc) && t.calls[r].id == id
    {
      assert InProgress(t.calls[t.pending[id]].pc);
    }
    forall r | 0 <= r < |t.calls| && InProgress(t.calls[r].pc) ensures t.calls[r].id in t.pending {
      assert CallInv(r, t.calls[r], t.chans[r], t.pending, t.ran);
    }
    assert t.pending.Keys == {} ==> t.pending == map[];
  }

  /** A call that is about to register finds no entry under its id. */
  lemma Unregistered(es: seq<Event>, t: State, r: nat)
    requires Runs(INIT, es, t) && DistinctIds(es) && Enabled(t, Register(r))
    ensures t.calls[r].id !in t.pending
  {
    ReachableInv(es, t);
    assert PendingInv(t.calls, t.pending);
  }

  /** The entry a call removes is its own. */
  lemma OwnChannel(es: seq<Event>, t: State, r: nat)
    requires Runs(INIT, es, t) && DistinctIds(es) && r < |t.calls| && InProgress(t.calls[r].pc)
    ensures t.calls[r].id in t.pending && t.pending[t.calls[r].id] == r
  {
    ReachableInv(es, t);
    assert CallInv(r, t.calls[r], t.chans[r], t.pending, t.ran);
  }

  /** What a lookup finds is the empty channel of the unanswered call that the response is for. */
  lemma LookupFindsCaller(es: seq<Event>, t: State, i: nat)
    requires Runs(INIT, es, t) && DistinctIds(es) && Enabled(t, Lookup(i))
    ensures var it := t.soup[i];
      && it.caller < |t.calls| == |t.chans| && t.calls[it.caller].id == it.id
      && t.chans[it.caller] == [] && !HasAnswer(t.calls[it.caller].pc)
      && (it.id in t.pending ==> t.pending[it.id] == it.caller)
  {
    ReachableInv(es, t);
    assert ItemInv(t.soup[i], t.calls, t.chans, t.ran);
  }

  // ---------------------------------------------------------------- ids

  /** The id handleToolsCall and the chunk loops build from the value of `requestID`. */
  function RequestId(n: nat): Id { "req-" + Digits(n) }

  lemma RequestIdInjective(m: nat, n: nat)
    ensures RequestId(m) == RequestId(n) ==> m == n
  {
    if RequestId(m) == RequestId(n) {
      assert RequestId(m)[4..] == Digits(m) && RequestId(n)[4..] == Digits(n);
      DigitsInjective(m, n);
    }
  }

  /** Calls that drew different numbers from the counter, in whatever order, have different ids. */
  lemma CounterIdsDistinct(es: seq<Event>, drawn: seq<nat>)
    requires |drawn| == |es|
    requires forall a :: 0 <= a < |es| && es[a].Start? ==> es[a].id == "req-" + Digits(drawn[a])
    requires forall a, b :: 0 <= a < b < |es| && es[a].Start? && es[b].Start? ==> drawn[a] != drawn[b]
    ensures DistinctIds(es)
  {
    forall a, b | 0 <= a < b < |es| && es[a].Start? && es[b].Start? ensures es[a].id != es[b].id {
      RequestIdInjective(drawn[a], drawn[b]);
    }
  }

  /** Every call started in a run is among its calls, so distinct calls come from distinct ids. */
  lemma {:induction false} IdsOfCalls(s: State, es: seq<Event>, t: State)
    requires Runs(s, es, t)
    ensures |s.calls| <= |t.calls| && forall r :: 0 <= r < |s.calls| ==> t.calls[r].id == s.calls[r].id
    ensures forall a :: 0 <= a < |es| && es[a].Start? ==>
      exists r :: |s.calls| <= r < |t.calls| && t.calls[r].id == es[a].id
    ensures IdsDistinct(t.calls) ==> DistinctIds(es)
    decreases |es|
  {
    if es == [] {
    } else {
      var u, n := Apply(s, es[0]), |s.calls|;
      IdsOfCalls(u, es[1..], t);
      forall r: nat | r < |u.calls| ensures u.calls[r].id == if r < n then s.calls[r].id else es[0].id {
        CallIdAfter(s, es[0], r);
      }
      if es[0].Start? {
        CallIdAfter(s, es[0], n);
        assert t.calls[n].id == es[0].id;
      }
      forall a | 0 <= a < |es| && es[a].Start? ensures exists r :: n <= r < |t.calls| && t.calls[r].id == es[a].id {
        if a > 0 {
          assert es[1..][a - 1] == es[a];
        }
      }
      if IdsDistinct(t.calls) {
        assert DistinctIds(es[1..]);
        forall a, b | 0 <= a < b < |es| && es[a].Start? && es[b].Start? ensures es[a].id != es[b].id {
          assert es[b] == es[1..][b - 1];
          if a > 0 {
            assert es[a] == es[1..][a - 1];
          }
        }
      }
    }
  }

  // ---------------------------------------------------------------- worker slots

  /** How many requests of connection `k` are being handled. */
  function Slots(soup: seq<Item>, k: nat): nat {
    if soup == [] then 0 else Slots(soup[..|soup| - 1], k) + if soup[|soup| - 1].HoldsSlot(k) then 1 else 0
  }

  /** How many requests of all these connections together are being handled. */
  function Workers(soup: seq<Item>, links: set<nat>): nat {
    if soup == [] then 0
    else
      var it := soup[|soup| - 1];
      Workers(soup[..|soup| - 1], links) + if it.Works() && it.link in links then 1 else 0
  }

  /** The connections with requests being handled. */
  function Busy(soup: seq<Item>): set<nat> {
    set i | 0 <= i < |soup| && soup[i].Works() :: soup[i].link
  }

  lemma {:induction false} SlotsUpdate(soup: seq<Item>, i: nat, it: Item, k: nat)
    requires i < |soup|
    ensures Slots(soup[i := it], k) ==
      Slots(soup, k) - (if soup[i].HoldsSlot(k) then 1 else 0) + (if it.HoldsSlot(k) then 1 else 0)
  {
    var n := |soup| - 1;
    if i < n {
      assert soup[i := it][..n] == soup[..n][i := it];
      SlotsUpdate(soup[..n], i, it, k);
    } else {
      assert soup[i := it][..n] == soup[..n];
    }
  }

  predicate MovesMessage(e: Event) {
    e.Lose? || e.AgentRead? || e.Spawn? || e.Handle? || e.Respond? || e.LoopRead? || e.Lookup? || e.Deliver?
  }

  /** A step replaces one message, or appends one, or leaves them all alone. */
  lemma SoupStep(s: State, e: Event)
    requires Enabled(s, e)
    ensures var t := Apply(s, e);
      if MovesMessage(e) then e.i < |s.soup| && t.soup == s.soup[e.i := t.soup[e.i]]
      else t.soup == s.soup || (|t.soup| == |s.soup| + 1 && t.soup[..|s.soup|] == s.soup && t.soup[|s.soup|].ToAgent?)
  {
  }

  /** What is in the semaphore of connection `k`; a connection not dialled yet has none. */
  function Taken(links: seq<Link>, k: nat): nat {
    if k < |links| then links[k].slots else 0
  }

  /** A semaphore holds one token for each request being handled, and never more than 20. */
  ghost predicate SlotInv(s: State) {
    forall k: nat :: Slots(s.soup, k) == Taken(s.links, k) <= WORKER_SLOTS
  }

  /** Starting or ending a worker moves the semaphore of its connection with it. */
  lemma WorkerStep(s: State, e: Event, k: nat)
    requires Enabled(s, e) && (e.Spawn? || e.Respond?) && Taken(s.links, k) <= WORKER_SLOTS
    ensures var t := Apply(s, e);
      && |t.soup| == |s.soup| && Taken(t.links, k) <= WORKER_SLOTS
      && Taken(t.links, k) == Taken(s.links, k)
        - (if s.soup[e.i].HoldsSlot(k) then 1 else 0) + (if t.soup[e.i].HoldsSlot(k) then 1 else 0)
  {
  }

  /** A step fills a slot exactly when a request starts to be handled, and frees it when that ends. */
  lemma TakenStep(s: State, e: Event, k: nat)
    requires Enabled(s, e) && Taken(s.links, k) <= WORKER_SLOTS
    ensures var t := Apply(s, e);
      && Taken(t.links, k) <= WORKER_SLOTS
      && (!MovesMessage(e) ==> Taken(t.links, k) == Taken(s.links, k))
      && (MovesMessage(e) && e.i < |s.soup| == |t.soup| ==>
           Taken(t.links, k) == Taken(s.links, k)
             - (if s.soup[e.i].HoldsSlot(k) then 1 else 0) + (if t.soup[e.i].HoldsSlot(k) then 1 else 0))
  {
    if e.Spawn? || e.Respond? {
      WorkerStep(s, e, k);
    }
  }

  lemma SlotStepKeeps(s: State, e: Event)
    requires SlotInv(s) && Enabled(s, e)
    ensures SlotInv(Apply(s, e))
  {
    var t := Apply(s, e);
    SoupStep(s, e);
    forall k: nat ensures Slots(t.soup, k) == Taken(t.links, k) <= WORKER_SLOTS {
      assert Slots(s.soup, k) == Taken(s.links, k);
      TakenStep(s, e, k);
      if MovesMessage(e) {
        SlotsUpdate(s.soup, e.i, t.soup[e.i], k);
      }
    }
  }

  lemma {:induction false} SlotRunKeeps(s: State, es: seq<Event>, t: State)
    requires SlotInv(s) && Runs(s, es, t)
    ensures SlotInv(t)
    decreases |es|
  {
    if es == [] {
    } else {
      SlotStepKeeps(s, es[0]);
      SlotRunKeeps(Apply(s, es[0]), es[1..], t);
    }
  }

  lemma {:induction false} WorkersSplit(soup: seq<Item>, links: set<nat>, k: nat)
    requires k in links
    ensures Workers(soup, links) == Slots(soup, k) + Workers(soup, links - {k})
  {
    if soup == [] {
    } else {
      WorkersSplit(soup[..|soup| - 1], links, k);
    }
  }

  lemma {:induction false} NoWorkers(soup: seq<Item>)
    ensures Workers(soup, {}) == 0
  {
    if soup == [] {
    } else {
      NoWorkers(soup[..|soup| - 1]);
    }
  }

  lemma {:induction false} WorkersWithin(soup: seq<Item>, links: set<nat>)
    requires forall k :: k in links ==> Slots(soup, k) <= WORKER_SLOTS
    ensures Workers(soup, links) <= WORKER_SLOTS * |links|
    decreases |links|
  {
    if links == {} {
      NoWorkers(soup);
    } else {
      var k :| k in links;
      WorkersSplit(soup, links, k);
      WorkersWithin(soup, links - {k});
    }
  }

  /**
   A semaphore counts exactly the requests of its connection that are being
   handled, at most 20; all connections together handle at most 20 for each that
   handles any, so at most 20 while only one does.
   */
  lemma WorkersBounded(es: seq<Event>, t: State)
    requires Runs(INIT, es, t)
    ensures forall k: nat :: k < |t.links| ==> t.links[k].slots == Slots(t.soup, k) <= 20
    ensures Workers(t.soup, Busy(t.soup)) <= 20 * |Busy(t.soup)|
  {
    SlotRunKeeps(INIT, es, t);
    forall k: nat | k < |t.links| ensures t.links[k].slots == Slots(t.soup, k) <= WORKER_SLOTS {
      assert Slots(t.soup, k) == Taken(t.links, k);
    }
    WorkersWithin(t.soup, Busy(t.soup));
  }

  lemma {:induction false} HolderCounts(soup: seq<Item>, i: nat)
    requires i < |soup| && soup[i].Works()
    ensures Slots(soup, soup[i].link) > 0
  {
    if i < |soup| - 1 {
      HolderCounts(soup[..|soup| - 1], i);
    }
  }

  /** A worker that is done never waits to give its slot back, and its connection is a known one. */
  lemma WorkerNeverBlocks(es: seq<Event>, t: State, i: nat, sealed: bool, delivered: bool)
    requires Runs(INIT, es, t) && i < |t.soup| && t.soup[i].Answered?
    ensures Enabled(t, Respond(i, sealed, delivered))
  {
    SlotRunKeeps(INIT, es, t);
    HolderCounts(t.soup, i);
    assert Slots(t.soup, t.soup[i].link) == Taken(t.links, t.soup[i].link);
  }
}
