/**
 The operator and the agent as one transition system: concurrent SendRequest
 callers, WebSocket handlers with their handshakes and read loops, the agent's
 clients with their workers, and every message on its way between them. A
 critical section is one step, and the steps of all threads interleave freely.
 */
module Transport {
  import opened Wrappers

  type Id = string
  type Secret = string
  type Req = string
  type Resp = string

  const WORKER_SLOTS := 20

  // ---------------------------------------------------------------- handshake

  datatype Handshake = Handshake(token: string, session: string, host: string)

  /** The secret the operator derives its key from. */
  function OperatorSecret(h: Handshake): Secret {
    if h.session != "" then h.session else h.token
  }

  datatype Socket = Waiting | Open | Shut

  /** The agent's Client: its tokens, its connection and the secret of its cipher. */
  datatype Client = Client(token: string, session: string, socket: Socket, cipher: Option<Secret>) {
    function Greeting(host: string): Handshake {
      Handshake(token, session, host)
    }

    /** The end of Connect: derive the key first, then remember the issued session token. */
    function Accepted(issued: string): Client {
      var secret := if session != "" then session else token;
      if secret == "" then this.(socket := Shut)
      else Client(token, if issued != "" then issued else session, Open, Some(secret))
    }
  }

  datatype Phase = Greeting | Refused | Admitted | Live | Ended

  /**
   One dialled connection: the handler goroutine on one side, the client on the
   other, and how full the semaphore of the client's `Run` is.
   */
  datatype Link = Link(hello: Handshake, phase: Phase, issued: string, client: Client, slots: nat)

  /** The operator's fields guarded by `mu`; `info` stands for agentInfo. */
  datatype Shared = Shared(conn: Option<nat>, cipher: Option<Secret>, info: Option<string>)

  const DISCONNECTED := Shared(None, None, None)

  // ---------------------------------------------------------------- requests

  datatype Pc =
    | Created
    | Registered
    | Sealed
    | Pending
    | Leaving(out: Option<Resp>)
    | Returned(out: Option<Resp>)

  /**
   One SendRequest call; `key` is what it sealed its data with. History records
   which connection was current then (`sealedFor`) and in which epoch (`sealedAt`).
   */
  datatype Call = Call(id: Id, req: Req, pc: Pc, key: Option<Secret>, sealedFor: Option<nat>, sealedAt: nat, sent: bool)

  /**
   Where a message, or the work it caused, currently is. `caller` records the
   call it stems from; no step decides anything by it, steps only copy it.
   */
  datatype Item =
    | Gone
    | ToAgent(caller: nat, link: nat, key: Option<Secret>, id: Id, req: Req, writtenAt: nat)
    | AtAgent(caller: nat, link: nat, id: Id, req: Req)
    | Running(caller: nat, link: nat, id: Id, req: Req)
    | Answered(caller: nat, link: nat, id: Id, resp: Resp)
    | ToOperator(caller: nat, link: nat, key: Option<Secret>, id: Id, resp: Resp)
    | AtLoop(caller: nat, link: nat, id: Id, resp: Resp)
    | Sending(caller: nat, link: nat, chan: nat, id: Id, resp: Resp)
  {
    predicate Asks() { ToAgent? || AtAgent? || Running? }
    predicate Replies() { Answered? || ToOperator? || AtLoop? || Sending? }
    predicate Works() { Running? || Answered? }
    predicate HoldsSlot(k: nat) { Works() && link == k }
    predicate AtLoopOf(k: nat) { (AtLoop? || Sending?) && link == k }
  }

  /** History: the handler ran for this request and produced this response. */
  datatype Ran = Ran(caller: nat, id: Id, req: Req, resp: Resp)

  /** `chans[r]` is the one-slot channel call `r` made; `epoch` counts installs and clears. */
  datatype State = State(
    shared: Shared,
    pending: map<Id, nat>,
    calls: seq<Call>,
    chans: seq<seq<Resp>>,
    links: seq<Link>,
    soup: seq<Item>,
    ran: seq<Ran>,
    epoch: nat)

  const INIT := State(DISCONNECTED, map[], [], [], [], [], [], 0)

  datatype Written = NoError | Failed(delivered: bool)

  datatype Event =
    // SendRequest, by call number
    | Start(id: Id, req: Req)
    | Register(r: nat)
    | Seal(r: nat, ok: bool)
    | Write(r: nat, written: Written)
    | TimeOut(r: nat)
    | Receive(r: nat)
    | Unregister(r: nat)
    // handshakes, by link number
    | Dial(token: string, session: string, host: string)
    | Judge(k: nat, accepted: bool, issued: string)
    | Connected(k: nat)
    | GiveUp(k: nat)
    | Install(k: nat)
    | Clear(k: nat)
    // messages, by place in the soup
    | Lose(i: nat)
    | AgentRead(i: nat)
    | Spawn(i: nat)
    | Handle(i: nat, resp: Resp)
    | Respond(i: nat, sealed: bool, delivered: bool)
    | LoopRead(i: nat)
    | Lookup(i: nat)
    | Deliver(i: nat)

  /** A sealed message opens only under the key that sealed it; plain text always passes. */
  predicate Opens(key: Option<Secret>, cipher: Option<Secret>) {
    key.None? || key == cipher
  }

  predicate Enabled(s: State, e: Event) {
    match e
    case Start(_, _) => true
    case Register(r) => r < |s.calls| && s.calls[r].pc.Created?
    case Seal(r, ok) => r < |s.calls| && s.calls[r].pc.Registered? && (s.shared.cipher.None? ==> ok)
    case Write(r, _) => r < |s.calls| && s.calls[r].pc.Sealed?
    case TimeOut(r) => r < |s.calls| && s.calls[r].pc.Pending?
    case Receive(r) => r < |s.calls| && r < |s.chans| && s.calls[r].pc.Pending? && s.chans[r] != []
    case Unregister(r) => r < |s.calls| && s.calls[r].pc.Leaving?
    case Dial(_, _, _) => true
    case Judge(k, _, _) => k < |s.links| && s.links[k].phase.Greeting?
    case Connected(k) =>
      k < |s.links| && s.links[k].client.socket.Waiting?
      && (s.links[k].phase.Admitted? || s.links[k].phase.Live? || s.links[k].phase.Ended?)
    case GiveUp(k) => k < |s.links| && !s.links[k].client.socket.Shut?
    case Install(k) => k < |s.links| && s.links[k].phase.Admitted?
    case Clear(k) =>
      k < |s.links| && s.links[k].phase.Live? && forall j :: 0 <= j < |s.soup| ==> !s.soup[j].AtLoopOf(k)
    case Lose(i) => i < |s.soup| && (s.soup[i].ToAgent? || s.soup[i].ToOperator?)
    case AgentRead(i) =>
      i < |s.soup| && s.soup[i].ToAgent? && s.soup[i].link < |s.links|
      && s.links[s.soup[i].link].client.socket.Open?
      && forall j :: 0 <= j < |s.soup| ==> !(s.soup[j].AtAgent? && s.soup[j].link == s.soup[i].link)
    // the semaphore is a channel: a send waits while it is full, a receive while it is empty
    case Spawn(i) =>
      i < |s.soup| && s.soup[i].AtAgent? && s.soup[i].link < |s.links| && s.links[s.soup[i].link].slots < WORKER_SLOTS
    case Handle(i, _) => i < |s.soup| && s.soup[i].Running?
    case Respond(i, _, _) =>
      i < |s.soup| && s.soup[i].Answered? && s.soup[i].link < |s.links| && s.links[s.soup[i].link].slots > 0
    case LoopRead(i) =>
      i < |s.soup| && s.soup[i].ToOperator? && s.soup[i].link < |s.links|
      && s.links[s.soup[i].link].phase.Live?
      && forall j :: 0 <= j < |s.soup| ==> !s.soup[j].AtLoopOf(s.soup[i].link)
    case Lookup(i) => i < |s.soup| && s.soup[i].AtLoop?
    // the send `ch <- env` proceeds only when the one-slot channel is empty
    case Deliver(i) =>
      i < |s.soup| && s.soup[i].Sending? && s.soup[i].chan < |s.chans| && s.chans[s.soup[i].chan] == []
  }

  function SetPc(s: State, r: nat, pc: Pc): State
    requires r < |s.calls|
  {
    s.(calls := s.calls[r := s.calls[r].(pc := pc)])
  }

  function SetItem(s: State, i: nat, it: Item): State
    requires i < |s.soup|
  {
    s.(soup := s.soup[i := it])
  }

  function SetLink(s: State, k: nat, l: Link): State
    requires k < |s.links|
  {
    s.(links := s.links[k := l])
  }

  function ApplyWrite(s: State, r: nat, written: Written): State
    requires r < |s.calls|
  {
    var c := s.calls[r];
    if s.shared.conn.None? then SetPc(s, r, Leaving(None))
    else
      var arrives := written.NoError? || written.delivered;
      var pc := if written.NoError? then Pending else Leaving(None);
      s.(calls := s.calls[r := c.(pc := pc, sent := arrives)],
         soup := if arrives then s.soup + [ToAgent(r, s.shared.conn.value, c.key, c.id, c.req, s.epoch)] else s.soup)
  }

  function Apply(s: State, e: Event): State
    requires Enabled(s, e)
  {
    match e
    case Start(id, req) =>
      s.(calls := s.calls + [Call(id, req, Created, None, None, 0, false)], chans := s.chans + [[]])
    case Register(r) =>
      SetPc(s, r, Registered).(pending := s.pending[s.calls[r].id := r])
    case Seal(r, ok) =>
      if !ok then SetPc(s, r, Leaving(None))
      else
        var key, conn := s.shared.cipher, s.shared.conn;
        var sealed := s.calls[r].(pc := Sealed, key := key, sealedFor := conn, sealedAt := s.epoch);
        s.(calls := s.calls[r := sealed])
    case Write(r, written) => ApplyWrite(s, r, written)
    case TimeOut(r) => SetPc(s, r, Leaving(None))
    case Receive(r) => SetPc(s, r, Leaving(Some(s.chans[r][0]))).(chans := s.chans[r := s.chans[r][1..]])
    case Unregister(r) => SetPc(s, r, Returned(s.calls[r].pc.out)).(pending := s.pending - {s.calls[r].id})
    case Dial(token, session, host) =>
      var client := Client(token, session, Waiting, None);
      s.(links := s.links + [Link(client.Greeting(host), Greeting, "", client, 0)])
    case Judge(k, accepted, issued) =>
      var l := s.links[k];
      if accepted then SetLink(s, k, l.(phase := Admitted, issued := issued))
      else SetLink(s, k, l.(phase := Refused, client := l.client.(socket := Shut)))
    case Connected(k) =>
      SetLink(s, k, s.links[k].(client := s.links[k].client.Accepted(s.links[k].issued)))
    case GiveUp(k) => SetLink(s, k, s.links[k].(client := s.links[k].client.(socket := Shut)))
    case Install(k) =>
      var l := s.links[k];
      var secret := OperatorSecret(l.hello);
      if secret == "" then SetLink(s, k, l.(phase := Ended))
      else
        SetLink(s, k, l.(phase := Live))
        .(shared := Shared(Some(k), Some(secret), Some(l.hello.host)), epoch := s.epoch + 1)
    case Clear(k) =>
      SetLink(s, k, s.links[k].(phase := Ended)).(shared := DISCONNECTED, epoch := s.epoch + 1)
    case Lose(i) => SetItem(s, i, Gone)
    case AgentRead(i) =>
      var it := s.soup[i];
      var opens := Opens(it.key, s.links[it.link].client.cipher);
      SetItem(s, i, if opens then AtAgent(it.caller, it.link, it.id, it.req) else Gone)
    case Spawn(i) =>
      var it := s.soup[i];
      var l := s.links[it.link];
      SetLink(SetItem(s, i, Running(it.caller, it.link, it.id, it.req)), it.link, l.(slots := l.slots + 1))
    case Handle(i, resp) =>
      var it := s.soup[i];
      SetItem(s, i, Answered(it.caller, it.link, it.id, resp)).(ran := s.ran + [Ran(it.caller, it.id, it.req, resp)])
    case Respond(i, sealed, delivered) =>
      var it := s.soup[i];
      var l := s.links[it.link];
      // a response whose encryption fails goes out as it is
      var sent := ToOperator(it.caller, it.link, if sealed then l.client.cipher else None, it.id, it.resp);
      SetLink(SetItem(s, i, if l.client.socket.Open? && delivered then sent else Gone),
              it.link, l.(slots := l.slots - 1))
    case LoopRead(i) =>
      var it := s.soup[i];
      var opens := Opens(it.key, s.shared.cipher);
      SetItem(s, i, if opens then AtLoop(it.caller, it.link, it.id, it.resp) else Gone)
    case Lookup(i) =>
      var it := s.soup[i];
      var found := it.id in s.pending;
      SetItem(s, i, if found then Sending(it.caller, it.link, s.pending[it.id], it.id, it.resp) else Gone)
    case Deliver(i) =>
      var it := s.soup[i];
      SetItem(s, i, Gone).(chans := s.chans[it.chan := s.chans[it.chan] + [it.resp]])
  }

  // ---------------------------------------------------------------- runs

  /** `es` is a run of the system from `s` to `t`. */
  ghost predicate Runs(s: State, es: seq<Event>, t: State)
    decreases |es|
  {
    if es == [] then t == s else Enabled(s, es[0]) && Runs(Apply(s, es[0]), es[1..], t)
  }

  /** No two calls of the run are made under one id. */
  ghost predicate DistinctIds(es: seq<Event>) {
    forall a, b :: 0 <= a < b < |es| && es[a].Start? && es[b].Start? ==> es[a].id != es[b].id
  }

  lemma {:induction false} RunExtends(s: State, es: seq<Event>, t: State, e: Event)
    requires Runs(s, es, t) && Enabled(t, e)
    ensures Runs(s, es + [e], Apply(t, e))
    decreases |es|
  {
    if es == [] {
      assert [e][1..] == [];
    } else {
      assert (es + [e])[1..] == es[1..] + [e];
      RunExtends(Apply(s, es[0]), es[1..], t, e);
    }
  }
}
