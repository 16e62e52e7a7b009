/**
 The two objects whose fields the transport mutates. Each method is one critical
 section of the source, and each is one step of the transition system; the
 operator's object carries the run it is part of, so that its methods can promise
 what only holds because of all the other steps.
 */
module Endpoints {
  import opened Wrappers
  import L = Links
  import R = Requests
  import T = Transport
  import V = Traces

  class Server {
    var pending: map<T.Id, nat>
    var conn: Option<nat>
    var cipher: Option<T.Secret>
    var agentInfo: Option<string>
    /** The run so far, and the state of the whole system after it. */
    ghost var trace: seq<T.Event>
    ghost var state: T.State

    /** The fields are those of the state the run has reached. */
    ghost predicate Valid()
      reads this
    {
      && T.Runs(T.INIT, trace, state)
      && state.pending == pending && state.shared == T.Shared(conn, cipher, agentInfo)
    }

    constructor ()
      ensures Valid() && trace == [] && state == T.INIT
    {
      pending, conn, cipher, agentInfo, trace, state := map[], None, None, None, [], T.INIT;
    }

    /** A step of somebody else, or one that touches none of the fields. */
    ghost method Advance(e: T.Event)
      requires Valid() && T.Enabled(state, e)
      requires T.Apply(state, e).pending == pending && T.Apply(state, e).shared == state.shared
      modifies `trace, `state
      ensures Valid() && trace == old(trace) + [e] && state == T.Apply(old(state), e)
    {
      T.RunExtends(T.INIT, trace, state, e);
      trace, state := trace + [e], T.Apply(state, e);
    }

    /** SendRequest stores its channel before anything is sent; with fresh ids it displaces no other call's. */
    method Register(id: T.Id, channel: nat)
      requires Valid() && T.Enabled(state, T.Register(channel)) && state.calls[channel].id == id
      modifies this
      ensures Valid() && trace == old(trace) + [T.Register(channel)]
      ensures state == T.Apply(old(state), T.Register(channel))
      ensures T.DistinctIds(old(trace)) ==> id !in old(pending)
    {
      ghost var e := T.Register(channel);
      if T.DistinctIds(trace) {
        R.Unregistered(trace, state, channel);
      }
      T.RunExtends(T.INIT, trace, state, e);
      pending := pending[id := channel];
      trace, state := trace + [e], T.Apply(state, e);
    }

    /** SendRequest's deferred removal, on every way out; with fresh ids it removes the call's own channel. */
    method Unregister(id: T.Id, ghost r: nat)
      requires Valid() && T.Enabled(state, T.Unregister(r)) && state.calls[r].id == id
      modifies this
      ensures Valid() && trace == old(trace) + [T.Unregister(r)]
      ensures state == T.Apply(old(state), T.Unregister(r))
      ensures T.DistinctIds(old(trace)) ==> id in old(pending) && old(pending)[id] == r
    {
      ghost var e := T.Unregister(r);
      if T.DistinctIds(trace) {
        R.OwnChannel(trace, state, r);
      }
      T.RunExtends(T.INIT, trace, state, e);
      pending := pending - {id};
      trace, state := trace + [e], T.Apply(state, e);
    }

    /**
     The connection check of SendRequest; the write itself is the network's. What
     goes out was sealed for the connection it goes to, unless the connection
     changed after the sealing.
     */
    method Target(ghost r: nat, ghost written: T.Written) returns (to: Option<nat>)
      requires Valid() && T.Enabled(state, T.Write(r, written))
      modifies `trace, `state
      ensures Valid() && trace == old(trace) + [T.Write(r, written)]
      ensures state == T.Apply(old(state), T.Write(r, written))
      ensures to.None? ==> state.calls[r].pc == T.Leaving(None) && state.soup == old(state).soup
      ensures to.Some? ==>
        && to.value < |state.links| && state.links[to.value].phase.Live?
        && (old(state).calls[r].sealedAt == old(state).epoch ==>
             old(state).calls[r].key == Some(T.OperatorSecret(state.links[to.value].hello)))
      ensures to.Some? && written.NoError? ==>
        var c := old(state).calls[r];
        state.soup == old(state).soup + [T.ToAgent(r, to.value, c.key, c.id, c.req, old(state).epoch)]
    {
      L.SealedForCurrent(trace, state, r);
      to := conn;
      Advance(T.Write(r, written));
    }

    /**
     The read loop's lookup for a response. With fresh ids a channel that is found
     belongs to the call the response answers, which has not been answered, and
     has room.
     */
    method Channel(id: T.Id, ghost i: nat) returns (channel: Option<nat>)
      requires Valid() && T.Enabled(state, T.Lookup(i)) && state.soup[i].id == id
      modifies `trace, `state
      ensures Valid() && trace == old(trace) + [T.Lookup(i)] && state == T.Apply(old(state), T.Lookup(i))
      ensures channel.None? ==> state.soup[i].Gone?
      ensures channel.Some? ==> state.soup[i].Sending? && state.soup[i].chan == channel.value
      ensures T.DistinctIds(old(trace)) && channel.Some? ==>
        && channel.value == state.soup[i].caller && channel.value < |state.calls| == |state.chans|
        && state.calls[channel.value].id == id && state.chans[channel.value] == []
        && !R.HasAnswer(state.calls[channel.value].pc)
    {
      if T.DistinctIds(trace) {
        R.LookupFindsCaller(trace, state, i);
      }
      channel := if id in pending then Some(pending[id]) else None;
      Advance(T.Lookup(i));
    }

    /** handleWebSocket after an accepted handshake; the agent, if it heard of it, has the same key. */
    method Install(k: nat, hello: T.Handshake) returns (ok: bool)
      requires Valid() && T.Enabled(state, T.Install(k)) && state.links[k].hello == hello
      modifies this
      ensures Valid() && trace == old(trace) + [T.Install(k)] && state == T.Apply(old(state), T.Install(k))
      ensures ok <==> state.links[k].phase.Live?
      ensures ok ==> conn == Some(k) && (state.links[k].client.socket.Open? ==> state.links[k].client.cipher == cipher)
      ensures exists issued :: T.Judge(k, true, issued) in trace
      ensures !ok ==> conn == old(conn) && cipher == old(cipher) && agentInfo == old(agentInfo)
    {
      ghost var e := T.Install(k);
      L.KeyAgreement(trace, state, k);
      V.LetInRun(T.INIT, trace, state, k);
      T.RunExtends(T.INIT, trace, state, e);
      trace, state := trace + [e], T.Apply(state, e);
      var authSecret := hello.token;
      if hello.session != "" {
        authSecret := hello.session;
      }
      ok := authSecret != "";
      if ok {
        conn, cipher, agentInfo := Some(k), Some(authSecret), Some(hello.host);
      }
    }

    /** handleWebSocket after its read loop; without overlap it wipes its own connection's fields. */
    method Clear(ghost k: nat)
      requires Valid() && T.Enabled(state, T.Clear(k))
      modifies this
      ensures Valid() && trace == old(trace) + [T.Clear(k)] && state == T.Apply(old(state), T.Clear(k))
      ensures conn == None && cipher == None && agentInfo == None
      ensures L.Solo(T.INIT, old(trace)) ==> old(conn) == Some(k)
    {
      ghost var e := T.Clear(k);
      L.ConnectedWhileLive(trace, state);
      T.RunExtends(T.INIT, trace, state, e);
      conn, cipher, agentInfo := None, None, None;
      trace, state := trace + [e], T.Apply(state, e);
    }

    /** IsConnected and GetConnectionInfo never contradict each other, and what they report is a live handler's. */
    method Status() returns (connected: bool, info: Option<string>)
      requires Valid()
      ensures connected <==> info.Some?
      ensures connected ==> exists k: nat ::
        k < |state.links| && state.links[k].phase.Live? && info == Some(state.links[k].hello.host)
      ensures L.LastOut(T.INIT, trace) ==> (connected <==> L.SomeLive(state))
    {
      L.Coherent(trace, state);
      L.StatusTruthful(trace, state);
      connected, info := conn.Some?, agentInfo;
    }
  }

  class Client {
    const token: string
    var sessionToken: string
    var conn: T.Socket
    var cipher: Option<T.Secret>

    function View(): T.Client
      reads this
    {
      T.Client(token, sessionToken, conn, cipher)
    }

    constructor (token: string, sessionToken: string)
      ensures View() == T.Client(token, sessionToken, T.Waiting, None)
    {
      this.token, this.sessionToken, conn, cipher := token, sessionToken, T.Waiting, None;
    }

    /** Connect, once the operator has accepted: derive the key, then keep the issued token. */
    method Accept(issued: string)
      requires conn == T.Waiting && cipher == None
      modifies this
      ensures View() == old(View()).Accepted(issued)
      ensures var secret := if old(sessionToken) != "" then old(sessionToken) else token;
        if secret == "" then conn == T.Shut && sessionToken == old(sessionToken)
        else
          && conn == T.Open && cipher == Some(secret)
          && sessionToken == if issued != "" then issued else old(sessionToken)
    {
      var authSecret := token;
      if sessionToken != "" {
        authSecret := sessionToken;
      }
      if authSecret == "" {
        conn := T.Shut;
        return;
      }
      conn, cipher := T.Open, Some(authSecret);
      if issued != "" {
        sessionToken := issued;
      }
    }
  }
}
