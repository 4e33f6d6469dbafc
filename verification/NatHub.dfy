/** The two hub actors as the code runs them, after nat/bridge_hub.go and
    nat/client_hub.go.  Sending on a closed channel and closing one twice are panics
    in Go; here they are preconditions, so a hub that verifies does neither. */
module NatHub {
  import opened Bytes
  import opened NatTypes

  /** What can happen around a hub: the three cases of its select, and a pump taking a
      message from its channel in between.  Bridges and clients are numbered. */
  datatype Event<M> =
    | Registered(id: nat)
    | Unregistered(id: nat)
    | Broadcast(msg: M)
    | Drained(id: nat)

  type Channels<T> = map<nat, Chan<T>>

  /** How a hub treats a message: whom it is for, and what it does to that channel. */
  datatype Handling<!M, !T> = Handling(to: M -> nat, act: (Chan<T>, M) -> Chan<T>)

  predicate Possible<T, M>(v: Channels<T>, e: Event<M>) {
    match e
    case Registered(id) => id !in v
    case Unregistered(id) => id in v
    case Broadcast(_) => true
    case Drained(id) => id in v && v[id].queue != []
  }

  function After<T, M>(h: Handling<M, T>, v: Channels<T>, e: Event<M>): Channels<T>
    requires Possible(v, e)
  {
    match e
    case Registered(id) => v[id := Chan(true, [])]
    case Unregistered(id) => v[id := v[id].(open := false)]
    case Broadcast(m) => if h.to(m) in v then v[h.to(m) := h.act(v[h.to(m)], m)] else v
    case Drained(id) => v[id := v[id].(queue := v[id].queue[1..])]
  }

  predicate AllPossible<T, M>(h: Handling<M, T>, v: Channels<T>, es: seq<Event<M>>)
    decreases |es|
  {
    es != [] ==> Possible(v, es[0]) && AllPossible(h, After(h, v, es[0]), es[1..])
  }

  function AfterAll<T, M>(h: Handling<M, T>, v: Channels<T>, es: seq<Event<M>>): Channels<T>
    requires AllPossible(h, v, es)
    decreases |es|
  {
    if es == [] then v else AfterAll(h, After(h, v, es[0]), es[1..])
  }

  /** Bridges get a message's body, or are closed by it. */
  function ToBridges(): Handling<Message, Bytes> {
    Handling((m: Message) => m.id, (c: Chan<Bytes>, m: Message) => Handle(c, m))
  }

  /** A message with the client it goes to. */
  datatype CMessage = CMessage(client: nat, message: Message)

  function ToClients(): Handling<CMessage, Message> {
    Handling((m: CMessage) => m.client, (c: Chan<Message>, m: CMessage) => Offer(c, m.message, SEND_CHAN_LEN))
  }

  /** It never opens a channel, adds to a closed one, or overfills one. */
  ghost predicate Tame<T(!new), M(!new)>(h: Handling<M, T>, cap: nat) {
    forall c: Chan<T>, m: M ::
      && (|c.queue| <= cap ==> |h.act(c, m).queue| <= cap)
      && (!c.open ==> !h.act(c, m).open && |h.act(c, m).queue| <= |c.queue|)
  }

  lemma {:induction false} HubsAreTame()
    ensures Tame(ToBridges(), BRIDGE_CHAN_LEN) && Tame(ToClients(), SEND_CHAN_LEN)
  {
  }

  /** Over any run a channel that is closed stays closed and only drains, and none
      ever holds more than its capacity. */
  lemma {:induction false} ChannelsOverRuns<T(!new), M(!new)>(h: Handling<M, T>, cap: nat, v: Channels<T>, es: seq<Event<M>>, id: nat)
    requires Tame(h, cap) && AllPossible(h, v, es) && id in v && |v[id].queue| <= cap
    ensures id in AfterAll(h, v, es) && |AfterAll(h, v, es)[id].queue| <= cap
    ensures !v[id].open ==> !AfterAll(h, v, es)[id].open && |AfterAll(h, v, es)[id].queue| <= |v[id].queue|
    decreases |es|
  {
    if es != [] {
      ChannelsOverRuns(h, cap, After(h, v, es[0]), es[1..], id);
    }
  }

  lemma {:induction false} HubBounds<T(!new), M(!new)>(h: Handling<M, T>, cap: nat, v: Channels<T>, es: seq<Event<M>>)
    requires Tame(h, cap) && AllPossible(h, v, es) && forall id :: id in v ==> |v[id].queue| <= cap
    ensures forall id :: id in AfterAll(h, v, es) ==> |AfterAll(h, v, es)[id].queue| <= cap
    decreases |es|
  {
    if es != [] {
      HubBounds(h, cap, After(h, v, es[0]), es[1..]);
    }
  }

  /** So it is for bridges, those that are registered on the way included... */
  lemma {:induction false} BridgesOverRuns(v: Channels<Bytes>, es: seq<Event<Message>>)
    requires AllPossible(ToBridges(), v, es) && forall id :: id in v ==> |v[id].queue| <= BRIDGE_CHAN_LEN
    ensures var end := AfterAll(ToBridges(), v, es);
            && (forall id :: id in end ==> |end[id].queue| <= BRIDGE_CHAN_LEN)
            && (forall id :: id in v && !v[id].open ==> id in end && !end[id].open && |end[id].queue| <= |v[id].queue|)
  {
    hide Handle;
    HubsAreTame();
    HubBounds(ToBridges(), BRIDGE_CHAN_LEN, v, es);
    forall id | id in v && !v[id].open
      ensures id in AfterAll(ToBridges(), v, es) && !AfterAll(ToBridges(), v, es)[id].open
              && |AfterAll(ToBridges(), v, es)[id].queue| <= |v[id].queue|
    {
      ChannelsOverRuns(ToBridges(), BRIDGE_CHAN_LEN, v, es, id);
    }
  }

  /** ...and for clients. */
  lemma {:induction false} ClientsOverRuns(v: Channels<Message>, es: seq<Event<CMessage>>)
    requires AllPossible(ToClients(), v, es) && forall id :: id in v ==> |v[id].queue| <= SEND_CHAN_LEN
    ensures var end := AfterAll(ToClients(), v, es);
            && (forall id :: id in end ==> |end[id].queue| <= SEND_CHAN_LEN)
            && (forall id :: id in v && !v[id].open ==> id in end && !end[id].open && |end[id].queue| <= |v[id].queue|)
  {
    hide Offer;
    HubsAreTame();
    HubBounds(ToClients(), SEND_CHAN_LEN, v, es);
    forall id | id in v && !v[id].open
      ensures id in AfterAll(ToClients(), v, es) && !AfterAll(ToClients(), v, es)[id].open
              && |AfterAll(ToClients(), v, es)[id].queue| <= |v[id].queue|
    {
      ChannelsOverRuns(ToClients(), SEND_CHAN_LEN, v, es, id);
    }
  }

  class Bridge {
    const reqID: nat
    var send: Chan<Bytes>

    constructor (id: nat)
      ensures reqID == id && send == Chan(true, [])
    {
      reqID, send := id, Chan(true, []);
    }

    method CloseSend()
      requires send.open
      modifies this
      ensures send == old(send).(open := false)
    {
      send := send.(open := false);
    }

    /** A send that would wait does nothing instead. */
    method TrySend(body: Bytes) returns (ok: bool)
      requires send.open
      modifies this
      ensures ok == (|old(send.queue)| < BRIDGE_CHAN_LEN)
      ensures send == if ok then old(send).(queue := old(send.queue) + [body]) else old(send)
    {
      ok := |send.queue| < BRIDGE_CHAN_LEN;
      if ok {
        send := send.(queue := send.queue + [body]);
      }
    }
  }

  class Client {
    var send: Chan<Message>

    constructor ()
      ensures send == Chan(true, [])
    {
      send := Chan(true, []);
    }

    method CloseSend()
      requires send.open
      modifies this
      ensures send == old(send).(open := false)
    {
      send := send.(open := false);
    }

    method TrySend(m: Message) returns (ok: bool)
      requires send.open
      modifies this
      ensures ok == (|old(send.queue)| < SEND_CHAN_LEN)
      ensures send == if ok then old(send).(queue := old(send.queue) + [m]) else old(send)
    {
      ok := |send.queue| < SEND_CHAN_LEN;
      if ok {
        send := send.(queue := send.queue + [m]);
      }
    }
  }

  /** The hub of websocket clients; a message names its client directly. */
  class Hub {
    var clients: set<Client>
    /** Every client ever registered, numbered: the references that the goroutines around
        the hub hold. */
    var known: map<nat, Client>

    /** A known client is in the hub's map exactly when its channel is open. */
    ghost predicate Valid()
      reads this, known.Values
    {
      && (forall c :: c in clients ==> c in known.Values)
      && (forall n :: n in known ==> (known[n] in clients <==> known[n].send.open))
      && (forall m, n :: m in known && n in known && m != n ==> known[m] != known[n])
    }

    ghost function View(): map<nat, Chan<Message>>
      reads this, known.Values
    {
      map n | n in known :: known[n].send
    }

    constructor ()
      ensures Valid() && known == map[] && View() == map[]
    {
      clients, known := {}, map[];
    }

    method Register(n: nat) returns (c: Client)
      requires Valid() && n !in known
      modifies this
      ensures Valid() && fresh(c) && known == old(known)[n := c]
      ensures View() == old(View())[n := Chan(true, [])]
    {
      c := new Client();
      ghost var before := known;
      clients := clients + {c};
      known := known[n := c];
      forall x | x in clients
        ensures x in known.Values
      {
        if x == c {
          assert known[n] == x;
        } else {
          var k :| k in before && before[k] == x;
          assert known[k] == x;
        }
      }
    }

    /** Late and repeated unregistrations find nothing to do. */
    method Unregister(n: nat)
      requires Valid() && n in known
      modifies this`clients, known[n]
      ensures Valid() && View() == old(View())[n := old(View())[n].(open := false)]
    {
      var c := known[n];
      if c in clients {
        c.CloseSend();
        clients := clients - {c};
      }
    }

    /** Walks the clients in any order, acts on the one that is meant, waits for nobody. */
    method Deliver(m: CMessage)
      requires Valid()
      modifies this`clients, known.Values
      ensures Valid()
      ensures View() == if m.client in old(View())
                        then old(View())[m.client := Offer(old(View())[m.client], m.message, SEND_CHAN_LEN)] else old(View())
    {
      var todo := clients;
      ghost var view := View();
      while todo != {}
        invariant todo <= clients && Valid() && View() == view && unchanged(known.Values) && unchanged(`clients)
        invariant m.client in known && known[m.client] in clients ==> known[m.client] in todo
        decreases todo
      {
        var c :| c in todo;
        todo := todo - {c};
        if m.client in known && c == known[m.client] {
          SendTo(m.client, m.message);
          return;
        }
      }
    }

    /** The body of the loop for the client that is meant. */
    method SendTo(n: nat, m: Message)
      requires Valid() && n in known && known[n] in clients
      modifies this`clients, known[n]
      ensures Valid() && View() == old(View())[n := Offer(old(View())[n], m, SEND_CHAN_LEN)]
    {
      var c := known[n];
      var ok := c.TrySend(m);
      if !ok {
        c.CloseSend();
        clients := clients - {c};
      }
    }

    /** A client's pump takes a message; the hub plays no part. */
    method Drain(n: nat)
      requires Valid() && n in known && known[n].send.queue != []
      modifies known[n]
      ensures Valid() && View() == old(View())[n := old(View())[n].(queue := old(View())[n].queue[1..])]
    {
      var c := known[n];
      c.send := c.send.(queue := c.send.queue[1..]);
    }

    /** The event loop over any sequence of events: no step waits and none panics. */
    method Run(es: seq<Event<CMessage>>)
      requires Valid() && AllPossible(ToClients(), View(), es)
      modifies this, known.Values
      ensures Valid() && AfterAll(ToClients(), old(View()), es) == View()
    {
      hide Offer;
      var i := 0;
      ghost var end := AfterAll(ToClients(), View(), es);
      assert es[0..] == es;
      while i < |es|
        invariant 0 <= i <= |es| && Valid() && fresh(known.Values - old(known.Values))
        invariant AllPossible(ToClients(), View(), es[i..]) && AfterAll(ToClients(), View(), es[i..]) == end
      {
        ghost var v := View();
        match es[i] {
          case Registered(n) =>
            var c := Register(n);
          case Unregistered(n) =>
            Unregister(n);
          case Broadcast(m) =>
            Deliver(m);
          case Drained(n) =>
            Drain(n);
        }
        assert View() == After(ToClients(), v, es[i]) && es[i..][1..] == es[i + 1..];
        i := i + 1;
      }
    }
  }

  class BridgeHub {
    var bridges: set<Bridge>
    /** Every bridge ever registered, by its ID from a counter: the references that the
        goroutines around the hub hold. */
    var known: map<nat, Bridge>

    /** A known bridge is in the hub's map exactly when its channel is open. */
    ghost predicate Valid()
      reads this, known.Values
    {
      && (forall id :: id in known ==> known[id].reqID == id)
      && (forall b :: b in bridges ==> b.reqID in known && known[b.reqID] == b)
      && (forall id :: id in known ==> (known[id] in bridges <==> known[id].send.open))
    }

    ghost function View(): map<nat, Chan<Bytes>>
      reads this, known.Values
    {
      map id | id in known :: known[id].send
    }

    constructor ()
      ensures Valid() && known == map[] && View() == map[]
    {
      bridges, known := {}, map[];
    }

    method Register(id: nat) returns (b: Bridge)
      requires Valid() && id !in known
      modifies this
      ensures Valid() && fresh(b) && known == old(known)[id := b]
      ensures View() == old(View())[id := Chan(true, [])]
    {
      b := new Bridge(id);
      bridges := bridges + {b};
      known := known[id := b];
    }

    /** Late and repeated unregistrations find nothing to do. */
    method Unregister(b: Bridge)
      requires Valid() && b in known.Values
      modifies this`bridges, b
      ensures Valid() && b.reqID in old(View())
      ensures View() == old(View())[b.reqID := old(View())[b.reqID].(open := false)]
    {
      assert b.reqID in known && known[b.reqID] == b;
      if b in bridges {
        bridges := bridges - {b};
        b.CloseSend();
      }
    }

    /** Walks the bridges in any order, acts on the one the message names, waits for
        nobody. */
    method Deliver(m: Message)
      requires Valid()
      modifies this`bridges, known.Values
      ensures Valid()
      ensures View() == if m.id in old(View()) then old(View())[m.id := Handle(old(View())[m.id], m)] else old(View())
    {
      var todo := bridges;
      ghost var view := View();
      while todo != {}
        invariant todo <= bridges && Valid() && View() == view && unchanged(known.Values)
        invariant m.id in known && known[m.id] in bridges ==> known[m.id] in todo
        decreases todo
      {
        var b :| b in todo;
        todo := todo - {b};
        if b.reqID == m.id {
          Act(b, m);
          return;
        }
      }
    }

    /** The body of the loop for the bridge that is meant. */
    method Act(b: Bridge, m: Message)
      requires Valid() && b in bridges && b.reqID == m.id
      modifies this`bridges, b
      ensures Valid() && m.id in old(View())
      ensures View() == old(View())[m.id := Handle(old(View())[m.id], m)]
    {
      if m.kind == Close {
        b.CloseSend();
        bridges := bridges - {b};
        return;
      }
      var ok := b.TrySend(m.body);
      if !ok {
        b.CloseSend();
        bridges := bridges - {b};
      }
    }

    /** A bridge's pump takes a chunk; the hub plays no part. */
    method Drain(b: Bridge)
      requires Valid() && b in known.Values && b.send.queue != []
      modifies b
      ensures Valid() && b.reqID in old(View())
      ensures View() == old(View())[b.reqID := old(View())[b.reqID].(queue := old(View())[b.reqID].queue[1..])]
    {
      assert b.reqID in known && known[b.reqID] == b;
      b.send := b.send.(queue := b.send.queue[1..]);
    }

    /** The event loop over any sequence of events: no step waits and none panics. */
    method Run(es: seq<Event<Message>>)
      requires Valid() && AllPossible(ToBridges(), View(), es)
      modifies this, known.Values
      ensures Valid() && AfterAll(ToBridges(), old(View()), es) == View()
    {
      hide Handle;
      var i := 0;
      ghost var end := AfterAll(ToBridges(), View(), es);
      assert es[0..] == es;
      while i < |es|
        invariant 0 <= i <= |es| && Valid() && fresh(known.Values - old(known.Values))
        invariant AllPossible(ToBridges(), View(), es[i..]) && AfterAll(ToBridges(), View(), es[i..]) == end
      {
        ghost var v := View();
        match es[i] {
          case Registered(id) =>
            var b := Register(id);
          case Unregistered(id) =>
            Unregister(known[id]);
          case Broadcast(m) =>
            Deliver(m);
          case Drained(id) =>
            Drain(known[id]);
        }
        assert View() == After(ToBridges(), v, es[i]) && es[i..][1..] == es[i + 1..];
        i := i + 1;
      }
    }
  }
}
