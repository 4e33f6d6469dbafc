/** The multiplexer as a protocol: bridges, hubs, pumps and the wire take steps in
    any order, after nat/bridge.go, nat/client.go and proto/websocket.go.

    One `Lane` is one direction.  Bytes enter through `Bridge.Write`, pass the
    client hub into a client's channel, are written to the websocket by its pump,
    read at the far end, handed by the bridge hub to the bridge of the same ID and
    written to its TCP connection.  A pump, a wire or a connection that fails is one
    that takes no further step. */
module NatProtocol {
  import opened Bytes
  import opened NatTypes

  /** One websocket client in one direction: its channel, the message its pump is
      writing, the wire, and the message read at the far end and not yet handled. */
  datatype Conn = Conn(chan: Chan<Message>, out: seq<Message>, wire: seq<Message>, inn: seq<Message>) {
    /** Everything between the hub that accepts and the hub that delivers. */
    function Pipe(): seq<Message> {
      inn + wire + out + chan.queue
    }
  }

  /** The far bridge: its channel, the chunk its pump is writing, what has reached
      the connection, and whether a write failed half way.  `finished` records that
      the channel was closed by the sender's close message. */
  datatype End = End(chan: Chan<Bytes>, held: seq<Bytes>, written: Bytes, dead: bool, finished: bool) {
    function Accepted(): Bytes {
      written + Concat(held) + Concat(chan.queue)
    }
  }

  /** `sent` is the history of what each bridge passed to its client hub, `recv` of
      what the far hub took. */
  datatype Lane = Lane(conns: map<nat, Conn>, ends: map<nat, End>,
                       sent: map<nat, seq<Message>>, recv: map<nat, seq<Message>>)

  function Only(ms: seq<Message>, id: nat): seq<Message> {
    if ms == [] then []
    else (if ms[0].id == id then [ms[0]] else []) + Only(ms[1..], id)
  }

  /** The bytes a history carries. */
  function Bodies(ms: seq<Message>): Bytes {
    if ms == [] then [] else Bodies(ms[..|ms| - 1]) + ms[|ms| - 1].body
  }

  predicate Ended(sent: seq<Message>) {
    sent != [] && sent[|sent| - 1].kind == Close
  }

  lemma {:induction false} OnlyAppend(a: seq<Message>, b: seq<Message>, id: nat)
    ensures Only(a + b, id) == Only(a, id) + Only(b, id)
  {
    if a == [] {
      assert a + b == b;
    } else {
      OnlyAppend(a[1..], b, id);
      assert (a + b)[1..] == a[1..] + b && (a + b)[0] == a[0];
    }
  }

  lemma {:induction false} OnlyOthers(ms: seq<Message>, id: nat)
    requires forall m :: m in ms ==> m.id != id
    ensures Only(ms, id) == []
  {
    if ms != [] {
      OnlyOthers(ms[1..], id);
    }
  }

  lemma {:induction false} BodiesSnoc(ms: seq<Message>, m: Message)
    ensures Bodies(ms + [m]) == Bodies(ms) + m.body
  {
    assert (ms + [m])[..|ms|] == ms;
  }

  lemma {:induction false} BodiesPrefix(a: seq<Message>, b: seq<Message>)
    requires a <= b
    ensures Bodies(a) <= Bodies(b)
    decreases |b|
  {
    if a != b {
      assert a <= b[..|b| - 1];
      BodiesPrefix(a, b[..|b| - 1]);
    }
  }

  // ---- What every step keeps ----

  ghost predicate ConnOk(owner: map<nat, nat>, c: nat, x: Conn) {
    && |x.chan.queue| <= SEND_CHAN_LEN && |x.out| <= 1 && |x.inn| <= 1
    && forall m :: m in x.Pipe() ==> m.id in owner && owner[m.id] == c
  }

  /** What the far hub took, then what is under way, is a prefix of what was sent;
      all of it as long as the client hub still knows the client. */
  ghost predicate FlowOk(x: Conn, id: nat, sent: seq<Message>, recv: seq<Message>) {
    && recv + Only(x.Pipe(), id) <= sent
    && (x.chan.open ==> recv + Only(x.Pipe(), id) == sent)
  }

  /** What a bridge accepted is a prefix of what the hub took: all of it while the
      bridge is registered, and all that was ever sent once a close message has
      closed it. */
  ghost predicate EndOk(e: End, sent: seq<Message>, recv: seq<Message>) {
    && |e.chan.queue| <= BRIDGE_CHAN_LEN && |e.held| <= 1
    && e.Accepted() <= Bodies(recv)
    && (e.chan.open ==> e.Accepted() == Bodies(recv))
    && (e.finished ==> !e.chan.open && Ended(sent) && e.Accepted() == Bodies(sent))
  }

  /** Program order of one sender: control messages carry no bytes and a close is
      its last message. */
  ghost predicate SentOk(id: nat, sent: seq<Message>) {
    && (forall i :: 0 <= i < |sent| ==> sent[i].id == id)
    && (forall i :: 0 <= i < |sent| ==> sent[i].kind != Data ==> sent[i].body == [])
    && (forall i :: 0 <= i < |sent| - 1 ==> sent[i].kind != Close)
  }

  ghost predicate IdOk(l: Lane, owner: map<nat, nat>, id: nat)
    requires id in owner && id in l.sent && id in l.recv
  {
    && SentOk(id, l.sent[id])
    && (if owner[id] in l.conns then FlowOk(l.conns[owner[id]], id, l.sent[id], l.recv[id])
        else l.sent[id] == l.recv[id] == [])
    && (if id in l.ends then EndOk(l.ends[id], l.sent[id], l.recv[id]) else l.recv[id] == [])
  }

  ghost predicate LaneInv(l: Lane, owner: map<nat, nat>) {
    && l.sent.Keys == owner.Keys && l.recv.Keys == owner.Keys && l.ends.Keys <= owner.Keys
    && (forall c :: c in l.conns ==> ConnOk(owner, c, l.conns[c]))
    && (forall id :: id in owner ==> IdOk(l, owner, id))
  }

  function Hist(h: map<nat, seq<Message>>, id: nat): seq<Message> {
    if id in h then h[id] else []
  }

  // ---- The steps of one lane ----

  /** A hub registers a new client, with an empty channel. */
  function AddConn(l: Lane, c: nat): Lane {
    l.(conns := l.conns[c := Conn(Chan(true, []), [], [], [])])
  }

  /** A hub unregisters a client, if it still has it. */
  function DropConn(l: Lane, c: nat): Lane
    requires c in l.conns
  {
    l.(conns := l.conns[c := l.conns[c].(chan := l.conns[c].chan.(open := false))])
  }

  /** `Bridge.Open`, `Write` and `CloseWrite`: the client hub takes the message. */
  function SendMsg(l: Lane, c: nat, m: Message): Lane
    requires c in l.conns
  {
    var x := l.conns[c];
    l.(conns := l.conns[c := x.(chan := Offer(x.chan, m, SEND_CHAN_LEN))],
       sent := l.sent[m.id := Hist(l.sent, m.id) + [m]])
  }

  /** `writePump` takes a message from the channel. */
  function Take(x: Conn): Conn
    requires x.chan.queue != []
  {
    x.(chan := x.chan.(queue := x.chan.queue[1..]), out := x.out + [x.chan.queue[0]])
  }

  /** `writePump` puts it on the wire. */
  function Emit(x: Conn): Conn
    requires x.out != []
  {
    x.(out := x.out[1..], wire := x.wire + [x.out[0]])
  }

  /** A read pump takes a message off the wire. */
  function Fetch(x: Conn): Conn
    requires x.wire != []
  {
    x.(wire := x.wire[1..], inn := x.inn + [x.wire[0]])
  }

  function NewEnd(): End {
    End(Chan(true, []), [], [], false, false)
  }

  /** The bridge hub registers a bridge. */
  function AddEnd(l: Lane, id: nat): Lane {
    l.(ends := l.ends[id := NewEnd()])
  }

  /** The bridge hub unregisters a bridge, if it still has it. */
  function DropEnd(l: Lane, id: nat): Lane
    requires id in l.ends
  {
    l.(ends := l.ends[id := l.ends[id].(chan := l.ends[id].chan.(open := false))])
  }

  function HandleEnd(e: End, m: Message): End {
    e.(chan := Handle(e.chan, m), finished := e.finished || (e.chan.open && m.kind == Close))
  }

  /** The far side handles the message it read: the bridge hub delivers it to the
      bridge of that ID, if there is one. */
  function Deliver(l: Lane, c: nat): Lane
    requires c in l.conns && l.conns[c].inn != []
  {
    var x := l.conns[c];
    var m := x.inn[0];
    l.(conns := l.conns[c := x.(inn := x.inn[1..])],
       recv := l.recv[m.id := Hist(l.recv, m.id) + [m]],
       ends := if m.id in l.ends then l.ends[m.id := HandleEnd(l.ends[m.id], m)] else l.ends)
  }

  /** The near side of a new stream: a "create" registers a bridge instead. */
  function Open(l: Lane, c: nat): Lane
    requires c in l.conns && l.conns[c].inn != []
  {
    var x := l.conns[c];
    var m := x.inn[0];
    l.(conns := l.conns[c := x.(inn := x.inn[1..])],
       recv := l.recv[m.id := Hist(l.recv, m.id) + [m]],
       ends := l.ends[m.id := NewEnd()])
  }

  /** `WritePump` takes a chunk from its channel, closed or not. */
  function Pop(e: End): End
    requires e.chan.queue != []
  {
    e.(chan := e.chan.(queue := e.chan.queue[1..]), held := e.held + [e.chan.queue[0]])
  }

  /** `WritePump` writes `k` bytes of it; fewer than all end the pump. */
  function Write(e: End, k: nat): End
    requires e.held != [] && k <= |e.held[0]|
  {
    if k == |e.held[0]| then e.(written := e.written + e.held[0], held := e.held[1..])
    else e.(written := e.written + e.held[0][..k], held := [e.held[0][k..]] + e.held[1..], dead := true)
  }

  /** Sending queues the message while the client's channel is open and holds fewer than
      200, closes a full one, and adds nothing to a closed one; it touches no other client
      and no bridge, and is remembered either way. */
  lemma {:induction false} SendMeans(l: Lane, c: nat, m: Message)
    requires c in l.conns
    ensures var x, l' := l.conns[c], SendMsg(l, c, m);
            && l'.conns.Keys == l.conns.Keys && (forall d :: d in l.conns && d != c ==> l'.conns[d] == l.conns[d])
            && l'.ends == l.ends && l'.recv == l.recv && Hist(l'.sent, m.id) == Hist(l.sent, m.id) + [m]
            && l'.conns[c] == x.(chan := if x.chan.open && |x.chan.queue| < 200 then Chan(true, x.chan.queue + [m])
                                         else Chan(false, x.chan.queue))
  {
  }

  // ---- Each keeps the lane's invariant ----

  lemma {:induction false} AddConnKeeps(l: Lane, owner: map<nat, nat>, c: nat)
    requires LaneInv(l, owner) && c !in l.conns
    ensures LaneInv(AddConn(l, c), owner)
  {
  }

  /** Moving messages along the pipe, or closing its entrance, keeps everything. */
  lemma {:induction false} MoveKeeps(l: Lane, owner: map<nat, nat>, c: nat, x: Conn)
    requires LaneInv(l, owner) && c in l.conns
    requires x.Pipe() == l.conns[c].Pipe() && (x.chan.open ==> l.conns[c].chan.open)
    requires |x.chan.queue| <= SEND_CHAN_LEN && |x.out| <= 1 && |x.inn| <= 1
    ensures LaneInv(l.(conns := l.conns[c := x]), owner)
  {
    var l' := l.(conns := l.conns[c := x]);
    forall id | id in owner
      ensures IdOk(l', owner, id)
    {
      assert IdOk(l, owner, id);
    }
    assert ConnOk(owner, c, l.conns[c]);
  }

  lemma {:induction false} PumpsKeepPipe(x: Conn)
    ensures x.chan.queue != [] && x.out == [] ==> Take(x).Pipe() == x.Pipe()
    ensures x.out != [] ==> Emit(x).Pipe() == x.Pipe()
    ensures x.wire != [] ==> Fetch(x).Pipe() == x.Pipe()
  {
  }

  lemma {:induction false} SendFlow(x: Conn, id: nat, sent: seq<Message>, recv: seq<Message>, m: Message)
    requires FlowOk(x, id, sent, recv)
    ensures var x' := x.(chan := Offer(x.chan, m, SEND_CHAN_LEN));
            FlowOk(x', id, if m.id == id then sent + [m] else sent, recv)
  {
    var x' := x.(chan := Offer(x.chan, m, SEND_CHAN_LEN));
    if x'.chan.open {
      assert x'.Pipe() == x.Pipe() + [m];
      OnlyAppend(x.Pipe(), [m], id);
      assert Only([m], id) == if m.id == id then [m] else [];
    } else {
      assert x'.Pipe() == x.Pipe();
    }
  }

  lemma {:induction false} SentSnoc(id: nat, sent: seq<Message>, m: Message)
    requires SentOk(id, sent) && !Ended(sent) && m.id == id && (m.kind != Data ==> m.body == [])
    ensures SentOk(id, sent + [m])
  {
  }

  lemma {:induction false} SendKeepsId(l: Lane, owner: map<nat, nat>, c: nat, m: Message, id: nat)
    requires LaneInv(l, owner) && c in l.conns && m.id in owner && owner[m.id] == c && id in owner
    requires !Ended(l.sent[m.id]) && (m.kind != Data ==> m.body == [])
    ensures IdOk(SendMsg(l, c, m), owner, id)
  {
    assert IdOk(l, owner, id);
    if id == m.id {
      SentSnoc(id, l.sent[id], m);
    }
    if owner[id] == c {
      hide FlowOk, SentOk;
      SendFlow(l.conns[c], id, l.sent[id], l.recv[id], m);
    }
  }

  lemma {:induction false} SendKeeps(l: Lane, owner: map<nat, nat>, c: nat, m: Message)
    requires LaneInv(l, owner) && c in l.conns && m.id in owner && owner[m.id] == c
    requires !Ended(l.sent[m.id]) && (m.kind != Data ==> m.body == [])
    ensures LaneInv(SendMsg(l, c, m), owner)
  {
    hide IdOk;
    var l' := SendMsg(l, c, m);
    forall id | id in owner
      ensures IdOk(l', owner, id)
    {
      SendKeepsId(l, owner, c, m, id);
    }
    assert ConnOk(owner, c, l.conns[c]);
    forall n | n in l'.conns[c].Pipe()
      ensures n.id in owner && owner[n.id] == c
    {
      assert n in l.conns[c].Pipe() || n == m;
    }
  }

  /** Taking the front message out of the pipe and into the history. */
  lemma {:induction false} TakeFlow(x: Conn, id: nat, sent: seq<Message>, recv: seq<Message>)
    requires FlowOk(x, id, sent, recv) && x.inn != []
    ensures var m := x.inn[0];
            var recv' := if m.id == id then recv + [m] else recv;
            FlowOk(x.(inn := x.inn[1..]), id, sent, recv') && recv' <= sent
  {
    var x' := x.(inn := x.inn[1..]);
    assert x.Pipe() == [x.inn[0]] + x'.Pipe();
    OnlyAppend([x.inn[0]], x'.Pipe(), id);
    assert Only([x.inn[0]], id) == if x.inn[0].id == id then [x.inn[0]] else [];
    var recv' := if x.inn[0].id == id then recv + [x.inn[0]] else recv;
    assert recv + Only(x.Pipe(), id) == recv' + Only(x'.Pipe(), id);
  }

  /** A close message that finds the bridge open finds all bytes accepted. */
  lemma {:induction false} HandleKeeps(e: End, id: nat, sent: seq<Message>, recv: seq<Message>, m: Message)
    requires EndOk(e, sent, recv) && SentOk(id, sent) && recv + [m] <= sent
    ensures EndOk(HandleEnd(e, m), sent, recv + [m])
  {
    BodiesSnoc(recv, m);
    assert sent[|recv|] == m;
    if e.chan.open && m.kind == Close {
      assert |sent| == |recv| + 1;
      assert sent == recv + [m];
    } else if e.chan.open && |e.chan.queue| < BRIDGE_CHAN_LEN {
      ConcatSnoc(e.chan.queue, m.body);
      Assoc(e.written + Concat(e.held), Concat(e.chan.queue), m.body);
    }
  }

  lemma {:induction false} ReceiveConn(l: Lane, owner: map<nat, nat>, c: nat)
    requires LaneInv(l, owner) && c in l.conns && l.conns[c].inn != []
    ensures l.conns[c].inn[0].id in owner && owner[l.conns[c].inn[0].id] == c
    ensures ConnOk(owner, c, l.conns[c].(inn := l.conns[c].inn[1..]))
  {
    var x := l.conns[c];
    assert ConnOk(owner, c, x);
    assert x.Pipe() == [x.inn[0]] + x.(inn := x.inn[1..]).Pipe();
    assert x.inn[0] in x.Pipe();
  }

  lemma {:induction false} DeliverKeepsId(l: Lane, owner: map<nat, nat>, c: nat, id: nat)
    requires LaneInv(l, owner) && c in l.conns && l.conns[c].inn != []
    requires l.conns[c].inn[0].id in l.ends && id in owner
    ensures IdOk(Deliver(l, c), owner, id)
  {
    ReceiveConn(l, owner, c);
    assert IdOk(l, owner, id);
    if owner[id] == c {
      TakeFlow(l.conns[c], id, l.sent[id], l.recv[id]);
      if id == l.conns[c].inn[0].id {
        HandleKeeps(l.ends[id], id, l.sent[id], l.recv[id], l.conns[c].inn[0]);
      }
    }
  }

  lemma {:induction false} DeliverKeeps(l: Lane, owner: map<nat, nat>, c: nat)
    requires LaneInv(l, owner) && c in l.conns && l.conns[c].inn != []
    requires l.conns[c].inn[0].id in l.ends
    ensures LaneInv(Deliver(l, c), owner)
  {
    hide IdOk;
    ReceiveConn(l, owner, c);
    forall id | id in owner
      ensures IdOk(Deliver(l, c), owner, id)
    {
      DeliverKeepsId(l, owner, c, id);
    }
  }

  lemma {:induction false} NewEndOk(sent: seq<Message>, m: Message, id: nat)
    requires SentOk(id, sent) && [m] <= sent && m.kind == Create
    ensures EndOk(NewEnd(), sent, [m])
  {
    assert sent[0] == m;
    BodiesSnoc([], m);
    assert [] + [m] == [m];
  }

  lemma {:induction false} OpenKeepsId(l: Lane, owner: map<nat, nat>, c: nat, id: nat)
    requires LaneInv(l, owner) && c in l.conns && l.conns[c].inn != [] && id in owner
    requires l.conns[c].inn[0].id !in l.ends && l.conns[c].inn[0].kind == Create
    ensures IdOk(Open(l, c), owner, id)
  {
    ReceiveConn(l, owner, c);
    var m := l.conns[c].inn[0];
    assert IdOk(l, owner, id);
    if owner[id] == c {
      TakeFlow(l.conns[c], id, l.sent[id], l.recv[id]);
      if id == m.id {
        NewEndOk(l.sent[id], m, id);
        assert l.recv[id] + [m] == [m];
      }
    }
  }

  lemma {:induction false} OpenKeeps(l: Lane, owner: map<nat, nat>, c: nat)
    requires LaneInv(l, owner) && c in l.conns && l.conns[c].inn != []
    requires l.conns[c].inn[0].id !in l.ends && l.conns[c].inn[0].kind == Create
    ensures LaneInv(Open(l, c), owner)
  {
    hide IdOk;
    ReceiveConn(l, owner, c);
    forall id | id in owner
      ensures IdOk(Open(l, c), owner, id)
    {
      OpenKeepsId(l, owner, c, id);
    }
  }

  /** Draining a channel into its connection accepts nothing and loses nothing. */
  lemma {:induction false} PopKeeps(e: End)
    requires e.chan.queue != [] && e.held == []
    ensures Pop(e).Accepted() == e.Accepted()
  {
    var q := e.chan.queue;
    ConcatAppend([q[0]], q[1..]);
    assert q == [q[0]] + q[1..] && [] + [q[0]] == [q[0]];
    Assoc(e.written, Concat([q[0]]), Concat(q[1..]));
  }

  lemma {:induction false} WriteKeeps(e: End, k: nat)
    requires e.held != [] && k <= |e.held[0]|
    ensures Write(e, k).Accepted() == e.Accepted()
  {
    var h, rest := e.held[0], Concat(e.held[1..]);
    assert h == h[..k] + h[k..];
    Assoc(h[..k], h[k..], rest);
    Assoc(e.written, h[..k], h[k..] + rest);
    Assoc(e.written, h, rest);
  }

  lemma {:induction false} EndKeeps(l: Lane, owner: map<nat, nat>, id: nat, e: End)
    requires LaneInv(l, owner) && id in l.ends
    requires e.Accepted() == l.ends[id].Accepted() && e.finished == l.ends[id].finished
    requires e.chan.open ==> l.ends[id].chan.open
    requires |e.chan.queue| <= BRIDGE_CHAN_LEN && |e.held| <= 1
    ensures LaneInv(l.(ends := l.ends[id := e]), owner)
  {
    var l' := l.(ends := l.ends[id := e]);
    forall i | i in owner
      ensures IdOk(l', owner, i)
    {
      assert IdOk(l, owner, i);
    }
  }
}
