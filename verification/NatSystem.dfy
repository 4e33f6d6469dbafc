/** Both directions of the multiplexer together, and their runs. */
module NatSystem {
  import opened NatTypes
  import opened NatProtocol

  /** Up: from the server's bridges to the local ones.  Down: the way back. */
  datatype Dir = Up | Down

  function Other(d: Dir): Dir {
    if d == Up then Down else Up
  }

  /** `owner` maps each bridge ID, taken from a counter and so unique, to the
      websocket client that carries it. */
  datatype System = System(owner: map<nat, nat>, up: Lane, down: Lane) {
    function Of(d: Dir): Lane {
      if d == Up then up else down
    }

    function With(d: Dir, l: Lane): System {
      if d == Up then this.(up := l) else this.(down := l)
    }
  }

  const EMPTY_LANE := Lane(map[], map[], map[], map[])
  const INIT := System(map[], EMPTY_LANE, EMPTY_LANE)

  datatype Step =
    | Register(d: Dir, c: nat)
    | Unregister(d: Dir, c: nat)
    | Accept(id: nat, c: nat)
    | Send(d: Dir, m: Message)
    | TakeChan(d: Dir, c: nat)
    | EmitWire(d: Dir, c: nat)
    | FetchWire(d: Dir, c: nat)
    | Receive(d: Dir, c: nat)
    | DropBridge(d: Dir, id: nat)
    | PopChunk(d: Dir, id: nat)
    | WriteChunk(d: Dir, id: nat, k: nat)

  /** When each actor can move.  A server bridge opens first, then sends data, then
      closes; a local bridge exists once its "create" was handled; a side unregisters its bridge after it
      has sent its own close, and hubs wait for nobody. */
  predicate CanSend(s: System, d: Dir, m: Message) {
    && m.id in s.owner && s.owner[m.id] in s.Of(d).conns
    && !Ended(Hist(s.Of(d).sent, m.id)) && (m.kind != Data ==> m.body == [])
    && (if d == Up then m.kind == Create <==> Hist(s.up.sent, m.id) == []
        else m.kind != Create && m.id in s.up.ends)
  }

  /** A read pump runs once its own side has registered the client. */
  predicate CanFetch(s: System, d: Dir, c: nat) {
    c in s.Of(d).conns && s.Of(d).conns[c].wire != [] && s.Of(d).conns[c].inn == [] && c in s.Of(Other(d)).conns
  }

  predicate CanReceive(s: System, d: Dir, c: nat) {
    c in s.Of(d).conns && s.Of(d).conns[c].inn != [] && c in s.Of(Other(d)).conns
  }

  predicate Enabled(s: System, t: Step) {
    match t
    case Register(d, c) => c !in s.Of(d).conns
    case Unregister(d, c) => c in s.Of(d).conns
    case Accept(id, c) => id !in s.owner && c in s.up.conns
    case Send(d, m) => CanSend(s, d, m)
    case TakeChan(d, c) => c in s.Of(d).conns && s.Of(d).conns[c].chan.queue != [] && s.Of(d).conns[c].out == []
    case EmitWire(d, c) => c in s.Of(d).conns && s.Of(d).conns[c].out != []
    case FetchWire(d, c) => CanFetch(s, d, c)
    case Receive(d, c) => CanReceive(s, d, c)
    case DropBridge(d, id) => id in s.Of(d).ends && Ended(Hist(s.Of(Other(d)).sent, id))
    case PopChunk(d, id) =>
      id in s.Of(d).ends && s.Of(d).ends[id].chan.queue != [] && s.Of(d).ends[id].held == [] && !s.Of(d).ends[id].dead
    case WriteChunk(d, id, k) =>
      id in s.Of(d).ends && s.Of(d).ends[id].held != [] && k <= |s.Of(d).ends[id].held[0]| && !s.Of(d).ends[id].dead
  }

  function Move(s: System, d: Dir, c: nat, x: Conn): System {
    s.With(d, s.Of(d).(conns := s.Of(d).conns[c := x]))
  }

  function Drain(s: System, d: Dir, id: nat, e: End): System {
    s.With(d, s.Of(d).(ends := s.Of(d).ends[id := e]))
  }

  /** A new stream: its ID, its empty histories and the server's bridge. */
  function AcceptStream(s: System, id: nat, c: nat): System {
    System(s.owner[id := c],
           s.up.(sent := s.up.sent[id := []], recv := s.up.recv[id := []]),
           s.down.(sent := s.down.sent[id := []], recv := s.down.recv[id := []], ends := s.down.ends[id := NewEnd()]))
  }

  /** The local read pump treats a "create" itself; everything else goes to the
      bridge hub. */
  function ReceiveMsg(l: Lane, d: Dir, c: nat): Lane
    requires c in l.conns && l.conns[c].inn != []
  {
    if d == Up && l.conns[c].inn[0].kind == Create then Open(l, c) else Deliver(l, c)
  }

  function Apply(s: System, t: Step): System
    requires Enabled(s, t)
  {
    match t
    case Register(d, c) => s.With(d, AddConn(s.Of(d), c))
    case Unregister(d, c) => s.With(d, DropConn(s.Of(d), c))
    case Accept(id, c) => AcceptStream(s, id, c)
    case Send(d, m) => s.With(d, SendMsg(s.Of(d), s.owner[m.id], m))
    case TakeChan(d, c) => Move(s, d, c, Take(s.Of(d).conns[c]))
    case EmitWire(d, c) => Move(s, d, c, Emit(s.Of(d).conns[c]))
    case FetchWire(d, c) => Move(s, d, c, Fetch(s.Of(d).conns[c]))
    case Receive(d, c) => s.With(d, ReceiveMsg(s.Of(d), d, c))
    case DropBridge(d, id) => s.With(d, DropEnd(s.Of(d), id))
    case PopChunk(d, id) => Drain(s, d, id, Pop(s.Of(d).ends[id]))
    case WriteChunk(d, id, k) => Drain(s, d, id, Write(s.Of(d).ends[id], k))
  }

  /** How the two directions of one stream hang together: the "create" is the first
      message up and only that; taking it makes the local bridge; nothing goes down
      before there is one. */
  ghost predicate Cross(upSent: seq<Message>, upRecv: seq<Message>, downSent: seq<Message>, local: bool) {
    && (local <==> upRecv != [])
    && (downSent != [] ==> local)
    && (forall i :: 0 <= i < |upSent| ==> (upSent[i].kind == Create <==> i == 0))
    && (forall i :: 0 <= i < |downSent| ==> downSent[i].kind != Create)
  }

  ghost predicate CrossOk(s: System, id: nat)
    requires id in s.owner
  {
    && s.owner[id] in s.up.conns && id in s.down.ends
    && (id in s.up.ends ==> s.owner[id] in s.down.conns)
    && Cross(Hist(s.up.sent, id), Hist(s.up.recv, id), Hist(s.down.sent, id), id in s.up.ends)
  }

  ghost predicate Inv(s: System) {
    && LaneInv(s.up, s.owner) && LaneInv(s.down, s.owner)
    && forall id :: id in s.owner ==> CrossOk(s, id)
  }

  // ---- Every step keeps the invariant ----

  function AcceptIn(l: Lane, id: nat): Lane {
    l.(sent := l.sent[id := []], recv := l.recv[id := []])
  }

  lemma {:induction false} AcceptLaneId(l: Lane, owner: map<nat, nat>, id: nat, c: nat, i: nat)
    requires LaneInv(l, owner) && id !in owner && (i in owner || i == id)
    ensures IdOk(AcceptIn(l, id), owner[id := c], i)
  {
    if i != id {
      assert IdOk(l, owner, i);
    } else if c in l.conns {
      assert ConnOk(owner, c, l.conns[c]);
      OnlyOthers(l.conns[c].Pipe(), id);
    }
  }

  lemma {:induction false} AcceptLane(l: Lane, owner: map<nat, nat>, id: nat, c: nat)
    requires LaneInv(l, owner) && id !in owner
    ensures LaneInv(AcceptIn(l, id), owner[id := c])
  {
    hide IdOk;
    var owner' := owner[id := c];
    forall i | i in owner'
      ensures IdOk(AcceptIn(l, id), owner[id := c], i)
    {
      AcceptLaneId(l, owner, id, c, i);
    }
  }

  lemma {:induction false} AddEndKeeps(l: Lane, owner: map<nat, nat>, id: nat)
    requires LaneInv(l, owner) && id in owner && id !in l.ends
    ensures LaneInv(AddEnd(l, id), owner)
  {
    forall i | i in owner
      ensures IdOk(AddEnd(l, id), owner, i)
    {
      assert IdOk(l, owner, i);
    }
  }

  lemma {:induction false} AcceptCross(s: System, id: nat, c: nat, i: nat)
    requires Inv(s) && id !in s.owner && c in s.up.conns && (i in s.owner || i == id)
    ensures CrossOk(AcceptStream(s, id, c), i)
  {
    hide LaneInv, Cross;
    Domains(s);
    if i != id {
      assert CrossOk(s, i);
    } else {
      NewCross();
    }
  }

  lemma {:induction false} NewCross()
    ensures Cross([], [], [], false)
  {
  }

  lemma {:induction false} AcceptKeeps(s: System, id: nat, c: nat)
    requires Inv(s) && id !in s.owner && c in s.up.conns
    ensures Inv(AcceptStream(s, id, c))
  {
    Domains(s);
    hide LaneInv, CrossOk;
    AcceptLane(s.up, s.owner, id, c);
    AcceptLane(s.down, s.owner, id, c);
    var s' := AcceptStream(s, id, c);
    AddEndKeeps(AcceptIn(s.down, id), s'.owner, id);
    assert s'.up == AcceptIn(s.up, id) && s'.down == AddEnd(AcceptIn(s.down, id), id);
    forall i | i in s'.owner
      ensures CrossOk(s', i)
    {
      AcceptCross(s, id, c, i);
    }
  }

  lemma {:induction false} Domains(s: System)
    requires Inv(s)
    ensures s.up.sent.Keys == s.up.recv.Keys == s.down.sent.Keys == s.down.recv.Keys == s.owner.Keys
    ensures s.up.ends.Keys <= s.owner.Keys && s.down.ends.Keys <= s.owner.Keys
  {
  }

  /** Steps of pumps and unregistrations change neither histories nor domains. */
  lemma {:induction false} QuietKeeps(s: System, d: Dir, l: Lane)
    requires Inv(s) && LaneInv(l, s.owner)
    requires l.sent == s.Of(d).sent && l.recv == s.Of(d).recv
    requires l.conns.Keys >= s.Of(d).conns.Keys && l.ends.Keys == s.Of(d).ends.Keys
    ensures Inv(s.With(d, l))
  {
    forall id | id in s.owner
      ensures CrossOk(s.With(d, l), id)
    {
      assert CrossOk(s, id);
    }
  }

  lemma {:induction false} MoveKeepsAll(s: System, d: Dir, c: nat, x: Conn)
    requires Inv(s) && c in s.Of(d).conns
    requires var y := s.Of(d).conns[c];
             || x == y.(chan := y.chan.(open := false))
             || (y.chan.queue != [] && y.out == [] && x == Take(y))
             || (y.out != [] && x == Emit(y))
             || (y.wire != [] && y.inn == [] && x == Fetch(y))
    ensures Inv(Move(s, d, c, x))
  {
    var l := s.Of(d);
    assert ConnOk(s.owner, c, l.conns[c]);
    PumpsKeepPipe(l.conns[c]);
    MoveKeeps(l, s.owner, c, x);
    QuietKeeps(s, d, l.(conns := l.conns[c := x]));
  }

  lemma {:induction false} ConnStepKeeps(s: System, t: Step)
    requires Inv(s) && Enabled(s, t) && (t.Unregister? || t.TakeChan? || t.EmitWire? || t.FetchWire?)
    ensures Inv(Apply(s, t))
  {
    hide Inv;
    match t
    case Unregister(d, c) => MoveKeepsAll(s, d, c, DropConn(s.Of(d), c).conns[c]);
    case TakeChan(d, c) => MoveKeepsAll(s, d, c, Take(s.Of(d).conns[c]));
    case EmitWire(d, c) => MoveKeepsAll(s, d, c, Emit(s.Of(d).conns[c]));
    case FetchWire(d, c) => MoveKeepsAll(s, d, c, Fetch(s.Of(d).conns[c]));
  }

  lemma {:induction false} EndBounds(s: System, d: Dir, id: nat)
    requires Inv(s) && id in s.Of(d).ends
    ensures |s.Of(d).ends[id].chan.queue| <= BRIDGE_CHAN_LEN && |s.Of(d).ends[id].held| <= 1
  {
    assert IdOk(s.Of(d), s.owner, id);
  }

  lemma {:induction false} DrainKeepsAll(s: System, d: Dir, id: nat, e: End)
    requires Inv(s) && id in s.Of(d).ends
    requires e.Accepted() == s.Of(d).ends[id].Accepted() && e.finished == s.Of(d).ends[id].finished
    requires e.chan.open ==> s.Of(d).ends[id].chan.open
    requires |e.chan.queue| <= BRIDGE_CHAN_LEN && |e.held| <= 1
    ensures Inv(Drain(s, d, id, e))
  {
    hide LaneInv, End.Accepted, CrossOk;
    var l := s.Of(d);
    EndKeeps(l, s.owner, id, e);
    QuietKeeps(s, d, l.(ends := l.ends[id := e]));
  }

  lemma {:induction false} EndStepKeeps(s: System, t: Step)
    requires Inv(s) && Enabled(s, t) && (t.DropBridge? || t.PopChunk? || t.WriteChunk?)
    ensures Inv(Apply(s, t))
  {
    hide Inv;
    EndBounds(s, t.d, t.id);
    var e := s.Of(t.d).ends[t.id];
    match t
    case DropBridge(d, id) => DrainKeepsAll(s, d, id, DropEnd(s.Of(d), id).ends[id]);
    case PopChunk(d, id) =>
      PopKeeps(e);
      DrainKeepsAll(s, d, id, Pop(e));
    case WriteChunk(d, id, k) =>
      WriteKeeps(e, k);
      DrainKeepsAll(s, d, id, Write(e, k));
  }

  lemma {:induction false} RegisterKeeps(s: System, d: Dir, c: nat)
    requires Inv(s) && c !in s.Of(d).conns
    ensures Inv(s.With(d, AddConn(s.Of(d), c)))
  {
    hide LaneInv, CrossOk;
    AddConnKeeps(s.Of(d), s.owner, c);
    QuietKeeps(s, d, AddConn(s.Of(d), c));
  }

  lemma {:induction false} SendCross(s: System, d: Dir, m: Message, id: nat)
    requires Inv(s) && CanSend(s, d, m) && id in s.owner
    ensures CrossOk(s.With(d, SendMsg(s.Of(d), s.owner[m.id], m)), id)
  {
    hide LaneInv;
    assert CrossOk(s, id);
  }

  lemma {:induction false} SendStepKeeps(s: System, d: Dir, m: Message)
    requires Inv(s) && CanSend(s, d, m)
    ensures Inv(s.With(d, SendMsg(s.Of(d), s.owner[m.id], m)))
  {
    Domains(s);
    hide LaneInv, CrossOk;
    SendKeeps(s.Of(d), s.owner, s.owner[m.id], m);
    forall id | id in s.owner
      ensures CrossOk(s.With(d, SendMsg(s.Of(d), s.owner[m.id], m)), id)
    {
      SendCross(s, d, m, id);
    }
  }

  /** The front message is the next one of its history, so a "create" comes first
      and finds no bridge, and anything else finds one. */
  lemma {:induction false} FrontMessage(s: System, d: Dir, c: nat)
    requires Inv(s) && c in s.Of(d).conns && s.Of(d).conns[c].inn != []
    ensures var m := s.Of(d).conns[c].inn[0];
            && m.id in s.owner && s.owner[m.id] == c && m.id in s.Of(d).sent && m.id in s.Of(d).recv
            && s.Of(d).recv[m.id] + [m] <= s.Of(d).sent[m.id]
            && (m.id in s.Of(d).ends <==> !(d == Up && m.kind == Create))
  {
    var l := s.Of(d);
    ReceiveConn(l, s.owner, c);
    var m := l.conns[c].inn[0];
    assert IdOk(l, s.owner, m.id);
    assert CrossOk(s, m.id);
    TakeFlow(l.conns[c], m.id, l.sent[m.id], l.recv[m.id]);
    assert l.sent[m.id][|l.recv[m.id]|] == m;
  }

  lemma {:induction false} ReceiveLane(s: System, d: Dir, c: nat)
    requires Inv(s) && CanReceive(s, d, c)
    ensures LaneInv(ReceiveMsg(s.Of(d), d, c), s.owner)
  {
    FrontMessage(s, d, c);
    hide CrossOk;
    if d == Up && s.Of(d).conns[c].inn[0].kind == Create {
      OpenKeeps(s.Of(d), s.owner, c);
    } else {
      DeliverKeeps(s.Of(d), s.owner, c);
    }
  }

  lemma {:induction false} ReceiveCross(s: System, d: Dir, c: nat, id: nat)
    requires Inv(s) && CanReceive(s, d, c) && id in s.owner
    ensures CrossOk(s.With(d, ReceiveMsg(s.Of(d), d, c)), id)
  {
    hide LaneInv, HandleEnd, Conn.Pipe;
    FrontMessage(s, d, c);
    assert CrossOk(s, id);
    if s.Of(d).conns[c].inn[0].id != id {
      assert Hist(ReceiveMsg(s.Of(d), d, c).recv, id) == Hist(s.Of(d).recv, id);
    }
  }

  lemma {:induction false} ReceiveKeeps(s: System, d: Dir, c: nat)
    requires Inv(s) && CanReceive(s, d, c)
    ensures Inv(s.With(d, ReceiveMsg(s.Of(d), d, c)))
  {
    hide LaneInv, CrossOk, ReceiveMsg;
    ReceiveLane(s, d, c);
    forall id | id in s.owner
      ensures CrossOk(s.With(d, ReceiveMsg(s.Of(d), d, c)), id)
    {
      ReceiveCross(s, d, c, id);
    }
  }

  /** Every step of every actor keeps the invariant. */
  lemma {:induction false} StepKeeps(s: System, t: Step)
    requires Inv(s) && Enabled(s, t)
    ensures Inv(Apply(s, t))
  {
    hide Inv, AcceptStream, AddConn, SendMsg;
    match t
    case Register(d, c) => RegisterKeeps(s, d, c);
    case Accept(id, c) => AcceptKeeps(s, id, c);
    case Send(d, m) => SendStepKeeps(s, d, m);
    case Receive(d, c) => ReceiveKeeps(s, d, c);
    case Unregister(_, _) => ConnStepKeeps(s, t);
    case TakeChan(_, _) => ConnStepKeeps(s, t);
    case EmitWire(_, _) => ConnStepKeeps(s, t);
    case FetchWire(_, _) => ConnStepKeeps(s, t);
    case DropBridge(_, _) => EndStepKeeps(s, t);
    case PopChunk(_, _) => EndStepKeeps(s, t);
    case WriteChunk(_, _, _) => EndStepKeeps(s, t);
  }

  /** What a bridge's own program says about its next message. */
  predicate InTurn(s: System, d: Dir, m: Message) {
    && m.id in s.owner && !Ended(Hist(s.Of(d).sent, m.id)) && (m.kind != Data ==> m.body == [])
    && (if d == Up then m.kind == Create <==> Hist(s.up.sent, m.id) == []
        else m.kind != Create && m.id in s.up.ends)
  }

  /** A hub waits for nobody: a bridge's next message can be sent exactly when it is its
      turn in the bridge's own program, whatever channels, pumps and wires look like. */
  lemma {:induction false} SenderNeverWaits(s: System, d: Dir, m: Message)
    requires Inv(s)
    ensures Enabled(s, Send(d, m)) <==> InTurn(s, d, m)
  {
    hide LaneInv;
    if m.id in s.owner {
      assert CrossOk(s, m.id);
    }
  }

  /** Messages are only ever fetched by a side that knows the client. */
  ghost predicate Known(s: System) {
    forall d: Dir, c: nat :: c in s.Of(d).conns && s.Of(d).conns[c].inn != [] ==> c in s.Of(Other(d)).conns
  }

  lemma {:induction false} ReceiveKeepsConns(l: Lane, d: Dir, c: nat)
    requires c in l.conns && l.conns[c].inn != []
    ensures ReceiveMsg(l, d, c).conns == l.conns[c := l.conns[c].(inn := l.conns[c].inn[1..])]
  {
  }

  /** What a step does to a client's connection. */
  lemma {:induction false} ConnApplied(s: System, t: Step, d: Dir, c: nat)
    requires Enabled(s, t)
    ensures s.Of(d).conns.Keys <= Apply(s, t).Of(d).conns.Keys
    ensures c in Apply(s, t).Of(d).conns && Apply(s, t).Of(d).conns[c].inn != [] && t != FetchWire(d, c) ==>
              c in s.Of(d).conns && s.Of(d).conns[c].inn != []
  {
    if t.Receive? {
      ReceiveKeepsConns(s.Of(t.d), t.d, t.c);
    }
    hide ReceiveMsg;
  }

  lemma {:induction false} KnownStep(s: System, t: Step)
    requires Known(s) && Enabled(s, t)
    ensures Known(Apply(s, t))
  {
    hide Apply;
    assert t.FetchWire? ==> CanFetch(s, t.d, t.c);
    hide Enabled;
    forall d: Dir, c: nat | c in Apply(s, t).Of(d).conns && Apply(s, t).Of(d).conns[c].inn != []
      ensures c in Apply(s, t).Of(Other(d)).conns
    {
      ConnApplied(s, t, d, c);
      ConnApplied(s, t, Other(d), c);
    }
  }
}
