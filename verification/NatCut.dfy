/** Where a stream is cut: exactly at what its bridge had received when its channel was
    closed; what can close it; and a run in which the local side's unregistration does. */
module NatCut {
  import opened NatTypes
  import opened NatProtocol
  import opened NatSystem
  import opened NatRuns

  // ---- Closing accepts nothing ----

  lemma {:induction false} HandleCloses(e: End, m: Message)
    ensures !HandleEnd(e, m).chan.open ==> HandleEnd(e, m).Accepted() == e.Accepted()
  {
  }

  lemma {:induction false} OpenEnds(l: Lane, c: nat, id: nat)
    requires c in l.conns && l.conns[c].inn != [] && id in l.ends && l.conns[c].inn[0].id != id
    ensures id in Open(l, c).ends && Open(l, c).ends[id] == l.ends[id]
  {
  }

  lemma {:induction false} DeliverEnds(l: Lane, c: nat, id: nat)
    requires c in l.conns && l.conns[c].inn != [] && id in l.ends && l.conns[c].inn[0].id in l.ends
    ensures var m := l.conns[c].inn[0];
            id in Deliver(l, c).ends && Deliver(l, c).ends[id] == if m.id == id then HandleEnd(l.ends[id], m) else l.ends[id]
  {
    hide HandleEnd;
  }

  /** What one received message does to the end of `id`. */
  lemma {:induction false} ReceiveEnds(s: System, d: Dir, c: nat, id: nat)
    requires Inv(s) && CanReceive(s, d, c) && id in s.Of(d).ends
    ensures var m, e, l' := s.Of(d).conns[c].inn[0], s.Of(d).ends[id], ReceiveMsg(s.Of(d), d, c);
            id in l'.ends && l'.ends[id] == if m.id == id then HandleEnd(e, m) else e
  {
    FrontMessage(s, d, c);
    var l := s.Of(d);
    var m := l.conns[c].inn[0];
    hide Inv, HandleEnd, NewEnd, Open, Deliver, Conn.Pipe;
    if d == Up && m.kind == Create {
      OpenEnds(l, c, id);
    } else {
      DeliverEnds(l, c, id);
    }
  }

  lemma {:induction false} ReceiveApplied(s: System, d: Dir, c: nat)
    requires CanReceive(s, d, c)
    ensures Enabled(s, Receive(d, c)) && Apply(s, Receive(d, c)).Of(d) == ReceiveMsg(s.Of(d), d, c)
    ensures Apply(s, Receive(d, c)).Of(Other(d)) == s.Of(Other(d))
  {
    hide ReceiveMsg;
  }

  lemma {:induction false} DrainEnds(s: System, d': Dir, id': nat, x: End, d: Dir, id: nat)
    requires id in s.Of(d).ends
    ensures id in Drain(s, d', id', x).Of(d).ends
    ensures Drain(s, d', id', x).Of(d).ends[id] == if d' == d && id' == id then x else s.Of(d).ends[id]
  {
  }

  /** The new end that a pump's or an unregistration's step leaves. */
  lemma {:induction false} OwnApplied(s: System, t: Step) returns (x: End)
    requires Enabled(s, t) && (t.DropBridge? || t.PopChunk? || t.WriteChunk?)
    ensures t.id in s.Of(t.d).ends && Apply(s, t) == Drain(s, t.d, t.id, x)
    ensures var e := s.Of(t.d).ends[t.id];
            && x.Accepted() == e.Accepted() && x.finished == e.finished && (!t.DropBridge? ==> x.chan.open == e.chan.open)
  {
    var e := s.Of(t.d).ends[t.id];
    DropAccepts(e);
    hide End.Accepted;
    match t
    case DropBridge(_, _) => x := e.(chan := e.chan.(open := false));
    case PopChunk(_, _) => PopKeeps(e); x := Pop(e);
    case WriteChunk(_, _, k) => WriteKeeps(e, k); x := Write(e, k);
  }

  lemma {:induction false} EndApplied(s: System, t: Step, d: Dir, id: nat)
    requires Enabled(s, t) && (t.DropBridge? || t.PopChunk? || t.WriteChunk?) && id in s.Of(d).ends
    ensures id in Apply(s, t).Of(d).ends
    ensures var e, e' := s.Of(d).ends[id], Apply(s, t).Of(d).ends[id];
            && e'.Accepted() == e.Accepted() && e'.finished == e.finished
            && (t != DropBridge(d, id) ==> e'.chan.open == e.chan.open)
  {
    hide *;
    var x := OwnApplied(s, t);
    DrainEnds(s, t.d, t.id, x, d, id);
  }

  /** What any step does to the end of `id`: nothing; or it handles a message; or its own
      pump or unregistration takes a step, which accepts nothing. */
  ghost predicate EndStep(s: System, t: Step, d: Dir, id: nat, e: End, e': End) {
    || e' == e
    || (t.Receive? && t.d == d && CanReceive(s, d, t.c) && s.Of(d).conns[t.c].inn[0].id == id
        && e' == HandleEnd(e, s.Of(d).conns[t.c].inn[0]))
    || (e'.Accepted() == e.Accepted() && e'.finished == e.finished
        && (t != DropBridge(d, id) ==> e'.chan.open == e.chan.open))
  }

  lemma {:induction false} ReceiveStep(s: System, d': Dir, c: nat, d: Dir, id: nat)
    requires Inv(s) && CanReceive(s, d', c) && id in s.Of(d).ends
    ensures var t := Receive(d', c);
            && Enabled(s, t) && id in Apply(s, t).Of(d).ends
            && EndStep(s, t, d, id, s.Of(d).ends[id], Apply(s, t).Of(d).ends[id])
  {
    ReceiveApplied(s, d', c);
    hide Inv, Apply, Enabled, HandleEnd, End.Accepted, ReceiveMsg;
    if d' == d {
      ReceiveEnds(s, d, c, id);
    } else {
      OtherIs(d, d');
    }
  }

  lemma {:induction false} AcceptApplied(s: System, added: nat, c: nat)
    requires Enabled(s, Accept(added, c))
    ensures Apply(s, Accept(added, c)) == AcceptStream(s, added, c)
  {
    hide Enabled, AcceptStream;
  }

  lemma {:induction false} AcceptStep(s: System, added: nat, c: nat, d: Dir, id: nat)
    requires Inv(s) && Enabled(s, Accept(added, c)) && id in s.Of(d).ends
    ensures var s' := Apply(s, Accept(added, c)); id in s'.Of(d).ends && s'.Of(d).ends[id] == s.Of(d).ends[id]
  {
    AcceptApplied(s, added, c);
    hide *;
    WhenEnabled(s, Accept(added, c));
    EndOwned(s, d, id);
    AcceptAddsEnd(s, added, c, d, id);
  }

  lemma {:induction false} WhenEnabled(s: System, t: Step)
    requires Enabled(s, t)
    ensures t.Receive? ==> CanReceive(s, t.d, t.c)
    ensures t.Accept? ==> t.id !in s.owner
  {
  }

  lemma {:induction false} NoStep(s: System, t: Step, d: Dir, id: nat, e: End)
    ensures EndStep(s, t, d, id, e, e)
  {
  }

  lemma {:induction false} OwnStep(s: System, t: Step, d: Dir, id: nat, e: End, e': End)
    requires e'.Accepted() == e.Accepted() && e'.finished == e.finished
    requires t != DropBridge(d, id) ==> e'.chan.open == e.chan.open
    ensures EndStep(s, t, d, id, e, e')
  {
  }

  lemma {:induction false} AnyStep(s: System, t: Step, d: Dir, id: nat)
    requires Inv(s) && Enabled(s, t) && id in s.Of(d).ends
    ensures id in Apply(s, t).Of(d).ends && EndStep(s, t, d, id, s.Of(d).ends[id], Apply(s, t).Of(d).ends[id])
  {
    hide *;
    WhenEnabled(s, t);
    var e := s.Of(d).ends[id];
    NoStep(s, t, d, id, e);
    if t.Receive? {
      ReceiveStep(s, t.d, t.c, d, id);
    } else if t.Accept? {
      AcceptStep(s, t.id, t.c, d, id);
    } else if t.DropBridge? || t.PopChunk? || t.WriteChunk? {
      EndApplied(s, t, d, id);
      OwnStep(s, t, d, id, e, Apply(s, t).Of(d).ends[id]);
    } else {
      EndsUntouched(s, t, d);
    }
  }

  /** A step that closes a channel leaves what was accepted as it is. */
  lemma {:induction false} ClosingKeeps(s: System, t: Step, d: Dir, id: nat, e: End, e': End)
    requires EndStep(s, t, d, id, e, e')
    ensures !e'.chan.open ==> e'.Accepted() == e.Accepted()
  {
    if t.Receive? && t.d == d && CanReceive(s, d, t.c) {
      HandleCloses(e, s.Of(d).conns[t.c].inn[0]);
    }
    hide HandleEnd, End.Accepted;
  }

  lemma {:induction false} OtherIs(d: Dir, d': Dir)
    ensures d != d' ==> d == Other(d')
  {
  }

  /** A stream that is closed by step `i` is cut exactly at what the hub had received for
      it: all that was given by `j` is accepted if and only if that was all. */
  lemma {:induction false} CutExactly(ss: seq<System>, ts: seq<Step>, i: nat, j: nat, d: Dir, id: nat)
    requires IsRun(ss, ts) && i < |ts| && i < j < |ss| && id in ss[i].Of(d).ends && ss[i].Of(d).ends[id].chan.open
    requires id in ss[i + 1].Of(d).ends && !ss[i + 1].Of(d).ends[id].chan.open
    ensures id in ss[j].Of(d).ends
    ensures var got, given, e := Bodies(Hist(ss[i].Of(d).recv, id)), Bodies(Inputs(ts[..j], d, id)), ss[j].Of(d).ends[id];
            && e.Accepted() == got <= given && e.written <= got
            && (e.Accepted() == given <==> given == got)
  {
    RunInv(ss, ts, i);
    RunInv(ss, ts, j);
    assert Enabled(ss[i], ts[i]) && ss[i + 1] == Apply(ss[i], ts[i]);
    hide *;
    AnyStep(ss[i], ts[i], d, id);
    ClosingKeeps(ss[i], ts[i], d, id, ss[i].Of(d).ends[id], ss[i + 1].Of(d).ends[id]);
    FrozenPath(ss, ts, i + 1, j, d, id);
    ReceivedIsPrefix(ss[i], d, id);
    OpenHasAll(ss[i].Of(d).ends[id], ss[i].Of(d).sent[id], ss[i].Of(d).recv[id]);
    HistIs(ss[i].Of(d).recv, id);
    FrozenAccepts(ss[i + 1].Of(d).ends[id], ss[j].Of(d).ends[id]);
    WrittenIsPrefix(ss[j], d, id);
    SentIsInput(ss, ts, j, d, id);
  }

  lemma {:induction false} OpenHasAll(e: End, sent: seq<Message>, recv: seq<Message>)
    requires EndOk(e, sent, recv)
    ensures e.chan.open ==> e.Accepted() == Bodies(recv)
  {
  }

  lemma {:induction false} FrozenAccepts(e: End, e': End)
    ensures Frozen(e, e') ==> e'.Accepted() == e.Accepted()
  {
  }

  // ---- What can cut it ----

  /** Open, or closed by its sender's own close. */
  predicate Intact(e: End) {
    e.chan.open || e.finished
  }

  /** A chunk that finds its bridge's channel full, with a hundred chunks. */
  predicate Overflows(s: System, t: Step, d: Dir, id: nat) {
    && t.Receive? && t.d == d && CanReceive(s, d, t.c)
    && id in s.Of(d).ends && |s.Of(d).ends[id].chan.queue| >= 100
    && s.Of(d).conns[t.c].inn[0].id == id && s.Of(d).conns[t.c].inn[0].kind != Close
  }

  lemma {:induction false} IntactStep(s: System, t: Step, d: Dir, id: nat, e: End, e': End)
    requires EndStep(s, t, d, id, e, e') && Intact(e) && id in s.Of(d).ends && s.Of(d).ends[id] == e
    requires t != DropBridge(d, id) && !Overflows(s, t, d, id)
    ensures Intact(e')
  {
    hide HandleEnd, End.Accepted;
    if t.Receive? && t.d == d && CanReceive(s, d, t.c) && s.Of(d).conns[t.c].inn[0].id == id {
      HandleIntact(e, s.Of(d).conns[t.c].inn[0]);
    }
  }

  lemma {:induction false} HandleIntact(e: End, m: Message)
    requires Intact(e) && (m.kind == Close || |e.chan.queue| < BRIDGE_CHAN_LEN)
    ensures Intact(HandleEnd(e, m))
  {
  }

  lemma {:induction false} IntactPath(ss: seq<System>, ts: seq<Step>, i: nat, j: nat, d: Dir, id: nat)
    requires IsRun(ss, ts) && i <= j < |ss| && id in ss[i].Of(d).ends && Intact(ss[i].Of(d).ends[id])
    requires forall k :: i <= k < j ==> ts[k] != DropBridge(d, id) && !Overflows(ss[k], ts[k], d, id)
    ensures id in ss[j].Of(d).ends && Intact(ss[j].Of(d).ends[id])
    decreases j
  {
    hide Apply, Enabled, Inv, Overflows, Intact, EndStep, System.Of;
    if i < j {
      IntactPath(ss, ts, i, j - 1, d, id);
      RunInv(ss, ts, j - 1);
      AnyStep(ss[j - 1], ts[j - 1], d, id);
      IntactStep(ss[j - 1], ts[j - 1], d, id, ss[j - 1].Of(d).ends[id], ss[j].Of(d).ends[id]);
    }
  }

  /** Half-closing: over any stretch of a run, whatever closes are received in the other
      direction, a stream goes on accepting all that arrives for it, and all that was
      ever sent once its own close has come; only its own side's unregistration or a full
      channel can change that. */
  lemma {:induction false} OnlyCutBy(ss: seq<System>, ts: seq<Step>, i: nat, j: nat, d: Dir, id: nat)
    requires IsRun(ss, ts) && i <= j < |ss| && id in ss[i].Of(d).ends && Intact(ss[i].Of(d).ends[id])
    requires forall k :: i <= k < j ==> ts[k] != DropBridge(d, id) && !Overflows(ss[k], ts[k], d, id)
    ensures id in ss[j].Of(d).ends
    ensures var e := ss[j].Of(d).ends[id];
            e.Accepted() == if e.chan.open then Bodies(Hist(ss[j].Of(d).recv, id)) else Bodies(Inputs(ts[..j], d, id))
  {
    IntactPath(ss, ts, i, j, d, id);
    RunInv(ss, ts, j);
    var e := ss[j].Of(d).ends[id];
    assert e.chan.open || e.finished;
    hide *;
    ReceivedIsPrefix(ss[j], d, id);
    OpenHasAll(e, ss[j].Of(d).sent[id], ss[j].Of(d).recv[id]);
    FinishedIsAll(e, ss[j].Of(d).sent[id], ss[j].Of(d).recv[id]);
    HistIs(ss[j].Of(d).recv, id);
    HistIs(ss[j].Of(d).sent, id);
    SentIsInput(ss, ts, j, d, id);
  }

  // ---- What closes a client ----

  /** A message that finds its client's channel full, with two hundred messages. */
  predicate FillsUp(s: System, t: Step, d: Dir, c: nat) {
    && t.Send? && t.d == d && t.m.id in s.owner && s.owner[t.m.id] == c
    && c in s.Of(d).conns && |s.Of(d).conns[c].chan.queue| >= 200
  }

  lemma {:induction false} SendOpen(s: System, d: Dir, m: Message, d': Dir, c: nat)
    requires CanSend(s, d, m) && c in s.Of(d').conns && s.Of(d').conns[c].chan.open && !FillsUp(s, Send(d, m), d', c)
    ensures var s' := Apply(s, Send(d, m)); c in s'.Of(d').conns && s'.Of(d').conns[c].chan.open
  {
    SendMeans(s.Of(d), s.owner[m.id], m);
    hide SendMsg;
  }

  lemma {:induction false} OpenReceive(s: System, d: Dir, c': nat, d': Dir, c: nat)
    requires CanReceive(s, d, c') && c in s.Of(d').conns && s.Of(d').conns[c].chan.open
    ensures var s' := Apply(s, Receive(d, c')); c in s'.Of(d').conns && s'.Of(d').conns[c].chan.open
  {
    ReceiveKeepsConns(s.Of(d), d, c');
    hide ReceiveMsg;
  }

  lemma {:induction false} OtherOpen(s: System, t: Step, d: Dir, c: nat)
    requires Enabled(s, t) && c in s.Of(d).conns && s.Of(d).conns[c].chan.open
    requires t != Unregister(d, c) && !t.Send? && !t.Receive?
    ensures c in Apply(s, t).Of(d).conns && Apply(s, t).Of(d).conns[c].chan.open
  {
  }

  /** Over any stretch of a run a client that is open stays open, and all that was given
      for its streams has arrived or is under way, unless it is unregistered or a message
      finds its channel full. */
  lemma {:induction false} OnlyClosedBy(ss: seq<System>, ts: seq<Step>, i: nat, j: nat, d: Dir, c: nat, id: nat)
    requires IsRun(ss, ts) && i <= j < |ss| && c in ss[i].Of(d).conns && ss[i].Of(d).conns[c].chan.open
    requires forall k :: i <= k < j ==> ts[k] != Unregister(d, c) && !FillsUp(ss[k], ts[k], d, c)
    requires id in ss[j].owner && ss[j].owner[id] == c
    ensures c in ss[j].Of(d).conns && ss[j].Of(d).conns[c].chan.open
    ensures Hist(ss[j].Of(d).recv, id) + Only(ss[j].Of(d).conns[c].Pipe(), id) == Inputs(ts[..j], d, id)
  {
    OpenPath(ss, ts, i, j, d, c);
    RunInv(ss, ts, j);
    SentIsInput(ss, ts, j, d, id);
    hide IsRun, Inputs, Conn.Pipe;
    assert IdOk(ss[j].Of(d), ss[j].owner, id);
  }

  lemma {:induction false} OpenPath(ss: seq<System>, ts: seq<Step>, i: nat, j: nat, d: Dir, c: nat)
    requires IsRun(ss, ts) && i <= j < |ss| && c in ss[i].Of(d).conns && ss[i].Of(d).conns[c].chan.open
    requires forall k :: i <= k < j ==> ts[k] != Unregister(d, c) && !FillsUp(ss[k], ts[k], d, c)
    ensures c in ss[j].Of(d).conns && ss[j].Of(d).conns[c].chan.open
    decreases j
  {
    hide Apply, FillsUp, System.Of;
    if i < j {
      OpenPath(ss, ts, i, j - 1, d, c);
      var s, t := ss[j - 1], ts[j - 1];
      assert t.Send? ==> CanSend(s, t.d, t.m);
      assert t.Receive? ==> CanReceive(s, t.d, t.c);
      hide Enabled;
      if t.Send? {
        SendOpen(s, t.d, t.m, d, c);
      } else if t.Receive? {
        OpenReceive(s, t.d, t.c, d, c);
      } else {
        OtherOpen(s, t, d, c);
      }
    }
  }

  // ---- A run in which the local side's unregistration cuts the stream ----

  lemma {:induction false} StartRun() returns (ss: seq<System>, ts: seq<Step>)
    ensures IsRun(ss, ts) && ss == [INIT] && ts == []
  {
    ss, ts := [INIT], [];
  }

  lemma {:induction false} GrowRun(ss: seq<System>, ts: seq<Step>, t: Step) returns (ss': seq<System>, ts': seq<Step>)
    requires IsRun(ss, ts) && Enabled(ss[|ts|], t)
    ensures IsRun(ss', ts') && ts' == ts + [t] && |ss'| == |ts'| + 1 && ss'[|ts'|] == Apply(ss[|ts|], t)
  {
    hide Enabled, Apply;
    ss', ts' := ss + [Apply(ss[|ts|], t)], ts + [t];
    forall i | 0 <= i < |ts'|
      ensures Enabled(ss'[i], ts'[i]) && ss'[i + 1] == Apply(ss'[i], ts'[i])
    {
      if i < |ts| {
        assert Enabled(ss[i], ts[i]) && ss[i + 1] == Apply(ss[i], ts[i]);
      }
    }
  }

  const IDLE := Conn(Chan(true, []), [], [], [])
  const CREATE := Message(1, Create, [])
  const CLOSE := Message(1, Close, [])
  const DATA := Message(1, Data, "X")

  /** Stream 1 over client 0: the client up, the local bridge, and what was sent. */
  function One(up: Conn, local: map<nat, End>, upSent: seq<Message>, upRecv: seq<Message>,
               down: Conn, downSent: seq<Message>): System {
    System(map[1 := 0],
           Lane(map[0 := up], local, map[1 := upSent], map[1 := upRecv]),
           Lane(map[0 := down], map[1 := NewEnd()], map[1 := downSent], map[1 := []]))
  }

  function Clients(up: map<nat, Conn>, down: map<nat, Conn>): System {
    System(map[], Lane(up, map[], map[], map[]), Lane(down, map[], map[], map[]))
  }

  lemma {:induction false} Registering()
    ensures Enabled(INIT, Register(Up, 0)) && Apply(INIT, Register(Up, 0)) == Clients(map[0 := IDLE], map[])
    ensures var s := Clients(map[0 := IDLE], map[]);
            Enabled(s, Register(Down, 0)) && Apply(s, Register(Down, 0)) == Clients(map[0 := IDLE], map[0 := IDLE])
  {
  }

  lemma {:induction false} Accepting()
    ensures var s := Clients(map[0 := IDLE], map[0 := IDLE]);
            Enabled(s, Accept(1, 0)) && Apply(s, Accept(1, 0)) == One(IDLE, map[], [], [], IDLE, [])
  {
  }

  lemma {:induction false} SendingUp(up: Conn, local: map<nat, End>, sent: seq<Message>, recv: seq<Message>,
                                     down: Conn, downSent: seq<Message>, m: Message)
    requires up.chan.open && |up.chan.queue| < SEND_CHAN_LEN && m.id == 1 && !Ended(sent)
    requires (m.kind != Data ==> m.body == []) && (m.kind == Create <==> sent == [])
    ensures var s := One(up, local, sent, recv, down, downSent);
            && Enabled(s, Send(Up, m))
            && Apply(s, Send(Up, m))
               == One(up.(chan := up.chan.(queue := up.chan.queue + [m])), local, sent + [m], recv, down, downSent)
  {
  }

  lemma {:induction false} SendingDown(up: Conn, local: map<nat, End>, sent: seq<Message>, recv: seq<Message>,
                                       down: Conn, downSent: seq<Message>, m: Message)
    requires down.chan.open && |down.chan.queue| < SEND_CHAN_LEN && m.id == 1 && !Ended(downSent)
    requires (m.kind != Data ==> m.body == []) && m.kind != Create && 1 in local
    ensures var s := One(up, local, sent, recv, down, downSent);
            && Enabled(s, Send(Down, m))
            && Apply(s, Send(Down, m))
               == One(up, local, sent, recv, down.(chan := down.chan.(queue := down.chan.queue + [m])), downSent + [m])
  {
  }

  /** A message in the channel takes three steps to the far side. */
  lemma {:induction false} Taking(m: Message, local: map<nat, End>, sent: seq<Message>, recv: seq<Message>, down: Conn)
    ensures var a := One(Conn(Chan(true, [m]), [], [], []), local, sent, recv, down, []);
            && Enabled(a, TakeChan(Up, 0))
            && Apply(a, TakeChan(Up, 0)) == One(Conn(Chan(true, []), [m], [], []), local, sent, recv, down, [])
  {
    assert [m][1..] == [] && [] + [m] == [m];
  }

  lemma {:induction false} Emitting(m: Message, local: map<nat, End>, sent: seq<Message>, recv: seq<Message>, down: Conn)
    ensures var b := One(Conn(Chan(true, []), [m], [], []), local, sent, recv, down, []);
            && Enabled(b, EmitWire(Up, 0))
            && Apply(b, EmitWire(Up, 0)) == One(Conn(Chan(true, []), [], [m], []), local, sent, recv, down, [])
  {
    assert [m][1..] == [] && [] + [m] == [m];
  }

  lemma {:induction false} Fetching(m: Message, local: map<nat, End>, sent: seq<Message>, recv: seq<Message>, down: Conn)
    ensures var c := One(Conn(Chan(true, []), [], [m], []), local, sent, recv, down, []);
            && Enabled(c, FetchWire(Up, 0))
            && Apply(c, FetchWire(Up, 0)) == One(Conn(Chan(true, []), [], [], [m]), local, sent, recv, down, [])
  {
    assert [m][1..] == [] && [] + [m] == [m];
  }

  lemma {:induction false} Opening(down: Conn)
    ensures var s := One(Conn(Chan(true, []), [], [], [CREATE]), map[], [CREATE], [], down, []);
            && Enabled(s, Receive(Up, 0))
            && Apply(s, Receive(Up, 0)) == One(IDLE, map[1 := NewEnd()], [CREATE], [CREATE], down, [])
  {
    assert [CREATE][1..] == [] && [] + [CREATE] == [CREATE];
  }

  lemma {:induction false} Unregistering(down: Conn)
    ensures var s := One(IDLE, map[1 := NewEnd()], [CREATE], [CREATE], down, [CLOSE]);
            && Enabled(s, DropBridge(Up, 1))
            && Apply(s, DropBridge(Up, 1))
               == One(IDLE, map[1 := NewEnd().(chan := Chan(false, []))], [CREATE], [CREATE], down, [CLOSE])
  {
  }

  /** Up to the local bridge of stream 1. */
  lemma {:induction false} OpenedRun() returns (ss: seq<System>, ts: seq<Step>)
    ensures IsRun(ss, ts) && |ts| == 8 && |ss| == 9 && ss[|ts|] == One(IDLE, map[1 := NewEnd()], [CREATE], [CREATE], IDLE, [])
  {
    hide Apply, Enabled, IsRun;
    ss, ts := StartRun();
    Registering();
    ss, ts := GrowRun(ss, ts, Register(Up, 0));
    ss, ts := GrowRun(ss, ts, Register(Down, 0));
    Accepting();
    ss, ts := GrowRun(ss, ts, Accept(1, 0));
    SendingUp(IDLE, map[], [], [], IDLE, [], CREATE);
    assert [] + [CREATE] == [CREATE];
    ss, ts := GrowRun(ss, ts, Send(Up, CREATE));
    Taking(CREATE, map[], [CREATE], [], IDLE);
    Emitting(CREATE, map[], [CREATE], [], IDLE);
    Fetching(CREATE, map[], [CREATE], [], IDLE);
    ss, ts := GrowRun(ss, ts, TakeChan(Up, 0));
    ss, ts := GrowRun(ss, ts, EmitWire(Up, 0));
    ss, ts := GrowRun(ss, ts, FetchWire(Up, 0));
    Opening(IDLE);
    ss, ts := GrowRun(ss, ts, Receive(Up, 0));
  }

  const CUT := One(IDLE.(chan := Chan(true, [DATA])), map[1 := NewEnd().(chan := Chan(false, []))],
                   [CREATE, DATA], [CREATE], IDLE.(chan := Chan(true, [CLOSE])), [CLOSE])

  /** The local side sends its close and unregisters; the server's side then passes on
      one byte more. */
  lemma {:induction false} CutRun() returns (ss: seq<System>, ts: seq<Step>)
    ensures IsRun(ss, ts) && ss[|ts|] == CUT
    ensures |ts| == 11 && ts[|ts| - 3..] == [Send(Down, CLOSE), DropBridge(Up, 1), Send(Up, DATA)]
  {
    hide Apply, Enabled, IsRun;
    ss, ts := OpenedRun();
    var down := IDLE.(chan := Chan(true, [CLOSE]));
    var local := map[1 := NewEnd()];
    assert [] + [CLOSE] == [CLOSE] && [] + [DATA] == [DATA] && [CREATE] + [DATA] == [CREATE, DATA];
    SendingDown(IDLE, local, [CREATE], [CREATE], IDLE, [], CLOSE);
    ss, ts := GrowRun(ss, ts, Send(Down, CLOSE));
    assert IDLE.chan.queue + [CLOSE] == [CLOSE] && IDLE.chan.queue + [DATA] == [DATA];
    assert ss[|ts|] == One(IDLE, local, [CREATE], [CREATE], down, [CLOSE]);
    Unregistering(down);
    ss, ts := GrowRun(ss, ts, DropBridge(Up, 1));
    SendingUp(IDLE, map[1 := NewEnd().(chan := Chan(false, []))], [CREATE], [CREATE], down, [CLOSE], DATA);
    ss, ts := GrowRun(ss, ts, Send(Up, DATA));
  }

  lemma {:induction false} CutBytes()
    ensures Bodies([CREATE, DATA]) == "X"
  {
    BodiesSnoc([], CREATE);
    BodiesSnoc([CREATE], DATA);
    assert [] + [CREATE] == [CREATE] && [CREATE] + [DATA] == [CREATE, DATA];
    assert Bodies([]) == [] && [] + CREATE.body == [] && [] + DATA.body == "X";
  }

  lemma {:induction false} CutState()
    ensures 0 in CUT.up.conns && CUT.up.conns[0].chan.open && Hist(CUT.up.sent, 1) == [CREATE, DATA]
    ensures 1 in CUT.up.ends && CUT.up.ends[1] == NewEnd().(chan := Chan(false, []))
  {
    hide NewEnd;
  }

  lemma {:induction false} NothingAccepted()
    ensures NewEnd().(chan := Chan(false, [])).Accepted() == []
  {
  }

  /** So closing one direction does not leave the other one intact: there is a run, with
      every websocket channel open and none full, after which a byte that was given up
      never reaches the local connection, however the run goes on. */
  lemma {:induction false} LocalUnregisterCuts() returns (ss: seq<System>, ts: seq<Step>)
    ensures IsRun(ss, ts) && DropBridge(Up, 1) in ts && Bodies(Inputs(ts, Up, 1)) == "X"
    ensures 0 in ss[|ts|].up.conns && ss[|ts|].up.conns[0].chan.open
    ensures forall ss': seq<System>, ts': seq<Step>, j: nat :: IsRun(ss', ts') && ss <= ss' && |ts| <= j < |ss'| ==>
              1 in ss'[j].up.ends && ss'[j].up.ends[1].written == []
  {
    ss, ts := CutRun();
    CutState();
    CutBytes();
    NothingAccepted();
    assert ts[|ts| - 2] == ts[|ts| - 3..][1];
    assert ts[..|ts|] == ts;
    SentIsInput(ss, ts, |ts|, Up, 1);
    hide IsRun, CUT;
    forall ss': seq<System>, ts': seq<Step>, j: nat | IsRun(ss', ts') && ss <= ss' && |ts| <= j < |ss'|
      ensures 1 in ss'[j].up.ends && ss'[j].up.ends[1].written == []
    {
      assert ss'[|ts|] == ss[|ts|];
      CutForGood(ss', ts', |ts|, j, Up, 1);
    }
  }
}
