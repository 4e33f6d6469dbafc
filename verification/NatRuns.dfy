/** What holds over every run of the multiplexer. */
module NatRuns {
  import opened Bytes
  import opened NatTypes
  import opened NatProtocol
  import opened NatSystem

  ghost predicate IsPath(ss: seq<System>, ts: seq<Step>) {
    && |ss| == |ts| + 1
    && forall i :: 0 <= i < |ts| ==> Enabled(ss[i], ts[i]) && ss[i + 1] == Apply(ss[i], ts[i])
  }

  ghost predicate IsRun(ss: seq<System>, ts: seq<Step>) {
    IsPath(ss, ts) && ss[0] == INIT
  }

  /** What the bridge of `id` was given in direction `d`: the messages of its own
      `Open`, `Write` and `CloseWrite` calls, in order. */
  function Inputs(ts: seq<Step>, d: Dir, id: nat): seq<Message> {
    if ts == [] then []
    else
      var t := ts[|ts| - 1];
      Inputs(ts[..|ts| - 1], d, id) + if t.Send? && t.d == d && t.m.id == id then [t.m] else []
  }

  lemma {:induction false} RunInv(ss: seq<System>, ts: seq<Step>, i: nat)
    requires IsRun(ss, ts) && i < |ss|
    ensures Inv(ss[i])
  {
    if i > 0 {
      RunInv(ss, ts, i - 1);
      StepKeeps(ss[i - 1], ts[i - 1]);
    }
  }

  lemma {:induction false} SentUntouched(s: System, t: Step, d: Dir)
    requires Enabled(s, t) && !t.Send? && !t.Accept?
    ensures Apply(s, t).Of(d).sent == s.Of(d).sent
  {
  }

  lemma {:induction false} NotSentYet(s: System, added: nat)
    requires Inv(s) && added !in s.owner
    ensures added !in s.up.sent && added !in s.down.sent
  {
    Domains(s);
    hide *;
  }

  lemma {:induction false} AcceptSendsNothing(s: System, added: nat, c: nat, d: Dir, id: nat)
    requires added !in s.up.sent && added !in s.down.sent
    ensures Hist(AcceptStream(s, added, c).Of(d).sent, id) == Hist(s.Of(d).sent, id)
  {
  }

  lemma {:induction false} SentStep(s: System, t: Step, d: Dir, id: nat)
    requires Inv(s) && Enabled(s, t)
    ensures Hist(Apply(s, t).Of(d).sent, id)
            == Hist(s.Of(d).sent, id) + if t.Send? && t.d == d && t.m.id == id then [t.m] else []
  {
    hide Inv, AcceptStream, CanSend;
    match t
    case Send(_, _) =>
    case Accept(added, c) =>
      NotSentYet(s, added);
      AcceptSendsNothing(s, added, c, d, id);
    case _ => SentUntouched(s, t, d);
  }

  /** The history of a bridge is what it was given. */
  lemma {:induction false} SentIsInput(ss: seq<System>, ts: seq<Step>, i: nat, d: Dir, id: nat)
    requires IsRun(ss, ts) && i < |ss|
    ensures Hist(ss[i].Of(d).sent, id) == Inputs(ts[..i], d, id)
  {
    hide Inv, Apply, Enabled;
    if i > 0 {
      SentIsInput(ss, ts, i - 1, d, id);
      RunInv(ss, ts, i - 1);
      SentStep(ss[i - 1], ts[i - 1], d, id);
      assert ts[..i][..i - 1] == ts[..i - 1];
    }
  }

  lemma {:induction false} ReceivedIsPrefix(s: System, d: Dir, id: nat)
    requires Inv(s) && id in s.Of(d).ends
    ensures id in s.owner && id in s.Of(d).sent && id in s.Of(d).recv
    ensures s.Of(d).recv[id] <= s.Of(d).sent[id] && EndOk(s.Of(d).ends[id], s.Of(d).sent[id], s.Of(d).recv[id])
  {
    assert LaneInv(s.Of(d), s.owner) by { hide LaneInv, CrossOk; }
    hide Inv, LaneInv;
    LaneReceived(s.Of(d), s.owner, id);
  }

  lemma {:induction false} LaneReceived(l: Lane, owner: map<nat, nat>, id: nat)
    requires LaneInv(l, owner) && id in l.ends
    ensures id in owner && id in l.sent && id in l.recv && l.recv[id] <= l.sent[id] && EndOk(l.ends[id], l.sent[id], l.recv[id])
  {
    hide EndOk, SentOk;
    assert IdOk(l, owner, id);
  }

  lemma {:induction false} WrittenIsPrefix(s: System, d: Dir, id: nat)
    requires Inv(s) && id in s.Of(d).ends
    ensures var e := s.Of(d).ends[id];
            e.written <= e.Accepted() <= Bodies(Hist(s.Of(d).sent, id))
  {
    hide Inv, Bodies;
    ReceivedIsPrefix(s, d, id);
    var e := s.Of(d).ends[id];
    BodiesPrefix(s.Of(d).recv[id], s.Of(d).sent[id]);
    Assoc(e.written, Concat(e.held), Concat(e.chan.queue));
  }

  /** In every interleaving, for every ID and both directions: what has reached the
      far connection is a prefix of the bytes given to that ID's own bridge.  No gap,
      no reordering, no repetition, no byte of another stream. */
  lemma {:induction false} DeliveredInOrder(ss: seq<System>, ts: seq<Step>, i: nat, d: Dir, id: nat)
    requires IsRun(ss, ts) && i < |ss| && id in ss[i].Of(d).ends
    ensures ss[i].Of(d).ends[id].written <= Bodies(Inputs(ts[..i], d, id))
  {
    RunInv(ss, ts, i);
    WrittenIsPrefix(ss[i], d, id);
    SentIsInput(ss, ts, i, d, id);
  }

  /** `e'` is as closed as `e` was and has accepted nothing more. */
  ghost predicate Frozen(e: End, e': End) {
    !e'.chan.open && e'.Accepted() == e.Accepted() && e'.finished == e.finished
  }

  lemma {:induction false} FrozenReceive(s: System, t: Step, d: Dir, id: nat)
    requires Inv(s) && Enabled(s, t) && t.Receive? && id in s.Of(d).ends && !s.Of(d).ends[id].chan.open
    ensures id in Apply(s, t).Of(d).ends && Frozen(s.Of(d).ends[id], Apply(s, t).Of(d).ends[id])
  {
    hide Inv, End.Accepted, Conn.Pipe;
    FrontMessage(s, t.d, t.c);
  }

  lemma {:induction false} EndOwned(s: System, d: Dir, id: nat)
    requires Inv(s) && id in s.Of(d).ends
    ensures id in s.owner
  {
    Domains(s);
    hide Inv;
  }

  lemma {:induction false} AcceptAddsEnd(s: System, added: nat, c: nat, d: Dir, id: nat)
    requires id in s.Of(d).ends && id != added
    ensures id in AcceptStream(s, added, c).Of(d).ends && AcceptStream(s, added, c).Of(d).ends[id] == s.Of(d).ends[id]
  {
  }

  lemma {:induction false} FrozenAccept(s: System, t: Step, d: Dir, id: nat)
    requires Inv(s) && Enabled(s, t) && t.Accept? && id in s.Of(d).ends && !s.Of(d).ends[id].chan.open
    ensures id in Apply(s, t).Of(d).ends && Frozen(s.Of(d).ends[id], Apply(s, t).Of(d).ends[id])
  {
    EndOwned(s, d, id);
    assert Apply(s, t) == AcceptStream(s, t.id, t.c) && t.id !in s.owner;
    hide Inv, Apply, Enabled, AcceptStream, End.Accepted;
    AcceptAddsEnd(s, t.id, t.c, d, id);
  }

  lemma {:induction false} EndsUntouched(s: System, t: Step, d: Dir)
    requires Enabled(s, t)
    requires t.Register? || t.Unregister? || t.Send? || t.TakeChan? || t.EmitWire? || t.FetchWire?
    ensures Apply(s, t).Of(d).ends == s.Of(d).ends
  {
  }

  lemma {:induction false} DropAccepts(e: End)
    ensures e.(chan := e.chan.(open := false)).Accepted() == e.Accepted()
  {
  }

  lemma {:induction false} FrozenEnd(s: System, t: Step, d: Dir, id: nat)
    requires Enabled(s, t) && (t.DropBridge? || t.PopChunk? || t.WriteChunk?)
    requires id in s.Of(d).ends && !s.Of(d).ends[id].chan.open
    ensures id in Apply(s, t).Of(d).ends && Frozen(s.Of(d).ends[id], Apply(s, t).Of(d).ends[id])
  {
    var e := s.Of(t.d).ends[t.id];
    DropAccepts(e);
    hide End.Accepted, HandleEnd;
    match t
    case DropBridge(_, _) =>
    case PopChunk(_, _) => PopKeeps(e);
    case WriteChunk(_, _, k) => WriteKeeps(e, k);
  }

  /** A closed bridge never opens again and never accepts another byte. */
  lemma {:induction false} FrozenStep(s: System, t: Step, d: Dir, id: nat)
    requires Inv(s) && Enabled(s, t) && id in s.Of(d).ends && !s.Of(d).ends[id].chan.open
    ensures id in Apply(s, t).Of(d).ends && Frozen(s.Of(d).ends[id], Apply(s, t).Of(d).ends[id])
  {
    hide Inv, End.Accepted, Apply, Enabled;
    if t.Receive? {
      FrozenReceive(s, t, d, id);
    } else if t.Accept? {
      FrozenAccept(s, t, d, id);
    } else if t.DropBridge? || t.PopChunk? || t.WriteChunk? {
      FrozenEnd(s, t, d, id);
    } else {
      EndsUntouched(s, t, d);
    }
  }

  lemma {:induction false} FrozenPath(ss: seq<System>, ts: seq<Step>, i: nat, j: nat, d: Dir, id: nat)
    requires IsRun(ss, ts) && i <= j < |ss| && id in ss[i].Of(d).ends && !ss[i].Of(d).ends[id].chan.open
    ensures id in ss[j].Of(d).ends && Frozen(ss[i].Of(d).ends[id], ss[j].Of(d).ends[id])
    decreases j
  {
    hide Apply, Enabled, Inv;
    if i < j {
      FrozenPath(ss, ts, i, j - 1, d, id);
      RunInv(ss, ts, j - 1);
      FrozenStep(ss[j - 1], ts[j - 1], d, id);
    }
  }

  /** A half-close: if the close message finds its bridge registered, every byte the
      sender ever wrote has been accepted; the queue still drains, and once it has,
      exactly those bytes have been written.  The other direction is not touched. */
  lemma {:induction false} CloseDeliversAll(ss: seq<System>, ts: seq<Step>, i: nat, j: nat, d: Dir, c: nat)
    requires IsRun(ss, ts) && i < |ts| && i < j < |ss| && ts[i] == Receive(d, c) && CanReceive(ss[i], d, c)
    requires var m := ss[i].Of(d).conns[c].inn[0];
             m.kind == Close && m.id in ss[i].Of(d).ends && ss[i].Of(d).ends[m.id].chan.open
    ensures var id := ss[i].Of(d).conns[c].inn[0].id;
            && id in ss[j].Of(d).ends
            && var e, all := ss[j].Of(d).ends[id], Bodies(Inputs(ts[..j], d, id));
               && !e.chan.open && e.Accepted() == all
               && (e.chan.queue == [] && e.held == [] ==> e.written == all)
    ensures ss[i + 1].Of(Other(d)) == ss[i].Of(Other(d))
  {
    var id := ss[i].Of(d).conns[c].inn[0].id;
    RunInv(ss, ts, i);
    RunInv(ss, ts, i + 1);
    RunInv(ss, ts, j);
    CloseHandled(ss[i], d, c);
    FrozenPath(ss, ts, i + 1, j, d, id);
    assert ss[i + 1] == Apply(ss[i], ts[i]);
    hide *;
    ReceivedIsPrefix(ss[j], d, id);
    FinishedIsAll(ss[j].Of(d).ends[id], ss[j].Of(d).sent[id], ss[j].Of(d).recv[id]);
    SentIsInput(ss, ts, j, d, id);
    HistIs(ss[j].Of(d).sent, id);
    FrozenIs(ss[i + 1].Of(d).ends[id], ss[j].Of(d).ends[id]);
    DrainedIsWritten(ss[j].Of(d).ends[id]);
  }

  lemma {:induction false} CloseHandled(s: System, d: Dir, c: nat)
    requires CanReceive(s, d, c)
    requires var m := s.Of(d).conns[c].inn[0]; m.kind == Close && m.id in s.Of(d).ends && s.Of(d).ends[m.id].chan.open
    ensures var s', id := Apply(s, Receive(d, c)), s.Of(d).conns[c].inn[0].id;
            id in s'.Of(d).ends && !s'.Of(d).ends[id].chan.open && s'.Of(d).ends[id].finished
    ensures Apply(s, Receive(d, c)).Of(Other(d)) == s.Of(Other(d))
  {
    var l := s.Of(d);
    var m := l.conns[c].inn[0];
    assert ReceiveMsg(l, d, c) == Deliver(l, c);
    assert Deliver(l, c).ends == l.ends[m.id := HandleEnd(l.ends[m.id], m)];
    assert Apply(s, Receive(d, c)) == s.With(d, Deliver(l, c));
    hide Deliver, ReceiveMsg, Apply;
  }

  lemma {:induction false} FinishedIsAll(e: End, sent: seq<Message>, recv: seq<Message>)
    requires EndOk(e, sent, recv)
    ensures e.finished ==> !e.chan.open && e.Accepted() == Bodies(sent)
  {
  }

  lemma {:induction false} HistIs(h: map<nat, seq<Message>>, id: nat)
    ensures id in h ==> Hist(h, id) == h[id]
  {
  }

  lemma {:induction false} FrozenIs(e: End, e': End)
    ensures Frozen(e, e') ==> e'.finished == e.finished && !e'.chan.open
  {
  }

  lemma {:induction false} DrainedIsWritten(e: End)
    ensures e.chan.queue == [] && e.held == [] ==> e.written == e.Accepted()
  {
  }

  /** Any other closing cuts the stream for good: the bytes accepted so far are all
      that will ever be written, whatever is sent later. */
  lemma {:induction false} CutForGood(ss: seq<System>, ts: seq<Step>, i: nat, j: nat, d: Dir, id: nat)
    requires IsRun(ss, ts) && i <= j < |ss| && id in ss[i].Of(d).ends && !ss[i].Of(d).ends[id].chan.open
    ensures id in ss[j].Of(d).ends && ss[j].Of(d).ends[id].written <= ss[i].Of(d).ends[id].Accepted()
  {
    RunInv(ss, ts, j);
    FrozenPath(ss, ts, i, j, d, id);
    WrittenIsPrefix(ss[j], d, id);
  }

  /** An end with all it accepted written. */
  function Drained(e: End): End {
    e.(written := e.Accepted(), held := [], chan := e.chan.(queue := []))
  }

  lemma {:induction false} DrainedIs(e: End)
    ensures e.held == [] && e.chan.queue == [] ==> Drained(e) == e
    ensures Drained(e).written == e.Accepted()
  {
  }

  lemma {:induction false} DrainTwice(s: System, d: Dir, id: nat, e: End, e': End)
    requires id in s.Of(d).ends
    ensures Drain(Drain(s, d, id, e), d, id, e') == Drain(s, d, id, e') && Drain(s, d, id, s.Of(d).ends[id]) == s
    ensures id in Drain(s, d, id, e).Of(d).ends && Drain(s, d, id, e).Of(d).ends[id] == e
  {
    assert s.Of(d).ends[id := s.Of(d).ends[id]] == s.Of(d).ends;
  }

  lemma {:induction false} DrainStep(s: System, d: Dir, id: nat) returns (t: Step, e': End)
    requires id in s.Of(d).ends && !s.Of(d).ends[id].dead
    requires |s.Of(d).ends[id].held| <= 1
    requires s.Of(d).ends[id].held != [] || s.Of(d).ends[id].chan.queue != []
    ensures Enabled(s, t) && Apply(s, t) == Drain(s, d, id, e')
    ensures t == PopChunk(d, id) || (t.WriteChunk? && t.d == d && t.id == id)
    ensures var e := s.Of(d).ends[id];
            Drained(e') == Drained(e) && !e'.dead && 2 * |e'.chan.queue| + |e'.held| < 2 * |e.chan.queue| + |e.held|
  {
    hide End.Accepted;
    var e := s.Of(d).ends[id];
    if e.held != [] {
      WriteKeeps(e, |e.held[0]|);
      return WriteChunk(d, id, |e.held[0]|), Write(e, |e.held[0]|);
    }
    PopKeeps(e);
    t, e' := PopChunk(d, id), Pop(e);
  }

  /** A live pump can always drain its channel, closed or not, with no help from
      anyone: a path of its own steps leads to everything accepted being written, and
      to no other change. */
  lemma {:induction false} CanDrain(s: System, d: Dir, id: nat) returns (ss: seq<System>, ts: seq<Step>)
    requires Inv(s) && id in s.Of(d).ends && !s.Of(d).ends[id].dead
    ensures IsPath(ss, ts) && ss[0] == s
    ensures forall i :: 0 <= i < |ts| ==> ts[i] == PopChunk(d, id) || (ts[i].WriteChunk? && ts[i].d == d && ts[i].id == id)
    ensures ss[|ts|] == Drain(s, d, id, Drained(s.Of(d).ends[id]))
    decreases 2 * |s.Of(d).ends[id].chan.queue| + |s.Of(d).ends[id].held|
  {
    hide Inv, Drained, Apply, Enabled, Drain;
    var e := s.Of(d).ends[id];
    if e.held == [] && e.chan.queue == [] {
      DrainedIs(e);
      DrainTwice(s, d, id, e, e);
      return [s], [];
    }
    EndBounds(s, d, id);
    var t, e' := DrainStep(s, d, id);
    DrainTwice(s, d, id, e', Drained(e));
    StepKeeps(s, t);
    var rest, more := CanDrain(Apply(s, t), d, id);
    ss, ts := [s] + rest, [t] + more;
  }

  /** In every run a message that was read off a websocket can be handled at once,
      whatever the channel of its bridge holds: hubs wait for no consumer. */
  lemma {:induction false} ReceiverNeverWaits(ss: seq<System>, ts: seq<Step>, i: nat, d: Dir, c: nat)
    requires IsRun(ss, ts) && i < |ss|
    ensures Enabled(ss[i], Receive(d, c)) <==> c in ss[i].Of(d).conns && ss[i].Of(d).conns[c].inn != []
  {
    KnownRun(ss, ts, i);
  }

  lemma {:induction false} KnownRun(ss: seq<System>, ts: seq<Step>, i: nat)
    requires IsRun(ss, ts) && i < |ss|
    ensures Known(ss[i])
  {
    hide Apply, Enabled;
    if i > 0 {
      KnownRun(ss, ts, i - 1);
      KnownStep(ss[i - 1], ts[i - 1]);
    }
  }
}
