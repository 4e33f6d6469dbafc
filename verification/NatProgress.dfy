/** What was sent can always get through: as long as a client's channel is open and both
    sides know it, its own pumps have a way to write all of it. */
module NatProgress {
  import opened NatTypes
  import opened NatProtocol
  import opened NatSystem
  import opened NatRuns
  import opened NatCut

  /** A step of the pumps of client `c`, or of the bridges `ids`. */
  predicate PumpStep(t: Step, d: Dir, c: nat, ids: set<nat>) {
    || t == TakeChan(d, c) || t == EmitWire(d, c) || t == FetchWire(d, c) || t == Receive(d, c)
    || ((t.PopChunk? || t.WriteChunk?) && t.d == d && t.id in ids)
  }

  predicate PumpSteps(ts: seq<Step>, d: Dir, c: nat, ids: set<nat>) {
    forall i :: 0 <= i < |ts| ==> PumpStep(ts[i], d, c, ids)
  }

  /** Client `c` is known on both sides and its channel open; and `ids` are streams of
      it whose far ends, if there are any yet, are neither cut nor dead. */
  predicate Clear(s: System, d: Dir, c: nat, ids: set<nat>) {
    && c in s.Of(d).conns && s.Of(d).conns[c].chan.open && c in s.Of(Other(d)).conns
    && forall id :: id in ids ==> id in s.owner && s.owner[id] == c && Live(s.Of(d), id)
  }

  ghost predicate Ready(s: System, d: Dir, c: nat, ids: set<nat>) {
    Inv(s) && Clear(s, d, c, ids)
  }

  predicate Live(l: Lane, id: nat) {
    id in l.ends ==> Intact(l.ends[id]) && !l.ends[id].dead
  }

  /** What is under way, weighed by how far it has to go. */
  function Work(x: Conn): nat {
    4 * |x.chan.queue| + 3 * |x.out| + 2 * |x.wire| + |x.inn|
  }

  /** The bridges with something left to write. */
  function Busy(l: Lane, ids: set<nat>): set<nat> {
    set id | id in ids && id in l.ends && (l.ends[id].held != [] || l.ends[id].chan.queue != [])
  }

  ghost predicate AllWritten(s: System, s': System, d: Dir, ids: set<nat>) {
    forall id :: id in ids && Hist(s.Of(d).sent, id) != [] ==>
      id in s'.Of(d).ends && s'.Of(d).ends[id].written == Bodies(Hist(s.Of(d).sent, id))
  }

  // ---- One piece of the way ----

  lemma {:induction false} DrainReady(s: System, d: Dir, c: nat, ids: set<nat>, id: nat) returns (ss: seq<System>, ts: seq<Step>)
    requires Ready(s, d, c, ids) && id in Busy(s.Of(d), ids)
    ensures IsPath(ss, ts) && ss[0] == s && PumpSteps(ts, d, c, ids)
    ensures var s' := ss[|ts|];
            && Ready(s', d, c, ids) && s'.Of(d).sent == s.Of(d).sent && s'.Of(d).conns == s.Of(d).conns
            && Busy(s'.Of(d), ids) < Busy(s.Of(d), ids)
  {
    hide Inv, Enabled, Apply;
    ss, ts := CanDrain(s, d, id);
    PathKeeps(ss, ts, |ts|);
    var s' := ss[|ts|];
    DrainedRest(s, d, id);
    assert Busy(s'.Of(d), ids) == Busy(s.Of(d), ids) - {id};
  }

  lemma {:induction false} PathKeeps(ss: seq<System>, ts: seq<Step>, i: nat)
    requires IsPath(ss, ts) && Inv(ss[0]) && i <= |ts|
    ensures Inv(ss[i])
  {
    hide Inv, Enabled, Apply;
    if i > 0 {
      PathKeeps(ss, ts, i - 1);
      StepKeeps(ss[i - 1], ts[i - 1]);
    }
  }

  lemma {:induction false} DrainedRest(s: System, d: Dir, id: nat)
    requires id in s.Of(d).ends
    ensures var s', e := Drain(s, d, id, Drained(s.Of(d).ends[id])), s.Of(d).ends[id];
            && s'.owner == s.owner && s'.Of(Other(d)) == s.Of(Other(d))
            && s'.Of(d).sent == s.Of(d).sent && s'.Of(d).conns == s.Of(d).conns
            && s'.Of(d).ends == s.Of(d).ends[id := Drained(e)]
            && Drained(e).held == [] && Drained(e).chan.queue == [] && Drained(e).dead == e.dead
            && (Intact(Drained(e)) <==> Intact(e))
  {
  }

  lemma {:induction false} StaysReady(s: System, s': System, d: Dir, c: nat, ids: set<nat>)
    requires Ready(s, d, c, ids) && Inv(s') && s'.owner == s.owner && s'.Of(Other(d)) == s.Of(Other(d))
    requires c in s'.Of(d).conns && s'.Of(d).conns[c].chan.open
    requires forall id :: id in ids ==> Live(s'.Of(d), id)
    ensures Ready(s', d, c, ids)
  {
    hide Inv, Live, System.Of;
  }

  lemma {:induction false} ReadyIs(s: System, d: Dir, c: nat, ids: set<nat>)
    requires Ready(s, d, c, ids)
    ensures Inv(s) && c in s.Of(d).conns && s.Of(d).conns[c].chan.open && c in s.Of(Other(d)).conns
    ensures forall id :: id in ids ==> Live(s.Of(d), id)
  {
    hide Inv, Live, System.Of;
  }

  lemma {:induction false} Moves(s: System, d: Dir, c: nat, t: Step) returns (x: Conn)
    requires Enabled(s, t) && c in s.Of(d).conns
    requires t == TakeChan(d, c) || t == EmitWire(d, c) || t == FetchWire(d, c)
    ensures Apply(s, t) == Move(s, d, c, x) && x.chan.open == s.Of(d).conns[c].chan.open && Work(x) < Work(s.Of(d).conns[c])
  {
    var y := s.Of(d).conns[c];
    x := if t.TakeChan? then Take(y) else if t.EmitWire? then Emit(y) else Fetch(y);
    hide System.Of;
  }

  lemma {:induction false} MovedRest(s: System, d: Dir, c: nat, x: Conn)
    ensures var s' := Move(s, d, c, x);
            && s'.owner == s.owner && s'.Of(Other(d)) == s.Of(Other(d)) && s'.Of(d).sent == s.Of(d).sent
            && s'.Of(d).ends == s.Of(d).ends && c in s'.Of(d).conns && s'.Of(d).conns[c] == x
  {
  }

  lemma {:induction false} LiveByEnds(l: Lane, l': Lane, ids: set<nat>)
    requires l'.ends == l.ends && forall id :: id in ids ==> Live(l, id)
    ensures forall id :: id in ids ==> Live(l', id)
  {
    hide Intact;
  }

  /** A message goes one place further. */
  lemma {:induction false} MoveReady(s: System, d: Dir, c: nat, ids: set<nat>, t: Step)
    requires Ready(s, d, c, ids) && Enabled(s, t)
    requires t == TakeChan(d, c) || t == EmitWire(d, c) || t == FetchWire(d, c)
    ensures c in Apply(s, t).Of(d).conns && c in s.Of(d).conns
    ensures var s' := Apply(s, t);
            Ready(s', d, c, ids) && s'.Of(d).sent == s.Of(d).sent && Work(s'.Of(d).conns[c]) < Work(s.Of(d).conns[c])
  {
    hide *;
    ReadyIs(s, d, c, ids);
    var x := Moves(s, d, c, t);
    MovedRest(s, d, c, x);
    StepKeeps(s, t);
    LiveByEnds(s.Of(d), Apply(s, t).Of(d), ids);
    StaysReady(s, Apply(s, t), d, c, ids);
  }

  /** A message is handled, by a bridge with nothing left to write. */
  lemma {:induction false} ReceiveReady(s: System, d: Dir, c: nat, ids: set<nat>)
    requires Ready(s, d, c, ids) && CanReceive(s, d, c) && Busy(s.Of(d), ids) == {}
    ensures Enabled(s, Receive(d, c)) && c in Apply(s, Receive(d, c)).Of(d).conns && c in s.Of(d).conns
    ensures var s' := Apply(s, Receive(d, c));
            Ready(s', d, c, ids) && s'.Of(d).sent == s.Of(d).sent && Work(s'.Of(d).conns[c]) < Work(s.Of(d).conns[c])
  {
    ReceiveApplied(s, d, c);
    hide *;
    ReadyIs(s, d, c, ids);
    ReceiveRest(s, d, c);
    StepKeeps(s, Receive(d, c));
    var s' := Apply(s, Receive(d, c));
    forall id | id in ids
      ensures Live(s'.Of(d), id)
    {
      ReceiveLive(s, d, c, ids, id);
    }
    StaysReady(s, s', d, c, ids);
  }

  lemma {:induction false} ReceiveRest(s: System, d: Dir, c: nat)
    requires CanReceive(s, d, c)
    ensures var s' := Apply(s, Receive(d, c));
            && s'.owner == s.owner && s'.Of(d).sent == s.Of(d).sent && c in s.Of(d).conns && c in s'.Of(d).conns
            && s'.Of(d).conns[c].chan == s.Of(d).conns[c].chan && Work(s'.Of(d).conns[c]) < Work(s.Of(d).conns[c])
  {
    ReceiveApplied(s, d, c);
    ReceiveKeepsConns(s.Of(d), d, c);
    SentUntouched(s, Receive(d, c), d);
    ReceiveOwner(s, d, c);
    assert s.Of(d).conns[c].inn != [];
    hide Apply, Enabled, ReceiveMsg, System.Of;
  }

  lemma {:induction false} ReceiveOwner(s: System, d: Dir, c: nat)
    requires CanReceive(s, d, c)
    ensures Apply(s, Receive(d, c)).owner == s.owner
  {
    hide ReceiveMsg;
  }

  lemma {:induction false} ReceiveLive(s: System, d: Dir, c: nat, ids: set<nat>, id: nat)
    requires Ready(s, d, c, ids) && CanReceive(s, d, c) && Busy(s.Of(d), ids) == {} && id in ids
    ensures Live(ReceiveMsg(s.Of(d), d, c), id)
  {
    FrontMessage(s, d, c);
    var l, m := s.Of(d), s.Of(d).conns[c].inn[0];
    if id in l.ends {
      ReceiveEnds(s, d, c, id);
      assert id !in Busy(l, ids);
      HandleLive(l.ends[id], m);
    } else {
      hide Inv, Conn.Pipe;
    }
  }

  lemma {:induction false} HandleLive(e: End, m: Message)
    requires Intact(e) && e.chan.queue == []
    ensures Intact(HandleEnd(e, m)) && HandleEnd(e, m).dead == e.dead
  {
    HandleIntact(e, m);
  }

  lemma {:induction false} AcceptedAll(l: Lane, owner: map<nat, nat>, id: nat)
    requires LaneInv(l, owner) && id in owner && owner[id] in l.conns && l.conns[owner[id]].chan.open
    requires l.conns[owner[id]].Pipe() == [] && Live(l, id) && Hist(l.sent, id) != []
    ensures id in l.ends && l.ends[id].Accepted() == Bodies(Hist(l.sent, id))
  {
    hide SentOk, End.Accepted, Bodies;
    assert IdOk(l, owner, id);
    assert l.recv[id] + [] == l.recv[id] == l.sent[id];
  }

  lemma {:induction false} NothingLeftOf(l: Lane, owner: map<nat, nat>, c: nat, ids: set<nat>, id: nat)
    requires LaneInv(l, owner) && c in l.conns && l.conns[c].chan.open && Work(l.conns[c]) == 0 && Busy(l, ids) == {}
    requires id in ids && id in owner && owner[id] == c && Live(l, id) && Hist(l.sent, id) != []
    ensures id in l.ends && l.ends[id].written == Bodies(Hist(l.sent, id))
  {
    assert l.conns[c].Pipe() == [];
    AcceptedAll(l, owner, id);
    assert id !in Busy(l, ids);
    hide LaneInv, Live, Bodies;
    DrainedIsWritten(l.ends[id]);
  }

  lemma {:induction false} LaneOf(s: System, d: Dir)
    requires Inv(s)
    ensures LaneInv(s.Of(d), s.owner)
  {
    hide LaneInv, CrossOk;
  }

  lemma {:induction false} NothingLeftIn(s: System, d: Dir, c: nat, ids: set<nat>, id: nat)
    requires Ready(s, d, c, ids) && Work(s.Of(d).conns[c]) == 0 && Busy(s.Of(d), ids) == {}
    requires id in ids && Hist(s.Of(d).sent, id) != []
    ensures id in s.Of(d).ends && s.Of(d).ends[id].written == Bodies(Hist(s.Of(d).sent, id))
  {
    LaneOf(s, d);
    assert id in s.owner && s.owner[id] == c && Live(s.Of(d), id);
    ReadyIs(s, d, c, ids);
    hide *;
    NothingLeftOf(s.Of(d), s.owner, c, ids, id);
  }

  /** With nothing under way and nothing left to write, all is written. */
  lemma {:induction false} NothingLeft(s: System, d: Dir, c: nat, ids: set<nat>)
    requires Ready(s, d, c, ids) && Work(s.Of(d).conns[c]) == 0 && Busy(s.Of(d), ids) == {}
    ensures AllWritten(s, s, d, ids)
  {
    assert AllWritten(s, s, d, ids) <==> forall id :: id in ids && Hist(s.Of(d).sent, id) != [] ==>
             id in s.Of(d).ends && s.Of(d).ends[id].written == Bodies(Hist(s.Of(d).sent, id)) by {
      hide Ready, Bodies, Hist, System.Of;
    }
    hide *;
    forall id | id in ids && Hist(s.Of(d).sent, id) != []
      ensures id in s.Of(d).ends && s.Of(d).ends[id].written == Bodies(Hist(s.Of(d).sent, id))
    {
      NothingLeftIn(s, d, c, ids, id);
    }
  }

  // ---- The whole way ----

  lemma {:induction false} JoinPaths(a: seq<System>, at: seq<Step>, b: seq<System>, bt: seq<Step>)
    requires IsPath(a, at) && IsPath(b, bt) && a[|at|] == b[0]
    ensures IsPath(a + b[1..], at + bt) && |a + b[1..]| == |at + bt| + 1 && (a + b[1..])[|at + bt|] == b[|bt|] && (a + b[1..])[0] == a[0]
  {
    hide Enabled, Apply;
    var ss, ts := a + b[1..], at + bt;
    forall i | 0 <= i < |ts|
      ensures Enabled(ss[i], ts[i]) && ss[i + 1] == Apply(ss[i], ts[i])
    {
      if i < |at| {
        assert ss[i] == a[i] && ss[i + 1] == a[i + 1] && ts[i] == at[i];
      } else {
        assert ss[i] == b[i - |at|] && ss[i + 1] == b[i - |at| + 1] && ts[i] == bt[i - |at|];
      }
    }
  }

  /** Where the message that has come furthest can go. */
  lemma {:induction false} NextMove(s: System, d: Dir, c: nat) returns (t: Step)
    requires c in s.Of(d).conns && c in s.Of(Other(d)).conns && Work(s.Of(d).conns[c]) > 0
    ensures Enabled(s, t) && (t == Receive(d, c) || t == TakeChan(d, c) || t == EmitWire(d, c) || t == FetchWire(d, c))
    ensures t.Receive? ==> CanReceive(s, d, c)
  {
    var x := s.Of(d).conns[c];
    t := if x.inn != [] then Receive(d, c)
         else if x.wire != [] then FetchWire(d, c)
         else if x.out != [] then EmitWire(d, c) else TakeChan(d, c);
    hide System.Of;
  }

  lemma {:induction false} OneStepPath(s: System, t: Step) returns (ss: seq<System>, ts: seq<Step>)
    requires Enabled(s, t)
    ensures IsPath(ss, ts) && ss == [s, Apply(s, t)] && ts == [t]
  {
    hide Enabled, Apply;
    ss, ts := [s, Apply(s, t)], [t];
  }

  lemma {:induction false} PumpStepIs(t: Step, d: Dir, c: nat, ids: set<nat>)
    requires t == Receive(d, c) || t == TakeChan(d, c) || t == EmitWire(d, c) || t == FetchWire(d, c)
    ensures PumpSteps([t], d, c, ids)
  {
  }

  /** The next piece of the way. */
  lemma {:induction false} Advance(s: System, d: Dir, c: nat, ids: set<nat>) returns (ss: seq<System>, ts: seq<Step>)
    requires Ready(s, d, c, ids) && (Work(s.Of(d).conns[c]) > 0 || Busy(s.Of(d), ids) != {})
    ensures IsPath(ss, ts) && |ss| == |ts| + 1 && ss[0] == s && PumpSteps(ts, d, c, ids)
    ensures Ready(ss[|ts|], d, c, ids) && c in s.Of(d).conns && c in ss[|ts|].Of(d).conns
    ensures var s' := ss[|ts|];
            && s'.Of(d).sent == s.Of(d).sent
            && (Work(s'.Of(d).conns[c]) < Work(s.Of(d).conns[c])
                || (s'.Of(d).conns == s.Of(d).conns && Busy(s'.Of(d), ids) < Busy(s.Of(d), ids)))
  {
    ReadyIs(s, d, c, ids);
    if Busy(s.Of(d), ids) != {} {
      var id :| id in Busy(s.Of(d), ids);
      ss, ts := DrainReady(s, d, c, ids, id);
      hide Ready, Inv, Enabled, Apply, Busy, Work, PumpSteps;
    } else {
      hide *;
      var t := NextMove(s, d, c);
      if t.Receive? {
        ReceiveReady(s, d, c, ids);
      } else {
        MoveReady(s, d, c, ids, t);
      }
      PumpStepIs(t, d, c, ids);
      ss, ts := OneStepPath(s, t);
    }
  }

  lemma {:induction false} JoinSteps(a: seq<Step>, b: seq<Step>, d: Dir, c: nat, ids: set<nat>)
    requires PumpSteps(a, d, c, ids) && PumpSteps(b, d, c, ids)
    ensures PumpSteps(a + b, d, c, ids)
  {
    hide PumpStep;
  }

  lemma {:induction false} WrittenAfter(s: System, s1: System, s': System, d: Dir, ids: set<nat>)
    requires AllWritten(s1, s', d, ids) && s1.Of(d).sent == s.Of(d).sent
    ensures AllWritten(s, s', d, ids)
  {
    hide System.Of;
  }

  /** From any state the pumps of an open client have a way to write all that was sent
      on its streams, draining each bridge before they hand it more. */
  lemma {:induction false} CanDeliver(s: System, d: Dir, c: nat, ids: set<nat>) returns (ss: seq<System>, ts: seq<Step>)
    requires Ready(s, d, c, ids)
    ensures IsPath(ss, ts) && |ss| == |ts| + 1 && ss[0] == s && PumpSteps(ts, d, c, ids)
    ensures AllWritten(s, ss[|ts|], d, ids)
    decreases Work(s.Of(d).conns[c]), Busy(s.Of(d), ids)
  {
    ReadyIs(s, d, c, ids);
    if Work(s.Of(d).conns[c]) == 0 && Busy(s.Of(d), ids) == {} {
      NothingLeft(s, d, c, ids);
      return [s], [];
    }
    hide *;
    var first, at := Advance(s, d, c, ids);
    var rest, bt := CanDeliver(first[|at|], d, c, ids);
    JoinPaths(first, at, rest, bt);
    JoinSteps(at, bt, d, c, ids);
    WrittenAfter(s, first[|at|], rest[|bt|], d, ids);
    ss, ts := first + rest[1..], at + bt;
  }

  /** So every run in which such a client is open, on a state reached in any way, goes
      on to one in which all that its bridges were given has reached the far
      connections. */
  lemma {:induction false} RunCanDeliver(ss: seq<System>, ts: seq<Step>, d: Dir, c: nat, ids: set<nat>)
    returns (ss': seq<System>, ts': seq<Step>)
    requires IsRun(ss, ts) && Clear(ss[|ts|], d, c, ids)
    ensures IsRun(ss', ts') && |ss'| == |ts'| + 1 && ts <= ts' && PumpSteps(ts'[|ts|..], d, c, ids)
    ensures forall id :: id in ids && Inputs(ts, d, id) != [] ==>
              id in ss'[|ts'|].Of(d).ends && ss'[|ts'|].Of(d).ends[id].written == Bodies(Inputs(ts, d, id))
  {
    hide Inv, Apply, Enabled, Clear, PumpStep, Inputs;
    RunInv(ss, ts, |ts|);
    var rest, bt := CanDeliver(ss[|ts|], d, c, ids);
    JoinPaths(ss, ts, rest, bt);
    ss', ts' := ss + rest[1..], ts + bt;
    assert ts'[|ts|..] == bt && ts[..|ts|] == ts;
    forall id: nat
      ensures Hist(ss[|ts|].Of(d).sent, id) == Inputs(ts, d, id)
    {
      SentIsInput(ss, ts, |ts|, d, id);
    }
  }
}
