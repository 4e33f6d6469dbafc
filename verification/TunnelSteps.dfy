/** The two pumps of one request side by side, after `copyBuffer` and `transfer` in
    proto/tunnel.go: each turn of either is one step, and keeping a packet is one with
    setting the state to idle. */
module TunnelSteps {
  import opened Bytes
  import opened KeepAlive

  /** The shared state; what the request pump has still to read and has handed to the
      server, and the packet it kept; what the response pump has still to read and has
      handed to the client; which pumps are done; whether the client's connection was
      closed; and how often a next request was started. */
  datatype Both = Both(cur: State, ahead: Bytes, sent: Bytes, kept: Bytes, requestDone: bool,
                       answer: Bytes, given: Bytes, responseDone: bool, closed: bool, started: nat)

  function Start(stream: Bytes, bytes: Bytes): Both {
    Both(StateActive, stream, [], [], false, bytes, [], false, false, 0)
  }

  /** Of the request pump: a packet of `n` bytes is forwarded as `now`, or kept as that,
      `lost` more having been taken and `told` to the client in looking at it; the client
      ends; a packet finds the server broken.  Of the response pump: `n` bytes are handed
      on, or find the client broken; the server fails; the server ends. */
  datatype Step =
    | Forward(n: nat, now: Bytes, lost: nat, told: Bytes)
    | Switch(n: nat, now: Bytes, lost: nat)
    | EndOfClient
    | ServerBreaks(n: nat)
    | Respond(n: nat)
    | ClientBreaks(n: nat)
    | ServerFails
    | EndOfServer

  predicate OfRequest(t: Step) {
    t.Forward? || t.Switch? || t.EndOfClient? || t.ServerBreaks?
  }

  /** Nothing is read from a connection that was closed. */
  predicate Enabled(s: Both, t: Step) {
    match t
    case Forward(n, now, lost, told) => !s.requestDone && !s.closed && 0 < n == |now| && n + lost <= |s.ahead|
    case Switch(n, now, lost) => !s.requestDone && !s.closed && 0 < n == |now| && n + lost <= |s.ahead|
    case EndOfClient => !s.requestDone && (s.ahead == [] || s.closed)
    case ServerBreaks(n) => !s.requestDone && !s.closed && 0 < n <= |s.ahead|
    case Respond(n) => !s.responseDone && 0 < n <= |s.answer|
    case ClientBreaks(n) => !s.responseDone && 0 < n <= |s.answer|
    case ServerFails => !s.responseDone
    case EndOfServer => !s.responseDone && s.answer == []
  }

  /** What the server's end does: it starts the next request if one is kept, and closes a
      client that has neither ended nor switched. */
  function AtServerEnd(s: Both): Both {
    if s.cur == StateIdle then s.(responseDone := true, started := s.started + 1)
    else s.(responseDone := true, closed := s.cur != StateClosed || s.closed)
  }

  function Apply(s: Both, t: Step): Both
    requires Enabled(s, t)
  {
    match t
    case Forward(n, now, lost, told) => s.(ahead := s.ahead[n + lost..], sent := s.sent + now, given := s.given + told)
    case Switch(n, now, lost) => s.(ahead := s.ahead[n + lost..], kept := now, cur := StateIdle, requestDone := true)
    case EndOfClient => s.(cur := StateClosed, requestDone := true)
    case ServerBreaks(n) => s.(ahead := s.ahead[n..], sent := s.sent + s.ahead[..n], requestDone := true)
    case Respond(n) => s.(answer := s.answer[n..], given := s.given + s.answer[..n])
    case ClientBreaks(n) => s.(answer := s.answer[n..], given := s.given + s.answer[..n], responseDone := true)
    case ServerFails => s.(responseDone := true)
    case EndOfServer => AtServerEnd(s)
  }

  ghost predicate IsRun(ss: seq<Both>, ts: seq<Step>, stream: Bytes, bytes: Bytes) {
    && |ss| == |ts| + 1 && ss[0] == Start(stream, bytes)
    && forall i :: 0 <= i < |ts| ==> Enabled(ss[i], ts[i]) && ss[i + 1] == Apply(ss[i], ts[i])
  }

  /** A next request is started at most once, at a state the request pump has left and
      with all of the answer handed on; a connection is closed only with the pumps of an
      answer done, and then none is. */
  predicate Inv(s: Both) {
    && (s.cur == StateActive || s.cur == StateIdle || s.cur == StateClosed)
    && (s.cur != StateActive ==> s.requestDone) && (s.closed ==> s.responseDone && s.cur != StateIdle && s.started == 0)
    && (s.started > 0 ==> s.started == 1 && s.cur == StateIdle && s.responseDone && s.answer == [])
    && (s.cur == StateClosed ==> s.ahead == [] || s.closed)
    && (s.cur == StateIdle <==> s.kept != [])
  }

  lemma {:induction false} StepKeeps(s: Both, t: Step)
    requires Inv(s) && Enabled(s, t)
    ensures Inv(Apply(s, t))
  {
  }

  lemma {:induction false} RunKeeps(ss: seq<Both>, ts: seq<Step>, stream: Bytes, bytes: Bytes, i: nat)
    requires IsRun(ss, ts, stream, bytes) && i < |ss|
    ensures Inv(ss[i])
  {
    hide Enabled, Apply;
    if i > 0 {
      RunKeeps(ss, ts, stream, bytes, i - 1);
      StepKeeps(ss[i - 1], ts[i - 1]);
    }
  }

  // ---- The next request ----

  /** In every interleaving at most one next request is started; when it is, the request
      pump has kept its packet and let go, the answer was handed on to its end, the
      client was not closed, and neither pump can take a step any more: the connection
      is the next request's alone. */
  lemma {:induction false} StartsOnceAlone(ss: seq<Both>, ts: seq<Step>, stream: Bytes, bytes: Bytes, i: nat)
    requires IsRun(ss, ts, stream, bytes) && i < |ss|
    ensures ss[i].started <= 1
    ensures ss[i].started == 1 ==>
              && ss[i].requestDone && ss[i].kept != [] && ss[i].answer == [] && !ss[i].closed
              && i == |ts| && forall t :: !Enabled(ss[i], t)
  {
    RunKeeps(ss, ts, stream, bytes, i);
    if i < |ts| {
      assert Enabled(ss[i], ts[i]);
    }
  }

  /** A look at a packet that speaks for itself, or none. */
  predicate Calm(s: Both, t: Step)
    requires Enabled(s, t)
  {
    && (t.Forward? ==> t.now == s.ahead[..t.n] && t.lost == 0 && t.told == [])
    && (t.Switch? ==> t.now == s.ahead[..t.n] && t.lost == 0)
  }

  ghost predicate CalmRun(ss: seq<Both>, ts: seq<Step>, stream: Bytes, bytes: Bytes) {
    IsRun(ss, ts, stream, bytes) && forall i :: 0 <= i < |ts| ==> Calm(ss[i], ts[i])
  }

  /** Then nothing is lost or repeated either way, at any moment; and a next request
      starts right behind what was forwarded and the whole answer. */
  lemma {:induction false} NothingLost(ss: seq<Both>, ts: seq<Step>, stream: Bytes, bytes: Bytes, i: nat)
    requires CalmRun(ss, ts, stream, bytes) && i < |ss|
    ensures stream == ss[i].sent + (ss[i].kept + ss[i].ahead) && bytes == ss[i].given + ss[i].answer
    ensures ss[i].started > 0 ==> ss[i].given == bytes
  {
    if i > 0 {
      NothingLost(ss, ts, stream, bytes, i - 1);
      RunKeeps(ss, ts, stream, bytes, i - 1);
      CalmStep(ss[i - 1], ts[i - 1]);
      hide Enabled, Apply, Calm;
      RunKeeps(ss, ts, stream, bytes, i);
    }
  }

  lemma {:induction false} CalmStep(s: Both, t: Step)
    requires Enabled(s, t) && Calm(s, t) && Inv(s)
    ensures var s' := Apply(s, t);
            && s'.sent + (s'.kept + s'.ahead) == s.sent + (s.kept + s.ahead) && s'.given + s'.answer == s.given + s.answer
  {
    if OfRequest(t) {
      CalmRequest(s, t);
      hide Calm, Apply, Enabled;
    } else {
      if t.Respond? || t.ClientBreaks? {
        CutInTwo(s.given, s.answer, t.n);
      }
      hide Calm;
    }
  }

  lemma {:induction false} CutInTwo(front: Bytes, rest: Bytes, n: nat)
    requires n <= |rest|
    ensures front + rest[..n] + rest[n..] == front + rest
  {
  }

  lemma {:induction false} CalmRequest(s: Both, t: Step)
    requires Enabled(s, t) && Calm(s, t) && OfRequest(t) && (s.kept == [] || s.requestDone)
    ensures var s' := Apply(s, t);
            && s'.sent + (s'.kept + s'.ahead) == s.sent + (s.kept + s.ahead) && s'.given + s'.answer == s.given + s.answer
  {
    assert [] + s.ahead == s.ahead;
    match t
    case EndOfClient =>
    case Switch(n, _, _) => CutInTwo([], s.ahead, n);
    case Forward(n, _, _, _) =>
      CutInTwo(s.sent, s.ahead, n);
      assert [] + s.ahead[n..] == s.ahead[n..] && s.given + [] == s.given;
    case ServerBreaks(n) =>
      CutInTwo(s.sent, s.ahead, n);
      assert [] + s.ahead[n..] == s.ahead[n..];
  }

  // ---- What cuts the client's stream ----

  /** The server ends while the request pump still reads. */
  ghost predicate EndsEarly(ss: seq<Both>, ts: seq<Step>, i: nat)
    requires |ss| == |ts| + 1
  {
    i < |ts| && ts[i] == EndOfServer && ss[i].cur == StateActive
  }

  lemma {:induction false} ClosedStays(s: Both, t: Step)
    requires Enabled(s, t) && s.closed
    ensures Apply(s, t).closed && Apply(s, t).ahead == s.ahead && Apply(s, t).sent == s.sent
  {
  }

  /** From a server's early end on, the request pump forwards nothing. */
  lemma {:induction false} FrozenAfter(ss: seq<Both>, ts: seq<Step>, stream: Bytes, bytes: Bytes, i: nat, j: nat)
    requires IsRun(ss, ts, stream, bytes) && EndsEarly(ss, ts, i) && i < j < |ss|
    ensures ss[j].closed && ss[j].ahead == ss[i].ahead && ss[j].sent == ss[i].sent
  {
    if j == i + 1 {
      assert Enabled(ss[i], ts[i]) && ss[i + 1] == Apply(ss[i], ts[i]);
    } else {
      FrozenAfter(ss, ts, stream, bytes, i, j - 1);
      hide Enabled, Apply;
      ClosedStays(ss[j - 1], ts[j - 1]);
    }
  }

  lemma {:induction false} ClosedByEnd(ss: seq<Both>, ts: seq<Step>, stream: Bytes, bytes: Bytes, j: nat) returns (i: nat)
    requires IsRun(ss, ts, stream, bytes) && j < |ss| && ss[j].closed
    ensures EndsEarly(ss, ts, i) && i < j
  {
    assert Enabled(ss[j - 1], ts[j - 1]) && ss[j] == Apply(ss[j - 1], ts[j - 1]);
    if ss[j - 1].closed {
      i := ClosedByEnd(ss, ts, stream, bytes, j - 1);
    } else {
      i := j - 1;
      RunKeeps(ss, ts, stream, bytes, i);
    }
  }

  /** A request pump that was ended by its client's connection leaves bytes of it unread
      if and only if the server ended early with those bytes ahead. */
  lemma {:induction false} CutExactly(ss: seq<Both>, ts: seq<Step>, stream: Bytes, bytes: Bytes)
    requires IsRun(ss, ts, stream, bytes) && ss[|ts|].cur == StateClosed
    ensures ss[|ts|].ahead != [] <==> exists i: nat :: EndsEarly(ss, ts, i) && ss[i].ahead != []
    ensures forall i: nat :: EndsEarly(ss, ts, i) ==> ss[|ts|].ahead == ss[i].ahead
  {
    var s := ss[|ts|];
    RunKeeps(ss, ts, stream, bytes, |ts|);
    forall i: nat | EndsEarly(ss, ts, i)
      ensures s.ahead == ss[i].ahead
    {
      FrozenAfter(ss, ts, stream, bytes, i, |ts|);
    }
    if s.ahead != [] {
      var i := ClosedByEnd(ss, ts, stream, bytes, |ts|);
      FrozenAfter(ss, ts, stream, bytes, i, |ts|);
      assert EndsEarly(ss, ts, i) && ss[i].ahead != [];
    }
  }

  // ---- One after the other ----

  ghost predicate Runs(s: Both, ts: seq<Step>, s': Both)
    decreases |ts|
  {
    if ts == [] then s' == s else Enabled(s, ts[0]) && Runs(Apply(s, ts[0]), ts[1..], s')
  }

  lemma {:induction false} RunsOn(s: Both, a: seq<Step>, m: Both, b: seq<Step>, s': Both)
    requires Runs(s, a, m) && Runs(m, b, s')
    ensures Runs(s, a + b, s')
    decreases |a|
  {
    hide Enabled, Apply;
    if a == [] {
      assert a + b == b;
    } else {
      RunsOn(Apply(s, a[0]), a[1..], m, b, s');
      assert (a + b)[0] == a[0] && (a + b)[1..] == a[1..] + b;
    }
  }

  lemma {:induction false} RunsVia(s: Both, a: seq<Step>, b: seq<Step>, s': Both) returns (m: Both)
    requires Runs(s, a + b, s')
    ensures Runs(s, a, m) && Runs(m, b, s')
    decreases |a|
  {
    hide Enabled, Apply;
    if a == [] {
      assert a + b == b;
      m := s;
    } else {
      assert (a + b)[0] == a[0] && (a + b)[1..] == a[1..] + b;
      m := RunsVia(Apply(s, a[0]), a[1..], b, s');
    }
  }

  lemma {:induction false} PathRuns(ss: seq<Both>, ts: seq<Step>, i: nat)
    requires |ss| == |ts| + 1 && i <= |ts|
    requires forall k :: 0 <= k < |ts| ==> Enabled(ss[k], ts[k]) && ss[k + 1] == Apply(ss[k], ts[k])
    ensures Runs(ss[i], ts[i..], ss[|ts|])
    decreases |ts| - i
  {
    hide Enabled, Apply;
    if i < |ts| {
      PathRuns(ss, ts, i + 1);
      assert ts[i..][0] == ts[i] && ts[i..][1..] == ts[i + 1..];
    }
  }

  /** A step of the request pump that tells the client nothing, and one answer packet. */
  predicate Silent(t: Step) {
    OfRequest(t) && (t.Forward? ==> t.told == [])
  }

  /** Either order of the two is possible and leads to the same state. */
  lemma {:induction false} Commute(s: Both, r: Step, t: Step)
    requires Enabled(s, r) && r.Respond? && Silent(t) && Enabled(Apply(s, r), t)
    ensures Enabled(s, t) && Enabled(Apply(s, t), r) && Apply(Apply(s, t), r) == Apply(Apply(s, r), t)
  {
    if t.Forward? {
      assert s.given + s.answer[..r.n] + [] == s.given + [] + s.answer[..r.n];
    }
  }

  predicate AllSilent(ts: seq<Step>) {
    forall i :: 0 <= i < |ts| ==> Silent(ts[i])
  }

  lemma {:induction false} Later(s: Both, r: Step, ts: seq<Step>, s': Both)
    requires r.Respond? && AllSilent(ts) && Enabled(s, r) && Runs(Apply(s, r), ts, s')
    ensures Runs(s, ts + [r], s')
    decreases |ts|
  {
    hide Enabled, Apply, Silent;
    if ts == [] {
      assert ts + [r] == [r] && [r][1..] == [];
    } else {
      Commute(s, r, ts[0]);
      Later(Apply(s, ts[0]), r, ts[1..], s');
      assert (ts + [r])[0] == ts[0] && (ts + [r])[1..] == ts[1..] + [r];
    }
  }

  /** The steps of one pump. */
  function Own(ts: seq<Step>, request: bool): seq<Step> {
    if ts == [] then []
    else (if OfRequest(ts[0]) == request then [ts[0]] else []) + Own(ts[1..], request)
  }

  lemma {:induction false} OwnSilent(ts: seq<Step>)
    requires forall i :: 0 <= i < |ts| ==> Silent(ts[i]) || ts[i].Respond?
    ensures AllSilent(Own(ts, true))
  {
    if ts != [] {
      OwnSilent(ts[1..]);
    }
  }

  /** While both pumps run, the request pump's steps can come first. */
  lemma {:induction false} RequestFirst(s: Both, ts: seq<Step>, s': Both)
    requires Runs(s, ts, s') && forall i :: 0 <= i < |ts| ==> Silent(ts[i]) || ts[i].Respond?
    ensures Runs(s, Own(ts, true) + Own(ts, false), s')
    decreases |ts|
  {
    if ts == [] {
      return;
    }
    var t, rest := ts[0], ts[1..];
    var a, b := Own(rest, true), Own(rest, false);
    OwnFirst(ts);
    hide Enabled, Apply, Own;
    RequestFirst(Apply(s, t), rest, s');
    OwnSilent(rest);
    hide Runs;
    if OfRequest(t) {
      FirstThen(s, t, a + b, s');
    } else {
      var m := RunsVia(Apply(s, t), a, b, s');
      Later(s, t, a, m);
      RunsOn(s, a + [t], m, b, s');
    }
  }

  lemma {:induction false} OwnFirst(ts: seq<Step>)
    requires ts != []
    ensures var a, b := Own(ts[1..], true), Own(ts[1..], false);
            Own(ts, true) + Own(ts, false) == if OfRequest(ts[0]) then [ts[0]] + (a + b) else a + [ts[0]] + b
  {
    hide OfRequest;
  }

  lemma {:induction false} FirstThen(s: Both, t: Step, ts: seq<Step>, s': Both)
    requires Enabled(s, t) && Runs(Apply(s, t), ts, s')
    ensures Runs(s, [t] + ts, s')
  {
    assert ([t] + ts)[0] == t && ([t] + ts)[1..] == ts;
  }

  lemma {:induction false} EndsWithServer(ss: seq<Both>, ts: seq<Step>, stream: Bytes, bytes: Bytes)
    requires IsRun(ss, ts, stream, bytes) && ss[|ts|].started == 1
    ensures ts != [] && ts[|ts| - 1] == EndOfServer && !ss[|ts| - 1].responseDone
  {
    var i := |ts| - 1;
    assert Enabled(ss[i], ts[i]) && ss[i + 1] == Apply(ss[i], ts[i]);
    if ss[i].started == 1 {
      StartsOnceAlone(ss, ts, stream, bytes, i);
    }
  }

  /** Before the last step of a run that starts the next request, the response pump only
      hands on. */
  lemma {:induction false} OnlyResponds(ss: seq<Both>, ts: seq<Step>, stream: Bytes, bytes: Bytes, i: nat)
    requires IsRun(ss, ts, stream, bytes) && ss[|ts|].started == 1 && i < |ts|
    ensures if i == |ts| - 1 then ts[i] == EndOfServer else OfRequest(ts[i]) || ts[i].Respond?
  {
    assert Enabled(ss[i], ts[i]) && ss[i + 1] == Apply(ss[i], ts[i]);
    EndsWithServer(ss, ts, stream, bytes);
    if i < |ts| - 1 && ss[i + 1].responseDone {
      DoneStays(ss, ts, stream, bytes, i + 1, |ts| - 1);
    }
  }

  lemma {:induction false} DoneStays(ss: seq<Both>, ts: seq<Step>, stream: Bytes, bytes: Bytes, i: nat, j: nat)
    requires IsRun(ss, ts, stream, bytes) && i <= j < |ss| && ss[i].responseDone
    ensures ss[j].responseDone
  {
    if i < j {
      DoneStays(ss, ts, stream, bytes, i, j - 1);
      assert Enabled(ss[j - 1], ts[j - 1]) && ss[j] == Apply(ss[j - 1], ts[j - 1]);
    }
  }

  /** Every interleaving that starts the next request, and tells the client nothing on the
      way, is one in which the response pump begins when the request pump is done: the same
      steps of each, with the same outcome. */
  lemma {:induction false} OneAfterTheOther(ss: seq<Both>, ts: seq<Step>, stream: Bytes, bytes: Bytes)
    requires IsRun(ss, ts, stream, bytes) && ss[|ts|].started == 1
    requires forall i :: 0 <= i < |ts| && ts[i].Forward? ==> ts[i].told == []
    ensures Runs(Start(stream, bytes), Own(ts, true) + Own(ts, false), ss[|ts|])
  {
    PathRuns(ss, ts, 0);
    assert |ts| > 0;
    forall i | 0 <= i < |ts|
      ensures if i == |ts| - 1 then ts[i] == EndOfServer else Silent(ts[i]) || ts[i].Respond?
    {
      OnlyResponds(ss, ts, stream, bytes, i);
    }
    var front := ts[..|ts| - 1];
    hide Enabled, Apply, Runs;
    assert ts[0..] == ts == front + [EndOfServer];
    var m := RunsVia(ss[0], front, [EndOfServer], ss[|ts|]);
    RequestFirst(ss[0], front, m);
    RunsOn(ss[0], Own(front, true) + Own(front, false), m, [EndOfServer], ss[|ts|]);
    OwnSnoc(front, EndOfServer, true);
    OwnSnoc(front, EndOfServer, false);
    assert Own(ts, true) + Own(ts, false) == Own(front, true) + Own(front, false) + [EndOfServer];
  }

  lemma {:induction false} OwnSnoc(ts: seq<Step>, t: Step, request: bool)
    ensures Own(ts + [t], request) == Own(ts, request) + (if OfRequest(t) == request then [t] else [])
  {
    hide OfRequest;
    if ts == [] {
      assert ts + [t] == [t] && [t][1..] == [];
    } else {
      OwnSnoc(ts[1..], t, request);
      assert (ts + [t])[0] == ts[0] && (ts + [t])[1..] == ts[1..] + [t];
    }
  }
}
