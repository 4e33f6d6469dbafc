/** The request pump and the switch to the next request on the same connection,
    after proto/tunnel.go and proto/keep.go. */
module KeepAlive {
  import opened Bytes
  import opened Net
  import opened TcpReader
  import opened Lines
  import opened HttpRequest

  const COPY_SIZE := 4096

  datatype State = StateNew | StateActive | StateClosed | StateIdle

  /** The body remainder after `chunks` were forwarded: it counts down, a chunk that
      straddles the end takes it below zero, and so does any chunk that follows a
      body that ended on the spot but starts no new request. */
  function Remaining(k: int, chunks: seq<Bytes>): int {
    if chunks == [] then k
    else
      var r := Remaining(k, chunks[..|chunks| - 1]);
      if r > 0 then r - |chunks[|chunks| - 1]| else if r == 0 then -1 else r
  }

  predicate NoneBlank(chunks: seq<Bytes>) {
    forall i :: 0 <= i < |chunks| ==> chunks[i] != []
  }

  /** The remainder is zero exactly when the chunks make up the body and no more. */
  lemma {:induction false} RemainingZero(k: int, chunks: seq<Bytes>)
    requires NoneBlank(chunks)
    ensures Remaining(k, chunks) == 0 <==> k >= 0 && |Concat(chunks)| == k
    ensures Remaining(k, chunks) > 0 ==> Remaining(k, chunks) == k - |Concat(chunks)|
    ensures Remaining(k, chunks) < 0 ==> k < 0 || |Concat(chunks)| > k
  {
    if chunks != [] {
      var front := chunks[..|chunks| - 1];
      RemainingZero(k, front);
      ConcatSnoc(front, chunks[|chunks| - 1]);
      assert front + [chunks[|chunks| - 1]] == chunks;
    }
  }

  /** Below zero it stays: such a connection is passed through for good. */
  lemma {:induction false} RemainingStays(k: int, a: seq<Bytes>, b: seq<Bytes>)
    requires Remaining(k, a) < 0
    ensures Remaining(k, a + b) == Remaining(k, a)
  {
    if b == [] {
      assert a + b == a;
    } else {
      RemainingStays(k, a, b[..|b| - 1]);
      assert (a + b)[..|a + b| - 1] == a + b[..|b| - 1];
    }
  }

  /** Framing does not bound what is forwarded: a chunk that brings the end of the
      body and the start of another request goes to the old server whole, and no
      later chunk is ever looked at.  It takes a chunk boundary at the end of the body
      for the pump to see the next request. */
  lemma {:induction false} SwitchNeedsBoundary(k: nat, chunks: seq<Bytes>)
    requires NoneBlank(chunks)
    ensures (exists i :: 0 <= i <= |chunks| && Remaining(k, chunks[..i]) == 0)
            <==> exists i :: 0 <= i <= |chunks| && |Concat(chunks[..i])| == k
  {
    forall i | 0 <= i <= |chunks|
      ensures Remaining(k, chunks[..i]) == 0 <==> |Concat(chunks[..i])| == k
    {
      RemainingZero(k, chunks[..i]);
    }
  }

  lemma {:induction false} StraddleForwardsMore()
    ensures Remaining(3, ["abcGET / HTTP/1.1\r\n\r\n"]) < 0 && |Concat(["abcGET / HTTP/1.1\r\n\r\n"])| > 3
  {
    assert Remaining(3, []) == 3;
  }

  /** The one look that is taken at a packet: behind how many forwarded ones, the packet
      as it came, what was taken off the connection behind it, what the client was told,
      and whether that reached it. */
  datatype Probe = Probe(at: nat, packet: Bytes, lost: Bytes, told: Bytes, heard: bool)

  /** What a look does, with `now` in the packet's place afterwards and `after` still to
      come: a packet that speaks for itself is judged by itself and nothing happens to
      it; one that needs more loses bytes behind it, if there are any; one that is taken
      for SOCKS5 has its client greeted and one read's bytes taken, which overwrite the
      packet if it is longer than that read. */
  ghost predicate Looked(pr: Probe, now: Bytes, http: bool, after: Bytes, rd: Source, urlOk: string -> bool) {
    && pr.packet != [] && |now| == |pr.packet| && (pr.told == [] || (pr.told == GREETING && !http))
    && (SpeaksForItself(pr.packet, urlOk) ==> pr.lost == [] && now == pr.packet && pr.told == [])
    && (!NeedsMore(pr.packet, urlOk) ==> (http <==> HttpHead(pr.packet)))
    && (!NeedsMore(pr.packet, urlOk) && SocksPacket(pr.packet) ==>
          pr.told == GREETING && SocksRead(|pr.packet|, pr.packet, now, pr.lost + after, after, pr.heard, rd))
    && (NeedsMore(pr.packet, urlOk) && rd.patience < MAX_EMPTY_READS && rd.errAlone && pr.lost + after != [] ==> pr.lost != [])
  }

  /** Whether the packet in `buf[0:nr]` starts a request.  The probe reads from the
      packet in place, and from the connection only when the packet needs more or is
      taken for SOCKS5; `lost` is what it takes there. */
  method IsKeepAliveHttp(client: Source, back: Sink, buf: array<char>, nr: nat, urlOk: string -> bool, ghost given: Bytes)
    returns (http: bool, ghost lost: Bytes, ghost told: Bytes)
    requires client.Valid() && 0 < nr <= buf.Length && back.Got(given)
    modifies client, buf, back
    ensures client.Valid() && old(client.pending) == lost + client.pending && back.Got(given + told)
    ensures SpeaksForItself(old(buf[..nr]), urlOk) ==> unchanged(client) && unchanged(buf) && unchanged(back)
    ensures Looked(Probe(0, old(buf[..nr]), lost, told, !back.broken), buf[..nr], http, client.pending, client, urlOk)
  {
    hide NeedsMore, HttpHead, Outcome, ReadAs, Looked, Judged, SocksPacket, SocksRead, Told, Sink.Got, SpeaksForItself;
    ghost var packet, p := buf[..nr], client.pending;
    var reader := new Reader.WithBuf(client, buf, nr);
    assert reader.Unread() == packet && reader.Cells() == packet;
    var q;
    ghost var head, seen;
    q, head, seen := ReadRequest(reader, back, urlOk, given);
    OutcomeIs(q, head, seen, packet + p, reader.Stream(), nr, reader.r == reader.w, client, urlOk);
    http := q.kind == Http;
    lost, told := p[..|p| - |client.pending|], Told(q.kind);
    StreamParts(reader);
    assert p == lost + client.pending by {
      Assoc(q.body, reader.Unread(), client.pending);
      Assoc(head, q.body + reader.Unread(), client.pending);
      TailOf(packet, p, head + (q.body + reader.Unread()), client.pending);
    }
    LookedIs(Probe(0, packet, lost, told, !back.broken), buf[..nr], q.kind, p, client.pending, client, urlOk);
  }

  lemma {:induction false} LookedIs(pr: Probe, now: Bytes, kind: Kind, p: Bytes, after: Bytes, rd: Source, urlOk: string -> bool)
    requires Judged(pr.packet, kind, |pr.packet|, pr.packet, now, p, after, pr.heard, rd, urlOk)
    requires pr.packet != [] && |now| == |pr.packet| && pr.told == Told(kind) && p == pr.lost + after
    requires NeedsMore(pr.packet, urlOk) && p != [] && rd.patience < MAX_EMPTY_READS && rd.errAlone ==> |after| < |p|
    ensures Looked(pr, now, kind == Http, after, rd, urlOk)
    ensures SpeaksForItself(pr.packet, urlOk) ==> kind != Socks5
  {
    hide NeedsMore, HttpHead, SocksPacket, SocksRead;
  }

  lemma {:induction false} TailOf(u: Bytes, p: Bytes, v: Bytes, p': Bytes)
    ensures u + p == v + p' && |p'| <= |p| ==> p == p[..|p| - |p'|] + p'
  {
    if u + p == v + p' && |p'| <= |p| {
      var s := u + p;
      assert p == s[|u|..] && p' == s[|v|..];
      assert p[|p| - |p'|..] == s[|v|..];
    }
  }

  lemma {:induction false} RemainingSnoc(k: int, chunks: seq<Bytes>, c: Bytes)
    ensures Remaining(k, chunks + [c])
            == var r := Remaining(k, chunks); if r > 0 then r - |c| else if r == 0 then -1 else r
  {
    assert (chunks + [c])[..|chunks|] == chunks;
  }

  // ---- What the pump does to its stream ----

  /** A look is taken exactly when the body is complete. */
  ghost predicate LookedAt(k: int, taken: seq<Bytes>, probed: seq<Probe>) {
    && |probed| <= 1
    && (forall i :: 0 <= i < |taken| ==> (Remaining(k, taken[..i]) == 0 <==> probed != [] && probed[0].at == i))
  }

  /** Where the pump is, `cur` being still to come of what was `stream`: all of it was
      forwarded, but for what the one look, if it was taken, did. */
  ghost predicate Pumped(k: int, stream: Bytes, taken: seq<Bytes>, probed: seq<Probe>, cur: Bytes,
                         rd: Source, urlOk: string -> bool) {
    && NoneBlank(taken) && LookedAt(k, taken, probed)
    && (probed != [] ==> Remaining(k, taken) < 0 && probed[0].at < |taken|)
    && (if probed == [] then stream == Concat(taken) + cur
        else
          var pr := probed[0];
          var later := Concat(taken[pr.at + 1..]) + cur;
          && stream == Concat(taken[..pr.at]) + (pr.packet + (pr.lost + later))
          && Looked(pr, taken[pr.at], false, later, rd, urlOk))
  }

  /** What a switch leaves: `buf` starts the next request right behind the body. */
  ghost predicate Switched(k: int, stream: Bytes, taken: seq<Bytes>, probed: seq<Probe>, buf: Bytes, rest: Bytes,
                           rd: Source, urlOk: string -> bool) {
    && NoneBlank(taken) && LookedAt(k, taken, probed) && Remaining(k, taken) == 0
    && |probed| == 1 && probed[0].at == |taken|
    && stream == Concat(taken) + (probed[0].packet + (probed[0].lost + rest))
    && Looked(probed[0], buf, true, rest, rd, urlOk)
  }

  /** Such as a packet with the first line of a request: the bytes behind it are lost. */
  lemma {:induction false} LineAloneLoses(pr: Probe, now: Bytes, http: bool, after: Bytes, rd: Source, urlOk: string -> bool)
    requires Looked(pr, now, http, after, rd, urlOk) && pr.packet == GET_LINE + CRLF && urlOk("/")
    requires pr.lost + after != [] && rd.patience < MAX_EMPTY_READS && rd.errAlone
    ensures pr.lost != []
  {
    LineAloneNeedsMore(urlOk);
    hide NeedsMore;
  }

  /** Such as a packet of the byte five and a letter: the bytes behind it are lost and the
      client is told what it did not ask for. */
  lemma {:induction false} FiveLoses(pr: Probe, now: Bytes, http: bool, after: Bytes, rd: Source, urlOk: string -> bool)
    requires Looked(pr, now, http, after, rd, urlOk) && pr.packet == [5 as char, 'X'] && pr.heard
    requires pr.lost + after != [] && rd.patience == 0
    ensures pr.lost != [] && pr.told == GREETING && now == pr.packet && !http
  {
    assert !HeadMatches(pr.packet);
  }

  /** Exactly the packets that do not speak for themselves lose bytes, when there are some
      behind them and a client to hear the greeting. */
  lemma {:induction false} LosesExactly(pr: Probe, now: Bytes, http: bool, after: Bytes, rd: Source, urlOk: string -> bool)
    requires Looked(pr, now, http, after, rd, urlOk) && pr.heard
    requires pr.lost + after != [] && rd.patience == 0 && rd.errAlone
    ensures pr.lost == [] <==> SpeaksForItself(pr.packet, urlOk)
  {
    hide NeedsMore, SocksPacket, HttpHead;
  }

  lemma {:induction false} PumpStart(k: int, stream: Bytes, rd: Source, urlOk: string -> bool)
    ensures Pumped(k, stream, [], [], stream, rd, urlOk)
  {
    assert Concat([]) + stream == stream;
  }

  lemma {:induction false} NothingTaken(k: int, w: Bytes)
    ensures Remaining(k, []) == k && w + Concat([]) == w && |Concat([])| == 0
  {
  }

  lemma {:induction false} PumpSkip(k: int, stream: Bytes, taken: seq<Bytes>, probed: seq<Probe>, cur: Bytes, cur': Bytes,
                                    rd: Source, urlOk: string -> bool)
    requires Pumped(k, stream, taken, probed, cur, rd, urlOk) && cur == [] + cur'
    ensures Pumped(k, stream, taken, probed, cur', rd, urlOk)
  {
    assert cur == cur';
  }

  lemma {:induction false} LookedAtSnoc(k: int, taken: seq<Bytes>, probed: seq<Probe>, data: Bytes, probed': seq<Probe>)
    requires LookedAt(k, taken, probed)
    requires if Remaining(k, taken) == 0 then |probed'| == 1 && probed'[0].at == |taken| && probed == []
             else probed' == probed && (probed != [] ==> probed[0].at < |taken|)
    ensures LookedAt(k, taken + [data], probed')
  {
    hide Remaining;
    var all := taken + [data];
    forall i | 0 <= i < |all|
      ensures Remaining(k, all[..i]) == 0 <==> probed' != [] && probed'[0].at == i
    {
      assert all[..i] == if i < |taken| then taken[..i] else taken;
    }
  }

  /** A packet is forwarded without a look. */
  lemma {:induction false} PumpPlain(k: int, stream: Bytes, taken: seq<Bytes>, probed: seq<Probe>, data: Bytes, cur: Bytes,
                                     rd: Source, urlOk: string -> bool)
    requires Pumped(k, stream, taken, probed, data + cur, rd, urlOk) && data != [] && Remaining(k, taken) != 0
    ensures Pumped(k, stream, taken + [data], probed, cur, rd, urlOk)
  {
    LookedAtSnoc(k, taken, probed, data, probed);
    RemainingSnoc(k, taken, data);
    hide Remaining, LookedAt, NeedsMore, HttpHead, SocksPacket, SocksRead;
    var all := taken + [data];
    if probed == [] {
      ConcatSnoc(taken, data);
      Assoc(Concat(taken), data, cur);
    } else {
      var at := probed[0].at;
      assert all[..at] == taken[..at] && all[at] == taken[at] && all[at + 1..] == taken[at + 1..] + [data];
      ConcatSnoc(taken[at + 1..], data);
      Assoc(Concat(taken[at + 1..]), data, cur);
    }
  }

  /** A packet is looked at and forwarded. */
  lemma {:induction false} PumpLooked(k: int, stream: Bytes, taken: seq<Bytes>, pr: Probe, data: Bytes, p: Bytes,
                                      cur: Bytes, rd: Source, urlOk: string -> bool)
    requires Pumped(k, stream, taken, [], pr.packet + p, rd, urlOk) && Remaining(k, taken) == 0 && p == pr.lost + cur
    requires Looked(pr, data, false, cur, rd, urlOk) && pr.at == |taken|
    ensures Pumped(k, stream, taken + [data], [pr], cur, rd, urlOk)
  {
    var all, probed := taken + [data], [pr];
    LookedAtSnoc(k, taken, [], data, probed);
    RemainingSnoc(k, taken, data);
    hide Remaining, LookedAt, NeedsMore, HttpHead, SocksPacket, SocksRead;
    assert all[..|taken|] == taken && all[|taken|] == data && all[|taken| + 1..] == [];
    assert Concat([]) + cur == cur;
  }

  lemma {:induction false} NotLookedYet(k: int, stream: Bytes, taken: seq<Bytes>, probed: seq<Probe>, cur: Bytes,
                                        rd: Source, urlOk: string -> bool)
    requires Pumped(k, stream, taken, probed, cur, rd, urlOk)
    ensures Remaining(k, taken) == 0 ==> probed == []
  {
  }

  /** A packet is looked at and kept. */
  lemma {:induction false} PumpSwitched(k: int, stream: Bytes, taken: seq<Bytes>, pr: Probe, buf: Bytes, p: Bytes,
                                        rest: Bytes, rd: Source, urlOk: string -> bool)
    requires Pumped(k, stream, taken, [], pr.packet + p, rd, urlOk) && Remaining(k, taken) == 0 && p == pr.lost + rest
    requires Looked(pr, buf, true, rest, rd, urlOk) && pr.at == |taken|
    ensures Switched(k, stream, taken, [pr], buf, rest, rd, urlOk)
    ensures buf != [] && |buf| + |rest| <= |stream|
  {
    hide Remaining, NeedsMore, HttpHead, SocksPacket, SocksRead;
  }

  lemma {:induction false} DrainedStream(src: Reader)
    requires src.Valid() && src.r == src.w
    ensures src.Stream() == src.rd.pending
  {
  }

  lemma {:induction false} LookedAnywhere(pr: Probe, at: nat, now: Bytes, http: bool, after: Bytes, rd: Source, urlOk: string -> bool)
    requires Looked(pr, now, http, after, rd, urlOk)
    ensures Looked(pr.(at := at), now, http, after, rd, urlOk)
  {
  }

  /** What the client was told by the look, if it was taken. */
  function Noise(probed: seq<Probe>): Bytes {
    if probed == [] then [] else probed[0].told
  }

  /** And whether it heard it, having been handed `given` before. */
  predicate Heard(probed: seq<Probe>, given: Bytes, room: nat) {
    probed != [] ==> (probed[0].heard <==> |given + probed[0].told| <= room)
  }

  lemma {:induction false} HeardIs(pr: Probe, given: Bytes, back: Sink)
    requires back.Got(given + pr.told) && pr.heard == !back.broken
    ensures Noise([pr]) == pr.told && Heard([pr], given, back.room)
  {
    BrokenFits(back, given + pr.told);
  }

  lemma {:induction false} NotTold(probed: seq<Probe>, given: Bytes, room: nat)
    ensures probed == [] ==> given + Noise(probed) == given && Heard(probed, given, room)
  {
  }

  class Tunnel {
    var clientUnRead: int
    var curState: State
    /** The packet kept for the next request. */
    var buf: Bytes

    constructor ()
      ensures clientUnRead == 0 && curState == StateNew && buf == []
    {
      clientUnRead, curState, buf := 0, StateNew, [];
    }

    /** What to do with one packet: keep it for the next request, or forward it and
        count the body down.  A look is taken exactly when nothing is left to count. */
    method Consider(client: Source, back: Sink, packet: array<char>, nr: nat, urlOk: string -> bool, ghost given: Bytes)
      returns (switch: bool, ghost lost: Bytes, ghost told: Bytes)
      requires client.Valid() && 0 < nr <= packet.Length && curState != StateIdle && back.Got(given)
      modifies this, client, packet, back
      ensures client.Valid() && old(client.pending) == lost + client.pending && back.Got(given + told)
      ensures old(clientUnRead) != 0 ==> !switch && unchanged(client) && unchanged(packet) && unchanged(back) && lost == told == []
      ensures old(clientUnRead) == 0 ==>
                Looked(Probe(0, old(packet[..nr]), lost, told, !back.broken), packet[..nr], switch, client.pending, client, urlOk)
      ensures switch ==> clientUnRead == 0 && curState == StateIdle && buf == packet[..nr]
      ensures !switch ==> curState == old(curState) && buf == old(buf)
                          && clientUnRead == if old(clientUnRead) > 0 then old(clientUnRead) - nr
                                             else if old(clientUnRead) == 0 then -1 else old(clientUnRead)
    {
      hide Looked, Sink.Got;
      switch, lost, told := false, [], [];
      assert given + [] == given;
      if clientUnRead >= 0 {
        if clientUnRead == 0 {
          switch, lost, told := IsKeepAliveHttp(client, back, packet, nr, urlOk, given);
          if switch {
            curState := StateIdle;
            buf := packet[..nr];
          } else {
            clientUnRead := -1;
          }
        } else {
          clientUnRead := clientUnRead - nr;
        }
      }
    }

    /** Hands one packet to the server; a short write is an error. */
    static method Forward(dst: Sink, data: Bytes, written: nat, ghost start: Bytes, ghost taken: seq<Bytes>)
      returns (total: nat, err: Error)
      requires dst.Got(start + Concat(taken)) && data != []
      modifies dst
      ensures dst.Got(start + Concat(taken + [data])) && (err != Nil <==> dst.broken) && (old(dst.broken) ==> dst.broken)
      ensures !dst.broken && written == |Concat(taken)| ==> total == |Concat(taken + [data])|
    {
      ConcatSnoc(taken, data);
      Assoc(start, Concat(taken), data);
      var nw;
      nw, err := dst.Write(data, start + Concat(taken));
      total := written + nw;
      if err == Nil && nw != |data| {
        err := ShortWrite;
      }
    }

    /** One turn of the pump, with a packet just read. */
    method Turn(src: Reader, dst: Sink, back: Sink, packet: array<char>, nr: nat, urlOk: string -> bool, written: nat, ghost k: int,
                ghost stream: Bytes, ghost start: Bytes, ghost given: Bytes, ghost taken: seq<Bytes>, ghost probed: seq<Probe>)
      returns (total: nat, err: Error, ghost taken': seq<Bytes>, ghost probed': seq<Probe>)
      requires src.Valid() && src.r == src.w && packet != src.buf && 0 < nr <= packet.Length && curState != StateIdle && dst != back
      requires Pumped(k, stream, taken, probed, packet[..nr] + src.Stream(), src.rd, urlOk)
      requires clientUnRead == Remaining(k, taken)
      requires dst.Got(start + Concat(taken)) && (!dst.broken ==> written == |Concat(taken)|)
      requires back.Got(given + Noise(probed)) && Heard(probed, given, back.room)
      modifies this, src.rd, packet, dst, back
      ensures src.Valid() && |src.Stream()| <= |old(src.Stream())| && clientUnRead == Remaining(k, taken')
      ensures dst.Got(start + Concat(taken')) && (!dst.broken ==> total == |Concat(taken')|)
      ensures back.Got(given + Noise(probed')) && Heard(probed', given, back.room)
      ensures curState != StateIdle ==> (err != Nil <==> dst.broken)
      ensures curState != StateIdle ==> Pumped(k, stream, taken', probed', src.Stream(), src.rd, urlOk)
      ensures curState == StateIdle ==> taken' == taken && err == Nil && buf != [] && |buf| <= packet.Length
                                        && |buf| + |src.rd.pending| <= |stream|
      ensures curState == StateIdle ==> Switched(k, stream, taken', probed', buf, src.rd.pending, src.rd, urlOk)
    {
      hide Looked, Pumped, Switched, Remaining, Concat, LookedAt, NoneBlank, Sink.Got, Noise, Heard, Reader.Stream;
      ghost var chunk, p, was := packet[..nr], src.rd.pending, Remaining(k, taken);
      DrainedStream(src);
      NotLookedYet(k, stream, taken, probed, chunk + p, src.rd, urlOk);
      NotTold(probed, given, back.room);
      var switch;
      ghost var lost, told;
      switch, lost, told := Consider(src.rd, back, packet, nr, urlOk, given + Noise(probed));
      ghost var pr := Probe(0, chunk, lost, told, !back.broken);
      DrainedStream(src);
      if was == 0 {
        LookedAnywhere(pr, |taken|, packet[..nr], switch, src.rd.pending, src.rd, urlOk);
        pr := pr.(at := |taken|);
        HeardIs(pr, given, back);
      }
      if switch {
        total, err, taken', probed' := written, Nil, taken, [pr];
        PumpSwitched(k, stream, taken, pr, buf, p, src.rd.pending, src.rd, urlOk);
        return;
      }
      var data := packet[..nr];
      RemainingSnoc(k, taken, data);
      taken' := taken + [data];
      if was == 0 {
        probed' := [pr];
        PumpLooked(k, stream, taken, pr, data, p, src.rd.pending, src.rd, urlOk);
      } else {
        probed' := probed;
        assert data == chunk && src.rd.pending == p;
        PumpPlain(k, stream, taken, probed, data, src.rd.pending, src.rd, urlOk);
      }
      total, err := Forward(dst, data, written, start, taken);
    }

    /** The request pump: forwards packets until the source or the server fails or a
        new request shows up right where the body ended.  `taken` is what it handed to
        the server, packet by packet; what became of the stream is stated for every
        packet, and the one that is looked at is part of it. */
    method CopyRequest(src: Reader, dst: Sink, back: Sink, urlOk: string -> bool, ghost start: Bytes, ghost given: Bytes)
      returns (written: nat, err: Error, ghost taken: seq<Bytes>, ghost probed: seq<Probe>)
      requires src.Valid() && src.size <= COPY_SIZE && curState != StateIdle && dst != back && dst.Got(start) && back.Got(given)
      modifies this, src, src.buf, src.rd, dst, back
      ensures back.Got(given + Noise(probed)) && Heard(probed, given, back.room)
      ensures src.Valid() && clientUnRead == Remaining(old(clientUnRead), taken)
      ensures dst.Got(start + Concat(taken)) && (!dst.broken ==> written == |Concat(taken)|)
      ensures curState == StateIdle || curState == StateClosed || err != Nil
      ensures curState == StateIdle || dst.broken || src.Stream() == [] || src.rd.patience >= MAX_EMPTY_READS
      ensures curState != StateIdle ==> Pumped(old(clientUnRead), old(src.Stream()), taken, probed, src.Stream(), src.rd, urlOk)
      ensures curState == StateIdle ==> buf != [] && |buf| <= COPY_SIZE && |buf| + |src.rd.pending| <= |old(src.Stream())|
      ensures curState == StateIdle ==>
                Switched(old(clientUnRead), old(src.Stream()), taken, probed, buf, src.rd.pending, src.rd, urlOk)
    {
      hide Pumped, Remaining, Concat, Switched, Noise, Heard, Sink.Got, LookedAt, NoneBlank, Looked, Reader.Stream, OneRead;
      var packet := new char[COPY_SIZE](_ => '\0');
      ghost var stream, k := src.Stream(), clientUnRead;
      written, err, taken, probed := 0, Nil, [], [];
      PumpStart(k, stream, src.rd, urlOk);
      NothingTaken(k, start);
      NotTold(probed, given, back.room);
      while true
        invariant src.Valid() && fresh(packet) && packet.Length == COPY_SIZE && curState != StateIdle
        invariant clientUnRead == Remaining(k, taken)
        invariant dst.Got(start + Concat(taken)) && (!dst.broken ==> written == |Concat(taken)|)
        invariant back.Got(given + Noise(probed)) && Heard(probed, given, back.room)
        invariant Pumped(k, stream, taken, probed, src.Stream(), src.rd, urlOk)
        decreases |src.Stream()|, src.rd.patience - src.rd.empties
      {
        ghost var before := src.Stream();
        var nr, er := src.Read(packet);
        if nr > 0 {
          written, err, taken, probed := Turn(src, dst, back, packet, nr, urlOk, written, k, stream, start, given, taken, probed);
          if curState == StateIdle || err != Nil {
            return;
          }
        } else {
          PumpSkip(k, stream, taken, probed, before, src.Stream(), src.rd, urlOk);
        }
        if er != Nil {
          if er != Eof {
            err := er;
          }
          curState := StateClosed;
          return;
        }
      }
    }

    /** The response pump: forwards what the server sends until it ends or the client
        fails.  The next request may start exactly when the server has ended in order,
        the client has got all of it, and the request pump is idle by then. */
    static method CopyResponse(src: Reader, dst: Sink, idle: bool, ghost start: Bytes)
      returns (resume: bool, err: Error, ghost given: Bytes)
      requires src.Valid() && dst.Got(start)
      modifies src, src.buf, src.rd, dst
      ensures src.Valid() && old(src.Stream()) == given + src.Stream() && dst.Got(start + given)
      ensures old(dst.broken) ==> dst.broken
      ensures src.rd.patience < MAX_EMPTY_READS ==> dst.broken || src.Stream() == []
      ensures resume ==> idle && src.Stream() == [] && src.rd.final == Eof && (dst.broken ==> given == [])
      ensures src.rd.patience < MAX_EMPTY_READS ==>
                (resume <==> idle && src.rd.final == Eof && (dst.broken ==> old(src.Stream()) == []))
    {
      var packet := new char[COPY_SIZE](_ => '\0');
      ghost var stream := src.Stream();
      resume, err, given := false, Nil, [];
      assert start + [] == start && [] + stream == stream;
      while true
        invariant src.Valid() && fresh(packet) && packet.Length == COPY_SIZE && !resume
        invariant stream == given + src.Stream() && dst.Got(start + given)
        invariant old(dst.broken) == dst.broken && (dst.broken ==> given == [])
        decreases |src.Stream()|, src.rd.patience - src.rd.empties
      {
        ghost var left := src.Stream();
        var nr, er := src.Read(packet);
        Assoc(given, packet[..nr], src.Stream());
        if nr > 0 {
          var nw;
          nw, err := dst.Write(packet[..nr], start + given);
          Assoc(start, given, packet[..nr]);
          given := given + packet[..nr];
          if err != Nil {
            return;
          }
          if nr != nw {
            err := ShortWrite;
            return;
          }
        } else {
          assert given + packet[..nr] == given;
        }
        if er != Nil {
          if er != Eof {
            err := er;
          } else if idle {
            resume := true;
          }
          return;
        }
      }
    }
  }
}
