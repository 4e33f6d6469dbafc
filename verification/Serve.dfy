/** A client connection from its first request to its last, after proto/client.go,
    proto/keep.go and `response` in proto/http.go. */
module Serve {
  import opened Bytes
  import opened Net
  import opened Lines
  import opened TcpReader
  import opened HeaderSpec
  import opened HeaderWriter
  import opened RoundTrip
  import opened HttpRequest
  import opened ConnectLine
  import opened KeepAlive

  const ESTABLISHED := "HTTP/1.1 200 Connection established\r\n\r\n"

  /** What a server sends back, whether it ends in order, and whether it does so when the
      request pump has come to rest. */
  datatype Answer = Answer(bytes: Bytes, clean: bool, late: bool)

  /** What a chain of requests asks of the outside: the URL library's verdict on an
      address, the first line it rewrites (which also depends on the Host field), whether
      the handshake of the n-th request succeeds, how much its server takes, and what it
      answers. */
  datatype Outside = Outside(urlOk: string -> bool, rewrite: (string, Fields) -> string,
                             reached: (nat, Request) -> bool, room: nat -> nat, answer: nat -> Answer)

  /** What became of one request: the stream in front of it, how much of that was in the
      buffer (of `size`) when the method was looked for, what the client had been handed
      by then, what was read, from which bytes, whether it was passed on, the packets
      pumped to its server, the look the pump took, the text the server was sent, and
      where the client's stream stands: behind a packet kept for the next request, if the
      pump switched. */
  datatype Hop = Hop(stream: Bytes, seen: Bytes, size: nat, given: Bytes, q: Request, head: Bytes, passed: bool,
                     pumped: seq<Bytes>, probed: seq<Probe>, text: Bytes, switched: bool, kept: Bytes, rest: Bytes) {
    /** The stretch of the client's stream that this request took. */
    function Taken(): Bytes {
      head + (q.body + Concat(pumped))
    }

    /** CONNECT requests are not repeated to their server. */
    predicate Printed() {
      passed && q.verb != "CONNECT"
    }

    /** What its server is meant to get. */
    function Meant(): Bytes {
      if Printed() then text + q.body + Concat(pumped) else Concat(pumped)
    }

    /** What the client is told when its request is passed on. */
    function Opening(): Bytes {
      if q.verb == "CONNECT" then ESTABLISHED else []
    }

    /** What the client is meant to get for it, what reading and looking tell it included. */
    function Reply(n: nat, out: Outside): Bytes {
      if !q.ok || !out.reached(n, q) then Told(q.kind) else Opening() + Noise(probed) + out.answer(n).bytes
    }

    /** The next request is served: this one's pump stopped at it, and then its server
        ended in order with all it sent handed to a client that was there to take it. */
    predicate Resumes(n: nat, out: Outside, room: nat) {
      && switched && out.answer(n).late && out.answer(n).clean
      && (|given + Reply(n, out)| <= room || out.answer(n).bytes == [])
    }
  }

  /** A request as it is sent: first line, printed header, empty line. */
  ghost predicate TextOf(text: Bytes, line: string, h: Fields) {
    exists kvs :: Listing(kvs, h, h.Keys) && text == line + CRLF + PrintFields(Flatten(kvs)) + CRLF
  }

  function Behind(s: Bytes, n: nat): Bytes {
    if n <= |s| then s[n..] else []
  }

  /** The part of the stream behind the request that was read. */
  function Left(hop: Hop): Bytes {
    Behind(hop.stream, |hop.head| + |hop.q.body|)
  }

  ghost predicate Read(hop: Hop, rd: Source, urlOk: string -> bool) {
    && hop.stream == hop.head + (hop.q.body + Left(hop))
    && hop.seen <= hop.stream && NoneEmpty(hop.q.header) && |hop.q.body| <= hop.size
    && (hop.stream != [] && rd.patience < MAX_EMPTY_READS && hop.size > 0 ==> hop.seen != [])
    && ReadAs(hop.q, hop.seen, hop.stream, Left(hop), hop.size, rd, urlOk)
    && (hop.q.ok ==> hop.head != [] && BodyOk(hop.q, true))
    && (hop.q.ok && HeadBuffered(hop.seen) ==> BodyOk(hop.q, hop.head + hop.q.body == hop.seen))
  }

  /** What became of every byte behind the request that was read. */
  ghost predicate Accounted(hop: Hop, rd: Source, urlOk: string -> bool) {
    && (if hop.switched then Switched(hop.q.clientUnRead, Left(hop), hop.pumped, hop.probed, hop.kept, hop.rest, rd, urlOk)
        else hop.kept == [] && Pumped(hop.q.clientUnRead, Left(hop), hop.pumped, hop.probed, hop.rest, rd, urlOk))
    && (!hop.passed ==> hop.pumped == [] && hop.probed == [] && !hop.switched)
  }

  /** Everything about the n-th request that its stream and the outside decide: it is
      the one its stream starts with, in whatever chunks; it is passed on exactly when
      it was read, its server reached and, for a CONNECT, the client could be told so;
      what is sent is its own rewritten line and its own header; every byte behind it is
      accounted for; and it goes on until the stream ends or the server takes no more,
      unless the pump switches. */
  ghost predicate Genuine(hop: Hop, n: nat, rd: Source, out: Outside, room: nat) {
    && Read(hop, rd, out.urlOk)
    && (hop.passed <==> hop.q.ok && out.reached(n, hop.q) && (hop.q.verb == "CONNECT" ==> |hop.given + ESTABLISHED| <= room))
    && (hop.Printed() ==> TextOf(hop.text, out.rewrite(hop.q.line, hop.q.header), hop.q.header))
    && Accounted(hop, rd, out.urlOk) && Heard(hop.probed, hop.given + hop.Opening(), room)
    && (hop.passed && !hop.switched && rd.patience < MAX_EMPTY_READS ==> hop.rest == [] || |hop.Meant()| > out.room(n))
  }

  /** A switch means a framed request whose body was passed on exactly. */
  lemma {:induction false} SwitchedIsBounded(hop: Hop, n: nat, rd: Source, out: Outside, room: nat)
    requires Genuine(hop, n, rd, out, room) && hop.switched
    ensures NoneEmpty(hop.q.header)
    ensures var f := FramingOf(hop.q.verb, hop.q.version, hop.q.header);
            f.Framed? && |hop.q.body| + |Concat(hop.pumped)| == f.n
  {
    RemainingZero(hop.q.clientUnRead, hop.pumped);
    hide ReadAs, TextOf, HeadBuffered, FramingOf, Remaining, Concat, LookedAt, Looked, Heard;
  }

  /** First line, header, blank line and the buffered part of the body; errors are
      ignored here, but then the server's connection is broken. */
  method SendHead(w: Sink, line: string, h: Fields, body: Bytes) returns (ghost text: Bytes)
    requires w.Got([])
    modifies w
    ensures w.Got(text + body)
    ensures TextOf(text, line, h)
  {
    hide PrintFields, Flatten, Listing, Sink.Got;
    assert [] + (line + CRLF) == line + CRLF;
    var n, err := w.Write(line + CRLF, []);
    ghost var kvs;
    err, kvs := WriteSubset(h, {}, w, line + CRLF);
    assert h.Keys - {} == h.Keys;
    n, err := w.Write(CRLF, line + CRLF + PrintFields(Flatten(kvs)));
    text := line + CRLF + PrintFields(Flatten(kvs)) + CRLF;
    n, err := w.Write(body, text);
  }

  /** Sends a request that was read to its server and pumps until the connection ends
      or the next request shows up, which is then in `buf`. */
  method PassOn(reader: Reader, server: Sink, back: Sink, q: Request, out: Outside, ghost given: Bytes)
    returns (again: bool, buf: Bytes, ghost text: Bytes, ghost taken: seq<Bytes>, ghost probed: seq<Probe>)
    requires reader.Valid() && reader.size <= COPY_SIZE && server != back && server.Got([]) && back.Got(given)
    modifies reader, reader.buf, reader.rd, server, back
    ensures reader.Valid() && back.Got(given + Noise(probed)) && Heard(probed, given, back.room)
    ensures again ==> buf != [] && |buf| <= COPY_SIZE && |buf| + |reader.rd.pending| <= |old(reader.Stream())|
                      && Switched(q.clientUnRead, old(reader.Stream()), taken, probed, buf, reader.rd.pending, reader.rd, out.urlOk)
    ensures !again ==> Pumped(q.clientUnRead, old(reader.Stream()), taken, probed, reader.Stream(), reader.rd, out.urlOk)
    ensures server.Got(if q.verb == "CONNECT" then Concat(taken) else text + q.body + Concat(taken))
    ensures again || server.broken || reader.Stream() == [] || reader.rd.patience >= MAX_EMPTY_READS
    ensures q.verb != "CONNECT" ==> TextOf(text, out.rewrite(q.line, q.header), q.header)
  {
    hide Pumped, Switched, Remaining, Concat, TextOf, Sink.Got, Noise, Heard;
    text := [];
    ghost var start := [];
    if q.verb != "CONNECT" {
      text := SendHead(server, out.rewrite(q.line, q.header), q.header, q.body);
      start := text + q.body;
    }
    var tunnel := new Tunnel();
    tunnel.curState, tunnel.clientUnRead := StateActive, q.clientUnRead;
    var written, err;
    written, err, taken, probed := tunnel.CopyRequest(reader, server, back, out.urlOk, start, given);
    again, buf := tunnel.curState == StateIdle, tunnel.buf;
    assert [] + Concat(taken) == Concat(taken);
  }

  /** Hands a server's answer to the client; whether the next request may start. */
  method PassBack(answer: Answer, back: Sink, idle: bool, ghost start: Bytes) returns (resume: bool)
    requires back.Got(start)
    modifies back
    ensures back.Got(start + answer.bytes)
    ensures resume <==> idle && answer.late && answer.clean && (|start + answer.bytes| <= back.room || answer.bytes == [])
  {
    var conn := new Source(answer.bytes, if answer.clean then Eof else Failure, MAX_EMPTY_READS - 1, true);
    var reader := new Reader.Sized(conn, DEFAULT_BUF_SIZE);
    var err;
    ghost var given;
    assert reader.Stream() == answer.bytes;
    resume, err, given := Tunnel.CopyResponse(reader, back, idle && answer.late, start);
    GivenAll(start, given, reader.Stream(), answer.bytes);
    if back.broken {
      BrokenGot(back, start + given, start + answer.bytes);
    }
  }

  lemma {:induction false} GivenAll(start: Bytes, given: Bytes, left: Bytes, all: Bytes)
    requires all == given + left
    ensures start + given <= start + all && (left == [] ==> given == all)
  {
    Assoc(start, given, left);
  }

  /** Reads a request; it is not passed on yet. */
  method ReadHop(reader: Reader, back: Sink, urlOk: string -> bool, ghost given: Bytes)
    returns (q: Request, ghost hop: Hop)
    requires reader.Valid() && back.Got(given)
    modifies reader, reader.buf, reader.rd, back
    ensures reader.Valid() && back.Got(given + Told(q.kind)) && (q.ok ==> q.kind == Http && HeadMatches(hop.seen))
    ensures |reader.Stream()| <= |old(reader.Stream())|
    ensures hop == Hop(old(reader.Stream()), hop.seen, reader.size, given, q, hop.head, false, [], [], [], false, [], reader.Stream())
    ensures Read(hop, reader.rd, urlOk) && Left(hop) == reader.Stream()
    ensures old(reader.Unread()) != [] ==> hop.seen == old(reader.Unread())
    ensures !HeadMatches(hop.seen) && !SocksHead(hop.seen) ==> hop.stream == hop.seen + reader.rd.pending
  {
    hide *;
    ghost var stream, head, seen := reader.Stream(), [], [];
    q, head, seen := ReadRequest(reader, back, urlOk, given);
    OutcomeIs(q, head, seen, stream, reader.Stream(), reader.size, reader.r == reader.w, reader.rd, urlOk);
    hop := Hop(stream, seen, reader.size, given, q, head, false, [], [], [], false, [], reader.Stream());
    HopRead(hop, reader.r == reader.w, reader.Stream(), reader.rd, urlOk);
  }

  /** Passes on a request that was read, and its answer back. */
  method PassHop(reader: Reader, server: Sink, back: Sink, q: Request, out: Outside, n: nat, ghost hop0: Hop)
    returns (again: bool, buf: Bytes, ghost hop: Hop, ghost left: Bytes)
    requires reader.Valid() && reader.size <= COPY_SIZE && server != back && server.Got([]) && server.room == out.room(n)
    requires hop0.q == q && q.ok && out.reached(n, q) && back.Got(hop0.given + hop0.Opening())
    requires q.verb == "CONNECT" ==> |hop0.given + ESTABLISHED| <= back.room
    requires hop0 == hop0.(passed := false, pumped := [], probed := [], text := [], switched := false, kept := [], rest := reader.Stream())
    requires Read(hop0, reader.rd, out.urlOk) && Left(hop0) == reader.Stream()
    modifies reader, reader.buf, reader.rd, server, back
    ensures reader.Valid()
    ensures hop.seen == hop0.seen && hop == hop0.(passed := true, pumped := hop.pumped, probed := hop.probed, text := hop.text,
                         switched := hop.switched, kept := buf, rest := left + reader.rd.pending)
    ensures Genuine(hop, n, reader.rd, out, back.room) && (again <==> hop.Resumes(n, out, back.room))
    ensures hop.switched ==> left == [] && buf != [] && |buf| <= COPY_SIZE && |buf| + |reader.rd.pending| < |hop.stream|
    ensures server.Got(hop.Meant()) && back.Got(hop.given + hop.Reply(n, out))
  {
    hide *;
    ghost var middle, start := reader.Stream(), hop0.given + hop0.Opening();
    var switched;
    ghost var text, taken, probed;
    switched, buf, text, taken, probed := PassOn(reader, server, back, q, out, start);
    buf := if switched then buf else [];
    left := if switched then [] else reader.Unread();
    hop := hop0.(passed := true, pumped := taken, probed := probed, text := text, switched := switched,
                 kept := buf, rest := left + reader.rd.pending);
    OpeningIs(hop);
    OpeningIs(hop0);
    assert switched || reader.Stream() == left + reader.rd.pending by { StreamIs(reader); }
    assert [] + reader.rd.pending == reader.rd.pending;
    HopPassed(hop, n, middle, reader.rd, out, back.room);
    BrokenFits(server, hop.Meant());
    Answered(hop, n, out, start);
    again := PassBack(out.answer(n), back, switched, start + Noise(probed));
    ResumesIs(hop, n, out, back.room);
  }

  /** One request, read and passed on if its server can be reached. */
  method HandleRequest(reader: Reader, back: Sink, out: Outside, n: nat, ghost given: Bytes)
    returns (again: bool, buf: Bytes, server: Sink, ghost hop: Hop, ghost left: Bytes)
    requires reader.Valid() && reader.size <= COPY_SIZE && back.Got(given)
    modifies reader, reader.buf, reader.rd, back
    ensures reader.Valid() && fresh(server)
    ensures hop.stream == old(reader.Stream()) && hop.size == reader.size && hop.given == given
    ensures old(reader.Unread()) != [] ==> hop.seen == old(reader.Unread())
    ensures Genuine(hop, n, reader.rd, out, back.room)
    ensures !HeadMatches(hop.seen) && !SocksHead(hop.seen) ==> hop.stream == hop.seen + reader.rd.pending
    ensures again <==> hop.Resumes(n, out, back.room)
    ensures buf == hop.kept && hop.rest == left + reader.rd.pending
    ensures hop.switched ==> left == [] && buf != [] && |buf| <= COPY_SIZE && |buf| + |reader.rd.pending| < |old(reader.Stream())|
    ensures server.room == out.room(n) && server.Got(hop.Meant()) && back.Got(given + hop.Reply(n, out))
  {
    hide *;
    server := new Sink(out.room(n));
    again, buf := false, [];
    var q;
    q, hop := ReadHop(reader, back, out.urlOk, given);
    left := reader.Unread();
    assert hop.rest == left + reader.rd.pending by { StreamIs(reader); }
    HopRests(hop, n, reader.Stream(), reader.rd, out, back.room);
    if !q.ok {
      return;
    }
    HttpIsNotTold(q, given);
    if !out.reached(n, q) {
      return;
    }
    OpeningIs(hop);
    if q.verb == "CONNECT" {
      var nw, err := back.Write(ESTABLISHED, given);
      if err != Nil {
        Unanswered(hop, n, out, back);
        return;
      }
      BrokenFits(back, given + hop.Opening());
    }
    again, buf, hop, left := PassHop(reader, server, back, q, out, n, hop);
  }

  lemma {:induction false} StreamIs(reader: Reader)
    requires reader.Valid()
    ensures reader.Stream() == reader.Unread() + reader.rd.pending && reader.rd.Valid()
  {
  }

  lemma {:induction false} HopRead(hop: Hop, drained: bool, middle: Bytes, rd: Source, urlOk: string -> bool)
    requires Outcome(hop.q, hop.head, hop.seen, hop.stream, middle, hop.size, drained, rd, urlOk) && hop.seen <= hop.stream
    requires hop.stream != [] && rd.patience < MAX_EMPTY_READS && hop.size > 0 ==> hop.seen != []
    ensures Read(hop, rd, urlOk) && Left(hop) == middle
  {
    if hop.q.ok {
      BodyDecided(hop.q, drained);
    }
    hide ReadAs, HeadBuffered, BodyOk, Addressed, HeadMatches;
    assert Left(hop) == middle;
  }

  lemma {:induction false} BodyDecided(q: Request, drained: bool)
    requires NoneEmpty(q.header) && BodyOk(q, drained)
    ensures BodyOk(q, true)
  {
  }

  /** A request that goes no further. */
  lemma {:induction false} HopRests(hop: Hop, n: nat, middle: Bytes, rd: Source, out: Outside, room: nat)
    requires Read(hop, rd, out.urlOk) && Left(hop) == middle == hop.rest
    requires !hop.passed && hop.pumped == [] && hop.probed == [] && !hop.switched && hop.kept == []
    ensures !(hop.q.ok && out.reached(n, hop.q) && (hop.q.verb == "CONNECT" ==> |hop.given + ESTABLISHED| <= room)) ==>
              Genuine(hop, n, rd, out, room)
    ensures hop.Meant() == [] && !hop.Resumes(n, out, room)
    ensures !(hop.q.ok && out.reached(n, hop.q)) ==> hop.Reply(n, out) == Told(hop.q.kind)
  {
    hide Read, TextOf, Left, Told;
    PumpStart(hop.q.clientUnRead, middle, rd, out.urlOk);
  }

  lemma {:induction false} HopPassed(hop: Hop, n: nat, middle: Bytes, rd: Source, out: Outside, room: nat)
    requires hop.passed && hop.q.ok && out.reached(n, hop.q) && (hop.q.verb == "CONNECT" ==> |hop.given + ESTABLISHED| <= room)
    requires var was := hop.(passed := false, pumped := [], probed := [], text := [], switched := false, kept := [], rest := middle);
             Read(was, rd, out.urlOk) && Left(was) == middle
    requires hop.q.verb != "CONNECT" ==> TextOf(hop.text, out.rewrite(hop.q.line, hop.q.header), hop.q.header)
    requires Heard(hop.probed, hop.given + hop.Opening(), room)
    requires hop.switched ==> Switched(hop.q.clientUnRead, middle, hop.pumped, hop.probed, hop.kept, hop.rest, rd, out.urlOk)
    requires !hop.switched ==> hop.kept == [] && Pumped(hop.q.clientUnRead, middle, hop.pumped, hop.probed, hop.rest, rd, out.urlOk)
    ensures hop.Meant() == if hop.q.verb == "CONNECT" then Concat(hop.pumped) else hop.text + hop.q.body + Concat(hop.pumped)
    ensures hop.switched || rd.patience >= MAX_EMPTY_READS || hop.rest == [] || |hop.Meant()| > out.room(n) ==>
              Genuine(hop, n, rd, out, room)
    ensures hop.stream == hop.head + (hop.q.body + middle) && hop.head != []
  {
    var was := hop.(passed := false, pumped := [], probed := [], text := [], switched := false, kept := [], rest := middle);
    assert Read(hop, rd, out.urlOk) && Left(hop) == middle && hop.stream == hop.head + (hop.q.body + middle) && hop.head != [] by {
      SameRead(was, hop, rd, out.urlOk);
    }
    hide TextOf, Read, Left, Concat, Switched, Pumped, Heard;
  }

  /** What was read does not depend on what became of it. */
  lemma {:induction false} SameRead(was: Hop, hop: Hop, rd: Source, urlOk: string -> bool)
    requires Read(was, rd, urlOk) && was.stream == hop.stream && was.seen == hop.seen && was.size == hop.size
    requires was.q == hop.q && was.head == hop.head
    ensures Read(hop, rd, urlOk) && Left(hop) == Left(was)
    ensures hop.stream == hop.head + (hop.q.body + Left(hop)) && (hop.q.ok ==> hop.head != [])
  {
    hide ReadAs, BodyOk, HeadBuffered;
  }

  /** The client was gone before it could be told. */
  lemma {:induction false} Unanswered(hop: Hop, n: nat, out: Outside, back: Sink)
    requires hop.q.ok && out.reached(n, hop.q) && hop.q.verb == "CONNECT"
    requires back.broken && back.Got(hop.given + ESTABLISHED)
    ensures back.Got(hop.given + hop.Reply(n, out)) && |hop.given + ESTABLISHED| > back.room
  {
    var said, bytes := Noise(hop.probed), out.answer(n).bytes;
    assert ESTABLISHED + said + bytes == ESTABLISHED + (said + bytes);
    Assoc(hop.given, ESTABLISHED, said + bytes);
    BrokenGot(back, hop.given + ESTABLISHED, hop.given + hop.Reply(n, out));
    BrokenFits(back, hop.given + ESTABLISHED);
  }

  lemma {:induction false} Answered(hop: Hop, n: nat, out: Outside, start: Bytes)
    requires hop.q.ok && out.reached(n, hop.q) && start == hop.given + hop.Opening()
    ensures start + Noise(hop.probed) + out.answer(n).bytes == hop.given + hop.Reply(n, out)
  {
    hide Noise, Hop.Opening;
    var opening, said, bytes := hop.Opening(), Noise(hop.probed), out.answer(n).bytes;
    Assoc(hop.given, opening, said);
    Assoc(hop.given, opening + said, bytes);
  }

  lemma {:induction false} OpeningIs(hop: Hop)
    ensures hop.Opening() == if hop.q.verb == "CONNECT" then ESTABLISHED else []
    ensures hop.q.verb != "CONNECT" ==> hop.given + hop.Opening() == hop.given
  {
  }

  lemma {:induction false} HttpIsNotTold(q: Request, given: Bytes)
    ensures q.kind == Http ==> given + Told(q.kind) == given
  {
  }

  lemma {:induction false} ResumesIs(hop: Hop, n: nat, out: Outside, room: nat)
    ensures hop.Resumes(n, out, room) <==> hop.switched && out.answer(n).late && out.answer(n).clean
                                           && (|hop.given + hop.Reply(n, out)| <= room || out.answer(n).bytes == [])
  {
  }

  // ---- What a CONNECT loses ----

  /** A server that stays connected gets the request's text, the buffered part of its
      body and the pumped packets, exactly when the request is not a CONNECT or nothing
      was buffered behind its header block. */
  lemma {:induction false} ConnectLoses(hop: Hop)
    requires hop.passed
    ensures hop.Meant() == (if hop.Printed() then hop.text else []) + hop.q.body + Concat(hop.pumped)
            <==> hop.q.verb != "CONNECT" || hop.q.body == []
  {
    hide Concat;
    if !hop.Printed() {
      assert [] + hop.q.body + Concat(hop.pumped) == hop.q.body + Concat(hop.pumped);
      if hop.q.body != [] {
        assert |hop.q.body + Concat(hop.pumped)| > |Concat(hop.pumped)|;
      } else {
        assert [] + Concat(hop.pumped) == Concat(hop.pumped);
      }
    }
  }

  /** What was buffered: all of the packet behind the header block. */
  lemma {:induction false} ConnectBody(hop: Hop, n: nat, rd: Source, out: Outside, room: nat)
    requires Genuine(hop, n, rd, out, room) && hop.passed && hop.q.verb == "CONNECT" && HeadBuffered(hop.seen)
    ensures hop.seen == hop.head + hop.q.body && (hop.q.body == [] <==> hop.seen == hop.head)
  {
    hide Heard, Accounted, ReadAs, TextOf, HeadBuffered;
  }

  /** The request that the stream of such a packet starts with. */
  lemma {:induction false} ConnectReadAs(q: Request, seen: Bytes, left: Bytes, size: nat, rd: Source, urlOk: string -> bool,
                                         address: string, extra: Bytes)
    requires size >= 2 && Plain(address) && seen == ConnectText(address) + extra
    requires q.ok && ReadAs(q, seen, seen, left, size, rd, urlOk)
    ensures HeadBuffered(seen) && q.verb == "CONNECT" && q.body + left == extra
  {
    TextIsALine(address, extra);
    TextIsRecognised(address, extra);
    EmptyBlock(extra, size, rd.final);
    hide ConnectText, HeadMatches, ParseRequestLine, BlockEnds, HeaderSpec.ParseHeader, MethodOf, DropBreak, FirstLine;
    hide StartsRequest, Collect, Addressed;
  }

  lemma {:induction false} GenuineRead(hop: Hop, n: nat, rd: Source, out: Outside, room: nat) returns (left: Bytes)
    requires Genuine(hop, n, rd, out, room) && hop.passed
    ensures hop.q.ok && hop.stream == hop.head + (hop.q.body + left)
    ensures ReadAs(hop.q, hop.seen, hop.stream, left, hop.size, rd, out.urlOk)
  {
    hide ReadAs, TextOf, HeadBuffered, BodyOk;
    left := Behind(hop.stream, |hop.head| + |hop.q.body|);
  }

  lemma {:induction false} MeantOfConnect(hop: Hop)
    ensures hop.q.verb == "CONNECT" ==> hop.Meant() == Concat(hop.pumped)
  {
  }

  lemma {:induction false} AllOfIt(s: Bytes, head: Bytes, body: Bytes, left: Bytes)
    requires s == head + (body + left) && s == head + body
    ensures left == []
  {
  }

  /** So whatever stands behind a CONNECT in its packet never reaches its server. */
  lemma {:induction false} ConnectDropsBytes(hop: Hop, n: nat, rd: Source, out: Outside, room: nat, address: string, extra: Bytes)
    requires Genuine(hop, n, rd, out, room) && hop.passed && hop.size >= 2
    requires Plain(address) && hop.stream == hop.seen == ConnectText(address) + extra
    ensures hop.q.verb == "CONNECT" && hop.q.body == extra && hop.Meant() == Concat(hop.pumped)
  {
    var left := GenuineRead(hop, n, rd, out, room);
    MeantOfConnect(hop);
    hide *;
    ConnectReadAs(hop.q, hop.seen, left, hop.size, rd, out.urlOk, address, extra);
    ConnectBody(hop, n, rd, out, room);
    AllOfIt(hop.stream, hop.head, hop.q.body, left);
    assert hop.q.body + [] == hop.q.body;
  }

  lemma {:induction false} PacketX()
    ensures ConnectText("a:1") + "X" == "CONNECT a:1 HTTP/1.1\r\n\r\nX" && Plain("a:1")
  {
  }

  lemma {:induction false} ConnectDropsX(hop: Hop, n: nat, rd: Source, out: Outside, room: nat)
    requires Genuine(hop, n, rd, out, room) && hop.passed && hop.size >= 2
    requires hop.stream == hop.seen == "CONNECT a:1 HTTP/1.1\r\n\r\nX"
    ensures hop.q.body == "X" && hop.Meant() == Concat(hop.pumped)
  {
    hide *;
    PacketX();
    ConnectDropsBytes(hop, n, rd, out, room, "a:1", "X");
  }

  // ---- A whole connection ----

  ghost predicate AllGenuine(hops: seq<Hop>, n: nat, rd: Source, out: Outside, room: nat) {
    forall i :: 0 <= i < |hops| ==> Genuine(hops[i], n + i, rd, out, room)
  }

  /** The chain goes on exactly as long as pumps end at a request and answers let it. */
  predicate GoesOn(hops: seq<Hop>, n: nat, out: Outside, room: nat) {
    && hops != []
    && (forall i :: 0 <= i < |hops| - 1 ==> hops[i].Resumes(n + i, out, room))
    && !hops[|hops| - 1].Resumes(n + |hops| - 1, out, room)
  }

  /** A request starts where the one before stopped: with its kept packet, and with all
      its answer handed to the client. */
  predicate Follows(a: Hop, b: Hop, n: nat, out: Outside) {
    b.stream == a.kept + a.rest && b.seen == a.kept && b.size == |a.kept| && b.given == a.given + a.Reply(n, out)
  }

  predicate Linked(hops: seq<Hop>, n: nat, out: Outside) {
    forall i :: 0 <= i < |hops| - 1 ==> Follows(hops[i], hops[i + 1], n + i, out)
  }

  /** The servers of a chain, and what each was handed. */
  ghost predicate Served(hops: seq<Hop>, n: nat, servers: seq<Sink>, out: Outside)
    reads servers
  {
    |servers| == |hops|
    && forall i :: 0 <= i < |hops| ==> servers[i].room == out.room(n + i) && servers[i].Got(hops[i].Meant())
  }

  /** A reader that starts with the packet kept from before. */
  method Adopt(client: Source, buf: Bytes) returns (next: Reader)
    requires client.Valid()
    ensures fresh(next) && fresh(next.buf) && next.rd == client && next.Valid()
    ensures next.size == |buf| && next.Unread() == buf && next.Stream() == buf + client.pending
  {
    var packet := new char[|buf|](i requires 0 <= i < |buf| => buf[i]);
    assert packet[..] == buf;
    next := new Reader.WithBuf(client, packet, |buf|);
  }

  /** A whole keep-alive chain, request by request.  Each is the request its part of the
      stream starts with and is passed on as such, with every byte accounted for; each
      starts where the one before stopped; and the client is handed the answers in
      order. */
  method ServeFrom(reader: Reader, back: Sink, out: Outside, n: nat, ghost given: Bytes)
    returns (ghost hops: seq<Hop>, ghost servers: seq<Sink>, ghost left: Bytes)
    requires reader.Valid() && reader.size <= COPY_SIZE && back.Got(given)
    modifies reader, reader.buf, reader.rd, back
    ensures AllGenuine(hops, n, reader.rd, out, back.room) && GoesOn(hops, n, out, back.room) && Linked(hops, n, out)
    ensures hops != [] && hops[0].stream == old(reader.Stream()) && hops[0].size == reader.size && hops[0].given == given
    ensures old(reader.Unread()) != [] ==> hops[0].seen == old(reader.Unread())
    ensures var last := hops[|hops| - 1]; !HeadMatches(last.seen) && !SocksHead(last.seen) ==> last.stream == last.seen + reader.rd.pending
    ensures var last := hops[|hops| - 1]; last.rest == left + reader.rd.pending && (last.switched ==> left == [])
    ensures Served(hops, n, servers, out) && forall i :: 0 <= i < |servers| ==> fresh(servers[i])
    ensures var last := hops[|hops| - 1]; back.Got(last.given + last.Reply(n + |hops| - 1, out))
    decreases |reader.Stream()|
  {
    hide *;
    var again, buf, server;
    ghost var hop;
    again, buf, server, hop, left := HandleRequest(reader, back, out, n, given);
    hops, servers := [hop], [server];
    LastHop(hop, n, reader.rd, out, back.room);
    OneServed(hop, n, server, out);
    if !again {
      return;
    }
    assert hop.switched by { ResumesIs(hop, n, out, back.room); }
    assert [] + reader.rd.pending == reader.rd.pending;
    StreamIs(reader);
    var next := Adopt(reader.rd, buf);
    ghost var more, others;
    more, others, left := ServeFrom(next, back, out, n + 1, given + hop.Reply(n, out));
    assert Follows(hop, more[0], n, out) by { FollowsIs(hop, more[0], n, out); }
    MoreHops(hop, more, n, reader.rd, out, back.room);
    MoreServed(hop, more, n, server, others, out);
    hops, servers := [hop] + more, [server] + others;
  }

  lemma {:induction false} MoreGenuine(hop: Hop, more: seq<Hop>, n: nat, rd: Source, out: Outside, room: nat)
    requires Genuine(hop, n, rd, out, room) && AllGenuine(more, n + 1, rd, out, room)
    ensures AllGenuine([hop] + more, n, rd, out, room)
  {
    hide Genuine;
    var all := [hop] + more;
    forall i | 0 <= i < |all|
      ensures Genuine(all[i], n + i, rd, out, room)
    {
      if i > 0 {
        assert all[i] == more[i - 1] && n + i == n + 1 + (i - 1);
      }
    }
  }

  lemma {:induction false} MoreLinked(hop: Hop, more: seq<Hop>, n: nat, out: Outside, room: nat)
    requires hop.Resumes(n, out, room) && GoesOn(more, n + 1, out, room) && Linked(more, n + 1, out)
    requires more != [] && Follows(hop, more[0], n, out)
    ensures GoesOn([hop] + more, n, out, room) && Linked([hop] + more, n, out)
  {
    hide Hop.Resumes, Follows;
    var all := [hop] + more;
    forall i | 0 <= i < |all| - 1
      ensures all[i].Resumes(n + i, out, room) && Follows(all[i], all[i + 1], n + i, out)
    {
      if i > 0 {
        assert all[i] == more[i - 1] && all[i + 1] == more[i] && n + i == n + 1 + (i - 1);
      }
    }
    assert n + |all| - 1 == n + 1 + |more| - 1;
    assert all[|all| - 1] == more[|more| - 1];
  }

  lemma {:induction false} MoreHops(hop: Hop, more: seq<Hop>, n: nat, rd: Source, out: Outside, room: nat)
    requires Genuine(hop, n, rd, out, room) && AllGenuine(more, n + 1, rd, out, room)
    requires hop.Resumes(n, out, room) && GoesOn(more, n + 1, out, room) && Linked(more, n + 1, out)
    requires more != [] && Follows(hop, more[0], n, out)
    ensures AllGenuine([hop] + more, n, rd, out, room) && GoesOn([hop] + more, n, out, room) && Linked([hop] + more, n, out)
    ensures ([hop] + more)[|[hop] + more| - 1] == more[|more| - 1] && n + |[hop] + more| - 1 == n + 1 + |more| - 1
  {
    hide *;
    MoreGenuine(hop, more, n, rd, out, room);
    MoreLinked(hop, more, n, out, room);
  }

  lemma {:induction false} FollowsIs(a: Hop, b: Hop, n: nat, out: Outside)
    ensures Follows(a, b, n, out) <==> b.stream == a.kept + a.rest && b.seen == a.kept && b.size == |a.kept|
                                       && b.given == a.given + a.Reply(n, out)
  {
  }

  lemma {:induction false} OneServed(hop: Hop, n: nat, server: Sink, out: Outside)
    requires server.room == out.room(n) && server.Got(hop.Meant())
    ensures Served([hop], n, [server], out)
  {
    hide Sink.Got, Hop.Meant;
  }

  lemma {:induction false} MoreServed(hop: Hop, more: seq<Hop>, n: nat, server: Sink, others: seq<Sink>, out: Outside)
    requires server.room == out.room(n) && server.Got(hop.Meant()) && Served(more, n + 1, others, out)
    ensures Served([hop] + more, n, [server] + others, out)
  {
    hide Sink.Got, Hop.Meant;
    var all, servers := [hop] + more, [server] + others;
    forall i | 0 <= i < |all|
      ensures servers[i].room == out.room(n + i) && servers[i].Got(all[i].Meant())
    {
      if i > 0 {
        assert all[i] == more[i - 1] && servers[i] == others[i - 1] && n + i == n + 1 + (i - 1);
      }
    }
  }

  lemma {:induction false} LastHop(hop: Hop, n: nat, rd: Source, out: Outside, room: nat)
    requires Genuine(hop, n, rd, out, room)
    ensures AllGenuine([hop], n, rd, out, room) && Linked([hop], n, out)
    ensures !hop.Resumes(n, out, room) ==> GoesOn([hop], n, out, room)
  {
    hide Genuine, Hop.Resumes;
  }

  /** From the first byte of a client's connection. */
  method ServeConnection(client: Source, back: Sink, out: Outside)
    returns (ghost hops: seq<Hop>, ghost servers: seq<Sink>, ghost left: Bytes)
    requires client.Valid() && back.Got([])
    modifies client, back
    ensures AllGenuine(hops, 0, client, out, back.room) && GoesOn(hops, 0, out, back.room) && Linked(hops, 0, out)
    ensures hops[0].stream == old(client.pending) && hops[0].size == DEFAULT_BUF_SIZE && hops[0].given == []
    ensures var last := hops[|hops| - 1]; !HeadMatches(last.seen) && !SocksHead(last.seen) ==> last.stream == last.seen + client.pending
    ensures var last := hops[|hops| - 1]; last.rest == left + client.pending && (last.switched ==> left == [])
    ensures Served(hops, 0, servers, out) && forall i :: 0 <= i < |servers| ==> fresh(servers[i])
    ensures var last := hops[|hops| - 1]; back.Got(last.given + last.Reply(|hops| - 1, out))
  {
    hide AllGenuine, GoesOn, Linked, Sink.Got, HeadMatches, Hop.Reply;
    var reader := new Reader.Sized(client, DEFAULT_BUF_SIZE);
    hops, servers, left := ServeFrom(reader, back, out, 0, []);
  }

  // ---- The parts of the stream ----

  /** The look this pump took, if any, was at a packet that speaks for itself. */
  ghost predicate Calm(hop: Hop, urlOk: string -> bool) {
    forall i :: 0 <= i < |hop.probed| ==> SpeaksForItself(hop.probed[i].packet, urlOk)
  }

  /** Then the stream is cut into what the request took, the packet kept, and the rest;
      a kept packet starts a request, and no packet did that was forwarded with the body
      complete. */
  lemma {:induction false} CalmHop(hop: Hop, n: nat, rd: Source, out: Outside, room: nat)
    requires Genuine(hop, n, rd, out, room) && Calm(hop, out.urlOk)
    ensures hop.stream == hop.Taken() + (hop.kept + hop.rest)
    ensures hop.switched ==> HttpHead(hop.kept)
    ensures forall i :: 0 <= i < |hop.pumped| && Remaining(hop.q.clientUnRead, hop.pumped[..i]) == 0 ==> !HttpHead(hop.pumped[i])
  {
    hide ReadAs, BodyOk, TextOf, HeadBuffered, FramingOf, Remaining, NeedsMore, HttpHead, Concat, SpeaksForItself, Heard;
    assert Left(hop) == Concat(hop.pumped) + (hop.kept + hop.rest) by {
      CalmCut(hop.q.clientUnRead, Left(hop), hop.pumped, hop.probed, hop.kept, hop.rest, hop.switched, rd, out.urlOk);
    }
    Assoc(hop.q.body, Concat(hop.pumped), hop.kept + hop.rest);
    Assoc(hop.head, hop.q.body + Concat(hop.pumped), hop.kept + hop.rest);
    CalmLook(hop.q.clientUnRead, Left(hop), hop.pumped, hop.probed, hop.kept, hop.rest, hop.switched, rd, out.urlOk);
  }

  lemma {:induction false} CalmCut(k: int, s: Bytes, taken: seq<Bytes>, probed: seq<Probe>, kept: Bytes, rest: Bytes,
                                   switched: bool, rd: Source, urlOk: string -> bool)
    requires if switched then Switched(k, s, taken, probed, kept, rest, rd, urlOk)
             else kept == [] && Pumped(k, s, taken, probed, rest, rd, urlOk)
    requires forall i :: 0 <= i < |probed| ==> SpeaksForItself(probed[i].packet, urlOk)
    ensures s == Concat(taken) + (kept + rest)
  {
    hide NeedsMore, HttpHead, SocksPacket, SpeaksForItself, Remaining, LookedAt, Concat;
    assert [] + rest == rest;
    if !switched && probed != [] {
      var pr := probed[0];
      var a, b := taken[..pr.at], taken[pr.at + 1..];
      assert taken == a + ([taken[pr.at]] + b);
      ConcatAppend(a, [taken[pr.at]] + b);
      ConcatCons(taken[pr.at], b);
      var later := Concat(b) + rest;
      assert pr.lost + later == later;
      Assoc(pr.packet, Concat(b), rest);
      Assoc(Concat(a), pr.packet + Concat(b), rest);
    } else if switched {
      assert probed[0].lost + rest == rest;
    }
  }

  lemma {:induction false} ConcatCons(c: Bytes, b: seq<Bytes>)
    ensures Concat([c] + b) == c + Concat(b)
  {
    assert ([c] + b)[1..] == b;
  }

  lemma {:induction false} CalmLook(k: int, s: Bytes, taken: seq<Bytes>, probed: seq<Probe>, kept: Bytes, rest: Bytes,
                                    switched: bool, rd: Source, urlOk: string -> bool)
    requires if switched then Switched(k, s, taken, probed, kept, rest, rd, urlOk)
             else Pumped(k, s, taken, probed, rest, rd, urlOk)
    requires forall i :: 0 <= i < |probed| ==> SpeaksForItself(probed[i].packet, urlOk)
    ensures switched ==> HttpHead(kept)
    ensures forall i :: 0 <= i < |taken| && Remaining(k, taken[..i]) == 0 ==> !HttpHead(taken[i])
  {
    hide NeedsMore, HttpHead, SocksPacket, Remaining, Concat;
  }

  /** Bytes come behind the packet that was looked at, and the client heard what it was
      told. */
  ghost predicate Eventful(hop: Hop) {
    hop.probed != [] ==>
      && hop.probed[0].heard && hop.probed[0].at <= |hop.pumped|
      && |Left(hop)| > |Concat(hop.pumped[..hop.probed[0].at])| + |hop.probed[0].packet|
  }

  /** And only then: on a connection as TCP's, with bytes to lose, the stream of a hop is
      cut like this exactly if its look was at a packet that speaks for itself. */
  lemma {:induction false} CalmExactly(hop: Hop, n: nat, rd: Source, out: Outside, room: nat)
    requires Genuine(hop, n, rd, out, room) && rd.patience == 0 && rd.errAlone && Eventful(hop)
    ensures hop.stream == hop.Taken() + (hop.kept + hop.rest) <==> Calm(hop, out.urlOk)
  {
    hide *;
    if Calm(hop, out.urlOk) {
      CalmHop(hop, n, rd, out, room);
    } else {
      GenuineParts(hop, n, rd, out, room);
      HopShowsLoss(hop, rd, out.urlOk);
    }
  }

  lemma {:induction false} GenuineParts(hop: Hop, n: nat, rd: Source, out: Outside, room: nat)
    requires Genuine(hop, n, rd, out, room)
    ensures Accounted(hop, rd, out.urlOk) && hop.stream == hop.head + (hop.q.body + Left(hop))
  {
    hide ReadAs, BodyOk, TextOf, HeadBuffered, Heard, Accounted;
  }

  lemma {:induction false} HopShowsLoss(hop: Hop, rd: Source, urlOk: string -> bool)
    requires Accounted(hop, rd, urlOk) && hop.stream == hop.head + (hop.q.body + Left(hop))
    requires rd.patience == 0 && rd.errAlone && Eventful(hop) && !Calm(hop, urlOk)
    ensures |hop.stream| > |hop.Taken() + (hop.kept + hop.rest)|
  {
    hide SpeaksForItself, Concat, Looked, Remaining, Left, NoneBlank;
    LossShows(hop.q.clientUnRead, Left(hop), hop.pumped, hop.probed, hop.kept, hop.rest, hop.switched, rd, urlOk);
  }

  lemma {:induction false} LossShows(k: int, s: Bytes, taken: seq<Bytes>, probed: seq<Probe>, kept: Bytes, rest: Bytes,
                                     switched: bool, rd: Source, urlOk: string -> bool)
    requires if switched then Switched(k, s, taken, probed, kept, rest, rd, urlOk)
             else kept == [] && Pumped(k, s, taken, probed, rest, rd, urlOk)
    requires rd.patience == 0 && rd.errAlone && probed != [] && |probed| <= 1 && !SpeaksForItself(probed[0].packet, urlOk)
    requires probed[0].heard && probed[0].at <= |taken| && |s| > |Concat(taken[..probed[0].at])| + |probed[0].packet|
    ensures |s| > |Concat(taken) + (kept + rest)|
  {
    hide NeedsMore, HttpHead, SocksPacket, SpeaksForItself, Remaining, LookedAt, Concat, Looked;
    var pr := probed[0];
    assert taken[..|taken|] == taken;
    if switched {
      LosesExactly(pr, kept, true, rest, rd, urlOk);
      LookedLength(pr, kept, true, rest, rd, urlOk);
    } else {
      var a, b := taken[..pr.at], taken[pr.at + 1..];
      assert taken == a + ([taken[pr.at]] + b);
      ConcatAppend(a, [taken[pr.at]] + b);
      ConcatCons(taken[pr.at], b);
      LosesExactly(pr, taken[pr.at], false, Concat(b) + rest, rd, urlOk);
      LookedLength(pr, taken[pr.at], false, Concat(b) + rest, rd, urlOk);
    }
  }

  lemma {:induction false} LookedLength(pr: Probe, now: Bytes, http: bool, after: Bytes, rd: Source, urlOk: string -> bool)
    requires Looked(pr, now, http, after, rd, urlOk)
    ensures |now| == |pr.packet|
  {
  }

  function TakenBy(hops: seq<Hop>): Bytes {
    if hops == [] then [] else hops[0].Taken() + TakenBy(hops[1..])
  }

  /** So a connection on which every look was at such a packet is cut, in order and with
      nothing lost or repeated, into what each request took and what was left; and every
      later request was seen whole in the packet it starts with. */
  lemma {:induction false} CalmIsPartition(hops: seq<Hop>, n: nat, rd: Source, out: Outside, room: nat)
    requires hops != [] && AllGenuine(hops, n, rd, out, room) && GoesOn(hops, n, out, room) && Linked(hops, n, out)
    requires forall i :: 0 <= i < |hops| ==> Calm(hops[i], out.urlOk)
    ensures var last := hops[|hops| - 1]; hops[0].stream == TakenBy(hops) + (last.kept + last.rest)
    ensures forall i :: 0 < i < |hops| ==> HttpHead(hops[i].seen)
  {
    hide Genuine, Calm, HttpHead, Hop.Taken;
    var hop, last := hops[0], hops[|hops| - 1];
    CalmHop(hop, n, rd, out, room);
    if |hops| == 1 {
      assert hop.Taken() + [] == hop.Taken() && TakenBy(hops[1..]) == [];
    } else {
      var more := hops[1..];
      Tails(hops, n, rd, out, room);
      CalmIsPartition(more, n + 1, rd, out, room);
      assert hop.stream == hop.Taken() + more[0].stream && hop.switched;
      assert more[|more| - 1] == last;
      Assoc(hop.Taken(), TakenBy(more), last.kept + last.rest);
      forall i | 0 < i < |hops|
        ensures HttpHead(hops[i].seen)
      {
        assert i > 1 ==> hops[i] == more[i - 1];
      }
    }
  }

  lemma {:induction false} Tails(hops: seq<Hop>, n: nat, rd: Source, out: Outside, room: nat)
    requires |hops| > 1 && AllGenuine(hops, n, rd, out, room) && GoesOn(hops, n, out, room) && Linked(hops, n, out)
    ensures AllGenuine(hops[1..], n + 1, rd, out, room) && GoesOn(hops[1..], n + 1, out, room) && Linked(hops[1..], n + 1, out)
  {
    hide Genuine, Hop.Resumes, Follows;
    var more := hops[1..];
    forall i | 0 <= i < |more|
      ensures Genuine(more[i], n + 1 + i, rd, out, room)
      ensures i < |more| - 1 ==> more[i].Resumes(n + 1 + i, out, room) && Follows(more[i], more[i + 1], n + 1 + i, out)
    {
      assert more[i] == hops[i + 1] && n + 1 + i == n + (i + 1);
    }
    assert n + 1 + |more| - 1 == n + |hops| - 1;
  }

  // ---- What either end gets ----

  /** What a client is told for a request that was passed on and calmly pumped: for a
      CONNECT that it is established, and then its server's answer. */
  lemma {:induction false} ReplyMeans(hop: Hop, n: nat, rd: Source, out: Outside, room: nat)
    requires Genuine(hop, n, rd, out, room) && Calm(hop, out.urlOk) && hop.passed
    ensures hop.Reply(n, out) ==
              (if hop.q.verb == "CONNECT" then "HTTP/1.1 200 Connection established\r\n\r\n" else "") + out.answer(n).bytes
  {
    hide ReadAs, BodyOk, TextOf, HeadBuffered, FramingOf, Remaining, Concat, SpeaksForItself, Heard, Left;
    CalmTold(hop.q.clientUnRead, Left(hop), hop.pumped, hop.probed, hop.kept, hop.rest, hop.switched, rd, out.urlOk);
    assert hop.Opening() + [] == hop.Opening();
  }

  lemma {:induction false} CalmTold(k: int, s: Bytes, taken: seq<Bytes>, probed: seq<Probe>, kept: Bytes, rest: Bytes,
                                    switched: bool, rd: Source, urlOk: string -> bool)
    requires if switched then Switched(k, s, taken, probed, kept, rest, rd, urlOk)
             else kept == [] && Pumped(k, s, taken, probed, rest, rd, urlOk)
    requires forall i :: 0 <= i < |probed| ==> SpeaksForItself(probed[i].packet, urlOk)
    ensures Noise(probed) == []
  {
    hide NeedsMore, HttpHead, SocksPacket, SpeaksForItself, Remaining, LookedAt, Concat;
  }

  function AnswersOf(n: nat, k: nat, out: Outside): Bytes
    decreases k
  {
    if k == 0 then [] else out.answer(n).bytes + AnswersOf(n + 1, k - 1, out)
  }

  /** Along a calm connection without a CONNECT the client has, behind what it had before,
      the answers of the servers in the order of the requests and nothing between them;
      the last one's too if that was passed on. */
  lemma {:induction false} AnswersInOrder(hops: seq<Hop>, n: nat, rd: Source, out: Outside, room: nat)
    requires hops != [] && AllGenuine(hops, n, rd, out, room) && GoesOn(hops, n, out, room) && Linked(hops, n, out)
    requires forall i :: 0 <= i < |hops| ==> Calm(hops[i], out.urlOk) && hops[i].q.verb != "CONNECT"
    requires var last := hops[|hops| - 1]; last.passed || (!last.q.ok && last.q.kind != Socks5)
    ensures var last := hops[|hops| - 1];
            last.given + last.Reply(n + |hops| - 1, out)
            == hops[0].given + AnswersOf(n, if last.passed then |hops| else |hops| - 1, out)
  {
    hide Calm, Hop.Reply, ReadAs, TextOf, BodyOk, HeadBuffered, Accounted, Read, Heard, Left, Hop.Meant;
    var hop, last := hops[0], hops[|hops| - 1];
    assert Genuine(hop, n, rd, out, room);
    if |hops| == 1 {
      if last.passed {
        ReplyMeans(last, n, rd, out, room);
        assert "" + out.answer(n).bytes == out.answer(n).bytes && AnswersOf(n, 1, out) == out.answer(n).bytes + [];
      } else {
        NotPassedReply(last, n, out);
        assert AnswersOf(n, 0, out) == [];
      }
    } else {
      var more := hops[1..];
      Tails(hops, n, rd, out, room);
      AnswersInOrder(more, n + 1, rd, out, room);
      assert more[|more| - 1] == last && n + 1 + |more| - 1 == n + |hops| - 1;
      ResumedPassed(hop, n, rd, out, room);
      ReplyMeans(hop, n, rd, out, room);
      assert "" + out.answer(n).bytes == out.answer(n).bytes;
      var k := if last.passed then |more| else |more| - 1;
      Assoc(hop.given, out.answer(n).bytes, AnswersOf(n + 1, k, out));
      assert more[0].given == hop.given + hop.Reply(n, out);
    }
  }

  lemma {:induction false} NotPassedReply(hop: Hop, n: nat, out: Outside)
    requires !hop.q.ok && hop.q.kind != Socks5
    ensures hop.Reply(n, out) == [] && hop.given + [] == hop.given
  {
  }

  lemma {:induction false} ResumedPassed(hop: Hop, n: nat, rd: Source, out: Outside, room: nat)
    requires Genuine(hop, n, rd, out, room) && hop.Resumes(n, out, room)
    ensures hop.passed
  {
    hide Read, TextOf, Switched, Pumped, Heard;
  }

  /** What a server is handed reads as the client's request: behind the rewritten first
      line a header block with the names that were read and of every value all but its
      outer blanks, and right behind that the body and what was pumped; unless the first
      name in order starts with a blank. */
  lemma {:induction false} ServerReads(hop: Hop, n: nat, rd: Source, out: Outside, room: nat, size: nat, fin: Error)
    returns (kvs: seq<KeyValues>)
    requires Genuine(hop, n, rd, out, room) && hop.Printed() && Settled(hop.seen, hop.stream, rd) && size >= 2
    ensures Listing(kvs, hop.q.header, hop.q.header.Keys)
    ensures var block := PrintFields(Flatten(kvs)) + CRLF + (hop.q.body + Concat(hop.pumped));
            && hop.Meant() == out.rewrite(hop.q.line, hop.q.header) + CRLF + block
            && (kvs == [] || (kvs[0].key != "" && !IsBlank(kvs[0].key[0])) ==>
                  var p := HeaderSpec.ParseHeader(block, size, fin);
                  p.err == Fine && p.rest == hop.q.body + Concat(hop.pumped) && BackAs(hop.q.header, Collect(p.fields)))
  {
    kvs := ListedIn(hop, n, rd, out, room);
    var line, rest := out.rewrite(hop.q.line, hop.q.header), hop.q.body + Concat(hop.pumped);
    HeaderNames(hop, n, rd, out, room);
    hide *;
    MeantIs(hop, line, kvs);
    if kvs == [] || (kvs[0].key != "" && !IsBlank(kvs[0].key[0])) {
      NotIndented(kvs, hop.q.header);
      WriteThenRead(hop.q.header, kvs, rest, size, fin);
    }
  }

  lemma {:induction false} ListedIn(hop: Hop, n: nat, rd: Source, out: Outside, room: nat) returns (kvs: seq<KeyValues>)
    requires Genuine(hop, n, rd, out, room) && hop.Printed()
    ensures Listing(kvs, hop.q.header, hop.q.header.Keys)
    ensures hop.text == out.rewrite(hop.q.line, hop.q.header) + CRLF + PrintFields(Flatten(kvs)) + CRLF
  {
    hide Read, Accounted, Heard, Listing, PrintFields, Flatten, Hop.Meant;
    kvs :| Listing(kvs, hop.q.header, hop.q.header.Keys)
           && hop.text == out.rewrite(hop.q.line, hop.q.header) + CRLF + PrintFields(Flatten(kvs)) + CRLF;
  }

  lemma {:induction false} MeantIs(hop: Hop, line: string, kvs: seq<KeyValues>)
    requires hop.Printed() && hop.text == line + CRLF + PrintFields(Flatten(kvs)) + CRLF
    ensures hop.Meant() == line + CRLF + (PrintFields(Flatten(kvs)) + CRLF + (hop.q.body + Concat(hop.pumped)))
  {
    hide PrintFields, Flatten, Concat;
    var fs, rest := PrintFields(Flatten(kvs)), hop.q.body + Concat(hop.pumped);
    Assoc(line + CRLF, fs, CRLF);
    Assoc(hop.text, hop.q.body, Concat(hop.pumped));
    Assoc(line + CRLF, fs + CRLF, rest);
  }

  /** Only storable, canonical names are ever read. */
  lemma {:induction false} HeaderNames(hop: Hop, n: nat, rd: Source, out: Outside, room: nat)
    requires Genuine(hop, n, rd, out, room) && hop.passed && Settled(hop.seen, hop.stream, rd)
    ensures forall k :: k in hop.q.header ==> Storable(k) && HeaderKeys.Canonical(k) == k && hop.q.header[k] != []
  {
    hide Accounted, Heard, TextOf, BodyOk, HeadBuffered, HeaderSpec.ParseHeader, HeadMatches, Left, Settled, Collect, Storable;
    hide HeaderKeys.Canonical, LineOk, ParseRequestLine, RawUrl, DropBreak, FirstLine, AfterLine, MethodOf;
    var p := HeaderSpec.ParseHeader(AfterLine(hop.stream), hop.size, rd.final);
    assert hop.q.header == Collect(p.fields);
    NamesRead(AfterLine(hop.stream), hop.size, rd.final);
    CollectNames(p.fields);
  }

  lemma {:induction false} NamesRead(s: Bytes, size: nat, fin: Error)
    requires size >= 2
    ensures AllStorable(HeaderSpec.ParseHeader(s, size, fin).fields)
  {
    ParsedNames(s, size, fin, []);
    hide ParseLines, Storable;
  }

  lemma {:induction false} NotIndented(kvs: seq<KeyValues>, h: Fields)
    requires kvs == [] || (kvs[0].key != "" && !IsBlank(kvs[0].key[0]))
    requires Listing(kvs, h, h.Keys) && forall k :: k in h ==> h[k] != []
    ensures !StartsIndented(Flatten(kvs))
  {
    hide IsBlank;
    if kvs != [] {
      assert kvs[0].key in h;
      FlattenStart(kvs);
    }
  }
}
