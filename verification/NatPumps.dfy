/** What one bridge's goroutines do, after nat/bridge.go and proto/websocket.go: the
    program order that the protocol's senders and connections follow. */
module NatPumps {
  import opened Bytes
  import opened Net
  import opened TcpReader
  import opened NatTypes
  import opened NatProtocol

  const COPY_SIZE := 4096

  /** The sending half of a bridge, with all it has passed to its client hub. */
  class Outbox {
    const reqID: nat
    var sent: seq<Message>

    constructor (id: nat)
      ensures reqID == id && sent == []
    {
      reqID, sent := id, [];
    }

    method Post(kind: Kind, body: Bytes)
      modifies this
      ensures sent == old(sent) + [Message(reqID, kind, body)]
    {
      sent := sent + [Message(reqID, kind, body)];
    }

    /** `Bridge.Write` copies `p`, so the caller may reuse its buffer. */
    method Write(p: Bytes) returns (n: nat)
      modifies this
      ensures n == |p| && sent == old(sent) + [Message(reqID, Data, p)]
    {
      Post(Data, p);
      n := |p|;
    }

    /** Passes on what it reads, in order, until the source ends or fails. */
    method CopyBuffer(src: Source) returns (written: nat, err: Error, ghost chunks: seq<Message>)
      requires src.Valid()
      modifies this, src
      ensures src.Valid() && sent == old(sent) + chunks
      ensures forall i :: 0 <= i < |chunks| ==> chunks[i].id == reqID && chunks[i].kind == Data
      ensures src.pending == [] && Bodies(chunks) == old(src.pending) && written == |Bodies(chunks)|
      ensures err == if src.final == Eof then Nil else src.final
    {
      var buf := new char[COPY_SIZE](_ => '\0');
      ghost var all := src.pending;
      written, err, chunks := 0, Nil, [];
      while true
        invariant src.Valid() && sent == old(sent) + chunks && fresh(buf)
        invariant forall i :: 0 <= i < |chunks| ==> chunks[i].id == reqID && chunks[i].kind == Data
        invariant all == Bodies(chunks) + src.pending && written == |Bodies(chunks)|
        decreases |src.pending|, src.patience - src.empties
      {
        ghost var left := src.pending;
        var nr, er := src.Read(buf, 0, COPY_SIZE);
        if nr > 0 {
          var nw := Write(buf[..nr]);
          ghost var m := Message(reqID, Data, buf[..nr]);
          BodiesSnoc(chunks, m);
          assert left == buf[..nr] + src.pending;
          Assoc(Bodies(chunks), buf[..nr], src.pending);
          chunks := chunks + [m];
          written := written + nw;
        }
        if er != Nil {
          assert Bodies(chunks) + [] == Bodies(chunks);
          if er != Eof {
            err := er;
          }
          return;
        }
      }
    }

    /** The same from a buffered reader, which is what the server's side copies from. */
    method CopyBuffered(src: Reader) returns (written: nat, err: Error, ghost chunks: seq<Message>)
      requires src.Valid()
      modifies this, src, src.buf, src.rd
      ensures src.Valid() && sent == old(sent) + chunks
      ensures forall i :: 0 <= i < |chunks| ==> chunks[i].id == reqID && chunks[i].kind == Data
      ensures old(src.Stream()) == Bodies(chunks) + src.Stream() && written == |Bodies(chunks)|
      ensures src.rd.patience < MAX_EMPTY_READS ==>
                src.Stream() == [] && err == if src.rd.final == Eof then Nil else src.rd.final
    {
      hide Bodies;
      var buf := new char[COPY_SIZE](_ => '\0');
      ghost var all := src.Stream();
      written, err, chunks := 0, Nil, [];
      NoBodies(all);
      while true
        invariant src.Valid() && sent == old(sent) + chunks && fresh(buf) && buf.Length == COPY_SIZE && err == Nil
        invariant forall i :: 0 <= i < |chunks| ==> chunks[i].id == reqID && chunks[i].kind == Data
        invariant all == Bodies(chunks) + src.Stream() && written == |Bodies(chunks)|
        decreases |src.Stream()|, src.rd.patience - src.rd.empties
      {
        ghost var left := src.Stream();
        var nr, er := src.Read(buf);
        if nr > 0 {
          var nw := Write(buf[..nr]);
          ghost var m := Message(reqID, Data, buf[..nr]);
          BodiesSnoc(chunks, m);
          Assoc(Bodies(chunks), buf[..nr], src.Stream());
          chunks := chunks + [m];
          written := written + nw;
        } else {
          assert buf[..nr] + src.Stream() == src.Stream();
        }
        if er != Nil {
          if er != Eof {
            err := er;
          }
          return;
        }
      }
    }

    /** The sending goroutine of `wsTunnel.transfer` with its opening call: a
        "create", the request read so far, the rest of the stream, a "close". */
    method SendRequest(buffer: Bytes, src: Reader)
      requires src.Valid() && sent == []
      modifies this, src, src.buf, src.rd
      ensures src.Valid() && SentOk(reqID, sent) && Ended(sent)
      ensures forall i :: 0 <= i < |sent| ==> (sent[i].kind == Create <==> i == 0)
      ensures Bodies(sent) + src.Stream() == buffer + old(src.Stream())
      ensures src.rd.patience < MAX_EMPTY_READS ==> src.Stream() == []
    {
      hide *;
      Post(Create, []);
      var n := Write(buffer);
      var written, err;
      ghost var chunks;
      written, err, chunks := CopyBuffered(src);
      Post(Close, []);
      assert sent == [Message(reqID, Create, []), Message(reqID, Data, buffer)] + chunks + [Message(reqID, Close, [])];
      WholeRequest(reqID, buffer, chunks);
      Assoc(buffer, Bodies(chunks), src.Stream());
    }
  }

  lemma {:induction false} NoBodies(s: Bytes)
    ensures Bodies([]) + s == s && |Bodies([])| == 0
  {
  }

  lemma {:induction false} BodiesAppend(a: seq<Message>, b: seq<Message>)
    ensures Bodies(a + b) == Bodies(a) + Bodies(b)
  {
    if b == [] {
      assert a + b == a;
    } else {
      var front, m := b[..|b| - 1], b[|b| - 1];
      BodiesAppend(a, front);
      BodiesSnoc(a + front, m);
      assert a + b == a + front + [m];
      Assoc(Bodies(a), Bodies(front), m.body);
    }
  }

  lemma {:induction false} WholeChunks(chunks: seq<Bytes>, i: nat)
    requires i < |chunks|
    ensures Concat(chunks[..i + 1]) == Concat(chunks[..i]) + chunks[i]
    ensures Concat(chunks) == Concat(chunks[..i + 1]) + Concat(chunks[i + 1..])
  {
    ConcatSnoc(chunks[..i], chunks[i]);
    assert chunks[..i] + [chunks[i]] == chunks[..i + 1];
    ConcatAppend(chunks[..i + 1], chunks[i + 1..]);
    assert chunks[..i + 1] + chunks[i + 1..] == chunks;
  }

  /** A "create", some data and a "close" are a sender's program. */
  lemma {:induction false} WholeRequest(id: nat, buffer: Bytes, chunks: seq<Message>)
    requires forall i :: 0 <= i < |chunks| ==> chunks[i].id == id && chunks[i].kind == Data
    ensures var sent := [Message(id, Create, []), Message(id, Data, buffer)] + chunks + [Message(id, Close, [])];
            && SentOk(id, sent) && Ended(sent) && Bodies(sent) == buffer + Bodies(chunks)
            && forall i :: 0 <= i < |sent| ==> (sent[i].kind == Create <==> i == 0)
  {
    var head := [Message(id, Create, []), Message(id, Data, buffer)];
    BodiesSnoc([], head[0]);
    BodiesSnoc([head[0]], head[1]);
    assert [] + [head[0]] == [head[0]] && [head[0]] + [head[1]] == head;
    hide Bodies;
    BodiesAppend(head, chunks);
    BodiesSnoc(head + chunks, Message(id, Close, []));
  }

  lemma {:induction false} ChunksPrefix(chunks: seq<Bytes>, i: nat, start: Bytes)
    requires i < |chunks|
    ensures start + Concat(chunks[..i + 1]) == start + Concat(chunks[..i]) + chunks[i] <= start + Concat(chunks)
  {
    hide Concat;
    WholeChunks(chunks, i);
    Assoc(start, Concat(chunks[..i]), chunks[i]);
    Assoc(start, Concat(chunks[..i + 1]), Concat(chunks[i + 1..]));
  }

  /** `WritePump` over the chunks its channel yields before it is closed: the connection
      gets as much of them as it takes. */
  method WritePump(chunks: seq<Bytes>, conn: Sink, ghost start: Bytes) returns (written: nat, err: Error)
    requires conn.Got(start)
    modifies conn
    ensures conn.Got(start + Concat(chunks))
    ensures !conn.broken ==> err == Nil && written == |Concat(chunks)|
  {
    assert Concat(chunks[..0]) == [];
    hide Concat;
    written, err := 0, Nil;
    var i := 0;
    assert start + [] == start;
    while i < |chunks|
      invariant 0 <= i <= |chunks|
      invariant conn.Got(start + Concat(chunks[..i]))
      invariant !conn.broken ==> written == |Concat(chunks[..i])| && err == Nil
    {
      ChunksPrefix(chunks, i, start);
      WholeChunks(chunks, i);
      var nw;
      nw, err := conn.Write(chunks[i], start + Concat(chunks[..i]));
      if err != Nil {
        BrokenGot(conn, start + Concat(chunks[..i + 1]), start + Concat(chunks));
        return;
      }
      written := written + nw;
      i := i + 1;
    }
    assert chunks[..i] == chunks;
  }
}
