/** Lines over the buffered reader, after proto/text/reader.go. */
module TextReader {
  import opened Bytes
  import opened Net
  import opened Lines
  import opened TcpReader

  /** The promise of a line read that turns `stream` into `rest`.  A source that
      never stalls for a hundred reads yields the first line; without a line break
      all is taken, and (when errors come alone) the outcome is decided by the
      stream and the buffer length only. */
  ghost predicate LineOf(stream: Bytes, raw: Bytes, rest: Bytes, e: Error, size: nat, rd: Source) {
    && stream == raw + rest
    && (e == Nil || e == NoProgress || e == rd.final)
    && (e == Nil ==> raw != [])
    && (EndsLine(raw) ==> '\n' in stream && raw == FirstLine(stream))
    && (e == NoProgress ==> rd.patience >= MAX_EMPTY_READS)
    && (rd.patience < MAX_EMPTY_READS ==>
          if '\n' in stream then e == Nil && raw == FirstLine(stream)
          else rest == [] && (rd.errAlone && size >= 2 ==> (e != Nil <==> Lost(stream, size))))
  }

  class LineReader {
    const R: Reader

    constructor (r: Reader)
      ensures R == r
    {
      R := r;
    }

    /** Keeps reading pieces behind the `done` part of a line until it ends. */
    method ReadRest(done: Bytes, dropBreak: bool) returns (line: Bytes, e: Error, ghost raw: Bytes)
      requires R.Valid() && R.size >= 2 && Waiting(done, R.Stream())
      requires '\n' !in done + R.Stream() ==> Lost(done + R.Stream(), R.size) == Lost(R.Stream(), R.size)
      modifies R, R.buf, R.rd
      ensures |R.rd.pending| <= |old(R.rd.pending)|
      ensures R.Valid() && LineOf(done + old(R.Stream()), raw, R.Stream(), e, R.size, R.rd)
      ensures line == if e != Nil then [] else if dropBreak then DropBreak(raw) else raw
    {
      hide LineOf, Lost, EndsLine, DropBreak, FirstLine, PieceLen, Waiting;
      ghost var stream, most := done + R.Stream(), |R.rd.pending|;
      line, raw := done, done;
      while true
        invariant R.Valid() && stream == raw + R.Stream() && line == raw && |R.rd.pending| <= most
        invariant Waiting(raw, R.Stream())
        invariant '\n' !in stream ==> Lost(stream, R.size) == Lost(R.Stream(), R.size)
        decreases |R.Stream()|
      {
        var l, more, err;
        ghost var piece;
        l, more, err, piece := R.ReadLine(dropBreak);
        if err != Nil {
          NoLine();
          ErrorStep(raw, R.Stream(), err, R.size, R.rd);
          return [], err, raw;
        }
        Assoc(raw, piece, R.Stream());
        line := line + l;
        if !more {
          LastStep(raw, piece, R.Stream(), R.size, R.rd);
          raw := raw + piece;
          return line, Nil, raw;
        }
        PieceStep(raw, piece, R.Stream(), R.size);
        raw := raw + piece;
      }
    }

    /** A whole line, whatever the buffer length and the chunks.  A line already
        buffered is read without touching the connection. */
    method ReadLineSlice(dropBreak: bool) returns (line: Bytes, e: Error, ghost raw: Bytes)
      requires R.Valid() && R.size >= 2
      modifies R, R.buf, R.rd
      ensures |R.rd.pending| <= |old(R.rd.pending)|
      ensures R.Valid() && LineOf(old(R.Stream()), raw, R.Stream(), e, R.size, R.rd)
      ensures line == if e != Nil then [] else if dropBreak then DropBreak(raw) else raw
      ensures '\n' in old(R.Unread()) ==> R.Quiet() && e == Nil && EndsLine(raw)
    {
      hide LineOf, Lost, EndsLine, DropBreak, FirstLine, PieceLen;
      var more;
      ghost var stream := R.Stream();
      line, more, e, raw := R.ReadLine(dropBreak);
      assert [] + stream == stream && [] + raw == raw;
      if e != Nil {
        NoLine();
        ErrorStep([], R.Stream(), e, R.size, R.rd);
      } else if !more {
        LastStep([], raw, R.Stream(), R.size, R.rd);
      } else {
        PieceStep([], raw, R.Stream(), R.size);
        line, e, raw := ReadRest(line, dropBreak);
      }
    }
  }

  lemma NoLine()
    ensures !EndsLine([])
  {
  }

  /** Between two pieces of a line: no break so far, and a '\r' at the end is
      followed by another, so it belongs to no "\r\n". */
  predicate Waiting(done: Bytes, rest: Bytes) {
    '\n' !in done && (done != [] && done[|done| - 1] == '\r' ==> rest != [] && rest[0] == '\r')
  }

  lemma {:induction false} PieceStep(done: Bytes, piece: Bytes, rest: Bytes, size: nat)
    requires size >= 2 && Waiting(done, piece + rest) && size <= |piece + rest|
    requires |piece| == PieceLen(piece + rest, size) && '\n' !in (piece + rest)[..size]
    ensures piece != [] && Waiting(done + piece, rest)
    ensures Lost(piece + rest, size) == Lost(rest, size)
  {
    assert piece == (piece + rest)[..size][..|piece|];
    assert (piece + rest)[|piece|..] == rest;
    assert piece[|piece| - 1] == (piece + rest)[|piece| - 1];
  }

  /** Breaks are dropped at the end of the line, not at the end of a piece. */
  lemma {:induction false} LastBreak(done: Bytes, piece: Bytes, rest: Bytes)
    requires Waiting(done, piece + rest) && piece != [] && (EndsLine(piece) || '\n' !in piece)
    ensures DropBreak(done + piece) == done + DropBreak(piece)
    ensures EndsLine(piece) ==> EndsLine(done + piece)
    ensures !EndsLine(piece) ==> '\n' !in done + piece
  {
    var raw := done + piece;
    assert raw[..|raw| - 1] == done + piece[..|piece| - 1];
  }

  lemma {:induction false} LastStep(done: Bytes, piece: Bytes, rest: Bytes, size: nat, rd: Source)
    requires size >= 2 && Waiting(done, piece + rest) && piece != []
    requires EndsLine(piece) || '\n' !in piece
    requires !EndsLine(piece) ==> rest == [] || rd.patience >= MAX_EMPTY_READS
    requires rd.errAlone && !EndsLine(piece) ==> |piece| < size
    requires '\n' !in done + piece + rest ==> Lost(done + piece + rest, size) == Lost(piece + rest, size)
    ensures DropBreak(done + piece) == done + DropBreak(piece)
    ensures LineOf(done + piece + rest, done + piece, rest, Nil, size, rd)
  {
    LastBreak(done, piece, rest);
    var raw := done + piece;
    if EndsLine(piece) {
      FirstLineIs(raw, rest);
      hide EndsLine, DropBreak, FirstLine, Lost, Waiting;
    } else {
      assert '\n' !in raw && !EndsLine(raw);
      if rest == [] {
        assert piece + rest == piece && raw + rest == raw;
        assert |piece| < size ==> !Lost(piece, size);
      }
      hide EndsLine, DropBreak, FirstLine, Lost, Waiting;
    }
  }

  lemma {:induction false} ErrorStep(done: Bytes, rest: Bytes, e: Error, size: nat, rd: Source)
    requires size >= 2 && Waiting(done, rest) && (rest == [] || rd.patience >= MAX_EMPTY_READS)
    requires e == rd.final != Nil || e == NoProgress
    requires e == NoProgress ==> rd.patience >= MAX_EMPTY_READS
    requires '\n' !in done + rest ==> Lost(done + rest, size) == Lost(rest, size)
    ensures LineOf(done + rest, done, rest, e, size, rd)
  {
  }

  /** Such as a buffer's length of one letter at the end of a stream. */
  lemma {:induction false} FullBufferIsLost(s: Bytes, raw: Bytes, rest: Bytes, e: Error, size: nat, rd: Source)
    requires size >= 2 && |s| == size && (forall i :: 0 <= i < size ==> s[i] == 'a')
    requires LineOf(s, raw, rest, e, size, rd) && rd.patience < MAX_EMPTY_READS && rd.errAlone
    ensures e != Nil && rest == []
  {
    assert '\n' !in s;
    assert PieceLen(s, size) == size && s[size..] == [];
    assert Lost([], size) && Lost(s, size);
  }
}
