/** Any sequence of operations on the buffered reader (proto/tcp/reader.go:78-293). */
module ReaderRuns {
  import opened Bytes
  import opened Net
  import opened Lines
  import opened TcpReader

  datatype Op =
    | DoRead(n: nat)
    | DoReadSlice(delim: char)
    | DoReadLine(dropBreak: bool)
    | DoPeek(count: int)
    | DoUnreadBuf(max: int)

  /** What an operation gives its caller. */
  datatype Out = Out(data: Bytes, e: Error, more: bool)

  /** Where a reader is: its stream, how much of that is buffered, and how many empty
      reads in a row its source has made. */
  datatype State = State(stream: Bytes, unread: Bytes, empties: nat)

  function At(reader: Reader): State
    requires reader.Valid()
    reads reader, reader.buf, reader.rd
  {
    State(reader.Stream(), reader.Unread(), reader.rd.empties)
  }

  /** An error tells the truth: there is no more, or a hundred reads brought nothing. */
  ghost predicate Ended(e: Error, after: State, rd: Source) {
    (e == NoProgress && rd.patience >= MAX_EMPTY_READS) || (e == rd.final && after.stream == [])
  }

  /** What a caller gets of `s` and where that leaves the reader; `taken` is what it has
      behind it afterwards. */
  ghost predicate Fits(op: Op, size: nat, rd: Source, s: State, out: Out, taken: Bytes, s': State) {
    && s.stream == taken + s'.stream && s'.unread <= s'.stream && s'.empties <= rd.patience
    && match op
       case DoRead(n) => ReadFits(n, size, rd, s, out, taken, s')
       case DoReadSlice(delim) => SliceFits(delim, size, rd, out, taken, s')
       case DoReadLine(dropBreak) => LineFits(dropBreak, size, rd, s, out, taken, s')
       case DoPeek(n) => PeekFits(n, size, rd, out, taken, s')
       case DoUnreadBuf(max) =>
         && taken == out.data && s.unread == out.data + s'.unread && out.e == Nil
         && |out.data| == if 0 <= max < |s.unread| then max else |s.unread|
  }

  /** Some of what is next, or nothing: nothing is asked for, the source had nothing
      just now, or there is an error. */
  ghost predicate ReadFits(n: nat, size: nat, rd: Source, s: State, out: Out, taken: Bytes, s': State) {
    && taken == out.data && |out.data| <= n && (out.e == ZeroRead <==> n == 0)
    && (n >= size && n > 0 ==> s'.unread == [])
    && (out.e == Nil || out.e == ZeroRead || Ended(out.e, s', rd))
    && (out.data == [] && out.e == Nil ==> s'.empties > s.empties)
  }

  /** Up to and including the first delimiter, or all that could be buffered. */
  ghost predicate SliceFits(delim: char, size: nat, rd: Source, out: Out, taken: Bytes, s': State) {
    && taken == out.data && |out.data| <= size
    && (if out.e == Nil then out.data != [] && IndexByte(out.data, delim) == |out.data| - 1
        else delim !in out.data && s'.unread == [] && (if out.e == BufferFull then |out.data| == size else Ended(out.e, s', rd)))
  }

  /** A line, a bufferful of one, or the last of the stream; or it is at its end. */
  ghost predicate LineFits(dropBreak: bool, size: nat, rd: Source, s: State, out: Out, taken: Bytes, s': State) {
    if out.more then
      && out.e == Nil && out.data == taken
      && size <= |s.stream| && |taken| == PieceLen(s.stream, size) && '\n' !in s.stream[..size]
    else if out.e == Nil then
      && taken != [] && out.data == (if dropBreak then DropBreak(taken) else taken)
      && (EndsLine(taken) || ('\n' !in taken && s'.unread == [] && (s'.stream == [] || rd.patience >= MAX_EMPTY_READS)))
    else
      && out.data == taken == []
      && (out.e == NoProgress || out.e == rd.final) && (s.stream == [] || rd.patience >= MAX_EMPTY_READS)
  }

  /** The bytes asked for, which stay; or all there are, when the buffer is too small or
      the stream too short. */
  ghost predicate PeekFits(n: int, size: nat, rd: Source, out: Out, taken: Bytes, s': State) {
    && taken == [] && out.data <= s'.unread && (out.e == NegativeCount <==> n < 0)
    && (out.e == Nil ==> |out.data| == n)
    && (n >= 0 && out.e != Nil ==> out.data == s'.unread && |out.data| < n)
    && (n > size ==> out.e == BufferFull)
    && (0 <= n <= size && out.e != Nil ==> s'.stream == out.data || rd.patience >= MAX_EMPTY_READS)
  }

  method PerformRead(reader: Reader, n: nat) returns (out: Out)
    requires reader.Valid()
    modifies reader, reader.buf, reader.rd
    ensures reader.Valid() && Fits(DoRead(n), reader.size, reader.rd, old(At(reader)), out, out.data, At(reader))
  {
    var p := new char[n](_ => '\0');
    var k, e := reader.Read(p);
    out := Out(p[..k], e, false);
  }

  method PerformSlice(reader: Reader, delim: char) returns (out: Out)
    requires reader.Valid()
    modifies reader, reader.buf, reader.rd
    ensures reader.Valid() && Fits(DoReadSlice(delim), reader.size, reader.rd, old(At(reader)), out, out.data, At(reader))
  {
    var line, e := reader.ReadSlice(delim);
    out := Out(line, e, false);
    if e == Nil {
      IndexIs(line, delim, |line| - 1);
    }
  }

  method PerformLine(reader: Reader, dropBreak: bool) returns (out: Out, ghost taken: Bytes)
    requires reader.Valid()
    modifies reader, reader.buf, reader.rd
    ensures reader.Valid() && Fits(DoReadLine(dropBreak), reader.size, reader.rd, old(At(reader)), out, taken, At(reader))
  {
    hide PieceLen, DropBreak;
    var line, more, e;
    line, more, e, taken := reader.ReadLine(dropBreak);
    out := Out(line, e, more);
  }

  method PerformPeek(reader: Reader, n: int) returns (out: Out)
    requires reader.Valid()
    modifies reader, reader.buf, reader.rd
    ensures reader.Valid() && Fits(DoPeek(n), reader.size, reader.rd, old(At(reader)), out, [], At(reader))
  {
    var data, e := reader.Peek(n);
    out := Out(data, e, false);
    assert [] + reader.Stream() == reader.Stream();
  }

  method PerformUnread(reader: Reader, max: int) returns (out: Out)
    requires reader.Valid()
    modifies reader, reader.buf, reader.rd
    ensures reader.Valid() && Fits(DoUnreadBuf(max), reader.size, reader.rd, old(At(reader)), out, out.data, At(reader))
  {
    var data := reader.UnreadBuf(max);
    out := Out(data, Nil, false);
  }

  /** One operation. */
  method Perform(reader: Reader, op: Op) returns (out: Out, ghost taken: Bytes)
    requires reader.Valid()
    modifies reader, reader.buf, reader.rd
    ensures reader.Valid() && Fits(op, reader.size, reader.rd, old(At(reader)), out, taken, At(reader))
  {
    hide *;
    match op {
      case DoRead(n) =>
        out := PerformRead(reader, n);
        taken := out.data;
      case DoReadSlice(delim) =>
        out := PerformSlice(reader, delim);
        taken := out.data;
      case DoReadLine(dropBreak) =>
        out, taken := PerformLine(reader, dropBreak);
      case DoPeek(n) =>
        out := PerformPeek(reader, n);
        taken := [];
      case DoUnreadBuf(max) =>
        out := PerformUnread(reader, max);
        taken := out.data;
    }
  }

  /** Each operation gives what it should from where the one before left the reader. */
  ghost predicate AllFit(ops: seq<Op>, size: nat, rd: Source, states: seq<State>, outs: seq<Out>, taken: seq<Bytes>) {
    && |outs| == |taken| == |ops| && |states| == |ops| + 1
    && forall i :: 0 <= i < |ops| ==> Fits(ops[i], size, rd, states[i], outs[i], taken[i], states[i + 1])
  }

  /** So what was taken, then the rest of the stream, is the stream there was. */
  lemma {:induction false} TakenThenRest(ops: seq<Op>, size: nat, rd: Source, states: seq<State>, outs: seq<Out>, taken: seq<Bytes>)
    requires AllFit(ops, size, rd, states, outs, taken)
    ensures states[0].stream == Concat(taken) + states[|ops|].stream
  {
    hide ReadFits, SliceFits, LineFits, PeekFits;
    if ops == [] {
      assert Concat(taken) + states[0].stream == states[0].stream;
    } else {
      TakenThenRest(ops[1..], size, rd, states[1..], outs[1..], taken[1..]);
      assert Fits(ops[0], size, rd, states[0], outs[0], taken[0], states[1]);
      Assoc(taken[0], Concat(taken[1..]), states[|ops|].stream);
    }
  }

  lemma {:induction false} OneMore(ops: seq<Op>, i: nat, size: nat, rd: Source, states: seq<State>, outs: seq<Out>, taken: seq<Bytes>,
                                   out: Out, t: Bytes, s': State)
    requires i < |ops| && AllFit(ops[..i], size, rd, states, outs, taken) && Fits(ops[i], size, rd, states[i], out, t, s')
    ensures AllFit(ops[..i + 1], size, rd, states + [s'], outs + [out], taken + [t])
  {
    hide Fits;
  }

  /** Whatever the operations, the chunks and the errors on the way. */
  method PerformAll(reader: Reader, ops: seq<Op>) returns (outs: seq<Out>, ghost taken: seq<Bytes>, ghost states: seq<State>)
    requires reader.Valid()
    modifies reader, reader.buf, reader.rd
    ensures reader.Valid() && AllFit(ops, reader.size, reader.rd, states, outs, taken)
    ensures states[0] == old(At(reader)) && states[|ops|] == At(reader)
    ensures states[0].stream == Concat(taken) + states[|ops|].stream
  {
    outs, taken, states := [], [], [At(reader)];
    hide Fits, Reader.Valid, At, Concat;
    for i := 0 to |ops|
      invariant reader.Valid() && AllFit(ops[..i], reader.size, reader.rd, states, outs, taken)
      invariant states[0] == old(At(reader)) && states[i] == At(reader)
    {
      var out;
      ghost var t;
      out, t := Perform(reader, ops[i]);
      OneMore(ops, i, reader.size, reader.rd, states, outs, taken, out, t, At(reader));
      outs, taken, states := outs + [out], taken + [t], states + [At(reader)];
    }
    assert ops[..|ops|] == ops;
    TakenThenRest(ops, reader.size, reader.rd, states, outs, taken);
  }

  /** Why line reads need two bytes of buffer: with one, a piece of a line comes out
      empty exactly when a '\r' is next.  Nothing moves then, so joining pieces until
      the line ends would never end there. */
  method OneBytePiece(reader: Reader) returns (more: bool, e: Error, ghost raw: Bytes)
    requires reader.Valid() && reader.size == 1 && reader.rd.errAlone && reader.rd.patience < MAX_EMPTY_READS
    modifies reader, reader.buf, reader.rd
    ensures reader.Valid() && old(reader.Stream()) == raw + reader.Stream()
    ensures e == Nil && raw == [] <==> old(reader.Stream()) != [] && old(reader.Stream())[0] == '\r'
    ensures e == Nil && raw == [] ==> more
  {
    ghost var stream := reader.Stream();
    var line;
    line, more, e, raw := reader.ReadLine(false);
    assert raw != [] ==> raw[0] == stream[0];
  }
}
