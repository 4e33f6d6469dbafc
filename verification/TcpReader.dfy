/** The buffered reader of proto/tcp/reader.go.

    `Stream()` is the logical stream: what is buffered and not yet handed out,
    then what the source still holds.  Every operation states what it takes from
    the front of it. */
module TcpReader {
  import opened Bytes
  import opened Net
  import opened Lines

  const DEFAULT_BUF_SIZE := 4096
  const MIN_READ_BUFFER_SIZE := 16
  const MAX_EMPTY_READS := 100

  /** One read of a connection that holds `p`, for `n` bytes and with an empty buffer of
      `size`: at once into the target if that is as long, else into the buffer, whose
      cells it overwrites from the front. */
  predicate OneRead(n: nat, size: nat, cells: Bytes, cells': Bytes, p: Bytes, p': Bytes) {
    && |p'| <= |p|
    && var got := p[..|p| - |p'|];
       && p == got + p'
       && |got| <= (if n >= size then n else size)
       && cells' == if n >= size || |got| > |cells| then cells else got + cells[|got|..]
  }

  class Reader {
    /** The Go slice `buf`: the first `size` cells of an array that may be longer
        and may belong to somebody else. */
    const buf: array<char>
    const size: nat
    const rd: Source
    var r: nat
    var w: nat
    var err: Error
    var lastByte: int

    predicate Valid()
      reads this, buf, rd
    {
      && r <= w <= size <= buf.Length
      && rd.Valid()
      && (err == Nil || err == NoProgress || (err == rd.final && rd.pending == []))
      && (err == NoProgress ==> rd.patience >= MAX_EMPTY_READS)
      && (rd.errAlone && err != Nil ==> w - r < size)
    }

    function Unread(): Bytes
      requires Valid()
      reads this, buf, rd
    {
      buf[r..w]
    }

    function Stream(): Bytes
      requires Valid()
      reads this, buf, rd
    {
      buf[r..w] + rd.pending
    }

    /** What is in the buffer, read or not. */
    function Cells(): Bytes
      requires Valid()
      reads this, buf, rd
    {
      buf[..size]
    }

    /** Nothing was asked of the connection and the buffer holds what it held. */
    twostate predicate Quiet()
      reads this, buf, rd
    {
      unchanged(rd) && unchanged(buf) && w == old(w)
    }

    constructor WithBuf(rd: Source, buf: array<char>, n: nat)
      requires rd.Valid() && n <= buf.Length
      ensures Valid() && this.rd == rd && this.buf == buf && size == n
      ensures r == 0 && w == n && err == Nil
      ensures Stream() == buf[..n] + rd.pending
    {
      this.rd, this.buf, this.size := rd, buf, n;
      r, w, err, lastByte := 0, n, Nil, -1;
    }

    constructor Sized(rd: Source, size: nat)
      requires rd.Valid()
      ensures Valid() && this.rd == rd && fresh(buf)
      ensures this.size == if size < MIN_READ_BUFFER_SIZE then MIN_READ_BUFFER_SIZE else size
      ensures r == w && err == Nil && Stream() == rd.pending
    {
      var n := if size < MIN_READ_BUFFER_SIZE then MIN_READ_BUFFER_SIZE else size;
      this.rd, this.buf, this.size := rd, new char[n](_ => '\0'), n;
      r, w, err, lastByte := 0, 0, Nil, -1;
    }

    function Buffered(): (n: nat)
      requires Valid()
      reads this, buf, rd
    {
      w - r
    }

    method ReadErr() returns (e: Error)
      modifies this`err
      ensures e == old(err) && err == Nil
    {
      e := err;
      err := Nil;
    }

    /** The copying end of `Read`: as much buffered data as fits. */
    method CopyOut(p: array<char>) returns (n: nat)
      requires Valid() && p != buf && r < w && p.Length > 0
      modifies this`r, this`lastByte, p
      ensures Valid() && 0 < n <= p.Length && (n == p.Length || r == w)
      ensures old(Stream()) == p[..n] + Stream()
      ensures lastByte == p[n - 1] as int
    {
      n := if p.Length <= w - r then p.Length else w - r;
      forall i | 0 <= i < n {
        p[i] := buf[r + i];
      }
      assert buf[r..w] == buf[r..r + n] + buf[r + n..w] && p[..n] == buf[r..r + n];
      Assoc(p[..n], buf[r + n..w], rd.pending);
      r := r + n;
      assert buf[r - 1] == p[n - 1];
      lastByte := buf[r - 1] as int;
    }

    /** A single read of a whole buffer, unlike `Fill`, which tries repeatedly. */
    method Refill() returns (n: nat)
      requires Valid() && r == w && err == Nil && size > 0
      modifies this`r, this`w, this`err, buf, rd
      ensures |rd.pending| <= |old(rd.pending)|
      ensures Valid() && Stream() == old(Stream()) && n == w - r
      ensures n == 0 ==> err == Nil || (err == rd.final && Stream() == [])
      ensures n == 0 && err == Nil ==> rd.pending == old(rd.pending) && rd.empties > old(rd.empties)
      ensures OneRead(0, size, old(buf[..size]), buf[..size], old(rd.pending), rd.pending)
      ensures old(rd.pending) != [] && rd.patience == 0 ==> n > 0
      ensures n == |old(rd.pending)| - |rd.pending|
    {
      ghost var pending0, cells := rd.pending, buf[..size];
      r, w := 0, 0;
      n, err := rd.Read(buf, 0, size);
      w := w + n;
      assert pending0 == pending0[..n] + pending0[n..];
      assert buf[..size] == pending0[..n] + cells[n..];
    }

    /** One read into `p`.  A `p` at least as large as the buffer always leaves the
        buffer empty, so another reader can take over the connection. */
    method Read(p: array<char>) returns (n: nat, e: Error)
      requires Valid() && p != buf
      modifies this, buf, rd, p
      ensures |rd.pending| <= |old(rd.pending)|
      ensures Valid() && n <= p.Length
      ensures old(Stream()) == p[..n] + Stream()
      ensures p.Length >= size && p.Length > 0 ==> r == w
      ensures p.Length == 0 <==> e == ZeroRead
      ensures p.Length == 0 ==> Stream() == old(Stream())
      ensures e == Nil || e == ZeroRead || e == NoProgress || (e == rd.final && Stream() == [])
      ensures e == NoProgress ==> rd.patience >= MAX_EMPTY_READS
      ensures n == 0 && e == Nil ==> rd.pending == old(rd.pending) && rd.empties > old(rd.empties)
      ensures n > 0 ==> lastByte == p[n - 1] as int
      ensures old(r == w) && p.Length > 0 ==> OneRead(p.Length, size, old(buf[..size]), buf[..size], old(rd.pending), rd.pending)
      ensures old(r == w) && p.Length > 0 && old(rd.pending) != [] && rd.patience == 0 ==> |rd.pending| < |old(rd.pending)|
    {
      n := p.Length;
      if n == 0 {
        return 0, ZeroRead;
      }
      ghost var pending0 := rd.pending;
      assert pending0[..0] == [] && [] + buf[..size][0..] == buf[..size];
      if r == w {
        if err != Nil {
          e := ReadErr();
          return 0, e;
        }
        if p.Length >= size {
          n, err := rd.Read(p, 0, p.Length);
          assert pending0 == pending0[..n] + pending0[n..];
          if n > 0 {
            lastByte := p[n - 1] as int;
          }
          e := ReadErr();
          return n, e;
        }
        n := Refill();
        if n == 0 {
          e := ReadErr();
          return 0, e;
        }
      }
      n := CopyOut(p);
      e := Nil;
    }

    /** Moves the unread bytes to the front of the buffer, in place. */
    method Slide()
      requires Valid()
      modifies this`r, this`w, buf
      ensures Valid() && r == 0 && w == old(w - r)
      ensures Unread() == old(Unread())
    {
      if r > 0 {
        forall i | 0 <= i < w - r {
          buf[i] := buf[r + i];
        }
        w := w - r;
        r := 0;
      }
    }

    /** Slides the unread bytes to the front and reads until something happens.
        The callers' guards are exactly what keeps the "fill full buffer" panic
        out of reach. */
    method Fill()
      requires Valid() && err == Nil && w - r < size
      modifies this`r, this`w, this`err, buf, rd
      ensures |rd.pending| <= |old(rd.pending)|
      ensures Valid() && r == 0
      ensures Stream() == old(Stream())
      ensures w >= old(w - r) && (err == Nil ==> w > old(w - r))
      ensures Unread()[..old(w - r)] == old(Unread())
      ensures err != Nil && rd.errAlone ==> w == old(w - r)
      ensures w == old(w - r) || |rd.pending| < |old(rd.pending)|
      ensures old(rd.pending) != [] && rd.patience < MAX_EMPTY_READS ==> w > old(w - r)
    {
      ghost var unread := Unread();
      Slide();
      ghost var e0 := rd.empties;
      ghost var pending0 := rd.pending;
      var i := MAX_EMPTY_READS;
      while i > 0
        invariant 0 <= i <= MAX_EMPTY_READS && r == 0 && w == |unread| < size
        invariant Valid() && err == Nil
        invariant buf[..w] == unread && rd.pending == pending0
        invariant rd.empties == e0 + (MAX_EMPTY_READS - i)
      {
        var n, e := rd.Read(buf, w, size);
        assert buf[..w + n] == unread + pending0[..n];
        w := w + n;
        Assoc(unread, pending0[..n], pending0[n..]);
        assert pending0 == pending0[..n] + pending0[n..];
        if e != Nil {
          err := e;
          return;
        }
        if n > 0 {
          return;
        }
        i := i - 1;
      }
      err := NoProgress;
    }

    /** The searching loop of `ReadSlice`: fills until the delimiter shows up, an
        error is pending or the buffer is full, never looking at a byte twice. */
    method Search(delim: char) returns (i: int)
      requires Valid()
      modifies this`r, this`w, this`err, buf, rd
      ensures |rd.pending| <= |old(rd.pending)|
      ensures Valid() && Stream() == old(Stream())
      ensures i == IndexByte(Unread(), delim)
      ensures i < 0 ==> err != Nil || (r == 0 && w == size)
      ensures delim in old(Unread()) ==> i >= 0 && r == old(r) && err == old(err) && Quiet()
    {
      var s := 0;
      ghost var stream, unread0, moved := Stream(), Unread(), false;
      while true
        invariant Valid() && 0 <= s <= w - r
        invariant Stream() == stream && delim !in Unread()[..s] && |rd.pending| <= |old(rd.pending)|
        invariant !moved ==> Unread() == unread0 && r == old(r) && err == old(err) && Quiet()
        invariant moved ==> delim !in unread0
        decreases if err == Nil then 1 else 0, size - (w - r)
      {
        IndexResume(Unread(), s, delim);
        assert Unread()[s..] == buf[r + s..w];
        i := IndexByte(buf[r + s..w], delim);
        if i >= 0 {
          i := i + s;
          return;
        }
        if err != Nil || w - r >= size {
          return;
        }
        s := w - r;
        Fill();
        moved := true;
      }
    }

    /** Hands out the first `n` unread bytes. */
    method Take(n: nat) returns (line: Bytes)
      requires Valid() && n <= w - r
      modifies this`r
      ensures Valid() && r == old(r) + n
      ensures line == old(Unread())[..n] && old(Stream()) == line + Stream()
    {
      line := buf[r..r + n];
      assert buf[r..w] == line + buf[r + n..w];
      r := r + n;
    }

    /** Reads through the first `delim`, or as far as the buffer or the source
        goes; the error is nil exactly when the result ends in the delimiter. */
    method ReadSlice(delim: char) returns (line: Bytes, e: Error)
      requires Valid()
      modifies this, buf, rd
      ensures |rd.pending| <= |old(rd.pending)|
      ensures Valid()
      ensures old(Stream()) == line + Stream()
      ensures e == Nil ==> line != [] && line[|line| - 1] == delim && delim !in line[..|line| - 1]
      ensures e != Nil ==> delim !in line && r == w && err == Nil
      ensures e == BufferFull ==> |line| == size == w && buf[..size] == line
      ensures e == Nil || e == BufferFull || e == NoProgress || (e == rd.final && rd.pending == [])
      ensures e == NoProgress ==> rd.patience >= MAX_EMPTY_READS
      ensures rd.errAlone && e != Nil && e != BufferFull ==> |line| < size
      ensures |line| <= size
      ensures line != [] ==> lastByte == line[|line| - 1] as int
      ensures delim in old(Unread()) ==> Quiet() && e == Nil
    {
      hide IndexByte;
      var i := Search(delim);
      if i >= 0 {
        assert Unread()[..i + 1] == Unread()[..i] + [delim];
        line := Take(i + 1);
        e := Nil;
      } else {
        line := Take(w - r);
        e := ReadErr();
        if e == Nil {
          e := BufferFull;
        }
      }
      if line != [] {
        lastByte := line[|line| - 1] as int;
      }
    }

    /** One line, or one bufferful of a longer line (`isPrefix`).  A '\r' that
        ends a full buffer is put back, so that "\r\n" is never split.  `raw` is
        what leaves the stream. */
    method ReadLine(dropBreak: bool) returns (line: Bytes, isPrefix: bool, e: Error, ghost raw: Bytes)
      requires Valid()
      modifies this, buf, rd
      ensures |rd.pending| <= |old(rd.pending)|
      ensures Valid() && old(Stream()) == raw + Stream()
      ensures isPrefix ==> e == Nil && line == raw && size <= |old(Stream())|
      ensures isPrefix ==> |raw| == PieceLen(old(Stream()), size) && '\n' !in old(Stream())[..size]
      ensures isPrefix ==> r == |raw| && w == size
      ensures |raw| <= size
      ensures !isPrefix && e == Nil ==> raw != [] && line == if dropBreak then DropBreak(raw) else raw
      ensures !isPrefix && e == Nil ==> EndsLine(raw) || '\n' !in raw
      ensures e != Nil ==> !isPrefix && raw == line == [] && Stream() == old(Stream())
      ensures !isPrefix && !EndsLine(raw) ==> r == w && (rd.pending == [] || rd.patience >= MAX_EMPTY_READS)
      ensures e == Nil || e == NoProgress || e == rd.final
      ensures e == NoProgress ==> rd.patience >= MAX_EMPTY_READS
      ensures rd.errAlone && !isPrefix && !EndsLine(raw) ==> |raw| < size
      ensures '\n' in old(Unread()) ==> Quiet() && EndsLine(raw)
    {
      ghost var stream := Stream();
      line, e := ReadSlice('\n');
      raw, isPrefix := line, false;
      if e == BufferFull {
        if |line| > 0 && line[|line| - 1] == '\r' {
          assert r > 0;
          r := r - 1;
          line := line[..|line| - 1];
          raw := line;
        }
        return line, true, Nil, raw;
      }
      if |line| == 0 {
        return;
      }
      e := Nil;
      if dropBreak {
        if line[|line| - 1] == '\n' {
          var drop := 1;
          if |line| > 1 && line[|line| - 2] == '\r' {
            drop := 2;
          }
          line := line[..|line| - drop];
        }
      }
    }

    /** The next `n` bytes without taking them. */
    method Peek(n: int) returns (data: Bytes, e: Error)
      requires Valid()
      modifies this, buf, rd
      ensures |rd.pending| <= |old(rd.pending)|
      ensures Valid() && Stream() == old(Stream())
      ensures data <= Unread()
      ensures n < 0 <==> e == NegativeCount
      ensures e == Nil ==> |data| == n
      ensures 0 <= n && e != Nil ==> data == Unread() && |data| < n
      ensures 0 <= n <= size && e != Nil ==> rd.patience >= MAX_EMPTY_READS || Stream() == data
      ensures n > size ==> e == BufferFull
      ensures n <= old(w - r) ==> Quiet() && r == old(r) && err == old(err)
      ensures e == Nil && 0 <= n <= old(w - r) ==> data == old(Unread())[..n]
    {
      if n < 0 {
        return [], NegativeCount;
      }
      lastByte := -1;
      ghost var stream, unread0, moved := Stream(), Unread(), false;
      while w - r < n && w - r < size && err == Nil
        invariant Valid() && Stream() == stream && |rd.pending| <= |old(rd.pending)|
        invariant !moved ==> Quiet() && r == old(r) && err == old(err) && Unread() == unread0
        invariant moved ==> n > old(w - r)
        decreases if err == Nil then 1 else 0, size - (w - r)
      {
        Fill();
        moved := true;
      }
      if n > size {
        return buf[r..w], BufferFull;
      }
      e := Nil;
      var avail := n;
      if w - r < n {
        avail := w - r;
        e := ReadErr();
      }
      data := buf[r..r + avail];
    }

    /** Takes up to `max` buffered bytes; all of them when `max` is negative. */
    method UnreadBuf(max: int) returns (data: Bytes)
      requires Valid()
      modifies this`r, this`lastByte
      ensures Valid() && old(Stream()) == data + Stream()
      ensures |data| == if 0 <= max < old(w - r) then max else old(w - r)
      ensures data == old(Unread())[..|data|]
      ensures r == old(r) + |data|
    {
      if max == 0 {
        return [];
      }
      var n := if max > 0 && w - r > max then max else w - r;
      data := Take(n);
      if |data| > 0 {
        lastByte := data[|data| - 1] as int;
      }
    }
  }
}
