/** Reading a header block through the buffered reader, after
    proto/text/reader.go: a refinement of `ParseHeader`. */
module HeaderReader {
  import opened Bytes
  import opened Net
  import opened Lines
  import opened TcpReader
  import opened TextReader
  import opened HeaderKeys
  import opened Slab
  import opened HeaderSpec

  /** When the outcome of reading lines is a function of the stream: the lines end
      in what is buffered; or the source never stalls and either the lines end or
      errors come alone. */
  ghost predicate Sure(unread: Bytes, stream: Bytes, rd: Source) {
    LinesEnd(unread) || (rd.patience < MAX_EMPTY_READS && (rd.errAlone || LinesEnd(stream)))
  }

  ghost predicate Decided(unread: Bytes, stream: Bytes, rd: Source) {
    BlockEnds(unread) || (rd.patience < MAX_EMPTY_READS && (rd.errAlone || BlockEnds(stream)))
  }

  /** What a line read tells once the outcome is sure. */
  lemma {:induction false} SureLine(s: Bytes, raw: Bytes, rest: Bytes, e: Error, size: nat, rd: Source)
    requires size >= 2 && LineOf(s, raw, rest, e, size, rd)
    requires (EndsLine(raw) && e == Nil) || (rd.patience < MAX_EMPTY_READS && (rd.errAlone || '\n' in s))
    ensures if '\n' in s then e == Nil && raw == FirstLine(s) && rest == AfterLine(s)
            else rest == [] && (if Lost(s, size) then e == rd.final && e != Nil else e == Nil && raw == s)
  {
    if '\n' in s {
      assert s[..|raw|] == raw && s[|raw|..] == rest;
    } else {
      assert raw + [] == raw;
    }
  }

  /** A line read out of the buffer alone. */
  lemma {:induction false} QuietLine(u: Bytes, p: Bytes, raw: Bytes, u': Bytes)
    requires '\n' in u && EndsLine(raw) && u + p == raw + (u' + p)
    ensures raw == FirstLine(u) && u' == AfterLine(u)
  {
    FirstLineAppend(u, p);
    FirstLineIs(raw, u' + p);
    assert u' + p == AfterLine(u) + p;
    assert u' == (u' + p)[..|u'|];
  }

  method TrimName(s: Bytes) returns (t: Bytes)
    ensures t == DropSpaces(s)
  {
    var endKey := |s|;
    while endKey > 0 && s[endKey - 1] == ' '
      invariant 0 <= endKey <= |s| && s[..|s|] == s && DropSpaces(s[..endKey]) == DropSpaces(s)
    {
      endKey := endKey - 1;
      assert s[..endKey + 1][..endKey] == s[..endKey];
    }
    t := s[..endKey];
  }

  method TrimValue(s: Bytes) returns (t: Bytes)
    ensures t == SkipBlanks(s)
  {
    var i := 0;
    while i < |s| && IsBlank(s[i])
      invariant 0 <= i <= |s| && SkipBlanks(s[i..]) == SkipBlanks(s)
    {
      assert s[i..][1..] == s[i + 1..];
      i := i + 1;
    }
    t := s[i..];
  }

  /** Splits a field line at its first colon. */
  method SplitField(kv: Bytes) returns (name: string, value: string)
    requires ':' in kv
    ensures name == NameOf(kv) && value == ValueOf(kv)
  {
    var i := IndexByte(kv, ':');
    name := TrimName(kv[..i]);
    value := TrimValue(kv[i + 1..]);
  }

  /** A guess at the number of header lines; only its size matters, to the slab. */
  method UpcomingHeaderNewlines(R: Reader) returns (n: nat)
    requires R.Valid()
    modifies R, R.buf, R.rd
    ensures |R.rd.pending| <= |old(R.rd.pending)|
    ensures R.Valid() && R.Stream() == old(R.Stream())
    ensures old(R.Unread()) != [] ==> R.Quiet() && R.Unread() == old(R.Unread())
  {
    n := 0;
    var peek, e := R.Peek(1);
    var s := R.Buffered();
    if s == 0 {
      return;
    }
    peek, e := R.Peek(s);
    while |peek| > 0
      decreases |peek|
    {
      var i := IndexByte(peek, '\n');
      if i < 3 {
        return;
      }
      n := n + 1;
      peek := peek[i + 1..];
    }
  }

  /** What the loop keeps: the stream is still to be parsed to the same end. */
  ghost predicate OnCourse(p: Parsed, sure: bool, unread: Bytes, stream: Bytes, size: nat, rd: Source, fs: seq<Field>)
    requires size >= 2
  {
    sure ==> Sure(unread, stream, rd) && p == ParseLines(stream, size, rd.final, fs)
  }

  lemma {:induction false} Stays(p: Parsed, sure: bool, u: Bytes, s: Bytes, raw: Bytes, u': Bytes, s': Bytes,
                                 e: Error, size: nat, rd: Source, fs: seq<Field>)
    requires size >= 2 && OnCourse(p, sure, u, s, size, rd, fs)
    requires LineOf(s, raw, s', e, size, rd) && u <= s && u' <= s'
    requires '\n' in u ==> EndsLine(raw) && e == Error.Nil && u' == AfterLine(u)
    ensures sure && e != Error.Nil ==> p == Parsed(fs, Io(e), s')
    ensures sure && e == Error.Nil && DropBreak(raw) == [] ==> p == Parsed(fs, Fine, s')
    ensures sure && e == Error.Nil && DropBreak(raw) != [] && ':' !in DropBreak(raw)
            ==> p == Parsed(fs, BadLine(DropBreak(raw)), s')
    ensures e == Error.Nil && ':' in DropBreak(raw)
            ==> OnCourse(p, sure, u', s', size, rd, AddLine(fs, DropBreak(raw)))
    ensures LinesEnd(u) ==> '\n' in u && (':' in DropBreak(raw) ==> LinesEnd(u'))
  {
    if LinesEnd(u) {
      assert s == u + s[|u|..];
      FirstLineAppend(u, s[|u|..]);
      FirstLineIs(raw, s');
    }
    if sure {
      if LinesEnd(u) {
        EndedLines(u, s[|u|..], size, rd.final, size, rd.final, fs);
      }
      SureLine(s, raw, s', e, size, rd);
      if '\n' !in s && e == Error.Nil {
        assert s' == [] && Lost(s', size);
        assert DropBreak(raw) == s;
      }
    }
  }

  /** What one line turns out to be. */
  datatype Step = End(err: HeaderError) | Line(kv: Bytes)

  /** One turn of the loop: `lastEnd` remembers how the previous line ended. */
  method ReadField(lr: LineReader, lastEnd: Bytes, ghost p: Parsed, ghost sure: bool, ghost fs: seq<Field>)
    returns (step: Step, lastEnd': Bytes, ghost raw: Bytes)
    requires lr.R.Valid() && lr.R.size >= 2 && |lastEnd| == 2
    requires OnCourse(p, sure, lr.R.Unread(), lr.R.Stream(), lr.R.size, lr.R.rd, fs)
    modifies lr.R, lr.R.buf, lr.R.rd
    ensures |lr.R.rd.pending| <= |old(lr.R.rd.pending)|
    ensures lr.R.Valid() && old(lr.R.Stream()) == raw + lr.R.Stream() && |lastEnd'| == 2
    ensures step.End? && sure ==> p == Parsed(fs, step.err, lr.R.Stream())
    ensures step.Line? ==> raw != [] && ':' in step.kv
    ensures step.Line? ==> OnCourse(p, sure, lr.R.Unread(), lr.R.Stream(), lr.R.size, lr.R.rd, AddLine(fs, step.kv))
    ensures LinesEnd(old(lr.R.Unread())) ==> lr.R.Quiet() && (step.End? || LinesEnd(lr.R.Unread()))
  {
    hide HeaderSpec.ParseLines, HeaderSpec.LinesEnd, Lines.Lost, OnCourse, HeaderSpec.AddLine;
    ghost var u, s, pending := lr.R.Unread(), lr.R.Stream(), lr.R.rd.pending;
    var kv, e;
    lastEnd' := lastEnd;
    kv, e, raw := lr.ReadLineSlice(false);
    if '\n' in u {
      QuietLine(u, pending, raw, lr.R.Unread());
    }
    Stays(p, sure, u, s, raw, lr.R.Unread(), lr.R.Stream(), e, lr.R.size, lr.R.rd, fs);
    if |kv| == 0 {
      return End(Io(e)), lastEnd', raw;
    }
    if |kv| == 2 && kv[0] == '\r' && kv[1] == '\n' {
      if lastEnd[0] == '\r' && lastEnd[1] == '\n' {
        return End(Fine), lastEnd', raw;
      }
    }
    if |kv| >= 2 {
      lastEnd' := kv[|kv| - 2..];
    }
    kv := DropBreak(kv);
    if |kv| == 0 {
      return End(Fine), lastEnd', raw;
    }
    if IndexByte(kv, ':') < 0 {
      return End(BadLine(kv)), lastEnd', raw;
    }
    step := Line(kv);
  }

  /** Stores one field under its canonical name. */
  method StoreField(table: HeaderTable, kv: Bytes, ghost fs: seq<Field>)
    requires table.Valid() && ':' in kv && table.view == Collect(fs)
    modifies table, table.Repr()
    ensures table.Valid() && fresh(table.Repr() - old(table.Repr()))
    ensures table.view == Collect(AddLine(fs, kv))
  {
    var name, value := SplitField(kv);
    var key := CanonicalMIMEHeaderKey(name);
    CanonicalFolds(name);
    if key == "" {
      return;
    }
    table.Add(key, value);
    assert AddLine(fs, kv)[..|fs|] == fs;
  }

  /** The loop of `ReadHeader`. */
  method ReadLines(lr: LineReader, table: HeaderTable, ghost p: Parsed, ghost sure: bool)
    returns (err: HeaderError, ghost fs: seq<Field>, ghost raw: Bytes)
    requires lr.R.Valid() && lr.R.size >= 2 && table.Valid() && table.view == Collect([])
    requires OnCourse(p, sure, lr.R.Unread(), lr.R.Stream(), lr.R.size, lr.R.rd, [])
    modifies lr.R, lr.R.buf, lr.R.rd, table, table.Repr()
    ensures |lr.R.rd.pending| <= |old(lr.R.rd.pending)|
    ensures lr.R.Valid() && old(lr.R.Stream()) == raw + lr.R.Stream()
    ensures table.Valid() && fresh(table.Repr() - old(table.Repr())) && table.view == Collect(fs)
    ensures sure ==> p == Parsed(fs, err, lr.R.Stream())
    ensures LinesEnd(old(lr.R.Unread())) ==> lr.R.Quiet()
  {
    hide ParseLines, LinesEnd, OnCourse, Collect, AddLine;
    hide Slab.Separate, Slice.View, Slice.Ok, Slice.Apart, HeaderTable.Valid;
    hide Reader.Valid, Reader.Stream, Reader.Unread, Source.Valid, LineOf, Lost, EndsLine, DropBreak, Canonical;
    var R := lr.R;
    raw, fs := [], [];
    ghost var stream, unread0 := R.Stream(), R.Unread();
    var lastEnd := ['\0', '\0'];
    while true
      invariant R.Valid() && stream == raw + R.Stream() && |lastEnd| == 2 && |R.rd.pending| <= |old(R.rd.pending)|
      invariant table.Valid() && fresh(table.Repr() - old(table.Repr())) && table.view == Collect(fs)
      invariant OnCourse(p, sure, R.Unread(), R.Stream(), R.size, R.rd, fs)
      invariant LinesEnd(unread0) ==> R.Quiet() && LinesEnd(R.Unread())
      decreases |R.Stream()|
    {
      var step;
      ghost var line;
      step, lastEnd, line := ReadField(lr, lastEnd, p, sure, fs);
      Assoc(raw, line, R.Stream());
      raw := raw + line;
      if step.End? {
        return step.err, fs, raw;
      }
      StoreField(table, step.kv, fs);
      fs := AddLine(fs, step.kv);
    }
  }

  /** Filling the buffer does not change what is decided, as long as a block that
      is already there stays alone. */
  lemma {:induction false} DecidedNonEmpty(u: Bytes, u': Bytes, s: Bytes, rd: Source)
    requires u != [] ==> u' == u
    ensures Decided(u, s, rd) ==> Decided(u', s, rd)
    ensures BlockEnds(u) ==> u != [] && u' == u && Decided(u, s, rd)
    ensures Decided(u', s, rd) && u' == [] ==> rd.patience < MAX_EMPTY_READS
  {
  }

  lemma {:induction false} DecidedStart(u: Bytes, s: Bytes, size: nat, rd: Source)
    requires size >= 2 && u <= s && (Decided(u, s, rd) ==> !StartsBlank(s))
    ensures OnCourse(ParseHeader(s, size, rd.final), Decided(u, s, rd), u, s, size, rd, [])
    ensures BlockEnds(u) ==> LinesEnd(u)
  {
    assert u != [] ==> u[0] == s[0];
  }

  lemma {:induction false} DecidedBlank(u: Bytes, s: Bytes, raw: Bytes, rest: Bytes, e: Error, size: nat, rd: Source)
    requires size >= 2 && u <= s && StartsBlank(s) && Decided(u, s, rd)
    requires LineOf(s, raw, rest, e, size, rd)
    requires '\n' in u ==> EndsLine(raw) && e == Error.Nil
    ensures BlockEnds(u) ==> '\n' in u
    ensures ParseHeader(s, size, rd.final) == Parsed([], if e != Error.Nil then Io(e) else BadInitial(raw), rest)
  {
    if BlockEnds(u) {
      assert u != [] && u[0] == s[0];
      assert s == u + s[|u|..];
    }
    SureLine(s, raw, rest, e, size, rd);
  }

  /** A block whose first line starts with a blank is refused. */
  method RefuseInitial(lr: LineReader) returns (err: HeaderError, ghost raw: Bytes)
    requires lr.R.Valid() && lr.R.size >= 2 && StartsBlank(lr.R.Stream())
    modifies lr.R, lr.R.buf, lr.R.rd
    ensures |lr.R.rd.pending| <= |old(lr.R.rd.pending)|
    ensures lr.R.Valid() && old(lr.R.Stream()) == raw + lr.R.Stream()
    ensures Decided(old(lr.R.Unread()), old(lr.R.Stream()), lr.R.rd) ==>
              Parsed([], err, lr.R.Stream()) == ParseHeader(old(lr.R.Stream()), lr.R.size, lr.R.rd.final)
    ensures BlockEnds(old(lr.R.Unread())) ==> lr.R.Quiet()
  {
    hide HeaderSpec.LinesEnd, HeaderSpec.ParseHeader, Lines.Lost;
    ghost var u, s := lr.R.Unread(), lr.R.Stream();
    var line, e;
    line, e, raw := lr.ReadLineSlice(false);
    if Decided(u, s, lr.R.rd) {
      DecidedBlank(u, s, raw, lr.R.Stream(), e, lr.R.size, lr.R.rd);
    }
    err := if e != Error.Nil then Io(e) else BadInitial(line);
  }

  /** Looks ahead: the slab's size, and whether the block starts with a blank. */
  method LookAhead(R: Reader) returns (hint: nat, blank: bool)
    requires R.Valid() && R.size >= 2
    modifies R, R.buf, R.rd
    ensures |R.rd.pending| <= |old(R.rd.pending)|
    ensures R.Valid() && R.Stream() == old(R.Stream())
    ensures blank ==> StartsBlank(R.Stream())
    ensures Decided(old(R.Unread()), R.Stream(), R.rd) ==> Decided(R.Unread(), R.Stream(), R.rd)
    ensures Decided(R.Unread(), R.Stream(), R.rd) ==> blank == StartsBlank(R.Stream())
    ensures BlockEnds(old(R.Unread())) ==> R.Quiet() && R.Unread() == old(R.Unread())
  {
    hide Decided, HeaderSpec.BlockEnds;
    ghost var u := R.Unread();
    hint := UpcomingHeaderNewlines(R);
    var buf, e := R.Peek(1);
    DecidedNonEmpty(u, R.Unread(), R.Stream(), R.rd);
    blank := e == Error.Nil && IsBlank(buf[0]);
  }

  /** Reads a whole header block; after the check of the first line the lines go
      into a table whose slab is sized by the guess. */
  method ReadHeader(lr: LineReader) returns (table: HeaderTable, err: HeaderError, ghost fs: seq<Field>, ghost raw: Bytes)
    requires lr.R.Valid() && lr.R.size >= 2
    modifies lr.R, lr.R.buf, lr.R.rd
    ensures |lr.R.rd.pending| <= |old(lr.R.rd.pending)|
    ensures lr.R.Valid() && old(lr.R.Stream()) == raw + lr.R.Stream()
    ensures fresh(table) && fresh(table.Repr()) && table.Valid() && table.view == Collect(fs)
    ensures Decided(old(lr.R.Unread()), old(lr.R.Stream()), lr.R.rd) ==>
              Parsed(fs, err, lr.R.Stream()) == ParseHeader(old(lr.R.Stream()), lr.R.size, lr.R.rd.final)
    ensures BlockEnds(old(lr.R.Unread())) ==> lr.R.Quiet()
  {
    hide ParseLines, ParseHeader, LinesEnd, BlockEnds, StartsBlank, OnCourse, Decided, AddLine;
    hide Slab.Separate, Slice.View, Slice.Ok;
    hide Reader.Valid, Source.Valid, LineOf, Lost, EndsLine, DropBreak, Canonical;
    var R := lr.R;
    ghost var u, s := R.Unread(), R.Stream();
    var hint, blank := LookAhead(R);
    table := new HeaderTable(hint);
    fs := [];
    if blank {
      err, raw := RefuseInitial(lr);
    } else {
      DecidedStart(R.Unread(), s, R.size, R.rd);
      err, fs, raw := ReadLines(lr, table, ParseHeader(s, R.size, R.rd.final), Decided(R.Unread(), s, R.rd));
    }
  }
}
