/** A request as a client writes it, and what is read of it (proto/http.go:50-241). */
module RequestTrip {
  import opened Bytes
  import opened Net
  import opened Lines
  import opened Texts
  import HeaderKeys
  import opened TcpReader
  import opened HeaderSpec
  import opened HeaderWriter
  import opened RoundTrip
  import opened HttpRequest

  // ---- What is recognised ----

  /** Capitals stay, small letters of ASCII become them, and nothing else changes. */
  lemma {:induction false} UpperMeans(s: string, i: nat)
    requires i < |s|
    ensures |Upper(s)| == |s|
    ensures Upper(s)[i] as int == if 'a' <= s[i] <= 'z' then s[i] as int - 32 else s[i] as int
  {
  }

  /** A request is told by the method in front of the first space, which stands among its
      first eight bytes: one of eight, in any letter case. */
  lemma {:induction false} HeadMeans(p: Bytes)
    ensures HeadMatches(p) <==>
              && |p| >= 8
              && (exists k :: 0 <= k < 8 && p[k] == ' ' && ' ' !in p[..k]
                    && Upper(p[..k]) in {"CONNECT", "OPTIONS", "DELETE", "TRACE", "POST", "HEAD", "GET", "PUT"})
  {
    if |p| >= 8 {
      var i := IndexByte(p[..8], ' ');
      if HeadMatches(p) {
        assert p[..8][i] == p[i] && p[..8][..i] == p[..i];
      }
      if k :| 0 <= k < 8 && p[k] == ' ' && ' ' !in p[..k]
              && Upper(p[..k]) in {"CONNECT", "OPTIONS", "DELETE", "TRACE", "POST", "HEAD", "GET", "PUT"} {
        assert p[..8][..k] == p[..k];
        IndexIs(p[..8], ' ', k);
      }
    }
  }

  /** Three parts between two spaces, the last one a version. */
  predicate InParts(line: string, m: string, uri: string, v: string) {
    line == m + [' '] + uri + [' '] + v && ' ' !in m && ' ' !in uri && v in {"HTTP/1.0", "HTTP/1.1"}
  }

  lemma {:induction false} CutTwice(line: string, i: nat, j: nat) returns (m: string, uri: string, v: string)
    requires i < |line| && line[i] == ' ' && ' ' !in line[..i]
    requires var after := line[i + 1..]; j < |after| && after[j] == ' ' && ' ' !in after[..j]
    ensures line == m + [' '] + uri + [' '] + v && ' ' !in m && ' ' !in uri
    ensures uri == line[i + 1..][..j] && v == line[i + 1..][j + 1..]
  {
    var after := line[i + 1..];
    m, uri, v := line[..i], after[..j], after[j + 1..];
    assert line == m + [' '] + after && after == uri + [' '] + v;
    assert m + [' '] + (uri + [' '] + v) == m + [' '] + uri + [' '] + v;
  }

  lemma {:induction false} PartsOf(line: string) returns (m: string, uri: string, v: string)
    requires LineOk(line)
    ensures InParts(line, m, uri, v)
  {
    var i := IndexByte(line, ' ');
    var j := IndexByte(line[i + 1..], ' ');
    assert i >= 0 && j >= 0;
    m, uri, v := CutTwice(line, i, j);
    var r := ParseRequestLine(line);
    assert r.proto == v;
    hide ParseRequestLine;
  }

  lemma {:induction false} PartsAreLine(line: string, m: string, uri: string, v: string)
    requires InParts(line, m, uri, v)
    ensures LineOk(line)
  {
    ParsePrinted(m, uri, v);
    hide ParseRequestLine;
  }

  /** Exactly such a line is a request's first one. */
  lemma {:induction false} LineMeans(line: string)
    ensures LineOk(line) <==> exists m, uri, v :: InParts(line, m, uri, v)
  {
    hide LineOk, InParts;
    if LineOk(line) {
      var m, uri, v := PartsOf(line);
    }
    if m, uri, v :| InParts(line, m, uri, v) {
      PartsAreLine(line, m, uri, v);
    }
  }

  // ---- A request as it is written ----

  /** Method, address and version of a request that a client may write. */
  predicate Writable(m: string, uri: string, version: string) {
    && Upper(m) in {"CONNECT", "OPTIONS", "DELETE", "TRACE", "POST", "HEAD", "GET", "PUT"} && ' ' !in m && '\n' !in m
    && ' ' !in uri && '\n' !in uri && version in {"HTTP/1.0", "HTTP/1.1"}
  }

  function LineText(m: string, uri: string, version: string): Bytes {
    m + [' '] + uri + [' '] + version
  }

  /** The address that is judged: for a CONNECT without a slash as if it had a scheme. */
  function Judged(m: string, uri: string): string {
    if Upper(m) == "CONNECT" && !("/" <= uri) then "http://" + uri else uri
  }

  lemma {:induction false} MethodLength(m: string)
    requires Upper(m) in {"CONNECT", "OPTIONS", "DELETE", "TRACE", "POST", "HEAD", "GET", "PUT"}
    ensures |m| <= 7
  {
  }

  lemma {:induction false} WrittenHead(m: string, uri: string, version: string, rest: Bytes)
    requires Writable(m, uri, version)
    ensures var s := LineText(m, uri, version) + rest; HeadMatches(s) && MethodOf(s) == Upper(m)
  {
    MethodLength(m);
    var s := LineText(m, uri, version) + rest;
    assert s == m + ([' '] + uri + [' '] + version + rest);
    assert s[..|m|] == m && s[|m|] == ' ' && |s| >= 8;
    assert s[..8][..|m|] == m && s[..8][|m|] == ' ';
    IndexIs(s[..8], ' ', |m|);
  }

  lemma {:induction false} WrittenLine(m: string, uri: string, version: string, rest: Bytes)
    requires Writable(m, uri, version)
    ensures var line, s := LineText(m, uri, version), LineText(m, uri, version) + CRLF + rest;
            && '\n' in s && DropBreak(FirstLine(s)) == line && AfterLine(s) == rest
            && LineOk(line) && ParseRequestLine(line) == RequestLine(uri, version, true)
  {
    hide ParseRequestLine, DropBreak, FirstLine, AfterLine, Upper;
    ParsePrinted(m, uri, version);
    assert '\n' !in version;
    LineOfCRLF(LineText(m, uri, version), rest);
  }

  /** In front of any bytes such a request is one exactly if its address is accepted; its
      header is the one that was written and its body starts right behind. */
  lemma {:induction false} WrittenIsRequest(m: string, uri: string, version: string, h: Fields, kvs: seq<KeyValues>, rest: Bytes,
                                            size: nat, fin: Error, urlOk: string -> bool)
    requires Writable(m, uri, version) && Listing(kvs, h, h.Keys) && WellFormed(h, kvs) && size >= 2
    ensures var block := PrintFields(Flatten(kvs)) + CRLF + rest;
            var s := LineText(m, uri, version) + CRLF + block;
            && (StartsRequest(s, size, fin, urlOk) <==> urlOk(Judged(m, uri)))
            && HeadMatches(s) && MethodOf(s) == Upper(m) && '\n' in s && DropBreak(FirstLine(s)) == LineText(m, uri, version)
            && AfterLine(s) == block
            && var p := HeaderSpec.ParseHeader(block, size, fin); p.err == Fine && p.rest == rest && Collect(p.fields) == h
  {
    hide WellFormed, Listing, PrintFields, Flatten, HeaderSpec.ParseHeader, HeadMatches, MethodOf, DropBreak, FirstLine, AfterLine;
    hide LineText, LineOk, ParseRequestLine, Upper, Collect, Writable;
    var block := PrintFields(Flatten(kvs)) + CRLF + rest;
    WrittenHead(m, uri, version, CRLF + block);
    Assoc(LineText(m, uri, version), CRLF, block);
    WrittenLine(m, uri, version, block);
    RoundTripExact(h, kvs, rest, size, fin);
  }

  /** Everything that is read of it: with eight bytes buffered when the method is looked
      for, whatever the chunks, the method in capitals, the address, the version and the
      header that were written; of what follows the first part as body and the rest left. */
  lemma {:induction false} WrittenIsRead(q: Request, head: Bytes, seen: Bytes, m: string, uri: string, version: string, h: Fields,
                                         kvs: seq<KeyValues>, rest: Bytes, left: Bytes, size: nat, drained: bool,
                                         rd: Source, urlOk: string -> bool)
    requires Writable(m, uri, version) && Listing(kvs, h, h.Keys) && WellFormed(h, kvs) && urlOk(Judged(m, uri))
    requires |seen| >= 8 && size >= 2 && rd.patience < MAX_EMPTY_READS && rd.errAlone
    requires Outcome(q, head, seen, LineText(m, uri, version) + CRLF + (PrintFields(Flatten(kvs)) + CRLF + rest), left,
                     size, drained, rd, urlOk)
    ensures q.ok && q.verb == Upper(m) && q.uri == uri && q.version == version && q.header == h && q.body + left == rest
    ensures BodyOk(q, drained)
  {
    hide WellFormed, Listing, PrintFields, Flatten, HeaderSpec.ParseHeader, MethodOf, DropBreak, FirstLine, AfterLine, BodyOk;
    hide LineText, ParseRequestLine, Upper, Collect, StartsRequest, HeadBuffered, Writable;
    var block := PrintFields(Flatten(kvs)) + CRLF + rest;
    WrittenIsRequest(m, uri, version, h, kvs, rest, size, rd.final, urlOk);
    WrittenLine(m, uri, version, block);
  }

  // ---- Its body ----

  /** The announced body `b` and no more: what of it was buffered is the request's body,
      and what is missing is counted. */
  lemma {:induction false} AnnouncedIsRead(q: Request, b: Bytes, rest: Bytes, left: Bytes, drained: bool)
    requires NoneEmpty(q.header) && BodyOk(q, drained) && q.body + left == b + rest && |b| <= MAX_INT64
    requires q.verb != "CONNECT" && q.version == "HTTP/1.1" && "Transfer-Encoding" !in q.header
    requires "Connection" in q.header ==> q.header["Connection"][0] != "Upgrade"
    requires "Content-Length" in q.header && q.header["Content-Length"][0] == Digits(|b|)
    ensures q.body <= b && q.clientUnRead == |b| - |q.body| && (q.clientUnRead == 0 || drained)
    ensures q.clientUnRead == 0 ==> q.body == b && left == rest
  {
    hide FramingOf, Decimal, Digits, ParseContentLength;
    DigitsMean(|b|);
    assert q.header["Content-Length"][0] == "" + Digits(|b|) + "";
    NotBlank(Digits(|b|));
    assert Announces(q.header, "", Digits(|b|), "");
    FramingMeans(q.verb, q.version, q.header);
    assert |q.body| <= |b|;
    assert q.body == (q.body + left)[..|q.body|] && b == (b + rest)[..|b|];
    if q.clientUnRead == 0 {
      assert left == (q.body + left)[|q.body|..] && rest == (b + rest)[|b|..];
    }
  }

  lemma {:induction false} NotBlank(d: string)
    requires d != "" && AllDigits(d)
    ensures !AllSpace(d) && AllSpace("")
  {
    assert !IsAsciiSpace(d[0]);
  }

  /** A request that announces nothing has no body, and everything else follows it. */
  lemma {:induction false} SilentIsRead(q: Request, rest: Bytes, left: Bytes, drained: bool)
    requires NoneEmpty(q.header) && BodyOk(q, drained) && q.body + left == rest
    requires q.verb != "CONNECT" && q.version == "HTTP/1.1" && "Transfer-Encoding" !in q.header
    requires "Connection" in q.header ==> q.header["Connection"][0] != "Upgrade"
    requires "Content-Length" !in q.header
    ensures q.body == [] && q.clientUnRead == 0 && left == rest
  {
    FramingMeans(q.verb, q.version, q.header);
    assert [] + left == left;
  }

  /** And these are passed through: all that was buffered is sent on, and nothing counted. */
  lemma {:induction false} UncountedIsRead(q: Request, drained: bool)
    requires NoneEmpty(q.header) && BodyOk(q, drained)
    ensures q.clientUnRead < 0 <==> Uncounted(q.verb, q.version, q.header)
    ensures Uncounted(q.verb, q.version, q.header) ==> drained
  {
    FramingMeans(q.verb, q.version, q.header);
    hide Uncounted;
  }

  // ---- The names that frame ----

  /** A header has a name that is in the table if one of its lines has it in any letter
      case, another one if one has it as it is. */
  lemma {:induction false} CollectHas(fs: seq<Field>, k: string)
    requires HeaderKeys.Canonical(k) == k
    ensures k in Collect(fs) <==> exists i :: 0 <= i < |fs| && HeaderKeys.Canonical(fs[i].name) == k
  {
    hide HeaderKeys.Canonical;
    if fs != [] {
      var front := fs[..|fs| - 1];
      CollectHas(front, k);
      assert forall i :: 0 <= i < |front| ==> front[i] == fs[i];
      if k in Collect(fs) && HeaderKeys.Canonical(fs[|fs| - 1].name) != k {
        var i :| 0 <= i < |front| && HeaderKeys.Canonical(front[i].name) == k;
        assert fs[i] == front[i];
      }
    }
  }

  lemma {:induction false} LengthInTable()
    ensures "Content-Length" in HeaderKeys.COMMON_HEADER && "Connection" in HeaderKeys.COMMON_HEADER
  {
    assert "Content-Length" in HeaderKeys.COMMON_4;
    assert "Connection" in HeaderKeys.COMMON_3;
  }

  lemma {:induction false} TableStarts1(k: string)
    requires k in HeaderKeys.COMMON_1 + HeaderKeys.COMMON_2 + HeaderKeys.COMMON_3 + HeaderKeys.COMMON_4 + HeaderKeys.COMMON_5
    ensures k != "" && k[0] != 'T'
  {
  }

  lemma {:induction false} TableStarts2(k: string)
    requires k in HeaderKeys.COMMON_6 + HeaderKeys.COMMON_7 + HeaderKeys.COMMON_8 + HeaderKeys.COMMON_9 + HeaderKeys.COMMON_10
    ensures k != "" && k[0] != 'T'
  {
  }

  lemma {:induction false} TableStarts3(k: string)
    requires k in HeaderKeys.COMMON_11 + HeaderKeys.COMMON_12 + HeaderKeys.COMMON_13 + HeaderKeys.COMMON_14
    ensures k != "" && (k[0] == 'T' ==> |k| == 2)
  {
  }

  lemma {:induction false} EncodingNotInTable()
    ensures "Transfer-Encoding" !in HeaderKeys.COMMON_HEADER
  {
    hide HeaderKeys.COMMON_1, HeaderKeys.COMMON_2, HeaderKeys.COMMON_3, HeaderKeys.COMMON_4, HeaderKeys.COMMON_5, HeaderKeys.COMMON_6;
    hide HeaderKeys.COMMON_7, HeaderKeys.COMMON_8, HeaderKeys.COMMON_9, HeaderKeys.COMMON_10, HeaderKeys.COMMON_11;
    hide HeaderKeys.COMMON_12, HeaderKeys.COMMON_13, HeaderKeys.COMMON_14;
    var k := "Transfer-Encoding";
    if k in HeaderKeys.COMMON_HEADER {
      if k in HeaderKeys.COMMON_11 + HeaderKeys.COMMON_12 + HeaderKeys.COMMON_13 + HeaderKeys.COMMON_14 {
        TableStarts3(k);
      } else if k in HeaderKeys.COMMON_6 + HeaderKeys.COMMON_7 + HeaderKeys.COMMON_8 + HeaderKeys.COMMON_9 + HeaderKeys.COMMON_10 {
        TableStarts2(k);
      } else {
        TableStarts1(k);
      }
    }
  }

  /** Two of the names that frame a body are known in any letter case, the third only as
      it is written here; the first line with the name gives the value. */
  lemma {:induction false} FramingNames(fs: seq<Field>)
    ensures "Content-Length" in Collect(fs) <==> exists i :: 0 <= i < |fs| && HeaderKeys.SameFold(fs[i].name, "Content-Length")
    ensures "Connection" in Collect(fs) <==> exists i :: 0 <= i < |fs| && HeaderKeys.SameFold(fs[i].name, "Connection")
    ensures "Transfer-Encoding" in Collect(fs) <==> exists i :: 0 <= i < |fs| && fs[i].name == "Transfer-Encoding"
  {
    LengthInTable();
    EncodingNotInTable();
    TitleOfSmall();
    hide HeaderKeys.Canonical, Collect, HeaderKeys.SameFold, HeaderKeys.COMMON_HEADER, HeaderKeys.Title;
    InAnyCase("Content-Length");
    InAnyCase("Connection");
    OnlyAsItIs("Transfer-Encoding");
    CollectHas(fs, "Content-Length");
    CollectHas(fs, "Connection");
    CollectHas(fs, "Transfer-Encoding");
  }

  lemma {:induction false} InAnyCase(k: string)
    requires k in HeaderKeys.COMMON_HEADER
    ensures HeaderKeys.Canonical(k) == k
    ensures forall name :: HeaderKeys.Canonical(name) == k <==> HeaderKeys.SameFold(name, k)
  {
    hide HeaderKeys.Canonical, HeaderKeys.SameFold, HeaderKeys.COMMON_HEADER;
    SameAsItself(k);
    HeaderKeys.CanonicalOfVariant(k, k);
    forall name
      ensures HeaderKeys.Canonical(name) == k <==> HeaderKeys.SameFold(name, k)
    {
      HeaderKeys.CanonicalFolds(name);
      if HeaderKeys.Canonical(name) == k {
        FoldBack(k, name);
      } else if HeaderKeys.SameFold(name, k) {
        HeaderKeys.CanonicalOfVariant(name, k);
      }
    }
  }

  lemma {:induction false} SameAsItself(k: string)
    ensures HeaderKeys.SameFold(k, k)
  {
  }

  lemma {:induction false} FoldBack(a: string, b: string)
    ensures HeaderKeys.SameFold(a, b) ==> HeaderKeys.SameFold(b, a)
  {
  }

  lemma {:induction false} OnlyAsItIs(k: string)
    requires k !in HeaderKeys.COMMON_HEADER && HeaderKeys.Title(k) == k
    ensures forall name :: HeaderKeys.Canonical(name) == k <==> name == k
  {
    hide HeaderKeys.COMMON_HEADER, HeaderKeys.Title, HeaderKeys.IsToken;
  }

  /** A request with chunks whose name for that is in small letters is taken for one
      without a body. */
  lemma {:induction false} SmallLettersAreMissed()
    ensures var h := Collect([Field("transfer-encoding", "chunked")]);
            "transfer-encoding" in h && FramingOf("POST", "HTTP/1.1", h) == Framed(0)
  {
    var fs := [Field("transfer-encoding", "chunked")];
    FramingNames(fs);
    LettersDiffer();
    hide HeaderKeys.Canonical, HeaderKeys.SameFold, HeaderKeys.COMMON_HEADER;
    assert fs[..0] == [] && Collect([]) == map[];
    assert HeaderKeys.Canonical("transfer-encoding") in Collect(fs);
    FramingMeans("POST", "HTTP/1.1", Collect(fs));
  }

  lemma {:induction false} LettersDiffer()
    ensures "transfer-encoding" != "Transfer-Encoding"
    ensures HeaderKeys.Canonical("transfer-encoding") == "transfer-encoding"
    ensures !HeaderKeys.SameFold("transfer-encoding", "Content-Length") && !HeaderKeys.SameFold("transfer-encoding", "Connection")
  {
    EncodingNotInTable();
    hide HeaderKeys.COMMON_HEADER;
    assert "transfer-encoding"[0] == 't' && "Transfer-Encoding"[0] == 'T';
    HeaderKeys.CanonicalFolds("transfer-encoding");
    TitleOfSmall();
  }

  lemma {:induction false} TitleOfSmall()
    ensures HeaderKeys.Title("transfer-encoding") == "Transfer-Encoding" == HeaderKeys.Title("Transfer-Encoding")
  {
    hide *;
    EncodingInTitleCase();
    HeaderKeys.TitleFixed("Transfer-Encoding");
    SmallAndCapital();
    FoldEnds('t', 'T', "ransfer-", 'e', 'E', "ncoding");
    assert "transfer-encoding" == ['t'] + "ransfer-" + ['e'] + "ncoding";
    assert "Transfer-Encoding" == ['T'] + "ransfer-" + ['E'] + "ncoding";
    HeaderKeys.TitleOfFold("transfer-encoding", "Transfer-Encoding");
  }

  lemma {:induction false} EncodingInTitleCase()
    ensures HeaderKeys.InTitleCase("Transfer-Encoding")
  {
    hide HeaderKeys.InTitleCase;
    HeaderKeys.TwoWords("Transfer-Encoding", "Transfer", "Encoding");
  }

  lemma {:induction false} FoldEnds(a: char, a': char, s: string, b: char, b': char, t: string)
    requires HeaderKeys.IsLower(a) && HeaderKeys.IsLower(b) && a' == HeaderKeys.ToUpper(a) && b' == HeaderKeys.ToUpper(b)
    ensures HeaderKeys.SameFold([a] + s + [b] + t, [a'] + s + [b'] + t)
  {
  }

  lemma {:induction false} SmallAndCapital()
    ensures HeaderKeys.IsLower('t') && HeaderKeys.IsLower('e') && HeaderKeys.ToUpper('t') == 'T' && HeaderKeys.ToUpper('e') == 'E'
  {
  }
}
