/** Recognising and reading one HTTP request, after proto/request.go and
    proto/http.go. */
module HttpRequest {
  import opened Bytes
  import opened Net
  import opened Lines
  import opened Texts
  import opened TcpReader
  import opened TextReader
  import opened HeaderKeys
  import opened HeaderSpec
  import opened HeaderReader

  const METHODS: set<string> := {"CONNECT", "OPTIONS", "DELETE", "TRACE", "POST", "HEAD", "GET", "PUT"}

  function Upper(s: string): (r: string)
    ensures |r| == |s|
  {
    seq(|s|, i requires 0 <= i < |s| => ToUpper(s[i]))
  }

  /** Eight buffered bytes that start with a known method and a space. */
  predicate HeadMatches(p: Bytes) {
    |p| >= 8 && ' ' in p[..8] && Upper(p[..IndexByte(p[..8], ' ')]) in METHODS
  }

  datatype RequestLine = RequestLine(uri: string, proto: string, ok: bool)

  function ParseRequestLine(line: string): RequestLine {
    var s1 := IndexByte(line, ' ');
    var s2 := IndexByte(line[s1 + 1..], ' ');
    if s1 < 0 || s2 < 0 then RequestLine("", "", false)
    else RequestLine(line[s1 + 1..][..s2], line[s1 + 1..][s2 + 1..], true)
  }

  /** The address is what stands between the first two spaces, wherever they are. */
  lemma {:induction false} ParsePrinted(m: string, uri: string, proto: string)
    requires ' ' !in m && ' ' !in uri
    ensures ParseRequestLine(m + [' '] + uri + [' '] + proto) == RequestLine(uri, proto, true)
  {
    var rest := uri + [' '] + proto;
    var line := m + [' '] + uri + [' '] + proto;
    assert line == m + [' '] + rest;
    assert line[..|m|] == m && line[|m|] == ' ' && line[|m| + 1..] == rest;
    IndexIs(line, ' ', |m|);
    assert rest[..|uri|] == uri && rest[|uri|] == ' ' && rest[|uri| + 1..] == proto;
    IndexIs(rest, ' ', |uri|);
  }

  predicate LineOk(line: string) {
    var r := ParseRequestLine(line);
    r.ok && (r.proto == "HTTP/1.0" || r.proto == "HTTP/1.1")
  }

  predicate SocksHead(p: Bytes) {
    |p| >= 2 && p[0] == 5 as char
  }

  /** What a SOCKS5 client is told at once: version five, no authentication. */
  const GREETING: Bytes := [5 as char, 0 as char]
  const SOCKS_LEN := 1024

  /** A packet that is taken for SOCKS5: it starts like that, or does behind a first line
      that was taken and then refused. */
  predicate SocksPacket(p: Bytes) {
    if !HeadMatches(p) then SocksHead(p)
    else '\n' in p && !LineOk(DropBreak(FirstLine(p))) && SocksHead(AfterLine(p))
  }

  /** What `isKeepAliveHttp` answers for a packet that speaks for itself. */
  predicate HttpHead(p: Bytes) {
    HeadMatches(p) && '\n' in p && LineOk(DropBreak(FirstLine(p)))
  }

  /** The address that is handed to the URL parser. */
  function RawUrl(kind: string, uri: string): string {
    if kind == "CONNECT" && !("/" <= uri) then "http://" + uri else uri
  }

  function MethodOf(p: Bytes): string
    requires HeadMatches(p)
  {
    Upper(p[..IndexByte(p[..8], ' ')])
  }

  /** A packet that starts like a request but cannot be read up to its body: its
      first line is not complete, or its header block is not. */
  predicate NeedsMore(p: Bytes, urlOk: string -> bool) {
    && HeadMatches(p)
    && ('\n' in p ==>
          && LineOk(DropBreak(FirstLine(p)))
          && urlOk(RawUrl(MethodOf(p), ParseRequestLine(DropBreak(FirstLine(p))).uri))
          && !BlockEnds(AfterLine(p)))
  }

  /** A packet for which nothing but itself is looked at. */
  predicate SpeaksForItself(p: Bytes, urlOk: string -> bool) {
    !NeedsMore(p, urlOk) && !SocksPacket(p)
  }

  // ---- Content-Length ----

  datatype Length = NoLength | Bad | Length(n: nat)

  /** A trimmed number that is not negative; an empty text is "no value". */
  function ParseContentLength(s: string): (r: Length)
    ensures r.Length? ==> r.n <= MAX_INT64
  {
    var t := TrimSpace(s);
    if t == "" then NoLength
    else
      match Atoi(t)
      case NoInt => Bad
      case Int(n) => if n < 0 then Bad else Length(n)
  }

  predicate AllSpace(s: string) {
    forall i :: 0 <= i < |s| ==> IsAsciiSpace(s[i])
  }

  lemma {:induction false} TrimAround(pre: string, t: string, post: string)
    requires AllSpace(pre) && AllSpace(post) && t != "" && !IsAsciiSpace(t[0]) && !IsAsciiSpace(t[|t| - 1])
    ensures TrimSpace(pre + t + post) == t
    decreases |pre| + |post|
  {
    hide IsAsciiSpace;
    var s := pre + t + post;
    if pre != "" {
      TrimAround(pre[1..], t, post);
      assert s[0] == pre[0] && s[1..] == pre[1..] + t + post;
    } else if post != "" {
      TrimAround(pre, t, post[..|post| - 1]);
      assert s[0] == t[0] && s[|s| - 1] == post[|post| - 1];
      assert s[..|s| - 1] == pre + t + post[..|post| - 1];
    } else {
      assert s == t;
    }
  }

  /** Which texts give which length: blanks around do not count; digits are their value
      as long as it fits 63 bits, with a plus sign too; with a minus sign only zero is a
      length; anything else that is not blank is an error. */
  lemma {:induction false} ContentLengthMeans(pre: string, t: string, post: string)
    requires AllSpace(pre) && AllSpace(post) && t != "" && !IsAsciiSpace(t[0]) && !IsAsciiSpace(t[|t| - 1])
    ensures var r := ParseContentLength(pre + t + post);
            if AllDigits(t) then r == (if Decimal(t) <= MAX_INT64 then Length(Decimal(t)) else Bad)
            else if t[0] == '+' && |t| > 1 && AllDigits(t[1..]) then r == ParseContentLength(t[1..])
            else r == if t[0] == '-' && |t| > 1 && AllDigits(t[1..]) && Decimal(t[1..]) == 0 then Length(0) else Bad
    ensures ParseContentLength(pre + post) == NoLength
  {
    TrimAround(pre, t, post);
    AllTrimmed(pre + post);
    if t[0] == '+' && |t| > 1 && AllDigits(t[1..]) {
      DigitsTrimmed(t[1..]);
    }
    hide TrimSpace, Decimal, IsAsciiSpace, AllSpace;
    assert AllDigits(t) ==> '0' <= t[0] <= '9';
  }

  lemma {:induction false} DigitsTrimmed(d: string)
    requires d != "" && AllDigits(d)
    ensures TrimSpace(d) == d
  {
    TrimAround("", d, "");
    assert "" + d + "" == d;
  }

  lemma {:induction false} AllTrimmed(s: string)
    requires AllSpace(s)
    ensures TrimSpace(s) == ""
  {
    if s != "" {
      AllTrimmed(s[1..]);
    }
  }

  // ---- The body ----

  /** How much of the stream belongs to a request. */
  datatype Framing = Framed(n: nat) | Open

  function FramingOf(kind: string, version: string, h: Fields): Framing
    requires forall k :: k in h ==> h[k] != []
  {
    if kind == "CONNECT" || version != "HTTP/1.1" then Open
    else if "Connection" in h && h["Connection"][0] == "Upgrade" then Open
    else if "Transfer-Encoding" in h then Open
    else if "Content-Length" in h then
      match ParseContentLength(h["Content-Length"][0])
      case NoLength => Open
      case Bad => Framed(0)
      case Length(n) => Framed(n)
    else Framed(0)
  }

  /** Requests whose bodies are not counted: no length can be told, or the connection is
      to be used for something else. */
  predicate Uncounted(kind: string, version: string, h: Fields)
    requires forall k :: k in h ==> h[k] != []
  {
    || kind == "CONNECT" || version != "HTTP/1.1" || "Transfer-Encoding" in h
    || ("Connection" in h && h["Connection"][0] == "Upgrade")
    || ("Content-Length" in h && AllSpace(h["Content-Length"][0]))
  }

  /** The first Content-Length is a number; blanks around it do not count. */
  predicate Announces(h: Fields, pre: string, digits: string, post: string)
    requires forall k :: k in h ==> h[k] != []
  {
    && "Content-Length" in h && h["Content-Length"][0] == pre + digits + post && AllSpace(pre) && AllSpace(post)
    && digits != "" && AllDigits(digits) && Decimal(digits) <= MAX_INT64
  }

  /** Exactly these are not framed; one that announces a number is framed by it, and one
      that announces nothing or no number has no body. */
  lemma {:induction false} FramingMeans(kind: string, version: string, h: Fields)
    requires forall k :: k in h ==> h[k] != []
    ensures FramingOf(kind, version, h) == Open <==> Uncounted(kind, version, h)
    ensures !Uncounted(kind, version, h) ==>
              && (forall pre, digits, post :: Announces(h, pre, digits, post) ==>
                    FramingOf(kind, version, h) == Framed(Decimal(digits)))
              && ("Content-Length" !in h || ParseContentLength(h["Content-Length"][0]) == Bad ==>
                    FramingOf(kind, version, h) == Framed(0))
  {
    hide AllSpace, ParseContentLength, Decimal;
    if "Content-Length" in h {
      LengthMissing(h["Content-Length"][0]);
      forall pre, digits, post | Announces(h, pre, digits, post)
        ensures ParseContentLength(h["Content-Length"][0]) == Length(Decimal(digits))
      {
        DigitsNotSpace(digits);
        ContentLengthMeans(pre, digits, post);
      }
    }
  }

  lemma {:induction false} DigitsNotSpace(d: string)
    requires d != "" && AllDigits(d)
    ensures !IsAsciiSpace(d[0]) && !IsAsciiSpace(d[|d| - 1])
  {
  }

  lemma {:induction false} FirstStays(s: string)
    requires s != "" && !IsAsciiSpace(s[0])
    ensures TrimSpace(s) != ""
    decreases |s|
  {
    if IsAsciiSpace(s[|s| - 1]) {
      FirstStays(s[..|s| - 1]);
    }
  }

  lemma {:induction false} TrimmedAway(s: string)
    requires TrimSpace(s) == ""
    ensures AllSpace(s)
  {
    if s != "" {
      if !IsAsciiSpace(s[0]) {
        FirstStays(s);
      }
      TrimmedAway(s[1..]);
      assert s == [s[0]] + s[1..];
    }
  }

  lemma {:induction false} LengthMissing(s: string)
    ensures ParseContentLength(s) == NoLength <==> AllSpace(s)
  {
    hide AllSpace, Atoi;
    if AllSpace(s) {
      AllTrimmed(s);
    }
    if TrimSpace(s) == "" {
      TrimmedAway(s);
    }
  }

  /** Takes the part of the body that is already buffered.  For a framed request it
      is the first part of exactly `n` bytes; otherwise the connection is from now on
      passed through. */
  method ReadBody(reader: Reader, kind: string, version: string, h: Fields) returns (body: Bytes, clientUnRead: int)
    requires reader.Valid() && forall k :: k in h ==> h[k] != []
    modifies reader`r, reader`lastByte
    ensures reader.Valid() && old(reader.Stream()) == body + reader.Stream() && |body| <= reader.size
    ensures match FramingOf(kind, version, h)
            case Framed(n) => |body| + clientUnRead == n && clientUnRead >= 0 && (clientUnRead == 0 || reader.r == reader.w)
            case Open => clientUnRead < 0 && reader.r == reader.w
    ensures Uncounted(kind, version, h) ==> body == old(reader.Unread()) && clientUnRead < 0
    ensures !Uncounted(kind, version, h) ==>
              && (forall pre, digits, post :: Announces(h, pre, digits, post) ==>
                    && |body| + clientUnRead == Decimal(digits) && body <= old(reader.Unread())
                    && |body| == if Decimal(digits) < |old(reader.Unread())| then Decimal(digits) else |old(reader.Unread())|)
              && ("Content-Length" !in h || ParseContentLength(h["Content-Length"][0]) == Bad ==> body == [] && clientUnRead == 0)
  {
    FramingMeans(kind, version, h);
    hide Uncounted, Announces, Decimal;
    clientUnRead := -1;
    if kind == "CONNECT" {
      body := reader.UnreadBuf(-1);
      return;
    }
    if version == "HTTP/1.1" {
      if "Connection" in h && h["Connection"][0] == "Upgrade" {
        body := reader.UnreadBuf(-1);
        return;
      }
      if "Transfer-Encoding" in h {
        body := reader.UnreadBuf(-1);
        return;
      }
      if "Content-Length" in h {
        var len := ParseContentLength(h["Content-Length"][0]);
        if !len.Bad? {
          var bodyLen := if len.Length? then len.n else -1;
          body := reader.UnreadBuf(bodyLen);
          clientUnRead := bodyLen - |body|;
          return;
        }
      }
      return [], 0;
    }
    body := reader.UnreadBuf(-1);
  }

  // ---- One request ----

  datatype Kind = Unknown | Http | Socks5 | Tcp

  datatype Request = Request(kind: Kind, verb: string, line: string, uri: string, version: string,
                             header: Fields, body: Bytes, clientUnRead: int, ok: bool)

  const NOTHING := Request(Unknown, "", "", "", "", map[], [], 0, false)

  lemma {:induction false} LineGone(u: Bytes, p: Bytes, raw: Bytes, rest: Bytes, e: Error, size: nat, rd: Source)
    requires LineOf(u + p, raw, rest, e, size, rd) && '\n' !in u && p != []
    requires rd.patience < MAX_EMPTY_READS
    ensures |rest| < |p|
  {
    if '\n' in p {
      IndexSkip(u, p, '\n');
      assert '\n' in u + p;
    } else {
      assert '\n' !in u + p;
    }
  }

  /** The method name in the first eight buffered bytes, if they look like one. */
  method PeekMethod(reader: Reader) returns (looks: bool, verb: string)
    requires reader.Valid()
    modifies reader, reader.buf, reader.rd
    ensures reader.Valid() && reader.Quiet() && reader.Unread() == old(reader.Unread())
    ensures looks == HeadMatches(reader.Unread()) && (looks ==> verb == MethodOf(reader.Unread()))
  {
    looks, verb := false, "";
    if reader.Buffered() < 8 {
      return;
    }
    var head, e := reader.Peek(8);
    assert head == reader.Unread()[..8];
    var s1 := IndexByte(head, ' ');
    if s1 < 0 {
      return;
    }
    verb := Upper(head[..s1]);
    assert head[..s1] == reader.Unread()[..s1];
    looks := verb in METHODS;
  }

  /** Whether the stream starts with the first line of a request; if its first bytes
      look like one, that line is taken. */
  method ValidHead(reader: Reader) returns (http: bool, verb: string, line: string, ghost raw: Bytes)
    requires reader.Valid()
    modifies reader, reader.buf, reader.rd
    ensures reader.Valid() && |reader.rd.pending| <= |old(reader.rd.pending)|
    ensures old(reader.Stream()) == raw + reader.Stream()
    ensures http ==> raw != [] && LineOk(line) && HeadMatches(old(reader.Unread())) && verb == MethodOf(old(reader.Unread()))
    ensures HeadOutcome(old(reader.Unread()), reader.Unread(), http, line)
    ensures HeadMatches(old(reader.Unread())) && ('\n' in old(reader.Unread()) || reader.rd.patience < MAX_EMPTY_READS) ==>
              LineTaken(old(reader.Stream()), reader.Stream(), http, line)
    ensures !HeadMatches(old(reader.Unread())) || '\n' in old(reader.Unread()) ==> reader.Quiet()
    ensures (HeadMatches(old(reader.Unread())) && '\n' !in old(reader.Unread()) && old(reader.rd.pending) != []
             && reader.rd.patience < MAX_EMPTY_READS) ==> |reader.rd.pending| < |old(reader.rd.pending)|
  {
    hide LineOf, Lost, HeadMatches, LineOk;
    ghost var u, p := reader.Unread(), reader.rd.pending;
    var looks;
    looks, verb := PeekMethod(reader);
    if !looks {
      return false, verb, "", [];
    }
    assert |u| >= 8 by { LooksLong(u); }
    var lr := new LineReader(reader);
    var e;
    line, e, raw := lr.ReadLineSlice(true);
    ReadHead(u, p, raw, reader.Unread(), reader.rd.pending, e, reader.size, reader.rd);
    TakenIs(u, p, raw, reader.Stream(), e, reader.size, reader.rd);
    http := e == Error.Nil && LineOk(line);
  }

  lemma {:induction false} LooksLong(u: Bytes)
    requires HeadMatches(u)
    ensures |u| >= 8
  {
  }

  /** What recognising a head leaves of the buffer `u`, when the line is there. */
  ghost predicate HeadOutcome(u: Bytes, u': Bytes, http: bool, line: string) {
    if !HeadMatches(u) then u' == u && !http
    else '\n' in u ==>
      var first := DropBreak(FirstLine(u));
      u' == AfterLine(u) && http == LineOk(first) && (http ==> line == first)
  }

  /** What it leaves of the stream `s`, however it was cut. */
  ghost predicate LineTaken(s: Bytes, left: Bytes, http: bool, line: string) {
    if '\n' !in s then left == []
    else
      var first := DropBreak(FirstLine(s));
      left == AfterLine(s) && http == LineOk(first) && (http ==> line == first)
  }

  lemma {:induction false} TakenIs(u: Bytes, p: Bytes, raw: Bytes, left: Bytes, e: Error, size: nat, rd: Source)
    requires LineOf(u + p, raw, left, e, size, rd)
    ensures rd.patience < MAX_EMPTY_READS && '\n' !in u + p ==> left == []
    ensures '\n' in u + p && (rd.patience < MAX_EMPTY_READS || (e == Error.Nil && EndsLine(raw))) ==>
              e == Error.Nil && raw == FirstLine(u + p) && left == AfterLine(u + p)
  {
    var s := u + p;
    if '\n' in s && (rd.patience < MAX_EMPTY_READS || (e == Error.Nil && EndsLine(raw))) {
      assert raw == FirstLine(s) && s == FirstLine(s) + AfterLine(s);
      assert left == s[|raw|..];
    }
  }

  lemma {:induction false} ReadHead(u: Bytes, p: Bytes, raw: Bytes, u': Bytes, p': Bytes, e: Error, size: nat, rd: Source)
    requires LineOf(u + p, raw, u' + p', e, size, rd)
    ensures '\n' in u && p' == p && EndsLine(raw) ==> raw == FirstLine(u) && u' == AfterLine(u)
    ensures '\n' !in u && p != [] && rd.patience < MAX_EMPTY_READS ==> |p'| < |p|
    ensures u + p == raw + (u' + p') && (e == Error.Nil ==> raw != [])
  {
    if '\n' in u && p' == p && EndsLine(raw) {
      QuietLine(u, p, raw, u');
    }
    if '\n' !in u && p != [] && rd.patience < MAX_EMPTY_READS {
      LineGone(u, p, raw, u' + p', e, size, rd);
    }
  }

  predicate NoneEmpty(h: Fields) {
    forall k :: k in h ==> h[k] != []
  }

  /** What a request that was read promises about its body. */
  ghost predicate BodyOk(q: Request, drained: bool)
    requires NoneEmpty(q.header)
  {
    match FramingOf(q.verb, q.version, q.header)
    case Framed(n) => |q.body| + q.clientUnRead == n && q.clientUnRead >= 0 && (q.clientUnRead == 0 || drained)
    case Open => q.clientUnRead < 0 && drained
  }

  lemma {:induction false} OpenBlockEats(u: Bytes, p: Bytes, rest: Bytes, p': Bytes, size: nat, rd: Source)
    requires size >= 2 && !BlockEnds(u) && p != [] && |p'| <= |rest|
    requires rest == ParseHeader(u + p, size, rd.final).rest
    ensures |p'| < |p|
  {
    OpenBlock(u, p, size, rd.final);
  }

  /** Address and version come from the first line. */
  predicate Addressed(q: Request) {
    q.uri == ParseRequestLine(q.line).uri && q.version == ParseRequestLine(q.line).proto
  }

  /** The header is the one the stream holds, and the body starts right behind it. */
  ghost predicate HeaderOf(q: Request, left: Bytes, p: Parsed) {
    q.header == Collect(p.fields) && (q.ok <==> p.err == Fine) && q.body + left == p.rest
  }

  /** The rest of a request behind its first line; `urlOk` is the verdict of the URL
      library on the address. */
  method ReadHttp(reader: Reader, verb: string, line: string, urlOk: string -> bool)
    returns (q: Request, ghost head: Bytes)
    requires reader.Valid() && reader.size >= 2
    modifies reader, reader.buf, reader.rd
    ensures reader.Valid() && |reader.rd.pending| <= |old(reader.rd.pending)|
    ensures q.kind == Http && q.verb == verb && q.line == line && NoneEmpty(q.header) && Addressed(q)
    ensures urlOk(RawUrl(verb, ParseRequestLine(line).uri)) && Decided(old(reader.Unread()), old(reader.Stream()), reader.rd) ==>
              HeaderOf(q, reader.Stream(), HeaderSpec.ParseHeader(old(reader.Stream()), reader.size, reader.rd.final))
    ensures old(reader.Stream()) == head + (q.body + reader.Stream())
    ensures q.ok ==> BodyOk(q, reader.r == reader.w)
    ensures |q.body| <= reader.size
    ensures !urlOk(RawUrl(verb, ParseRequestLine(line).uri)) ==> !q.ok
    ensures BlockEnds(old(reader.Unread())) || !urlOk(RawUrl(verb, ParseRequestLine(line).uri)) ==> reader.Quiet()
    ensures (!BlockEnds(old(reader.Unread())) && urlOk(RawUrl(verb, ParseRequestLine(line).uri)) && old(reader.rd.pending) != []
             && reader.rd.patience < MAX_EMPTY_READS && reader.rd.errAlone) ==> |reader.rd.pending| < |old(reader.rd.pending)|
  {
    hide HeaderSpec.ParseHeader, BlockEnds, ParseRequestLine, FramingOf, Collect;
    ghost var u, p := reader.Unread(), reader.rd.pending;
    var parts := ParseRequestLine(line);
    q := Request(Http, verb, line, parts.uri, parts.proto, map[], [], 0, false);
    head := [];
    assert [] + ([] + reader.Stream()) == reader.Stream();
    if !urlOk(RawUrl(verb, parts.uri)) {
      return;
    }
    var lr := new LineReader(reader);
    var table, err;
    ghost var fs;
    table, err, fs, head := ReadHeader(lr);
    if !BlockEnds(u) && p != [] && reader.rd.patience < MAX_EMPTY_READS && reader.rd.errAlone {
      OpenBlockEats(u, p, reader.Stream(), reader.rd.pending, reader.size, reader.rd);
    }
    var h := table.Snapshot();
    q := q.(header := h);
    if err != Fine {
      assert [] + reader.Stream() == reader.Stream();
      return;
    }
    var body, unread := ReadBody(reader, verb, parts.proto, h);
    q := q.(body := body, clientUnRead := unread, ok := true);
  }

  /** What recognising a connection tells its client. */
  function Told(kind: Kind): Bytes {
    if kind == Socks5 then GREETING else []
  }

  /** What greeting a SOCKS5 client does to its connection: the greeting once written,
      one read of what comes next, through the buffer if that is longer. */
  predicate SocksRead(size: nat, cells: Bytes, cells': Bytes, p: Bytes, p': Bytes, heard: bool, rd: Source) {
    && OneRead(SOCKS_LEN, size, cells, cells', p, p')
    && (!heard ==> p' == p && cells' == cells)
    && (heard && rd.patience == 0 && p != [] ==> |p'| < |p|)
  }

  lemma {:induction false} NotGreeted(size: nat, cells: Bytes, p: Bytes, rd: Source)
    ensures SocksRead(size, cells, cells, p, p, false, rd)
  {
    assert p[..0] == [] && [] + p == p && [] + cells[0..] == cells;
  }

  /** Drops what is buffered, greets the client and reads its request. */
  method GreetSocks(reader: Reader, back: Sink, ghost given: Bytes) returns (ghost head: Bytes)
    requires reader.Valid() && back.Got(given)
    modifies reader, reader.buf, reader.rd, back
    ensures reader.Valid() && old(reader.Stream()) == head + reader.Stream() && |reader.rd.pending| <= |old(reader.rd.pending)|
    ensures back.Got(given + GREETING)
    ensures SocksRead(reader.size, old(reader.Cells()), reader.Cells(), old(reader.rd.pending), reader.rd.pending, !back.broken, reader.rd)
  {
    hide OneRead, Sink.Got;
    NotGreeted(reader.size, reader.Cells(), reader.rd.pending, reader.rd);
    head := reader.UnreadBuf(-1);
    var n, err := back.Write(GREETING, given);
    if err != Error.Nil {
      return;
    }
    var buffer := new char[SOCKS_LEN](_ => '\0');
    n, err := reader.Read(buffer);
    Assoc(head, buffer[..n], reader.Stream());
    head := head + buffer[..n];
  }

  /** The bytes after the first line decide between SOCKS5 and plain TCP when it was
      not a request after all. */
  method ReadOther(reader: Reader, back: Sink, ghost given: Bytes) returns (kind: Kind, ghost head: Bytes)
    requires reader.Valid() && back.Got(given)
    modifies reader, reader.buf, reader.rd, back
    ensures reader.Valid() && kind != Http && kind == (if SocksHead(old(reader.Unread())) then Socks5 else Tcp)
    ensures old(reader.Stream()) == head + reader.Stream() && |reader.rd.pending| <= |old(reader.rd.pending)|
    ensures back.Got(given + Told(kind))
    ensures kind == Tcp ==> reader.Quiet() && unchanged(back)
    ensures kind == Socks5 ==>
              SocksRead(reader.size, old(reader.Cells()), reader.Cells(), old(reader.rd.pending), reader.rd.pending, !back.broken, reader.rd)
  {
    hide SocksRead, Sink.Got;
    head := [];
    assert given + [] == given;
    if reader.Buffered() < 2 {
      return Tcp, head;
    }
    var start, e := reader.Peek(2);
    assert start == reader.Unread()[..2] && reader.Cells() == old(reader.Cells());
    if start[0] != 5 as char {
      return Tcp, head;
    }
    head := GreetSocks(reader, back, given);
    kind := Socks5;
  }

  // ---- What is read, as a function of the stream ----

  /** The first line is in the buffer, and the header block up to its end. */
  predicate HeadBuffered(seen: Bytes) {
    '\n' in seen && BlockEnds(AfterLine(seen))
  }

  /** The outcome is decided: the request is buffered up to its body; or the source
      never stalls, and the header block ends or errors come alone. */
  ghost predicate Settled(seen: Bytes, s: Bytes, rd: Source) {
    || HeadBuffered(seen)
    || (rd.patience < MAX_EMPTY_READS && (rd.errAlone || HeadBuffered(s)))
  }

  /** The stream starts with a request: method, line, address and a whole header. */
  ghost predicate StartsRequest(s: Bytes, size: nat, fin: Error, urlOk: string -> bool)
    requires size >= 2
  {
    && HeadMatches(s) && '\n' in s
    && LineOk(DropBreak(FirstLine(s)))
    && urlOk(RawUrl(MethodOf(s), ParseRequestLine(DropBreak(FirstLine(s))).uri))
    && HeaderSpec.ParseHeader(AfterLine(s), size, fin).err == Fine
  }

  /** Of the stream `s`, whatever its chunks, `q` is the request it starts with: its
      first line, its header block and a body from right behind that.  `seen` is what
      was buffered when the method was looked for; eight bytes are needed. */
  ghost predicate ReadAs(q: Request, seen: Bytes, s: Bytes, left: Bytes, size: nat, rd: Source, urlOk: string -> bool) {
    Settled(seen, s, rd) ==>
      && (q.ok <==> |seen| >= 8 && size >= 2 && StartsRequest(s, size, rd.final, urlOk))
      && (q.ok ==> q.verb == MethodOf(s) && q.line == DropBreak(FirstLine(s)) && Addressed(q)
                   && HeaderOf(q, left, HeaderSpec.ParseHeader(AfterLine(s), size, rd.final)))
  }

  lemma {:induction false} HeadPrefix(u: Bytes, s: Bytes)
    requires u <= s && |u| >= 8
    ensures HeadMatches(u) <==> HeadMatches(s)
    ensures HeadMatches(u) ==> MethodOf(u) == MethodOf(s)
  {
    assert u[..8] == s[..8];
    if ' ' in u[..8] {
      var i := IndexByte(u[..8], ' ');
      assert i >= 0;
      assert u[..i] == u[..8][..i] && s[..i] == s[..8][..i];
    }
  }

  /** It was no request. */
  lemma {:induction false} NotRead(q: Request, u: Bytes, s: Bytes, left1: Bytes, left: Bytes, line: string, size: nat,
                                   rd: Source, urlOk: string -> bool)
    requires !q.ok && u <= s
    requires HeadMatches(u) && ('\n' in u || rd.patience < MAX_EMPTY_READS) ==> LineTaken(s, left1, false, line)
    ensures ReadAs(q, u, s, left, size, rd, urlOk)
  {
    hide MethodOf, LineOk, HeaderSpec.ParseHeader, BlockEnds, ParseRequestLine, RawUrl;
    if |u| >= 8 {
      HeadPrefix(u, s);
    }
  }

  /** A block that is buffered, or the line in front of it, is also in the stream. */
  lemma {:induction false} SettledRest(u: Bytes, u1: Bytes, s: Bytes, rd: Source)
    requires u <= s && '\n' in s && Settled(u, s, rd) && ('\n' in u ==> u1 == AfterLine(u))
    ensures Decided(u1, AfterLine(s), rd)
  {
    hide BlockEnds;
  }

  lemma {:induction false} WasRead(q: Request, u: Bytes, u1: Bytes, s: Bytes, s1: Bytes, left: Bytes, size: nat,
                                   rd: Source, urlOk: string -> bool)
    requires u <= s && size >= 8 && HeadMatches(u) && q.verb == MethodOf(u) && Addressed(q) && LineOk(q.line)
    requires '\n' in u ==> u1 == AfterLine(u)
    requires '\n' in u || rd.patience < MAX_EMPTY_READS ==> LineTaken(s, s1, true, q.line)
    requires urlOk(RawUrl(q.verb, ParseRequestLine(q.line).uri)) && Decided(u1, s1, rd) ==>
               HeaderOf(q, left, HeaderSpec.ParseHeader(s1, size, rd.final))
    requires !urlOk(RawUrl(q.verb, ParseRequestLine(q.line).uri)) ==> !q.ok
    ensures ReadAs(q, u, s, left, size, rd, urlOk)
  {
    LooksLong(u);
    HeadPrefix(u, s);
    EmptyHeader(size, rd.final);
    if Settled(u, s, rd) && '\n' in s {
      SettledRest(u, u1, s, rd);
    }
    hide BlockEnds, HeaderSpec.ParseHeader, HeadMatches, ParseRequestLine, RawUrl, LineOk, Collect;
  }

  lemma {:induction false} EmptyHeader(size: nat, fin: Error)
    requires size >= 2
    ensures HeaderSpec.ParseHeader([], size, fin).err != Fine
  {
  }

  /** A buffered packet that needs no more is judged by itself, and only one that is taken
      for SOCKS5 has anything done to it or to the connection. */
  ghost predicate Judged(u: Bytes, kind: Kind, size: nat, cells: Bytes, cells': Bytes, p: Bytes, p': Bytes, heard: bool,
                         rd: Source, urlOk: string -> bool) {
    !NeedsMore(u, urlOk) ==>
      && (kind == Http <==> HttpHead(u)) && (kind == Socks5 <==> SocksPacket(u))
      && (if kind == Socks5 then SocksRead(size, cells, cells', p, p', heard, rd) else cells' == cells && p' == p)
  }

  /** It was a request. */
  lemma {:induction false} HttpJudged(u: Bytes, u1: Bytes, verb: string, line: string, urlOk: string -> bool)
    requires HeadOutcome(u, u1, true, line) && HeadMatches(u) && LineOk(line) && verb == MethodOf(u)
    ensures !NeedsMore(u, urlOk) ==> HttpHead(u) && '\n' in u
    ensures !NeedsMore(u, urlOk) ==> BlockEnds(u1) || !urlOk(RawUrl(verb, ParseRequestLine(line).uri))
    ensures NeedsMore(u, urlOk) && '\n' in u ==> !BlockEnds(u1) && urlOk(RawUrl(verb, ParseRequestLine(line).uri))
    ensures !SocksPacket(u) && ('\n' in u ==> u1 == AfterLine(u))
  {
    hide HeadMatches, BlockEnds, RawUrl, MethodOf, ParseRequestLine, DropBreak, FirstLine, AfterLine;
  }

  /** It was not. */
  lemma {:induction false} OtherJudged(u: Bytes, u1: Bytes, line: string, urlOk: string -> bool)
    requires HeadOutcome(u, u1, false, line)
    ensures !NeedsMore(u, urlOk) ==> !HttpHead(u) && (SocksPacket(u) <==> SocksHead(u1)) && (!HeadMatches(u) || '\n' in u)
    ensures NeedsMore(u, urlOk) ==> HeadMatches(u) && '\n' !in u
  {
    hide HeadMatches, BlockEnds, RawUrl, MethodOf, ParseRequestLine, DropBreak, FirstLine, AfterLine, SocksHead;
  }

  lemma {:induction false} JudgedIs(u: Bytes, kind: Kind, size: nat, cells: Bytes, cells': Bytes, p: Bytes, p': Bytes, heard: bool,
                                    rd: Source, urlOk: string -> bool)
    requires !NeedsMore(u, urlOk) ==>
               && (kind == Http <==> HttpHead(u)) && (kind == Socks5 <==> SocksPacket(u))
               && (if kind == Socks5 then SocksRead(size, cells, cells', p, p', heard, rd) else cells' == cells && p' == p)
    ensures Judged(u, kind, size, cells, cells', p, p', heard, rd, urlOk)
    ensures SpeaksForItself(u, urlOk) ==> !NeedsMore(u, urlOk) && kind != Socks5
    ensures HttpHead(u) ==> !SocksPacket(u)
  {
    hide NeedsMore, SocksRead;
  }

  /** Tries HTTP first, then SOCKS5, then anything else. */
  method Recognise(reader: Reader, back: Sink, urlOk: string -> bool, ghost given: Bytes) returns (q: Request, ghost head: Bytes)
    requires reader.Valid() && back.Got(given)
    modifies reader, reader.buf, reader.rd, back
    ensures reader.Valid() && |reader.rd.pending| <= |old(reader.rd.pending)|
    ensures old(reader.Stream()) == head + (q.body + reader.Stream())
    ensures NoneEmpty(q.header) && (q.ok ==> q.kind == Http && BodyOk(q, reader.r == reader.w))
    ensures q.kind == Http ==> head != [] && Addressed(q) && HeadMatches(old(reader.Unread()))
    ensures |q.body| <= reader.size
    ensures ReadAs(q, old(reader.Unread()), old(reader.Stream()), reader.Stream(), reader.size, reader.rd, urlOk)
    ensures back.Got(given + Told(q.kind)) && (q.kind != Socks5 ==> unchanged(back))
    ensures Judged(old(reader.Unread()), q.kind, reader.size, old(reader.Cells()), reader.Cells(), old(reader.rd.pending),
                   reader.rd.pending, !back.broken, reader.rd, urlOk)
    ensures SpeaksForItself(old(reader.Unread()), urlOk) ==> reader.Quiet()
    ensures (NeedsMore(old(reader.Unread()), urlOk) && old(reader.rd.pending) != []
             && reader.rd.patience < MAX_EMPTY_READS && reader.rd.errAlone) ==> |reader.rd.pending| < |old(reader.rd.pending)|
  {
    hide HeadMatches, LineOk, ParseRequestLine, BlockEnds, FramingOf, BodyOk, RawUrl, HeaderOf, Addressed, HeaderSpec.ParseHeader;
    hide LineTaken, Decided, ReadAs, SocksRead, Sink.Got, SocksHead, NeedsMore, HttpHead, SocksPacket, Judged, SpeaksForItself, HeadOutcome;
    hide MethodOf, Told, Reader.Stream;
    NothingTold(given);
    ghost var u, s, cells, p := reader.Unread(), reader.Stream(), reader.Cells(), reader.rd.pending;
    StreamParts(reader);
    var http, verb, line;
    ghost var first, more;
    http, verb, line, first := ValidHead(reader);
    ghost var u1, s1 := reader.Unread(), reader.Stream();
    assert !HeadMatches(u) || '\n' in u ==> reader.Cells() == cells && reader.rd.pending == p;
    if http {
      LooksLong(u);
      HttpJudged(u, u1, verb, line, urlOk);
      q, more := ReadHttp(reader, verb, line, urlOk);
      WasRead(q, u, u1, s, s1, reader.Stream(), reader.size, reader.rd, urlOk);
      Assoc(first, more, q.body + reader.Stream());
    } else {
      OtherJudged(u, u1, line, urlOk);
      var kind;
      kind, more := ReadOther(reader, back, given);
      Assoc(first, more, reader.Stream());
      assert [] + reader.Stream() == reader.Stream();
      q := NOTHING.(kind := kind);
      NotRead(q, u, s, s1, reader.Stream(), line, reader.size, reader.rd, urlOk);
    }
    head := first + more;
    JudgedIs(u, q.kind, reader.size, cells, reader.Cells(), p, reader.rd.pending, !back.broken, reader.rd, urlOk);
  }

  lemma {:induction false} NothingTold(given: Bytes)
    ensures forall kind: Kind :: kind != Socks5 ==> given + Told(kind) == given
  {
  }

  /** What reading makes of a stream `s` of which `u` was buffered: a request and its
      bytes, the body framed by its header, and what is left. */
  ghost predicate Outcome(q: Request, head: Bytes, u: Bytes, s: Bytes, left: Bytes, size: nat, drained: bool,
                          rd: Source, urlOk: string -> bool) {
    && s == head + (q.body + left) && NoneEmpty(q.header) && |q.body| <= size
    && (q.ok ==> q.kind == Http && BodyOk(q, drained))
    && (q.kind == Http ==> head != [] && Addressed(q) && HeadMatches(u))
    && ReadAs(q, u, s, left, size, rd, urlOk)
    && (q.ok && HeadBuffered(u) ==> BodyOk(q, head + q.body == u))
  }

  /** The same of what is buffered: where the body ends, and that nothing happens to a
      connection that starts neither like a request nor like SOCKS5. */
  method ReadSeen(reader: Reader, back: Sink, urlOk: string -> bool, ghost given: Bytes) returns (q: Request, ghost head: Bytes)
    requires reader.Valid() && back.Got(given)
    modifies reader, reader.buf, reader.rd, back
    ensures reader.Valid() && |reader.rd.pending| <= |old(reader.rd.pending)|
    ensures Outcome(q, head, old(reader.Unread()), old(reader.Stream()), reader.Stream(), reader.size, reader.r == reader.w, reader.rd, urlOk)
    ensures !HeadMatches(old(reader.Unread())) && !SocksHead(old(reader.Unread())) ==> reader.Quiet() && q.kind != Socks5
    ensures back.Got(given + Told(q.kind)) && (q.kind != Socks5 ==> unchanged(back))
    ensures Judged(old(reader.Unread()), q.kind, reader.size, old(reader.Cells()), reader.Cells(), old(reader.rd.pending),
                   reader.rd.pending, !back.broken, reader.rd, urlOk)
    ensures SpeaksForItself(old(reader.Unread()), urlOk) ==> reader.Quiet()
    ensures (NeedsMore(old(reader.Unread()), urlOk) && old(reader.rd.pending) != []
             && reader.rd.patience < MAX_EMPTY_READS && reader.rd.errAlone) ==> |reader.rd.pending| < |old(reader.rd.pending)|
  {
    hide NeedsMore, HttpHead, ReadAs, BodyOk, Addressed, HeadMatches, HeadBuffered, SocksRead, SocksHead, SocksPacket, Sink.Got;
    hide Told, Judged, SpeaksForItself, FramingOf, NoneEmpty, Reader.Valid, Source.Valid;
    ghost var u, p, cells := reader.Unread(), reader.rd.pending, reader.Cells();
    OnlyHeads(u, urlOk);
    StreamParts(reader);
    q, head := Recognise(reader, back, urlOk, given);
    StreamParts(reader);
    QuietKind(u, q.kind, reader.size, cells, reader.Cells(), p, reader.rd.pending, !back.broken, reader.rd, urlOk);
    if q.ok && HeadBuffered(u) {
      HttpUntouched(u, reader.size, cells, reader.Cells(), p, reader.rd.pending, !back.broken, reader.rd, urlOk);
      BodyDrained(q, head, u, p, reader.Unread(), reader.r == reader.w);
    }
  }

  lemma {:induction false} StreamParts(reader: Reader)
    requires reader.Valid()
    ensures reader.Stream() == reader.Unread() + reader.rd.pending && (reader.r == reader.w ==> reader.Unread() == [])
  {
  }

  /** Whether there is anything to look at; a connection is asked only if nothing is
      buffered. */
  method Starts(reader: Reader) returns (some: bool)
    requires reader.Valid()
    modifies reader, reader.buf, reader.rd
    ensures reader.Valid() && reader.Stream() == old(reader.Stream()) && |reader.rd.pending| <= |old(reader.rd.pending)|
    ensures old(reader.Unread()) != [] ==>
              && some && reader.Unread() == old(reader.Unread()) && reader.Cells() == old(reader.Cells())
              && reader.rd.pending == old(reader.rd.pending) && reader.Quiet()
    ensures |reader.Unread()| <= reader.size && reader.Unread() <= reader.Stream() && (some <==> reader.Unread() != [])
    ensures !some ==> reader.Stream() == [] || reader.size == 0 || reader.rd.patience >= MAX_EMPTY_READS
  {
    ghost var u := reader.Unread();
    var data, e := reader.Peek(1);
    assert u != [] ==> reader.Unread() == u;
    some := e == Error.Nil;
  }

  /** Recognises and reads what a connection starts with.  The connection is asked for
      more than is buffered exactly when the buffer holds an unfinished request, or what
      looks like SOCKS5. */
  method ReadRequest(reader: Reader, back: Sink, urlOk: string -> bool, ghost given: Bytes)
    returns (q: Request, ghost head: Bytes, ghost seen: Bytes)
    requires reader.Valid() && back.Got(given)
    modifies reader, reader.buf, reader.rd, back
    ensures reader.Valid() && |reader.rd.pending| <= |old(reader.rd.pending)|
    ensures Outcome(q, head, seen, old(reader.Stream()), reader.Stream(), reader.size, reader.r == reader.w, reader.rd, urlOk)
    ensures |seen| <= reader.size && seen <= old(reader.Stream()) && (old(reader.Unread()) != [] ==> seen == old(reader.Unread()))
    ensures old(reader.Stream()) != [] && reader.rd.patience < MAX_EMPTY_READS && reader.size > 0 ==> seen != []
    ensures !HeadMatches(seen) && !SocksHead(seen) ==> old(reader.Stream()) == seen + reader.rd.pending && q.kind != Socks5
    ensures back.Got(given + Told(q.kind)) && (q.kind != Socks5 ==> unchanged(back))
    ensures old(reader.Unread()) != [] ==>
              && Judged(old(reader.Unread()), q.kind, reader.size, old(reader.Cells()), reader.Cells(), old(reader.rd.pending),
                        reader.rd.pending, !back.broken, reader.rd, urlOk)
              && (SpeaksForItself(old(reader.Unread()), urlOk) ==> reader.Quiet())
    ensures (NeedsMore(old(reader.Unread()), urlOk) && old(reader.rd.pending) != []
             && reader.rd.patience < MAX_EMPTY_READS && reader.rd.errAlone) ==> |reader.rd.pending| < |old(reader.rd.pending)|
  {
    hide NeedsMore, HttpHead, ReadAs, BodyOk, Addressed, HeadMatches, HeadBuffered, SocksRead, SocksHead, SocksPacket, Sink.Got;
    hide Told, Judged, SpeaksForItself, Outcome, Reader.Valid, Source.Valid, Reader.Stream, Reader.Unread, Reader.Cells;
    NothingTold(given);
    q, head, seen := NOTHING, [], [];
    StreamParts(reader);
    var some := Starts(reader);
    StreamParts(reader);
    if !some {
      NothingSeen(reader.Stream(), reader.size, reader.r == reader.w, reader.rd, urlOk);
      assert [] + reader.rd.pending == reader.rd.pending;
      return;
    }
    seen := reader.Unread();
    q, head := ReadSeen(reader, back, urlOk, given);
  }

  lemma {:induction false} BodyDrained(q: Request, head: Bytes, seen: Bytes, p: Bytes, left: Bytes, drained: bool)
    requires NoneEmpty(q.header) && BodyOk(q, drained) && (drained ==> left == [])
    requires seen + p == head + (q.body + (left + p))
    ensures BodyOk(q, head + q.body == seen)
  {
    hide FramingOf;
    if drained {
      Assoc(head, q.body, p);
      assert left + p == p;
      assert (head + q.body + p)[..|seen|] == head + q.body;
      assert (seen + p)[..|seen|] == seen;
    }
  }

  lemma {:induction false} OnlyHeads(u: Bytes, urlOk: string -> bool)
    ensures NeedsMore(u, urlOk) ==> HeadMatches(u) && !HeadBuffered(u)
    ensures !HeadMatches(u) && !SocksHead(u) ==> SpeaksForItself(u, urlOk)
  {
  }

  lemma {:induction false} QuietKind(u: Bytes, kind: Kind, size: nat, cells: Bytes, cells': Bytes, p: Bytes, p': Bytes, heard: bool,
                                     rd: Source, urlOk: string -> bool)
    requires Judged(u, kind, size, cells, cells', p, p', heard, rd, urlOk)
    ensures SpeaksForItself(u, urlOk) ==> kind != Socks5
  {
    hide NeedsMore, HttpHead, SocksPacket;
  }

  lemma {:induction false} HttpUntouched(u: Bytes, size: nat, cells: Bytes, cells': Bytes, p: Bytes, p': Bytes, heard: bool,
                                         rd: Source, urlOk: string -> bool)
    requires Judged(u, Http, size, cells, cells', p, p', heard, rd, urlOk) && HeadBuffered(u)
    ensures p' == p
  {
    OnlyHeads(u, urlOk);
    hide NeedsMore, HeadBuffered, HttpHead, SocksPacket;
  }

  lemma {:induction false} OutcomeIs(q: Request, head: Bytes, u: Bytes, s: Bytes, left: Bytes, size: nat, drained: bool,
                                     rd: Source, urlOk: string -> bool)
    requires Outcome(q, head, u, s, left, size, drained, rd, urlOk)
    ensures s == head + (q.body + left) && ReadAs(q, u, s, left, size, rd, urlOk)
    ensures q.kind == Http ==> HeadMatches(u)
    ensures q.ok ==> q.kind == Http
  {
    hide ReadAs, BodyOk, Addressed, HeadMatches, HeadBuffered;
  }

  lemma {:induction false} NothingSeen(s: Bytes, size: nat, drained: bool, rd: Source, urlOk: string -> bool)
    ensures Outcome(NOTHING, [], [], s, s, size, drained, rd, urlOk)
    ensures !NeedsMore([], urlOk) && !HeadMatches([]) && !NOTHING.ok && NOTHING.kind == Unknown
  {
    assert [] + ([] + s) == s;
  }

  // ---- At an input ----

  const GET_LINE := "GET / HTTP/1.1"

  lemma {:induction false} GetIsRecognised(rest: Bytes)
    ensures HeadMatches(GET_LINE + CRLF + rest) && MethodOf(GET_LINE + CRLF + rest) == "GET"
  {
    var p := GET_LINE + CRLF + rest;
    assert p[..8] == "GET / HT";
    assert p[..8][..3] == "GET" && p[..3] == "GET";
    IndexIs(p[..8], ' ', 3);
    assert Upper("GET") == "GET";
  }

  lemma {:induction false} GetIsALine(rest: Bytes)
    ensures var s := GET_LINE + CRLF + rest;
            '\n' in s && DropBreak(FirstLine(s)) == GET_LINE && AfterLine(s) == rest
    ensures ParseRequestLine(GET_LINE) == RequestLine("/", "HTTP/1.1", true)
    ensures RawUrl("GET", "/") == "/"
  {
    hide ParseRequestLine, DropBreak, FirstLine, AfterLine;
    assert ' ' !in "GET" && ' ' !in "/" && GET_LINE == "GET" + [' '] + "/" + [' '] + "HTTP/1.1";
    ParsePrinted("GET", "/", "HTTP/1.1");
    LineOfCRLF(GET_LINE, rest);
  }

  /** A packet that holds a request's first line and no more of it. */
  lemma {:induction false} LineAloneNeedsMore(urlOk: string -> bool)
    requires urlOk("/")
    ensures NeedsMore(GET_LINE + CRLF, urlOk)
  {
    assert GET_LINE + CRLF + [] == GET_LINE + CRLF;
    GetIsRecognised([]);
    GetIsALine([]);
    hide HeadMatches, ParseRequestLine, MethodOf, DropBreak, FirstLine, AfterLine, RawUrl;
  }

  lemma {:induction false} EmptyBlock(rest: Bytes, size: nat, fin: Error)
    requires size >= 2
    ensures BlockEnds(CRLF + rest)
    ensures HeaderSpec.ParseHeader(CRLF + rest, size, fin) == Parsed([], Fine, rest)
  {
    LineOfCRLF([], rest);
    assert [] + CRLF + rest == CRLF + rest;
  }

  lemma {:induction false} GetStarts(size: nat, fin: Error, urlOk: string -> bool)
    requires urlOk("/") && size >= 2
    ensures StartsRequest(GET_LINE + CRLF + CRLF, size, fin, urlOk) && HeadBuffered(GET_LINE + CRLF + CRLF)
  {
    GetIsRecognised(CRLF);
    GetIsALine(CRLF);
    EmptyBlock([], size, fin);
    assert CRLF + [] == CRLF;
    hide HeadMatches, ParseRequestLine, MethodOf, DropBreak, FirstLine, AfterLine, RawUrl, BlockEnds, HeaderSpec.ParseHeader;
  }

  /** A whole request that is not read as one, because its first chunk is "GET". */
  lemma {:induction false} ShortChunkNotRead(q: Request, left: Bytes, size: nat, rd: Source, urlOk: string -> bool)
    requires urlOk("/") && size >= 2 && rd.patience < MAX_EMPTY_READS
    requires ReadAs(q, "GET", GET_LINE + CRLF + CRLF, left, size, rd, urlOk)
    ensures StartsRequest(GET_LINE + CRLF + CRLF, size, rd.final, urlOk) && !q.ok
  {
    GetStarts(size, rd.final, urlOk);
    hide HeadBuffered, StartsRequest, Addressed, HeaderOf, HeaderSpec.ParseHeader, MethodOf, DropBreak, FirstLine, AfterLine;
    assert Settled("GET", GET_LINE + CRLF + CRLF, rd);
  }
}
