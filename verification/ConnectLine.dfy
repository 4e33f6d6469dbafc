/** The text of a CONNECT request, as `httpConnect` prints it (proto/tunnel.go:571-575),
    and what a reader makes of it. */
module ConnectLine {
  import opened Bytes
  import opened Net
  import opened Lines
  import opened TcpReader
  import opened HeaderSpec
  import opened HttpRequest

  predicate Plain(address: string) {
    ' ' !in address && '\r' !in address && '\n' !in address
  }

  function ConnectText(address: string): string {
    "CONNECT" + [' '] + address + [' '] + "HTTP/1.1" + CRLF + CRLF
  }

  /** As a stream, the text is one request line and an empty header block, for every
      address without spaces and line breaks; and it is a format that prints itself if
      the address has no percent sign. */
  lemma {:induction false} TextIsALine(address: string, rest: Bytes)
    requires Plain(address)
    ensures var line := "CONNECT" + [' '] + address + [' '] + "HTTP/1.1";
            var s := ConnectText(address) + rest;
            && ('%' !in address ==> '%' !in ConnectText(address))
            && '\n' in s && DropBreak(FirstLine(s)) == line && AfterLine(s) == CRLF + rest
            && ParseRequestLine(line) == RequestLine(address, "HTTP/1.1", true)
  {
    hide ParseRequestLine, DropBreak, FirstLine, AfterLine;
    var line := "CONNECT" + [' '] + address + [' '] + "HTTP/1.1";
    assert '\n' !in "CONNECT" && '\n' !in "HTTP/1.1" && ' ' !in "CONNECT";
    ParsePrinted("CONNECT", address, "HTTP/1.1");
    LineOfCRLF(line, CRLF + rest);
    assert ConnectText(address) + rest == line + CRLF + (CRLF + rest);
  }

  lemma {:induction false} TextIsRecognised(address: string, rest: Bytes)
    ensures HeadMatches(ConnectText(address) + rest) && MethodOf(ConnectText(address) + rest) == "CONNECT"
  {
    var p := ConnectText(address) + rest;
    assert p[..8] == "CONNECT" + [' '];
    assert p[..8][..7] == "CONNECT" && p[..7] == "CONNECT";
    IndexIs(p[..8], ' ', 7);
    assert Upper("CONNECT") == "CONNECT";
  }

  /** In front of any bytes the text starts a request: it is recognised, it has no
      header, and its body starts right behind it. */
  lemma {:induction false} TextStartsRequest(address: string, rest: Bytes, size: nat, fin: Error, urlOk: string -> bool)
    requires size >= 2 && Plain(address) && urlOk(RawUrl("CONNECT", address))
    ensures var s := ConnectText(address) + rest;
            && StartsRequest(s, size, fin, urlOk) && HeadBuffered(s)
            && HeaderSpec.ParseHeader(AfterLine(s), size, fin) == Parsed([], Fine, rest)
  {
    hide ConnectText, HeadMatches, ParseRequestLine, BlockEnds, HeaderSpec.ParseHeader, RawUrl, MethodOf, DropBreak, FirstLine;
    TextIsALine(address, rest);
    TextIsRecognised(address, rest);
    EmptyBlock(rest, size, fin);
  }

  /** What is read of such a stream, whatever the chunks. */
  lemma {:induction false} TextIsRead(q: Request, seen: Bytes, address: string, rest: Bytes, left: Bytes, size: nat,
                                      rd: Source, urlOk: string -> bool)
    requires Plain(address) && urlOk(RawUrl("CONNECT", address)) && rd.patience < MAX_EMPTY_READS
    requires |seen| <= size && ReadAs(q, seen, ConnectText(address) + rest, left, size, rd, urlOk)
    ensures q.ok <==> |seen| >= 8
    ensures q.ok ==> q.verb == "CONNECT" && q.uri == address && q.header == map[] && q.body + left == rest
  {
    TextIsALine(address, rest);
    TextIsRecognised(address, rest);
    TextStartsRequest(address, rest, if size >= 2 then size else 2, rd.final, urlOk);
    assert Collect([]) == map[];
    hide ConnectText, HeadMatches, ParseRequestLine, BlockEnds, HeaderSpec.ParseHeader, RawUrl, MethodOf, DropBreak, FirstLine;
    hide Collect, StartsRequest;
  }
}
