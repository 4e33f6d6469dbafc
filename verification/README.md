# Proof model of the proxy

This project models the data paths of a TCP and HTTP proxy and proves that they carry bytes
whole, in order and to the right place. It has five parts that share one idea: a byte stream
that arrives in arbitrary chunks must come out as if it had arrived in one.

**Streams.** `Net` is the two ends of a connection: a source that delivers a fixed byte
sequence in chunks chosen by an adversary and then fails for good, and a sink that takes what
it is given until its room is used up and then breaks. `TcpReader` is the buffered reader with its sliding array, its
pending error and its put-back of a carriage return; every operation says what it takes from
the front of the logical stream, which is the unread part of the buffer followed by what the
source still holds. `TextReader` joins its pieces into lines, `ReaderRuns` runs operations in
any order.

**Headers.** `HeaderSpec` says what a header block means as a function of the stream alone, and
`Continuation` where that is not what the code's comment promises;
`HeaderLayout` says what that is of blocks laid out in any way; `HeaderReader` is the parsing loop with its shared slab of value slices (`Slab`) and refines
it. `HeaderWriter` prints a header map, `RoundTrip` says exactly which maps come back,
`HeaderKeys` and `HeaderMap` are the canonical names and the map operations.

**Requests on one connection.** `HttpRequest` recognises and reads a request and frames its
body, `RequestTrip` says what it makes of a request as a client writes it; `KeepAlive` is the two pumps, of which one counts the body down and looks for the next request,
`TunnelSteps` both of them side by side;
`Serve` follows a connection over any number of requests.

**The multiplexer.** Many TCP streams share websockets through hubs that never wait.
`NatProtocol` and `NatSystem` are the step relation over bridges, hubs, channels, pumps and
wires, with an invariant that every step keeps; `NatRuns` draws the conclusions for every run;
`NatCut` says what cuts a stream and exactly where, `NatProgress` that whatever was sent can get through; `NatHub` and `NatPumps` are the hubs' event loops and the pumps as the code runs them.

**Routing.** `DnsCache` is the ring-evicted map of resolved names, `Route` the rules as a plan,
`Handshake` the code that carries a plan out, `RouteMeans` what that comes to in attempts, `Routing` what that means over one and over many
handshakes. `Aes`, `Base64`, `ConnectLine` and `Connect` are the encrypted CONNECT between two nodes.

Verify everything with `dafny verify dfyconfig.toml`.

## Conventions

- A byte is a `char` where text is moved and parsed, and a number from 0 to 255 where it is
  encrypted; `Connect.OfBytes` is the bridge.
- What the code calls a panic is a precondition, an index or an outcome (`Panics`), so a member
  that verifies does not run into it unless its contract says so.
- A `Sink` records what it was handed (`Got`): it has as much of that as its `room` takes and is
  broken exactly if something did not fit.
- The one look a pump takes is recorded in a `Probe`, and what became of the stream is stated
  around it for every packet. `Serve.Calm` says of a hop that its look, if any, was at a packet
  that speaks for itself, which can be checked on that packet.
- A source has a `patience`, the longest run of empty reads it produces. Below a hundred the
  reader never gives up; results that need this say so. `errAlone` says that an error never
  comes together with bytes, as on TCP connections.
- Dialling, probing, resolving, address checks and the clock are functions or parameters
  (`World`, `Outside`, `now`, `urlOk`); the block cipher is any permutation with its inverse.

## Where the code and its promises differ

- `ReadHeader`'s comment promises continuation lines; the code has none. `PromiseKeptExactly`
  says for which blocks that shows, `LongKeyFails` is the comment's own example.
- An unterminated last line that is cut into full buffers with nothing left over is lost with
  the source's error; `Lines.Lost` is the exact condition, `ReadLineSlice` uses it, and
  `FullBufferIsLost` is such a line.
- A read that brings the end of a body and the start of another request goes to the old server
  whole (`StraddleForwardsMore`); the pump switches only at a packet boundary
  (`SwitchNeedsBoundary`).
- The keep-alive probe takes bytes off the connection when a packet holds an unfinished request,
  such as its first line alone (`LineAloneLoses`), or starts with byte five (also behind a first
  line that is refused): that is taken for SOCKS5, so that the client is also told two bytes
  (`FiveLoses`). These are the packets that do not speak for themselves, and for exactly these
  bytes are lost (`LosesExactly`); without them a connection is partitioned (`CalmIsPartition`,
  `CalmExactly`).
- `Transfer-Encoding` is not in the table of names that are rewritten, so that it is only noticed as
  it is written there (`FramingNames`, `SmallLettersAreMissed`).
- The bytes that were buffered behind a CONNECT request are not sent to its server
  (`ConnectLoses`, `ConnectDropsX`).
- A request whose first chunk brings fewer than eight bytes is not recognised (`ReadRequest`,
  `ShortChunkNotRead`).
- A name dropped from the cache by a lookup keeps its slot, which evicts the name early when it
  is stored again (`StaleNameEvictsEarly`, `StaleRun`).
- A rule's own proxy written without a host or with port zero means a direct connection
  (`OwnProxyDecides`, `HostlessIsDirect`).
- The AES key is also the first chaining block, so 24 and 32 byte keys panic (`SealAddress`).
- The local side of a multiplexed stream unregisters its bridge when its own reading ends, which
  cuts the other direction at what was received by then (`LocalUnregisterCuts`, `NatCut.CutExactly`).

## Model

| member | source | states |
|---|---|---|
| `TcpReader.Reader.WithBuf` | proto/tcp/reader.go:39-44 | A reader over a caller's slice starts with that slice as its unread bytes, in the caller's own memory, followed by what the connection still holds. |
| `TcpReader.Reader.Sized` | proto/tcp/reader.go:49-61 | A sized reader has at least sixteen bytes of its own buffer, nothing in it, and the whole source ahead. |
| `TcpReader.Reader.Read` | proto/tcp/reader.go:78-118 | One read hands out the next bytes of the logical stream whatever the chunks; a target at least as long as the buffer always leaves the buffer empty; with an empty buffer it is one read of the connection, into the target, or for a shorter target into the buffer, whose cells it overwrites from the front. |
| `TcpReader.Reader.ReadLine` | proto/tcp/reader.go:121-157 | Gives a line, or a bufferful of a longer one; a carriage return that ends a full buffer is put back, so no `\r\n` is split; the rewind never passes the start. |
| `TcpReader.Reader.ReadSlice` | proto/tcp/reader.go:175-214 | The error is nil exactly when the result ends in the first delimiter; otherwise it is all that was buffered; a full buffer is reported as such. |
| `TcpReader.Reader.Search` | proto/tcp/reader.go:177-207 | The search resumed behind the bytes already seen finds the first delimiter also after slides, and ends by free space and pending error; `fill` is never called on a full buffer. |
| `TcpReader.Reader.Fill` | proto/tcp/reader.go:217-246 | Slides in place, keeps the logical stream, and reads until bytes, an error or a hundred empty reads. |
| `TcpReader.Reader.Peek` | proto/tcp/reader.go:249-275 | Consumes nothing; gives the asked bytes, or with an error all there is; touches nothing when they are buffered already. |
| `TcpReader.Reader.UnreadBuf` | proto/tcp/reader.go:278-293 | Takes the first `max` buffered bytes, or all of them, and nothing else. |
| `ReaderRuns.PerformAll` | proto/tcp/reader.go:78-293 | For any sequence of operations, chunks and errors, each gives its caller what it should of where the one before left the reader: the next bytes, the stretch up to the first delimiter, the line or piece, the bytes ahead, the buffered ones, or an error that is true; and what was taken, then what is left, is the stream there was. |
| `ReaderRuns.TakenThenRest` | proto/tcp/reader.go:78-293 | Over any operations that fit, what was taken and then the rest of the stream is the stream there was: nothing is lost, repeated or moved. |
| `ReaderRuns.OneBytePiece` | proto/tcp/reader.go:121-139 | With a one-byte buffer a piece of a line is empty, and nothing moves, exactly when a carriage return is next: why line reads need two bytes. |
| `TextReader.LineReader.ReadLineSlice` | proto/text/reader.go:44-61 | For every chunking and buffer of two or more bytes: with a line break ahead it returns exactly the first line and stands exactly behind it; without one everything is taken and, errors coming alone, it fails exactly when the stream is cut into full buffers with nothing left over; a buffered line touches no connection. |
| `TextReader.FullBufferIsLost` | proto/text/reader.go:44-61 | A last line that is lost: a buffer's length of one letter at the end of a stream. |
| `TextReader.PieceStep` | proto/text/reader.go:46-55 | Why joining pieces is sound when `\r\n` straddles a full buffer: a piece never ends inside it. |
| `HeaderKeys.CanonicalMIMEHeaderKey` | proto/http/header.go:63-81 | The quick check in front of the full canonicaliser never changes the result. |
| `HeaderKeys.CanonicalFull` | proto/http/header.go:98-131 | The loops compute the title-case form and ask the table; anything else is returned as it came. |
| `HeaderKeys.CanonicalIdempotent` | proto/http/header.go:63-131 | A canonical name is its own canonical name, for every string. |
| `HeaderKeys.CanonicalFolds` | proto/http/header.go:98-131 | The result differs from the input in ASCII letter case only. |
| `HeaderKeys.CanonicalOfVariant` | proto/http/header.go:126-128 | Every case variant of a table name becomes that name. |
| `HeaderKeys.CanonicalCollides` | proto/http/header.go:96-131 | Two names are the same key exactly when they are equal or both are spellings of one table name. |
| `HeaderMap.HoldsItsHistory` | proto/http/header.go:18-50 | After any Adds, Sets and Dels under any spellings, a name has exactly the values of its own history, told apart from other names exactly on the table. |
| `HeaderMap.Header.AddValue` | proto/http/header.go:18-21 | Appends under the canonical name. |
| `HeaderMap.Header.SetValue` | proto/http/header.go:26-28 | Replaces under the canonical name. |
| `HeaderMap.Header.Get` | proto/http/header.go:36-45 | The first value of the name under any spelling the table knows, or the empty text. |
| `HeaderMap.Header.Delete` | proto/http/header.go:48-50 | Removes the canonical name and only that. |
| `HeaderMap.Header.Change` | proto/http/header.go:18-50 | Any sequence of the three changes does what the specification of the run says. |
| `Slab.Append` | proto/text/reader.go:221-221 | Go's append on a slice of an array: in place or into a copy, and no slice that shares no cell with it changes. |
| `Slab.HeaderTable.Cut` | proto/text/reader.go:212-219 | A slice of capacity one is cut off the shared slab for a new key; nobody else's values move. |
| `Slab.HeaderTable.Add` | proto/text/reader.go:211-222 | With any hint, too small or too large, the slab of slices is a plain per-key append. |
| `HeaderReader.UpcomingHeaderNewlines` | proto/text/reader.go:91-110 | The guess consumes nothing and ends; only the slab's size depends on it. |
| `HeaderReader.ReadField` | proto/text/reader.go:163-209 | One turn of the loop reads one line of what is still to be parsed, with the check of how the previous line ended. |
| `HeaderReader.ReadHeader` | proto/text/reader.go:140-228 | Refines the parser on streams: for every chunking and buffer length the same fields, the same error, exactly the same rest and a table with those values, whenever the block is buffered, or the source does not stall and the block ends or errors come alone; a block that is buffered is read without touching the connection. |
| `HeaderLayout.BlockMeans` | proto/text/reader.go:149-222 | However a block is laid out, with spaces before the colons, blanks behind them and either line break, it is read as its names and values in order up to the empty line; if its first line starts with a blank, that line is the error. |
| `HeaderLayout.NoColon` | proto/text/reader.go:186-189 | A line without a colon stops the parser with itself as the error, the fields before it read and the lines behind it not. |
| `HeaderLayout.NoName` | proto/text/reader.go:200-202 | A line without a name is skipped. |
| `HeaderLayout.CutOff` | proto/text/reader.go:170-188 | A block that is cut off is never fine: the source's error comes out behind its whole lines, with a last field if an unterminated line that is not lost has a colon; without one that line is the error. |
| `HeaderSpec.EndedBlock` | proto/text/reader.go:149-188 | A block that ends parses the same whatever follows it, whatever the buffer length or final error. |
| `HeaderSpec.OpenBlock` | proto/text/reader.go:149-188 | A block that does not end eats into whatever follows it. |
| `Continuation.PromiseKeptExactly` | proto/text/reader.go:120-228 | The comment promises continuation lines, the code has none: a block that ends is read as promised if and only if no line after the first is indented (except one without a name behind another without a name, because both are skipped). |
| `Continuation.LongKeyFails` | proto/text/reader.go:126-138 | The comment's own example, in front of any bytes: "Long-Key" with "Even Longer Value" is promised, the code stops with an error at the third line. |
| `Continuation.ColonBecomesField` | proto/text/reader.go:183-222 | An indented line with a colon becomes a field of its own instead of part of the value before. |
| `HeaderWriter.SanitizeCleans` | proto/http/header.go:329-330 | A value goes on the wire free of line breaks and outer blanks, and unchanged exactly when it was so already. |
| `HeaderWriter.SanitizeKeeps` | proto/http/header.go:329-330 | And it is all of the value but its outer blanks, spaces, tabs and line breaks, with line breaks inside turned into spaces. |
| `HeaderWriter.KeptIsOne` | proto/http/header.go:329-330 | Nothing else could be: that determines it. |
| `HeaderWriter.SortedKeyValues` | proto/http/header.go:298-312 | Every entry that is not excluded, once, in strictly increasing byte order, whatever order the map is walked in. |
| `HeaderWriter.ListingUnique` | proto/http/header.go:298-312 | There is only one such listing, so what is printed does not depend on the map's order. |
| `HeaderWriter.LessMeans` | proto/http/header.go:298-312 | The order of the listing is that of bytes: a name comes first if it is the start of the other, or smaller where they first differ. |
| `HeaderWriter.WriteSubset` | proto/http/header.go:320-348 | A connection is handed exactly the printed fields of that listing: it has as much of them as fits and is broken exactly when they do not fit. |
| `HeaderWriter.PrintMeans` | proto/http/header.go:320-348 | The printed fields are, name by name and value by value, the name, a colon, a space, what is kept of the value, and a line break. |
| `RoundTrip.WriteThenRead` | proto/http/header.go:320-348 | Whatever the values hold, line breaks included, the printed header followed by an empty line and any rest is parsed to the same names, each value as all of it but its outer blanks, and leaves exactly the rest. |
| `RoundTrip.RoundTripExact` | proto/http/header.go:320-348 | A header map comes back from its printed form exactly when its names are canonical, non-empty, free of colons and line breaks and do not end in a space, its value lists are not empty, its values are clean, and the first name does not start with a blank. |
| `RoundTrip.PrintedEnds` | proto/http/header.go:320-348 | A printed header and an empty line end a block, so a reader that has them buffered asks for nothing more. |
| `RoundTrip.WriteAndRead` | proto/http/header.go:320-348 | The header and an empty line are handed to one connection; where another holds the same bytes with anything behind, in any chunks and through a buffer of any length from two bytes, the header comes back in the table and the reader stands behind it exactly when the header is well formed; and nothing more is asked of a connection that was buffered. |
| `RoundTrip.ParsedNames` | proto/text/reader.go:186-202 | No other names ever come out of the parser. |
| `HttpRequest.ParsePrinted` | proto/http.go:358-366 | A printed request line is taken apart into what it was printed from. |
| `HttpRequest.ContentLengthMeans` | proto/http.go:370-380 | Which texts give which length: blanks around do not count; digits are their value while it fits 63 bits, also behind a plus sign; behind a minus sign only zero is a length; anything else is an error, and a blank text is no value. |
| `HttpRequest.ReadBody` | proto/http.go:208-241 | By version, method and header alone: for CONNECT, any version but 1.1, `Upgrade`, `Transfer-Encoding` and a blank length all that is buffered is taken and nothing counted; with a first `Content-Length` that is a number, exactly that many bytes or all there are, and the missing ones counted; with none or no number, nothing. A remainder means an empty buffer. |
| `HttpRequest.FramingMeans` | proto/http.go:208-241 | Exactly the requests of the first kind are not framed; the others are by the announced number, or as without a body. |
| `HttpRequest.PeekMethod` | proto/http.go:50-73 | Recognises a method in the first eight buffered bytes, consuming nothing. |
| `HttpRequest.ReadHttp` | proto/http.go:127-139 | Behind the first line: the URL library's verdict first, then exactly the header the stream holds, and a body framed by it that starts right behind it. |
| `HttpRequest.ReadRequest` | proto/request.go:67-99 | For every chunking (the head being buffered, or the source not stalling and its header block ending or errors coming alone), a request is read exactly when eight bytes were buffered and the stream starts with one; it is then the stream's first line, the header block behind it, and a body from right behind that, framed as its header says and no longer than the buffer. A buffered packet that needs no more is judged alone, and only one taken for SOCKS5 has anything done to it, to the connection or to the client; the connection is asked for more when it holds an unfinished request. |
| `RequestTrip.HeadMeans` | proto/http.go:50-73 | A request is told by one of eight methods, in any letter case, in front of a space among the first eight bytes: exactly then. |
| `RequestTrip.UpperMeans` | proto/http.go:63-63 | Capitals of a method are those of ASCII. |
| `RequestTrip.LineMeans` | proto/http.go:76-97 | A first line is one if and only if it is three parts between two spaces, the third HTTP/1.0 or HTTP/1.1. |
| `RequestTrip.WrittenIsRequest` | proto/http.go:50-139 | A request written with one of those methods, an address, a version and a well-formed header, in front of any bytes, is one exactly if its address is accepted, for a CONNECT without a slash with "http://" in front. |
| `RequestTrip.WrittenIsRead` | proto/http.go:50-241 | Whatever the chunks, with eight bytes buffered, its method in capitals, address, version and header come back, and what follows is body and rest. |
| `RequestTrip.AnnouncedIsRead` | proto/http.go:227-232 | Round trip of a body: where the header announces as many bytes as the body has, in digits, what is read is the first part of the body and the remainder the rest of it; with no remainder it is the body, and what is left is what was behind. |
| `RequestTrip.SilentIsRead` | proto/http.go:234-236 | A request that announces nothing has no body: everything behind its header is left. |
| `RequestTrip.UncountedIsRead` | proto/http.go:208-241 | A remainder below zero means exactly one of the requests that are passed through. |
| `RequestTrip.FramingNames` | proto/http/header.go:98-131 | `Content-Length` and `Connection` are found in any letter case, `Transfer-Encoding` only as it is written there. |
| `RequestTrip.SmallLettersAreMissed` | proto/http.go:222-226 | A POST with "transfer-encoding: chunked" is taken for one without a body. |
| `HttpRequest.ShortChunkNotRead` | proto/http.go:50-53 | A whole request that is not read as one, because its first chunk is "GET". |
| `HttpRequest.LineAloneNeedsMore` | proto/keep.go:42-46 | A packet with a request's first line and no more is one that needs more. |
| `HttpRequest.GreetSocks` | proto/socks5.go:83-103 | What is taken for SOCKS5 loses what was buffered, is answered with two bytes, and if that could be written has one read of 1024 bytes made on its connection, which overwrites a longer buffer from its front. |
| `KeepAlive.IsKeepAliveHttp` | proto/keep.go:42-46 | The probe reads the packet in place; a packet that speaks for itself is judged alone, with packet, connection and client untouched; an unfinished request loses bytes behind it, some if there are any and the connection does not stall; one taken for SOCKS5 has its client greeted and one read's bytes lost, which overwrite a packet of more than 1024 bytes. |
| `KeepAlive.RemainingZero` | proto/tunnel.go:101-125 | The remainder is zero exactly when the packets so far make up the body and no more. |
| `KeepAlive.RemainingStays` | proto/tunnel.go:101-125 | Below zero it stays: no switch ever again. |
| `KeepAlive.SwitchNeedsBoundary` | proto/tunnel.go:101-125 | The pump gets to look for the next request exactly when some packet ends where the body ends. |
| `KeepAlive.StraddleForwardsMore` | proto/tunnel.go:122-130 | A packet that straddles the end of the body goes to the old server whole, more than the announced length. |
| `KeepAlive.LineAloneLoses` | proto/tunnel.go:104-116 | Looking at a packet with a request's first line alone loses bytes that come behind it. |
| `KeepAlive.FiveLoses` | proto/tunnel.go:104-119 | So does looking at the byte five and a letter, and the client is told two bytes it did not ask for. |
| `KeepAlive.LosesExactly` | proto/keep.go:42-46 | With bytes behind it and a client to hear, a look loses none of them if and only if the packet speaks for itself. |
| `KeepAlive.Tunnel.Consider` | proto/tunnel.go:101-126 | Looks at a packet exactly when nothing of the body is left to count, and keeps it for the next request with the state set to idle or gives up framing; counts the body down otherwise, leaving packet and connection alone; what a look takes off the connection and tells the client is stated. |
| `KeepAlive.Tunnel.CopyRequest` | proto/tunnel.go:88-179 | The request pump: what it forwards is the stream, packet by packet, with no hypothesis but for what its one look did, which is taken exactly where the body ends; the server is handed exactly those packets and has as much of them as it takes; it stops at the end of the stream, a broken server, or a packet kept for the next request, which is what the look found; the client is told what that look told it. |
| `KeepAlive.Tunnel.CopyResponse` | proto/tunnel.go:88-179 | The response pump: hands the client the server's stream in order, all of it unless the client breaks; the next request may start exactly when the request pump is idle, the server has ended in order, and the client has all it sent. |
| `TunnelSteps.StartsOnceAlone` | proto/tunnel.go:150-158 | The two pumps side by side, in every interleaving: at most one next request is started, with the request pump done, its packet kept and all of the answer handed on; from then on neither pump can take a step, so the connection is the next request's alone. |
| `TunnelSteps.NothingLost` | proto/tunnel.go:88-179 | In every interleaving whose look was at a packet that speaks for itself, at every moment: what was forwarded, kept and is still ahead is the client's stream, and what was handed on and is still ahead is the server's. |
| `TunnelSteps.CutExactly` | proto/tunnel.go:159-165 | A request pump that its client's connection ended leaves bytes unread if and only if the server ended while the pump was still reading with bytes ahead; those bytes and no others. |
| `TunnelSteps.OneAfterTheOther` | proto/tunnel.go:182-213 | Every interleaving that starts the next request and tells the client nothing on the way has the outcome of one pump after the other, with the same steps of each. |
| `Serve.SendHead` | proto/http.go:337-342 | First line, printed header, empty line, buffered body, in that order. |
| `Serve.HandleRequest` | proto/http.go:313-347 | One request: it is the one the stream in front of it starts with, whatever the chunks, framed by its own header; it is passed on exactly when it was read, its server reached and, for a CONNECT, the client told so; the server is handed its own rewritten line, its own header, its body and the pumped packets; every byte behind it is accounted for; it goes on until the client's stream ends or the server takes no more, unless the pump switches; the client is handed the answer, behind what reading and looking told it. |
| `Serve.Adopt` | proto/request.go:44-54 | The next request's reader starts with the packet kept from the last one and goes on with the connection. |
| `Serve.ServeFrom` | proto/keep.go:14-39 | Over a whole keep-alive chain every hop is such a request; each starts with the packet the one before kept, followed by what was left of the stream; the chain goes on exactly as long as pumps switch and answers end in order and reach the client whole; each server has what its own request means, as far as it takes it; and the client has the answers, in order. |
| `Serve.ServeConnection` | proto/client.go:13-30 | The same from the first byte of a client's connection with the default buffer. |
| `Serve.SwitchedIsBounded` | proto/tunnel.go:101-116 | A switch means a framed request: the buffered part of its body and the pumped packets are exactly the announced length. |
| `Serve.CalmHop` | proto/tunnel.go:88-179 | A hop whose look, if any, was at a packet that speaks for itself: its stream is what it took, the packet kept and the rest; a kept packet starts a request, and none did that was forwarded with the body complete. |
| `Serve.CalmExactly` | proto/tunnel.go:88-179 | On a connection that never stalls, with bytes behind the packet that was looked at and a client to hear, the stream of a hop is cut like that if and only if its look was at a packet that speaks for itself. |
| `Serve.CalmIsPartition` | proto/keep.go:14-39 | A connection of such hops is cut, in order and with nothing lost or repeated, into what each request took and what is left, and every later request is one seen whole in the packet it starts with. |
| `Serve.AnswersInOrder` | proto/tunnel.go:150-158 | Along such a connection, without a CONNECT, the client is handed the answers of the servers in the order of its requests and nothing between them. |
| `Serve.ReplyMeans` | proto/http.go:313-347 | For a CONNECT it is told so in front of the answer, and for nothing else. |
| `Serve.ServerReads` | proto/http.go:337-342 | What a server is handed reads as the client's request: the rewritten first line, a header with the names that were read and all of their values but outer blanks, and right behind it the body and what was pumped; unless the first name in order starts with a blank. |
| `Serve.ConnectLoses` | proto/http.go:314-328 | A server is meant to get its request's text, the buffered part of the body and the pumped packets if and only if the request is no CONNECT or nothing was buffered behind its header block. |
| `Serve.ConnectDropsBytes` | proto/http.go:210-214 | Whatever stands behind a CONNECT in its packet is taken as body and never reaches the server. |
| `Serve.ConnectDropsX` | proto/http.go:314-328 | A packet for which this happens. |
| `NatProtocol.SendKeeps` | nat/client_hub.go:47-71 | Taking a message into a client's channel, or closing the channel because it is full, keeps the pipe a prefix of what was sent. |
| `NatProtocol.DeliverKeeps` | nat/bridge_hub.go:45-71 | Handing a message to its bridge keeps what the bridge accepted a prefix of what arrived for its ID. |
| `NatProtocol.HandleKeeps` | nat/bridge_hub.go:58-70 | A close message that finds its bridge registered finds every byte accepted. |
| `NatSystem.StepKeeps` | nat/client.go:36-149 | Every step of every hub, pump and wire, in both directions, keeps the invariant. |
| `NatSystem.FrontMessage` | nat/client.go:126-149 | A "create" arrives first and finds no bridge; any other message finds one. |
| `NatSystem.SenderNeverWaits` | nat/client_hub.go:56-71 | Whose turn it is in its bridge's own program always finds its client known to the hub, so a bridge's next message can be sent exactly when it is its turn. |
| `NatRuns.ReceiverNeverWaits` | nat/bridge_hub.go:63-70 | In every run a message that was read off a websocket can be handled at once, whatever the channel of its bridge holds. |
| `NatRuns.SentIsInput` | nat/bridge.go:30-59 | The history of a bridge is exactly the messages its own calls gave it. |
| `NatRuns.DeliveredInOrder` | nat/bridge.go:62-90 | In every run, for every ID and direction, what has reached the far connection is a prefix of the bytes given to that ID's own bridge. |
| `NatRuns.CloseDeliversAll` | nat/bridge_hub.go:58-62 | A close that finds its bridge registered finds all bytes accepted, for good; once drained exactly those are written; the step leaves the other direction alone. |
| `NatRuns.FrozenPath` | nat/bridge_hub.go:40-71 | A closed channel never opens again and never accepts another byte, over any run. |
| `NatRuns.CutForGood` | nat/bridge_hub.go:40-44 | Nothing is written beyond what was accepted when a channel was closed. |
| `NatCut.CutExactly` | nat/bridge_hub.go:40-71 | A stream whose channel a step closes is cut exactly at what the hub had received for it: all that was ever given is accepted if and only if that was all. |
| `NatCut.OnlyCutBy` | nat/bridge_hub.go:38-71 | Over any stretch of a run, whatever closes come in the other direction, a stream accepts all that arrives and, once its own close has come, is complete; only its own side's unregistration or a channel with a hundred chunks in it can change that. |
| `NatCut.OnlyClosedBy` | nat/client_hub.go:36-73 | Over any stretch of a run an open client stays open, and all that was given for its streams has arrived or is under way, unless it is unregistered or a message finds two hundred in its channel. |
| `NatCut.LocalUnregisterCuts` | nat/client.go:136-144 | A run with every channel open and none full in which the local side's close and unregistration cut the other direction: a byte given to it never reaches the local connection, however the run goes on. |
| `NatRuns.CanDrain` | nat/bridge.go:69-88 | A live pump can always drain its channel, closed or not, by its own steps alone: a path to everything accepted being written and nothing else changed. |
| `NatProgress.CanDeliver` | nat/client.go:36-149 | From any state, for any streams of an open client known on both sides whose far ends are neither cut nor dead, a path of that client's pumps and those bridges alone writes all that was sent on them, whatever is queued and however full the channels are. |
| `NatProgress.RunCanDeliver` | nat/client.go:36-149 | So every run goes on, by such steps alone, to one in which all that those bridges were ever given has reached the far connections: no stretch of the multiplexer can be stuck. |
| `NatHub.BridgeHub.Register` | nat/bridge_hub.go:38-39 | A new bridge is in the map with an open, empty channel. |
| `NatHub.BridgeHub.Unregister` | nat/bridge_hub.go:40-44 | Late and repeated unregistrations change nothing; a channel is closed once. |
| `NatHub.BridgeHub.Deliver` | nat/bridge_hub.go:53-71 | Whatever order the map is walked in, exactly the bridge of that ID is sent to, or closed when full or told to. |
| `NatHub.BridgeHub.Run` | nat/bridge_hub.go:35-74 | Over any sequence of events no channel is closed twice or sent on after closing, and a known bridge is in the map exactly when its channel is open. |
| `NatHub.BridgesOverRuns` | nat/bridge_hub.go:35-74 | Over any run of the bridge hub no channel exceeds its capacity, one registered on the way included, and a closed one stays closed and only drains. |
| `NatHub.ClientsOverRuns` | nat/client_hub.go:36-73 | The same for clients. |
| `NatHub.Hub.Register` | nat/client_hub.go:39-40 | A new client is in the map with an open channel. |
| `NatHub.Hub.Unregister` | nat/client_hub.go:41-46 | A client's channel is closed if and only if the hub still has the client. |
| `NatHub.Hub.Deliver` | nat/client_hub.go:57-70 | Whatever order the map is walked in, the message goes to its client's channel, or that client is closed and removed when the channel is full; nobody else is touched. |
| `NatHub.Hub.Run` | nat/client_hub.go:36-73 | Over any sequence of events no channel is closed twice or sent on after closing, and a known client is in the map exactly when its channel is open. |
| `NatPumps.Outbox.CopyBuffer` | nat/bridge.go:93-134 | The messages sent carry exactly the bytes of the source in order, and their number of bytes is returned. |
| `NatPumps.Outbox.CopyBuffered` | nat/bridge.go:93-134 | The same from the buffered reader of a request. |
| `NatPumps.Outbox.SendRequest` | proto/websocket.go:69-82 | Program order of a server bridge: one "create" first, then the request read so far and the rest of the reader's stream, then one "close". |
| `NatPumps.WritePump` | nat/bridge.go:62-90 | The connection is handed the chunks in order: it has as much of them as it takes, all of them exactly when it stays whole. |
| `DnsCache.MaskIsMod` | utils/cache/cache.go:89-89 | Masking with 65535 is the remainder by 65536. |
| `DnsCache.ResolveCache.Lookup` | utils/cache/cache.go:52-73 | The address and state of an entry that has not expired, whatever they are, or nothing; an expired entry is dropped. |
| `DnsCache.ResolveCache.Store` | utils/cache/cache.go:76-91 | A known host is overwritten in place; a new one takes the next slot and evicts the host named there. |
| `DnsCache.AgreesWithLastStore` | utils/cache/cache.go:52-91 | A hit is always the value and state of the latest store of that host, and has not expired. |
| `DnsCache.NeverOverfull` | utils/cache/cache.go:76-91 | Every cached host is named in the ring, so there are never more than 65536. |
| `DnsCache.RingShape` | utils/cache/cache.go:86-89 | Slots are reused strictly in order. |
| `DnsCache.Survives` | utils/cache/cache.go:76-91 | An entry is still there after some insertions exactly when none of the reused slots carried its name. |
| `DnsCache.StrictStep` | utils/cache/cache.go:52-91 | With named hosts and no dropped entries the named slots stay distinct and exactly the cached hosts. |
| `DnsCache.AlwaysStrict` | utils/cache/cache.go:44-91 | So they are in every run like that from the empty cache. |
| `DnsCache.LivesExactly` | utils/cache/cache.go:76-91 | Then an entry lives until precisely the 65536th insertion after its own, however often hosts are stored again. |
| `DnsCache.FoundExactly` | utils/cache/cache.go:52-91 | Until then, and no longer, the entry is there with the address, state and expiry that were stored for its host last. |
| `DnsCache.StoreThenLookup` | utils/cache/cache.go:52-91 | On the cache itself: what a lookup answers after a store and any such operations is the last stored address and state if and only if that has not expired and fewer than 65536 hosts were inserted in between. |
| `DnsCache.StaleNameEvictsEarly` | utils/cache/cache.go:66-91 | Without that it fails: an entry dropped by a lookup leaves its name behind, and when stored anew it is evicted early. |
| `DnsCache.StaleIsReached` | utils/cache/cache.go:52-91 | Such a cache is reached from the empty one by a store and a lookup after expiry. |
| `DnsCache.StaleRun` | utils/cache/cache.go:76-91 | From there a run of 65535 insertions, one too few, after which the entry that was stored anew is gone. |
| `Route.FirstRuleDecides` | proto/tunnel.go:315-332 | The first matching rule decides. |
| `Route.FirstUpIsFirst` | proto/tunnel.go:397-413 | The proxy chosen is the first of the list that answers. |
| `Handshake.FindHost` | proto/tunnel.go:315-332 | The loop over the rules finds the first match or the empty rule. |
| `Handshake.FindPort` | proto/tunnel.go:372-377 | The first mapping of the port applies, and only that one. |
| `Handshake.Tunnel.Lookup` | proto/tunnel.go:294-312 | The cached address, or the resolver's first one, which is then cached for ten minutes. |
| `Handshake.Tunnel.FirstReachable` | proto/tunnel.go:397-413 | The loop over a rule's proxies stops at the first that answers. |
| `Handshake.Tunnel.DialRemote` | proto/tunnel.go:444-479 | The proxy branch: target by name or address, refused when empty, then the attempt its scheme calls for. |
| `Handshake.Tunnel.DialLocal` | proto/tunnel.go:480-492 | The direct branch. |
| `Handshake.Tunnel.Connect` | proto/tunnel.go:421-498 | The choice between direct, quick direct then proxy, and proxy, with the note of a failed quick dial. |
| `Handshake.Tunnel.Handshake` | proto/tunnel.go:346-498 | Makes exactly the attempts of the declared route in order, returns its verdict, leaves the cache as declared; every success leaves the connection of the last attempt, both counters and the new state. |
| `RouteMeans.CarryOut` | proto/tunnel.go:346-498 | On the attempts a handshake makes, its error and its connection: a client that is not allowed and a target "deny" are refused, with no attempt and the tunnel untouched; otherwise it goes direct, quickly direct and then by proxy, or by proxy, and the proxy is asked by its scheme, as rule, target and configuration say. |
| `RouteMeans.WholeRoute` | proto/tunnel.go:346-498 | The same for every configuration, world, cache and request. |
| `RouteMeans.RuleMeans` | proto/tunnel.go:315-332 | The rule is the first that applies, or one that says nothing. |
| `RouteMeans.MatchMeans` | proto/tunnel.go:315-332 | A rule applies by equality or by containment, as it or the default says. |
| `RouteMeans.PortMeans` | proto/tunnel.go:372-377 | The port is the first mapping's, or stays. |
| `RouteMeans.TargetMeans` | proto/tunnel.go:354-359 | The target is the rule's, else the default of its protocol, else "auto". |
| `RouteMeans.QueryMeans` | proto/tunnel.go:360-377 | The address is the rule's, the request's, the cached one while it has not expired, or the first one the resolver gives. |
| `RouteMeans.CacheMeans` | proto/tunnel.go:300-436 | A resolved address is kept for ten minutes, and the address of a failed quick dial as failed for an hour. |
| `RouteMeans.OwnProxiesMean` | proto/tunnel.go:386-394 | Four letters behind a final space are split off a rule's list of proxies. |
| `RouteMeans.NoLetters` | proto/tunnel.go:386-394 | Any other list has none. |
| `RouteMeans.CommasMean` | proto/tunnel.go:397-397 | The list is taken apart at its commas. |
| `RouteMeans.ProxyMeans` | proto/tunnel.go:501-533 | A proxy written with or without a scheme, with host and port, is what it says, its port cut to sixteen bits, exactly if it answers there. |
| `Routing.SucceedsWithLastTry` | proto/tunnel.go:421-498 | Success means the last attempt connected and all before it failed; there are at most two. |
| `Routing.PlanForms` | proto/tunnel.go:421-498 | Only a quick direct dial is ever followed by a second attempt, and that one goes through a proxy. |
| `Routing.OwnProxyDecides` | proto/tunnel.go:386-421 | The first of a rule's own proxies that answers carries the connection and nothing is dialled directly, unless it has no host or port zero: then it is direct. |
| `Routing.HostlessIsDirect` | proto/tunnel.go:386-421 | A rule whose own proxy is ":80" goes direct when something answers there. |
| `Routing.NoOwnProxyUp` | proto/tunnel.go:386-420 | With none up, `deny` refuses, `last` goes direct, and otherwise it is as if the rule had named no proxy. |
| `Routing.FailureIsNoted` | proto/tunnel.go:421-437 | A failed quick dial to a resolved name is on record for an hour. |
| `Routing.GoesAround` | proto/tunnel.go:421-453 | While it is on record a handshake of that kind goes to the proxy at once and names the host to it. |
| `Routing.StaysOnRecord` | utils/cache/cache.go:76-91 | One handshake takes at most one slot of the ring and forgets a failure only by taking the slot of its name. |
| `Routing.EvictedOnlyInTurn` | utils/cache/cache.go:86-89 | A failure is still on record after as many handshakes as its name is slots away. |
| `Routing.NeverDialsDirectAgain` | proto/tunnel.go:421-443 | Once a quick dial to a resolved name has failed, for an hour and whatever handshakes come between, every such handshake's plan is the proxy at once, with the name for it to resolve; as long as the ring has not evicted the note. |
| `Aes.ChainRoundTrip` | crypto/aes.go:24-45 | Cipher block chaining (section 6.2 of NIST SP 800-38A) is undone block by block, for any block permutation. |
| `Aes.XorByteBits` | crypto/aes.go:30-31 | A bit of a mixed byte is one exactly where the two bytes differ. |
| `Aes.ChainMeans` | crypto/aes.go:24-45 | Chaining, block by block: each is mixed, bit by bit, with the encrypted one before it and the first with the chaining block; and undone. |
| `Aes.PaddingRoundTrip` | crypto/aes.go:10-21 | Padding (section 6.3 of RFC 5652) adds one to sixteen bytes up to whole blocks and is undone. |
| `Aes.EncryptBlocks` | crypto/aes.go:30-31 | In place, the array becomes its encryption. |
| `Aes.DecryptBlocks` | crypto/aes.go:41-42 | In place, from the last block to the first, the array becomes its decryption. |
| `Aes.EncryptAES` | crypto/aes.go:24-33 | With a key of sixteen bytes: padded to the next whole block with bytes that all say how many they are; then each block mixed with the encrypted one before it, the first with the key, and encrypted. With 24 or 32 bytes it panics, with others it fails. |
| `Aes.DecryptAES` | crypto/aes.go:36-45 | With such a key and whole blocks each block is decrypted, mixed with the encrypted one before it, and as many bytes cut as the last one says, or it panics if that is too many; it panics or fails by the key's and the text's lengths. |
| `Aes.AesRoundTrip` | crypto/aes.go:24-45 | With a key of one block whatever was encrypted comes back. |
| `Base64.DecodeUndoesEncode` | proto/http.go:104-107 | Decoding what was encoded gives it back (section 4 of RFC 4648), for any bytes. |
| `Base64.EncodedIsPlain` | proto/tunnel.go:571-575 | The encoded text holds no space, line break or percent sign. |
| `Base64.LettersMean` | proto/tunnel.go:571-571 | The letters are those of table 1 of RFC 4648. |
| `Base64.GroupMeans` | proto/tunnel.go:571-571 | Each four letters, six bits each, stand for the same number as the three bytes at their place, with padding for what a last group lacks. |
| `Connect.SealAddress` | proto/tunnel.go:562-571 | An address comes out only for a key of sixteen bytes (24 or 32 panic, others fail); it can stand in a request line and in a format, and it opens to the target. |
| `Connect.OpenAddress` | proto/http.go:101-115 | An address sealed with the key is the target it was made of; another method's is kept. |
| `Connect.SealOpens` | proto/tunnel.go:562-571 | What was sealed with a key is opened with it, for every target and sixteen-byte key. |
| `ConnectLine.TextIsALine` | proto/tunnel.go:571-575 | On the wire the text is exactly one request line with that address, then an empty header block; without a percent sign it is safe as a format. |
| `ConnectLine.TextStartsRequest` | proto/http.go:50-97 | In front of any bytes the text starts a request without header whose body starts right behind it. |
| `Connect.ReadConnect` | proto/http.go:79-115 | Reading what the other node wrote, through any buffer and chunks: with eight bytes buffered when the method is looked for it gives the original target, no header, and everything behind as body or still to come; with fewer it is refused. |

## Left out

- Sockets, timeouts, DNS, websocket framing and ping, and `encoding/gob`: connections are sources and sinks, a websocket is an ordered queue that may stop, a message arrives as it was sent.
- The parsing of a SOCKS5 request behind its greeting and read (proto/socks5.go:104-147), the original destination of redirected connections, tcpcopy and CIDR checks: single-shot field extraction or library calls.
- HttpRequest.ReadHttp: does not model `url.ParseRequestURI` and the rewriting of host and first line (proto/http.go:141-184): the verdict on the address, and the rewritten line as a function of first line and header, are parameters (`urlOk`, `Outside.rewrite`).
- Connect.ReadConnect: the verdict on a sealed address is a parameter, and decryption comes after the header block instead of before it, which only shows for addresses that do not open.
- The response read of `httpConnect` (proto/tunnel.go:576-586): whether the proxy accepts is part of whether the attempt connects. A plain CONNECT whose target holds a percent sign is used as a format there and is not modelled.
- HttpRequest.ReadRequest: does not model the tcpcopy branch in front of it (proto/request.go:58-66), which a setting switches on for all connections.
- Serve.HandleRequest: has the response pump follow the request pump, with whether the server's end comes when that is idle as a parameter (`Answer.late`); a server that ends earlier cuts the stream (`TunnelSteps.CutExactly`), which its chain does not model, and what a look tells the client comes in front of the answer instead of somewhere in it. Setting the state to idle and keeping the packet (proto/tunnel.go:105-115) are one step in both models. A connection that turns out to be SOCKS5 or plain TCP is left where its own handler takes over (`response` in proto/socks5.go and proto/stream.go), which is not part of this model.
- NatSystem.SenderNeverWaits: does not derive that a hub's send waits for nothing, which is the form of `Send` and of the hubs' methods (`Offer`, a `select` with a default branch); `NatProgress` states what follows over runs.
- The websocket branch of `response` (proto/http.go:289-312), `GetClient`, `Eable` and websocket authentication: they read hub maps from other goroutines, or are plain checks. `NatPumps.Outbox.SendRequest` starts where that branch calls `transfer`.
- TcpReader.Reader.Sized: does not model an argument that is already a large enough reader, which is returned as it is; `lastByte` is kept but nothing reads it.
- Slices returned by the reader are copies in the model, so a later operation that overwrites a returned line is not captured; the adoption of a caller's slice by a new reader is.
- `strings.TrimSpace` and `strings.ToUpper` are modelled on ASCII, where header values and methods live.
- `sort.Sort` is represented by insertion into order; the sorter pool is not modelled.
- The clock does not advance within one handshake, the cache is used by one handshake at a time, and the counters, logs and statistics are reduced to whether a counter is registered.
- Bridge IDs are unique because they come from a counter; the counter's wrap-around is not modelled. A lost websocket client is not replaced under the same identity.
- `grace`, `daemon`, configuration loading, logging and help: processes, files and text output.
