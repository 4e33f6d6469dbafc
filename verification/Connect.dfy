/** The encrypted CONNECT between two nodes: the address sealed by `httpConnect`
    (proto/tunnel.go:561-575) and opened by proto/http.go. */
module Connect {
  import opened Bytes
  import Net
  import opened TcpReader
  import opened HttpRequest
  import opened ConnectLine
  import opened Aes
  import Base64

  /** A `string` whose characters are bytes, as every Go string's are. */
  predicate OfBytes(s: string) {
    forall i :: 0 <= i < |s| ==> s[i] < 256 as char
  }

  function ToOctets(s: string): Octets
    requires OfBytes(s)
  {
    seq(|s|, i requires 0 <= i < |s| => s[i] as int)
  }

  function ToText(o: Octets): string {
    seq(|o|, i requires 0 <= i < |o| => o[i] as char)
  }

  lemma {:induction false} TextOfOctets(s: string)
    requires OfBytes(s)
    ensures ToText(ToOctets(s)) == s
  {
  }

  // ---- Writing ----

  /** The address as it is sent, the error of a key without a cipher, or a panic. */
  datatype Sealed = Sealed(address: string) | NoCipher | SealPanics

  ghost function SealedAddress(aes: KeyedCipher, key: Octets, target: string): Sealed
    requires Sound(aes) && OfBytes(target)
  {
    match Encrypted(aes, ToOctets(target), key)
    case Done(s) => Sealed(Base64.Encode(s))
    case Failed => NoCipher
    case Panics => SealPanics
  }

  // ---- Reading ----

  /** The address a server goes on with. */
  datatype Opened = Address(url: string) | Refused | OpenPanics

  ghost function OpenedAddress(aes: KeyedCipher, key: Octets, verb: string, uri: string): Opened
    requires Sound(aes)
  {
    if verb != "CONNECT" then Address(uri)
    else
      match Base64.Decode(uri)
      case Corrupt => Refused
      case Decoded(x) =>
        if x == [] then Address(uri)
        else
          match Decrypted(aes, x, key)
          case Done(s) => Address(ToText(s))
          case Failed => Refused
          case Panics => OpenPanics
  }

  lemma {:induction false} SealedIs(aes: KeyedCipher, key: Octets, target: string)
    requires Sound(aes) && OfBytes(target) && Encrypted(aes, ToOctets(target), key).Done?
    ensures SealedAddress(aes, key, target) == Sealed(Base64.Encode(Encrypted(aes, ToOctets(target), key).s))
  {
    hide Encrypted, Base64.Encode;
  }

  lemma {:induction false} OpenedIs(aes: KeyedCipher, key: Octets, uri: string)
    requires Sound(aes)
    ensures var x, a := Base64.Decode(uri), OpenedAddress(aes, key, "CONNECT", uri);
            x.Decoded? && x.s != [] && Decrypted(aes, x.s, key).Done? ==> a == Address(ToText(Decrypted(aes, x.s, key).s))
  {
    hide Decrypted, Base64.Decode;
  }

  lemma {:induction false} IsPlain(address: string)
    requires forall c :: c in address ==> c !in " %\r\n"
    ensures Plain(address) && '%' !in address
  {
  }

  /** What was sealed with a key is opened with it. */
  lemma {:induction false} SealOpens(aes: KeyedCipher, key: Octets, target: string)
    requires Sound(aes) && |key| == BLOCK && OfBytes(target)
    ensures var sealed := SealedAddress(aes, key, target);
            && sealed.Sealed? && Plain(sealed.address) && '%' !in sealed.address
            && OpenedAddress(aes, key, "CONNECT", sealed.address) == Address(target)
  {
    hide *;
    AesRoundTrip(aes, ToOctets(target), key);
    var e := Encrypted(aes, ToOctets(target), key);
    SealedIs(aes, key, target);
    OpenedIs(aes, key, Base64.Encode(e.s));
    Base64.EncodedIsPlain(e.s);
    IsPlain(Base64.Encode(e.s));
    Base64.DecodeUndoesEncode(e.s);
    TextOfOctets(target);
  }

  // ---- The two ends ----

  /** What `httpConnect` seals: an address only for a key of one block, one that can stand
      in a request line and in a format, and that opens to the target. */
  method SealAddress(aes: KeyedCipher, key: Octets, target: string) returns (sealed: Sealed)
    requires Sound(aes) && OfBytes(target)
    ensures sealed == SealedAddress(aes, key, target)
    ensures sealed.Sealed? <==> |key| == BLOCK
    ensures sealed.NoCipher? <==> !KeyKnown(key)
    ensures sealed.Sealed? ==> Plain(sealed.address) && '%' !in sealed.address
    ensures sealed.Sealed? ==> OpenedAddress(aes, key, "CONNECT", sealed.address) == Address(target)
  {
    if |key| == BLOCK {
      SealOpens(aes, key, target);
    }
    hide OpenedAddress, Plain, ChainEnc, ChainDec, Padding, Permutes, Base64.Encode;
    var out := EncryptAES(aes, ToOctets(target), key);
    match out {
      case Done(s) => sealed := Sealed(Base64.Encode(s));
      case Failed => sealed := NoCipher;
      case Panics => sealed := SealPanics;
    }
  }

  lemma {:induction false} OpensAll(aes: KeyedCipher, key: Octets, uri: string)
    requires Sound(aes)
    ensures |key| == BLOCK ==>
              forall target :: OfBytes(target) && SealedAddress(aes, key, target) == Sealed(uri) ==>
                OpenedAddress(aes, key, "CONNECT", uri) == Address(target)
  {
    hide *;
    if |key| == BLOCK {
      forall target | OfBytes(target) && SealedAddress(aes, key, target) == Sealed(uri)
        ensures OpenedAddress(aes, key, "CONNECT", uri) == Address(target)
      {
        SealOpens(aes, key, target);
      }
    }
  }

  /** What a server makes of an address: another method's is kept, and a sealed one is
      the target it was made of. */
  method OpenAddress(aes: KeyedCipher, key: Octets, verb: string, uri: string) returns (a: Opened)
    requires Sound(aes)
    ensures a == OpenedAddress(aes, key, verb, uri)
    ensures verb != "CONNECT" ==> a == Address(uri)
    ensures verb == "CONNECT" && |key| == BLOCK ==>
              forall target :: OfBytes(target) && SealedAddress(aes, key, target) == Sealed(uri) ==> a == Address(target)
  {
    OpensAll(aes, key, uri);
    hide DecryptsTo, Decrypted, Base64.Decode, SealedAddress, Sound, Permutes, OfBytes;
    if verb == "CONNECT" {
      var x1 := Base64.Decode(uri);
      if x1.Corrupt? {
        return Refused;
      }
      if |x1.s| > 0 {
        var x2 := DecryptAES(aes, x1.s, key);
        match x2 {
          case Done(s) => return Address(ToText(s));
          case Failed => return Refused;
          case Panics => return OpenPanics;
        }
      }
    }
    a := Address(uri);
  }

  /** The main result: a node that reads what the other one wrote, through a buffer of
      any length and in any chunks, gets the target back, no header, and everything
      behind it as body or still to come; provided eight bytes were there when it looked
      for a method, else it refuses.  `urlOk` is its verdict on the sealed address. */
  method ReadConnect(reader: Reader, back: Net.Sink, aes: KeyedCipher, key: Octets, urlOk: string -> bool,
                     ghost target: string, ghost rest: Bytes, ghost given: Bytes)
    returns (a: Opened, q: Request, ghost seen: Bytes)
    requires reader.Valid() && reader.rd.patience < MAX_EMPTY_READS && back.Got(given)
    requires Sound(aes) && |key| == BLOCK && OfBytes(target)
    requires var address := SealedAddress(aes, key, target).address;
             reader.Stream() == ConnectText(address) + rest && urlOk(RawUrl("CONNECT", address))
    modifies reader, reader.buf, reader.rd, back
    ensures back.Got(given)
    ensures reader.Valid() && seen <= old(reader.Stream()) && (old(reader.Unread()) != [] ==> seen == old(reader.Unread()))
    ensures |seen| < 8 ==> old(reader.Stream()) == seen + reader.rd.pending
    ensures if |seen| < 8 then a == Refused
            else a == Address(target) && q.ok && q.header == map[] && q.body + reader.Stream() == rest
  {
    hide *;
    SealOpens(aes, key, target);
    ShortHead();
    NoSocksHead(SealedAddress(aes, key, target).address, rest);
    NothingTold(given);
    ghost var head;
    q, head, seen := ReadRequest(reader, back, urlOk, given);
    OutcomeIs(q, head, seen, old(reader.Stream()), reader.Stream(), reader.size, reader.r == reader.w, reader.rd, urlOk);
    TextIsRead(q, seen, SealedAddress(aes, key, target).address, rest, reader.Stream(), reader.size, reader.rd, urlOk);
    if !q.ok {
      return Refused, q, seen;
    }
    a := OpenAddress(aes, key, q.verb, q.uri);
  }

  lemma NoSocksHead(address: string, rest: Bytes)
    ensures forall u: Bytes :: u <= ConnectText(address) + rest ==> !SocksHead(u)
  {
    assert ConnectText(address)[0] == 'C';
  }

  lemma ShortHead()
    ensures forall u: Bytes :: |u| < 8 ==> !HeadMatches(u)
  {
  }
}
