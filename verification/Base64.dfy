/** The standard base64 text encoding with padding (section 4 of RFC 4648); the
    decoder skips line breaks, as Go's does. */
module Base64 {
  import opened Aes

  datatype Decoding = Corrupt | Decoded(s: Octets)

  function CharOf(v: nat): char
    requires v < 64
  {
    if v < 26 then 'A' + v as char
    else if v < 52 then 'a' + (v - 26) as char
    else if v < 62 then '0' + (v - 52) as char
    else if v == 62 then '+' else '/'
  }

  function ValueOf(c: char): (v: int)
    ensures -1 <= v < 64
  {
    if 'A' <= c <= 'Z' then c as int - 'A' as int
    else if 'a' <= c <= 'z' then c as int - 'a' as int + 26
    else if '0' <= c <= '9' then c as int - '0' as int + 52
    else if c == '+' then 62 else if c == '/' then 63 else -1
  }

  lemma {:induction false} CharsAreValues(v: nat)
    requires v < 64
    ensures ValueOf(CharOf(v)) == v && CharOf(v) !in " =%\r\n"
  {
  }

  function Encode(s: Octets): string
  {
    if s == [] then ""
    else if |s| == 1 then [CharOf(s[0] / 4), CharOf(s[0] % 4 * 16), '=', '=']
    else if |s| == 2 then [CharOf(s[0] / 4), CharOf(s[0] % 4 * 16 + s[1] / 16), CharOf(s[1] % 16 * 4), '=']
    else Four(s[0], s[1], s[2]) + Encode(s[3..])
  }

  function Four(a: Byte, b: Byte, c: Byte): string {
    [CharOf(a / 4), CharOf(a % 4 * 16 + b / 16), CharOf(b % 16 * 4 + c / 64), CharOf(c % 64)]
  }

  /** Groups of four letters; only the last may be padded, and what its unused bits
      are does not matter. */
  function DecodeGroups(t: string): Decoding {
    if t == "" then Decoded([])
    else if |t| < 4 || ValueOf(t[0]) < 0 || ValueOf(t[1]) < 0 then Corrupt
    else
      var v0, v1, v2, v3 := ValueOf(t[0]), ValueOf(t[1]), ValueOf(t[2]), ValueOf(t[3]);
      if v2 >= 0 && v3 >= 0 then
        var rest := DecodeGroups(t[4..]);
        if rest.Corrupt? then Corrupt else Decoded(Three(v0, v1, v2, v3) + rest.s)
      else if |t| > 4 || t[3] != '=' then Corrupt
      else if t[2] == '=' then Decoded(Three(v0, v1, 0, 0)[..1])
      else if v2 >= 0 then Decoded(Three(v0, v1, v2, 0)[..2])
      else Corrupt
  }

  function Three(v0: nat, v1: nat, v2: nat, v3: nat): (r: Octets)
    requires v0 < 64 && v1 < 64 && v2 < 64 && v3 < 64
    ensures |r| == 3
  {
    [v0 * 4 + v1 / 16, v1 % 16 * 16 + v2 / 4, v2 % 4 * 64 + v3]
  }

  function WithoutBreaks(t: string): string {
    if t == "" then ""
    else if t[0] == '\r' || t[0] == '\n' then WithoutBreaks(t[1..])
    else [t[0]] + WithoutBreaks(t[1..])
  }

  function Decode(t: string): Decoding {
    DecodeGroups(WithoutBreaks(t))
  }

  lemma {:induction false} FourThree(a: Byte, b: Byte, c: Byte)
    ensures var f := Four(a, b, c);
            Three(ValueOf(f[0]), ValueOf(f[1]), ValueOf(f[2]), ValueOf(f[3])) == [a, b, c]
  {
    hide CharOf, ValueOf;
    CharsAreValues(a / 4);
    CharsAreValues(a % 4 * 16 + b / 16);
    CharsAreValues(b % 16 * 4 + c / 64);
    CharsAreValues(c % 64);
  }

  /** The text can stand in a request line and in a format: no space, break or percent
      sign occurs in it. */
  lemma {:induction false} EncodedIsPlain(s: Octets)
    ensures forall c :: c in Encode(s) ==> c !in " %\r\n"
  {
    hide CharOf;
    forall v: nat | v < 64
      ensures CharOf(v) !in " %\r\n"
    {
      CharsAreValues(v);
    }
    if |s| >= 3 {
      EncodedIsPlain(s[3..]);
    }
  }

  lemma {:induction false} NothingSkipped(t: string)
    requires forall c :: c in t ==> c !in " %\r\n"
    ensures WithoutBreaks(t) == t
  {
    if t != "" {
      assert t[0] in t;
      NothingSkipped(t[1..]);
    }
  }

  lemma {:induction false} GroupsRoundTrip(s: Octets)
    ensures DecodeGroups(Encode(s)) == Decoded(s)
  {
    hide CharOf, ValueOf;
    if |s| == 1 {
      FourThree(s[0], 0, 0);
      CharsAreValues(s[0] / 4);
      CharsAreValues(s[0] % 4 * 16);
      PadIsNoValue();
    } else if |s| == 2 {
      FourThree(s[0], s[1], 0);
      CharsAreValues(s[0] / 4);
      CharsAreValues(s[0] % 4 * 16 + s[1] / 16);
      CharsAreValues(s[1] % 16 * 4);
      PadIsNoValue();
    } else if |s| > 2 {
      GroupsRoundTrip(s[3..]);
      FourThree(s[0], s[1], s[2]);
      CharsAreValues(s[0] / 4);
      CharsAreValues(s[0] % 4 * 16 + s[1] / 16);
      CharsAreValues(s[1] % 16 * 4 + s[2] / 64);
      CharsAreValues(s[2] % 64);
      var t := Encode(s);
      assert t[4..] == Encode(s[3..]);
      assert s == [s[0], s[1], s[2]] + s[3..];
    }
  }

  lemma PadIsNoValue()
    ensures ValueOf('=') == -1
  {
  }

  lemma {:induction false} DecodeUndoesEncode(s: Octets)
    ensures Decode(Encode(s)) == Decoded(s)
  {
    EncodedIsPlain(s);
    NothingSkipped(Encode(s));
    GroupsRoundTrip(s);
  }

  // ---- What is written ----

  const CAPITALS := "ABCDEFGHIJKLMNOPQRSTUVWXYZ"
  const SMALLS := "abcdefghijklmnopqrstuvwxyz"
  const NUMBERS := "0123456789"
  const ALPHABET := CAPITALS + SMALLS + NUMBERS + "+/"

  lemma {:induction false} Capitals(v: nat)
    requires v < 26
    ensures CAPITALS[v] == 'A' + v as char
  {
  }

  lemma {:induction false} Smalls(v: nat)
    requires v < 26
    ensures SMALLS[v] == 'a' + v as char
  {
  }

  lemma {:induction false} Numbers(v: nat)
    requires v < 10
    ensures NUMBERS[v] == '0' + v as char
  {
  }

  /** Its letters are those of table 1 of the standard. */
  lemma {:induction false} LettersMean(v: nat)
    requires v < 64
    ensures |ALPHABET| == 64 && CharOf(v) == ALPHABET[v]
  {
    if v < 26 {
      Capitals(v);
    } else if v < 52 {
      Smalls(v - 26);
    } else if v < 62 {
      Numbers(v - 52);
    }
  }

  /** Four letters for `n` of three bytes, and padding: taken as one number, the letters
      of six bits each stand for what the bytes of eight bits do. */
  ghost predicate Stands(t: string, a: int, b: int, c: int, n: nat) {
    exists v0: nat, v1: nat, v2: nat, v3: nat :: Spelt(t, v0, v1, v2, v3, n)
      && ((v0 * 64 + v1) * 64 + v2) * 64 + v3 == (a * 256 + b) * 256 + c
  }

  predicate Spelt(t: string, v0: nat, v1: nat, v2: nat, v3: nat, n: nat) {
    && v0 < 64 && v1 < 64 && v2 < 64 && v3 < 64
    && t == [CharOf(v0), CharOf(v1), if n > 1 then CharOf(v2) else '=', if n > 2 then CharOf(v3) else '=']
  }

  lemma {:induction false} GroupStands(a: Byte, b: Byte, c: Byte, n: nat)
    requires (n < 3 ==> c == 0) && (n < 2 ==> b == 0)
    ensures Stands([CharOf(a / 4), CharOf(a % 4 * 16 + b / 16), if n > 1 then CharOf(b % 16 * 4 + c / 64) else '=',
                    if n > 2 then CharOf(c % 64) else '='], a, b, c, n)
  {
    hide CharOf;
    SixBits(a, b, c);
    assert Spelt([CharOf(a / 4), CharOf(a % 4 * 16 + b / 16), if n > 1 then CharOf(b % 16 * 4 + c / 64) else '=',
                  if n > 2 then CharOf(c % 64) else '='], a / 4, a % 4 * 16 + b / 16, b % 16 * 4 + c / 64, c % 64, n);
  }

  lemma {:induction false} SixBits(a: int, b: int, c: int)
    requires 0 <= a && 0 <= b && 0 <= c
    ensures (((a / 4) * 64 + (a % 4 * 16 + b / 16)) * 64 + (b % 16 * 4 + c / 64)) * 64 + c % 64 == (a * 256 + b) * 256 + c
  {
  }

  function ByteAt(s: Octets, i: nat): int {
    if i < |s| then s[i] else 0
  }

  /** So does group `i` of the text of `s` for its bytes, of which the last may have one
      or two only. */
  lemma {:induction false} GroupMeans(s: Octets, i: nat)
    requires 3 * i < |s|
    ensures |Encode(s)| == (|s| + 2) / 3 * 4 && 4 * i + 4 <= |Encode(s)|
    ensures Stands(Encode(s)[4 * i..4 * i + 4], ByteAt(s, 3 * i), ByteAt(s, 3 * i + 1), ByteAt(s, 3 * i + 2), |s| - 3 * i)
    decreases i
  {
    EncodeLength(s);
    hide CharOf, Stands;
    if i > 0 {
      GroupMeans(s[3..], i - 1);
      assert Encode(s)[4 * i..4 * i + 4] == Encode(s[3..])[4 * (i - 1)..4 * (i - 1) + 4];
    } else {
      FirstGroup(s);
    }
  }

  lemma {:induction false} FirstGroup(s: Octets)
    requires s != [] && 4 <= |Encode(s)|
    ensures Stands(Encode(s)[..4], ByteAt(s, 0), ByteAt(s, 1), ByteAt(s, 2), |s|)
  {
    hide CharOf, Stands;
    GroupStands(s[0], if |s| > 1 then s[1] else 0, if |s| > 2 then s[2] else 0, |s|);
    if |s| > 2 {
      assert Encode(s)[..4] == Four(s[0], s[1], s[2]);
    } else {
      assert Encode(s)[..4] == Encode(s);
    }
  }

  lemma {:induction false} EncodeLength(s: Octets)
    ensures |Encode(s)| == (|s| + 2) / 3 * 4
  {
    hide CharOf;
    if |s| > 2 {
      EncodeLength(s[3..]);
    }
  }
}
