/** Encryption of short texts, after crypto/aes.go: padding, and cipher block chaining
    with the key as first chaining block.  The block cipher itself is a parameter. */
module Aes {

  const BLOCK: nat := 16

  type Byte = x: int | 0 <= x < 256

  type Octets = seq<Byte>

  /** One block in, one block out, both ways. */
  datatype Cipher = Cipher(enc: Octets -> Octets, dec: Octets -> Octets)

  /** A permutation of blocks with its inverse. */
  ghost predicate Permutes(c: Cipher) {
    && (forall b :: |b| == BLOCK ==> |c.enc(b)| == BLOCK)
    && (forall b :: |b| == BLOCK ==> |c.dec(b)| == BLOCK)
    && (forall b :: |b| == BLOCK ==> c.dec(c.enc(b)) == b)
  }

  // ---- Exclusive or ----

  function BitXor(x: nat, y: nat): nat {
    if x == 0 && y == 0 then 0
    else 2 * BitXor(x / 2, y / 2) + if x % 2 == y % 2 then 0 else 1
  }

  lemma {:induction false} BitXorTwice(x: nat, y: nat)
    ensures BitXor(BitXor(x, y), y) == x
  {
    if x != 0 || y != 0 {
      BitXorTwice(x / 2, y / 2);
      var h, bit := BitXor(x / 2, y / 2), if x % 2 == y % 2 then 0 else 1;
      assert BitXor(x, y) == 2 * h + bit;
      assert (2 * h + bit) / 2 == h && (2 * h + bit) % 2 == bit;
    }
  }

  function Below(k: nat): nat {
    if k == 0 then 1 else 2 * Below(k - 1)
  }

  lemma {:induction false} BitXorBelow(x: nat, y: nat, k: nat)
    requires x < Below(k) && y < Below(k)
    ensures BitXor(x, y) < Below(k)
  {
    if k > 0 {
      BitXorBelow(x / 2, y / 2, k - 1);
    }
  }

  function XorByte(x: Byte, y: Byte): Byte {
    assert BitXor(x, y) < 256 by {
      assert Below(4) == 16;
      assert Below(8) == 256;
      BitXorBelow(x, y, 8);
    }
    BitXor(x, y)
  }

  /** Bit `k` of a number. */
  function Bit(x: nat, k: nat): (b: nat)
    ensures b < 2
  {
    if k == 0 then x % 2 else Bit(x / 2, k - 1)
  }

  lemma {:induction false} BitOfXor(x: nat, y: nat, k: nat)
    ensures Bit(BitXor(x, y), k) == 1 <==> Bit(x, k) != Bit(y, k)
  {
    var h, bit := BitXor(x / 2, y / 2), if x % 2 == y % 2 then 0 else 1;
    if x == 0 && y == 0 {
      ZeroBits(k);
    } else {
      assert BitXor(x, y) == 2 * h + bit && (2 * h + bit) / 2 == h && (2 * h + bit) % 2 == bit;
      if k > 0 {
        BitOfXor(x / 2, y / 2, k - 1);
      }
    }
  }

  lemma {:induction false} ZeroBits(k: nat)
    ensures Bit(0, k) == 0
  {
    if k > 0 {
      ZeroBits(k - 1);
    }
  }

  /** A bit of the mixed byte is one exactly where the two bytes differ. */
  lemma {:induction false} XorByteBits(x: Byte, y: Byte, k: nat)
    ensures Bit(XorByte(x, y), k) == 1 <==> Bit(x, k) != Bit(y, k)
  {
    BitOfXor(x, y, k);
  }

  /** `x` is `a` and `b` mixed, bit by bit. */
  ghost predicate Mixed(x: Octets, a: Octets, b: Octets) {
    && |x| == |a| == |b|
    && forall j, k :: 0 <= j < |x| && 0 <= k < 8 ==> (Bit(x[j], k) == 1 <==> Bit(a[j], k) != Bit(b[j], k))
  }

  lemma {:induction false} XorBlockMixes(a: Octets, b: Octets)
    requires |a| == |b|
    ensures Mixed(XorBlock(a, b), a, b)
  {
    hide Bit, XorByte;
    forall j, k | 0 <= j < |a| && 0 <= k < 8
      ensures Bit(XorBlock(a, b)[j], k) == 1 <==> Bit(a[j], k) != Bit(b[j], k)
    {
      XorByteBits(a[j], b[j], k);
    }
  }

  function XorBlock(a: Octets, b: Octets): (r: Octets)
    requires |a| == |b|
    ensures |r| == |a|
  {
    seq(|a|, i requires 0 <= i < |a| => XorByte(a[i], b[i]))
  }

  lemma {:induction false} XorBlockTwice(a: Octets, b: Octets)
    requires |a| == |b|
    ensures XorBlock(XorBlock(a, b), b) == a
  {
    forall i | 0 <= i < |a|
      ensures XorBlock(XorBlock(a, b), b)[i] == a[i]
    {
      BitXorTwice(a[i], b[i]);
    }
  }

  // ---- Cipher block chaining ----

  predicate Whole(s: Octets) {
    |s| % BLOCK == 0
  }

  ghost function ChainEnc(c: Cipher, iv: Octets, s: Octets): Octets
    requires |iv| == BLOCK && Whole(s)
    requires Permutes(c)
    decreases |s|
  {
    if s == [] then []
    else
      var b := c.enc(XorBlock(s[..BLOCK], iv));
      b + ChainEnc(c, b, s[BLOCK..])
  }

  ghost function ChainDec(c: Cipher, iv: Octets, s: Octets): Octets
    requires |iv| == BLOCK && Whole(s)
    requires Permutes(c)
    decreases |s|
  {
    if s == [] then []
    else XorBlock(c.dec(s[..BLOCK]), iv) + ChainDec(c, s[..BLOCK], s[BLOCK..])
  }

  lemma {:induction false} ChainSize(c: Cipher, iv: Octets, s: Octets)
    requires |iv| == BLOCK && Whole(s) && Permutes(c)
    ensures |ChainEnc(c, iv, s)| == |s| == |ChainDec(c, iv, s)|
    decreases |s|
  {
    if s != [] {
      ChainSize(c, c.enc(XorBlock(s[..BLOCK], iv)), s[BLOCK..]);
      ChainSize(c, s[..BLOCK], s[BLOCK..]);
    }
  }

  /** Decryption undoes encryption, block by block. */
  lemma {:induction false} ChainRoundTrip(c: Cipher, iv: Octets, s: Octets)
    requires |iv| == BLOCK && Whole(s) && Permutes(c)
    ensures Whole(ChainEnc(c, iv, s)) && ChainDec(c, iv, ChainEnc(c, iv, s)) == s
    decreases |s|
  {
    ChainSize(c, iv, s);
    if s != [] {
      var b := EncStep(c, iv, s);
      var x := XorBlock(s[..BLOCK], iv);
      ChainRoundTrip(c, b, s[BLOCK..]);
      ChainSize(c, b, s[BLOCK..]);
      XorBlockTwice(s[..BLOCK], iv);
      assert c.dec(b) == x by { assert c.dec(c.enc(x)) == x; }
      hide ChainEnc, Permutes, XorBlock;
      var t := ChainEnc(c, iv, s);
      assert t[..BLOCK] == b && t[BLOCK..] == ChainEnc(c, b, s[BLOCK..]);
      assert s == s[..BLOCK] + s[BLOCK..];
    }
  }

  lemma {:induction false} EncStep(c: Cipher, last: Octets, s: Octets) returns (b: Octets)
    requires |last| == BLOCK && Whole(s) && Permutes(c) && s != []
    ensures BLOCK <= |s| && Whole(s[BLOCK..])
    ensures |b| == BLOCK && b == c.enc(XorBlock(s[..BLOCK], last))
    ensures ChainEnc(c, last, s) == b + ChainEnc(c, b, s[BLOCK..])
  {
    b := c.enc(XorBlock(s[..BLOCK], last));
  }

  lemma {:induction false} ChainEmpty(c: Cipher, iv: Octets, s: Octets)
    requires |iv| == BLOCK && Permutes(c) && s == []
    ensures Whole(s) && ChainEnc(c, iv, s) == [] == ChainDec(c, iv, s)
  {
  }

  function BlockAt(s: Octets, i: nat): (b: Octets)
    requires BLOCK * (i + 1) <= |s|
    ensures |b| == BLOCK
  {
    s[BLOCK * i..BLOCK * (i + 1)]
  }

  /** The block that is mixed into block `i`: the one before it of the encrypted text. */
  function Previous(iv: Octets, e: Octets, i: nat): (b: Octets)
    requires |iv| == BLOCK && BLOCK * i <= |e|
    ensures |b| == BLOCK
  {
    if i == 0 then iv else BlockAt(e, i - 1)
  }

  /** Cipher block chaining, block by block: each is mixed with the encrypted one before
      it, the first with the chaining block, and then encrypted. */
  ghost predicate Chained(c: Cipher, iv: Octets, s: Octets, e: Octets)
    requires |iv| == BLOCK
  {
    && |e| == |s| && Whole(s)
    && forall i :: 0 <= i && BLOCK * (i + 1) <= |s| ==>
         exists x :: Mixed(x, BlockAt(s, i), Previous(iv, e, i)) && BlockAt(e, i) == c.enc(x)
  }

  /** And undone: each block is decrypted and mixed with the encrypted one before it. */
  ghost predicate Unchained(c: Cipher, iv: Octets, e: Octets, s: Octets)
    requires |iv| == BLOCK
  {
    && |e| == |s| && Whole(s)
    && forall i :: 0 <= i && BLOCK * (i + 1) <= |s| ==> Mixed(BlockAt(s, i), c.dec(BlockAt(e, i)), Previous(iv, e, i))
  }

  lemma {:induction false} LaterBlock(b: Octets, t: Octets, iv: Octets, i: nat)
    requires |b| == |iv| == BLOCK && BLOCK * (i + 1) <= |t|
    ensures BlockAt(b + t, i + 1) == BlockAt(t, i) && Previous(iv, b + t, i + 1) == Previous(b, t, i)
  {
  }

  lemma {:induction false} FirstBlock(b: Octets, t: Octets, iv: Octets)
    requires |b| == |iv| == BLOCK
    ensures BlockAt(b + t, 0) == b && Previous(iv, b + t, 0) == iv
  {
  }

  lemma {:induction false} CutBlock(s: Octets, i: nat)
    requires BLOCK * (i + 1) <= |s|
    ensures BLOCK <= |s| && s == s[..BLOCK] + s[BLOCK..] && BLOCK * i <= |s[BLOCK..]|
  {
  }

  lemma {:induction false} ChainEncIs(c: Cipher, iv: Octets, s: Octets, i: nat)
    requires |iv| == BLOCK && Whole(s) && Permutes(c) && BLOCK * (i + 1) <= |s|
    ensures |ChainEnc(c, iv, s)| == |s|
    ensures BlockAt(ChainEnc(c, iv, s), i) == c.enc(XorBlock(BlockAt(s, i), Previous(iv, ChainEnc(c, iv, s), i)))
    decreases i
  {
    hide ChainEnc, ChainDec, Permutes, XorBlock, Whole, BlockAt, Previous;
    ChainSize(c, iv, s);
    var b := EncStep(c, iv, s);
    ChainSize(c, b, s[BLOCK..]);
    CutBlock(s, i);
    var t := ChainEnc(c, b, s[BLOCK..]);
    if i == 0 {
      FirstBlock(b, t, iv);
      FirstBlock(s[..BLOCK], s[BLOCK..], iv);
    } else {
      ChainEncIs(c, b, s[BLOCK..], i - 1);
      LaterBlock(b, t, iv, i - 1);
      LaterBlock(s[..BLOCK], s[BLOCK..], iv, i - 1);
    }
  }

  lemma {:induction false} ChainDecIs(c: Cipher, iv: Octets, e: Octets, i: nat)
    requires |iv| == BLOCK && Whole(e) && Permutes(c) && BLOCK * (i + 1) <= |e|
    ensures |ChainDec(c, iv, e)| == |e| && |c.dec(BlockAt(e, i))| == BLOCK
    ensures BlockAt(ChainDec(c, iv, e), i) == XorBlock(c.dec(BlockAt(e, i)), Previous(iv, e, i))
    decreases i
  {
    hide ChainEnc, ChainDec, Permutes, XorBlock, Whole, BlockAt, Previous;
    ChainSize(c, iv, e);
    DecFirst(c, iv, e);
    ChainSize(c, e[..BLOCK], e[BLOCK..]);
    CutBlock(e, i);
    var b := XorBlock(c.dec(e[..BLOCK]), iv);
    var t := ChainDec(c, e[..BLOCK], e[BLOCK..]);
    if i == 0 {
      FirstBlock(b, t, iv);
      FirstBlock(e[..BLOCK], e[BLOCK..], iv);
    } else {
      ChainDecIs(c, e[..BLOCK], e[BLOCK..], i - 1);
      LaterBlock(b, t, iv, i - 1);
      LaterBlock(e[..BLOCK], e[BLOCK..], iv, i - 1);
    }
  }

  /** The two functions are that. */
  lemma {:induction false} ChainMeans(c: Cipher, iv: Octets, s: Octets)
    requires |iv| == BLOCK && Whole(s) && Permutes(c)
    ensures Chained(c, iv, s, ChainEnc(c, iv, s)) && Unchained(c, iv, s, ChainDec(c, iv, s))
  {
    ChainSize(c, iv, s);
    var e, p := ChainEnc(c, iv, s), ChainDec(c, iv, s);
    hide ChainEnc, ChainDec, Permutes, XorBlock, Mixed, Whole, BlockAt, Previous;
    forall i: nat | BLOCK * (i + 1) <= |s|
      ensures exists x :: Mixed(x, BlockAt(s, i), Previous(iv, e, i)) && BlockAt(e, i) == c.enc(x)
      ensures Mixed(BlockAt(p, i), c.dec(BlockAt(s, i)), Previous(iv, s, i))
    {
      ChainEncIs(c, iv, s, i);
      ChainDecIs(c, iv, s, i);
      XorBlockMixes(BlockAt(s, i), Previous(iv, e, i));
      XorBlockMixes(c.dec(BlockAt(s, i)), Previous(iv, s, i));
    }
  }

  method PutBlock(a: array<Byte>, i: nat, b: Octets)
    requires |b| == BLOCK && i + BLOCK <= a.Length
    modifies a
    ensures a[..i + BLOCK] == old(a[..i]) + b && a[i..] == b + old(a[i + BLOCK..])
    ensures a[i + BLOCK..] == old(a[i + BLOCK..]) && a[..i] == old(a[..i])
  {
    forall k | 0 <= k < BLOCK {
      a[i + k] := b[k];
    }
  }

  method EncryptBlocks(c: Cipher, iv: Octets, a: array<Byte>)
    requires |iv| == BLOCK && Whole(a[..]) && Permutes(c)
    modifies a
    ensures a[..] == ChainEnc(c, iv, old(a[..]))
  {
    hide ChainEnc, Permutes, Whole, XorBlock;
    ghost var was := a[..];
    var i, last := 0, iv;
    assert [] + ChainEnc(c, iv, was) == ChainEnc(c, iv, was);
    while i < a.Length
      invariant i <= a.Length && |last| == BLOCK && Whole(a[i..])
      invariant a[..i] + ChainEnc(c, last, a[i..]) == ChainEnc(c, iv, was)
    {
      ghost var done, left := a[..i], a[i..];
      ghost var block := EncStep(c, last, left);
      assert left[..BLOCK] == a[i..i + BLOCK] && left[BLOCK..] == a[i + BLOCK..];
      var b := c.enc(XorBlock(a[i..i + BLOCK], last));
      PutBlock(a, i, b);
      Assoc(done, b, ChainEnc(c, b, left[BLOCK..]));
      i, last := i + BLOCK, b;
    }
    ChainEmpty(c, last, a[i..]);
    assert a[..] == a[..i] + [];
  }

  lemma Assoc(a: Octets, b: Octets, c: Octets)
    ensures a + (b + c) == a + b + c
  {
  }

  /** The block that is chained into the one at `i`. */
  function Before(iv: Octets, s: Octets, i: nat): (r: Octets)
    requires |iv| == BLOCK && i <= |s| && (i == 0 || i >= BLOCK)
    ensures |r| == BLOCK
  {
    if i == 0 then iv else s[i - BLOCK..i]
  }

  lemma {:induction false} Steps(n: nat, i: nat)
    requires n % BLOCK == 0 && 0 < i <= n && i % BLOCK == 0
    ensures i >= BLOCK && (i - BLOCK) % BLOCK == 0 && (i == BLOCK || i >= 2 * BLOCK)
    ensures (n - i) % BLOCK == 0 && (n - i + BLOCK) % BLOCK == 0
  {
  }

  lemma {:induction false} DecStep(c: Cipher, iv: Octets, s: Octets, i: nat) returns (j: nat)
    requires |iv| == BLOCK && Whole(s) && Permutes(c) && 0 < i <= |s| && i % BLOCK == 0
    ensures j == i - BLOCK && j % BLOCK == 0 && (j == 0 || j >= BLOCK) && Whole(s[i..]) && Whole(s[j..])
    ensures |c.dec(s[j..i])| == BLOCK
    ensures ChainDec(c, Before(iv, s, j), s[j..])
         == XorBlock(c.dec(s[j..i]), Before(iv, s, j)) + ChainDec(c, Before(iv, s, i), s[i..])
  {
    hide ChainDec, Permutes, XorBlock;
    j := i - BLOCK;
    Steps(|s|, i);
    assert Whole(s[j..]) && Whole(s[i..]);
    hide Whole;
    var t, last := s[j..], Before(iv, s, j);
    DecFirst(c, last, t);
    assert t[..BLOCK] == s[j..i] && t[BLOCK..] == s[i..];
    assert Before(iv, s, i) == s[j..i];
  }

  lemma {:induction false} DecFirst(c: Cipher, last: Octets, s: Octets)
    requires |last| == BLOCK && Whole(s) && Permutes(c) && s != []
    ensures BLOCK <= |s| && Whole(s[BLOCK..]) && |c.dec(s[..BLOCK])| == BLOCK
    ensures ChainDec(c, last, s) == XorBlock(c.dec(s[..BLOCK]), last) + ChainDec(c, s[..BLOCK], s[BLOCK..])
  {
    hide XorBlock;
  }

  /** From the last block to the first, so that the block before is still encrypted. */
  method DecryptBlocks(c: Cipher, iv: Octets, a: array<Byte>)
    requires |iv| == BLOCK && Whole(a[..]) && Permutes(c)
    modifies a
    ensures a[..] == ChainDec(c, iv, old(a[..]))
  {
    hide ChainDec, Permutes, XorBlock;
    ghost var was := a[..];
    var i := a.Length;
    ChainEmpty(c, Before(iv, was, i), was[i..]);
    while i > 0
      invariant 0 <= i <= a.Length && i % BLOCK == 0 && Whole(was[i..])
      invariant a[..i] == was[..i]
      invariant a[i..] == ChainDec(c, Before(iv, was, i), was[i..])
    {
      ghost var j := DecStep(c, iv, was, i);
      SameSlices(a, was, i);
      var prev := if i == BLOCK then iv else a[i - 2 * BLOCK..i - BLOCK];
      PutBlock(a, i - BLOCK, XorBlock(c.dec(a[i - BLOCK..i]), prev));
      i := i - BLOCK;
      assert a[..i] == was[..i + BLOCK][..i];
    }
    assert was[0..] == was && a[0..] == a[..];
  }

  lemma {:induction false} SameSlices(a: array<Byte>, was: Octets, i: nat)
    requires BLOCK <= i <= a.Length && |was| == a.Length && a[..i] == was[..i]
    ensures a[i - BLOCK..i] == was[i - BLOCK..i] && a[..i - BLOCK] == was[..i - BLOCK]
    ensures i >= 2 * BLOCK ==> a[i - 2 * BLOCK..i - BLOCK] == was[i - 2 * BLOCK..i - BLOCK]
  {
    assert a[i - BLOCK..i] == a[..i][i - BLOCK..] && was[i - BLOCK..i] == was[..i][i - BLOCK..];
    assert a[..i - BLOCK] == a[..i][..i - BLOCK] && was[..i - BLOCK] == was[..i][..i - BLOCK];
    if i >= 2 * BLOCK {
      assert a[i - 2 * BLOCK..i - BLOCK] == a[..i][i - 2 * BLOCK..i - BLOCK];
      assert was[i - 2 * BLOCK..i - BLOCK] == was[..i][i - 2 * BLOCK..i - BLOCK];
    }
  }

  // ---- Padding ----

  function Repeat(b: Byte, n: nat): (r: Octets)
    ensures |r| == n
  {
    seq(n, _ => b)
  }

  /** One to sixteen bytes that say how many they are. */
  function Padding(s: Octets): Octets {
    var n := BLOCK - |s| % BLOCK;
    s + Repeat(n, n)
  }

  /** What is done with a text: bytes, an error for the caller, or a run-time panic. */
  datatype Outcome = Done(s: Octets) | Failed | Panics

  /** The last byte says how much is cut; an empty text has none, and a byte that is
      larger than the text cuts too much. */
  function Unpadding(s: Octets): Outcome {
    if s == [] || s[|s| - 1] > |s| then Panics else Done(s[..|s| - s[|s| - 1]])
  }

  lemma {:induction false} PaddingRoundTrip(s: Octets)
    ensures Whole(Padding(s)) && |s| < |Padding(s)| <= |s| + BLOCK && Unpadding(Padding(s)) == Done(s)
  {
    var p := Padding(s);
    var n := BLOCK - |s| % BLOCK;
    assert p[|p| - 1] == n;
    assert p[..|p| - n] == s;
  }

  /** The text and, up to the next whole block, bytes that say how many they are. */
  predicate PaddedAs(s: Octets, p: Octets) {
    && s <= p && |p| == BLOCK * (|s| / BLOCK + 1)
    && forall i :: |s| <= i < |p| ==> p[i] == |p| - |s|
  }

  lemma {:induction false} PaddingMeans(s: Octets)
    ensures PaddedAs(s, Padding(s))
  {
    var p := Padding(s);
    assert |p| - |s| == BLOCK - |s| % BLOCK;
  }

  // ---- The two operations ----

  /** The cipher of a key. */
  type KeyedCipher = Octets -> Cipher

  ghost predicate Sound(aes: KeyedCipher) {
    forall key :: |key| == BLOCK ==> Permutes(aes(key))
  }

  /** A key of 24 or 32 bytes makes a cipher, but no chaining block. */
  predicate KeyKnown(key: Octets) {
    |key| == 16 || |key| == 24 || |key| == 32
  }

  ghost function Encrypted(aes: KeyedCipher, s: Octets, key: Octets): Outcome
    requires Sound(aes)
  {
    if !KeyKnown(key) then Failed
    else if |key| != BLOCK then Panics
    else
      PaddingRoundTrip(s);
      Done(ChainEnc(aes(key), key, Padding(s)))
  }

  ghost function Decrypted(aes: KeyedCipher, s: Octets, key: Octets): Outcome
    requires Sound(aes)
  {
    if !KeyKnown(key) then Failed
    else if |key| != BLOCK || !Whole(s) then Panics
    else Unpadding(ChainDec(aes(key), key, s))
  }

  /** The padded text, chained block by block. */
  ghost predicate EncryptsTo(c: Cipher, iv: Octets, s: Octets, out: Outcome)
    requires |iv| == BLOCK
  {
    out.Done? && exists p :: PaddedAs(s, p) && Chained(c, iv, p, out.s)
  }

  /** The chain undone, and as many bytes cut as the last one says; none to say it, or too
      many, is a panic. */
  ghost predicate DecryptsTo(c: Cipher, iv: Octets, s: Octets, out: Outcome)
    requires |iv| == BLOCK
  {
    exists p :: Unchained(c, iv, s, p) && out == if p == [] || p[|p| - 1] > |p| then Panics else Done(p[..|p| - p[|p| - 1]])
  }

  method EncryptAES(aes: KeyedCipher, s: Octets, key: Octets) returns (out: Outcome)
    requires Sound(aes)
    ensures out == Encrypted(aes, s, key)
    ensures |key| == 16 ==> EncryptsTo(aes(key), key, s, out)
    ensures |key| == 24 || |key| == 32 ==> out == Panics
    ensures |key| != 16 && |key| != 24 && |key| != 32 ==> out == Failed
  {
    hide ChainEnc, ChainDec, Padding, Permutes, PaddedAs, Chained, Unchained;
    if !KeyKnown(key) {
      return Failed;
    }
    if |key| != BLOCK {
      return Panics;
    }
    PaddingRoundTrip(s);
    var padded := Padding(s);
    var a := new Byte[|padded|](i requires 0 <= i < |padded| => padded[i]);
    assert a[..] == padded;
    EncryptBlocks(aes(key), key, a);
    out := Done(a[..]);
    PaddingMeans(s);
    ChainMeans(aes(key), key, padded);
  }

  method DecryptAES(aes: KeyedCipher, s: Octets, key: Octets) returns (out: Outcome)
    requires Sound(aes)
    ensures out == Decrypted(aes, s, key)
    ensures |key| == 16 && |s| % 16 == 0 ==>
              DecryptsTo(aes(key), key, s, out)
    ensures |key| == 24 || |key| == 32 || (|key| == 16 && |s| % 16 != 0) ==> out == Panics
    ensures |key| != 16 && |key| != 24 && |key| != 32 ==> out == Failed
  {
    hide ChainEnc, ChainDec, Permutes, Chained, Unchained;
    if !KeyKnown(key) {
      return Failed;
    }
    if |key| != BLOCK || !Whole(s) {
      return Panics;
    }
    var a := new Byte[|s|](i requires 0 <= i < |s| => s[i]);
    assert a[..] == s;
    DecryptBlocks(aes(key), key, a);
    out := Unpadding(a[..]);
    ChainMeans(aes(key), key, s);
  }

  /** With a key of one block, whatever was encrypted comes back, and it is a non-empty
      number of whole blocks in between. */
  lemma {:induction false} AesRoundTrip(aes: KeyedCipher, s: Octets, key: Octets)
    requires Sound(aes) && |key| == BLOCK
    ensures var e := Encrypted(aes, s, key);
            e.Done? && e.s != [] && Whole(e.s) && Decrypted(aes, e.s, key) == Done(s)
  {
    hide ChainEnc, ChainDec, Padding, Unpadding, Permutes;
    PaddingRoundTrip(s);
    ChainSize(aes(key), key, Padding(s));
    ChainRoundTrip(aes(key), key, Padding(s));
  }
}
