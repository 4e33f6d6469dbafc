/** The two ends of a TCP connection as the proxy sees them.

    A `Source` delivers a fixed byte sequence in chunks chosen by an adversary
    and then fails for good; a `Sink` takes what it is given until it breaks. */
module Net {
  import opened Bytes

  datatype Error =
    | Nil
    | Eof
    | Failure
    | NoProgress
    | BufferFull
    | NegativeCount
    | ZeroRead
    | ShortWrite

  class Source {
    var pending: Bytes
    var empties: nat
    const final: Error
    /** The longest run of empty reads this source ever produces. */
    const patience: nat
    /** TCP connections report an error only on a read that brings no bytes. */
    const errAlone: bool

    predicate Valid()
      reads this
    {
      empties <= patience && (final == Eof || final == Failure)
    }

    constructor (bytes: Bytes, final: Error, patience: nat, errAlone: bool)
      requires final == Eof || final == Failure
      ensures Valid() && pending == bytes && this.final == final
      ensures this.patience == patience && this.errAlone == errAlone
    {
      pending, empties := bytes, 0;
      this.final, this.patience, this.errAlone := final, patience, errAlone;
    }

    /** One `Read(p[off:lim])`: any chunk, possibly empty, possibly with the
        final error when nothing is left. */
    method Read(p: array<char>, off: nat, lim: nat) returns (n: nat, err: Error)
      requires Valid() && off < lim <= p.Length
      modifies this, p
      ensures Valid()
      ensures n <= lim - off && n <= |old(pending)|
      ensures p[off..off + n] == old(pending)[..n] && pending == old(pending)[n..]
      ensures forall i :: 0 <= i < p.Length && !(off <= i < off + n) ==> p[i] == old(p[i])
      ensures err == Nil || (err == final && pending == [])
      ensures errAlone && err != Nil ==> n == 0
      ensures n == 0 && err == Nil ==> empties == old(empties) + 1
    {
      var m := if lim - off <= |pending| then lim - off else |pending|;
      n := if empties < patience then 0 else m;
      if * {
        n :| 0 <= n <= m && (n == 0 ==> m == 0 || empties < patience);
      }
      forall i | 0 <= i < n {
        p[off + i] := pending[i];
      }
      pending := pending[n..];
      err := Nil;
      if pending == [] && !(errAlone && n > 0) {
        if * {
          err := final;
        }
        if n == 0 && empties >= patience {
          err := final;
        }
      }
      empties := if n == 0 && err == Nil then empties + 1 else 0;
    }
  }

  /** What fits of `s`. */
  function Clip(s: Bytes, room: nat): (r: Bytes)
    ensures r <= s && |r| <= room
  {
    if |s| <= room then s else s[..room]
  }

  /** A connection that takes `room` bytes and then breaks. */
  class Sink {
    const room: nat
    var written: Bytes
    var broken: bool

    /** It was handed `all` so far: as much as fits of that has gone through, and it is
        broken exactly if something did not fit. */
    ghost predicate Got(all: Bytes)
      reads this
    {
      written == Clip(all, room) && (broken <==> |all| > room)
    }

    constructor (room: nat)
      ensures this.room == room && Got([])
    {
      this.room, written, broken := room, [], false;
    }

    /** Takes what fits of `p`; when that is not all, nothing ever again. */
    method Write(p: Bytes, ghost all: Bytes) returns (n: nat, err: Error)
      requires Got(all)
      modifies this
      ensures Got(all + p) && n <= |p| && written == old(written) + p[..n]
      ensures err == if broken then Failure else Nil
      ensures broken ==> n < |p| || p == []
      ensures !broken ==> n == |p|
    {
      n, err := |p|, Nil;
      if broken || |written| + |p| > room {
        n := if broken then 0 else room - |written|;
        broken, err := true, Failure;
      }
      written := written + p[..n];
      assert Clip(all, room) + p[..n] == Clip(all + p, room);
    }
  }

  lemma {:induction false} BrokenFits(w: Sink, all: Bytes)
    requires w.Got(all)
    ensures (w.broken <==> |all| > w.room) && (!w.broken ==> w.written == all)
  {
  }

  /** A broken connection has got whatever else it was going to be handed. */
  lemma {:induction false} BrokenGot(w: Sink, a: Bytes, b: Bytes)
    requires w.Got(a) && w.broken && a <= b
    ensures w.Got(b)
  {
  }
}
