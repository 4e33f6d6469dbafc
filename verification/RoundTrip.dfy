/** What the printer writes, the parser reads back. */
module RoundTrip {
  import opened Bytes
  import opened Net
  import opened Lines
  import opened HeaderKeys
  import opened Slab
  import opened HeaderSpec
  import opened HeaderWriter
  import opened TcpReader
  import opened TextReader
  import opened HeaderReader

  /** A name that survives the trip inside a line. */
  predicate Storable(name: string) {
    name != "" && ':' !in name && '\n' !in name && name[|name| - 1] != ' '
  }

  predicate Printable(f: Field) {
    Storable(f.name) && CleanValue(f.value)
  }

  lemma {:induction false} SplitPrinted(f: Field)
    requires Printable(f)
    ensures var kv := f.name + ": " + f.value;
            '\n' !in kv && ':' in kv && NameOf(kv) == f.name && ValueOf(kv) == f.value
  {
    var kv := f.name + ": " + f.value;
    assert kv[..|f.name|] == f.name && kv[|f.name|] == ':';
    IndexIs(kv, ':', |f.name|);
    var after := kv[|f.name| + 1..];
    assert after == [' '] + f.value && after[1..] == f.value;
    assert SkipBlanks(after) == SkipBlanks(f.value);
  }

  /** One printed line is read as one field. */
  lemma {:induction false} ReadPrinted(f: Field, rest: Bytes, size: nat, fin: Error, acc: seq<Field>)
    requires size >= 2 && Printable(f)
    ensures ParseLines(PrintField(f) + rest, size, fin, acc) == ParseLines(rest, size, fin, acc + [f])
  {
    var kv := f.name + ": " + f.value;
    SplitPrinted(f);
    LineOfCRLF(kv, rest);
    assert kv[0] == f.name[0];
    assert ParseLines(PrintField(f) + rest, size, fin, acc) == ParseLines(rest, size, fin, AddLine(acc, kv));
  }

  lemma {:induction false} FrontAndLast(fs: seq<Field>, acc: seq<Field>)
    requires fs != []
    ensures acc + fs[..|fs| - 1] + [fs[|fs| - 1]] == acc + fs
  {
  }

  lemma {:induction false} PrintSplit(fs: seq<Field>, rest: Bytes)
    requires fs != []
    ensures PrintFields(fs) + rest == PrintFields(fs[..|fs| - 1]) + (PrintField(fs[|fs| - 1]) + rest)
  {
    hide PrintField;
    Assoc(PrintFields(fs[..|fs| - 1]), PrintField(fs[|fs| - 1]), rest);
  }

  predicate AllPrintable(fs: seq<Field>) {
    forall i :: 0 <= i < |fs| ==> Printable(fs[i])
  }

  lemma {:induction false} PrintableParts(fs: seq<Field>)
    requires AllPrintable(fs) && fs != []
    ensures AllPrintable(fs[..|fs| - 1]) && Printable(fs[|fs| - 1])
  {
    hide Printable;
  }

  lemma {:induction false} ReadAllPrinted(fs: seq<Field>, rest: Bytes, size: nat, fin: Error, acc: seq<Field>)
    requires size >= 2 && AllPrintable(fs)
    ensures ParseLines(PrintFields(fs) + rest, size, fin, acc) == ParseLines(rest, size, fin, acc + fs)
  {
    if fs == [] {
      assert PrintFields(fs) + rest == rest && acc + fs == acc;
      return;
    }
    hide *;
    var front, last := fs[..|fs| - 1], fs[|fs| - 1];
    PrintableParts(fs);
    PrintSplit(fs, rest);
    ReadAllPrinted(front, PrintField(last) + rest, size, fin, acc);
    ReadPrinted(last, rest, size, fin, acc + front);
    FrontAndLast(fs, acc);
  }

  lemma {:induction false} BlankLineEnds(rest: Bytes, size: nat, fin: Error, acc: seq<Field>)
    requires size >= 2
    ensures ParseLines(CRLF + rest, size, fin, acc) == Parsed(acc, Fine, rest)
  {
    LineOfCRLF([], rest);
    assert [] + CRLF + rest == CRLF + rest;
  }

  function CleanAll(vs: seq<string>): (r: seq<string>)
    ensures |r| == |vs| && forall i :: 0 <= i < |vs| ==> r[i] == Sanitize(vs[i])
  {
    seq(|vs|, i requires 0 <= i < |vs| => Sanitize(vs[i]))
  }

  /** The map that comes back: names without values are gone, values are clean. */
  function Cleaned(h: Fields, keys: set<string>): Fields {
    map k | k in keys && k in h && h[k] != [] :: CleanAll(h[k])
  }

  lemma {:induction false} CollectSnoc(fs: seq<Field>, k: string, v: string)
    requires Canonical(k) == k
    ensures Collect(fs + [Field(k, v)]) == Collect(fs)[k := Values(Collect(fs), k) + [v]]
  {
    hide HeaderKeys.Canonical;
    var all := fs + [Field(k, v)];
    assert all[..|all| - 1] == fs && all[|all| - 1] == Field(k, v);
  }

  lemma {:induction false} CollectValues(fs: seq<Field>, k: string, vs: seq<string>)
    requires Canonical(k) == k && k !in Collect(fs)
    ensures Collect(fs + FieldsOf(KeyValues(k, vs)))
            == if vs == [] then Collect(fs) else Collect(fs)[k := CleanAll(vs)]
    decreases |vs|
  {
    hide HeaderKeys.Canonical, HeaderSpec.Collect, HeaderWriter.Sanitize;
    var added := FieldsOf(KeyValues(k, vs));
    if vs == [] {
      assert fs + added == fs;
    } else {
      var init, v := vs[..|vs| - 1], Sanitize(vs[|vs| - 1]);
      var before := fs + FieldsOf(KeyValues(k, init));
      CollectValues(fs, k, init);
      CollectSnoc(before, k, v);
      assert fs + added == before + [Field(k, v)];
      assert CleanAll(vs) == (if init == [] then [] else CleanAll(init)) + [v];
    }
  }

  lemma {:induction false} ListingFront(a: seq<KeyValues>, h: Fields, keys: set<string>)
    requires Listing(a, h, keys) && a != []
    ensures Listing(a[..|a| - 1], h, keys - {a[|a| - 1].key})
  {
    var n := |a| - 1;
    forall i | 0 <= i < n
      ensures a[i].key != a[n].key
    {
      LessIsOrder(a[i].key, a[n].key, "");
    }
    forall k | k in keys - {a[n].key}
      ensures exists i :: 0 <= i < |a[..n]| && a[..n][i].key == k
    {
      var i :| 0 <= i < |a| && a[i].key == k;
      assert a[..n][i].key == k;
    }
  }

  lemma {:induction false} CleanedStep(h: Fields, keys: set<string>, k: string)
    requires k in keys && k in h
    ensures k !in Cleaned(h, keys - {k})
    ensures Cleaned(h, keys)
            == if h[k] == [] then Cleaned(h, keys - {k}) else Cleaned(h, keys - {k})[k := CleanAll(h[k])]
  {
  }

  lemma {:induction false} CleanedEmpty(h: Fields)
    ensures Cleaned(h, {}) == map[] == Collect([]) == Collect(Flatten([]))
  {
  }

  lemma {:induction false} CollectFlatten(kvs: seq<KeyValues>, h: Fields, keys: set<string>)
    requires Listing(kvs, h, keys) && forall k :: k in keys ==> Canonical(k) == k
    ensures Collect(Flatten(kvs)) == Cleaned(h, keys)
  {
    hide HeaderKeys.Canonical, HeaderSpec.Collect, HeaderWriter.FieldsOf, Cleaned;
    ListingEmpty(kvs, h, keys);
    CleanedEmpty(h);
    if kvs != [] {
      var kv := kvs[|kvs| - 1];
      ListingFront(kvs, h, keys);
      CollectFlatten(kvs[..|kvs| - 1], h, keys - {kv.key});
      var front := Flatten(kvs[..|kvs| - 1]);
      CleanedStep(h, keys, kv.key);
      CollectValues(front, kv.key, kv.values);
      assert KeyValues(kv.key, kv.values) == kv && Collect(Flatten(kvs)) == Collect(front + FieldsOf(kv));
    }
  }

  lemma {:induction false} FlattenPrintable(kvs: seq<KeyValues>)
    requires forall i :: 0 <= i < |kvs| ==> Storable(kvs[i].key)
    ensures AllPrintable(Flatten(kvs))
  {
    if kvs != [] {
      FlattenPrintable(kvs[..|kvs| - 1]);
      forall v: string
        ensures CleanValue(Sanitize(v))
      {
        SanitizeCleans(v);
      }
    }
  }

  predicate StartsIndented(fs: seq<Field>) {
    fs != [] && fs[0].name != "" && IsBlank(fs[0].name[0])
  }

  lemma {:induction false} PrintStart(fs: seq<Field>, rest: Bytes)
    requires forall i :: 0 <= i < |fs| ==> fs[i].name != ""
    ensures StartsBlank(PrintFields(fs) + CRLF + rest) <==> StartsIndented(fs)
    ensures fs != [] ==> PrintFields(fs) != [] && PrintFields(fs)[0] == fs[0].name[0]
  {
    if |fs| > 1 {
      PrintStart(fs[..|fs| - 1], rest);
    }
  }

  ghost predicate AllKept(vs: seq<string>, rs: seq<string>) {
    |rs| == |vs| && forall i :: 0 <= i < |vs| ==> Kept(vs[i], rs[i])
  }

  lemma {:induction false} CleanAllKeeps(vs: seq<string>)
    ensures AllKept(vs, CleanAll(vs))
  {
    hide KeptAt, Sanitize;
    forall i | 0 <= i < |vs|
      ensures Kept(vs[i], CleanAll(vs)[i])
    {
      var n := SanitizeKeeps(vs[i]);
      assert CleanAll(vs)[i] == Sanitize(vs[i]);
      assert KeptAt(vs[i], CleanAll(vs)[i], n);
    }
  }

  /** The names that have values, and of each value, in order, all but its outer blanks. */
  ghost predicate BackAs(h: Fields, back: Fields) {
    && (forall k :: k in back <==> k in h && h[k] != [])
    && (forall k :: k in back ==> AllKept(h[k], back[k]))
  }

  lemma {:induction false} CleanedMeans(h: Fields)
    ensures BackAs(h, Cleaned(h, h.Keys))
  {
    hide AllKept, CleanAll;
    var back := Cleaned(h, h.Keys);
    forall k | k in back
      ensures AllKept(h[k], back[k])
    {
      CleanAllKeeps(h[k]);
    }
  }

  /** Whatever the values hold, line breaks included, the header that is printed
      is read back as the same names with cleaned values, up to exactly `rest`. */
  lemma {:induction false} WriteThenRead(h: Fields, kvs: seq<KeyValues>, rest: Bytes, size: nat, fin: Error)
    requires size >= 2 && Listing(kvs, h, h.Keys)
    requires forall k :: k in h ==> Storable(k) && Canonical(k) == k
    requires !StartsIndented(Flatten(kvs))
    ensures ParseHeader(PrintFields(Flatten(kvs)) + CRLF + rest, size, fin) == Parsed(Flatten(kvs), Fine, rest)
    ensures Collect(Flatten(kvs)) == Cleaned(h, h.Keys)
    ensures BackAs(h, Collect(Flatten(kvs)))
  {
    CleanedMeans(h);
    assert forall i :: 0 <= i < |kvs| ==> Storable(kvs[i].key);
    hide BackAs;
    hide HeaderKeys.Canonical, PrintFields, ParseLines, Flatten, Collect, Cleaned, StartsBlank, CleanValue, Listing;
    var fs := Flatten(kvs);
    FlattenPrintable(kvs);
    PrintStart(fs, rest);
    Assoc(PrintFields(fs), CRLF, rest);
    ReadAllPrinted(fs, CRLF + rest, size, fin, []);
    BlankLineEnds(rest, size, fin, [] + fs);
    assert [] + fs == fs;
    CollectFlatten(kvs, h, h.Keys);
  }

  lemma {:induction false} StorableFold(a: string, b: string)
    requires SameFold(a, b) && Storable(b)
    ensures Storable(a)
  {
    forall i | 0 <= i < |a|
      ensures a[i] != ':' && a[i] != '\n' && (i == |a| - 1 ==> a[i] != ' ')
    {
      assert b[i] in b;
    }
  }

  lemma {:induction false} DropSpacesEnds(s: Bytes)
    ensures DropSpaces(s) <= s && (DropSpaces(s) != [] ==> DropSpaces(s)[|DropSpaces(s)| - 1] != ' ')
    decreases |s|
  {
    if s != [] && s[|s| - 1] == ' ' {
      DropSpacesEnds(s[..|s| - 1]);
    }
  }

  predicate AllStorable(fs: seq<Field>) {
    forall i :: 0 <= i < |fs| ==> Storable(fs[i].name)
  }

  lemma {:induction false} AddLineStorable(fs: seq<Field>, kv: Bytes)
    requires AllStorable(fs) && ':' in kv && '\n' !in kv
    ensures AllStorable(AddLine(fs, kv))
  {
    DropSpacesEnds(kv[..IndexByte(kv, ':')]);
    assert NameOf(kv) <= kv;
  }

  /** Nothing but storable names ever comes out of the parser. */
  lemma {:induction false} ParsedNames(s: Bytes, size: nat, fin: Error, acc: seq<Field>)
    requires size >= 2 && AllStorable(acc)
    ensures AllStorable(ParseLines(s, size, fin, acc).fields)
    decreases |s|
  {
    if '\n' in s {
      var kv := DropBreak(FirstLine(s));
      if kv != [] && ':' in kv {
        AddLineStorable(acc, kv);
        ParsedNames(AfterLine(s), size, fin, AddLine(acc, kv));
      }
    } else if ':' in s {
      AddLineStorable(acc, s);
    }
  }

  lemma {:induction false} CollectNames(fs: seq<Field>)
    requires AllStorable(fs)
    ensures forall k :: k in Collect(fs) ==> Storable(k) && Canonical(k) == k
  {
    if fs != [] {
      var f := fs[|fs| - 1];
      CollectNames(fs[..|fs| - 1]);
      CanonicalFolds(f.name);
      CanonicalIdempotent(f.name);
      StorableFold(Canonical(f.name), f.name);
    }
  }

  /** What a caller can check before printing. */
  ghost predicate WellFormed(h: Fields, kvs: seq<KeyValues>) {
    && (forall k :: k in h ==> Storable(k) && Canonical(k) == k)
    && (forall k :: k in h ==> h[k] != [] && forall i :: 0 <= i < |h[k]| ==> CleanValue(h[k][i]))
    && (kvs != [] ==> kvs[0].key != "" && !IsBlank(kvs[0].key[0]))
  }

  ghost predicate ComesBack(h: Fields, kvs: seq<KeyValues>, rest: Bytes, size: nat, fin: Error)
    requires size >= 2
  {
    var p := ParseHeader(PrintFields(Flatten(kvs)) + CRLF + rest, size, fin);
    p.err == Fine && p.rest == rest && Collect(p.fields) == h
  }

  lemma {:induction false} FlattenStart(kvs: seq<KeyValues>)
    requires kvs != [] && kvs[0].values != []
    ensures Flatten(kvs) != [] && Flatten(kvs)[0].name == kvs[0].key
  {
    if |kvs| > 1 {
      FlattenStart(kvs[..|kvs| - 1]);
    }
  }

  lemma {:induction false} CleanedSame(h: Fields)
    requires forall k :: k in h ==> h[k] != []
    ensures Cleaned(h, h.Keys) == h <==> forall k :: k in h ==> forall i :: 0 <= i < |h[k]| ==> CleanValue(h[k][i])
  {
    forall v: string
      ensures Sanitize(v) == v <==> CleanValue(v)
    {
      SanitizeCleans(v);
    }
    forall k | k in h
      ensures CleanAll(h[k]) == h[k] <==> forall i :: 0 <= i < |h[k]| ==> CleanValue(h[k][i])
    {
    }
  }

  /** A header comes back from its printed form exactly when it is well formed. */
  lemma {:induction false} RoundTripExact(h: Fields, kvs: seq<KeyValues>, rest: Bytes, size: nat, fin: Error)
    requires size >= 2 && Listing(kvs, h, h.Keys)
    ensures ComesBack(h, kvs, rest, size, fin) <==> WellFormed(h, kvs)
  {
    hide HeaderKeys.Canonical, HeaderSpec.Collect, Cleaned, HeaderWriter.PrintFields, HeaderSpec.ParseLines;
    ListingEmpty(kvs, h, h.Keys);
    if ComesBack(h, kvs, rest, size, fin) {
      BackIsWellFormed(h, kvs, rest, size, fin);
    }
    if WellFormed(h, kvs) {
      if kvs != [] {
        assert kvs[0].key in h;
        FlattenStart(kvs);
      }
      WriteThenRead(h, kvs, rest, size, fin);
      CleanedSame(h);
    }
  }

  lemma {:induction false} BackIsWellFormed(h: Fields, kvs: seq<KeyValues>, rest: Bytes, size: nat, fin: Error)
    requires size >= 2 && Listing(kvs, h, h.Keys) && ComesBack(h, kvs, rest, size, fin)
    ensures WellFormed(h, kvs)
  {
    hide HeaderKeys.Canonical, Cleaned, HeaderWriter.PrintFields, HeaderSpec.ParseLines, HeaderWriter.Flatten;
    var fs := Flatten(kvs);
    var s := PrintFields(fs) + CRLF + rest;
    ParsedNames(s, size, fin, []);
    CollectNames(ParseHeader(s, size, fin).fields);
    FlattenPrintable(kvs);
    PrintStart(fs, rest);
    if kvs != [] {
      assert kvs[0].key in h;
      FlattenStart(kvs);
    }
    WriteThenRead(h, kvs, rest, size, fin);
    CleanedSame(h);
  }

  // ---- Over a connection ----

  /** The printed header and its empty line end a block: a reader that has them buffered
      asks for nothing more. */
  lemma {:induction false} PrintedEnds(h: Fields, kvs: seq<KeyValues>)
    requires Listing(kvs, h, h.Keys)
    requires forall k :: k in h ==> Storable(k) && Canonical(k) == k
    requires !StartsIndented(Flatten(kvs))
    ensures BlockEnds(PrintFields(Flatten(kvs)) + CRLF)
  {
    hide *;
    var s := PrintFields(Flatten(kvs)) + CRLF;
    WriteThenRead(h, kvs, "x", 2, Eof);
    if !BlockEnds(s) {
      OpenBlock(s, "x", 2, Eof);
    }
  }

  lemma {:induction false} WellFormedEnds(h: Fields, kvs: seq<KeyValues>)
    requires Listing(kvs, h, h.Keys) && WellFormed(h, kvs)
    ensures BlockEnds(PrintFields(Flatten(kvs)) + CRLF)
  {
    hide HeaderKeys.Canonical, HeaderWriter.PrintFields, HeaderSpec.BlockEnds;
    if kvs != [] {
      assert kvs[0].key in h;
      FlattenStart(kvs);
    }
    PrintedEnds(h, kvs);
  }

  lemma {:induction false} ReadBack(h: Fields, kvs: seq<KeyValues>, rest: Bytes, unread: Bytes, fs: seq<Field>, err: HeaderError,
                                    left: Bytes, size: nat, rd: Source)
    requires size >= 2 && Listing(kvs, h, h.Keys) && rd.patience < MAX_EMPTY_READS
    requires var s := PrintFields(Flatten(kvs)) + CRLF + rest;
             Decided(unread, s, rd) ==> Parsed(fs, err, left) == ParseHeader(s, size, rd.final)
    ensures rd.errAlone || WellFormed(h, kvs) ==> (err == Fine && Collect(fs) == h && left == rest <==> WellFormed(h, kvs))
  {
    var text := PrintFields(Flatten(kvs)) + CRLF;
    RoundTripExact(h, kvs, rest, size, rd.final);
    if WellFormed(h, kvs) {
      WellFormedEnds(h, kvs);
      EndedBlock(text, rest, size, rd.final, size, rd.final);
    }
    hide HeaderKeys.Canonical, HeaderWriter.PrintFields, HeaderSpec.BlockEnds, HeaderSpec.ParseHeader, HeaderWriter.Flatten, Collect;
    hide WellFormed, Listing;
  }

  /** A header and an empty line on a connection. */
  method WriteBlock(h: Fields, wire: Sink, ghost given: Bytes) returns (ghost kvs: seq<KeyValues>)
    requires wire.Got(given)
    modifies wire
    ensures Listing(kvs, h, h.Keys) && wire.Got(given + (PrintFields(Flatten(kvs)) + CRLF))
  {
    hide Listing, PrintFields, Flatten, Sink.Got;
    var n, e;
    e, kvs := WriteSubset(h, {}, wire, given);
    assert h.Keys - {} == h.Keys;
    n, e := wire.Write(CRLF, given + PrintFields(Flatten(kvs)));
    Assoc(given, PrintFields(Flatten(kvs)), CRLF);
  }

  /** One program prints a header and an empty line to its end of a connection; another
      reads the other end, in whatever chunks it comes and with anything behind.  It gets
      the header back and stands right behind it exactly when the header is well formed
      (should it not be, errors that come with bytes could hide it). */
  method WriteAndRead(h: Fields, wire: Sink, lr: LineReader, ghost given: Bytes, ghost kvs: seq<KeyValues>, ghost rest: Bytes)
    returns (table: HeaderTable, err: HeaderError)
    requires wire.Got(given) && lr.R.Valid() && lr.R.size >= 2 && lr.R.rd.patience < MAX_EMPTY_READS
    requires Listing(kvs, h, h.Keys) && lr.R.Stream() == PrintFields(Flatten(kvs)) + CRLF + rest
    modifies wire, lr.R, lr.R.buf, lr.R.rd
    ensures wire.Got(given + (PrintFields(Flatten(kvs)) + CRLF))
    ensures lr.R.Valid() && fresh(table) && table.Valid()
    ensures lr.R.rd.errAlone || WellFormed(h, kvs) ==>
              (err == Fine && table.view == h && lr.R.Stream() == rest <==> WellFormed(h, kvs))
    ensures WellFormed(h, kvs) && old(lr.R.Unread()) == old(lr.R.Stream()) ==> lr.R.Quiet()
  {
    hide WellFormed, Listing, PrintFields, Flatten, Decided, HeaderSpec.ParseHeader, Collect, BlockEnds, Sink.Got;
    ghost var listed := WriteBlock(h, wire, given);
    ListingUnique(kvs, listed, h, h.Keys);
    ghost var unread, fs, raw := lr.R.Unread(), [], [];
    if WellFormed(h, kvs) && unread == lr.R.Stream() {
      WellFormedEnds(h, kvs);
      EndedBlock(PrintFields(Flatten(kvs)) + CRLF, rest, 2, Eof, 2, Eof);
    }
    table, err, fs, raw := HeaderReader.ReadHeader(lr);
    ReadBack(h, kvs, rest, unread, fs, err, lr.R.Stream(), lr.R.size, lr.R.rd);
  }
}
