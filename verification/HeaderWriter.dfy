/** Printing a header map, after proto/http/header.go. */
module HeaderWriter {
  import opened Bytes
  import opened Net
  import opened Lines
  import opened HeaderSpec

  function ReplaceBreaks(v: string): (r: string)
    ensures |r| == |v| && forall i :: 0 <= i < |v| ==> r[i] == if v[i] == '\n' || v[i] == '\r' then ' ' else v[i]
  {
    seq(|v|, i requires 0 <= i < |v| => if v[i] == '\n' || v[i] == '\r' then ' ' else v[i])
  }

  predicate IsSpace(c: char) { c == ' ' || c == '\t' || c == '\n' || c == '\r' }

  function TrimString(v: string): string
    decreases |v|
  {
    if v != [] && IsSpace(v[0]) then TrimString(v[1..])
    else if v != [] && IsSpace(v[|v| - 1]) then TrimString(v[..|v| - 1])
    else v
  }

  /** The form in which a value goes on the wire. */
  function Sanitize(v: string): string {
    TrimString(ReplaceBreaks(v))
  }

  /** A value that goes on the wire as it is. */
  predicate CleanValue(v: string) {
    && (forall i :: 0 <= i < |v| ==> v[i] != '\n' && v[i] != '\r')
    && (v != [] ==> !IsSpace(v[0]) && !IsSpace(v[|v| - 1]))
  }

  lemma {:induction false} TrimmedIsClean(v: string)
    requires forall i :: 0 <= i < |v| ==> v[i] != '\n' && v[i] != '\r'
    ensures CleanValue(TrimString(v)) && (CleanValue(v) ==> TrimString(v) == v)
    decreases |v|
  {
    if v != [] && IsSpace(v[0]) {
      TrimmedIsClean(v[1..]);
    } else if v != [] && IsSpace(v[|v| - 1]) {
      TrimmedIsClean(v[..|v| - 1]);
    }
  }

  /** Sanitizing cleans, and changes nothing exactly when there is nothing to do. */
  lemma {:induction false} SanitizeCleans(v: string)
    ensures CleanValue(Sanitize(v)) && (Sanitize(v) == v <==> CleanValue(v))
  {
    TrimmedIsClean(ReplaceBreaks(v));
    if CleanValue(v) {
      assert ReplaceBreaks(v) == v;
    }
  }

  predicate Blank(c: char) { c in " \t\r\n" }

  /** `r` is `v` from byte `n` on, with line breaks turned into blanks, between all its
      outer blanks. */
  ghost predicate KeptAt(v: string, r: string, n: nat) {
    && n + |r| <= |v|
    && (forall i :: 0 <= i < n || n + |r| <= i < |v| ==> Blank(v[i]))
    && (forall i :: 0 <= i < |r| ==> r[i] == if v[n + i] == '\r' || v[n + i] == '\n' then ' ' else v[n + i])
    && (r != "" ==> !Blank(r[0]) && !Blank(r[|r| - 1]))
  }

  ghost predicate Kept(v: string, r: string) {
    exists n :: KeptAt(v, r, n)
  }

  lemma {:induction false} TrimKeeps(v: string) returns (n: nat)
    ensures n + |TrimString(v)| <= |v| && TrimString(v) == v[n..n + |TrimString(v)|]
    ensures forall i :: 0 <= i < n || n + |TrimString(v)| <= i < |v| ==> Blank(v[i])
    ensures TrimString(v) != "" ==> !Blank(TrimString(v)[0]) && !Blank(TrimString(v)[|TrimString(v)| - 1])
    decreases |v|
  {
    if v != [] && IsSpace(v[0]) {
      n := TrimKeeps(v[1..]);
      assert forall i :: 1 <= i < |v| ==> v[i] == v[1..][i - 1];
      n := n + 1;
    } else if v != [] && IsSpace(v[|v| - 1]) {
      n := TrimKeeps(v[..|v| - 1]);
      assert forall i :: 0 <= i < |v| - 1 ==> v[i] == v[..|v| - 1][i];
    } else {
      n := 0;
    }
  }

  /** What goes on the wire of a value: all of it but its outer blanks. */
  lemma {:induction false} SanitizeKeeps(v: string) returns (n: nat)
    ensures KeptAt(v, Sanitize(v), n)
  {
    hide TrimString;
    n := TrimKeeps(ReplaceBreaks(v));
    assert forall i :: 0 <= i < |v| ==> (Blank(ReplaceBreaks(v)[i]) <==> Blank(v[i]));
  }

  /** And nothing else could. */
  lemma {:induction false} KeptIsOne(v: string, r: string, n: nat, r': string, n': nat)
    requires KeptAt(v, r, n) && KeptAt(v, r', n')
    ensures r == r'
  {
    assert r != "" ==> !Blank(v[n]) && !Blank(v[n + |r| - 1]);
    assert r' != "" ==> !Blank(v[n']) && !Blank(v[n' + |r'| - 1]);
    assert r == "" <==> forall i :: 0 <= i < |v| ==> Blank(v[i]);
    assert r' == "" <==> forall i :: 0 <= i < |v| ==> Blank(v[i]);
    assert r != "" ==> n == n' && |r| == |r'|;
  }

  datatype KeyValues = KeyValues(key: string, values: seq<string>)

  function FieldsOf(kv: KeyValues): (fs: seq<Field>)
    ensures |fs| == |kv.values|
  {
    seq(|kv.values|, i requires 0 <= i < |kv.values| => Field(kv.key, Sanitize(kv.values[i])))
  }

  function Flatten(kvs: seq<KeyValues>): seq<Field> {
    if kvs == [] then [] else Flatten(kvs[..|kvs| - 1]) + FieldsOf(kvs[|kvs| - 1])
  }

  function PrintField(f: Field): Bytes {
    f.name + ": " + f.value + CRLF
  }

  function PrintFields(fs: seq<Field>): Bytes {
    if fs == [] then [] else PrintFields(fs[..|fs| - 1]) + PrintField(fs[|fs| - 1])
  }

  /** Byte order of strings. */
  predicate Less(a: string, b: string) {
    b != "" && (a == "" || a[0] < b[0] || (a[0] == b[0] && Less(a[1..], b[1..])))
  }

  lemma {:induction false} LessIsOrder(a: string, b: string, c: string)
    ensures !Less(a, a) && (a == b || Less(a, b) || Less(b, a))
    ensures Less(a, b) && Less(b, c) ==> Less(a, c)
  {
    if a != "" && b != "" && c != "" {
      LessIsOrder(a[1..], b[1..], c[1..]);
    } else if a != "" && b != "" {
      LessIsOrder(a[1..], b[1..], "");
    } else if a != "" {
      LessIsOrder(a[1..], "", "");
    }
    if a != "" && b != "" && a[0] == b[0] && a[1..] == b[1..] {
      assert a == [a[0]] + a[1..] && b == [b[0]] + b[1..];
    }
  }

  predicate Sorted(kvs: seq<KeyValues>) {
    forall i, j :: 0 <= i < j < |kvs| ==> Less(kvs[i].key, kvs[j].key)
  }

  /** The entries of a map restricted to `keys`, each once, in order. */
  ghost predicate Listing(kvs: seq<KeyValues>, h: Fields, keys: set<string>) {
    && Sorted(kvs)
    && (forall i :: 0 <= i < |kvs| ==> kvs[i].key in keys)
    && (forall i :: 0 <= i < |kvs| ==> kvs[i].key in h && kvs[i].values == h[kvs[i].key])
    && (forall k :: k in keys ==> exists i :: 0 <= i < |kvs| && kvs[i].key == k)
  }

  function Insert(kvs: seq<KeyValues>, kv: KeyValues): (r: seq<KeyValues>)
    ensures forall e :: e in r <==> e in kvs || e == kv
  {
    if kvs == [] || Less(kv.key, kvs[0].key) then [kv] + kvs
    else
      assert kvs == [kvs[0]] + kvs[1..];
      [kvs[0]] + Insert(kvs[1..], kv)
  }

  lemma {:induction false} InsertSorted(kvs: seq<KeyValues>, kv: KeyValues)
    requires Sorted(kvs) && forall i :: 0 <= i < |kvs| ==> kvs[i].key != kv.key
    ensures Sorted(Insert(kvs, kv))
  {
    if kvs == [] {
    } else if Less(kv.key, kvs[0].key) {
      forall j | 0 <= j < |kvs|
        ensures Less(kv.key, kvs[j].key)
      {
        LessIsOrder(kv.key, kvs[0].key, kvs[j].key);
      }
    } else {
      InsertSorted(kvs[1..], kv);
      var r := Insert(kvs[1..], kv);
      forall j | 0 <= j < |r|
        ensures Less(kvs[0].key, r[j].key)
      {
        LessIsOrder(kvs[0].key, kv.key, "");
        assert r[j] in r;
      }
    }
  }

  lemma {:induction false} ListingInsert(kvs: seq<KeyValues>, h: Fields, keys: set<string>, k: string)
    requires Listing(kvs, h, keys) && k !in keys && k in h
    ensures Listing(Insert(kvs, KeyValues(k, h[k])), h, keys + {k})
  {
    var kv := KeyValues(k, h[k]);
    InsertSorted(kvs, kv);
    var r := Insert(kvs, kv);
    forall i | 0 <= i < |r|
      ensures r[i].key in keys + {k} && r[i].key in h && r[i].values == h[r[i].key]
    {
      assert r[i] in r;
    }
    forall x | x in keys + {k}
      ensures exists i :: 0 <= i < |r| && r[i].key == x
    {
      var e := if x == k then kv else var i :| 0 <= i < |kvs| && kvs[i].key == x; kvs[i];
      assert e in r;
    }
  }

  /** There is one listing: what is printed does not depend on the order in which
      the map happens to be walked. */
  lemma {:induction false} ListingUnique(a: seq<KeyValues>, b: seq<KeyValues>, h: Fields, keys: set<string>)
    requires Listing(a, h, keys) && Listing(b, h, keys)
    ensures a == b
  {
    ListingEmpty(a, h, keys);
    ListingEmpty(b, h, keys);
    if a != [] {
      var i :| 0 <= i < |b| && b[i].key == a[0].key;
      var j :| 0 <= j < |a| && a[j].key == b[0].key;
      LessIsOrder(a[0].key, b[0].key, a[0].key);
      assert a[0] == b[0];
      ListingTail(a, h, keys);
      ListingTail(b, h, keys);
      ListingUnique(a[1..], b[1..], h, keys - {a[0].key});
    }
  }

  lemma {:induction false} ListingEmpty(a: seq<KeyValues>, h: Fields, keys: set<string>)
    requires Listing(a, h, keys)
    ensures a == [] <==> keys == {}
  {
    if a != [] {
      assert a[0].key in keys;
    }
  }

  lemma {:induction false} ListingTail(a: seq<KeyValues>, h: Fields, keys: set<string>)
    requires Listing(a, h, keys) && a != []
    ensures Listing(a[1..], h, keys - {a[0].key})
  {
    forall i | 0 < i < |a|
      ensures a[i].key != a[0].key
    {
      LessIsOrder(a[0].key, a[i].key, "");
    }
    forall k | k in keys - {a[0].key}
      ensures exists i :: 0 <= i < |a[1..]| && a[1..][i].key == k
    {
      var i :| 0 <= i < |a| && a[i].key == k;
      assert a[1..][i - 1].key == k;
    }
  }

  /** Walks the map in any order; the library's sort puts every entry in place. */
  method SortedKeyValues(h: Fields, exclude: set<string>) returns (kvs: seq<KeyValues>)
    ensures Listing(kvs, h, h.Keys - exclude)
  {
    kvs := [];
    var todo := h.Keys;
    while todo != {}
      invariant todo <= h.Keys && Listing(kvs, h, h.Keys - exclude - todo)
      decreases todo
    {
      var k :| k in todo;
      if k !in exclude {
        ListingInsert(kvs, h, h.Keys - exclude - todo, k);
        kvs := Insert(kvs, KeyValues(k, h[k]));
        assert h.Keys - exclude - todo + {k} == h.Keys - exclude - (todo - {k});
      } else {
        assert h.Keys - exclude - todo == h.Keys - exclude - (todo - {k});
      }
      todo := todo - {k};
    }
    assert h.Keys - exclude - {} == h.Keys - exclude;
  }

  lemma {:induction false} PrintAppend(a: seq<Field>, b: seq<Field>)
    ensures PrintFields(a + b) == PrintFields(a) + PrintFields(b)
  {
    if b == [] {
      assert a + b == a;
    } else {
      var front, f := b[..|b| - 1], b[|b| - 1];
      assert a + b == a + front + [f];
      hide PrintField;
      PrintAppend(a, front);
      PrintSnoc(a + front, f);
      Assoc(PrintFields(a), PrintFields(front), PrintField(f));
    }
  }

  lemma {:induction false} PrintSnoc(fs: seq<Field>, f: Field)
    ensures PrintFields(fs + [f]) == PrintFields(fs) + PrintField(f)
  {
    assert (fs + [f])[..|fs|] == fs;
  }

  /** Writes one header line in four pieces. */
  method WriteField(w: Sink, f: Field, ghost all: Bytes) returns (err: Error)
    requires w.Got(all)
    modifies w
    ensures w.Got(all + PrintField(f)) && (err != Error.Nil ==> w.broken)
  {
    var pieces := [f.name, ": ", f.value, CRLF];
    ghost var parts := [all, all + f.name, all + f.name + ": ", all + f.name + ": " + f.value, all + f.name + ": " + f.value + CRLF];
    assert parts[4] == all + PrintField(f);
    var i := 0;
    while i < 4
      invariant 0 <= i <= 4 && |pieces| == 4 && |parts| == 5
      invariant w.Got(parts[i]) && parts[i] <= parts[4]
    {
      assert parts[i + 1] == parts[i] + pieces[i] && parts[i + 1] <= parts[4];
      var n;
      n, err := w.Write(pieces[i], parts[i]);
      if err != Error.Nil {
        BrokenGot(w, parts[i + 1], parts[4]);
        return;
      }
      i := i + 1;
    }
    err := Error.Nil;
  }

  lemma {:induction false} PrintNext(done: seq<Field>, kv: KeyValues, j: nat, start: Bytes)
    requires j < |kv.values|
    ensures start + PrintFields(done + FieldsOf(kv)[..j + 1])
            == start + PrintFields(done + FieldsOf(kv)[..j]) + PrintField(Field(kv.key, Sanitize(kv.values[j])))
  {
    hide Sanitize, PrintField;
    var before, f := done + FieldsOf(kv)[..j], Field(kv.key, Sanitize(kv.values[j]));
    assert done + FieldsOf(kv)[..j + 1] == before + [f];
    hide *;
    PrintSnoc(before, f);
    Assoc(start, PrintFields(before), PrintField(f));
  }

  lemma {:induction false} PrintPrefix(done: seq<Field>, fs: seq<Field>, j: nat, start: Bytes)
    requires j <= |fs|
    ensures start + PrintFields(done + fs[..j]) <= start + PrintFields(done + fs)
  {
    assert done + fs == (done + fs[..j]) + fs[j..];
    hide PrintFields;
    PrintAppend(done + fs[..j], fs[j..]);
    Assoc(start, PrintFields(done + fs[..j]), PrintFields(fs[j..]));
  }

  /** The inner loop: all values of one name, each cleaned on the way. */
  method WriteValues(kv: KeyValues, w: Sink, ghost done: seq<Field>, ghost start: Bytes) returns (err: Error)
    requires w.Got(start + PrintFields(done))
    modifies w
    ensures w.Got(start + PrintFields(done + FieldsOf(kv))) && (err != Error.Nil ==> w.broken)
  {
    hide *;
    var j := 0;
    assert done + FieldsOf(kv)[..0] == done;
    while j < |kv.values|
      invariant 0 <= j <= |kv.values|
      invariant w.Got(start + PrintFields(done + FieldsOf(kv)[..j]))
    {
      PrintNext(done, kv, j, start);
      err := WriteField(w, Field(kv.key, Sanitize(kv.values[j])), start + PrintFields(done + FieldsOf(kv)[..j]));
      if err != Error.Nil {
        PrintPrefix(done, FieldsOf(kv), j + 1, start);
        BrokenGot(w, start + PrintFields(done + FieldsOf(kv)[..j + 1]), start + PrintFields(done + FieldsOf(kv)));
        return;
      }
      j := j + 1;
    }
    assert FieldsOf(kv)[..j] == FieldsOf(kv);
    err := Error.Nil;
  }

  lemma {:induction false} FlattenAppend(a: seq<KeyValues>, b: seq<KeyValues>)
    ensures Flatten(a + b) == Flatten(a) + Flatten(b)
  {
    hide FieldsOf;
    if b == [] {
      assert a + b == a;
    } else {
      FlattenAppend(a, b[..|b| - 1]);
      assert (a + b)[..|a + b| - 1] == a + b[..|b| - 1];
    }
  }

  lemma {:induction false} FlattenPrefix(kvs: seq<KeyValues>, i: nat, start: Bytes)
    requires i <= |kvs|
    ensures start + PrintFields(Flatten(kvs[..i])) <= start + PrintFields(Flatten(kvs))
  {
    assert kvs == kvs[..i] + kvs[i..];
    hide Flatten, PrintFields;
    FlattenAppend(kvs[..i], kvs[i..]);
    PrintAppend(Flatten(kvs[..i]), Flatten(kvs[i..]));
    Assoc(start, PrintFields(Flatten(kvs[..i])), PrintFields(Flatten(kvs[i..])));
  }

  lemma {:induction false} FlattenSnoc(kvs: seq<KeyValues>, i: nat)
    requires i < |kvs|
    ensures Flatten(kvs[..i + 1]) == Flatten(kvs[..i]) + FieldsOf(kvs[i])
  {
    assert kvs[..i + 1][..i] == kvs[..i];
  }

  lemma {:induction false} FlattenNone(start: Bytes)
    ensures start + PrintFields(Flatten([])) == start
  {
  }

  /** Writes every value of every name not excluded. */
  method WriteSubset(h: Fields, exclude: set<string>, w: Sink, ghost all: Bytes)
    returns (err: Error, ghost kvs: seq<KeyValues>)
    requires w.Got(all)
    modifies w
    ensures Listing(kvs, h, h.Keys - exclude)
    ensures w.Got(all + PrintFields(Flatten(kvs))) && (err != Error.Nil ==> w.broken)
  {
    hide *;
    var todo := SortedKeyValues(h, exclude);
    kvs := todo;
    var i := 0;
    assert todo[..0] == [];
    FlattenNone(all);
    while i < |todo|
      invariant 0 <= i <= |todo|
      invariant w.Got(all + PrintFields(Flatten(todo[..i])))
    {
      FlattenSnoc(todo, i);
      err := WriteValues(todo[i], w, Flatten(todo[..i]), all);
      if err != Error.Nil {
        FlattenPrefix(todo, i + 1, all);
        BrokenGot(w, all + PrintFields(Flatten(todo[..i + 1])), all + PrintFields(Flatten(todo)));
        return;
      }
      i := i + 1;
    }
    assert todo[..i] == todo;
    err := Error.Nil;
  }

  // ---- What is printed ----

  /** `a` comes first: it is the start of `b`, or smaller where they first differ. */
  lemma {:induction false} LessMeans(a: string, b: string)
    ensures Less(a, b) <==>
              (|a| < |b| && a <= b)
              || (exists i :: 0 <= i < |a| && i < |b| && a[..i] == b[..i] && a[i] < b[i])
  {
    if a != "" && b != "" {
      LessMeans(a[1..], b[1..]);
      assert a == [a[0]] + a[1..] && b == [b[0]] + b[1..];
      if a[0] < b[0] {
        assert a[..0] == b[..0];
      }
      if i :| 0 <= i < |a[1..]| && i < |b[1..]| && a[1..][..i] == b[1..][..i] && a[1..][i] < b[1..][i] {
        if a[0] == b[0] {
          assert a[..i + 1] == [a[0]] + a[1..][..i] && b[..i + 1] == [b[0]] + b[1..][..i];
        }
      }
      if i :| 0 <= i < |a| && i < |b| && a[..i] == b[..i] && a[i] < b[i] {
        if i > 0 {
          assert a[0] == a[..i][0] == b[..i][0] == b[0];
          assert a[1..][..i - 1] == a[..i][1..] && b[1..][..i - 1] == b[..i][1..];
        }
      }
    }
  }

  /** A name, a colon, a blank, what is kept of the value, and a line break. */
  ghost predicate FieldLine(line: Bytes, k: string, v: string) {
    exists r :: Kept(v, r) && line == k + ": " + r + "\r\n"
  }

  /** One such line for each value, in order. */
  ghost predicate FieldLines(text: Bytes, kv: KeyValues) {
    exists lines :: text == Concat(lines) && LinesOf(lines, kv)
  }

  ghost predicate LinesOf(lines: seq<Bytes>, kv: KeyValues) {
    |lines| == |kv.values| && forall i :: 0 <= i < |lines| ==> FieldLine(lines[i], kv.key, kv.values[i])
  }

  lemma {:induction false} PrintMeans1(kv: KeyValues, j: nat) returns (lines: seq<Bytes>)
    requires j <= |kv.values|
    ensures PrintFields(FieldsOf(kv)[..j]) == Concat(lines) && |lines| == j
    ensures forall i :: 0 <= i < j ==> FieldLine(lines[i], kv.key, kv.values[i])
  {
    hide Sanitize, KeptAt, PrintField;
    if j == 0 {
      lines := [];
    } else {
      var front := PrintMeans1(kv, j - 1);
      var v := kv.values[j - 1];
      var n := SanitizeKeeps(v);
      var f := Field(kv.key, Sanitize(v));
      assert FieldsOf(kv)[..j] == FieldsOf(kv)[..j - 1] + [f];
      PrintSnoc(FieldsOf(kv)[..j - 1], f);
      ConcatSnoc(front, PrintField(f));
      FieldLineIs(f, v, n);
      lines := front + [PrintField(f)];
    }
  }

  lemma {:induction false} FieldLineIs(f: Field, v: string, n: nat)
    requires KeptAt(v, f.value, n)
    ensures FieldLine(PrintField(f), f.name, v)
  {
    hide KeptAt;
  }

  lemma {:induction false} PrintOne(kv: KeyValues) returns (text: Bytes)
    ensures text == PrintFields(FieldsOf(kv)) && FieldLines(text, kv)
  {
    hide FieldLine, PrintField;
    var lines := PrintMeans1(kv, |kv.values|);
    assert FieldsOf(kv)[..|kv.values|] == FieldsOf(kv);
    assert LinesOf(lines, kv);
    text := Concat(lines);
  }

  /** What is printed is one such stretch for each name, in the order of the listing. */
  lemma {:induction false} PrintMeans(kvs: seq<KeyValues>) returns (texts: seq<Bytes>)
    ensures PrintFields(Flatten(kvs)) == Concat(texts) && |texts| == |kvs|
    ensures forall j :: 0 <= j < |kvs| ==> FieldLines(texts[j], kvs[j])
  {
    hide FieldLine, PrintField;
    if kvs == [] {
      texts := [];
    } else {
      var n := |kvs| - 1;
      var front := PrintMeans(kvs[..n]);
      var text := PrintOne(kvs[n]);
      PrintAppend(Flatten(kvs[..n]), FieldsOf(kvs[n]));
      hide FieldLines, PrintFields, Concat;
      ConcatSnoc(front, text);
      texts := front + [text];
    }
  }
}
