/** What a header block means, as a function of the stream alone. */
module HeaderSpec {
  import opened Bytes
  import opened Net
  import opened Lines
  import opened HeaderKeys
  import opened Slab

  type Fields = map<string, seq<string>>

  /** One header line: the name as it was written, and the value. */
  datatype Field = Field(name: string, value: string)

  datatype HeaderError = Fine | BadInitial(line: Bytes) | BadLine(line: Bytes) | Io(e: Error)

  datatype Parsed = Parsed(fields: seq<Field>, err: HeaderError, rest: Bytes)

  predicate IsBlank(c: char) { c == ' ' || c == '\t' }

  /** Blanks in front of a value do not count. */
  function SkipBlanks(s: Bytes): Bytes {
    if s != [] && IsBlank(s[0]) then SkipBlanks(s[1..]) else s
  }

  /** Spaces between a name and its colon do not count. */
  function DropSpaces(s: Bytes): Bytes {
    if s != [] && s[|s| - 1] == ' ' then DropSpaces(s[..|s| - 1]) else s
  }

  function NameOf(kv: Bytes): string
    requires ':' in kv
  {
    DropSpaces(kv[..IndexByte(kv, ':')])
  }

  function ValueOf(kv: Bytes): string
    requires ':' in kv
  {
    SkipBlanks(kv[IndexByte(kv, ':') + 1..])
  }

  /** A line with an empty name is skipped. */
  function AddLine(fs: seq<Field>, kv: Bytes): seq<Field>
    requires ':' in kv
  {
    if NameOf(kv) == "" then fs else fs + [Field(NameOf(kv), ValueOf(kv))]
  }

  /** The lines up to a blank one, a malformed one or the end of the source; an
      unterminated last line counts unless it is lost. */
  function ParseLines(s: Bytes, size: nat, fin: Error, fs: seq<Field>): Parsed
    requires size >= 2
    decreases |s|
  {
    if '\n' !in s then
      if Lost(s, size) then Parsed(fs, Io(fin), [])
      else if ':' !in s then Parsed(fs, BadLine(s), [])
      else Parsed(AddLine(fs, s), Io(fin), [])
    else
      var kv := DropBreak(FirstLine(s));
      if kv == [] then Parsed(fs, Fine, AfterLine(s))
      else if ':' !in kv then Parsed(fs, BadLine(kv), AfterLine(s))
      else ParseLines(AfterLine(s), size, fin, AddLine(fs, kv))
  }

  predicate StartsBlank(s: Bytes) {
    s != [] && IsBlank(s[0])
  }

  function ParseHeader(s: Bytes, size: nat, fin: Error): Parsed
    requires size >= 2
  {
    if !StartsBlank(s) then ParseLines(s, size, fin, [])
    else if '\n' in s then Parsed([], BadInitial(FirstLine(s)), AfterLine(s))
    else if Lost(s, size) then Parsed([], Io(fin), [])
    else Parsed([], BadInitial(s), [])
  }

  /** The parser stops inside `s`, at a blank or malformed line. */
  predicate LinesEnd(s: Bytes)
    decreases |s|
  {
    '\n' in s
    && var kv := DropBreak(FirstLine(s));
       kv == [] || ':' !in kv || LinesEnd(AfterLine(s))
  }

  predicate BlockEnds(s: Bytes) {
    if StartsBlank(s) then '\n' in s else LinesEnd(s)
  }

  /** A block that ends is parsed the same way whatever follows it, whatever the
      buffer length and the source's error. */
  lemma {:induction false} EndedLines(s: Bytes, t: Bytes, size: nat, fin: Error, size': nat, fin': Error, fs: seq<Field>)
    requires LinesEnd(s) && size >= 2 && size' >= 2
    ensures LinesEnd(s + t)
    ensures ParseLines(s + t, size, fin, fs)
            == var p := ParseLines(s, size', fin', fs); Parsed(p.fields, p.err, p.rest + t)
    decreases |s|
  {
    FirstLineAppend(s, t);
    var kv := DropBreak(FirstLine(s));
    if kv != [] && ':' in kv {
      EndedLines(AfterLine(s), t, size, fin, size', fin', AddLine(fs, kv));
    }
  }

  lemma {:induction false} EndedBlock(s: Bytes, t: Bytes, size: nat, fin: Error, size': nat, fin': Error)
    requires BlockEnds(s) && size >= 2 && size' >= 2
    ensures BlockEnds(s + t)
    ensures ParseHeader(s + t, size, fin)
            == var p := ParseHeader(s, size', fin'); Parsed(p.fields, p.err, p.rest + t)
  {
    assert s != [];
    assert (s + t)[0] == s[0];
    if StartsBlank(s) {
      FirstLineAppend(s, t);
    } else {
      EndedLines(s, t, size, fin, size', fin', []);
    }
  }

  /** A block that does not end eats into whatever follows it. */
  lemma {:induction false} OpenLines(s: Bytes, t: Bytes, size: nat, fin: Error, fs: seq<Field>)
    requires !LinesEnd(s) && size >= 2 && t != []
    ensures |ParseLines(s + t, size, fin, fs).rest| < |t|
    decreases |s|
  {
    if '\n' in s {
      FirstLineAppend(s, t);
      OpenLines(AfterLine(s), t, size, fin, AddLine(fs, DropBreak(FirstLine(s))));
    } else if '\n' in t {
      IndexSkip(s, t, '\n');
      RestShrinks(AfterLine(s + t), size, fin, fs);
      var kv := DropBreak(FirstLine(s + t));
      if kv != [] && ':' in kv {
        RestShrinks(AfterLine(s + t), size, fin, AddLine(fs, kv));
      }
    }
  }

  lemma {:induction false} OpenBlock(s: Bytes, t: Bytes, size: nat, fin: Error)
    requires !BlockEnds(s) && size >= 2 && t != []
    ensures |ParseHeader(s + t, size, fin).rest| < |t|
  {
    if StartsBlank(s + t) {
      if '\n' in s + t {
        assert s != [] ==> s[0] == (s + t)[0];
        if '\n' in t && '\n' !in s {
          IndexSkip(s, t, '\n');
        }
      }
    } else {
      assert s != [] ==> s[0] == (s + t)[0];
      OpenLines(s, t, size, fin, []);
    }
  }

  lemma {:induction false} RestShrinks(s: Bytes, size: nat, fin: Error, fs: seq<Field>)
    requires size >= 2
    ensures |ParseLines(s, size, fin, fs).rest| <= |s|
    decreases |s|
  {
    if '\n' in s {
      var kv := DropBreak(FirstLine(s));
      if kv != [] && ':' in kv {
        RestShrinks(AfterLine(s), size, fin, AddLine(fs, kv));
      }
    }
  }

  /** The map a header is read into: the values of every canonical name in the
      order they came. */
  function Collect(fs: seq<Field>): (m: Fields)
    ensures forall k :: k in m ==> m[k] != []
  {
    if fs == [] then map[]
    else
      var m := Collect(fs[..|fs| - 1]);
      var f := fs[|fs| - 1];
      m[Canonical(f.name) := Values(m, Canonical(f.name)) + [f.value]]
  }
}
