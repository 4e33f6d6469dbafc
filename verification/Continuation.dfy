/** Continuation lines: the comment on `ReadHeader` promises them (proto/text/reader.go:
    120-139), the code has none.  This says exactly when that makes a difference. */
module Continuation {
  import opened Bytes
  import opened Net
  import opened Lines
  import opened HeaderSpec
  import opened RoundTrip

  /** An indented line extends the value of the field it continues; one that continues
      a skipped line is skipped with it. */
  function Extend(fs: seq<Field>, named: bool, kv: Bytes): (r: seq<Field>)
    ensures |r| == |fs|
  {
    if !named || fs == [] then fs
    else
      var last := fs[|fs| - 1];
      fs[|fs| - 1 := Field(last.name, last.value + [' '] + SkipBlanks(kv))]
  }

  predicate IsNamed(kv: Bytes) {
    ':' in kv && NameOf(kv) != ""
  }

  /** The parse that is promised; `named` says whether the line before became a field. */
  function Promised(s: Bytes, size: nat, fin: Error, fs: seq<Field>, named: bool): Parsed
    requires size >= 2
    decreases |s|
  {
    if '\n' !in s then
      if !Lost(s, size) && StartsBlank(s) then Parsed(Extend(fs, named, s), Io(fin), [])
      else ParseLines(s, size, fin, fs)
    else
      var kv := DropBreak(FirstLine(s));
      if kv == [] then Parsed(fs, Fine, AfterLine(s))
      else if IsBlank(kv[0]) then Promised(AfterLine(s), size, fin, Extend(fs, named, kv), named)
      else if ':' !in kv then Parsed(fs, BadLine(kv), AfterLine(s))
      else Promised(AfterLine(s), size, fin, AddLine(fs, kv), IsNamed(kv))
  }

  function PromisedHeader(s: Bytes, size: nat, fin: Error): Parsed
    requires size >= 2
  {
    if StartsBlank(s) then HeaderSpec.ParseHeader(s, size, fin) else Promised(s, size, fin, [], false)
  }

  /** No line up to the end of the block is indented; but one without a name does no
      harm behind another one without a name, because both are skipped. */
  predicate Straight(s: Bytes, named: bool)
    decreases |s|
  {
    if '\n' !in s then true
    else
      var kv := DropBreak(FirstLine(s));
      if kv == [] then true
      else if IsBlank(kv[0]) then !named && ':' in kv && !IsNamed(kv) && Straight(AfterLine(s), named)
      else ':' in kv ==> Straight(AfterLine(s), IsNamed(kv))
  }

  lemma {:induction false} Agree(s: Bytes, size: nat, fin: Error, fs: seq<Field>, named: bool)
    requires size >= 2 && LinesEnd(s) && Straight(s, named)
    ensures Promised(s, size, fin, fs, named) == ParseLines(s, size, fin, fs)
    decreases |s|
  {
    if '\n' in s {
      var kv := DropBreak(FirstLine(s));
      if kv != [] && ':' in kv {
        Agree(AfterLine(s), size, fin, AddLine(fs, kv), if IsBlank(kv[0]) then named else IsNamed(kv));
      }
    }
  }

  // ---- Where they differ ----

  /** The code only ever adds fields. */
  lemma {:induction false} ParsedExtends(s: Bytes, size: nat, fin: Error, fs: seq<Field>)
    requires size >= 2
    ensures fs <= ParseLines(s, size, fin, fs).fields
    decreases |s|
  {
    if '\n' in s {
      var kv := DropBreak(FirstLine(s));
      if kv != [] && ':' in kv {
        ParsedExtends(AfterLine(s), size, fin, AddLine(fs, kv));
      }
    }
  }

  predicate Upright(f: Field) {
    f.name == "" || !IsBlank(f.name[0])
  }

  /** What later lines make of the fields so far: the last value may grow, and what is
      added does not start with a blank. */
  ghost predicate Grown(fs: seq<Field>, r: seq<Field>, named: bool) {
    && |fs| <= |r|
    && (forall i :: 0 <= i < |fs| ==> fs[i].name == r[i].name && fs[i].value <= r[i].value)
    && (forall i :: 0 <= i < |fs| && (i < |fs| - 1 || !named) ==> fs[i] == r[i])
    && (forall i :: |fs| <= i < |r| ==> Upright(r[i]))
  }

  lemma {:induction false} GrownExtend(fs: seq<Field>, named: bool, kv: Bytes, r: seq<Field>)
    requires Grown(Extend(fs, named, kv), r, named)
    ensures Grown(fs, r, named)
  {
    hide SkipBlanks;
    var e := Extend(fs, named, kv);
    forall i | 0 <= i < |fs|
      ensures fs[i].name == r[i].name && fs[i].value <= r[i].value
      ensures i < |fs| - 1 || !named ==> fs[i] == r[i]
    {
      assert fs[i].name == e[i].name && fs[i].value <= e[i].value;
    }
  }

  lemma {:induction false} GrownAdd(fs: seq<Field>, kv: Bytes, r: seq<Field>, named: bool)
    requires ':' in kv && !IsBlank(kv[0]) && Grown(AddLine(fs, kv), r, IsNamed(kv))
    ensures Grown(fs, r, named)
  {
    NameStart(kv);
    hide NameOf, ValueOf;
    var e := AddLine(fs, kv);
    forall i | 0 <= i < |fs|
      ensures fs[i] == r[i]
    {
      assert e[i] == fs[i];
    }
    forall i | |fs| <= i < |r|
      ensures Upright(r[i])
    {
      if i < |e| {
        assert e[i].name == r[i].name;
      }
    }
  }

  lemma {:induction false} NameStart(kv: Bytes)
    requires ':' in kv
    ensures NameOf(kv) != "" ==> NameOf(kv)[0] == kv[0]
  {
    DropSpacesEnds(kv[..IndexByte(kv, ':')]);
  }

  lemma {:induction false} PromisedGrows(s: Bytes, size: nat, fin: Error, fs: seq<Field>, named: bool)
    requires size >= 2
    ensures Grown(fs, Promised(s, size, fin, fs, named).fields, named)
    decreases |s|
  {
    hide AddLine, Extend, NameOf, ValueOf, SkipBlanks, Lost;
    var r := Promised(s, size, fin, fs, named).fields;
    if '\n' !in s {
      GrownSame(fs, named);
      if !Lost(s, size) && StartsBlank(s) {
        GrownSame(Extend(fs, named, s), named);
        GrownExtend(fs, named, s, r);
      } else if !Lost(s, size) && ':' in s {
        GrownSame(AddLine(fs, s), IsNamed(s));
        GrownAdd(fs, s, r, named);
      }
      return;
    }
    var kv := DropBreak(FirstLine(s));
    hide Grown;
    GrownSame(fs, named);
    if kv != [] && IsBlank(kv[0]) {
      PromisedGrows(AfterLine(s), size, fin, Extend(fs, named, kv), named);
      GrownExtend(fs, named, kv, r);
    } else if kv != [] && ':' in kv {
      PromisedGrows(AfterLine(s), size, fin, AddLine(fs, kv), IsNamed(kv));
      GrownAdd(fs, kv, r, named);
    }
  }

  lemma {:induction false} GrownSame(fs: seq<Field>, named: bool)
    ensures Grown(fs, fs, named)
  {
  }

  /** A promised parse that goes on takes at least a line more, or ends in another way. */
  lemma {:induction false} PromisedGoesOn(s: Bytes, size: nat, fin: Error, fs: seq<Field>, named: bool, kv: Bytes)
    requires size >= 2
    ensures var q := Promised(s, size, fin, fs, named); q.rest != s || q.err != BadLine(kv)
  {
    PromisedShrinks(s, size, fin, fs, named);
  }

  lemma {:induction false} PromisedShrinks(s: Bytes, size: nat, fin: Error, fs: seq<Field>, named: bool)
    requires size >= 2
    ensures var q := Promised(s, size, fin, fs, named); |q.rest| <= |s| && (s != [] ==> |q.rest| < |s|)
    decreases |s|
  {
    if '\n' in s {
      var kv := DropBreak(FirstLine(s));
      if kv != [] && IsBlank(kv[0]) {
        PromisedShrinks(AfterLine(s), size, fin, Extend(fs, named, kv), named);
      } else if kv != [] && ':' in kv {
        PromisedShrinks(AfterLine(s), size, fin, AddLine(fs, kv), IsNamed(kv));
      }
    }
  }

  /** The two steps at an indented line. */
  lemma {:induction false} IndentedStep(s: Bytes, size: nat, fin: Error, fs: seq<Field>, named: bool)
    requires size >= 2 && '\n' in s && StartsBlank(DropBreak(FirstLine(s)))
    ensures var kv, t := DropBreak(FirstLine(s)), AfterLine(s);
            && Promised(s, size, fin, fs, named) == Promised(t, size, fin, Extend(fs, named, kv), named)
            && ParseLines(s, size, fin, fs)
               == if ':' in kv then ParseLines(t, size, fin, AddLine(fs, kv)) else Parsed(fs, BadLine(kv), t)
  {
    hide Extend, AddLine;
  }

  lemma {:induction false} LongerValue(fs: seq<Field>, kv: Bytes, p: seq<Field>, q: seq<Field>)
    requires fs != [] && |p| >= |fs| && p[|fs| - 1] == fs[|fs| - 1] && Grown(Extend(fs, true, kv), q, true)
    ensures p != q
  {
    hide SkipBlanks;
    var i, e := |fs| - 1, Extend(fs, true, kv);
    assert |e[i].value| > |fs[i].value| && |q[i].value| >= |e[i].value|;
  }

  lemma {:induction false} OtherName(fs: seq<Field>, kv: Bytes, p: seq<Field>, q: seq<Field>)
    requires IsNamed(kv) && IsBlank(kv[0]) && |p| > |fs| && p[|fs|].name == NameOf(kv) && Grown(fs, q, false)
    ensures p != q
  {
    NameStart(kv);
    hide NameOf, ValueOf;
  }

  /** At the first indented line that is not skipped either way the two part for good. */
  lemma {:induction false} PartHere(s: Bytes, size: nat, fin: Error, fs: seq<Field>, named: bool)
    requires size >= 2 && '\n' in s && (named ==> fs != [])
    requires var kv := DropBreak(FirstLine(s)); StartsBlank(kv) && (named || ':' !in kv || IsNamed(kv))
    ensures Promised(s, size, fin, fs, named) != ParseLines(s, size, fin, fs)
  {
    hide Promised, ParseLines, DropBreak, FirstLine, AfterLine, Grown, NameOf, ValueOf, SkipBlanks, StartsBlank;
    IndentedStep(s, size, fin, fs, named);
    var kv, t := DropBreak(FirstLine(s)), AfterLine(s);
    var p, q := ParseLines(s, size, fin, fs), Promised(s, size, fin, fs, named);
    PromisedGrows(t, size, fin, Extend(fs, named, kv), named);
    if named {
      FieldsKept(s, size, fin, fs);
      LongerValue(fs, kv, p.fields, q.fields);
    } else if ':' !in kv {
      PromisedGoesOn(t, size, fin, fs, named, kv);
    } else {
      FieldsKept(t, size, fin, AddLine(fs, kv));
      IsBlankStart(kv);
      OtherName(fs, kv, p.fields, q.fields);
    }
  }

  lemma {:induction false} IsBlankStart(kv: Bytes)
    requires StartsBlank(kv)
    ensures kv != "" && IsBlank(kv[0])
  {
  }

  lemma {:induction false} FieldsKept(s: Bytes, size: nat, fin: Error, fs: seq<Field>)
    requires size >= 2
    ensures var p := ParseLines(s, size, fin, fs); |p.fields| >= |fs| && forall i :: 0 <= i < |fs| ==> p.fields[i] == fs[i]
  {
    ParsedExtends(s, size, fin, fs);
  }

  lemma {:induction false} Differ(s: Bytes, size: nat, fin: Error, fs: seq<Field>, named: bool)
    requires size >= 2 && LinesEnd(s) && !Straight(s, named) && (named ==> fs != [])
    ensures Promised(s, size, fin, fs, named) != ParseLines(s, size, fin, fs)
    decreases |s|
  {
    var kv := DropBreak(FirstLine(s));
    if IsBlank(kv[0]) && (named || ':' !in kv || IsNamed(kv)) {
      PartHere(s, size, fin, fs, named);
    } else if IsBlank(kv[0]) {
      Differ(AfterLine(s), size, fin, fs, named);
    } else {
      Differ(AfterLine(s), size, fin, AddLine(fs, kv), IsNamed(kv));
    }
  }

  /** The code reads a header block that ends as its comment promises exactly when the
      block has no continuation lines. */
  lemma {:induction false} PromiseKeptExactly(s: Bytes, size: nat, fin: Error)
    requires size >= 2 && BlockEnds(s)
    ensures HeaderSpec.ParseHeader(s, size, fin) == PromisedHeader(s, size, fin) <==> StartsBlank(s) || Straight(s, false)
  {
    if !StartsBlank(s) {
      if Straight(s, false) {
        Agree(s, size, fin, [], false);
      } else {
        Differ(s, size, fin, [], false);
      }
    }
  }

  // ---- The comment's own example ----

  function PrintLF(f: Field): Bytes {
    f.name + ": " + f.value + ['\n']
  }

  /** A field, one that is continued by an indented line, and another field. */
  function Continued(f: Field, g: Field, more: Bytes, h: Field, rest: Bytes): Bytes {
    PrintLF(f) + (PrintLF(g) + (more + ['\n'] + (PrintLF(h) + (CRLF + rest))))
  }

  /** A printable field that is neither indented nor ends in a carriage return. */
  predicate Simple(f: Field) {
    Printable(f) && !IsBlank(f.name[0]) && f.value != ""
  }

  lemma {:induction false} SimpleLine(f: Field, rest: Bytes, size: nat, fin: Error, fs: seq<Field>, named: bool)
    requires size >= 2 && Simple(f)
    ensures !StartsBlank(PrintLF(f) + rest)
    ensures ParseLines(PrintLF(f) + rest, size, fin, fs) == ParseLines(rest, size, fin, fs + [f])
    ensures Promised(PrintLF(f) + rest, size, fin, fs, named) == Promised(rest, size, fin, fs + [f], true)
  {
    var kv := f.name + ": " + f.value;
    SplitPrinted(f);
    assert kv[|kv| - 1] == f.value[|f.value| - 1];
    LineOfLF(kv, rest);
    assert kv[0] == f.name[0];
  }

  lemma {:induction false} MoreLine(more: Bytes, rest: Bytes, size: nat, fin: Error, fs: seq<Field>)
    requires size >= 2 && StartsBlank(more) && ':' !in more && '\n' !in more && more[|more| - 1] != '\r'
    ensures ParseLines(more + ['\n'] + rest, size, fin, fs) == Parsed(fs, BadLine(more), rest)
    ensures Promised(more + ['\n'] + rest, size, fin, fs, true) == Promised(rest, size, fin, Extend(fs, true, more), true)
  {
    LineOfLF(more, rest);
  }

  lemma {:induction false} EndLine(rest: Bytes, size: nat, fin: Error, fs: seq<Field>)
    requires size >= 2
    ensures Promised(CRLF + rest, size, fin, fs, true) == Parsed(fs, Fine, rest)
    ensures ParseLines(CRLF + rest, size, fin, fs) == Parsed(fs, Fine, rest)
  {
    LineOfCRLF([], rest);
    assert [] + CRLF + rest == CRLF + rest;
  }

  /** What is promised is one longer value; what the code makes of it is an error at the
      indented line, with everything behind it unread. */
  lemma {:induction false} ContinuedFails(f: Field, g: Field, more: Bytes, h: Field, rest: Bytes, size: nat, fin: Error)
    requires size >= 2 && Simple(f) && Simple(g) && Simple(h)
    requires StartsBlank(more) && ':' !in more && '\n' !in more && more[|more| - 1] != '\r'
    ensures var s := Continued(f, g, more, h, rest);
            && PromisedHeader(s, size, fin)
               == Parsed([f, Field(g.name, g.value + [' '] + SkipBlanks(more)), h], Fine, rest)
            && HeaderSpec.ParseHeader(s, size, fin) == Parsed([f, g], BadLine(more), PrintLF(h) + (CRLF + rest))
  {
    hide *;
    var s5 := CRLF + rest;
    var s4 := PrintLF(h) + s5;
    var s3 := more + ['\n'] + s4;
    var s2 := PrintLF(g) + s3;
    var long := Field(g.name, g.value + [' '] + SkipBlanks(more));
    ContinuedIs(f, g, more, h, rest);
    SimpleLine(f, s2, size, fin, [], false);
    NotRefused(PrintLF(f) + s2, size, fin);
    SimpleLine(g, s3, size, fin, [f], true);
    MoreLine(more, s4, size, fin, [f, g]);
    SimpleLine(h, s5, size, fin, [f, long], true);
    EndLine(rest, size, fin, [f, long, h]);
    assert [] + [f] == [f] && [f] + [g] == [f, g] && [f, long] + [h] == [f, long, h];
  }

  lemma {:induction false} ContinuedIs(f: Field, g: Field, more: Bytes, h: Field, rest: Bytes)
    ensures Continued(f, g, more, h, rest) == PrintLF(f) + (PrintLF(g) + (more + ['\n'] + (PrintLF(h) + (CRLF + rest))))
    ensures Extend([f, g], true, more) == [f, Field(g.name, g.value + [' '] + SkipBlanks(more))]
  {
    hide SkipBlanks, PrintLF;
  }

  lemma {:induction false} NotRefused(s: Bytes, size: nat, fin: Error)
    requires size >= 2 && !StartsBlank(s)
    ensures PromisedHeader(s, size, fin) == Promised(s, size, fin, [], false)
    ensures HeaderSpec.ParseHeader(s, size, fin) == ParseLines(s, size, fin, [])
  {
  }

  /** With a colon in it the indented line becomes a field of its own. */
  lemma {:induction false} ColonBecomesField(f: Field, more: Bytes, rest: Bytes, size: nat, fin: Error)
    requires size >= 2 && Simple(f)
    requires StartsBlank(more) && IsNamed(more) && '\n' !in more && more[|more| - 1] != '\r'
    ensures var s := PrintLF(f) + (more + ['\n'] + (CRLF + rest));
            && HeaderSpec.ParseHeader(s, size, fin) == Parsed([f, Field(NameOf(more), ValueOf(more))], Fine, rest)
            && PromisedHeader(s, size, fin) == Parsed([Field(f.name, f.value + [' '] + SkipBlanks(more))], Fine, rest)
  {
    hide *;
    NamedHasColon(more);
    var s3 := CRLF + rest;
    var s2 := more + ['\n'] + s3;
    var g, long := Field(NameOf(more), ValueOf(more)), Field(f.name, f.value + [' '] + SkipBlanks(more));
    ColonLine(more, s3, size, fin, [f]);
    NamedAdds(f, more);
    SimpleLine(f, s2, size, fin, [], false);
    NotRefused(PrintLF(f) + s2, size, fin);
    EndLine(rest, size, fin, [f, g]);
    EndLine(rest, size, fin, [long]);
    assert [] + [f] == [f] && [f] + [g] == [f, g];
  }

  lemma {:induction false} NamedHasColon(more: Bytes)
    requires IsNamed(more)
    ensures ':' in more
  {
  }

  lemma {:induction false} NamedAdds(f: Field, more: Bytes)
    requires IsNamed(more)
    ensures AddLine([f], more) == [f] + [Field(NameOf(more), ValueOf(more))]
    ensures Extend([f], true, more) == [Field(f.name, f.value + [' '] + SkipBlanks(more))]
  {
    hide NameOf, ValueOf, SkipBlanks;
  }

  lemma {:induction false} ColonLine(more: Bytes, rest: Bytes, size: nat, fin: Error, fs: seq<Field>)
    requires size >= 2 && StartsBlank(more) && ':' in more && '\n' !in more && more[|more| - 1] != '\r'
    ensures ParseLines(more + ['\n'] + rest, size, fin, fs) == ParseLines(rest, size, fin, AddLine(fs, more))
    ensures Promised(more + ['\n'] + rest, size, fin, fs, true) == Promised(rest, size, fin, Extend(fs, true, more), true)
  {
    LineOfLF(more, rest);
    hide AddLine, Extend;
  }

  const FIRST := Field("My-Key", "Value 1")
  const LONG := Field("Long-Key", "Even")
  const INDENT := "       "
  const TEXT := "Longer Value"
  const LAST := Field("My-Key", "Value 2")

  lemma {:induction false} FirstIsSimple()
    ensures Simple(FIRST)
  {
  }

  lemma {:induction false} LongIsSimple()
    ensures Simple(LONG)
  {
  }

  lemma {:induction false} LastIsSimple()
    ensures Simple(LAST)
  {
  }

  predicate AllBlank(s: Bytes) {
    forall i :: 0 <= i < |s| ==> IsBlank(s[i])
  }

  lemma {:induction false} SkipIndent(indent: Bytes, text: Bytes)
    requires AllBlank(indent) && text != "" && !IsBlank(text[0])
    ensures SkipBlanks(indent + text) == text
  {
    if indent == [] {
      assert indent + text == text;
    } else {
      SkipIndent(indent[1..], text);
      assert (indent + text)[1..] == indent[1..] + text;
    }
  }

  lemma {:induction false} TextIsPlain()
    ensures AllBlank(INDENT) && ':' !in INDENT && '\n' !in INDENT && INDENT != ""
    ensures ':' !in TEXT && '\n' !in TEXT && !IsBlank(TEXT[0]) && TEXT[|TEXT| - 1] != '\r'
  {
  }

  lemma {:induction false} IsIndented(indent: Bytes, text: Bytes)
    requires AllBlank(indent) && ':' !in indent && '\n' !in indent && indent != ""
    requires text != "" && ':' !in text && '\n' !in text && !IsBlank(text[0]) && text[|text| - 1] != '\r'
    ensures var more := indent + text;
            && StartsBlank(more) && ':' !in more && '\n' !in more && more[|more| - 1] != '\r'
            && SkipBlanks(more) == text
  {
    SkipIndent(indent, text);
    hide SkipBlanks;
  }

  /** The comment's three lines: two keys are promised, "Long-Key" with "Even Longer
      Value"; the code stops with an error at the third line. */
  lemma {:induction false} LongKeyFails(rest: Bytes, size: nat, fin: Error)
    requires size >= 2
    ensures var s := Continued(FIRST, LONG, INDENT + TEXT, LAST, rest);
            && PromisedHeader(s, size, fin)
               == Parsed([FIRST, Field("Long-Key", "Even" + [' '] + "Longer Value"), LAST], Fine, rest)
            && HeaderSpec.ParseHeader(s, size, fin) == Parsed([FIRST, LONG], BadLine(INDENT + TEXT), PrintLF(LAST) + (CRLF + rest))
  {
    hide Simple, Continued, SkipBlanks, PromisedHeader, HeaderSpec.ParseHeader, PrintLF, StartsBlank, AllBlank;
    FirstIsSimple();
    LongIsSimple();
    LastIsSimple();
    TextIsPlain();
    IsIndented(INDENT, TEXT);
    ContinuedFails(FIRST, LONG, INDENT + TEXT, LAST, rest, size, fin);
  }
}
