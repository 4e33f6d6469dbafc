/** Header blocks as anybody may lay them out, and what is parsed of them
    (proto/text/reader.go:149-222). */
module HeaderLayout {
  import opened Bytes
  import opened Net
  import opened Lines
  import opened HeaderSpec

  /** A header line: its name, spaces behind it, the colon, blanks, the value with
      whatever ends it, and either kind of line break. */
  datatype Line = Line(name: string, gap: nat, lead: string, value: string, crlf: bool) {
    function Bare(): Bytes {
      name + Spaces(gap) + [':'] + lead + value
    }

    function Text(): Bytes {
      Bare() + if crlf then "\r\n" else "\n"
    }

    /** The parts are told apart by this and nothing else. */
    predicate Ok() {
      && name != "" && ':' !in name && '\n' !in name && name[|name| - 1] != ' '
      && (forall i :: 0 <= i < |lead| ==> lead[i] == ' ' || lead[i] == '\t')
      && '\n' !in value && (value != "" ==> value[0] != ' ' && value[0] != '\t')
      && (!crlf ==> Bare()[|Bare()| - 1] != '\r')
    }
  }

  function Spaces(n: nat): (s: string)
    ensures |s| == n && forall i :: 0 <= i < n ==> s[i] == ' '
  {
    seq(n, _ => ' ')
  }

  lemma {:induction false} DropsSpaces(name: string, n: nat)
    requires name == "" || name[|name| - 1] != ' '
    ensures DropSpaces(name + Spaces(n)) == name
  {
    var s := name + Spaces(n);
    if n > 0 {
      DropsSpaces(name, n - 1);
      assert s[..|s| - 1] == name + Spaces(n - 1);
    } else {
      assert s == name;
    }
  }

  lemma {:induction false} SkipsBlanks(lead: string, value: string)
    requires forall i :: 0 <= i < |lead| ==> lead[i] == ' ' || lead[i] == '\t'
    requires value != "" ==> value[0] != ' ' && value[0] != '\t'
    ensures SkipBlanks(lead + value) == value
  {
    if lead != "" {
      SkipsBlanks(lead[1..], value);
      assert (lead + value)[1..] == lead[1..] + value;
    } else {
      assert lead + value == value;
    }
  }

  /** A name with spaces behind it, a colon and the rest are told apart. */
  lemma {:induction false} TellsApart(name: string, gap: nat, lead: string, value: string)
    requires ':' !in name && '\n' !in name && (name == "" || name[|name| - 1] != ' ')
    requires forall i :: 0 <= i < |lead| ==> lead[i] == ' ' || lead[i] == '\t'
    requires '\n' !in value && (value != "" ==> value[0] != ' ' && value[0] != '\t')
    ensures var kv := name + Spaces(gap) + [':'] + lead + value;
            '\n' !in kv && ':' in kv && NameOf(kv) == name && ValueOf(kv) == value
  {
    hide DropSpaces, SkipBlanks;
    var front := name + Spaces(gap);
    var kv := front + [':'] + lead + value;
    assert kv[..|front|] == front && kv[|front|] == ':' && kv[|front| + 1..] == lead + value;
    IndexIs(kv, ':', |front|);
    DropsSpaces(name, gap);
    SkipsBlanks(lead, value);
  }

  lemma {:induction false} EndsIn(kv: Bytes, crlf: bool, rest: Bytes)
    requires '\n' !in kv && kv != [] && (!crlf ==> kv[|kv| - 1] != '\r')
    ensures var s := kv + (if crlf then "\r\n" else "\n") + rest;
            '\n' in s && DropBreak(FirstLine(s)) == kv && AfterLine(s) == rest && s[0] == kv[0]
  {
    if crlf {
      LineOfCRLF(kv, rest);
    } else {
      LineOfLF(kv, rest);
    }
  }

  /** One such line gives one field. */
  lemma {:induction false} OneLine(l: Line, rest: Bytes, size: nat, fin: Error, acc: seq<Field>)
    requires l.Ok() && size >= 2
    ensures ParseLines(l.Text() + rest, size, fin, acc) == ParseLines(rest, size, fin, acc + [Field(l.name, l.value)])
  {
    TellsApart(l.name, l.gap, l.lead, l.value);
    EndsIn(l.Bare(), l.crlf, rest);
    hide NameOf, ValueOf, DropBreak, FirstLine, AfterLine, Lost;
  }

  function Texts(ls: seq<Line>): Bytes {
    if ls == [] then [] else ls[0].Text() + Texts(ls[1..])
  }

  function Named(ls: seq<Line>): (fs: seq<Field>)
    ensures |fs| == |ls| && forall i :: 0 <= i < |ls| ==> fs[i] == Field(ls[i].name, ls[i].value)
  {
    seq(|ls|, i requires 0 <= i < |ls| => Field(ls[i].name, ls[i].value))
  }

  predicate AllOk(ls: seq<Line>) {
    forall i :: 0 <= i < |ls| ==> ls[i].Ok()
  }

  lemma {:induction false} AllLines(ls: seq<Line>, rest: Bytes, size: nat, fin: Error, acc: seq<Field>)
    requires AllOk(ls) && size >= 2
    ensures ParseLines(Texts(ls) + rest, size, fin, acc) == ParseLines(rest, size, fin, acc + Named(ls))
  {
    hide Line.Text, Line.Ok, ParseLines;
    if ls == [] {
      assert Texts(ls) + rest == rest && acc + Named(ls) == acc;
    } else {
      AllLines(ls[1..], rest, size, fin, acc + [Field(ls[0].name, ls[0].value)]);
      OneLine(ls[0], Texts(ls[1..]) + rest, size, fin, acc);
      Assoc(ls[0].Text(), Texts(ls[1..]), rest);
      assert acc + [Field(ls[0].name, ls[0].value)] + Named(ls[1..]) == acc + Named(ls);
    }
  }

  lemma {:induction false} EmptyLine(crlf: bool, rest: Bytes, size: nat, fin: Error, acc: seq<Field>)
    requires size >= 2
    ensures ParseLines((if crlf then "\r\n" else "\n") + rest, size, fin, acc) == Parsed(acc, Fine, rest)
  {
    if crlf {
      LineOfCRLF([], rest);
      assert [] + CRLF + rest == CRLF + rest;
    } else {
      FirstLineIs("\n", rest);
    }
  }

  lemma {:induction false} TextsStart(ls: seq<Line>, rest: Bytes)
    requires ls != [] && ls[0].Ok()
    ensures Texts(ls) + rest != [] && (Texts(ls) + rest)[0] == ls[0].name[0]
  {
    assert ls[0].Bare()[0] == ls[0].name[0];
  }

  /** However they are laid out, such lines up to an empty one are read as their names and
      values in order, and exactly what stands behind the empty line is left; unless the
      first starts with a blank: then it is refused as a whole line. */
  lemma {:induction false} BlockMeans(ls: seq<Line>, crlf: bool, rest: Bytes, size: nat, fin: Error)
    requires AllOk(ls) && size >= 2
    ensures var s := Texts(ls) + ((if crlf then "\r\n" else "\n") + rest);
            if ls != [] && (ls[0].name[0] == ' ' || ls[0].name[0] == '\t') then
              ParseHeader(s, size, fin).err == BadInitial(ls[0].Text()) && ParseHeader(s, size, fin).fields == []
            else ParseHeader(s, size, fin) == Parsed(Named(ls), Fine, rest)
  {
    hide ParseLines, ParseHeader, Texts, Line.Text, Line.Ok, Named, FirstLine, AfterLine;
    var end := (if crlf then "\r\n" else "\n") + rest;
    HeaderIs(Texts(ls) + end, size, fin);
    if ls != [] {
      TextsStart(ls, end);
      FirstOfAll(ls, end);
    } else {
      NoTexts(end);
    }
    AllLines(ls, end, size, fin, []);
    EmptyLine(crlf, rest, size, fin, [] + Named(ls));
    assert [] + Named(ls) == Named(ls);
  }

  lemma {:induction false} HeaderIs(s: Bytes, size: nat, fin: Error)
    requires size >= 2
    ensures s == [] || (s[0] != ' ' && s[0] != '\t') ==> ParseHeader(s, size, fin) == ParseLines(s, size, fin, [])
    ensures s != [] && (s[0] == ' ' || s[0] == '\t') && '\n' in s ==>
              ParseHeader(s, size, fin) == Parsed([], BadInitial(FirstLine(s)), AfterLine(s))
  {
    hide ParseLines;
  }

  lemma {:induction false} NoTexts(end: Bytes)
    ensures Texts([]) + end == end
  {
  }

  lemma {:induction false} FirstOfAll(ls: seq<Line>, end: Bytes)
    requires ls != [] && ls[0].Ok()
    ensures '\n' in Texts(ls) + end && FirstLine(Texts(ls) + end) == ls[0].Text()
  {
    hide Line.Text, Line.Ok, FirstLine;
    Assoc(ls[0].Text(), Texts(ls[1..]), end);
    FirstText(ls[0], Texts(ls[1..]) + end);
  }

  lemma {:induction false} FirstText(l: Line, rest: Bytes)
    requires l.Ok()
    ensures '\n' in l.Text() + rest && FirstLine(l.Text() + rest) == l.Text()
  {
    TellsApart(l.name, l.gap, l.lead, l.value);
    hide Spaces;
    FirstLineIs(l.Text(), rest);
  }

  /** Behind such lines one without a colon stops the parser with that line as its error. */
  lemma {:induction false} NoColon(ls: seq<Line>, t: Bytes, crlf: bool, rest: Bytes, size: nat, fin: Error)
    requires AllOk(ls) && size >= 2 && '\n' !in t && t != [] && t[|t| - 1] != '\r' && ':' !in t
    ensures ParseLines(Texts(ls) + (t + (if crlf then "\r\n" else "\n") + rest), size, fin, []) == Parsed(Named(ls), BadLine(t), rest)
  {
    hide Texts, Named, DropBreak, FirstLine, AfterLine, Lost;
    var s := t + (if crlf then "\r\n" else "\n") + rest;
    AllLines(ls, s, size, fin, []);
    assert [] + Named(ls) == Named(ls);
    EndsIn(t, crlf, rest);
    assert ParseLines(s, size, fin, Named(ls)) == Parsed(Named(ls), BadLine(t), rest);
    hide ParseLines;
  }

  /** One without a name is skipped. */
  lemma {:induction false} NoName(ls: seq<Line>, gap: nat, lead: string, value: string, rest: Bytes, size: nat, fin: Error)
    requires AllOk(ls) && size >= 2 && '\n' !in value && (value != "" ==> value[0] != ' ' && value[0] != '\t')
    requires forall i :: 0 <= i < |lead| ==> lead[i] == ' ' || lead[i] == '\t'
    ensures ParseLines(Texts(ls) + ("" + Spaces(gap) + [':'] + lead + value + "\r\n" + rest), size, fin, [])
            == ParseLines(rest, size, fin, Named(ls))
  {
    hide Texts, Named, NameOf, ValueOf, DropBreak, FirstLine, AfterLine, Lost;
    var kv := "" + Spaces(gap) + [':'] + lead + value;
    AllLines(ls, kv + "\r\n" + rest, size, fin, []);
    assert [] + Named(ls) == Named(ls);
    TellsApart("", gap, lead, value);
    EndsIn(kv, true, rest);
    assert ParseLines(kv + "\r\n" + rest, size, fin, Named(ls)) == ParseLines(rest, size, fin, Named(ls));
    hide ParseLines;
  }

  /** A block that is cut off is never fine: behind its whole lines the source's error
      comes out with the fields so far, and with one more if an unterminated line that is
      not lost has a colon; if it has none, that line is the error. */
  lemma {:induction false} CutOff(ls: seq<Line>, t: Bytes, size: nat, fin: Error)
    requires AllOk(ls) && size >= 2 && '\n' !in t
    ensures ParseLines(Texts(ls) + t, size, fin, [])
            == if Lost(t, size) then Parsed(Named(ls), Io(fin), [])
               else if ':' in t then Parsed(AddLine(Named(ls), t), Io(fin), [])
               else Parsed(Named(ls), BadLine(t), [])
    ensures ParseLines(Texts(ls), size, fin, []) == Parsed(Named(ls), Io(fin), [])
  {
    hide Texts, Named, AddLine, DropBreak, FirstLine, AfterLine;
    AllLines(ls, t, size, fin, []);
    AllLines(ls, [], size, fin, []);
    assert Texts(ls) + [] == Texts(ls) && [] + Named(ls) == Named(ls);
    assert Lost([], size);
    hide Lost;
  }
}
