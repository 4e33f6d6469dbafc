/** What a line is, independent of buffers and chunks. */
module Lines {
  import opened Bytes

  /** Drops a final "\n" or "\r\n". */
  function DropBreak(line: Bytes): (r: Bytes)
    requires line != []
    ensures r <= line && (line[|line| - 1] != '\n' ==> r == line)
  {
    if line[|line| - 1] != '\n' then line
    else if |line| > 1 && line[|line| - 2] == '\r' then line[..|line| - 2]
    else line[..|line| - 1]
  }

  predicate EndsLine(raw: Bytes) {
    raw != [] && raw[|raw| - 1] == '\n' && '\n' !in raw[..|raw| - 1]
  }

  /** The first line of a stream that has one, with its break. */
  function FirstLine(s: Bytes): (line: Bytes)
    requires '\n' in s
    ensures EndsLine(line) && line <= s
  {
    s[..IndexByte(s, '\n') + 1]
  }

  function AfterLine(s: Bytes): (rest: Bytes)
    requires '\n' in s
    ensures s == FirstLine(s) + rest && |rest| < |s|
  {
    s[IndexByte(s, '\n') + 1..]
  }

  lemma {:induction false} FirstLineIs(raw: Bytes, rest: Bytes)
    requires EndsLine(raw)
    ensures '\n' in raw + rest && FirstLine(raw + rest) == raw && AfterLine(raw + rest) == rest
  {
    assert (raw + rest)[..|raw| - 1] == raw[..|raw| - 1];
    assert (raw + rest)[|raw| - 1] == '\n';
    IndexIs(raw + rest, '\n', |raw| - 1);
  }

  lemma {:induction false} FirstLineAppend(s: Bytes, t: Bytes)
    requires '\n' in s
    ensures '\n' in s + t && FirstLine(s + t) == FirstLine(s) && AfterLine(s + t) == AfterLine(s) + t
  {
    FirstLineIs(FirstLine(s), AfterLine(s) + t);
    Assoc(FirstLine(s), AfterLine(s), t);
  }

  const CRLF := "\r\n"

  lemma {:induction false} LineOfLF(c: Bytes, rest: Bytes)
    requires '\n' !in c && c != [] && c[|c| - 1] != '\r'
    ensures var s := c + ['\n'] + rest;
            '\n' in s && DropBreak(FirstLine(s)) == c && AfterLine(s) == rest && s[0] == c[0]
  {
    var line := c + ['\n'];
    assert line[..|line| - 1] == c;
    FirstLineIs(line, rest);
  }

  lemma {:induction false} LineOfCRLF(c: Bytes, rest: Bytes)
    requires '\n' !in c
    ensures var s := c + CRLF + rest;
            '\n' in s && FirstLine(s) == c + CRLF && DropBreak(FirstLine(s)) == c && AfterLine(s) == rest
  {
    var line := c + CRLF;
    assert line[..|line| - 1] == c + ['\r'] && line[..|line| - 2] == c;
    FirstLineIs(line, rest);
  }

  /** How much of a stream without a nearby line break one full buffer yields; a
      final '\r' waits for its possible '\n'. */
  function PieceLen(s: Bytes, size: nat): (n: nat)
    requires size <= |s|
    ensures n <= size
  {
    if size > 0 && s[size - 1] == '\r' then size - 1 else size
  }

  /** Whether an unterminated last line comes out as an error: it does when it
      is cut into full buffers with nothing left over. */
  predicate Lost(s: Bytes, size: nat)
    requires size >= 2
    decreases |s|
  {
    if |s| < size then s == [] else Lost(s[PieceLen(s, size)..], size)
  }
}
