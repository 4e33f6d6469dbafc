/** Canonical header names, after proto/http/header.go.

    Only the names of a fixed table are rewritten; every other name is kept as it
    came, which is why two spellings collide exactly when the table knows them. */
module HeaderKeys {

  /** The names that are rewritten. */
  const COMMON_HEADER: set<string> :=
    COMMON_1 + COMMON_2 + COMMON_3 + COMMON_4 + COMMON_5 + COMMON_6 + COMMON_7
    + COMMON_8 + COMMON_9 + COMMON_10 + COMMON_11 + COMMON_12 + COMMON_13 + COMMON_14

  const COMMON_1: set<string> := {"Accept", "Accept-Charset", "Accept-Encoding"}
  const COMMON_2: set<string> := {"Accept-Language", "Accept-Ranges", "Cache-Control"}
  const COMMON_3: set<string> := {"Cc", "Connection", "Content-Id"}
  const COMMON_4: set<string> := {"Content-Language", "Content-Length"}
  const COMMON_5: set<string> := {"Content-Type", "Cookie", "Date"}
  const COMMON_6: set<string> := {"Dkim-Signature", "Etag", "Expires"}
  const COMMON_7: set<string> := {"From", "Host", "If-Modified-Since"}
  const COMMON_8: set<string> := {"If-None-Match", "In-Reply-To", "Last-Modified"}
  const COMMON_9: set<string> := {"Location", "Message-Id", "Mime-Version"}
  const COMMON_10: set<string> := {"Pragma", "Received", "Return-Path"}
  const COMMON_11: set<string> := {"Server", "Set-Cookie", "Subject"}
  const COMMON_12: set<string> := {"To", "User-Agent", "Via"}
  const COMMON_13: set<string> := {"X-Forwarded-For", "X-Imforwards", "X-Powered-By"}
  const COMMON_14: set<string> := {"Content-Transfer-Encoding"}

  predicate IsLower(c: char) { 'a' <= c <= 'z' }

  predicate IsUpper(c: char) { 'A' <= c <= 'Z' }

  function ToUpper(c: char): char {
    if IsLower(c) then c - 'a' + 'A' else c
  }

  function ToLower(c: char): char {
    if IsUpper(c) then c - 'A' + 'a' else c
  }

  /** The token characters of section 3.2.6 of RFC 7230. */
  predicate ValidHeaderFieldByte(c: char) {
    IsLower(c) || IsUpper(c) || '0' <= c <= '9'
    || c in {'!', '#', '$', '%', '&', '\'', '*', '+', '-', '.', '^', '_', '`', '|', '~'}
  }

  predicate IsToken(s: string) {
    forall i :: 0 <= i < |s| ==> ValidHeaderFieldByte(s[i])
  }

  /** Whether position `i` starts a word: the name itself or after a dash. */
  predicate StartsWord(s: string, i: nat)
    requires i < |s|
  {
    i == 0 || s[i - 1] == '-'
  }

  function TitleChar(s: string, i: nat): char
    requires i < |s|
  {
    if StartsWord(s, i) then ToUpper(s[i]) else ToLower(s[i])
  }

  function Title(s: string): (t: string)
    ensures |t| == |s| && forall i :: 0 <= i < |s| ==> t[i] == TitleChar(s, i)
  {
    seq(|s|, i requires 0 <= i < |s| => TitleChar(s, i))
  }

  /** The name under which `s` is stored. */
  function Canonical(s: string): string {
    if IsToken(s) && Title(s) in COMMON_HEADER then Title(s) else s
  }

  /** Equal up to ASCII letter case. */
  predicate SameFold(a: string, b: string) {
    |a| == |b| && forall i :: 0 <= i < |a| ==> ToLower(a[i]) == ToLower(b[i])
  }

  predicate InTitleCase(s: string) {
    IsToken(s) && forall i :: 0 <= i < |s| ==> if StartsWord(s, i) then !IsLower(s[i]) else !IsUpper(s[i])
  }

  /** A capital and then small letters. */
  predicate IsWord(w: string) {
    w != "" && IsUpper(w[0]) && forall i :: 1 <= i < |w| ==> IsLower(w[i])
  }

  lemma {:induction false} OneWord(w: string)
    requires IsWord(w)
    ensures InTitleCase(w)
  {
    forall i | 0 <= i < |w|
      ensures ValidHeaderFieldByte(w[i]) && if StartsWord(w, i) then !IsLower(w[i]) else !IsUpper(w[i])
    {
      assert i > 0 ==> w[i - 1] != '-';
    }
  }

  lemma {:induction false} Dashed(a: string, b: string)
    requires InTitleCase(a) && InTitleCase(b)
    ensures InTitleCase(a + "-" + b)
  {
    hide ValidHeaderFieldByte;
    var s := a + "-" + b;
    assert ValidHeaderFieldByte('-') by { DashIsValid(); }
    forall i | 0 <= i < |s|
      ensures ValidHeaderFieldByte(s[i]) && if StartsWord(s, i) then !IsLower(s[i]) else !IsUpper(s[i])
    {
      if i < |a| {
        assert s[i] == a[i] && StartsWord(s, i) == StartsWord(a, i);
      } else if i > |a| {
        var k := i - |a| - 1;
        assert s[i] == b[k] && StartsWord(s, i) == StartsWord(b, k);
      }
    }
  }

  lemma {:induction false} DashIsValid()
    ensures ValidHeaderFieldByte('-')
  {
  }

  lemma {:induction false} TwoWords(k: string, a: string, b: string)
    requires k == a + "-" + b && IsWord(a) && IsWord(b)
    ensures InTitleCase(k)
  {
    OneWord(a);
    OneWord(b);
    Dashed(a, b);
  }

  lemma {:induction false} ThreeWords(k: string, a: string, b: string, c: string)
    requires k == a + "-" + b + "-" + c && IsWord(a) && IsWord(b) && IsWord(c)
    ensures InTitleCase(k)
  {
    TwoWords(a + "-" + b, a, b);
    OneWord(c);
    Dashed(a + "-" + b, c);
  }

  lemma {:induction false} Table1(k: string)
    requires k in COMMON_1
    ensures InTitleCase(k)
  {
    hide InTitleCase;
    OneWord("Accept");
    TwoWords("Accept-Charset", "Accept", "Charset");
    TwoWords("Accept-Encoding", "Accept", "Encoding");
  }

  lemma {:induction false} Table2(k: string)
    requires k in COMMON_2
    ensures InTitleCase(k)
  {
    hide InTitleCase;
    TwoWords("Accept-Language", "Accept", "Language");
    TwoWords("Accept-Ranges", "Accept", "Ranges");
    TwoWords("Cache-Control", "Cache", "Control");
  }

  lemma {:induction false} Table3(k: string)
    requires k in COMMON_3
    ensures InTitleCase(k)
  {
    hide InTitleCase;
    OneWord("Cc");
    OneWord("Connection");
    TwoWords("Content-Id", "Content", "Id");
  }

  lemma {:induction false} Table4(k: string)
    requires k in COMMON_4
    ensures InTitleCase(k)
  {
    hide InTitleCase;
    TwoWords("Content-Language", "Content", "Language");
    TwoWords("Content-Length", "Content", "Length");
  }

  lemma {:induction false} Table5(k: string)
    requires k in COMMON_5
    ensures InTitleCase(k)
  {
    hide InTitleCase;
    TwoWords("Content-Type", "Content", "Type");
    OneWord("Cookie");
    OneWord("Date");
  }

  lemma {:induction false} Table6(k: string)
    requires k in COMMON_6
    ensures InTitleCase(k)
  {
    hide InTitleCase;
    TwoWords("Dkim-Signature", "Dkim", "Signature");
    OneWord("Etag");
    OneWord("Expires");
  }

  lemma {:induction false} Table7(k: string)
    requires k in COMMON_7
    ensures InTitleCase(k)
  {
    hide InTitleCase;
    OneWord("From");
    OneWord("Host");
    ThreeWords("If-Modified-Since", "If", "Modified", "Since");
  }

  lemma {:induction false} Table8(k: string)
    requires k in COMMON_8
    ensures InTitleCase(k)
  {
    hide InTitleCase;
    ThreeWords("If-None-Match", "If", "None", "Match");
    ThreeWords("In-Reply-To", "In", "Reply", "To");
    TwoWords("Last-Modified", "Last", "Modified");
  }

  lemma {:induction false} Table9(k: string)
    requires k in COMMON_9
    ensures InTitleCase(k)
  {
    hide InTitleCase;
    OneWord("Location");
    TwoWords("Message-Id", "Message", "Id");
    TwoWords("Mime-Version", "Mime", "Version");
  }

  lemma {:induction false} Table10(k: string)
    requires k in COMMON_10
    ensures InTitleCase(k)
  {
    hide InTitleCase;
    OneWord("Pragma");
    OneWord("Received");
    TwoWords("Return-Path", "Return", "Path");
  }

  lemma {:induction false} Table11(k: string)
    requires k in COMMON_11
    ensures InTitleCase(k)
  {
    hide InTitleCase;
    OneWord("Server");
    TwoWords("Set-Cookie", "Set", "Cookie");
    OneWord("Subject");
  }

  lemma {:induction false} Table12(k: string)
    requires k in COMMON_12
    ensures InTitleCase(k)
  {
    hide InTitleCase;
    OneWord("To");
    TwoWords("User-Agent", "User", "Agent");
    OneWord("Via");
  }

  lemma {:induction false} Table13(k: string)
    requires k in COMMON_13
    ensures InTitleCase(k)
  {
    hide InTitleCase;
    ThreeWords("X-Forwarded-For", "X", "Forwarded", "For");
    TwoWords("X-Imforwards", "X", "Imforwards");
    ThreeWords("X-Powered-By", "X", "Powered", "By");
  }

  lemma {:induction false} Table14(k: string)
    requires k in COMMON_14
    ensures InTitleCase(k)
  {
    hide InTitleCase;
    ThreeWords("Content-Transfer-Encoding", "Content", "Transfer", "Encoding");
  }

  /** Every name of the table is written the way it is looked up. */
  lemma {:induction false} TableInTitleCase(k: string)
    requires k in COMMON_HEADER
    ensures InTitleCase(k)
  {
    hide InTitleCase;
    if k in COMMON_1 { Table1(k); }
    else if k in COMMON_2 { Table2(k); }
    else if k in COMMON_3 { Table3(k); }
    else if k in COMMON_4 { Table4(k); }
    else if k in COMMON_5 { Table5(k); }
    else if k in COMMON_6 { Table6(k); }
    else if k in COMMON_7 { Table7(k); }
    else if k in COMMON_8 { Table8(k); }
    else if k in COMMON_9 { Table9(k); }
    else if k in COMMON_10 { Table10(k); }
    else if k in COMMON_11 { Table11(k); }
    else if k in COMMON_12 { Table12(k); }
    else if k in COMMON_13 { Table13(k); }
    else if k in COMMON_14 { Table14(k); }
  }

  lemma {:induction false} TitleFixed(s: string)
    requires InTitleCase(s)
    ensures Title(s) == s
  {
  }

  /** Changing case moves neither dashes nor tokens. */
  lemma {:induction false} TitleFolds(s: string)
    ensures SameFold(Title(s), s) && (IsToken(s) ==> InTitleCase(Title(s)))
  {
    forall i | 0 <= i < |s|
      ensures ToLower(TitleChar(s, i)) == ToLower(s[i])
      ensures if StartsWord(s, i) then !IsLower(TitleChar(s, i)) else !IsUpper(TitleChar(s, i))
      ensures StartsWord(Title(s), i) == StartsWord(s, i)
      ensures ValidHeaderFieldByte(s[i]) ==> ValidHeaderFieldByte(TitleChar(s, i))
    {
    }
  }

  lemma {:induction false} TitleOfFold(a: string, b: string)
    requires SameFold(a, b)
    ensures Title(a) == Title(b) && (IsToken(a) <==> IsToken(b))
  {
    forall i | 0 <= i < |a|
      ensures TitleChar(a, i) == TitleChar(b, i) && (ValidHeaderFieldByte(a[i]) <==> ValidHeaderFieldByte(b[i]))
    {
      FoldedChar(a[i], b[i]);
      if i > 0 {
        FoldedChar(a[i - 1], b[i - 1]);
      }
    }
  }

  lemma {:induction false} FoldedChar(c: char, d: char)
    requires ToLower(c) == ToLower(d)
    ensures ToUpper(c) == ToUpper(d) && (c == '-' <==> d == '-')
    ensures ValidHeaderFieldByte(c) <==> ValidHeaderFieldByte(d)
  {
  }

  lemma {:induction false} CanonicalFolds(s: string)
    ensures SameFold(Canonical(s), s)
  {
    TitleFolds(s);
  }

  /** A stored name is looked up as itself. */
  lemma {:induction false} CanonicalIdempotent(s: string)
    ensures Canonical(Canonical(s)) == Canonical(s)
  {
    TitleFolds(s);
    if IsToken(s) {
      TitleFixed(Title(s));
    }
  }

  /** Every spelling of a table name is that name. */
  lemma {:induction false} CanonicalOfVariant(s: string, k: string)
    requires k in COMMON_HEADER && SameFold(s, k)
    ensures Canonical(s) == k
  {
    TableInTitleCase(k);
    TitleFixed(k);
    TitleOfFold(s, k);
  }

  /** Names are case-insensitive exactly on the table. */
  lemma {:induction false} CanonicalCollides(a: string, b: string)
    ensures Canonical(a) == Canonical(b) <==> a == b || exists k :: k in COMMON_HEADER && SameFold(a, k) && SameFold(b, k)
  {
    if Canonical(a) == Canonical(b) && a != b {
      CanonicalFolds(a);
      CanonicalFolds(b);
      var k := Canonical(a);
      assert SameFold(a, k) && SameFold(b, k);
      TitleOfFold(a, b);
      assert k in COMMON_HEADER;
    }
    forall k | k in COMMON_HEADER && SameFold(a, k) && SameFold(b, k)
      ensures Canonical(a) == Canonical(b)
    {
      CanonicalOfVariant(a, k);
      CanonicalOfVariant(b, k);
    }
  }

  /** The conversion loop of the full canonicaliser. */
  method ConvertCase(a: string) returns (t: string)
    ensures t == Title(a)
  {
    var upper := true;
    var tmp := new char[|a|];
    for i := 0 to |a|
      invariant forall k :: 0 <= k < i ==> tmp[k] == TitleChar(a, k)
      invariant i < |a| ==> upper == StartsWord(a, i)
    {
      var c := a[i];
      if upper && IsLower(c) {
        c := c - 'a' + 'A';
      } else if !upper && IsUpper(c) {
        c := c - 'A' + 'a';
      }
      tmp[i] := c;
      upper := c == '-';
    }
    t := tmp[..];
  }

  method AllTokens(a: string) returns (ok: bool)
    ensures ok <==> IsToken(a)
  {
    for i := 0 to |a|
      invariant forall k :: 0 <= k < i ==> ValidHeaderFieldByte(a[k])
    {
      if !ValidHeaderFieldByte(a[i]) {
        return false;
      }
    }
    return true;
  }

  /** Looks at every byte, converts a copy, then asks the table. */
  method CanonicalFull(a: string) returns (r: string)
    ensures r == Canonical(a)
  {
    var ok := AllTokens(a);
    if !ok {
      return a;
    }
    var tmp := ConvertCase(a);
    r := if tmp in COMMON_HEADER then tmp else a;
  }

  /** The scan of the quick check: whether `s` can be returned as it is. */
  method Scan(s: string) returns (asIs: bool)
    ensures asIs ==> !IsToken(s) || InTitleCase(s)
  {
    hide ValidHeaderFieldByte;
    var upper := true;
    for i := 0 to |s|
      invariant i < |s| ==> upper == StartsWord(s, i)
      invariant forall k :: 0 <= k < i ==>
                  ValidHeaderFieldByte(s[k]) && if StartsWord(s, k) then !IsLower(s[k]) else !IsUpper(s[k])
    {
      var c := s[i];
      if !ValidHeaderFieldByte(c) {
        return true;
      }
      if upper && IsLower(c) {
        return false;
      }
      if !upper && IsUpper(c) {
        return false;
      }
      upper := c == '-';
    }
    return true;
  }

  /** The quick check in front of it changes nothing about the result. */
  method CanonicalMIMEHeaderKey(s: string) returns (r: string)
    ensures r == Canonical(s)
  {
    var asIs := Scan(s);
    if asIs {
      if IsToken(s) {
        TitleFixed(s);
      }
      return s;
    }
    r := CanonicalFull(s);
  }
}
