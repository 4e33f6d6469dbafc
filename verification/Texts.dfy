/** The parts of Go's `strings` and `strconv` that the proxy leans on, over ASCII. */
module Texts {

  predicate IsAsciiSpace(c: char) {
    c == ' ' || c == '\t' || c == '\n' || c == '\r' || c == 11 as char || c == 12 as char
  }

  function TrimSpace(s: string): string
    decreases |s|
  {
    if s != [] && IsAsciiSpace(s[0]) then TrimSpace(s[1..])
    else if s != [] && IsAsciiSpace(s[|s| - 1]) then TrimSpace(s[..|s| - 1])
    else s
  }

  predicate AllDigits(s: string) {
    forall i :: 0 <= i < |s| ==> '0' <= s[i] <= '9'
  }

  function Decimal(s: string): nat
    requires AllDigits(s)
  {
    if s == [] then 0 else 10 * Decimal(s[..|s| - 1]) + (s[|s| - 1] as int - '0' as int)
  }

  function DigitOf(k: nat): char
    requires k < 10
  {
    "0123456789"[k]
  }

  lemma {:induction false} DigitMeans(k: nat)
    requires k < 10
    ensures '0' <= DigitOf(k) <= '9' && DigitOf(k) as int == '0' as int + k
  {
  }

  /** A number as it is written. */
  function Digits(n: nat): (s: string)
    ensures s != ""
  {
    (if n < 10 then "" else Digits(n / 10)) + [DigitOf(n % 10)]
  }

  lemma {:induction false} DecimalSnoc(s: string, k: nat)
    requires AllDigits(s) && k < 10
    ensures AllDigits(s + [DigitOf(k)]) && Decimal(s + [DigitOf(k)]) == 10 * Decimal(s) + k
  {
    DigitMeans(k);
    assert (s + [DigitOf(k)])[..|s|] == s;
    hide DigitOf;
  }

  /** And read. */
  lemma {:induction false} DigitsMean(n: nat)
    ensures AllDigits(Digits(n)) && Decimal(Digits(n)) == n
  {
    hide Decimal, DigitOf, AllDigits;
    NoDigits();
    if n >= 10 {
      DigitsMean(n / 10);
      DecimalSnoc(Digits(n / 10), n % 10);
    } else {
      DecimalSnoc("", n);
    }
  }

  lemma {:induction false} NoDigits()
    ensures AllDigits("") && Decimal("") == 0
  {
  }

  const MAX_INT64 := 0x7fff_ffff_ffff_ffff

  datatype Number = NoInt | Int(n: int)

  /** `strconv.Atoi`, and `ParseInt` in base ten: an optional sign, digits, a value
      of 64 bits. */
  function Atoi(s: string): (r: Number)
    ensures r.Int? ==> -MAX_INT64 - 1 <= r.n <= MAX_INT64
  {
    if s == "" then NoInt
    else
      var digits := if s[0] == '-' || s[0] == '+' then s[1..] else s;
      if digits == "" || !AllDigits(digits) then NoInt
      else if s[0] == '-' then
        var n: int := Decimal(digits);
        if n > MAX_INT64 + 1 then NoInt else Int(-n)
      else if Decimal(digits) > MAX_INT64 then NoInt
      else Int(Decimal(digits))
  }

  /** Whether `t` occurs in `s`. */
  predicate Contains(s: string, t: string) {
    t <= s || (s != "" && Contains(s[1..], t))
  }

  /** The pieces of `s` between occurrences of a non-empty separator. */
  function Split(s: string, sep: string): (r: seq<string>)
    requires sep != ""
    ensures r != []
  {
    SplitFrom(s, sep, "")
  }

  function SplitFrom(s: string, sep: string, piece: string): (r: seq<string>)
    requires sep != ""
    ensures r != []
  {
    if s == "" then [piece]
    else if sep <= s then [piece] + SplitFrom(s[|sep|..], sep, "")
    else SplitFrom(s[1..], sep, piece + [s[0]])
  }

  function GetString(val: string, def: string, def2: string): string {
    if val != "" then val else if def != "" then def else def2
  }
}
