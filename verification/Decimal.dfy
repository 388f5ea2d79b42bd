/** Printing and reading integers in decimal, as Python's `str` and `int` do. */
module Decimal {
  import opened Wrappers

  predicate IsDigit(c: char) {
    '0' <= c <= '9'
  }

  predicate AllDigits(s: string) {
    forall i | 0 <= i < |s| :: IsDigit(s[i])
  }

  function DigitValue(c: char): (d: nat)
    requires IsDigit(c)
    ensures d < 10
  {
    c as int - '0' as int
  }

  function DigitChar(d: nat): (c: char)
    requires d < 10
    ensures IsDigit(c) && DigitValue(c) == d
  {
    '0' + d as char
  }

  function Print(n: nat): (s: string)
    ensures s != "" && AllDigits(s)
  {
    if n < 10 then [DigitChar(n)] else Print(n / 10) + [DigitChar(n % 10)]
  }

  /** The value of a run of digits; the empty run counts as zero. */
  function Value(s: string): (n: nat)
    requires AllDigits(s)
  {
    if s == "" then 0 else 10 * Value(s[..|s| - 1]) + DigitValue(s[|s| - 1])
  }

  /** The longest run of digits the interpreter converts; leading zeros count. */
  const MAX_INT_DIGITS: nat := 4300

  /** `int(s)` for a run of digits; `None` stands for the ValueError of a text that is too long. */
  function ReadDigits(s: string): (n: Option<nat>)
    requires AllDigits(s)
    ensures n.None? <==> |s| > MAX_INT_DIGITS
  {
    if |s| > MAX_INT_DIGITS then None else Some(Value(s))
  }

  lemma {:induction false} ValueOfPrint(n: nat)
    ensures Value(Print(n)) == n
  {
    if n < 10 {
      assert Print(n)[..0] == "";
    } else {
      ValueOfPrint(n / 10);
      assert Print(n)[..|Print(n)| - 1] == Print(n / 10);
    }
  }

  /** The blanks `int` skips at both ends of an ASCII text. */
  predicate IsBlank(c: char) {
    c == ' ' || '\t' <= c <= '\r'
  }

  function TrimLeft(s: string): (r: string)
    ensures |r| <= |s|
    ensures r == "" || !IsBlank(r[0])
  {
    if s != "" && IsBlank(s[0]) then TrimLeft(s[1..]) else s
  }

  function TrimRight(s: string): (r: string)
    ensures r <= s
    ensures r == "" || !IsBlank(r[|r| - 1])
  {
    if s != "" && IsBlank(s[|s| - 1]) then TrimRight(s[..|s| - 1]) else s
  }

  /** Digits in which single underscores may stand between two digits. */
  predicate IsGrouped(s: string) {
    && s != "" && IsDigit(s[0]) && IsDigit(s[|s| - 1])
    && forall i | 0 < i < |s| - 1 :: IsDigit(s[i]) || (s[i] == '_' && IsDigit(s[i - 1]))
  }

  function DropUnderscores(s: string): (r: string)
    requires forall i | 0 <= i < |s| :: IsDigit(s[i]) || s[i] == '_'
    ensures AllDigits(r)
    ensures AllDigits(s) ==> r == s
  {
    if s == "" then ""
    else if s[0] == '_' then DropUnderscores(s[1..])
    else [s[0]] + DropUnderscores(s[1..])
  }

  function Unsigned(s: string): (r: Option<nat>) {
    if IsGrouped(s) then Some(Value(DropUnderscores(s))) else None
  }

  /** `int(s)` for an ASCII text; `None` stands for its ValueError. */
  function PythonInt(s: string): (r: Option<int>) {
    var t := TrimRight(TrimLeft(s));
    if t == "" then None
    else if t[0] == '-' then
      var magnitude := Unsigned(t[1..]);
      if magnitude.None? then None else Some(-(magnitude.value as int))
    else if t[0] == '+' then Unsigned(t[1..])
    else Unsigned(t)
  }

  lemma PythonIntOfPrint(n: nat)
    ensures PythonInt(Print(n)) == Some(n)
  {
    var s := Print(n);
    assert IsDigit(s[0]) && IsDigit(s[|s| - 1]);
    assert TrimLeft(s) == s && TrimRight(s) == s;
    assert IsGrouped(s);
    ValueOfPrint(n);
  }
}
