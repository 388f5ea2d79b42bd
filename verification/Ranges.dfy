/** The `Range` request header: the parser, and section 14.1.2 of RFC 9110 to measure it by. */
module Ranges {
  import opened Wrappers
  import Decimal
  import Text

  /** What a range header makes of a download: nothing, one run of bytes, a refusal, or an uncaught ValueError. */
  datatype Parsed = Ignored | Bytes(first: nat, last: nat) | NotSatisfiable | Raised

  function DigitRun(s: string): (r: string)
    ensures r <= s && Decimal.AllDigits(r)
    ensures |r| < |s| ==> !Decimal.IsDigit(s[|r|])
  {
    if s != "" && Decimal.IsDigit(s[0]) then [s[0]] + DigitRun(s[1..]) else ""
  }

  /** The two groups of `bytes=(\d*)-(\d*)`, when the whole text matches. */
  function MatchSingleRange(s: string): (r: Option<(string, string)>)
    ensures r.Some? ==> Decimal.AllDigits(r.value.0) && Decimal.AllDigits(r.value.1)
  {
    if |s| < 6 || s[..6] != "bytes=" then None
    else
      var start := DigitRun(s[6..]);
      var rest := s[6 + |start|..];
      if rest == "" || rest[0] != '-' || !Decimal.AllDigits(rest[1..]) then None
      else Some((start, rest[1..]))
  }

  lemma {:induction false} DigitRunBefore(a: string, rest: string)
    requires Decimal.AllDigits(a) && (rest == "" || !Decimal.IsDigit(rest[0]))
    ensures DigitRun(a + rest) == a
  {
    if a != "" {
      assert (a + rest)[1..] == a[1..] + rest;
      DigitRunBefore(a[1..], rest);
    } else {
      assert a + rest == rest;
    }
  }

  lemma GrammarMatches(a: string, b: string)
    requires Decimal.AllDigits(a) && Decimal.AllDigits(b)
    ensures MatchSingleRange("bytes=" + a + "-" + b) == Some((a, b))
  {
    var s := "bytes=" + a + "-" + b;
    assert s[..6] == "bytes=" && s[6..] == a + ("-" + b);
    DigitRunBefore(a, "-" + b);
    assert s[6 + |a|..] == "-" + b && ("-" + b)[1..] == b;
  }

  /** The matcher accepts exactly the texts of the pattern, and splits them at their only dash. */
  lemma MatchIsGrammar(s: string, a: string, b: string)
    ensures MatchSingleRange(s) == Some((a, b))
       <==> Decimal.AllDigits(a) && Decimal.AllDigits(b) && s == "bytes=" + a + "-" + b
  {
    if Decimal.AllDigits(a) && Decimal.AllDigits(b) && s == "bytes=" + a + "-" + b {
      GrammarMatches(a, b);
    }
    if MatchSingleRange(s) == Some((a, b)) {
      assert s == s[..6] + s[6..6 + |a|] + s[6 + |a|..];
      assert s[6..6 + |a|] == a;
      assert s[6 + |a|..] == "-" + b;
    }
  }

  /** The bounds are read one after the other: a start past the end is refused before the end is read. */
  function RangeOfTexts(startText: string, endText: string, size: nat): (r: Parsed)
    requires size > 0 && Decimal.AllDigits(startText) && Decimal.AllDigits(endText)
    ensures r.Bytes? ==> r.first <= r.last < size
  {
    if startText == "" && endText == "" then Ignored
    else if startText == "" then
      match Decimal.ReadDigits(endText)
      case None => Raised
      case Some(suffix) =>
        if suffix <= 0 then Ignored
        else if suffix >= size then Bytes(0, size - 1)
        else Bytes(size - suffix, size - 1)
    else
      match Decimal.ReadDigits(startText)
      case None => Raised
      case Some(start) =>
        if start >= size then NotSatisfiable
        else if endText == "" then Bytes(start, size - 1)
        else
          match Decimal.ReadDigits(endText)
          case None => Raised
          case Some(end) =>
            if end < start then Ignored
            else Bytes(start, if end <= size - 1 then end else size - 1)
  }

  function ParseSingleRange(header: Option<string>, size: nat): (r: Parsed)
    requires size > 0
    ensures r.Bytes? ==> r.first <= r.last < size
  {
    if header == None || header.value == "" || ',' in header.value then Ignored
    else
      match MatchSingleRange(Text.Strip(header.value))
      case None => Ignored
      case Some((startText, endText)) => RangeOfTexts(startText, endText, size)
  }

  /** A range specifier of RFC 9110: positions from `first`, or the last `length` bytes. */
  datatype RangeSpec = IntRange(first: nat, last: Option<nat>) | SuffixRange(length: nat)

  predicate IsValid(spec: RangeSpec) {
    spec.IntRange? && spec.last.Some? ==> spec.first <= spec.last.value
  }

  /** The byte positions a valid specifier asks for in a representation of `size` bytes. */
  predicate Selects(spec: RangeSpec, size: nat, pos: nat) {
    && pos < size
    && match spec
       case IntRange(first, last) => first <= pos && (last.None? || pos <= last.value)
       case SuffixRange(length) => size <= pos + length
  }

  ghost predicate IsSatisfiable(spec: RangeSpec, size: nat) {
    exists pos: nat :: Selects(spec, size, pos)
  }

  /** The answer RFC 9110 asks for: ignore an invalid specifier, refuse one that selects nothing. */
  ghost predicate AgreesWithRfc(answer: Parsed, spec: RangeSpec, size: nat) {
    if !IsValid(spec) then answer == Ignored
    else if !IsSatisfiable(spec, size) then answer == NotSatisfiable
    else answer.Bytes? && forall pos: nat :: answer.first <= pos <= answer.last <==> Selects(spec, size, pos)
  }

  function SpecOf(a: string, b: string): (r: RangeSpec)
    requires Decimal.AllDigits(a) && Decimal.AllDigits(b)
  {
    if a == "" then SuffixRange(Decimal.Value(b))
    else IntRange(Decimal.Value(a), if b == "" then None else Some(Decimal.Value(b)))
  }

  /** A bound the parser gets to read is too long for `int`. */
  predicate IsUnreadable(a: string, b: string, size: nat)
    requires Decimal.AllDigits(a) && Decimal.AllDigits(b)
  {
    || |a| > Decimal.MAX_INT_DIGITS
    || (|b| > Decimal.MAX_INT_DIGITS && (a == "" || Decimal.Value(a) < size))
  }

  /**
   * The texts on which the parser leaves the RFC: an empty suffix, an inverted range past the end, and a
   * bound of more digits than `int` reads.
   */
  predicate IsException(a: string, b: string, size: nat)
    requires Decimal.AllDigits(a) && Decimal.AllDigits(b)
  {
    || IsUnreadable(a, b, size)
    || match SpecOf(a, b)
       case SuffixRange(length) => length == 0
       case IntRange(first, last) => last.Some? && last.value < first && size <= first
  }

  lemma NoComma(a: string, b: string)
    requires Decimal.AllDigits(a) && Decimal.AllDigits(b)
    ensures ',' !in "bytes=" + a + "-" + b
  {
    var text := "bytes=" + a + "-" + b;
    forall i | 0 <= i < |text| ensures text[i] != ',' {
      if 6 <= i < 6 + |a| { assert text[i] == a[i - 6] && Decimal.IsDigit(a[i - 6]); }
      if 7 + |a| <= i { assert text[i] == b[i - 7 - |a|] && Decimal.IsDigit(b[i - 7 - |a|]); }
    }
  }

  lemma NothingToStrip(a: string, b: string)
    requires Decimal.AllDigits(a) && Decimal.AllDigits(b)
    ensures Text.Strip("bytes=" + a + "-" + b) == "bytes=" + a + "-" + b
  {
    var text := "bytes=" + a + "-" + b;
    assert text[0] == 'b';
    assert text[|text| - 1] == if b == "" then '-' else b[|b| - 1];
    assert b != "" ==> Decimal.IsDigit(b[|b| - 1]);
  }

  /** A single byte range is parsed by its two texts. */
  lemma ParsesByTexts(a: string, b: string, size: nat)
    requires Decimal.AllDigits(a) && Decimal.AllDigits(b) && size > 0
    ensures ParseSingleRange(Some("bytes=" + a + "-" + b), size) == RangeOfTexts(a, b, size)
  {
    GrammarMatches(a, b);
    NoComma(a, b);
    NothingToStrip(a, b);
  }

  lemma TextsMeetRfc(a: string, b: string, size: nat)
    requires Decimal.AllDigits(a) && Decimal.AllDigits(b) && !(a == "" && b == "") && size > 0
    ensures AgreesWithRfc(RangeOfTexts(a, b, size), SpecOf(a, b), size) <==> !IsException(a, b, size)
  {
    var spec := SpecOf(a, b);
    match spec
    case SuffixRange(length) =>
      if length > 0 { assert Selects(spec, size, size - 1); }
    case IntRange(first, last) =>
      if first < size && IsValid(spec) { assert Selects(spec, size, first); }
  }

  /**
   * On every single byte range the parser gives the answer of RFC 9110, except exactly on `bytes=-0`
   * (ignored, not refused), on an inverted range that starts past the end (refused, not ignored), and where
   * it reads a bound of more than 4300 digits (a server error).
   */
  lemma ParserMeetsRfcIff(a: string, b: string, size: nat)
    requires Decimal.AllDigits(a) && Decimal.AllDigits(b) && !(a == "" && b == "") && size > 0
    ensures AgreesWithRfc(ParseSingleRange(Some("bytes=" + a + "-" + b), size), SpecOf(a, b), size)
       <==> !IsException(a, b, size)
  {
    ParsesByTexts(a, b, size);
    TextsMeetRfc(a, b, size);
  }

  /** The server error comes exactly from a bound that is read and too long. */
  lemma RaisesIffUnreadable(a: string, b: string, size: nat)
    requires Decimal.AllDigits(a) && Decimal.AllDigits(b) && size > 0
    ensures ParseSingleRange(Some("bytes=" + a + "-" + b), size) == Raised <==> IsUnreadable(a, b, size)
  {
    ParsesByTexts(a, b, size);
  }

  /** Anything but one byte range is ignored. */
  lemma OtherHeadersAreIgnored(header: Option<string>, size: nat)
    requires size > 0
    ensures ParseSingleRange(header, size) != Ignored ==>
      exists a, b ::
        && Decimal.AllDigits(a) && Decimal.AllDigits(b) && !(a == "" && b == "")
        && header.Some? && Text.Strip(header.value) == "bytes=" + a + "-" + b
        && ParseSingleRange(header, size) == RangeOfTexts(a, b, size)
  {
    if ParseSingleRange(header, size) != Ignored {
      var (a, b) := MatchSingleRange(Text.Strip(header.value)).value;
      MatchIsGrammar(Text.Strip(header.value), a, b);
    }
  }

  function PrintRange(first: nat, last: nat): (s: string)
  {
    "bytes=" + Decimal.Print(first) + "-" + Decimal.Print(last)
  }

  /** The number prints short enough for `int` to read it back. */
  predicate IsPrintable(n: nat) {
    |Decimal.Print(n)| <= Decimal.MAX_INT_DIGITS
  }

  /** The header sent to object storage reads back as the range it was printed from, if `int` can read it at all. */
  lemma PrintedRangeParsesBack(first: nat, last: nat, size: nat)
    requires first <= last < size
    ensures ParseSingleRange(Some(PrintRange(first, last)), size)
         == if IsPrintable(first) && IsPrintable(last) then Bytes(first, last) else Raised
  {
    Decimal.ValueOfPrint(first);
    Decimal.ValueOfPrint(last);
    ParsesByTexts(Decimal.Print(first), Decimal.Print(last), size);
  }

  lemma {:induction false} PrintGrows(m: nat, n: nat)
    requires m <= n
    ensures |Decimal.Print(m)| <= |Decimal.Print(n)|
    decreases n
  {
    if m >= 10 {
      PrintGrows(m / 10, n / 10);
    }
  }

  /**
   * The last `k` bytes, asked for by suffix, by explicit bounds or by an open end, are one range; each header
   * is parsed by its two texts (`ParsesByTexts`).
   */
  lemma SuffixIsExplicitRange(k: nat, size: nat)
    requires 0 < k <= size && IsPrintable(size)
    ensures RangeOfTexts("", Decimal.Print(k), size) == Bytes(size - k, size - 1)
    ensures RangeOfTexts(Decimal.Print(size - k), Decimal.Print(size - 1), size) == Bytes(size - k, size - 1)
    ensures RangeOfTexts(Decimal.Print(size - k), "", size) == Bytes(size - k, size - 1)
  {
    PrintGrows(k, size);
    PrintGrows(size - k, size);
    PrintGrows(size - 1, size);
    Decimal.ValueOfPrint(k);
    Decimal.ValueOfPrint(size - k);
    Decimal.ValueOfPrint(size - 1);
  }
}
