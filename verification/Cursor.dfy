/** URL-safe base64 with padding (section 5 of RFC 4648) and the decoder Python applies to it. */
module Base64 {
  import opened Wrappers

  function EncodeSextet(v: nat): (c: char)
    requires v < 64
    ensures c as int < 128 && c != '='
  {
    if v < 26 then 'A' + v as char
    else if v < 52 then 'a' + (v - 26) as char
    else if v < 62 then '0' + (v - 52) as char
    else if v == 62 then '-'
    else '_'
  }

  /** The decoder reads `-` as `+` and `_` as `/`, so it accepts both alphabets. */
  function DecodeSextet(c: char): (r: Option<nat>)
    ensures r.Some? ==> r.value < 64
  {
    if 'A' <= c <= 'Z' then Some(c as int - 'A' as int)
    else if 'a' <= c <= 'z' then Some(c as int - 'a' as int + 26)
    else if '0' <= c <= '9' then Some(c as int - '0' as int + 52)
    else if c == '-' || c == '+' then Some(62)
    else if c == '_' || c == '/' then Some(63)
    else None
  }

  function EncodePair(v: nat, w: nat): (s: string)
    requires v < 64 && w < 64
    ensures |s| == 2 && forall c | c in s :: c as int < 128
  {
    [EncodeSextet(v), EncodeSextet(w)]
  }

  function EncodeThree(b0: Byte, b1: Byte, b2: Byte): (s: string)
    ensures |s| == 4 && forall c | c in s :: c as int < 128
  {
    EncodePair(b0 / 4, b0 % 4 * 16 + b1 / 16) + EncodePair(b1 % 16 * 4 + b2 / 64, b2 % 64)
  }

  function EncodeOne(b0: Byte): (s: string)
    ensures |s| == 4 && forall c | c in s :: c as int < 128
  {
    EncodePair(b0 / 4, b0 % 4 * 16) + "=="
  }

  function EncodeTwo(b0: Byte, b1: Byte): (s: string)
    ensures |s| == 4 && forall c | c in s :: c as int < 128
  {
    EncodePair(b0 / 4, b0 % 4 * 16 + b1 / 16) + [EncodeSextet(b1 % 16 * 4), '=']
  }

  function Encode(data: seq<Byte>): (s: string)
    ensures forall c | c in s :: c as int < 128
    ensures |s| % 4 == 0 && (s == "" <==> data == [])
  {
    if data == [] then ""
    else if |data| == 1 then EncodeOne(data[0])
    else if |data| == 2 then EncodeTwo(data[0], data[1])
    else EncodeThree(data[0], data[1], data[2]) + Encode(data[3..])
  }

  /** What the decoder holds between two characters: place in the quad, left-over bits, paddings, output. */
  datatype Scan = Scan(quad: nat, left: nat, pads: nat, out: seq<Byte>)

  ghost predicate ScanValid(st: Scan) {
    && st.quad < 4
    && (st.quad == 0 ==> st.left == 0)
    && (st.quad == 1 ==> st.left < 64)
    && (st.quad == 2 ==> st.left < 16)
    && (st.quad == 3 ==> st.left < 4)
  }

  function Take(st: Scan, v: nat): (r: Scan)
    requires ScanValid(st) && v < 64
    ensures ScanValid(r)
  {
    match st.quad
    case 0 => Scan(1, v, 0, st.out)
    case 1 => Scan(2, v % 16, 0, st.out + [st.left * 4 + v / 16])
    case 2 => Scan(3, v % 4, 0, st.out + [st.left * 16 + v / 4])
    case _ => Scan(0, 0, 0, st.out + [st.left * 64 + v])
  }

  /** Lenient decoding: foreign characters are skipped, enough padding ends the text. `None` is binascii.Error. */
  function Feed(s: string, st: Scan): (r: Option<seq<Byte>>)
    requires ScanValid(st)
  {
    if s == "" then (if st.quad == 0 then Some(st.out) else None)
    else if s[0] == '=' then
      if st.quad >= 2 && st.quad + st.pads + 1 >= 4 then Some(st.out)
      else Feed(s[1..], if st.quad >= 2 then st.(pads := st.pads + 1) else st)
    else
      match DecodeSextet(s[0])
      case None => Feed(s[1..], st)
      case Some(v) => Feed(s[1..], Take(st, v))
  }

  function Decode(s: string): (r: Option<seq<Byte>>) {
    Feed(s, Scan(0, 0, 0, []))
  }

  lemma DecodeEncodeSextet(v: nat)
    requires v < 64
    ensures DecodeSextet(EncodeSextet(v)) == Some(v)
  {
  }

  lemma FeedSextet(v: nat, rest: string, st: Scan)
    requires v < 64 && ScanValid(st)
    ensures Feed([EncodeSextet(v)] + rest, st) == Feed(rest, Take(st, v))
  {
    DecodeEncodeSextet(v);
    assert ([EncodeSextet(v)] + rest)[1..] == rest;
  }

  lemma FeedPair(v: nat, w: nat, rest: string, st: Scan)
    requires v < 64 && w < 64 && ScanValid(st)
    ensures Feed(EncodePair(v, w) + rest, st) == Feed(rest, Take(Take(st, v), w))
  {
    FeedSextet(v, [EncodeSextet(w)] + rest, st);
    FeedSextet(w, rest, Take(st, v));
    assert EncodePair(v, w) + rest == [EncodeSextet(v)] + ([EncodeSextet(w)] + rest);
  }

  /** The first two sextets of a quad give one byte, the third a second, the fourth a third. */
  lemma TakeThree(v0: nat, v1: nat, v2: nat, b0: Byte, b1: Byte, out: seq<Byte>)
    requires v0 < 64 && v1 < 64 && v2 < 64
    requires b0 == v0 * 4 + v1 / 16 && b1 == v1 % 16 * 16 + v2 / 4
    ensures Take(Take(Take(Scan(0, 0, 0, out), v0), v1), v2) == Scan(3, v2 % 4, 0, out + [b0, b1])
  {
    assert out + [b0] + [b1] == out + [b0, b1];
  }

  lemma FeedQuad(v0: nat, v1: nat, v2: nat, v3: nat, b0: Byte, b1: Byte, b2: Byte, rest: string, out: seq<Byte>)
    requires v0 < 64 && v1 < 64 && v2 < 64 && v3 < 64
    requires b0 == v0 * 4 + v1 / 16 && b1 == v1 % 16 * 16 + v2 / 4 && b2 == v2 % 4 * 64 + v3
    ensures Feed(EncodePair(v0, v1) + (EncodePair(v2, v3) + rest), Scan(0, 0, 0, out))
         == Feed(rest, Scan(0, 0, 0, out + [b0, b1, b2]))
  {
    var start := Scan(0, 0, 0, out);
    FeedPair(v0, v1, EncodePair(v2, v3) + rest, start);
    FeedPair(v2, v3, rest, Take(Take(start, v0), v1));
    TakeThree(v0, v1, v2, b0, b1, out);
    assert out + [b0, b1] + [b2] == out + [b0, b1, b2];
  }

  lemma Regroup(b0: Byte, b1: Byte, b2: Byte)
    ensures b0 / 4 < 64 && b0 % 4 * 16 + b1 / 16 < 64 && b1 % 16 * 4 + b2 / 64 < 64 && b2 % 64 < 64
    ensures b0 / 4 * 4 + (b0 % 4 * 16 + b1 / 16) / 16 == b0
    ensures (b0 % 4 * 16 + b1 / 16) % 16 * 16 + (b1 % 16 * 4 + b2 / 64) / 4 == b1
    ensures (b1 % 16 * 4 + b2 / 64) % 4 * 64 + b2 % 64 == b2
  {
    assert (b0 % 4 * 16 + b1 / 16) / 16 == b0 % 4 && (b0 % 4 * 16 + b1 / 16) % 16 == b1 / 16;
    assert (b1 % 16 * 4 + b2 / 64) / 4 == b1 % 16 && (b1 % 16 * 4 + b2 / 64) % 4 == b2 / 64;
  }

  lemma FeedPadding(st: Scan)
    requires ScanValid(st) && st.quad == 2 && st.pads == 0
    ensures Feed("==", st) == Some(st.out)
  {
    assert "=="[1..] == "=";
  }

  lemma FeedOneByte(b0: Byte, out: seq<Byte>)
    ensures Feed(EncodeOne(b0), Scan(0, 0, 0, out)) == Some(out + [b0])
  {
    var v0, v1, start := b0 / 4, b0 % 4 * 16, Scan(0, 0, 0, out);
    Regroup(b0, 0, 0);
    FeedPair(v0, v1, "==", start);
    FeedPadding(Take(Take(start, v0), v1));
  }

  lemma FeedPaddedTriple(v0: nat, v1: nat, v2: nat, b0: Byte, b1: Byte, out: seq<Byte>)
    requires v0 < 64 && v1 < 64 && v2 < 64
    requires b0 == v0 * 4 + v1 / 16 && b1 == v1 % 16 * 16 + v2 / 4
    ensures Feed(EncodePair(v0, v1) + [EncodeSextet(v2), '='], Scan(0, 0, 0, out)) == Some(out + [b0, b1])
  {
    var start := Scan(0, 0, 0, out);
    FeedPair(v0, v1, [EncodeSextet(v2), '='], start);
    assert [EncodeSextet(v2), '='] == [EncodeSextet(v2)] + "=";
    FeedSextet(v2, "=", Take(Take(start, v0), v1));
    TakeThree(v0, v1, v2, b0, b1, out);
  }

  lemma FeedTwoBytes(b0: Byte, b1: Byte, out: seq<Byte>)
    ensures Feed(EncodeTwo(b0, b1), Scan(0, 0, 0, out)) == Some(out + [b0, b1])
  {
    Regroup(b0, b1, 0);
    FeedPaddedTriple(b0 / 4, b0 % 4 * 16 + b1 / 16, b1 % 16 * 4, b0, b1, out);
  }

  lemma FeedThree(b0: Byte, b1: Byte, b2: Byte, rest: string, out: seq<Byte>)
    ensures Feed(EncodeThree(b0, b1, b2) + rest, Scan(0, 0, 0, out)) == Feed(rest, Scan(0, 0, 0, out + [b0, b1, b2]))
  {
    var v0, v1, v2, v3 := b0 / 4, b0 % 4 * 16 + b1 / 16, b1 % 16 * 4 + b2 / 64, b2 % 64;
    Regroup(b0, b1, b2);
    FeedQuad(v0, v1, v2, v3, b0, b1, b2, rest, out);
    assert EncodeThree(b0, b1, b2) + rest == EncodePair(v0, v1) + (EncodePair(v2, v3) + rest);
  }

  lemma FeedOne(data: seq<Byte>, out: seq<Byte>)
    requires |data| == 1
    ensures Feed(Encode(data), Scan(0, 0, 0, out)) == Some(out + data)
  {
    FeedOneByte(data[0], out);
    assert data == [data[0]];
  }

  lemma FeedTwo(data: seq<Byte>, out: seq<Byte>)
    requires |data| == 2
    ensures Feed(Encode(data), Scan(0, 0, 0, out)) == Some(out + data)
  {
    FeedTwoBytes(data[0], data[1], out);
    assert data == [data[0], data[1]];
  }

  lemma {:induction false} FeedEncode(data: seq<Byte>, out: seq<Byte>)
    ensures Feed(Encode(data), Scan(0, 0, 0, out)) == Some(out + data)
  {
    if data == [] {
      assert out + data == out;
    } else if |data| == 1 {
      FeedOne(data, out);
    } else if |data| == 2 {
      FeedTwo(data, out);
    } else {
      var b0, b1, b2, rest := data[0], data[1], data[2], data[3..];
      FeedEncode(rest, out + [b0, b1, b2]);
      FeedThree(b0, b1, b2, Encode(rest), out);
      assert out + [b0, b1, b2] + rest == out + data;
    }
  }

  lemma DecodeEncode(data: seq<Byte>)
    ensures Decode(Encode(data)) == Some(data)
  {
    FeedEncode(data, []);
    assert [] + data == data;
  }
}

/** The opaque page cursor: an offset, printed, then base64 encoded. */
module Cursor {
  import opened Wrappers
  import opened Base64
  import Decimal

  datatype CursorError = InvalidCursor

  predicate IsAscii(s: string) {
    forall i | 0 <= i < |s| :: s[i] as int < 128
  }

  function ToBytes(s: string): (r: seq<Byte>)
    requires IsAscii(s)
    ensures |r| == |s| && forall i | 0 <= i < |s| :: r[i] == s[i] as int
  {
    seq(|s|, i requires 0 <= i < |s| => s[i] as int)
  }

  /** ASCII decoding; `None` is UnicodeDecodeError. */
  function FromBytes(data: seq<Byte>): (r: Option<string>)
    ensures r.Some? <==> forall b | b in data :: b < 128
    ensures r.Some? ==> IsAscii(r.value) && ToBytes(r.value) == data
  {
    if forall b | b in data :: b < 128 then
      var text := seq(|data|, i requires 0 <= i < |data| => assert data[i] in data; data[i] as char);
      assert forall i | 0 <= i < |data| :: text[i] as int == data[i] && data[i] < 128 by {
        assert forall i | 0 <= i < |data| :: data[i] in data;
      }
      Some(text)
    else None
  }

  function EncodeCursor(offset: Option<nat>): (r: Option<string>) {
    match offset
    case None => None
    case Some(n) =>
      assert IsAscii(Decimal.Print(n)) by { DigitsAreAscii(Decimal.Print(n)); }
      Some(Encode(ToBytes(Decimal.Print(n))))
  }

  lemma DigitsAreAscii(s: string)
    requires Decimal.AllDigits(s)
    ensures IsAscii(s)
  {
    forall i | 0 <= i < |s| ensures s[i] as int < 128 {
      assert Decimal.IsDigit(s[i]);
    }
  }

  function DecodeCursor(raw: Option<string>): (r: Result<nat, CursorError>) {
    if raw == None || raw.value == "" then Ok(0)
    else if !IsAscii(raw.value) then Err(InvalidCursor)
    else
      match Decode(raw.value)
      case None => Err(InvalidCursor)
      case Some(data) =>
        match FromBytes(data)
        case None => Err(InvalidCursor)
        case Some(text) =>
          match Decimal.PythonInt(text)
          case None => Err(InvalidCursor)
          case Some(n) => if n < 0 then Err(InvalidCursor) else Ok(n)
  }

  /** Every offset survives the trip to the client and back; the absent cursor means the start. */
  lemma CursorRoundTrip(n: nat)
    ensures DecodeCursor(EncodeCursor(Some(n))) == Ok(n)
    ensures DecodeCursor(EncodeCursor(None)) == Ok(0)
  {
    var text := Decimal.Print(n);
    DigitsAreAscii(text);
    var data := ToBytes(text);
    var raw := Encode(data);
    assert IsAscii(raw) by {
      forall i | 0 <= i < |raw| ensures raw[i] as int < 128 { assert raw[i] in raw; }
    }
    DecodeEncode(data);
    assert forall b | b in data :: b < 128;
    var back := FromBytes(data).value;
    assert back == text by {
      assert |back| == |text|;
      forall i | 0 <= i < |text| ensures back[i] == text[i] {
        assert ToBytes(back)[i] == data[i];
      }
    }
    Decimal.PythonIntOfPrint(n);
  }

  /** Different offsets travel as different cursors. */
  lemma CursorsAreDistinct(m: nat, n: nat)
    ensures EncodeCursor(Some(m)) == EncodeCursor(Some(n)) <==> m == n
  {
    CursorRoundTrip(m);
    CursorRoundTrip(n);
  }
}
