/** User ids as 128-bit UUIDs, their text form, and the canonical order of an unordered pair. */
module UserPair {
  import opened Wrappers
  import Text

  const UUID_LIMIT: nat := 0x1_0000_0000_0000_0000_0000_0000_0000_0000

  type UserId = n: nat | n < UUID_LIMIT

  datatype PairError = SameUser

  function Pow16(k: nat): (p: nat)
    ensures p >= 1
  {
    if k == 0 then 1 else 16 * Pow16(k - 1)
  }

  function HexDigit(d: nat): (c: char)
    requires d < 16
  {
    if d < 10 then '0' + (d as char) else 'a' + ((d - 10) as char)
  }

  /** The low `width` hexadecimal digits of `n`, most significant first. */
  function HexText(n: nat, width: nat): (s: string)
    ensures |s| == width
  {
    if width == 0 then "" else HexText(n / 16, width - 1) + [HexDigit(n % 16)]
  }

  predicate Fits(cuts: seq<nat>, length: nat) {
    cuts == [] || (cuts[0] <= length && Fits(cuts[1..], length - cuts[0]))
  }

  /** Puts a hyphen after the first `cuts[0]` characters, another `cuts[1]` further on, and so on. */
  function Hyphenated(h: string, cuts: seq<nat>): (s: string)
    requires Fits(cuts, |h|)
    ensures |s| == |h| + |cuts|
  {
    if cuts == [] then h else h[..cuts[0]] + ("-" + Hyphenated(h[cuts[0]..], cuts[1..]))
  }

  lemma CutsFit()
    ensures Fits([8, 4, 4, 4], 32)
  {
    assert [4][1..] == [] && [4, 4][1..] == [4] && [4, 4, 4][1..] == [4, 4] && [8, 4, 4, 4][1..] == [4, 4, 4];
    assert Fits([4], 16) && Fits([4, 4], 20) && Fits([4, 4, 4], 24);
  }

  /** The 8-4-4-4-12 text of section 4 of RFC 9562. */
  function UuidText(id: UserId): (s: string)
    ensures |s| == 36
  {
    CutsFit();
    Hyphenated(HexText(id, 32), [8, 4, 4, 4])
  }

  lemma {:induction false} HexOrder(a: nat, b: nat, width: nat)
    requires a < Pow16(width) && b < Pow16(width)
    ensures Text.Less(HexText(a, width), HexText(b, width)) <==> a < b
    ensures HexText(a, width) == HexText(b, width) ==> a == b
  {
    if width > 0 {
      HexOrder(a / 16, b / 16, width - 1);
      var x, y := HexText(a / 16, width - 1), HexText(b / 16, width - 1);
      var c, d := HexDigit(a % 16), HexDigit(b % 16);
      Text.LessAppend(x, y, [c], [d]);
      assert c < d <==> a % 16 < b % 16;
      if x + [c] == y + [d] {
        assert x == (x + [c])[..width - 1] && y == (y + [d])[..width - 1];
        assert (x + [c])[width - 1] == (y + [d])[width - 1];
      }
    }
  }

  lemma {:induction false} HyphensKeepOrder(x: string, y: string, cuts: seq<nat>)
    requires |x| == |y| && Fits(cuts, |x|)
    ensures Text.Less(Hyphenated(x, cuts), Hyphenated(y, cuts)) <==> Text.Less(x, y)
    decreases cuts
  {
    if cuts != [] {
      var k := cuts[0];
      var u, v := Hyphenated(x[k..], cuts[1..]), Hyphenated(y[k..], cuts[1..]);
      HyphensKeepOrder(x[k..], y[k..], cuts[1..]);
      assert x == x[..k] + x[k..] && y == y[..k] + y[k..];
      Text.LessAppend(x[..k], y[..k], x[k..], y[k..]);
      Text.LessAppend(x[..k], y[..k], "-" + u, "-" + v);
      Text.LessAppend("-", "-", u, v);
    }
  }

  lemma Pow16Of32()
    ensures Pow16(32) == UUID_LIMIT
  {
    assert Pow16(4) == 0x1_0000;
    assert Pow16(8) == 0x1_0000_0000;
    assert Pow16(12) == 0x1_0000_0000_0000;
    assert Pow16(16) == 0x1_0000_0000_0000_0000;
    assert Pow16(20) == 0x1_0000_0000_0000_0000_0000;
    assert Pow16(24) == 0x1_0000_0000_0000_0000_0000_0000;
    assert Pow16(28) == 0x1_0000_0000_0000_0000_0000_0000_0000;
  }

  lemma TextLessIffLess(a: UserId, b: UserId)
    ensures Text.Less(UuidText(a), UuidText(b)) <==> a < b
  {
    Pow16Of32();
    CutsFit();
    HexOrder(a, b, 32);
    HyphensKeepOrder(HexText(a, 32), HexText(b, 32), [8, 4, 4, 4]);
  }

  /** Text order of the printed ids is the numeric order the database compares by, and no two ids print alike. */
  lemma TextOrderIsNumericOrder(a: UserId, b: UserId)
    ensures Text.Less(UuidText(a), UuidText(b)) <==> a < b
    ensures UuidText(a) == UuidText(b) <==> a == b
  {
    TextLessIffLess(a, b);
    TextLessIffLess(b, a);
    Text.Trichotomy(UuidText(a), UuidText(b));
  }

  /** Orders two users by the text of their ids. */
  function CanonicalUserPair(a: UserId, b: UserId): (r: Result<(UserId, UserId), PairError>)
  {
    if a == b then Err(SameUser)
    else if Text.Less(UuidText(a), UuidText(b)) then Ok((a, b))
    else Ok((b, a))
  }

  /**
   * The pair is ordered as the database constraint `user_low < user_high` asks, does not depend on
   * which user comes first, and names one unordered pair of users only.
   */
  lemma CanonicalPairIsOneKey(a: UserId, b: UserId, c: UserId, d: UserId)
    ensures CanonicalUserPair(a, b).Ok? <==> a != b
    ensures CanonicalUserPair(a, b) == CanonicalUserPair(b, a)
    ensures a != b ==> var (low, high) := CanonicalUserPair(a, b).value; low < high && {low, high} == {a, b}
    ensures a != b && c != d ==> (CanonicalUserPair(a, b) == CanonicalUserPair(c, d) <==> {a, b} == {c, d})
  {
    TextOrderIsNumericOrder(a, b);
    TextOrderIsNumericOrder(b, a);
    TextOrderIsNumericOrder(c, d);
    if a != b && c != d && {a, b} == {c, d} {
      assert a in {c, d} && b in {c, d} && c in {a, b} && d in {a, b};
    }
    if a != b && c != d && CanonicalUserPair(a, b) == CanonicalUserPair(c, d) {
      var (low, high) := CanonicalUserPair(a, b).value;
      assert {low, high} == {a, b} && {low, high} == {c, d};
    }
  }
}
