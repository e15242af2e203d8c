/**
 MongoDB document identifiers as the backend handles them: an ObjectId is
 twelve bytes, `str(_id)` renders it as 24 lower-case hexadecimal digits, and
 `ObjectId(s)` accepts exactly the strings of 24 hexadecimal digits (either
 case) and raises on anything else.
 */
module ObjectIds {
  import opened Wrappers

  newtype byte = x: int | 0 <= x < 256

  const IdLength := 12

  type ObjectId = b: seq<byte> | |b| == IdLength witness [0, 0, 0, 0, 0, 0, 0, 0, 0, 0, 0, 0]

  predicate IsHexChar(c: char) {
    ('0' <= c <= '9') || ('a' <= c <= 'f') || ('A' <= c <= 'F')
  }

  predicate IsLowerHexChar(c: char) {
    ('0' <= c <= '9') || ('a' <= c <= 'f')
  }

  predicate IsHexString(s: string) {
    forall i :: 0 <= i < |s| ==> IsHexChar(s[i])
  }

  /** The lower-case hexadecimal digit of a nibble. */
  function HexDigit(n: int): (c: char)
    requires 0 <= n < 16
    ensures IsLowerHexChar(c) && HexValue(c) == n
  {
    if n < 10 then ('0' as int + n) as char else ('a' as int + n - 10) as char
  }

  /** The nibble a hexadecimal digit of either case stands for. */
  function HexValue(c: char): (n: int)
    requires IsHexChar(c)
    ensures 0 <= n < 16
  {
    if '0' <= c <= '9' then c as int - '0' as int
    else if 'a' <= c <= 'f' then c as int - 'a' as int + 10
    else c as int - 'A' as int + 10
  }

  /** A hexadecimal digit folded to lower case. */
  function LowerHex(c: char): (d: char)
    requires IsHexChar(c)
    ensures IsLowerHexChar(d) && HexValue(d) == HexValue(c)
  {
    if 'A' <= c <= 'F' then (c as int - 'A' as int + 'a' as int) as char else c
  }

  function LowerHexString(s: string): (r: string)
    requires IsHexString(s)
    ensures |r| == |s|
    ensures forall i :: 0 <= i < |s| ==> r[i] == LowerHex(s[i])
  {
    if s == [] then [] else [LowerHex(s[0])] + LowerHexString(s[1..])
  }

  /** Two lower-case hex digits per byte, most significant nibble first. */
  function Hex(bs: seq<byte>): (s: string)
    ensures |s| == 2 * |bs|
    ensures forall i :: 0 <= i < |s| ==> IsLowerHexChar(s[i])
  {
    if bs == [] then []
    else [HexDigit(bs[0] as int / 16), HexDigit(bs[0] as int % 16)] + Hex(bs[1..])
  }

  /** The bytes a string of hexadecimal digit pairs denotes. */
  function FromHex(s: string): (bs: seq<byte>)
    requires |s| % 2 == 0 && IsHexString(s)
    ensures |bs| == |s| / 2
  {
    if s == [] then []
    else [(16 * HexValue(s[0]) + HexValue(s[1])) as byte] + FromHex(s[2..])
  }

  /** `str(oid)` */
  function ToString(id: ObjectId): (s: string)
    ensures |s| == 2 * IdLength
  {
    Hex(id)
  }

  /** `ObjectId(s)` for a string argument: `None` where the constructor raises. */
  function Parse(s: string): (r: Option<ObjectId>)
    ensures r.Some? <==> |s| == 2 * IdLength && IsHexString(s)
  {
    if |s| == 2 * IdLength && IsHexString(s) then Some(FromHex(s)) else None
  }

  lemma {:induction false} FromHexOfHex(bs: seq<byte>)
    ensures IsHexString(Hex(bs)) && FromHex(Hex(bs)) == bs
  {
    if bs != [] {
      FromHexOfHex(bs[1..]);
      var h := Hex(bs);
      assert h[2..] == Hex(bs[1..]);
      assert 16 * HexValue(h[0]) + HexValue(h[1]) == bs[0] as int;
    }
  }

  lemma {:induction false} HexOfFromHex(s: string)
    requires |s| % 2 == 0 && IsHexString(s)
    ensures Hex(FromHex(s)) == LowerHexString(s)
  {
    if s != [] {
      var rest := s[2..];
      HexOfFromHex(rest);
      var b := (16 * HexValue(s[0]) + HexValue(s[1])) as byte;
      assert FromHex(s) == [b] + FromHex(rest);
      PairDigits(s[0], s[1]);
      assert Hex(FromHex(s)) == [LowerHex(s[0]), LowerHex(s[1])] + Hex(FromHex(rest));
      LowerHexStringSplit(s);
    }
  }

  /** The byte a pair of hex digits denotes renders as those digits in lower case. */
  lemma PairDigits(hi: char, lo: char)
    requires IsHexChar(hi) && IsHexChar(lo)
    ensures var b := 16 * HexValue(hi) + HexValue(lo);
            0 <= b < 256 && HexDigit(b / 16) == LowerHex(hi) && HexDigit(b % 16) == LowerHex(lo)
  {
    var b := 16 * HexValue(hi) + HexValue(lo);
    assert b / 16 == HexValue(hi) && b % 16 == HexValue(lo);
    DigitOfValue(hi);
    DigitOfValue(lo);
  }

  lemma DigitOfValue(c: char)
    requires IsHexChar(c)
    ensures HexDigit(HexValue(c)) == LowerHex(c)
  {
  }

  lemma LowerHexStringSplit(s: string)
    requires |s| >= 2 && IsHexString(s)
    ensures LowerHexString(s) == [LowerHex(s[0]), LowerHex(s[1])] + LowerHexString(s[2..])
  {
    var l := LowerHexString(s);
    var r := [LowerHex(s[0]), LowerHex(s[1])] + LowerHexString(s[2..]);
    assert |l| == |r|;
    forall i | 0 <= i < |l| ensures l[i] == r[i] {
      if i >= 2 {
        assert r[i] == LowerHexString(s[2..])[i - 2];
      }
    }
  }

  /** The string form of an id is accepted by `ObjectId(...)` and denotes that id. */
  lemma ParseToString(id: ObjectId)
    ensures Parse(ToString(id)) == Some(id)
  {
    FromHexOfHex(id);
  }

  /** Every accepted string is the string form of its id, up to the case of its letters. */
  lemma ToStringOfParse(s: string)
    requires Parse(s).Some?
    ensures ToString(Parse(s).value) == LowerHexString(s)
  {
    HexOfFromHex(s);
  }

  /** Distinct ids have distinct string forms, so `str(_id)` identifies a document. */
  lemma ToStringInjective(a: ObjectId, b: ObjectId)
    ensures ToString(a) == ToString(b) ==> a == b
  {
    ParseToString(a);
    ParseToString(b);
  }
}
