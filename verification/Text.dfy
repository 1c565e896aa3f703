/** ASCII strings: case folding, hexadecimal digits and the byte-wise order of `strings.Compare`. */
module Text {
  import opened Prelude

  function LowerChar(c: char): char {
    if 'A' <= c <= 'Z' then (c as int + 32) as char else c
  }

  function ToLower(s: string): (r: string)
    ensures |r| == |s|
    ensures forall i :: 0 <= i < |s| ==> r[i] == LowerChar(s[i])
  {
    seq(|s|, i requires 0 <= i < |s| => LowerChar(s[i]))
  }

  predicate EqualFold(a: string, b: string) {
    ToLower(a) == ToLower(b)
  }

  predicate HasPrefix(s: string, p: string) {
    |p| <= |s| && s[..|p|] == p
  }

  predicate HasSuffix(s: string, t: string) {
    |t| <= |s| && s[|s| - |t|..] == t
  }

  /** The position of the last `c`. */
  function LastIndex(s: string, c: char): (r: Option<nat>)
    ensures r.Some? ==> r.value < |s| && s[r.value] == c && c !in s[r.value + 1..]
    ensures r.None? ==> c !in s
  {
    if s == "" then None
    else if s[|s| - 1] == c then Some(|s| - 1)
    else LastIndex(s[..|s| - 1], c)
  }

  // ---- hexadecimal ----

  predicate IsHexDigit(c: char) {
    '0' <= c <= '9' || 'a' <= c <= 'f' || 'A' <= c <= 'F'
  }

  predicate AllHex(s: string) {
    forall i :: 0 <= i < |s| ==> IsHexDigit(s[i])
  }

  /** Hexadecimal digits without capitals. */
  predicate LowerHexText(s: string) {
    forall i :: 0 <= i < |s| ==> IsHexDigit(s[i]) && LowerChar(s[i]) == s[i]
  }

  predicate IsHex(s: string) {
    s != "" && AllHex(s)
  }

  function DigitValue(c: char): (d: nat)
    requires IsHexDigit(c)
    ensures d < 16
  {
    if c <= '9' then c as int - '0' as int
    else if c <= 'F' then c as int - 'A' as int + 10
    else c as int - 'a' as int + 10
  }

  function HexDigit(d: nat): (c: char)
    requires d < 16
    ensures IsHexDigit(c) && DigitValue(c) == d && LowerChar(c) == c
  {
    if d < 10 then (d + '0' as int) as char else (d - 10 + 'a' as int) as char
  }

  /** A hexadecimal numeral as an unbounded number; the empty numeral is zero. */
  function HexValue(s: string): nat
    requires AllHex(s)
  {
    if s == "" then 0 else 16 * HexValue(s[..|s| - 1]) + DigitValue(s[|s| - 1])
  }

  function TrimZeros(s: string): string {
    if s != "" && s[0] == '0' then TrimZeros(s[1..]) else s
  }

  /** `isHex` as the loop it is. */
  method ScanHex(s: string) returns (ok: bool)
    ensures ok == IsHex(s)
  {
    if s == "" {
      return false;
    }
    for i := 0 to |s|
      invariant AllHex(s[..i])
    {
      var c := s[i];
      if (c < '0' || c > '9') && (c < 'a' || c > 'f') && (c < 'A' || c > 'F') {
        return false;
      }
    }
    assert s[..|s|] == s;
    return true;
  }

  lemma LowerHex(s: string)
    ensures AllHex(ToLower(s)) == AllHex(s) == LowerHexText(ToLower(s))
    ensures forall i :: 0 <= i < |s| && IsHexDigit(s[i]) ==>
              IsHexDigit(ToLower(s)[i]) && DigitValue(ToLower(s)[i]) == DigitValue(s[i])
  {
    forall i | 0 <= i < |s| ensures IsHexDigit(ToLower(s)[i]) == IsHexDigit(s[i]) {
      assert ToLower(s)[i] == LowerChar(s[i]);
    }
  }

  lemma {:induction false} LowerHexValue(s: string)
    requires AllHex(s)
    ensures AllHex(ToLower(s)) && HexValue(ToLower(s)) == HexValue(s)
  {
    LowerHex(s);
    if s != "" {
      LowerHexValue(s[..|s| - 1]);
      assert ToLower(s)[..|s| - 1] == ToLower(s[..|s| - 1]);
    }
  }

  lemma {:induction false} ValueDropsZeros(s: string)
    requires AllHex(s)
    ensures AllHex(TrimZeros(s)) && HexValue(TrimZeros(s)) == HexValue(s)
    ensures TrimZeros(s) == "" || TrimZeros(s)[0] != '0'
    ensures LowerHexText(s) ==> LowerHexText(TrimZeros(s))
    decreases |s|
  {
    if s != "" && s[0] == '0' {
      LeadingZero(s);
      ValueDropsZeros(s[1..]);
    }
  }

  lemma {:induction false} LeadingZero(s: string)
    requires AllHex(s) && s != "" && s[0] == '0'
    ensures HexValue(s[1..]) == HexValue(s)
    decreases |s|
  {
    if |s| == 1 {
      assert s[..0] == "" == s[1..];
    } else {
      LeadingZero(s[..|s| - 1]);
      assert s[1..][..|s| - 2] == s[..|s| - 1][1..];
    }
  }

  lemma {:induction false} NonzeroLead(s: string)
    requires AllHex(s) && s != "" && s[0] != '0'
    ensures HexValue(s) > 0
    decreases |s|
  {
    if |s| > 1 {
      NonzeroLead(s[..|s| - 1]);
    }
  }

  /** Lower-case numerals of one length, or without leading zeros, are determined by their value. */
  lemma {:induction false} NumeralUnique(a: string, b: string)
    requires LowerHexText(a) && LowerHexText(b)
    requires |a| == |b| || ((a == "" || a[0] != '0') && (b == "" || b[0] != '0'))
    requires HexValue(a) == HexValue(b)
    ensures a == b
    decreases |a|
  {
    if a == "" || b == "" {
      if a != "" {
        NonzeroLead(a);
      }
      if b != "" {
        NonzeroLead(b);
      }
    } else {
      var m, n := |a| - 1, |b| - 1;
      assert IsHexDigit(a[m]) && IsHexDigit(b[n]);
      DigitsSplit(HexValue(a[..m]), DigitValue(a[m]), HexValue(b[..n]), DigitValue(b[n]));
      SameDigit(a[m], b[n]);
      hide HexValue;
      NumeralUnique(a[..m], b[..n]);
      assert a == a[..m] + [a[m]] && b == b[..n] + [b[n]];
    }
  }

  lemma DigitsSplit(x: int, p: int, y: int, q: int)
    requires 0 <= p < 16 && 0 <= q < 16 && 16 * x + p == 16 * y + q
    ensures x == y && p == q
  {
  }

  lemma SameDigit(c: char, d: char)
    requires IsHexDigit(c) && IsHexDigit(d) && DigitValue(c) == DigitValue(d)
    requires LowerChar(c) == c && LowerChar(d) == d
    ensures c == d
  {
  }

  // ---- bytes in hexadecimal ----

  function HexEncode(b: Bytes): (s: string)
    ensures |s| == 2 * |b|
  {
    seq(2 * |b|, i requires 0 <= i < 2 * |b| =>
      HexDigit(if i % 2 == 0 then b[i / 2] / 16 else b[i / 2] % 16))
  }

  function HexDecode(s: string): Option<Bytes> {
    if |s| % 2 != 0 || !AllHex(s) then None
    else Some(seq(|s| / 2, i requires 0 <= i < |s| / 2 => 16 * DigitValue(s[2 * i]) + DigitValue(s[2 * i + 1])))
  }

  lemma EncodedIsHex(b: Bytes)
    ensures LowerHexText(HexEncode(b))
  {
    var s := HexEncode(b);
    forall i | 0 <= i < |s| ensures IsHexDigit(s[i]) && LowerChar(s[i]) == s[i] {
      assert s[i] == HexDigit(if i % 2 == 0 then b[i / 2] / 16 else b[i / 2] % 16);
    }
  }

  lemma DigitsOfByte(x: Byte)
    ensures var p, q := HexDigit(x as int / 16), HexDigit(x as int % 16);
            IsHexDigit(p) && IsHexDigit(q) && 16 * DigitValue(p) + DigitValue(q) == x as int
  {
  }

  lemma EncodedAt(b: Bytes, i: nat)
    requires i < |b|
    ensures HexEncode(b)[2 * i] == HexDigit(b[i] as int / 16) && HexEncode(b)[2 * i + 1] == HexDigit(b[i] as int % 16)
  {
  }

  lemma DecodedAt(s: string, i: nat)
    requires |s| % 2 == 0 && AllHex(s) && 2 * i + 1 < |s|
    ensures |HexDecode(s).value| == |s| / 2 && HexDecode(s).value[i] as int == 16 * DigitValue(s[2 * i]) + DigitValue(s[2 * i + 1])
  {
  }

  lemma DecodeEncode(b: Bytes)
    ensures HexDecode(HexEncode(b)) == Some(b)
  {
    EncodedIsHex(b);
    var s := HexEncode(b);
    var d := HexDecode(s).value;
    assert |d| == |b|;
    hide HexEncode, HexDecode, HexDigit, DigitValue, LowerHexText;
    forall i | 0 <= i < |b| ensures d[i] == b[i] {
      EncodedAt(b, i);
      DecodedAt(s, i);
      DigitsOfByte(b[i]);
    }
    assert d == b;
  }

  lemma DecodeIgnoresCase(s: string)
    ensures HexDecode(ToLower(s)) == HexDecode(s)
  {
    LowerHex(s);
    var t := ToLower(s);
    if HexDecode(s).Some? {
      forall i | 0 <= i < |s| / 2 ensures HexDecode(t).value[i] == HexDecode(s).value[i] {
        assert IsHexDigit(s[2 * i]) && IsHexDigit(s[2 * i + 1]);
      }
      assert HexDecode(t).value == HexDecode(s).value;
    }
  }

  // ---- byte-wise comparison ----

  function Compare(a: string, b: string): int {
    if a == "" then (if b == "" then 0 else -1)
    else if b == "" then 1
    else if a[0] < b[0] then -1
    else if b[0] < a[0] then 1
    else Compare(a[1..], b[1..])
  }

  lemma {:induction false} CompareOrder(a: string, b: string, c: string)
    ensures Compare(a, b) == 0 <==> a == b
    ensures Compare(a, b) < 0 <==> Compare(b, a) > 0
    ensures Compare(a, b) <= 0 && Compare(b, c) <= 0 ==> Compare(a, c) <= 0
  {
    if a != "" && b != "" {
      assert a == [a[0]] + a[1..] && b == [b[0]] + b[1..];
      if c != "" {
        CompareOrder(a[1..], b[1..], c[1..]);
      } else {
        CompareOrder(a[1..], b[1..], "");
      }
    }
  }
}
