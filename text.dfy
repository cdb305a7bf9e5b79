/** The Java string operations the modelled code relies on:
    case-insensitive comparison, decimal conversion in both directions,
    splitting at a separator and hexadecimal rendering. Only the ASCII
    behaviour of these operations is modelled. */
module Text {
  import opened Common

  // ---------------------------------------------------------------- case

  function ToUpper(c: char): (u: char)
    ensures 'a' <= c <= 'z' ==> u as int == c as int - 32
    ensures !('a' <= c <= 'z') ==> u == c
  {
    if 'a' <= c <= 'z' then (c as int - 32) as char else c
  }

  function ToLower(c: char): (l: char)
    ensures 'A' <= c <= 'Z' ==> l as int == c as int + 32
    ensures !('A' <= c <= 'Z') ==> l == c
  {
    if 'A' <= c <= 'Z' then (c as int + 32) as char else c
  }

  /** String.equalsIgnoreCase: same length, and position by position the
      characters are equal, or equal after upper-casing, or equal after
      upper- then lower-casing. */
  predicate EqualsIgnoreCase(a: string, b: string)
  {
    |a| == |b| &&
    forall i :: 0 <= i < |a| ==>
      a[i] == b[i] || ToUpper(a[i]) == ToUpper(b[i]) || ToLower(ToUpper(a[i])) == ToLower(ToUpper(b[i]))
  }

  /** Characters equal ignoring case are equal after upper-casing (ASCII). */
  lemma IgnoreCaseCharsAgree(c: char, d: char)
    requires c == d || ToUpper(c) == ToUpper(d) || ToLower(ToUpper(c)) == ToLower(ToUpper(d))
    ensures ToUpper(c) == ToUpper(d)
  {
  }

  // ------------------------------------------------------------- decimal

  predicate IsDigit(c: char) { '0' <= c <= '9' }

  predicate AllDigits(s: string) { forall i :: 0 <= i < |s| ==> IsDigit(s[i]) }

  /** The value of a run of decimal digits, most significant first. */
  function DigitsValue(s: string): (n: nat)
    requires AllDigits(s)
  {
    if s == [] then 0 else DigitsValue(s[..|s| - 1]) * 10 + (s[|s| - 1] as int - '0' as int)
  }

  /** The decimal digits of n without leading zeros ("0" for zero). */
  function Digits(n: nat): (s: string)
    ensures |s| > 0 && AllDigits(s)
    ensures |s| > 1 ==> s[0] != '0'
  {
    if n < 10 then [('0' as int + n) as char]
    else Digits(n / 10) + [('0' as int + n % 10) as char]
  }

  lemma {:induction false} DigitsRoundTrip(n: nat)
    ensures DigitsValue(Digits(n)) == n
  {
    var s := Digits(n);
    if n >= 10 {
      DigitsRoundTrip(n / 10);
      assert s[..|s| - 1] == Digits(n / 10);
    }
  }

  /** String.valueOf(int). */
  function IntToString(i: int): (s: string)
    ensures |s| > 0
  {
    if i < 0 then "-" + Digits(-i) else Digits(i)
  }

  /** Integer.parseInt(s): an optional '+' or '-', then at least one decimal
      digit, and a value inside the 32-bit range; anything else throws
      NumberFormatException. */
  function ParseInt(s: string): (r: Result<int, Error>)
    ensures r.Ok? ==> Int32Min <= r.value <= Int32Max
    ensures r.Err? ==> r.error == NumberFormat
    ensures AllDigits(s) && s != [] && DigitsValue(s) <= Int32Max ==> r == Ok(DigitsValue(s))
  {
    if s == [] then Err(NumberFormat)
    else
      var negative := s[0] == '-';
      var body := if s[0] == '-' || s[0] == '+' then s[1..] else s;
      if body == [] || !AllDigits(body) then Err(NumberFormat)
      else
        var v: int := if negative then 0 - DigitsValue(body) as int else DigitsValue(body);
        if Int32Min <= v <= Int32Max then Ok(v) else Err(NumberFormat)
  }

  /** Integer.parseInt reads back every int that String.valueOf wrote. */
  lemma ParseIntOfIntToString(i: int)
    requires Int32Min <= i <= Int32Max
    ensures ParseInt(IntToString(i)) == Ok(i)
  {
    if i < 0 {
      var s := IntToString(i);
      assert s[1..] == Digits(-i);
      DigitsRoundTrip(-i);
    } else {
      DigitsRoundTrip(i);
    }
  }

  // ------------------------------------------------------------ splitting

  /** The pieces of s between occurrences of sep, in order (sep-free pieces;
      one more piece than there are separators). */
  function SplitAll(s: string, sep: char): (parts: seq<string>)
    ensures |parts| > 0
    ensures forall k :: 0 <= k < |parts| ==> sep !in parts[k]
    decreases |s|
  {
    if sep !in s then [s]
    else
      var i := IndexOf(s, sep);
      [s[..i]] + SplitAll(s[i + 1..], sep)
  }

  /** The position of the first occurrence of c in s. */
  function IndexOf(s: string, c: char): (i: nat)
    requires c in s
    ensures i < |s| && s[i] == c && c !in s[..i]
  {
    if s[0] == c then 0 else 1 + IndexOf(s[1..], c)
  }

  /** Drop the empty strings at the end of a list. */
  function DropTrailingEmpty(parts: seq<string>): (r: seq<string>)
    ensures r <= parts
    ensures r == [] || r[|r| - 1] != []
    ensures forall k :: |r| <= k < |parts| ==> parts[k] == []
  {
    if parts == [] || parts[|parts| - 1] != [] then parts
    else DropTrailingEmpty(parts[..|parts| - 1])
  }

  /** String.split with a one-character separator: a string without the
      separator (the empty string included) is its own single piece;
      otherwise the pieces between separators with the trailing empty pieces
      removed. */
  function Split(s: string, sep: char): (parts: seq<string>)
    ensures sep !in s ==> parts == [s]
    ensures sep in s ==> parts <= SplitAll(s, sep) && (parts == [] || parts[|parts| - 1] != [])
    ensures forall k :: 0 <= k < |parts| ==> sep !in parts[k]
  {
    if sep !in s then [s] else DropTrailingEmpty(SplitAll(s, sep))
  }

  /** For a string that ends with a non-empty piece after its last separator,
      the last piece of the split is exactly that piece. */
  lemma {:induction false} SplitLast(prefix: string, sep: char, last: string)
    requires last != [] && sep !in last
    ensures Split(prefix + [sep] + last, sep) != []
    ensures Split(prefix + [sep] + last, sep)[|Split(prefix + [sep] + last, sep)| - 1] == last
  {
    SplitAllLast(prefix + [sep], sep, last);
  }

  lemma {:induction false} SplitAllLast(prefix: string, sep: char, last: string)
    requires prefix != [] && prefix[|prefix| - 1] == sep && sep !in last
    ensures SplitAll(prefix + last, sep)[|SplitAll(prefix + last, sep)| - 1] == last
    decreases |prefix|
  {
    var s := prefix + last;
    assert sep in s by { assert s[|prefix| - 1] == sep; }
    var i := IndexOf(s, sep);
    assert s[|prefix| - 1] == sep;
    if i == |prefix| - 1 {
      assert s[i + 1..] == last;
    } else {
      assert s[i + 1..] == prefix[i + 1..] + last;
      SplitAllLast(prefix[i + 1..], sep, last);
    }
  }

  // ---------------------------------------------------------------- hex

  const HexDigits: string := "0123456789ABCDEF"

  /** DatatypeConverter.printHexBinary: two upper-case hex digits per byte. */
  function Hex(bytes: seq<byte>): (s: string)
    ensures |s| == 2 * |bytes|
    ensures forall i :: 0 <= i < |s| ==> s[i] in HexDigits
  {
    if bytes == [] then ""
    else HexByte(bytes[0]) + Hex(bytes[1..])
  }

  /** One byte: the digit of its high four bits, then that of its low four
      bits. */
  function HexByte(b: byte): (s: string)
    ensures |s| == 2 && s[0] in HexDigits && s[1] in HexDigits
  {
    [HexDigits[(b >> 4) as int], HexDigits[(b & 0xF) as int]]
  }

  function HexValue(c: char): (v: nat)
    ensures v < 16
  {
    if '0' <= c <= '9' then c as int - '0' as int
    else if 'A' <= c <= 'F' then c as int - 'A' as int + 10
    else 0
  }

  /** The four bits a hex digit stands for. */
  function Nibble(c: char): bv8
  {
    HexValue(c) as bv8
  }

  /** Reading hex text back into bytes (the inverse of Hex). */
  function Unhex(s: string): (bytes: seq<byte>)
    requires |s| % 2 == 0
  {
    if s == [] then []
    else [HexPair(s[0], s[1])] + Unhex(s[2..])
  }

  /** The byte two hex digits stand for, high digit first. */
  function HexPair(hi: char, lo: char): byte
  {
    (Nibble(hi) << 4) | Nibble(lo)
  }

  lemma HexDigitNibble(x: bv8)
    requires x < 16
    ensures Nibble(HexDigits[x as int]) == x
  {
    var k := x as int;
    assert HexDigits[k] as int == if k < 10 then '0' as int + k else 'A' as int + k - 10;
    assert HexValue(HexDigits[k]) == k;
  }

  lemma HexByteRoundTrip(b: byte)
    ensures HexPair(HexByte(b)[0], HexByte(b)[1]) == b
  {
    HexDigitNibble(b >> 4);
    HexDigitNibble(b & 0xF);
    NibblesJoin(b);
  }

  lemma NibblesJoin(b: byte)
    ensures ((b >> 4) << 4) | (b & 0xF) == b
  {
  }

  /** The hex rendering loses nothing: it reads back to the same bytes. */
  lemma {:induction false} HexRoundTrip(bytes: seq<byte>)
    ensures Unhex(Hex(bytes)) == bytes
  {
    if bytes != [] {
      var s := Hex(bytes);
      assert s[2..] == Hex(bytes[1..]);
      assert s[..2] == HexByte(bytes[0]);
      HexRoundTrip(bytes[1..]);
      HexByteRoundTrip(bytes[0]);
    }
  }
}
