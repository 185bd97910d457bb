/**
 * The Python built-ins that the packet codec relies on, restricted to the
 * inputs it gives them: `bytes.fromhex`, formatting a byte as `'02x'`,
 * `bytes.decode("ascii")`, `str.strip`, `str(n)` for an integer and `int(s)`
 * in base 10.
 */
module PyBuiltins {
  import opened Wrappers

  type Byte = b: int | 0 <= b < 256

  // ---------------------------------------------------------------------
  // Characters
  // ---------------------------------------------------------------------

  predicate IsDigit(c: char) { '0' <= c <= '9' }

  function DigitValue(c: char): (d: nat)
    requires IsDigit(c)
    ensures d < 10
  {
    c as int - '0' as int
  }

  function DigitChar(d: nat): (c: char)
    requires d < 10
    ensures IsDigit(c) && DigitValue(c) == d
  {
    ('0' as int + d) as char
  }

  /** Whitespace as `bytes.fromhex` skips it: C's isspace on ASCII. */
  predicate IsHexSpace(c: char) { c == ' ' || 9 <= c as int <= 13 }

  /** Whitespace as `str.strip` and `int` see it, restricted to ASCII. */
  predicate IsStrSpace(c: char) { c == ' ' || 9 <= c as int <= 13 || 0x1C <= c as int <= 0x1F }

  predicate IsHexDigit(c: char) { IsDigit(c) || 'a' <= c <= 'f' || 'A' <= c <= 'F' }

  function HexDigitValue(c: char): (d: nat)
    requires IsHexDigit(c)
    ensures d < 16
  {
    if IsDigit(c) then DigitValue(c)
    else if 'a' <= c <= 'f' then c as int - 'a' as int + 10
    else c as int - 'A' as int + 10
  }

  /** The lower-case hexadecimal digit of `d`, as `'x'` formatting writes it. */
  function LowerHexChar(d: nat): (c: char)
    requires d < 16
    ensures IsHexDigit(c) && !IsHexSpace(c) && HexDigitValue(c) == d
  {
    if d < 10 then DigitChar(d) else ('a' as int + d - 10) as char
  }

  // ---------------------------------------------------------------------
  // Hexadecimal text
  // ---------------------------------------------------------------------

  /** Only hexadecimal digits and whitespace. */
  predicate HexText(s: string)
  {
    forall i :: 0 <= i < |s| ==> IsHexDigit(s[i]) || IsHexSpace(s[i])
  }

  /**
   * `bytes.fromhex(s)`: pairs of hexadecimal digits of either case, with
   * whitespace allowed before each pair but not inside one; anything else,
   * including a lone final digit, raises (here `None`).
   */
  function FromHex(s: string): (r: Option<seq<Byte>>)
    ensures r.Some? ==> 2 * |r.value| <= |s|
    ensures r.Some? ==> HexText(s)
    decreases |s|
  {
    if |s| == 0 then Some([])
    else if IsHexSpace(s[0]) then FromHex(s[1..])
    else if |s| < 2 || !IsHexDigit(s[0]) || !IsHexDigit(s[1]) then None
    else
      match FromHex(s[2..])
      case None => None
      case Some(rest) => Some([HexDigitValue(s[0]) * 16 + HexDigitValue(s[1])] + rest)
  }

  /** `f'{b:02x}'`: exactly two lower-case hexadecimal digits. */
  function HexByte(b: Byte): (s: string)
    ensures |s| == 2
  {
    [LowerHexChar(b / 16), LowerHexChar(b % 16)]
  }

  /** `''.join(f'{b:02x}' for b in bytes)`. */
  function ToHex(bytes: seq<Byte>): (s: string)
    ensures |s| == 2 * |bytes|
  {
    if |bytes| == 0 then [] else HexByte(bytes[0]) + ToHex(bytes[1..])
  }

  /** Reading back what `ToHex` wrote gives the same bytes. */
  lemma {:induction false} FromHexToHex(bytes: seq<Byte>)
    ensures FromHex(ToHex(bytes)) == Some(bytes)
  {
    if |bytes| > 0 {
      var s := ToHex(bytes);
      assert s == HexByte(bytes[0]) + ToHex(bytes[1..]);
      assert s[2..] == ToHex(bytes[1..]);
      FromHexToHex(bytes[1..]);
      assert bytes == [bytes[0]] + bytes[1..];
    }
  }

  /** Every character `ToHex` writes is a lower-case hexadecimal digit. */
  lemma {:induction false} ToHexIsLowerHex(bytes: seq<Byte>)
    ensures forall i :: 0 <= i < |ToHex(bytes)| ==>
      IsDigit(ToHex(bytes)[i]) || 'a' <= ToHex(bytes)[i] <= 'f'
  {
    if |bytes| > 0 {
      ToHexIsLowerHex(bytes[1..]);
    }
  }

  // ---------------------------------------------------------------------
  // ASCII text
  // ---------------------------------------------------------------------

  /** `bytes.decode("ascii")`: fails on any byte of 128 or more. */
  function AsciiDecode(bytes: seq<Byte>): (r: Option<string>)
    ensures r.Some? <==> forall i :: 0 <= i < |bytes| ==> bytes[i] < 128
    ensures r.Some? ==>
      (|r.value| == |bytes| && forall i :: 0 <= i < |bytes| ==> r.value[i] as int == bytes[i])
  {
    if forall i :: 0 <= i < |bytes| ==> bytes[i] < 128
    then Some(seq(|bytes|, i requires 0 <= i < |bytes| => bytes[i] as char))
    else None
  }

  /** `[ord(c) for c in s]` for a string of ASCII characters. */
  function AsciiBytes(s: string): (bytes: seq<Byte>)
    requires forall i :: 0 <= i < |s| ==> s[i] as int < 128
    ensures |bytes| == |s| && forall i :: 0 <= i < |s| ==> bytes[i] == s[i] as int
  {
    seq(|s|, i requires 0 <= i < |s| => s[i] as int)
  }

  /** Encoding ASCII text and decoding it again gives the text back. */
  lemma AsciiRoundTrip(s: string)
    requires forall i :: 0 <= i < |s| ==> s[i] as int < 128
    ensures AsciiDecode(AsciiBytes(s)) == Some(s)
  {
    var bytes := AsciiBytes(s);
    assert forall i :: 0 <= i < |s| ==> AsciiDecode(bytes).value[i] == s[i];
    assert AsciiDecode(bytes).value == s;
  }

  /** `r` is `s` without its leading whitespace. */
  predicate LeftTrimmed(s: string, r: string)
  {
    && |r| <= |s| && r == s[|s| - |r|..]
    && (forall i :: 0 <= i < |s| - |r| ==> IsStrSpace(s[i]))
    && (r == [] || !IsStrSpace(r[0]))
  }

  /** `r` is `s` without its trailing whitespace. */
  predicate RightTrimmed(s: string, r: string)
  {
    && |r| <= |s| && r == s[..|r|]
    && (forall i :: |r| <= i < |s| ==> IsStrSpace(s[i]))
    && (r == [] || !IsStrSpace(r[|r| - 1]))
  }

  /** `str.lstrip()`: the suffix left once the leading whitespace is dropped. */
  function TrimLeft(s: string): (r: string)
    ensures LeftTrimmed(s, r)
  {
    if |s| > 0 && IsStrSpace(s[0]) then TrimLeft(s[1..]) else s
  }

  /** `str.rstrip()`: the prefix left once the trailing whitespace is dropped. */
  function TrimRight(s: string): (r: string)
    ensures RightTrimmed(s, r)
  {
    if |s| > 0 && IsStrSpace(s[|s| - 1]) then TrimRight(s[..|s| - 1]) else s
  }

  /** Where `str.strip()`'s result starts: the number of leading whitespace characters. */
  function StripStart(s: string): (lo: nat)
    ensures lo <= |s| && forall i :: 0 <= i < lo ==> IsStrSpace(s[i])
  {
    |s| - |TrimLeft(s)|
  }

  /**
   * `str.strip()`: the slice of `s` from `StripStart(s)` that is left once
   * the whitespace at both ends is dropped; it neither starts nor ends with
   * whitespace.
   */
  function Strip(s: string): (r: string)
    ensures StripStart(s) + |r| <= |s| && r == s[StripStart(s)..StripStart(s) + |r|]
    ensures forall i :: StripStart(s) + |r| <= i < |s| ==> IsStrSpace(s[i])
    ensures r == [] || (!IsStrSpace(r[0]) && !IsStrSpace(r[|r| - 1]))
  {
    var left := TrimLeft(s);
    var r := TrimRight(left);
    var lo := |s| - |left|;
    assert left == s[lo..];
    assert r == left[..|r|] == s[lo..lo + |r|];
    TrailingSpace(s, left, r, lo);
    r
  }

  /** The characters `TrimRight` drops from the end of `left == s[lo..]` are whitespace of `s`. */
  lemma TrailingSpace(s: string, left: string, r: string, lo: nat)
    requires lo <= |s| && left == s[lo..] && |r| <= |left|
    requires forall i :: |r| <= i < |left| ==> IsStrSpace(left[i])
    ensures forall i :: lo + |r| <= i < |s| ==> IsStrSpace(s[i])
  {
    forall i | lo + |r| <= i < |s|
      ensures IsStrSpace(s[i])
    {
      assert s[i] == left[i - lo];
    }
  }

  lemma StripNoEdgeSpace(s: string)
    requires s == [] || (!IsStrSpace(s[0]) && !IsStrSpace(s[|s| - 1]))
    ensures Strip(s) == s
  {
  }

  /** Stripping twice is stripping once. */
  lemma StripIdempotent(s: string)
    ensures Strip(Strip(s)) == Strip(s)
  {
    StripNoEdgeSpace(Strip(s));
  }

  // ---------------------------------------------------------------------
  // Decimal integers
  // ---------------------------------------------------------------------

  /** `str(n)` for a non-negative integer: its decimal digits, no leading zero. */
  function DecimalString(n: nat): (s: string)
    ensures |s| > 0 && forall i :: 0 <= i < |s| ==> IsDigit(s[i])
    ensures n >= 10 ==> s[0] != '0'
  {
    if n < 10 then [DigitChar(n)] else DecimalString(n / 10) + [DigitChar(n % 10)]
  }

  /** The number a string of decimal digits denotes. */
  function DigitsValue(s: string): nat
    requires forall i :: 0 <= i < |s| ==> IsDigit(s[i])
  {
    if |s| == 0 then 0 else DigitsValue(s[..|s| - 1]) * 10 + DigitValue(s[|s| - 1])
  }

  /** `s` with every `_` removed. */
  function DropUnderscores(s: string): (r: string)
    ensures |r| <= |s|
  {
    if |s| == 0 then []
    else if s[|s| - 1] == '_' then DropUnderscores(s[..|s| - 1])
    else DropUnderscores(s[..|s| - 1]) + [s[|s| - 1]]
  }

  /**
   * The digit part `int` accepts in base 10: digits, where a single `_` may
   * stand between two digits. Leading zeros are allowed.
   */
  predicate IsDigitGroup(s: string)
  {
    && |s| > 0 && IsDigit(s[0]) && IsDigit(s[|s| - 1])
    && (forall i :: 0 <= i < |s| ==> IsDigit(s[i]) || s[i] == '_')
    && (forall i, j :: 0 <= i < |s| && 0 <= j < |s| && j == i + 1 && s[i] == '_' ==> s[j] != '_')
  }

  lemma {:induction false} DropUnderscoresDigits(s: string)
    requires forall i :: 0 <= i < |s| ==> IsDigit(s[i]) || s[i] == '_'
    ensures forall i :: 0 <= i < |DropUnderscores(s)| ==> IsDigit(DropUnderscores(s)[i])
  {
    if |s| > 0 {
      DropUnderscoresDigits(s[..|s| - 1]);
    }
  }

  /**
   * `int(s)` in base 10 on an already stripped string: an optional `+` or
   * `-` followed by a digit group; anything else raises (here `None`).
   */
  function ParseInt(s: string): (r: Option<int>)
    ensures r.Some? ==> |s| > 0 && IsDigit(s[|s| - 1])
    ensures r.Some? && r.value < 0 ==> s[0] == '-'
  {
    var negative := |s| > 0 && s[0] == '-';
    var body := if |s| > 0 && (s[0] == '+' || s[0] == '-') then s[1..] else s;
    if IsDigitGroup(body) then
      DropUnderscoresDigits(body);
      var n: int := DigitsValue(DropUnderscores(body));
      Some(if negative then -n else n)
    else None
  }

  lemma {:induction false} DigitsValueDecimal(n: nat)
    ensures DigitsValue(DecimalString(n)) == n
  {
    if n >= 10 {
      var s := DecimalString(n);
      assert s[..|s| - 1] == DecimalString(n / 10);
      DigitsValueDecimal(n / 10);
    }
  }

  lemma {:induction false} DropUnderscoresNone(s: string)
    requires forall i :: 0 <= i < |s| ==> IsDigit(s[i])
    ensures DropUnderscores(s) == s
  {
    if |s| > 0 {
      DropUnderscoresNone(s[..|s| - 1]);
      assert s == s[..|s| - 1] + [s[|s| - 1]];
    }
  }

  /** A leading minus sign negates what a digit string parses to. */
  lemma ParseNegated(s: string, m: int)
    requires |s| > 0 && IsDigit(s[0]) && ParseInt(s) == Some(m)
    ensures ParseInt("-" + s) == Some(-m)
  {
    assert ("-" + s)[1..] == s;
  }

  /** `int("-" + s)` after stripping, for a digit string `s` that parses as `m`. */
  lemma ParseStrippedNegated(s: string, m: int)
    requires |s| > 0 && (forall i :: 0 <= i < |s| ==> IsDigit(s[i])) && ParseInt(s) == Some(m)
    ensures Strip("-" + s) == "-" + s
    ensures ParseInt(Strip("-" + s)) == Some(-m)
  {
    var text := "-" + s;
    assert text[0] == '-' && text[|text| - 1] == s[|s| - 1];
    StripNoEdgeSpace(text);
    ParseNegated(s, m);
  }

  /** A non-empty string of plain digits parses as the number it denotes. */
  lemma ParseDigits(s: string)
    requires |s| > 0 && forall i :: 0 <= i < |s| ==> IsDigit(s[i])
    ensures ParseInt(s) == Some(DigitsValue(s))
  {
    DropUnderscoresNone(s);
    assert !(s[0] == '+' || s[0] == '-');
    assert IsDigitGroup(s);
  }

  /** `int(str(n)) == n` for every non-negative `n`. */
  lemma ParseDecimalString(n: nat)
    ensures ParseInt(DecimalString(n)) == Some(n)
  {
    var s := DecimalString(n);
    ParseDigits(s);
    DigitsValueDecimal(n);
  }
}
