/** The hexadecimal command-code label a log entry carries: Python's
    `f"0x{cmd_code:04X}"`, with its parse back to the code. */
module HexLabel {
  import opened Wrappers

  /** The upper-case hexadecimal digit for `d`. */
  function Digit(d: nat): char
    requires d < 16
  {
    if d < 10 then ('0' as int + d) as char else ('A' as int + d - 10) as char
  }

  /** The value of an upper-case hexadecimal digit, `None` for any other character. */
  function DigitValue(c: char): Option<nat> {
    if '0' <= c <= '9' then Some(c as int - '0' as int)
    else if 'A' <= c <= 'F' then Some(c as int - 'A' as int + 10)
    else None
  }

  predicate IsHexString(s: string) {
    forall i :: 0 <= i < |s| ==> DigitValue(s[i]).Some?
  }

  /** The digits of `n` in base 16, most significant first, without leading zeros. */
  function HexDigits(n: nat): (s: string)
    ensures 1 <= |s| && IsHexString(s)
  {
    if n < 16 then [Digit(n)] else HexDigits(n / 16) + [Digit(n % 16)]
  }

  /** `s` left-padded with '0' to at least `width` characters. */
  function ZeroPad(s: string, width: nat): (r: string)
    ensures |r| == if |s| >= width then |s| else width
    ensures IsHexString(s) ==> IsHexString(r)
    decreases width - |s|
  {
    if |s| >= width then s else ZeroPad("0" + s, width)
  }

  /** Python's `format(n, "04X")`: the '0' fill goes after the sign and the sign
      counts towards the width of four. */
  function Format04X(n: int): string {
    if n < 0 then "-" + ZeroPad(HexDigits(-n), 3) else ZeroPad(HexDigits(n), 4)
  }

  /** The `cmd_code` field of a log entry. */
  function CodeLabel(code: int): (s: string)
    ensures |s| >= 6 && s[..2] == "0x"
  {
    "0x" + Format04X(code)
  }

  /** The value of a non-empty string of hexadecimal digits. */
  function ParseHex(s: string): Option<nat> {
    if |s| == 0 then None
    else if |s| == 1 then DigitValue(s[0])
    else
      match (ParseHex(s[..|s| - 1]), DigitValue(s[|s| - 1]))
      case (Some(hi), Some(lo)) => Some(hi * 16 + lo)
      case _ => None
  }

  /** Reads a code back from its label. */
  function ParseCodeLabel(s: string): Option<int> {
    if |s| < 2 || s[..2] != "0x" then None
    else if |s| > 2 && s[2] == '-' then
      match ParseHex(s[3..])
      case Some(v) => Some(-(v as int))
      case None => None
    else
      match ParseHex(s[2..])
      case Some(v) => Some(v)
      case None => None
  }

  lemma {:induction false} ParseHexDigits(n: nat)
    ensures ParseHex(HexDigits(n)) == Some(n)
  {
    if n >= 16 {
      ParseHexDigits(n / 16);
      var s := HexDigits(n);
      assert s[..|s| - 1] == HexDigits(n / 16);
    }
  }

  lemma {:induction false} ParseLeadingZero(s: string)
    requires |s| >= 1
    ensures ParseHex("0" + s) == ParseHex(s)
  {
    if |s| > 1 {
      assert ("0" + s)[..|s|] == "0" + s[..|s| - 1];
      ParseLeadingZero(s[..|s| - 1]);
    }
  }

  lemma {:induction false} ParseZeroPad(s: string, width: nat)
    requires |s| >= 1
    ensures ParseHex(ZeroPad(s, width)) == ParseHex(s)
    decreases width - |s|
  {
    if |s| < width {
      ParseLeadingZero(s);
      ParseZeroPad("0" + s, width);
    }
  }

  /** A "0x-" label reads as the negated value of its digits. */
  lemma ParseNegativeLabel(digits: string)
    ensures ParseCodeLabel("0x-" + digits) == match ParseHex(digits) case Some(v) => Some(-(v as int)) case None => None
  {
    var s := "0x-" + digits;
    assert s[..2] == "0x" && s[2] == '-' && s[3..] == digits;
  }

  /** A "0x" label whose digits do not start with a sign reads as their value. */
  lemma ParseNonNegativeLabel(digits: string)
    requires |digits| > 0 && digits[0] != '-'
    ensures ParseCodeLabel("0x" + digits) == match ParseHex(digits) case Some(v) => Some(v as int) case None => None
  {
    var s := "0x" + digits;
    assert s[..2] == "0x" && s[2] == digits[0] && s[2..] == digits;
  }

  /** A negative code reads back from its label. */
  lemma NegativeLabelRoundTrip(code: int)
    requires code < 0
    ensures ParseCodeLabel(CodeLabel(code)) == Some(code)
  {
    var n: nat := -code;
    var digits := ZeroPad(HexDigits(n), 3);
    ParseHexDigits(n);
    ParseZeroPad(HexDigits(n), 3);
    assert ParseHex(digits) == Some(n);
    assert Format04X(code) == "-" + digits;
    assert "0x" + ("-" + digits) == "0x-" + digits;
    assert CodeLabel(code) == "0x-" + digits;
    ParseNegativeLabel(digits);
  }

  /** A non-negative code reads back from its label. */
  lemma NonNegativeLabelRoundTrip(code: int)
    requires code >= 0
    ensures ParseCodeLabel(CodeLabel(code)) == Some(code)
  {
    var n: nat := code;
    var digits := ZeroPad(HexDigits(n), 4);
    ParseHexDigits(n);
    ParseZeroPad(HexDigits(n), 4);
    assert ParseHex(digits) == Some(n);
    assert DigitValue(digits[0]).Some?;
    assert Format04X(code) == digits;
    assert CodeLabel(code) == "0x" + digits;
    ParseNonNegativeLabel(digits);
  }

  /** No two codes share a label: the code can always be read back. */
  lemma CodeLabelRoundTrip(code: int)
    ensures ParseCodeLabel(CodeLabel(code)) == Some(code)
  {
    if code < 0 {
      NegativeLabelRoundTrip(code);
    } else {
      NonNegativeLabelRoundTrip(code);
    }
  }
}
