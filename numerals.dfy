/**
 * Decimal text of non-negative integers, as the sketch produces it with
 * `Number.prototype.toString` (no sign, no leading zeros) and
 * `String.prototype.padStart(2, '0')`, and the reading of such text back.
 */
module Numerals {
  import opened Options

  predicate IsDigit(ch: char) {
    '0' <= ch <= '9'
  }

  function DigitValue(ch: char): (d: nat)
    requires IsDigit(ch)
    ensures d < 10
  {
    ch as int - '0' as int
  }

  function DigitChar(d: nat): (ch: char)
    requires d < 10
    ensures IsDigit(ch) && DigitValue(ch) == d
  {
    ('0' as int + d) as char
  }

  /** Reads a string as decimal digits, most significant first; none if any character is not a digit. */
  function ReadDigits(s: string): Option<nat> {
    if s == [] then Some(0)
    else if !IsDigit(s[|s| - 1]) then None
    else match ReadDigits(s[..|s| - 1])
      case None => None
      case Some(v) => Some(v * 10 + DigitValue(s[|s| - 1]))
  }

  /** `n.toString()` for a non-negative integer `n`: one digit below ten, never a leading zero. */
  function NatToString(n: nat): (s: string)
    ensures 1 <= |s|
    ensures |s| == 1 <==> n < 10
    ensures |s| > 1 ==> s[0] != '0'
  {
    if n < 10 then [DigitChar(n)] else NatToString(n / 10) + [DigitChar(n % 10)]
  }

  /** Reading back the text of `n` gives `n`. */
  lemma {:induction false} NatToStringValue(n: nat)
    ensures ReadDigits(NatToString(n)) == Some(n)
  {
    var s := NatToString(n);
    if n >= 10 {
      NatToStringValue(n / 10);
      assert s[..|s| - 1] == NatToString(n / 10);
    } else {
      assert s[..0] == [];
    }
  }

  /** Different numbers have different texts. */
  lemma NatToStringInjective(a: nat, b: nat)
    requires NatToString(a) == NatToString(b)
    ensures a == b
  {
    NatToStringValue(a);
    NatToStringValue(b);
  }

  /** A number below 100 is written with at most two digits. */
  lemma {:induction false} NatToStringShort(n: nat)
    requires n < 100
    ensures |NatToString(n)| <= 2
  {
    if n >= 10 {
      assert NatToString(n / 10) == [DigitChar(n / 10)];
    }
  }

  /** `s.padStart(2, '0')`: zeros in front until the text is two characters long. */
  function PadStart2(s: string): (r: string)
    ensures |r| == if |s| < 2 then 2 else |s|
  {
    if |s| >= 2 then s else if |s| == 1 then "0" + s else "00"
  }

  /** Padding keeps the text as its suffix, and only zeros come in front of it. */
  lemma PadStart2Shape(s: string)
    ensures PadStart2(s)[|PadStart2(s)| - |s|..] == s
    ensures forall i :: 0 <= i < |PadStart2(s)| - |s| ==> PadStart2(s)[i] == '0'
  {
  }

  /** Padding with zeros does not change what a text reads as. */
  lemma PadStart2Value(s: string)
    ensures ReadDigits(PadStart2(s)) == ReadDigits(s)
  {
    if |s| == 1 {
      assert ("0" + s)[..1] == "0";
      assert "0"[..0] == [];
      assert s[..0] == [];
    } else if |s| == 0 {
      assert "00"[..1] == "0";
      assert "0"[..0] == [];
    }
  }
}
