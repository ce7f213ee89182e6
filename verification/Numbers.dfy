/** Numerals: strconv.ParseInt and ParseUint, and the matching printers. */
module Numbers {
  import opened Basics

  const DIGITS := "0123456789abcdef"

  predicate Base(b: nat) {
    b == 10 || b == 16
  }

  function DigitValue(c: char): Option<nat> {
    if '0' <= c <= '9' then Some(c as int - '0' as int)
    else if 'a' <= c <= 'f' then Some(c as int - 'a' as int + 10)
    else if 'A' <= c <= 'F' then Some(c as int - 'A' as int + 10)
    else None
  }

  lemma DigitRoundTrip(d: nat)
    requires d < 16
    ensures DigitValue(DIGITS[d]) == Some(d)
  {
  }

  /** A digit has either case. */
  lemma DigitIff(c: char, d: nat)
    ensures DigitValue(c) == Some(d) <==> d < 16 && ("0123456789abcdef"[d] == c || "0123456789ABCDEF"[d] == c)
  {
  }

  /** The value of a possibly empty string of base-`b` digits. */
  function Value(s: string, b: nat): Option<nat> {
    if s == "" then Some(0)
    else match (Value(s[..|s| - 1], b), DigitValue(s[|s| - 1]))
      case (Some(v), Some(d)) => if d < b then Some(v * b + d) else None
      case _ => None
  }

  /** strconv.ParseUint without the range check: at least one digit, no sign. */
  function ParseUint(s: string, b: nat): Option<nat> {
    if s == "" then None else Value(s, b)
  }

  predicate IsDigit(c: char, b: nat) {
    '0' <= c <= '9' || (b == 16 && ('a' <= c <= 'f' || 'A' <= c <= 'F'))
  }

  /** What ParseUint accepts: digits only, and at least one; the value of each is worth `b` times
      what follows it. */
  lemma {:induction false} ParseUintIff(s: string, b: nat)
    requires Base(b)
    ensures ParseUint(s, b).Some? <==> s != "" && forall i | 0 <= i < |s| :: IsDigit(s[i], b)
    ensures ParseUint(s, b).Some? && |s| > 1 ==>
              ParseUint(s, b).value == ParseUint(s[..|s| - 1], b).value * b + DigitValue(s[|s| - 1]).value
    ensures ParseUint(s, b).Some? && |s| == 1 ==> Some(ParseUint(s, b).value) == DigitValue(s[0])
  {
    if s != "" {
      var n := |s| - 1;
      assert s[..n] == "" ==> Value(s[..n], b) == Some(0);
      if n > 0 {
        ParseUintIff(s[..n], b);
      }
      assert ParseUint(s, b).Some? <==> Value(s[..n], b).Some? && IsDigit(s[n], b);
    }
  }

  /** ParseInt64 reads what ParseUint does with an optional sign, if the number fits. */
  lemma ParseInt64Iff(s: string, v: int)
    ensures ParseInt64(s) == Some(v) <==>
            && -0x8000_0000_0000_0000 <= v < 0x8000_0000_0000_0000
            && (|| ParseUint(s, 10) == Some(v)
                || (s != "" && s[0] == '+' && ParseUint(s[1..], 10) == Some(v))
                || (s != "" && s[0] == '-' && ParseUint(s[1..], 10) == Some(-v)))
  {
    ParseUintIff(s, 10);
  }

  function Signed(sign: int, v: Option<nat>): Option<int> {
    if v.Some? then Some(sign * v.value) else None
  }

  /** strconv.ParseInt without the range check: an optional sign, then digits. */
  function ParseInt(s: string, b: nat): Option<int> {
    if s == "" then None
    else if s[0] == '-' then Signed(-1, ParseUint(s[1..], b))
    else if s[0] == '+' then Signed(1, ParseUint(s[1..], b))
    else Signed(1, ParseUint(s, b))
  }

  /** strconv.ParseInt(s, 10, 64). */
  function ParseInt64(s: string): Option<int> {
    match ParseInt(s, 10)
    case Some(v) => if -0x8000_0000_0000_0000 <= v < 0x8000_0000_0000_0000 then Some(v) else None
    case None => None
  }

  function Digits(n: nat, b: nat): (s: string)
    requires Base(b)
    ensures s != ""
    ensures DigitValue(s[0]).Some?
  {
    if n < b then DigitRoundTrip(n); [DIGITS[n]]
    else Digits(n / b, b) + [DIGITS[n % b]]
  }

  lemma AppendDigit(s: string, d: nat, b: nat)
    requires Base(b) && d < b
    ensures Value(s + [DIGITS[d]], b) == (if Value(s, b).Some? then Some(Value(s, b).value * b + d) else None)
  {
    DigitRoundTrip(d);
    assert (s + [DIGITS[d]])[..|s|] == s;
  }

  lemma {:induction false} ValueOfDigits(n: nat, b: nat)
    requires Base(b)
    ensures Value(Digits(n, b), b) == Some(n)
  {
    if n < b {
      AppendDigit("", n, b);
      assert "" + [DIGITS[n]] == Digits(n, b);
    } else {
      ValueOfDigits(n / b, b);
      AppendDigit(Digits(n / b, b), n % b, b);
    }
  }

  lemma DigitsRoundTrip(n: nat, b: nat)
    requires Base(b)
    ensures ParseUint(Digits(n, b), b) == Some(n)
    ensures ParseInt(Digits(n, b), b) == Some(n)
  {
    ValueOfDigits(n, b);
  }

  lemma {:induction false} HexLength(n: nat)
    ensures n < 0x10 <==> |Digits(n, 16)| <= 1
    ensures n < 0x100 <==> |Digits(n, 16)| <= 2
    ensures n < 0x1000 <==> |Digits(n, 16)| <= 3
    ensures n < 0x10000 <==> |Digits(n, 16)| <= 4
  {
    if n >= 16 {
      HexLength(n / 16);
    }
  }

  /** Left-pad with zeros to four characters. */
  function Pad4(s: string): (p: string)
    ensures |p| == if |s| < 4 then 4 else |s|
    decreases 4 - |s|
  {
    if |s| < 4 then Pad4("0" + s) else s
  }

  lemma {:induction false} LeadingZero(s: string, b: nat)
    requires Base(b)
    ensures Value("0" + s, b) == Value(s, b)
  {
    if s == "" {
      assert ("0" + s)[..0] == "";
    } else {
      LeadingZero(s[..|s| - 1], b);
      assert ("0" + s)[..|s|] == "0" + s[..|s| - 1];
    }
  }

  lemma {:induction false} PadKeepsValue(s: string)
    requires s != "" && DigitValue(s[0]).Some?
    ensures Value(Pad4(s), 16) == Value(s, 16)
    ensures DigitValue(Pad4(s)[0]).Some?
    decreases 4 - |s|
  {
    if |s| < 4 {
      LeadingZero(s, 16);
      PadKeepsValue("0" + s);
    }
  }

  /** Python's f"{n:04x}". */
  function Hex04(n: nat): string {
    Pad4(Digits(n, 16))
  }

  lemma Hex04RoundTrip(n: nat)
    ensures |Hex04(n)| == 4 <==> n < 0x10000
    ensures |Hex04(n)| >= 4
    ensures ParseUint(Hex04(n), 16) == Some(n)
    ensures ParseInt(Hex04(n), 16) == Some(n)
  {
    HexLength(n);
    DigitsRoundTrip(n, 16);
    PadKeepsValue(Digits(n, 16));
  }

  /** Four hexadecimal characters never denote more than 0xffff. */
  lemma FourDigits(s: string)
    requires |s| == 4
    ensures match ParseUint(s, 16) case Some(v) => v < 0x10000 case None => true
  {
    var s3, s2, s1 := s[..3], s[..2], s[..1];
    assert s3[..2] == s2 && s2[..1] == s1 && s1[..0] == "";
    assert match Value(s1, 16) case Some(v) => v < 0x10 case None => true;
    assert match Value(s2, 16) case Some(v) => v < 0x100 case None => true;
    assert match Value(s3, 16) case Some(v) => v < 0x1000 case None => true;
  }
}
