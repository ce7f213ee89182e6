/** SHA256 digests and their hexadecimal spelling. */
module Digests {
  import opened Basics
  import opened Numbers

  /** hex.DecodeString: pairs of hexadecimal digits to bytes. */
  function DecodeHex(s: string): Option<string> {
    if s == "" then Some("")
    else if |s| == 1 then None
    else match (DigitValue(s[0]), DigitValue(s[1]), DecodeHex(s[2..]))
      case (Some(h), Some(l), Some(rest)) => Some([(h * 16 + l) as char] + rest)
      case _ => None
  }

  predicate IsBytes(b: string) {
    forall i | 0 <= i < |b| :: b[i] as int < 256
  }

  function EncodeHex(b: string): string
    requires IsBytes(b)
  {
    if b == "" then "" else [DIGITS[b[0] as int / 16], DIGITS[b[0] as int % 16]] + EncodeHex(b[1..])
  }

  lemma ByteRoundTrip(c: char, rest: string)
    requires c as int < 256
    ensures var h, l := DIGITS[c as int / 16], DIGITS[c as int % 16];
            && !IsSpace(h) && !IsSpace(l)
            && DecodeHex([h, l] + rest) == if DecodeHex(rest).Some? then Some([c] + DecodeHex(rest).value) else None
  {
    DigitRoundTrip(c as int / 16);
    DigitRoundTrip(c as int % 16);
    assert ([DIGITS[c as int / 16], DIGITS[c as int % 16]] + rest)[2..] == rest;
  }

  lemma {:induction false} HexRoundTrip(b: string)
    requires IsBytes(b)
    ensures DecodeHex(EncodeHex(b)) == Some(b)
    ensures |EncodeHex(b)| == 2 * |b|
    ensures forall c | c in EncodeHex(b) :: !IsSpace(c)
  {
    if b != "" {
      HexRoundTrip(b[1..]);
      ByteRoundTrip(b[0], EncodeHex(b[1..]));
      assert [b[0]] + b[1..] == b;
    }
  }

  /** NewSha256Digest: the hexadecimal spelling of exactly 32 bytes. */
  function NewSha256Digest(s: string): Option<string> {
    match DecodeHex(s)
    case Some(b) => if |b| == 32 then Some(b) else None
    case None => None
  }

  /** Characters `2 * i` and `2 * i + 1` of `s` are the digits of byte `i` of `b`. */
  predicate PairAt(s: string, b: string, i: nat) {
    && i < |b| && 2 * i + 1 < |s|
    && DigitValue(s[2 * i]).Some? && DigitValue(s[2 * i + 1]).Some?
    && b[i] as int == DigitValue(s[2 * i]).value * 16 + DigitValue(s[2 * i + 1]).value
  }

  lemma {:induction false} DecodeHexIff(s: string, b: string)
    ensures DecodeHex(s) == Some(b) <==> |s| == 2 * |b| && forall i: nat | i < |b| :: PairAt(s, b, i)
    decreases |s|
  {
    if |s| >= 2 && b != "" {
      DecodeHexIff(s[2..], b[1..]);
      PairsAfterFirst(s, b);
      HexStep(s, b);
    }
  }

  lemma HexStep(s: string, b: string)
    requires |s| >= 2 && b != ""
    ensures DecodeHex(s) == Some(b) <==> PairAt(s, b, 0) && DecodeHex(s[2..]) == Some(b[1..])
  {
    assert b == [b[0]] + b[1..];
  }

  lemma PairsAfterFirst(s: string, b: string)
    requires |s| >= 2 && b != ""
    ensures (forall i: nat | i < |b| :: PairAt(s, b, i))
            <==> PairAt(s, b, 0) && forall i: nat | i < |b[1..]| :: PairAt(s[2..], b[1..], i)
  {
    forall i: nat | i < |b[1..]| ensures PairAt(s[2..], b[1..], i) <==> PairAt(s, b, i + 1) {
      PairAfterFirst(s, b, i);
    }
    if PairAt(s, b, 0) && forall i: nat | i < |b[1..]| :: PairAt(s[2..], b[1..], i) {
      forall i: nat | i < |b| ensures PairAt(s, b, i) {
        assert i > 0 ==> PairAt(s[2..], b[1..], i - 1);
      }
    }
  }

  lemma PairAfterFirst(s: string, b: string, i: nat)
    requires |s| >= 2 && b != ""
    ensures PairAt(s[2..], b[1..], i) <==> PairAt(s, b, i + 1)
  {
    if i < |b[1..]| && 2 * i + 1 < |s[2..]| {
      assert s[2..][2 * i] == s[2 * (i + 1)] && s[2..][2 * i + 1] == s[2 * (i + 1) + 1];
    }
  }

  lemma {:induction false} DecodesIff(s: string)
    ensures DecodeHex(s).Some? <==> |s| % 2 == 0 && forall i | 0 <= i < |s| :: IsDigit(s[i], 16)
    ensures DecodeHex(s).Some? ==> 2 * |DecodeHex(s).value| == |s|
    decreases |s|
  {
    if |s| >= 2 {
      DecodesIff(s[2..]);
      assert s == [s[0], s[1]] + s[2..];
    }
  }

  /** Exactly the strings of 64 hexadecimal digits are SHA256 digests, each two of them a byte. */
  lemma NewSha256DigestIff(s: string, b: string)
    ensures NewSha256Digest(s) == Some(b) <==> |s| == 64 && |b| == 32 && forall i: nat | i < 32 :: PairAt(s, b, i)
  {
    DecodeHexIff(s, b);
  }
}
