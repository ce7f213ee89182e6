/** The git pkt-line framing: the decoder and the sideband demultiplexer that read it, and the
    generator script's printer that writes it. */
module PktLine {
  import opened Basics
  import opened Numbers

  /** `n` zero bytes, as `make([]byte, n)` returns them. */
  function Zeros(n: nat): (z: string)
    ensures |z| == n
  {
    seq(n, _ => '\0')
  }

  /** What a buffer holds after one Read: its front replaced by the bytes delivered. */
  function Fill(buf: string, data: string): (r: string)
    ensures |r| == |buf|
  {
    if |buf| <= |data| then data[..|buf|] else data + buf[|data|..]
  }

  function Drop(data: string, n: nat): (r: string)
    ensures |r| <= |data|
    ensures n > 0 && data != "" ==> |r| < |data|
  {
    if n <= |data| then data[n..] else ""
  }

  lemma FillExact(buf: string, front: string, tail: string)
    requires |buf| == |front|
    ensures Fill(buf, front + tail) == front
    ensures Drop(front + tail, |front|) == tail
  {
  }

  /** An io.Reader over a fixed input. Read delivers min(len, remaining) bytes, and reports
      end of file when nothing remains. */
  class Reader {
    const data: string
    var pos: nat

    ghost predicate Valid()
      reads this
    {
      pos <= |data|
    }

    ghost function Rest(): string
      reads this
      requires Valid()
    {
      data[pos..]
    }

    constructor (data: string)
      ensures Valid() && Rest() == data
    {
      this.data := data;
      pos := 0;
    }

    method Read(b: array<char>) returns (eof: bool)
      requires Valid()
      modifies this`pos, b
      ensures Valid()
      ensures eof <==> old(Rest()) == ""
      ensures b[..] == Fill(old(b[..]), old(Rest()))
      ensures Rest() == Drop(old(Rest()), b.Length)
    {
      eof := pos == |data|;
      var n := if b.Length <= |data| - pos then b.Length else |data| - pos;
      forall i | 0 <= i < n {
        b[i] := data[pos + i];
      }
      pos := pos + n;
    }
  }

  /** Read into a fresh zeroed buffer. */
  method ReadFresh(f: Reader, n: nat) returns (buf: string, eof: bool)
    requires f.Valid()
    modifies f`pos
    ensures f.Valid()
    ensures eof <==> old(f.Rest()) == ""
    ensures buf == Fill(Zeros(n), old(f.Rest()))
    ensures f.Rest() == Drop(old(f.Rest()), n)
  {
    var b := new char[n](_ => '\0');
    assert b[..] == Zeros(n);
    eof := f.Read(b);
    buf := b[..];
  }

  // Decoder

  /** A decoded message list with the input left over, or a failure after some messages. */
  datatype Decode = Decoded(msgs: seq<string>, rest: string) | Failed(msgs: seq<string>, rest: string)

  function Prepend(msgs: seq<string>, d: Decode): Decode {
    match d
    case Decoded(ms, rest) => Decoded(msgs + ms, rest)
    case Failed(ms, rest) => Failed(msgs + ms, rest)
  }

  lemma PrependTwice(a: seq<string>, b: seq<string>, d: Decode)
    ensures Prepend(a, Prepend(b, d)) == Prepend(a + b, d)
  {
    assert a + b + d.msgs == a + (b + d.msgs);
  }

  /** Strip one line feed, then one carriage return. */
  function TrimLine(line: string): (r: string)
    ensures |r| <= |line|
  {
    var l := if line != "" && line[|line| - 1] == '\n' then line[..|line| - 1] else line;
    if l != "" && l[|l| - 1] == '\r' then l[..|l| - 1] else l
  }

  /** The messages after which decoding ends without reading a flush packet. */
  predicate StopWord(m: string) {
    m == "packfile" || m == [1 as char] + "packfile" || m == "NAK"
  }

  /** What one packet turns out to be, with the input left after it. */
  datatype Packet = Line(m: string) | Flush | Malformed

  function NextPacket(data: string): (r: (Packet, string))
    ensures r.0.Line? ==> |r.1| < |data|
  {
    var rest := Drop(data, 4);
    match (if data == "" then None else ParseUint(Fill(Zeros(4), data), 16))
    case None => (Malformed, rest)
    case Some(size) =>
      if size == 0 || size == 2 then (Flush, rest)
      else if size == 3 || size == 4 then (Malformed, rest)
      else
        var n := (if size == 1 then 4 else size) - 4;
        if rest == "" then (Malformed, rest)
        else (Line(TrimLine(Fill(Zeros(n), rest))), Drop(rest, n))
  }

  function DecodeStream(data: string): Decode
    decreases |data|
  {
    var (packet, rest) := NextPacket(data);
    match packet
    case Flush => Decoded([], rest)
    case Malformed => Failed([], rest)
    case Line(m) => if StopWord(m) then Decoded([m], rest) else Prepend([m], DecodeStream(rest))
  }

  /** The body of the decoding loop up to the append: read one packet in place. */
  method ReadPacket(f: Reader) returns (packet: Packet)
    requires f.Valid()
    modifies f
    ensures f.Valid()
    ensures (packet, f.Rest()) == NextPacket(old(f.Rest()))
  {
    var buf, eof := ReadFresh(f, 4);
    if eof {
      return Malformed;
    }
    var parsed := ParseUint(buf, 16);
    if parsed == None {
      return Malformed;
    }
    var size := parsed.value;
    if size == 0 || size == 2 {
      return Flush;
    } else if size == 1 {
      size := 4;
    } else if size == 3 || size == 4 {
      return Malformed;
    }

    var line;
    line, eof := ReadFresh(f, size - 4);
    if eof {
      return Malformed;
    }
    if line != "" && line[|line| - 1] == '\n' {
      line := line[..|line| - 1];
    }
    if line != "" && line[|line| - 1] == '\r' {
      line := line[..|line| - 1];
    }
    return Line(line);
  }

  method DecodeGitProtocol(f: Reader) returns (msgs: seq<string>, ok: bool)
    requires f.Valid()
    modifies f
    ensures f.Valid()
    ensures DecodeStream(old(f.Rest())) == if ok then Decoded(msgs, f.Rest()) else Failed(msgs, f.Rest())
  {
    msgs := [];
    while true
      invariant f.Valid()
      invariant DecodeStream(old(f.Rest())) == Prepend(msgs, DecodeStream(f.Rest()))
      decreases |f.Rest()|
    {
      var packet := ReadPacket(f);
      match packet
      case Malformed => return msgs, false;
      case Flush => return msgs, true;
      case Line(m) =>
        PrependTwice(msgs, [m], DecodeStream(f.Rest()));
        msgs := msgs + [m];
        if StopWord(m) {
          return msgs, true;
        }
    }
  }

  // Printer

  function Pkt(m: string): string {
    Hex04(|m| + 4) + m
  }

  function EncodeAll(ms: seq<string>): string {
    if ms == [] then "" else Pkt(ms[0]) + EncodeAll(ms[1..])
  }

  /** The messages that survive a trip through the framing. */
  predicate Clean(m: string) {
    && 0 < |m| <= 65531
    && m[|m| - 1] != '\n' && m[|m| - 1] != '\r'
    && !StopWord(m)
  }

  predicate AllClean(ms: seq<string>) {
    ms == [] || (Clean(ms[0]) && AllClean(ms[1..]))
  }

  /** One encoded message is read back as one packet, whatever follows it. */
  lemma ReadOne(m: string, tail: string)
    requires 0 < |m| <= 65531
    ensures NextPacket(Pkt(m) + tail) == (Line(TrimLine(m)), tail)
  {
    var head := Hex04(|m| + 4);
    Hex04RoundTrip(|m| + 4);
    assert Pkt(m) + tail == head + (m + tail);
    FillExact(Zeros(4), head, m + tail);
    FillExact(Zeros(|m|), m, tail);
  }

  /** Whatever the input, a packet holds at most 65531 bytes. */
  lemma PacketBound(data: string)
    ensures NextPacket(data).0.Line? ==> |NextPacket(data).0.m| <= 65531
  {
    FourDigits(Fill(Zeros(4), data));
  }

  lemma EmptyPkt(tail: string)
    ensures NextPacket(Pkt("") + tail).0 == Malformed
  {
    var head := Hex04(4);
    Hex04RoundTrip(4);
    assert Pkt("") + tail == head + tail;
    FillExact(Zeros(4), head, tail);
  }

  /** What the next packet is, byte by byte: four hexadecimal digits give its length. 0 and 2 are a flush; 1 is
      an empty line; 3, 4, other characters, and a line with nothing after its length are malformed.
      Otherwise the line is what follows, up to the length, as far as the input goes, padded with zero
      bytes. */
  lemma {:induction false} PacketMeans(data: string)
    ensures |data| < 4 ==> NextPacket(data).0 == Malformed
    ensures |data| >= 4 ==>
              var (packet, rest) := NextPacket(data);
              var n := ParseUint(data[..4], 16);
              && (n.Some? <==> forall i | 0 <= i < 4 :: IsDigit(data[i], 16))
              && (packet == Flush <==> n == Some(0) || n == Some(2))
              && (packet == Malformed <==> n == None || n == Some(3) || n == Some(4) || (n.value !in {0, 2} && |data| == 4))
              && (packet.Line? && n == Some(1) ==> packet.m == "" && rest == data[4..])
              && (packet.Line? && 5 <= n.value <= |data| ==> packet.m == TrimLine(data[4..n.value]) && rest == data[n.value..])
              && (packet.Line? && n.value > |data| ==> packet.m == TrimLine(data[4..] + Zeros(n.value - |data|)) && rest == "")
  {
    if |data| >= 4 {
      ParseUintIff(data[..4], 16);
      FillExact(Zeros(4), data[..4], data[4..]);
      assert data[..4] + data[4..] == data;
      var n := ParseUint(data[..4], 16);
      if n.Some? && n.value >= 5 && |data| > 4 {
        FillUpTo(n.value - 4, data[4..]);
        assert n.value <= |data| ==> data[4..][..n.value - 4] == data[4..n.value] && data[4..][n.value - 4..] == data[n.value..];
      }
    } else if data != "" {
      var buf := Fill(Zeros(4), data);
      assert buf[3] == '\0';
      ParseUintIff(buf, 16);
    }
  }

  lemma FillUpTo(n: nat, data: string)
    ensures n <= |data| ==> Fill(Zeros(n), data) == data[..n] && Drop(data, n) == data[n..]
    ensures n > |data| ==> Fill(Zeros(n), data) == data + Zeros(n - |data|) && Drop(data, n) == ""
  {
  }

  /** One line feed is taken off the end of a line, and then one carriage return. */
  lemma TrimLineMeans(t: string)
    ensures TrimLine(t + "\r\n") == TrimLine(t + "\r") == t
    ensures (t == "" || t[|t| - 1] != '\r') ==> TrimLine(t + "\n") == t
    ensures (t == "" || (t[|t| - 1] != '\r' && t[|t| - 1] != '\n')) ==> TrimLine(t) == t
  {
    assert t + "\r\n" == t + "\r" + "\n";
    TakeLast(t + "\r", '\n');
    TakeLast(t, '\r');
    TakeLast(t, '\n');
  }

  lemma TakeLast(t: string, c: char)
    ensures (t + [c])[..|t + [c]| - 1] == t && (t + [c])[|t + [c]| - 1] == c
  {
  }

  /** Decoding ends after "packfile", alone or on the first side band, or "NAK", and goes on after any other line. */
  lemma StopWords(data: string)
    requires NextPacket(data).0.Line?
    ensures var m, rest := NextPacket(data).0.m, NextPacket(data).1;
            DecodeStream(data) ==
            if m == "packfile" || m == [1 as char] + "packfile" || m == "NAK" then Decoded([m], rest) else Prepend([m], DecodeStream(rest))
  {
  }

  /** An unclean first message is never read back, whatever follows. */
  lemma DecodeUnclean(m: string, ms: seq<string>, more: string, tail: string)
    requires !Clean(m) && |more| > |tail|
    ensures DecodeStream(Pkt(m) + more) != Decoded([m] + ms, tail)
  {
    FirstDecoded(Pkt(m) + more);
    if |m| == 0 {
      EmptyPkt(more);
    } else if |m| <= 65531 {
      ReadOne(m, more);
      UncleanTrims(m);
    } else {
      PacketBound(Pkt(m) + more);
    }
  }

  /** An unclean message of the right size is a stop word or comes back shortened. */
  lemma UncleanTrims(m: string)
    requires 0 < |m| <= 65531 && !Clean(m)
    ensures StopWord(m) || |TrimLine(m)| < |m|
  {
  }

  lemma FirstDecoded(data: string)
    ensures var d := DecodeStream(data);
            match NextPacket(data).0
            case Line(m) => |d.msgs| > 0 && d.msgs[0] == m && (StopWord(m) ==> d.rest == NextPacket(data).1)
            case _ => d.msgs == []
  {
  }

  lemma FlushDecodes(tail: string)
    ensures NextPacket("0000" + tail) == (Flush, tail)
  {
    FillExact(Zeros(4), "0000", tail);
    Hex04RoundTrip(0);
    assert Digits(0, 16) == "0";
    assert "0" + "0" == "00" && "0" + "00" == "000" && "0" + "000" == "0000";
    assert Pad4("0") == Pad4("00") == Pad4("000") == Pad4("0000");
  }

  /** Decoding an encoded list closed by a flush packet returns the list and stops right after
      the flush, exactly when every message is clean. */
  lemma {:induction false} RoundTrip(ms: seq<string>, tail: string)
    ensures DecodeStream(EncodeAll(ms) + "0000" + tail) == Decoded(ms, tail)
            <==> AllClean(ms)
  {
    if ms == [] {
      FlushDecodes(tail);
      assert EncodeAll(ms) + "0000" + tail == "0000" + tail;
    } else {
      var m, more := ms[0], EncodeAll(ms[1..]) + "0000" + tail;
      EncodeFirst(ms, tail);
      RoundTrip(ms[1..], tail);
      if Clean(m) {
        DecodeClean(m, more);
        PrependFirst(m, DecodeStream(more), ms[1..], tail);
      } else {
        DecodeUnclean(m, ms[1..], more, tail);
      }
    }
  }

  lemma EncodeFirst(ms: seq<string>, tail: string)
    requires ms != []
    ensures EncodeAll(ms) + "0000" + tail == Pkt(ms[0]) + (EncodeAll(ms[1..]) + "0000" + tail)
    ensures ms == [ms[0]] + ms[1..]
  {
    var p, q := Pkt(ms[0]), EncodeAll(ms[1..]);
    assert EncodeAll(ms) == p + q;
    Assoc4(p, q, "0000", tail);
  }

  lemma DecodeClean(m: string, more: string)
    requires Clean(m)
    ensures DecodeStream(Pkt(m) + more) == Prepend([m], DecodeStream(more))
  {
    ReadOne(m, more);
    assert TrimLine(m) == m;
  }

  lemma PrependFirst(m: string, d: Decode, ms: seq<string>, tail: string)
    ensures Prepend([m], d) == Decoded([m] + ms, tail) <==> d == Decoded(ms, tail)
  {
    if Prepend([m], d) == Decoded([m] + ms, tail) {
      assert d.msgs == ([m] + d.msgs)[1..] == ([m] + ms)[1..] == ms;
    }
  }
}
