/** The sideband demultiplexer, and the raw upload-pack stream the test-data generator prints. */
module Pack {
  import opened Basics
  import opened Numbers
  import opened PktLine

  /** The longest commit id that fits one packet with the word before it. */
  const MAX_ID := 65523
  const PACK_DATA := 1 as char

  /** Bytes written to the unpacker, and the input left over. */
  datatype Unpack = Unpacked(out: string, rest: string) | Broken(out: string)

  function Emit(chunk: string, u: Unpack): Unpack {
    match u
    case Unpacked(out, rest) => Unpacked(chunk + out, rest)
    case Broken(out) => Broken(chunk + out)
  }

  lemma EmitTwice(a: string, b: string, u: Unpack)
    ensures Emit(a, Emit(b, u)) == Emit(a + b, u)
  {
    Assoc3(a, b, u.out);
  }

  lemma EmitNothing(u: Unpack)
    ensures Emit("", u) == u
  {
    assert "" + u.out == u.out;
  }

  datatype Band = Data(sideband: char, chunk: string) | End | Bad

  /** One sideband packet. `prev` is what the four-byte length buffer, which is allocated once,
      held before the read; a short read leaves its tail in place. */
  function NextBand(data: string, prev: string): (r: (Band, string))
    requires |prev| == 4
    ensures r.0.Data? ==> |r.1| < |data|
  {
    match (if data == "" then None else ParseInt(Fill(prev, data), 16))
    case None => (Bad, data)
    case Some(size) =>
      var rest := Drop(data, 4);
      if size < 5 then (End, rest)
      else if |rest| < 2 then (Bad, "")
      else (Data(rest[0], Fill(Zeros(size - 5), rest[1..])), Drop(rest[1..], size - 5))
  }

  /** What the next side band packet is, once its four length characters are there: a length that is no number
      breaks the stream off, one below five ends it, and otherwise a channel and what follows it up to
      the length come next, as far as the input goes; without a byte of these the stream is broken. */
  lemma {:induction false} BandMeans(data: string, prev: string)
    requires |prev| == 4 && |data| >= 4
    ensures var (band, rest) := NextBand(data, prev);
            var n := ParseInt(data[..4], 16);
            && (band == Bad <==> n == None || (n.value >= 5 && |data| < 6))
            && (band == End <==> n.Some? && n.value < 5)
            && (band == End ==> rest == data[4..])
            && (band.Data? ==> band.sideband == data[4])
            && (band.Data? && n.value <= |data| ==> band.chunk == data[5..n.value] && rest == data[n.value..])
            && (band.Data? && n.value > |data| ==> band.chunk == data[5..] + Zeros(n.value - |data|) && rest == "")
  {
    FillExact(prev, data[..4], data[4..]);
    assert data[..4] + data[4..] == data;
    var n := ParseInt(data[..4], 16);
    if n.Some? && n.value >= 5 && |data| >= 6 {
      assert data[4..][1..] == data[5..];
      FillUpTo(n.value - 5, data[5..]);
      assert n.value <= |data| ==> data[5..][..n.value - 5] == data[5..n.value] && data[5..][n.value - 5..] == data[n.value..];
    }
  }

  function ReadPackStream(data: string, prev: string): Unpack
    requires |prev| == 4
    decreases |data|
  {
    var (band, rest) := NextBand(data, prev);
    match band
    case Bad => Broken("")
    case End => Unpacked("", rest)
    case Data(sb, chunk) =>
      Emit(if sb == PACK_DATA then chunk else "", ReadPackStream(rest, Fill(prev, data)))
  }

  method ReadPack(f: Reader) returns (written: string, ok: bool)
    requires f.Valid()
    modifies f
    ensures f.Valid()
    ensures ReadPackStream(old(f.Rest()), Zeros(4)) == if ok then Unpacked(written, f.Rest()) else Broken(written)
  {
    written := "";
    var buf := new char[4](_ => '\0');
    assert buf[..] == Zeros(4);
    EmitNothing(ReadPackStream(f.Rest(), buf[..]));
    while true
      invariant f.Valid() && fresh(buf)
      invariant ReadPackStream(old(f.Rest()), Zeros(4)) == Emit(written, ReadPackStream(f.Rest(), buf[..]))
      decreases |f.Rest()|
    {
      var band := ReadBand(f, buf);
      match band
      case Bad => return written, false;
      case End => return written, true;
      case Data(sb, chunk) =>
        var piece := if sb == PACK_DATA then chunk else "";
        EmitTwice(written, piece, ReadPackStream(f.Rest(), buf[..]));
        written := written + piece;
    }
  }

  /** The body of the demultiplexing loop up to the write. */
  method ReadBand(f: Reader, buf: array<char>) returns (band: Band)
    requires f.Valid() && buf.Length == 4
    modifies f, buf
    ensures f.Valid()
    ensures band == NextBand(old(f.Rest()), old(buf[..])).0
    ensures !band.Bad? ==> f.Rest() == NextBand(old(f.Rest()), old(buf[..])).1
    ensures band.Data? ==> buf[..] == Fill(old(buf[..]), old(f.Rest()))
  {
    var eof := f.Read(buf);
    if eof {
      return Bad;
    }
    var size := ParseInt(buf[..], 16);
    if size == None {
      return Bad;
    }
    if size.value < 5 {
      return End;
    }
    var sideband, chunk;
    sideband, eof := ReadFresh(f, 1);
    if eof {
      return Bad;
    }
    chunk, eof := ReadFresh(f, size.value - 5);
    if eof {
      return Bad;
    }
    return Data(sideband[0], chunk);
  }

  // Printer

  const CHUNK := 65516

  function SidebandPkt(sb: char, data: string): string {
    Hex04(|data| + 5) + [sb] + data
  }

  function EncodeBands(bands: seq<(char, string)>): string {
    if bands == [] then "" else SidebandPkt(bands[0].0, bands[0].1) + EncodeBands(bands[1..])
  }

  /** The payload carried on the pack-data channel, in order. */
  function PackPayload(bands: seq<(char, string)>): string {
    if bands == [] then ""
    else (if bands[0].0 == PACK_DATA then bands[0].1 else "") + PackPayload(bands[1..])
  }

  predicate Framable(bands: seq<(char, string)>) {
    forall i | 0 <= i < |bands| :: |bands[i].1| <= 65530
  }

  lemma ReadOneBand(sb: char, chunk: string, more: string, prev: string)
    requires |prev| == 4 && |chunk| <= 65530 && more != ""
    ensures NextBand(SidebandPkt(sb, chunk) + more, prev) == (Data(sb, chunk), more)
  {
    var head := Hex04(|chunk| + 5);
    Hex04RoundTrip(|chunk| + 5);
    var body := [sb] + (chunk + more);
    assert SidebandPkt(sb, chunk) + more == head + body;
    FillExact(prev, head, body);
    assert body[0] == sb && body[1..] == chunk + more;
    FillExact(Zeros(|chunk|), chunk, more);
  }

  lemma ReadFlush(tail: string, prev: string)
    requires |prev| == 4
    ensures NextBand("0000" + tail, prev) == (End, tail)
  {
    FillExact(prev, "0000", tail);
    Hex04RoundTrip(0);
    assert "0" + "0" == "00" && "0" + "00" == "000" && "0" + "000" == "0000";
    assert Pad4("0") == Pad4("00") == Pad4("000") == Pad4("0000");
  }

  /** Whatever mix of sideband channels is sent, the unpacker receives exactly the concatenation
      of the pack-data payloads, and reading stops right after the flush packet. */
  lemma {:induction false} DemuxRoundTrip(bands: seq<(char, string)>, tail: string, prev: string)
    requires |prev| == 4 && Framable(bands)
    ensures ReadPackStream(EncodeBands(bands) + "0000" + tail, prev) == Unpacked(PackPayload(bands), tail)
  {
    if bands == [] {
      assert EncodeBands(bands) + "0000" + tail == "0000" + tail;
      ReadFlush(tail, prev);
    } else {
      var more := EncodeBands(bands[1..]) + "0000" + tail;
      Assoc4(SidebandPkt(bands[0].0, bands[0].1), EncodeBands(bands[1..]), "0000", tail);
      ReadOneBand(bands[0].0, bands[0].1, more, prev);
      DemuxRoundTrip(bands[1..], tail, Fill(prev, EncodeBands(bands) + "0000" + tail));
    }
  }

  /** The generator's split of a pack into chunks, all on the pack-data channel. */
  function Chunks(pack: string): (bands: seq<(char, string)>)
    ensures Framable(bands)
    decreases |pack|
  {
    if pack == "" then []
    else if |pack| <= CHUNK then [(PACK_DATA, pack)]
    else [(PACK_DATA, pack[..CHUNK])] + Chunks(pack[CHUNK..])
  }

  lemma {:induction false} ChunksPayload(pack: string)
    ensures PackPayload(Chunks(pack)) == pack
    decreases |pack|
  {
    if |pack| > CHUNK {
      ChunksPayload(pack[CHUNK..]);
      assert Chunks(pack)[1..] == Chunks(pack[CHUNK..]);
    } else if pack != "" {
      assert Chunks(pack)[1..] == [];
    }
  }

  function Preamble(sha: string): string {
    Pkt("shallow-info\n") + Pkt("shallow " + sha) + "0001" + Pkt("packfile\n")
  }

  /** The generator's main: the preamble, then the pack in chunks, then a flush packet. */
  method BuildRaw(sha: string, pack: string) returns (raw: string)
    ensures raw == Preamble(sha) + EncodeBands(Chunks(pack)) + "0000"
  {
    raw := Pkt("shallow-info\n");
    raw := raw + Pkt("shallow " + sha);
    raw := raw + "0001";
    raw := raw + Pkt("packfile\n");
    var i := 0;
    while i < |pack|
      invariant 0 <= i
      invariant Preamble(sha) + EncodeBands(Chunks(pack)) == raw + EncodeBands(Chunks(Drop(pack, i)))
    {
      var end := if i + CHUNK < |pack| then i + CHUNK else |pack|;
      ChunkStep(pack, i);
      Assoc3(raw, SidebandPkt(PACK_DATA, pack[i..end]), EncodeBands(Chunks(Drop(pack, i + CHUNK))));
      raw := raw + SidebandPkt(PACK_DATA, pack[i..end]);
      i := i + CHUNK;
    }
    raw := raw + "0000";
  }

  lemma ChunkStep(pack: string, i: nat)
    requires i < |pack|
    ensures var end := if i + CHUNK < |pack| then i + CHUNK else |pack|;
            EncodeBands(Chunks(Drop(pack, i))) ==
            SidebandPkt(PACK_DATA, pack[i..end]) + EncodeBands(Chunks(Drop(pack, i + CHUNK)))
  {
    var rest := pack[i..];
    if |rest| > CHUNK {
      assert rest[..CHUNK] == pack[i..i + CHUNK] && rest[CHUNK..] == pack[i + CHUNK..];
      assert Chunks(rest)[1..] == Chunks(rest[CHUNK..]);
    } else {
      assert rest == pack[i..|pack|];
      assert Chunks(rest) == [(PACK_DATA, rest)] && Chunks(rest)[1..] == [];
      assert EncodeBands(Chunks("")) == "";
    }
  }

  /** The four messages decoded from the preamble, for any commit id the framing carries. */
  lemma PreambleDecodes(sha: string, more: string)
    requires |sha| <= MAX_ID
    ensures DecodeStream(Preamble(sha) + more) ==
            Decoded(["shallow-info", TrimLine("shallow " + sha), "", "packfile"], more)
  {
    var m2 := "0001" + (Pkt("packfile\n") + more);
    PreambleSplit(Pkt("shallow-info\n"), Pkt("shallow " + sha), "0001", Pkt("packfile\n"), more);
    PackfileDecodes(more);
    NotAStopWord(sha);
    ShallowDecodes("shallow " + sha, m2);
    var b := TrimLine("shallow " + sha);
    assert ["shallow-info", b] + ["", "packfile"] == ["shallow-info", b, "", "packfile"];
  }

  lemma NotAStopWord(sha: string)
    ensures !StopWord(TrimLine("shallow " + sha))
  {
    assert ("shallow " + sha)[0] == 's';
    assert TrimLine("shallow " + sha)[0] == 's';
  }

  lemma PackfileDecodes(more: string)
    ensures DecodeStream("0001" + (Pkt("packfile\n") + more)) == Decoded(["", "packfile"], more)
  {
    ReadOne("packfile\n", more);
    assert TrimLine("packfile\n") == "packfile";
    ReadDelim(Pkt("packfile\n") + more);
  }

  lemma ShallowDecodes(b: string, more: string)
    requires 0 < |b| <= 65531 && !StopWord(TrimLine(b))
    ensures DecodeStream(Pkt("shallow-info\n") + (Pkt(b) + more)) == Prepend(["shallow-info", TrimLine(b)], DecodeStream(more))
  {
    assert TrimLine("shallow-info\n") == "shallow-info";
    DecodeLine(b, more);
    DecodeLine("shallow-info\n", Pkt(b) + more);
    PrependTwice(["shallow-info"], [TrimLine(b)], DecodeStream(more));
    assert ["shallow-info"] + [TrimLine(b)] == ["shallow-info", TrimLine(b)];
  }

  lemma PreambleSplit(a: string, b: string, c: string, d: string, more: string)
    ensures a + b + c + d + more == a + (b + (c + (d + more)))
  {
    Assoc3(a + b + c, d, more);
    Assoc3(a + b, c, d + more);
    Assoc3(a, b, c + (d + more));
  }

  lemma DecodeLine(m: string, more: string)
    requires 0 < |m| <= 65531 && !StopWord(TrimLine(m))
    ensures DecodeStream(Pkt(m) + more) == Prepend([TrimLine(m)], DecodeStream(more))
  {
    ReadOne(m, more);
  }

  lemma ReadDelim(more: string)
    requires more != ""
    ensures NextPacket("0001" + more) == (Line(""), more)
  {
    FillExact(Zeros(4), "0001", more);
    Hex04RoundTrip(1);
    assert "0" + "1" == "01" && "0" + "01" == "001" && "0" + "001" == "0001";
    assert Pad4("1") == Pad4("01") == Pad4("001") == Pad4("0001");
    assert Fill(Zeros(0), more) == "";
  }

  /** For every pack and commit id, unpacking the generated stream writes exactly that pack. */
  lemma PackRoundTrip(sha: string, pack: string)
    requires |sha| <= MAX_ID
    ensures var raw := Preamble(sha) + EncodeBands(Chunks(pack)) + "0000";
            var d := DecodeStream(raw);
            d.Decoded? && ReadPackStream(d.rest, Zeros(4)) == Unpacked(pack, "")
  {
    var more := EncodeBands(Chunks(pack)) + "0000";
    Assoc3(Preamble(sha), EncodeBands(Chunks(pack)), "0000");
    PreambleDecodes(sha, more);
    DemuxRoundTrip(Chunks(pack), "", Zeros(4));
    assert more + "" == more;
    ChunksPayload(pack);
  }

  /** UnpackObjects, up to the bytes handed to git: decode the preamble, then demultiplex. */
  method UnpackObjects(f: Reader) returns (written: string, ok: bool)
    requires f.Valid()
    modifies f
    ensures f.Valid()
    ensures ok <==> DecodeStream(old(f.Rest())).Decoded?
                    && ReadPackStream(DecodeStream(old(f.Rest())).rest, Zeros(4)).Unpacked?
    ensures ok ==> written == ReadPackStream(DecodeStream(old(f.Rest())).rest, Zeros(4)).out
  {
    var msgs;
    msgs, ok := DecodeGitProtocol(f);
    if !ok {
      return "", false;
    }
    written, ok := ReadPack(f);
  }

  /** The generator and the service composed. */
  method GenerateAndUnpack(sha: string, pack: string) returns (written: string, ok: bool)
    requires |sha| <= MAX_ID
    ensures ok && written == pack
  {
    var raw := BuildRaw(sha, pack);
    PackRoundTrip(sha, pack);
    var f := new Reader(raw);
    written, ok := UnpackObjects(f);
  }
}
