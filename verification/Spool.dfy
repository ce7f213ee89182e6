/** Downloading into a temporary file, and moving it to the content-addressed spool. */
module Spool {
  import opened Basics
  import opened Protocol

  datatype Path = Temp(n: nat) | Asset(sessionId: SessionId, digest: Digest)

  type Files = map<Path, string>

  // Download

  /** One Read of the response body: the bytes delivered, and what came with them. */
  datatype ReadEnd = More | Eof | Broken
  datatype Chunk = Chunk(bytes: string, end: ReadEnd)

  /** The body of a response, delivered in chunks of the peer's choosing. */
  class Body {
    const chunks: seq<Chunk>
    var next: nat

    constructor (chunks: seq<Chunk>)
      ensures this.chunks == chunks && next == 0
    {
      this.chunks := chunks;
      next := 0;
    }

    /** Past the last chunk the body reports end of file. */
    method Read() returns (c: Chunk)
      modifies this`next
      ensures c == (if old(next) < |chunks| then chunks[old(next)] else Chunk("", Eof))
      ensures next == old(next) + 1
    {
      c := if next < |chunks| then chunks[next] else Chunk("", Eof);
      next := next + 1;
    }
  }

  /** The bytes a complete copy of the body delivers; nothing when a read breaks first. */
  function Delivered(chunks: seq<Chunk>): Option<string> {
    if chunks == [] then Some("")
    else match chunks[0].end
      case Broken => None
      case Eof => Some(chunks[0].bytes)
      case More =>
        match Delivered(chunks[1..])
        case None => None
        case Some(rest) => Some(chunks[0].bytes + rest)
  }

  /** The copy writes what chunk `i` brings: something, and the body had not ended before. */
  predicate Writes(chunks: seq<Chunk>, i: nat) {
    i < |chunks| && chunks[i].bytes != "" && forall j | 0 <= j < i :: chunks[j].end == More
  }

  /** LocalDownloadHandler: passes bytes through while counting and hashing them. The running hash
      is represented by the bytes it has absorbed: hashing chunks is hashing their concatenation. */
  class LocalDownloadHandler {
    const body: Body
    var size: nat
    var absorbed: string

    constructor (body: Body)
      ensures this.body == body && size == 0 && absorbed == ""
    {
      this.body := body;
      size, absorbed := 0, "";
    }

    method Read() returns (c: Chunk)
      modifies this, body`next
      ensures c == (if old(body.next) < |body.chunks| then body.chunks[old(body.next)] else Chunk("", Eof))
      ensures body.next == old(body.next) + 1
      ensures size == old(size) + |c.bytes| && absorbed == old(absorbed) + c.bytes
    {
      c := body.Read();
      size := size + |c.bytes|;
      absorbed := absorbed + c.bytes;
    }
  }

  /** What a successful download records about the file. */
  datatype Stored = Stored(size: nat, sha1: Digest, sha256: Digest, current: Digest)

  /** localDownload: copy the body to the temporary file, then close it and record size and
      digests. `writes` says which writes to the file succeed, `closes` whether the close does. */
  method LocalDownload(body: Body, writes: nat -> bool, closes: bool, sha1: string -> Digest, sha256: string -> Digest)
    returns (temp: string, stored: Option<Stored>)
    requires body.next == 0
    modifies body`next
    ensures stored.Some? ==>
              && Delivered(body.chunks) == Some(temp)
              && stored.value == Stored(|temp|, sha1(temp), sha256(temp), sha256(temp))
    ensures stored.Some? <==> Delivered(body.chunks).Some? && closes && forall i: nat | Writes(body.chunks, i) :: writes(i)
  {
    var h := new LocalDownloadHandler(body);
    temp := "";
    var size := 0;
    var n := 0;
    var end := More;
    DeliveredStep(body.chunks, 0, "");
    assert Rest(body.chunks, 0) == body.chunks;
    while end == More
      invariant h.body == body && fresh(h)
      invariant n == body.next && temp == h.absorbed && size == h.size == |temp|
      invariant end != Broken
      invariant forall i: nat | i < n && Writes(body.chunks, i) :: writes(i)
      invariant end == Eof ==> n > |body.chunks| || (n > 0 && body.chunks[n - 1].end == Eof)
      invariant end == More ==> forall i | 0 <= i < n && i < |body.chunks| :: body.chunks[i].end == More
      invariant end == More ==> Delivered(body.chunks) == Prefixed(temp, Delivered(Rest(body.chunks, n)))
      invariant end == Eof ==> Delivered(body.chunks) == Some(temp)
      decreases end == More, |body.chunks| - n
    {
      ghost var before := temp;
      var c := h.Read();
      DeliveredStep(body.chunks, n, before);
      if c.bytes != "" {
        if !writes(n) {
          assert Writes(body.chunks, n);
          return temp, None;
        }
        temp := temp + c.bytes;
        size := size + |c.bytes|;
      } else {
        assert temp + c.bytes == temp;
      }
      n := n + 1;
      if c.end == Broken {
        return temp, None;
      }
      end := c.end;
    }
    if !closes {
      return temp, None;
    }
    if size != h.size {
      return temp, None;
    }
    assert forall i: nat | Writes(body.chunks, i) :: i < n;
    stored := Some(Stored(h.size, sha1(h.absorbed), sha256(h.absorbed), sha256(h.absorbed)));
  }

  function Rest(chunks: seq<Chunk>, n: nat): seq<Chunk> {
    if n <= |chunks| then chunks[n..] else []
  }

  function Prefixed(front: string, rest: Option<string>): Option<string> {
    match rest
    case None => None
    case Some(r) => Some(front + r)
  }

  lemma DeliveredStep(chunks: seq<Chunk>, n: nat, front: string)
    ensures var c := if n < |chunks| then chunks[n] else Chunk("", Eof);
            Prefixed(front, Delivered(Rest(chunks, n))) ==
            match c.end
            case Broken => None
            case Eof => Some(front + c.bytes)
            case More => Prefixed(front + c.bytes, Delivered(Rest(chunks, n + 1)))
    ensures Prefixed("", Delivered(chunks)) == Delivered(chunks)
  {
    if Delivered(chunks).Some? {
      assert "" + Delivered(chunks).value == Delivered(chunks).value;
    }
    if n < |chunks| {
      assert chunks[n..][1..] == Rest(chunks, n + 1);
      if Delivered(Rest(chunks, n + 1)).Some? {
        Assoc3(front, chunks[n].bytes, Delivered(Rest(chunks, n + 1)).value);
      }
    }
  }

  // Moving to the spool

  /** Which file-system operations succeed; `copied` is how many bytes are copied before an
      error. */
  datatype Disk = Disk(
    mkdir: bool, stat: bool, rename: bool, open: bool, fstat: bool, create: bool, copied: nat,
    cleanup: bool, unlink: bool)

  /** MoveFile as a function: rename, else copy and remove. */
  function Move(fs: Files, old_: Path, new_: Path, disk: Disk): (Files, bool) {
    if disk.rename && old_ in fs then ((fs - {old_})[new_ := fs[old_]], true)
    else if old_ !in fs || !disk.open || !disk.fstat || !disk.create then (fs, false)
    else if disk.copied < |fs[old_]| then
      (if disk.cleanup then fs - {new_} else fs[new_ := fs[old_][..disk.copied]], false)
    else if !disk.unlink then (fs[new_ := fs[old_]], false)
    else (fs[new_ := fs[old_]] - {old_}, true)
  }

  /** SaveData: keep a file that is already there, else move the temporary file; the temporary
      file is removed in any case (when that removal works). */
  function Save(fs: Files, temp: Path, dest: Path, disk: Disk): (Files, bool) {
    var (g, ok) :=
      if !disk.mkdir then (fs, false)
      else if dest in fs then (fs, disk.stat)
      else if !disk.stat then (fs, false)
      else Move(fs, temp, dest, disk);
    (if disk.unlink then g - {temp} else g, ok)
  }

  class FileSystem {
    var files: Files

    method MoveFile(old_: Path, new_: Path, disk: Disk) returns (ok: bool)
      requires old_ != new_
      modifies this
      ensures (files, ok) == Move(old(files), old_, new_, disk)
    {
      if disk.rename && old_ in files {
        var content := files[old_];
        files := files - {old_};
        files := files[new_ := content];
        return true;
      }
      if old_ !in files || !disk.open {
        return false;
      }
      if !disk.fstat {
        return false;
      }
      if !disk.create {
        return false;
      }
      var source := files[old_];
      files := files[new_ := ""];
      var n := 0;
      while n < |source|
        invariant n <= |source| && n <= disk.copied
        invariant files == old(files)[new_ := source[..n]]
      {
        if n == disk.copied {
          if disk.cleanup {
            files := files - {new_};
            assert files == old(files) - {new_};
          }
          return false;
        }
        assert source[..n + 1] == source[..n] + [source[n]];
        files := files[new_ := files[new_] + [source[n]]];
        n := n + 1;
      }
      assert source[..n] == source;
      if !disk.unlink {
        return false;
      }
      files := files - {old_};
      return true;
    }

    method SaveData(temp: Path, dest: Path, disk: Disk) returns (ok: bool)
      requires temp != dest
      modifies this
      ensures (files, ok) == Save(old(files), temp, dest, disk)
    {
      if !disk.mkdir {
        ok := false;
      } else if dest in files {
        ok := disk.stat;
      } else if !disk.stat {
        ok := false;
      } else {
        ok := MoveFile(temp, dest, disk);
      }
      if disk.unlink {
        files := files - {temp};
      }
    }
  }

  /** The failing family: the copy stopped half-way and its clean-up failed too. */
  predicate Torn(fs: Files, temp: Path, disk: Disk) {
    && temp in fs && !disk.rename && disk.open && disk.fstat && disk.create
    && disk.copied < |fs[temp]| && !disk.cleanup
  }

  /** A move to an absent destination leaves either nothing or the whole content there, exactly
      when it was not torn; a successful move leaves the content and removes the source. */
  lemma MoveIsWhole(fs: Files, temp: Path, dest: Path, disk: Disk)
    requires temp != dest && dest !in fs
    ensures var (g, ok) := Move(fs, temp, dest, disk);
            && ((dest in g ==> temp in fs && g[dest] == fs[temp]) <==> !Torn(fs, temp, disk))
            && (ok ==> temp in fs && g == (fs - {temp})[dest := fs[temp]])
            && (temp in fs ==> (temp in g && g[temp] == fs[temp]) || (dest in g && g[dest] == fs[temp]))
  {
    if Torn(fs, temp, disk) {
      assert |fs[temp][..disk.copied]| < |fs[temp]|;
    }
  }

  /** When a move succeeds: it renames, or copies the whole file and removes the source. */
  lemma MoveSucceedsIff(fs: Files, temp: Path, dest: Path, disk: Disk)
    ensures Move(fs, temp, dest, disk).1 <==>
            && temp in fs
            && (disk.rename || (disk.open && disk.fstat && disk.create && disk.copied >= |fs[temp]| && disk.unlink))
  {
  }

  /** When saving succeeds: the directory and the check of the destination work, and the file is there already
      or is moved there. The temporary file stays only if it cannot be removed. */
  lemma SaveSucceedsIff(fs: Files, temp: Path, dest: Path, disk: Disk)
    requires temp != dest
    ensures var (g, ok) := Save(fs, temp, dest, disk);
            && (ok <==> disk.mkdir && disk.stat && (dest in fs || Move(fs, temp, dest, disk).1))
            && (disk.unlink ==> temp !in g)
            && (dest in fs ==> dest in g && g[dest] == fs[dest])
  {
  }

  /** Every asset in the spool has the digest in its name. */
  ghost predicate Addressed(fs: Files, sha256: string -> Digest) {
    forall id, d | Asset(id, d) in fs :: sha256(fs[Asset(id, d)]) == d
  }

  /** Saving a download under its own digest keeps the spool content-addressed and overwrites no
      existing asset, whatever fails, as long as the move is not torn. */
  lemma SaveKeepsAddressed(fs: Files, n: nat, id: SessionId, d: Digest, disk: Disk, sha256: string -> Digest)
    requires Addressed(fs, sha256) && !Torn(fs, Temp(n), disk)
    requires Temp(n) in fs ==> sha256(fs[Temp(n)]) == d
    ensures var (g, ok) := Save(fs, Temp(n), Asset(id, d), disk);
            && Addressed(g, sha256)
            && (forall p: Path | p.Asset? && p in fs :: p in g && g[p] == fs[p])
            && (forall p: Path | p != Asset(id, d) && p != Temp(n) :: (p in g <==> p in fs) && (p in g ==> g[p] == fs[p]))
            && (ok ==> Asset(id, d) in g)
            && (Temp(n) in g ==> Temp(n) in fs && g[Temp(n)] == fs[Temp(n)])
  {
    if Asset(id, d) !in fs {
      MoveIsWhole(fs, Temp(n), Asset(id, d), disk);
    }
  }

  /** A torn move does break it: the spool then holds a truncated asset. */
  lemma TornBreaks(sha256: string -> Digest)
    requires sha256("") != sha256("x")
    ensures var disk := Disk(true, true, false, true, true, true, 0, false, true);
            var fs: Files := map[Temp(0) := "x"];
            var d := sha256("x");
            Torn(fs, Temp(0), disk) && !Addressed(Save(fs, Temp(0), Asset("s", d), disk).0, sha256)
  {
    var disk := Disk(true, true, false, true, true, true, 0, false, true);
    var fs: Files := map[Temp(0) := "x"];
    var p := Asset("s", sha256("x"));
    assert fs[Temp(0)][..0] == "";
    assert Save(fs, Temp(0), p, disk).0[p] == "";
  }
}
