/**
 The virtual seekable TAR of internal/image/seekable_tar.go: section readers that are
 seeked in place and may answer short are presented as one flat byte string, laid out as
 the ustar Interchange Format of the pax utility (IEEE Std 1003.1).
 */
module SeekableTar {
  import opened Common

  type Byte = bv8
  type Bytes = seq<Byte>

  const BLOCK := 512
  const END_OF_ARCHIVE := 1024

  function Zeros(n: nat): Bytes {
    seq(n, _ => 0)
  }

  /** The buffer after data has been written over it at the given index. */
  function Patch(buffer: Bytes, at: nat, data: Bytes): Bytes
    requires at + |data| <= |buffer|
  {
    buffer[..at] + data + buffer[at + |data|..]
  }

  lemma PatchNothing(buffer: Bytes, at: nat)
    requires at <= |buffer|
    ensures Patch(buffer, at, []) == buffer
  {
  }

  lemma PatchOnward(buffer: Bytes, x: Bytes, y: Bytes)
    requires |x| + |y| <= |buffer|
    ensures Patch(Patch(buffer, 0, x), |x|, y) == Patch(buffer, 0, x + y)
  {
  }

  // ----- io.Seeker

  const SEEK_START := 0
  const SEEK_CURRENT := 1
  const SEEK_END := 2

  datatype SeekError = InvalidWhence | NegativePosition | SeekFault

  /** Where a Seek on a stream of the given size, standing at pos, must land. */
  function SeekTarget(pos: nat, size: nat, offset: int, whence: int): Result<nat, SeekError> {
    var base := if whence == SEEK_CURRENT then pos else if whence == SEEK_END then size else 0;
    if whence !in {SEEK_START, SEEK_CURRENT, SEEK_END} then Err(InvalidWhence)
    else if base + offset < 0 then Err(NegativePosition)
    else Ok(base + offset)
  }

  // ----- the readers behind the sections

  /** The outcome of one Read: Done is Go's nil error, Fault any error of the data source. */
  datatype Status = Done | Eof | NoProgress | Fault

  /** Either a reader over fixed contents, or the repository's zeroReader. A healthy content
      reader never fails and never answers (0, nil), but may answer short. */
  datatype Source = Content(bytes: Bytes, healthy: bool) | ZeroFill(size: nat)

  class ReadSeeker {
    const source: Source
    var pos: nat

    constructor (source: Source)
      ensures this.source == source && pos == 0
    {
      this.source := source;
      pos := 0;
    }

    function Data(): Bytes {
      match source
      case Content(bytes, _) => bytes
      case ZeroFill(size) => Zeros(size)
    }

    /** The n bytes at a position; n is 0 past the end. */
    function Chunk(at: nat, n: nat): (chunk: Bytes)
      requires n > 0 ==> at + n <= |Data()|
      ensures |chunk| == n
    {
      if n == 0 then [] else Data()[at..at + n]
    }

    predicate Healthy() {
      source.Content? ==> source.healthy
    }

    method Seek(offset: int, whence: int) returns (r: Result<nat, SeekError>)
      modifies this
      ensures r == SeekTarget(old(pos), |Data()|, offset, whence) || (!Healthy() && r == Err(SeekFault))
      ensures Healthy() && whence == SEEK_START && offset >= 0 ==> r == Ok(offset)
      ensures Healthy() && whence == SEEK_CURRENT && old(pos) + offset >= 0 ==> r == Ok(old(pos) + offset)
      ensures Healthy() && whence == SEEK_END && |Data()| + offset >= 0 ==> r == Ok(|Data()| + offset)
      ensures pos == if r.Ok? then r.value else old(pos)
    {
      if !Healthy() {
        var fails: bool := *;
        if fails {
          return Err(SeekFault);
        }
      }
      var newPos: int;
      if whence == SEEK_START {
        newPos := offset;
      } else if whence == SEEK_CURRENT {
        newPos := pos + offset;
      } else if whence == SEEK_END {
        newPos := |Data()| + offset;
      } else {
        return Err(InvalidWhence);
      }
      if newPos < 0 {
        return Err(NegativePosition);
      }
      pos := newPos;
      return Ok(newPos);
    }

    /** Reads into p[lo..hi]. A content reader picks any short length it likes. */
    method Read(p: array<Byte>, lo: nat, hi: nat) returns (n: nat, s: Status)
      requires lo <= hi <= p.Length
      modifies this, p
      ensures n <= hi - lo && pos == old(pos) + n
      ensures n > 0 ==> pos <= |Data()|
      ensures p[..] == Patch(old(p[..]), lo, Chunk(old(pos), n))
      ensures s == Eof ==> |Data()| <= pos
      ensures s != NoProgress
      ensures Healthy() && lo < hi ==> s == Eof || (s == Done && n > 0)
      ensures Healthy() && |Data()| <= old(pos) && lo < hi ==> n == 0 && s == Eof
      ensures source.ZeroFill? && old(pos) < source.size ==> n == Min(hi - lo, source.size - old(pos)) && s == Done
    {
      var remaining := |Data()| - pos;
      if remaining <= 0 {
        PatchNothing(p[..], lo);
        n, s := 0, Eof;
        if !Healthy() {
          s :| s == Eof || s == Fault;
        }
        return;
      }
      n := Min(hi - lo, remaining);
      s := Done;
      if source.Content? && n > 0 {
        var short: nat :| short <= n && (source.healthy ==> 0 < short);
        n := short;
        if n == remaining {
          s :| s == Done || s == Eof;
        }
        if !source.healthy {
          s :| s == Done || s == Fault;
        }
      }
      var chunk := Chunk(pos, n);
      forall k | 0 <= k < n {
        p[lo + k] := chunk[k];
      }
      assert p[..] == Patch(old(p[..]), lo, chunk);
      pos := pos + n;
    }
  }

  // ----- sections

  datatype Section = Section(offset: nat, length: nat, reader: ReadSeeker) {
    function End(): nat {
      offset + length
    }

    /** The reader holds every byte the section promises. */
    predicate Backed() {
      length <= |reader.Data()|
    }
  }

  /** The sections tile [0, total) in order, without gap, overlap or empty section. */
  ghost predicate Tiles(sections: seq<Section>, total: nat) {
    if sections == [] then total == 0
    else
      var last := Last(sections);
      last.length > 0 && last.End() == total && Tiles(Front(sections), last.offset)
  }

  ghost predicate AllBacked(sections: seq<Section>) {
    sections == [] || (Last(sections).Backed() && AllBacked(Front(sections)))
  }

  /** The bytes the sections stand for. */
  ghost function Flatten(sections: seq<Section>): Bytes
    requires AllBacked(sections)
  {
    if sections == [] then []
    else
      var last := Last(sections);
      Flatten(Front(sections)) + last.reader.Data()[..last.length]
  }

  lemma {:induction false} FlattenLength(sections: seq<Section>, total: nat)
    requires Tiles(sections, total) && AllBacked(sections)
    ensures |Flatten(sections)| == total
  {
    if sections != [] {
      FlattenLength(Front(sections), Last(sections).offset);
    }
  }

  lemma SliceLeft(s: Bytes, t: Bytes, from: nat, to: nat)
    requires from <= to <= |s|
    ensures (s + t)[from..to] == s[from..to]
  {
  }

  lemma SliceRight(s: Bytes, t: Bytes, from: nat, to: nat)
    requires from <= to <= |t|
    ensures (s + t)[|s| + from..|s| + to] == t[from..to]
  {
  }

  lemma SlicePrefix(s: Bytes, n: nat, from: nat, to: nat)
    requires from <= to <= n <= |s|
    ensures s[..n][from..to] == s[from..to]
  {
  }

  /** A range inside section i is the same range of the flat string, shifted by its offset. */
  lemma {:induction false} SectionWindow(sections: seq<Section>, total: nat, i: nat, from: nat, to: nat)
    requires Tiles(sections, total) && AllBacked(sections) && i < |sections|
    requires from <= to <= sections[i].length
    ensures sections[i].Backed() && sections[i].End() <= total == |Flatten(sections)|
    ensures Flatten(sections)[sections[i].offset + from..sections[i].offset + to]
         == sections[i].reader.Data()[from..to]
  {
    FlattenLength(sections, total);
    TilesBounded(sections, total, i);
    var last := Last(sections);
    var head, tail := Flatten(Front(sections)), last.reader.Data()[..last.length];
    FlattenLength(Front(sections), last.offset);
    assert Flatten(sections) == head + tail;
    if i < |sections| - 1 {
      SectionWindow(Front(sections), last.offset, i, from, to);
      SliceLeft(head, tail, sections[i].offset + from, sections[i].offset + to);
    } else {
      SliceRight(head, tail, from, to);
      SlicePrefix(last.reader.Data(), last.length, from, to);
    }
  }

  lemma {:induction false} TilesBounded(sections: seq<Section>, total: nat, i: nat)
    requires Tiles(sections, total) && i < |sections|
    ensures sections[i].length > 0 && sections[i].End() <= total
  {
    if i < |sections| - 1 {
      TilesBounded(Front(sections), Last(sections).offset, i);
    }
  }

  /** Tiling sections come in order and share no position. */
  lemma {:induction false} TilesOrdered(sections: seq<Section>, total: nat, i: nat, j: nat)
    requires Tiles(sections, total) && i < j < |sections|
    ensures sections[i].End() <= sections[j].offset
  {
    if j < |sections| - 1 {
      TilesOrdered(Front(sections), Last(sections).offset, i, j);
    } else {
      TilesBounded(Front(sections), Last(sections).offset, i);
    }
  }

  ghost predicate Covers(sections: seq<Section>, i: int, p: nat) {
    0 <= i < |sections| && sections[i].offset <= p < sections[i].End()
  }

  /** Every position below total lies in exactly one section, and no other position in any. */
  lemma {:induction false} SectionsPartition(sections: seq<Section>, total: nat, p: nat)
    requires Tiles(sections, total)
    ensures (exists i :: Covers(sections, i, p)) <==> p < total
    ensures forall i, j :: Covers(sections, i, p) && Covers(sections, j, p) ==> i == j
  {
    if sections != [] {
      SectionsPartition(Front(sections), Last(sections).offset, p);
      if i :| Covers(Front(sections), i, p) {
        assert Covers(sections, i, p);
      }
      if Last(sections).offset <= p < total {
        assert Covers(sections, |sections| - 1, p);
      }
      forall i, j | Covers(sections, i, p) && Covers(sections, j, p)
        ensures i == j
      {
        if i < j {
          TilesOrdered(sections, total, i, j);
        } else if j < i {
          TilesOrdered(sections, total, j, i);
        }
      }
      forall i | Covers(sections, i, p)
        ensures p < total
      {
        TilesBounded(sections, total, i);
      }
    }
  }

  // ----- archive layout

  function Padding(size: nat): nat {
    (BLOCK - size % BLOCK) % BLOCK
  }

  /** One archive member: its header block and its content. */
  datatype Member = Member(header: Bytes, content: Bytes) {
    function Encoded(): Bytes {
      header + content + Zeros(Padding(|content|))
    }
  }

  function Encoded(members: seq<Member>): Bytes {
    if members == [] then [] else members[0].Encoded() + Encoded(members[1..])
  }

  /** The archive the pax utility would write for these members. */
  function Archive(members: seq<Member>): Bytes {
    Encoded(members) + Zeros(END_OF_ARCHIVE)
  }

  lemma {:induction false} EncodedConcat(a: seq<Member>, b: seq<Member>)
    ensures Encoded(a + b) == Encoded(a) + Encoded(b)
  {
    if a == [] {
      assert a + b == b;
    } else {
      EncodedConcat(a[1..], b);
      assert (a + b)[1..] == a[1..] + b && (a + b)[0] == a[0];
      Associate(a[0].Encoded(), Encoded(a[1..]), Encoded(b));
    }
  }

  /** The fields of a member header; modification times are whole seconds. */
  datatype Meta = Meta(name: string, size: int, mode: int, modTime: int)

  /** What archive/tar writes for a header, or None where it refuses. */
  type HeaderWriter = Meta -> Option<Bytes>

  datatype BuildError = HeaderRefused | HeaderNotOneBlock

  function BuildTarHeader(write: HeaderWriter, meta: Meta): Result<Bytes, BuildError> {
    match write(meta)
    case None => Err(HeaderRefused)
    case Some(bytes) => if |bytes| != BLOCK then Err(HeaderNotOneBlock) else Ok(bytes)
  }

  /** archive/tar refuses negative sizes. */
  ghost predicate RefusesNegativeSizes(write: HeaderWriter) {
    forall m :: write(m).Some? ==> m.size >= 0
  }

  /** What a ustar header promises: it names its member, and it is never a zero block. */
  ghost predicate Ustar(write: HeaderWriter) {
    && RefusesNegativeSizes(write)
    && (forall m :: write(m) != Some(Zeros(BLOCK)))
    && (forall m, m' :: write(m).Some? && write(m) == write(m') ==> m == m')
  }

  /** A file as the creator and the reader of the archive see it. */
  datatype File = File(meta: Meta, content: Bytes)

  ghost predicate Writable(write: HeaderWriter, f: File) {
    BuildTarHeader(write, f.meta).Ok? && |f.content| == f.meta.size
  }

  ghost predicate AllWritable(write: HeaderWriter, files: seq<File>) {
    forall i :: 0 <= i < |files| ==> Writable(write, files[i])
  }

  ghost function ToMember(write: HeaderWriter, f: File): (m: Member)
    requires Writable(write, f)
    ensures |m.header| == BLOCK && m.content == f.content
  {
    Member(BuildTarHeader(write, f.meta).value, f.content)
  }

  ghost function ToMembers(write: HeaderWriter, files: seq<File>): (members: seq<Member>)
    requires AllWritable(write, files)
    ensures |members| == |files|
    ensures forall i :: 0 <= i < |files| ==> members[i] == ToMember(write, files[i])
  {
    seq(|files|, i requires 0 <= i < |files| => ToMember(write, files[i]))
  }

  datatype TarEntry = TarEntry(meta: Meta, reader: ReadSeeker) {
    /** The reader holds the bytes the header announces. */
    ghost predicate Backed() {
      meta.size <= |reader.Data()|
    }

    ghost function AsFile(): File
      requires Backed()
    {
      File(meta, if meta.size < 0 then [] else reader.Data()[..meta.size])
    }
  }

  ghost predicate EntriesBacked(entries: seq<TarEntry>) {
    forall i :: 0 <= i < |entries| ==> entries[i].Backed()
  }

  ghost function Files(entries: seq<TarEntry>): (files: seq<File>)
    requires EntriesBacked(entries)
    ensures |files| == |entries|
    ensures forall i :: 0 <= i < |entries| ==> files[i] == entries[i].AsFile()
  {
    seq(|entries|, i requires 0 <= i < |entries| => entries[i].AsFile())
  }

  // ----- the reader

  class SeekableTarReader {
    const sections: seq<Section>
    const total: nat
    var pos: nat

    constructor (sections: seq<Section>, total: nat)
      requires Tiles(sections, total)
      ensures this.sections == sections && this.total == total && pos == 0 && ValidLayout()
    {
      this.sections := sections;
      this.total := total;
      pos := 0;
    }

    ghost predicate ValidLayout() {
      Tiles(sections, total)
    }

    /** Every section reader holds its bytes: the condition under which Read terminates. */
    ghost predicate Valid() {
      ValidLayout() && AllBacked(sections)
    }

    ghost function Flat(): Bytes
      requires Valid()
    {
      Flatten(sections)
    }

    ghost function Readers(): set<ReadSeeker> {
      set i | 0 <= i < |sections| :: sections[i].reader
    }

    ghost predicate AllHealthy() {
      forall i :: 0 <= i < |sections| ==> sections[i].reader.Healthy()
    }

    method FindSection(p: nat) returns (r: Option<Section>)
      requires ValidLayout()
      ensures r.Some? <==> p < total
      ensures r.Some? ==> exists i :: Covers(sections, i, p) && sections[i] == r.value
    {
      SectionsPartition(sections, total, p);
      for i := 0 to |sections|
        invariant forall k :: 0 <= k < i ==> !Covers(sections, k, p)
      {
        var s := sections[i];
        if s.offset <= p && p < s.offset + s.length {
          assert Covers(sections, i, p);
          return Some(s);
        }
      }
      return None;
    }

    /** The cursor stands in a section whose (healthy) reader holds nothing at that place. */
    ghost predicate Stalled()
      reads this
    {
      exists i :: Covers(sections, i, pos) && sections[i].reader.Healthy()
        && |sections[i].reader.Data()| <= pos - sections[i].offset
    }

    /** The n bytes of the flat string at a position. */
    ghost function Window(at: nat, n: nat): (window: Bytes)
      requires Valid() && at + n <= |Flat()|
      ensures |window| == n
    {
      Flat()[at..at + n]
    }

    /** The buffer now starts with the n bytes at a position, and is otherwise untouched. */
    ghost predicate HasDelivered(before: Bytes, after: Bytes, at: nat, n: nat)
      requires Valid()
    {
      at + n <= |Flat()| && n <= |before| && after == Patch(before, 0, Window(at, n))
    }

    lemma DeliverNothing(before: Bytes, at: nat)
      requires Valid() && at <= |Flat()|
      ensures HasDelivered(before, before, at, 0)
    {
      assert Window(at, 0) == [];
      PatchNothing(before, 0);
    }

    lemma DeliverMore(before: Bytes, mid: Bytes, after: Bytes, at: nat, n: nat, m: nat)
      requires Valid() && HasDelivered(before, mid, at, n)
      requires at + n + m <= |Flat()| && n + m <= |before| && after == Patch(mid, n, Window(at + n, m))
      ensures HasDelivered(before, after, at, n + m)
    {
      assert Window(at, n) + Window(at + n, m) == Window(at, n + m);
      PatchOnward(before, Window(at, n), Window(at + n, m));
    }

    /** What the reader of section i holds at an offset is what the flat string holds there. */
    lemma ChunkIsWindow(i: nat, relOffset: nat, n: nat)
      requires Valid() && i < |sections| && relOffset + n <= sections[i].length
      ensures sections[i].End() <= total == |Flat()| && sections[i].Backed()
      ensures sections[i].reader.Chunk(relOffset, n) == Window(sections[i].offset + relOffset, n)
    {
      SectionWindow(sections, total, i, relOffset, relOffset + n);
      var section := sections[i];
      assert Window(section.offset + relOffset, n) == section.reader.Data()[relOffset..relOffset + n];
    }

    /**
     One turn of the Read loop: find the section, seek its reader, read once. The last
     clause says what a reader shorter than its section does to the loop: (0, io.EOF), which
     the loop neither reports nor advances on.
     */
    method ReadOnce(p: array<Byte>, filled: nat) returns (n: nat, s: Status, ghost chunk: Bytes)
      requires ValidLayout() && pos < total && filled < p.Length
      modifies this`pos, Readers(), p
      ensures n == |chunk| <= p.Length - filled && pos == old(pos) + n <= total
      ensures p[..] == Patch(old(p[..]), filled, chunk)
      ensures Valid() ==> |Flat()| == total && chunk == Window(old(pos), n)
      ensures Valid() && s == Eof ==> n > 0
      ensures AllHealthy() ==> s == Eof || (s == Done && n > 0)
      ensures s == Done ==> n > 0
      ensures old(Stalled()) ==> n == 0 && s == Eof
    {
      SectionsPartition(sections, total, pos);
      var found := FindSection(pos);
      var sec := found.value;
      ghost var i :| Covers(sections, i, pos) && sections[i] == sec;
      TilesBounded(sections, total, i);
      assert sec.reader in Readers();
      var relOffset := pos - sec.offset;
      ghost var before := p[..];
      if Valid() {
        ChunkIsWindow(i, relOffset, 0);
      }
      var seeked := sec.reader.Seek(relOffset, SEEK_START);
      if seeked.Err? {
        PatchNothing(before, filled);
        return 0, Fault, [];
      }
      var remaining := sec.length - relOffset;
      var toRead := Min(p.Length - filled, remaining);
      n, s := sec.reader.Read(p, filled, filled + toRead);
      chunk := sec.reader.Chunk(relOffset, n);
      pos := pos + n;
      if Valid() {
        ChunkIsWindow(i, relOffset, n);
      }
      if n == 0 && s == Done {
        s := NoProgress;
      }
    }

    /**
     Reads at the cursor, whatever position the section readers were left in and however
     short they answer. On a fault the bytes already delivered are still right.
     */
    method Read(p: array<Byte>) returns (n: nat, s: Status)
      requires Valid()
      modifies this`pos, Readers(), p
      ensures n <= p.Length && pos == old(pos) + n
      ensures if |Flat()| <= old(pos) then p[..] == old(p[..]) else HasDelivered(old(p[..]), p[..], old(pos), n)
      ensures s == Eof <==> |Flat()| <= old(pos)
      ensures s == Eof ==> n == 0
      ensures s == Done ==> n == Min(p.Length, |Flat()| - old(pos))
      ensures AllHealthy() ==> s == Done || s == Eof
    {
      hide Patch;
      hide Window;
      hide HasDelivered;
      hide Flatten;
      FlattenLength(sections, total);
      if pos >= total {
        return 0, Eof;
      }
      n := 0;
      DeliverNothing(p[..], pos);
      while n < p.Length && pos < total
        invariant n <= p.Length && pos == old(pos) + n <= total
        invariant HasDelivered(old(p[..]), p[..], old(pos), n)
        decreases p.Length - n
      {
        ghost var mid := p[..];
        var m, status, chunk := ReadOnce(p, n);
        DeliverMore(old(p[..]), mid, p[..], old(pos), n, m);
        n := n + m;
        if status == NoProgress {
          return n, NoProgress;
        }
        if status == Fault {
          return n, Fault;
        }
      }
      return n, Done;
    }

    method Seek(offset: int, whence: int) returns (r: Result<nat, SeekError>)
      modifies this`pos
      ensures r == SeekTarget(old(pos), total, offset, whence)
      ensures whence == SEEK_START && offset >= 0 ==> r == Ok(offset)
      ensures whence == SEEK_CURRENT && old(pos) + offset >= 0 ==> r == Ok(old(pos) + offset)
      ensures whence == SEEK_END && total + offset >= 0 ==> r == Ok(total + offset)
      ensures whence == SEEK_START && offset < 0 ==> r == Err(NegativePosition)
      ensures whence == SEEK_CURRENT && old(pos) + offset < 0 ==> r == Err(NegativePosition)
      ensures whence == SEEK_END && total + offset < 0 ==> r == Err(NegativePosition)
      ensures whence < 0 || whence > 2 ==> r == Err(InvalidWhence)
      ensures pos == if r.Ok? then r.value else old(pos)
    {
      var newPos: int;
      if whence == SEEK_START {
        newPos := offset;
      } else if whence == SEEK_CURRENT {
        newPos := pos + offset;
      } else if whence == SEEK_END {
        newPos := total + offset;
      } else {
        return Err(InvalidWhence);
      }
      if newPos < 0 {
        return Err(NegativePosition);
      }
      pos := newPos;
      return Ok(newPos);
    }
  }

  /** Appending a section at the end extends the tiling and the flat string. */
  lemma AppendSection(sections: seq<Section>, total: nat, s: Section)
    requires Tiles(sections, total) && AllBacked(sections)
    requires s.offset == total && s.length > 0 && s.Backed()
    ensures Tiles(sections + [s], s.End()) && AllBacked(sections + [s])
    ensures Flatten(sections + [s]) == Flatten(sections) + s.reader.Data()[..s.length]
  {
    assert Front(sections + [s]) == sections;
  }

  method Append(sections: seq<Section>, offset: nat, length: nat, reader: ReadSeeker)
    returns (grown: seq<Section>, end: nat)
    requires Tiles(sections, offset) && AllBacked(sections)
    requires 0 < length <= |reader.Data()|
    ensures Tiles(grown, end) && AllBacked(grown)
    ensures Flatten(grown) == Flatten(sections) + reader.Data()[..length]
  {
    var section := Section(offset, length, reader);
    AppendSection(sections, offset, section);
    grown := sections + [section];
    end := offset + length;
  }

  method AppendContent(sections: seq<Section>, offset: nat, entry: TarEntry) returns (grown: seq<Section>, end: nat)
    requires Tiles(sections, offset) && AllBacked(sections) && entry.Backed()
    ensures Tiles(grown, end) && AllBacked(grown)
    ensures Flatten(grown) == Flatten(sections) + entry.AsFile().content
  {
    grown, end := sections, offset;
    if entry.meta.size > 0 {
      grown, end := Append(sections, offset, entry.meta.size, entry.reader);
    }
  }

  method AppendPadding(sections: seq<Section>, offset: nat, size: nat) returns (grown: seq<Section>, end: nat)
    requires Tiles(sections, offset) && AllBacked(sections)
    ensures Tiles(grown, end) && AllBacked(grown)
    ensures Flatten(grown) == Flatten(sections) + Zeros(Padding(size))
  {
    grown, end := sections, offset;
    var padding := (BLOCK - size % BLOCK) % BLOCK;
    if padding > 0 {
      var zeroes := new ReadSeeker(ZeroFill(padding));
      grown, end := Append(sections, offset, padding, zeroes);
      assert Zeros(padding)[..padding] == Zeros(padding);
    }
  }

  /** The sections of one entry: header, content if any, padding if any. */
  method AppendEntry(sections: seq<Section>, offset: nat, headerBytes: Bytes, entry: TarEntry)
    returns (grown: seq<Section>, end: nat)
    requires Tiles(sections, offset) && AllBacked(sections)
    requires |headerBytes| > 0 && entry.Backed() && entry.meta.size >= 0
    ensures Tiles(grown, end) && AllBacked(grown)
    ensures Flatten(grown) == Flatten(sections) + Member(headerBytes, entry.AsFile().content).Encoded()
  {
    var header := new ReadSeeker(Content(headerBytes, true));
    grown, end := Append(sections, offset, |headerBytes|, header);
    assert headerBytes[..|headerBytes|] == headerBytes;
    grown, end := AppendContent(grown, end, entry);
    grown, end := AppendPadding(grown, end, entry.meta.size);
    Associate(Flatten(sections), headerBytes, entry.AsFile().content);
    Associate(Flatten(sections), headerBytes + entry.AsFile().content, Zeros(Padding(entry.meta.size)));
  }

  lemma EncodedSnoc(members: seq<Member>, m: Member)
    ensures Encoded(members + [m]) == Encoded(members) + m.Encoded()
  {
    EncodedConcat(members, [m]);
    assert Encoded([m]) == m.Encoded();
  }

  lemma ToMembersSnoc(write: HeaderWriter, files: seq<File>, i: nat)
    requires i < |files| && AllWritable(write, files[..i]) && Writable(write, files[i])
    ensures AllWritable(write, files[..i + 1])
    ensures ToMembers(write, files[..i + 1]) == ToMembers(write, files[..i]) + [ToMember(write, files[i])]
  {
    assert files[..i + 1] == files[..i] + [files[i]];
  }

  method AppendEntries(write: HeaderWriter, entries: seq<TarEntry>)
    returns (r: Result<(seq<Section>, nat), BuildError>)
    requires RefusesNegativeSizes(write) && EntriesBacked(entries)
    ensures r.Ok? <==> AllWritable(write, Files(entries))
    ensures r.Ok? ==> Tiles(r.value.0, r.value.1) && AllBacked(r.value.0)
    ensures r.Ok? ==> Flatten(r.value.0) == Encoded(ToMembers(write, Files(entries)))
  {
    var sections: seq<Section> := [];
    var offset: nat := 0;
    ghost var files := Files(entries);
    ghost var members: seq<Member> := [];
    for i := 0 to |entries|
      invariant Tiles(sections, offset) && AllBacked(sections)
      invariant AllWritable(write, files[..i]) && members == ToMembers(write, files[..i])
      invariant Flatten(sections) == Encoded(members)
    {
      var built := BuildTarHeader(write, entries[i].meta);
      if built.Err? {
        assert !Writable(write, files[i]);
        return Err(built.error);
      }
      sections, offset := AppendEntry(sections, offset, built.value, entries[i]);
      ghost var m := Member(built.value, entries[i].AsFile().content);
      ToMembersSnoc(write, files, i);
      EncodedSnoc(members, m);
      members := members + [m];
    }
    assert files[..|entries|] == files;
    return Ok((sections, offset));
  }

  method NewSeekableTarReader(write: HeaderWriter, entries: seq<TarEntry>)
    returns (r: Result<SeekableTarReader, BuildError>)
    requires RefusesNegativeSizes(write) && EntriesBacked(entries)
    ensures r.Ok? <==> AllWritable(write, Files(entries))
    ensures r.Ok? ==> fresh(r.value) && r.value.pos == 0 && r.value.Valid()
    ensures r.Ok? ==> r.value.Flat() == Archive(ToMembers(write, Files(entries)))
    ensures r.Ok? && Ustar(write) ==> Unarchive(write, r.value.Flat()) == Some(Files(entries))
  {
    var body := AppendEntries(write, entries);
    if body.Err? {
      return Err(body.error);
    }
    var ending := new ReadSeeker(ZeroFill(END_OF_ARCHIVE));
    var sections, offset := Append(body.value.0, body.value.1, END_OF_ARCHIVE, ending);
    assert Zeros(END_OF_ARCHIVE)[..END_OF_ARCHIVE] == Zeros(END_OF_ARCHIVE);
    var reader := new SeekableTarReader(sections, offset);
    if Ustar(write) {
      ArchiveRoundTrip(write, Files(entries));
    }
    return Ok(reader);
  }

  // ----- reading the archive back

  /** The header a block holds, if any. */
  ghost function DecodeHeader(write: HeaderWriter, block: Bytes): Option<Meta> {
    if m :| write(m) == Some(block) then Some(m) else None
  }

  /**
     Reading as the ustar format prescribes: a header block, that many content bytes, skip to
     the next block boundary, and stop at two zero blocks.
     */
  ghost function Unarchive(write: HeaderWriter, archive: Bytes): Option<seq<File>>
    decreases |archive|
  {
    if |archive| < BLOCK then None
    else if archive[..BLOCK] == Zeros(BLOCK) then
      if |archive| >= END_OF_ARCHIVE && archive[BLOCK..END_OF_ARCHIVE] == Zeros(BLOCK) then Some([]) else None
    else
      match DecodeHeader(write, archive[..BLOCK])
      case None => None
      case Some(meta) =>
        if meta.size < 0 || |archive| < BLOCK + meta.size + Padding(meta.size) then None
        else
          match Unarchive(write, archive[BLOCK + meta.size + Padding(meta.size)..])
          case None => None
          case Some(rest) => Some([File(meta, archive[BLOCK..BLOCK + meta.size])] + rest)
  }

  lemma MemberFields(m: Member, rest: Bytes)
    ensures var all := m.Encoded() + rest;
      && |m.Encoded()| == |m.header| + |m.content| + Padding(|m.content|)
      && all[..|m.header|] == m.header
      && all[|m.header|..|m.header| + |m.content|] == m.content
      && all[|m.header| + |m.content| + Padding(|m.content|)..] == rest
  {
  }

  lemma UnarchiveMember(write: HeaderWriter, f: File, rest: Bytes)
    requires Ustar(write) && Writable(write, f) && Unarchive(write, rest).Some?
    ensures Unarchive(write, ToMember(write, f).Encoded() + rest) == Some([f] + Unarchive(write, rest).value)
  {
    var m := ToMember(write, f);
    MemberFields(m, rest);
    assert write(f.meta) == Some(m.header);
    assert DecodeHeader(write, m.header) == Some(f.meta);
  }

  lemma UnarchiveEnd(write: HeaderWriter)
    ensures Unarchive(write, Zeros(END_OF_ARCHIVE)) == Some([])
  {
    var end := Zeros(END_OF_ARCHIVE);
    assert end[..BLOCK] == Zeros(BLOCK) && end[BLOCK..END_OF_ARCHIVE] == Zeros(BLOCK);
  }

  /** Reading an archive the ustar way recovers exactly the files it was written from. */
  lemma {:induction false} ArchiveRoundTrip(write: HeaderWriter, files: seq<File>)
    requires Ustar(write) && AllWritable(write, files)
    ensures Unarchive(write, Archive(ToMembers(write, files))) == Some(files)
  {
    var members := ToMembers(write, files);
    if files == [] {
      assert Archive(members) == Zeros(END_OF_ARCHIVE);
      UnarchiveEnd(write);
    } else {
      ArchiveRoundTrip(write, files[1..]);
      assert members[1..] == ToMembers(write, files[1..]);
      UnarchiveMember(write, files[0], Archive(members[1..]));
      Associate(members[0].Encoded(), Encoded(members[1..]), Zeros(END_OF_ARCHIVE));
      assert [files[0]] + files[1..] == files;
    }
  }

  ghost predicate BlockHeaders(members: seq<Member>) {
    forall i :: 0 <= i < |members| ==> |members[i].header| == BLOCK
  }

  /** Every header starts on a block boundary, right where the members before it end. */
  lemma HeadersAligned(members: seq<Member>, k: nat)
    requires BlockHeaders(members) && k < |members|
    ensures var start := |Encoded(members[..k])|;
      && start % BLOCK == 0
      && start + BLOCK <= |Archive(members)|
      && Archive(members)[start..start + BLOCK] == members[k].header
  {
    EncodedLength(members[..k]);
    assert members == members[..k] + members[k..];
    EncodedConcat(members[..k], members[k..]);
    var before, m := Encoded(members[..k]), members[k];
    var after := Encoded(members[k..][1..]) + Zeros(END_OF_ARCHIVE);
    assert Archive(members) == before + (m.Encoded() + after);
    MemberFields(m, after);
    SliceRight(before, m.Encoded() + after, 0, BLOCK);
  }

  /** Each member's content follows its header, and everything up to the next header, or to the end
      of the archive, is zero. */
  lemma ContentAndGaps(members: seq<Member>, k: nat, i: nat)
    requires BlockHeaders(members) && k < |members|
    ensures var content := |Encoded(members[..k])| + BLOCK; var end := content + |members[k].content|;
      var next := |Encoded(members[..k + 1])|; var archive := Archive(members);
      && end <= next && next + END_OF_ARCHIVE <= |archive|
      && archive[content..end] == members[k].content
      && (end <= i < next ==> archive[i] == 0)
      && (|archive| - END_OF_ARCHIVE <= i < |archive| ==> archive[i] == 0)
  {
    var m, before := members[k], Encoded(members[..k]);
    assert members[..k + 1] == members[..k] + [m] && members == members[..k + 1] + members[k + 1..];
    EncodedSnoc(members[..k], m);
    EncodedConcat(members[..k + 1], members[k + 1..]);
    var after := Encoded(members[k + 1..]) + Zeros(END_OF_ARCHIVE);
    Associate(before, m.Encoded(), Encoded(members[k + 1..]));
    assert Archive(members) == before + (m.Encoded() + after);
    MemberFields(m, after);
    SliceRight(before, m.Encoded() + after, BLOCK, BLOCK + |m.content|);
  }

  // ----- internal/image/builder.go: the size announced before the archive exists

  function CalculateTarSize(contentSize: nat): nat {
    BLOCK + (contentSize + BLOCK - 1) / BLOCK * BLOCK
  }

  function ComputeSize(ovf: nat, iso: nat, disk: nat): nat {
    CalculateTarSize(iso) + CalculateTarSize(ovf) + CalculateTarSize(disk) + END_OF_ARCHIVE
  }

  /** Rounding up by division is padding by remainder. */
  lemma RoundUpIsPadding(size: nat)
    ensures CalculateTarSize(size) == BLOCK + size + Padding(size)
    ensures CalculateTarSize(size) % BLOCK == 0
  {
    var q, r := size / BLOCK, size % BLOCK;
    assert size == q * BLOCK + r;
    assert (size + BLOCK - 1) / BLOCK == if r == 0 then q else q + 1;
  }

  lemma SumAligned(a: nat, b: nat)
    requires a % BLOCK == 0 && b % BLOCK == 0
    ensures (a + b) % BLOCK == 0
  {
  }

  function SizeSum(members: seq<Member>): nat {
    if members == [] then 0 else CalculateTarSize(|members[0].content|) + SizeSum(members[1..])
  }

  lemma {:induction false} EncodedLength(members: seq<Member>)
    requires BlockHeaders(members)
    ensures |Encoded(members)| == SizeSum(members)
    ensures SizeSum(members) % BLOCK == 0
  {
    if members != [] {
      EncodedLength(members[1..]);
      RoundUpIsPadding(|members[0].content|);
      assert |members[0].Encoded()| == CalculateTarSize(|members[0].content|);
      SumAligned(CalculateTarSize(|members[0].content|), SizeSum(members[1..]));
    }
  }

  /** The announced size is the length of the archive of the same three members, in the order
      OpenSeekableReader lists them. */
  lemma ComputeSizeIsArchiveLength(ovf: Member, iso: Member, disk: Member)
    requires BlockHeaders([ovf, iso, disk])
    ensures |Archive([ovf, iso, disk])| == ComputeSize(|ovf.content|, |iso.content|, |disk.content|)
  {
    EncodedLength([ovf, iso, disk]);
    assert [ovf, iso, disk][1..] == [iso, disk] && [iso, disk][1..] == [disk] && [disk][1..] == [];
    assert SizeSum([disk]) == CalculateTarSize(|disk.content|);
    assert SizeSum([iso, disk]) == CalculateTarSize(|iso.content|) + SizeSum([disk]);
  }

  // ----- whole runs of Seek and Read

  datatype Call = SeekCall(offset: int, whence: int) | ReadCall(size: nat)

  datatype Reply = Sought(r: Result<nat, SeekError>) | Delivered(bytes: Bytes, eof: bool)

  /** One call on a plain byte array with a cursor: the reference the reader refines. */
  function ArrayReply(flat: Bytes, pos: nat, call: Call): (Reply, nat) {
    match call
    case SeekCall(offset, whence) =>
      var r := SeekTarget(pos, |flat|, offset, whence);
      (Sought(r), if r.Ok? then r.value else pos)
    case ReadCall(size) =>
      if |flat| <= pos then (Delivered([], true), pos)
      else
        var to := pos + Min(size, |flat| - pos);
        (Delivered(flat[pos..to], false), to)
  }

  function ArrayRun(flat: Bytes, pos: nat, calls: seq<Call>): (seq<Reply>, nat) {
    if calls == [] then ([], pos)
    else
      var (replies, at) := ArrayRun(flat, pos, Front(calls));
      var (reply, next) := ArrayReply(flat, at, Last(calls));
      (replies + [reply], next)
  }

  lemma ArrayRunStep(flat: Bytes, pos: nat, calls: seq<Call>, i: nat)
    requires i < |calls|
    ensures var (replies, at) := ArrayRun(flat, pos, calls[..i]);
      var (reply, next) := ArrayReply(flat, at, calls[i]);
      ArrayRun(flat, pos, calls[..i + 1]) == (replies + [reply], next)
  {
    assert Front(calls[..i + 1]) == calls[..i] && Last(calls[..i + 1]) == calls[i];
  }

  method RunCall(r: SeekableTarReader, call: Call) returns (reply: Reply)
    requires r.Valid() && r.AllHealthy()
    modifies r`pos, r.Readers()
    ensures (reply, r.pos) == ArrayReply(r.Flat(), old(r.pos), call)
  {
    FlattenLength(r.sections, r.total);
    match call {
      case SeekCall(offset, whence) =>
        var sought := r.Seek(offset, whence);
        reply := Sought(sought);
      case ReadCall(size) =>
        var buffer := new Byte[size];
        ghost var start, before := r.pos, buffer[..];
        var n, s := r.Read(buffer);
        if start < r.total {
          assert buffer[..n] == r.Window(start, n);
        } else {
          assert buffer[..n] == [];
        }
        reply := Delivered(buffer[..n], s == Eof);
    }
  }

  /** With healthy readers, any sequence of calls answers as the plain byte array does. */
  method RunCalls(r: SeekableTarReader, calls: seq<Call>) returns (replies: seq<Reply>)
    requires r.Valid() && r.AllHealthy()
    modifies r`pos, r.Readers()
    ensures (replies, r.pos) == ArrayRun(r.Flat(), old(r.pos), calls)
  {
    replies := [];
    for i := 0 to |calls|
      invariant (replies, r.pos) == ArrayRun(r.Flat(), old(r.pos), calls[..i])
    {
      ArrayRunStep(r.Flat(), old(r.pos), calls, i);
      var reply := RunCall(r, calls[i]);
      replies := replies + [reply];
    }
    assert calls[..|calls|] == calls;
  }

  // ----- what callers rely on

  /** http.ServeContent learns the size this way. */
  method SizeBySeeking(r: SeekableTarReader) returns (size: nat)
    requires r.Valid()
    modifies r`pos
    ensures size == |r.Flat()| && r.pos == 0
  {
    FlattenLength(r.sections, r.total);
    var end := r.Seek(0, SEEK_END);
    size := end.value;
    var start := r.Seek(0, SEEK_START);
    assert start.Ok?;
  }

  method FillBuffer(r: SeekableTarReader, n: nat) returns (bytes: Bytes)
    requires r.Valid() && r.AllHealthy() && r.pos + n <= |r.Flat()|
    modifies r`pos, r.Readers()
    ensures bytes == r.Flat()[old(r.pos)..old(r.pos) + n] && r.pos == old(r.pos) + n
  {
    FlattenLength(r.sections, r.total);
    var buffer := new Byte[n];
    ghost var start := r.pos;
    var m, s := r.Read(buffer);
    if start < r.total {
      assert buffer[..n] == r.Window(start, n);
    }
    bytes := buffer[..];
  }

  /** A byte range, as an HTTP range request asks for it. */
  method ReadRange(r: SeekableTarReader, from: nat, n: nat) returns (bytes: Bytes)
    requires r.Valid() && r.AllHealthy() && from + n <= |r.Flat()|
    modifies r`pos, r.Readers()
    ensures bytes == r.Flat()[from..from + n] && r.pos == from + n
  {
    hide Flatten, Tiles, SeekTarget;
    var sought := r.Seek(from, SEEK_START);
    bytes := FillBuffer(r, n);
  }

  /** The last k bytes. */
  method ReadTail(r: SeekableTarReader, k: nat) returns (bytes: Bytes)
    requires r.Valid() && r.AllHealthy() && k <= |r.Flat()|
    modifies r`pos, r.Readers()
    ensures bytes == r.Flat()[|r.Flat()| - k..] && r.pos == |r.Flat()|
  {
    FlattenLength(r.sections, r.total);
    hide Flatten, Tiles, SeekTarget;
    var sought := r.Seek(0 - k, SEEK_END);
    assert r.pos == |r.Flat()| - k;
    bytes := FillBuffer(r, k);
  }

  /** Reading n bytes, stepping back over them and reading again delivers them twice. */
  method ReadTwice(r: SeekableTarReader, n: nat) returns (first: Bytes, again: Bytes)
    requires r.Valid() && r.AllHealthy() && r.pos + n <= |r.Flat()|
    modifies r`pos, r.Readers()
    ensures first == again == r.Flat()[old(r.pos)..old(r.pos) + n] && r.pos == old(r.pos) + n
  {
    hide Flatten, Tiles, SeekTarget;
    first := FillBuffer(r, n);
    var sought := r.Seek(0 - n, SEEK_CURRENT);
    again := FillBuffer(r, n);
  }
}
