/** The KFS image: how the build lays out the files of the root file system, and how
    the kernel unpacks them. */
module KfsImage {
  import opened Common
  import opened Bytes
  import opened Paths
  import Utf8
  import Vfs

  const HEADER_SIZE: nat := 28
  const ENTRY_SIZE: nat := 32

  /** What goes into the image, in order.  A directory has no data. */
  datatype Source = Source(path: Path, data: Data, isFile: bool)

  // ---- text ----

  function Codes(p: string): (r: Data)
    ensures |r| == |p|
  {
    seq(|p|, i requires 0 <= i < |p| => p[i] as nat)
  }

  /** A path holds the bytes of its UTF-8 text, one to a character. */
  predicate IsUtf8(p: string) { Utf8.WellFormed(Codes(p)) }

  function Text(b: Data): (r: string)
    requires Utf8.WellFormed(b)
    ensures |r| == |b|
  {
    Utf8.BytesBelow(b);
    seq(|b|, i requires 0 <= i < |b| => b[i] as char)
  }

  lemma TextRoundTrip(p: string)
    requires IsUtf8(p)
    ensures Utf8.WellFormed(Codes(p)) && Text(Codes(p)) == p
  {
    Utf8.BytesBelow(Codes(p));
    forall i | 0 <= i < |p| ensures Text(Codes(p))[i] == p[i] {
      assert Codes(p)[i] == p[i] as nat;
    }
  }

  lemma Utf8Concat(p: string, q: string)
    requires IsUtf8(p) && IsUtf8(q)
    ensures IsUtf8(p + q)
  {
    assert Codes(p + q) == Codes(p) + Codes(q);
    Utf8.Concat(Codes(p), Codes(q));
  }

  lemma AsciiIsUtf8(p: string)
    requires forall i :: 0 <= i < |p| ==> p[i] < 128 as char
    ensures IsUtf8(p)
  {
    Utf8.AsciiIsWellFormed(Codes(p));
  }

  // ---- the image ----

  function Flags(s: Source): nat { if s.isFile then 2 else 1 }

  function Payload(s: Source): Data { if s.isFile then s.data else [] }

  /** One 32-byte entry. */
  function Row(s: Source, pathOffset: nat, dataOffset: nat): (r: Data)
    ensures |r| == ENTRY_SIZE
  {
    Le(|s.path|, 2) + Le(pathOffset, 2)
    + (if s.isFile then Le(dataOffset, 8) + Le(|s.data|, 8) else Le(0, 8) + Le(0, 8))
    + Le(Flags(s), 4) + Le(0, 4) + Le(0, 4)
  }

  function Header(n: nat): (r: Data)
    ensures |r| == HEADER_SIZE
  {
    [0x4b, 0x46, 0x53, 0] + Le(1, 4) + Le(n, 4) + Le(0, 8) + Le(0, 8)
  }

  function PathParts(sources: seq<Source>): (r: seq<Data>)
    ensures |r| == |sources| && forall i :: 0 <= i < |r| ==> r[i] == Codes(sources[i].path)
  {
    seq(|sources|, i requires 0 <= i < |sources| => Codes(sources[i].path))
  }

  function DataParts(sources: seq<Source>): (r: seq<Data>)
    ensures |r| == |sources| && forall i :: 0 <= i < |r| ==> r[i] == Payload(sources[i])
  {
    seq(|sources|, i requires 0 <= i < |sources| => Payload(sources[i]))
  }

  /** Where the data starts. */
  function DataStart(sources: seq<Source>): nat { HEADER_SIZE + ENTRY_SIZE * |sources| + |Flat(PathParts(sources))| }

  function RowOf(sources: seq<Source>, i: nat): (r: Data)
    requires i < |sources|
    ensures |r| == ENTRY_SIZE
  {
    Row(sources[i], Offset(PathParts(sources), i), DataStart(sources) + Offset(DataParts(sources), i))
  }

  function Rows(sources: seq<Source>): (r: seq<Data>)
    ensures |r| == |sources| && forall i :: 0 <= i < |r| ==> r[i] == RowOf(sources, i)
  {
    seq(|sources|, i requires 0 <= i < |sources| => RowOf(sources, i))
  }

  function Image(sources: seq<Source>): Data {
    Header(|sources|) + Flat(Rows(sources)) + Flat(PathParts(sources)) + Flat(DataParts(sources))
  }

  /** The second half of `build_kfs`: header, entries with running offsets, paths, data. */
  method Write(sources: seq<Source>) returns (image: Data)
    ensures image == Image(sources)
  {
    var pathsSize := 0;
    var k := 0;
    while k < |sources|
      invariant 0 <= k <= |sources| && pathsSize == Offset(PathParts(sources), k)
    {
      FlatPush(PathParts(sources), k);
      pathsSize := pathsSize + |sources[k].path|;
      k := k + 1;
    }
    assert PathParts(sources)[..k] == PathParts(sources);
    var dataOffset := HEADER_SIZE + ENTRY_SIZE * |sources| + pathsSize;
    image := Header(|sources|);
    image := WriteRows(sources, image, dataOffset);
    image := WriteParts(PathParts(sources), image);
    image := WriteParts(DataParts(sources), image);
  }

  method WriteRows(sources: seq<Source>, start: Data, dataStart: nat) returns (image: Data)
    requires dataStart == DataStart(sources)
    ensures image == start + Flat(Rows(sources))
  {
    hide Le, Flat, Row, Codes, PathParts, DataParts, Rows;
    FlatEmpty(start);
    image := start;
    var pathOffset, dataOffset, i := 0, dataStart, 0;
    var rows := Rows(sources);
    assert rows[..0] == [] && PathParts(sources)[..0] == [] && DataParts(sources)[..0] == [];
    while i < |sources|
      invariant 0 <= i <= |sources| && image == start + Flat(rows[..i])
      invariant pathOffset == Offset(PathParts(sources), i) && dataOffset == dataStart + Offset(DataParts(sources), i)
    {
      FlatPush(rows, i);
      FlatPush(PathParts(sources), i);
      FlatPush(DataParts(sources), i);
      assert start + Flat(rows[..i]) + rows[i] == start + Flat(rows[..i + 1]);
      image := image + Row(sources[i], pathOffset, dataOffset);
      if sources[i].isFile {
        dataOffset := dataOffset + |sources[i].data|;
      }
      pathOffset := pathOffset + |sources[i].path|;
      i := i + 1;
    }
    assert rows[..i] == rows;
  }

  lemma FlatEmpty(start: Data)
    ensures Flat([]) == [] && start + Flat([]) == start
  {
  }

  method WriteParts(parts: seq<Data>, start: Data) returns (image: Data)
    ensures image == start + Flat(parts)
  {
    image := start;
    var i := 0;
    while i < |parts|
      invariant 0 <= i <= |parts| && image == start + Flat(parts[..i])
    {
      FlatPush(parts, i);
      assert start + Flat(parts[..i]) + parts[i] == start + Flat(parts[..i + 1]);
      image := image + parts[i];
      i := i + 1;
    }
    assert parts[..i] == parts;
  }

  // ---- unpacking ----

  datatype Parse<T> = Good(value: T) | BadImage | BadPath
  datatype Info = Info(path: Path, dataOffset: nat, size: nat, flags: nat)

  /** `image.get(from..from + len)` */
  function Get(image: Data, from: nat, len: nat): Option<Data> {
    if from + len <= |image| then Some(image[from..from + len]) else None
  }

  /** Entry `i`: every number and the path are read with their bounds checked. */
  function ReadEntry(image: Data, pathsStart: nat, i: nat): Parse<Info> {
    var base := HEADER_SIZE + i * ENTRY_SIZE;
    var pathLen, pathOff := ReadLe(image, base, 2), ReadLe(image, base + 2, 2);
    var dataOff, size, flags := ReadLe(image, base + 4, 8), ReadLe(image, base + 12, 8), ReadLe(image, base + 20, 4);
    if pathLen.None? || pathOff.None? || dataOff.None? || size.None? || flags.None? then BadImage else
      var bytes := Get(image, pathsStart + pathOff.value, pathLen.value);
      if bytes.None? || !Utf8.WellFormed(bytes.value) then BadImage
      else if !Paths.Valid(Text(bytes.value)) then BadPath
      else Good(Info(Text(bytes.value), dataOff.value, size.value, flags.value))
  }

  function PathsOf(nodes: Vfs.Nodes): set<Path> {
    set i | 0 <= i < |nodes| && nodes[i].node.Some? :: nodes[i].node.value.path
  }

  function Dir(p: Path): Vfs.Slot { Vfs.Slot(0, Some(Vfs.Node(p, true, []))) }

  /** `ensure_parents`: missing ancestors are made. */
  function EnsureParents(nodes: Vfs.Nodes, p: Path): Vfs.Nodes
    decreases |p|
  {
    var parent := ParentOf(p);
    if parent == "/" then nodes else
      var above := EnsureParents(nodes, parent);
      if parent in PathsOf(above) then above else above + [Dir(parent)]
  }

  function AddEntry(image: Data, e: Info, nodes: Vfs.Nodes): Parse<Vfs.Nodes> {
    var above := EnsureParents(nodes, e.path);
    if e.path in PathsOf(above) then Good(above)
    else if e.flags / 2 % 2 == 1 then
      var data := Get(image, e.dataOffset, e.size);
      if data.None? then BadImage else Good(above + [Vfs.Slot(0, Some(Vfs.Node(e.path, false, data.value)))])
    else if e.flags % 2 == 1 then Good(above + [Dir(e.path)])
    else BadImage
  }

  /** Entries from `i` on. */
  function Unpack(image: Data, count: nat, pathsStart: nat, i: nat, nodes: Vfs.Nodes): Parse<Vfs.Nodes>
    decreases count - i
  {
    if i >= count then Good(nodes) else
      match ReadEntry(image, pathsStart, i)
      case BadImage => BadImage
      case BadPath => BadPath
      case Good(e) =>
        match AddEntry(image, e, nodes)
        case BadImage => BadImage
        case BadPath => BadPath
        case Good(nodes') => Unpack(image, count, pathsStart, i + 1, nodes')
  }

  function Unpacked(image: Data): Parse<Vfs.Nodes> {
    if |image| < HEADER_SIZE || image[..4] != [0x4b, 0x46, 0x53, 0] || ReadLe(image, 4, 4) != Some(1) then BadImage else
      var count := ReadLe(image, 8, 4).value;
      if HEADER_SIZE + count * ENTRY_SIZE > |image|
      then BadImage
      else Unpack(image, count, HEADER_SIZE + count * ENTRY_SIZE, 0, [Dir("/")])
  }

  /** `init`: on any bytes at all, nothing outside the image is read. */
  method Init(image: Data) returns (r: Parse<Vfs.Nodes>)
    ensures r == Unpacked(image)
  {
    hide ReadEntry, AddEntry, UnLe;
    if |image| < HEADER_SIZE || image[..4] != [0x4b, 0x46, 0x53, 0] {
      return BadImage;
    }
    var version := ReadLe(image, 4, 4);
    if version != Some(1) {
      return BadImage;
    }
    var count := ReadLe(image, 8, 4).value;
    var pathsStart := HEADER_SIZE + count * ENTRY_SIZE;
    if pathsStart > |image| {
      return BadImage;
    }
    var nodes := [Dir("/")];
    var i := 0;
    while i < count
      invariant 0 <= i <= count && Unpack(image, count, pathsStart, i, nodes) == Unpacked(image)
    {
      var e := ReadEntry(image, pathsStart, i);
      if e.BadImage? {
        return BadImage;
      }
      if e.BadPath? {
        return BadPath;
      }
      var added := AddEntry(image, e.value, nodes);
      if added.BadImage? {
        return BadImage;
      }
      if added.BadPath? {
        return BadPath;
      }
      nodes := added.value;
      i := i + 1;
    }
    return Good(nodes);
  }

  // ---- the round trip ----

  /** Small enough for the fields of the format. */
  ghost predicate Small(sources: seq<Source>) {
    |sources| < 0x1_0000_0000 && |Flat(PathParts(sources))| < 0x1_0000 && |Image(sources)| < WORD_LIMIT
  }

  ghost predicate ParentBefore(sources: seq<Source>, i: nat)
    requires i < |sources|
  {
    exists j :: 0 <= j < i && !sources[j].isFile && sources[j].path == ParentOf(sources[i].path)
  }

  /** Valid paths in UTF-8. */
  ghost predicate Readable(sources: seq<Source>) {
    forall i :: 0 <= i < |sources| ==>
      Paths.Valid(sources[i].path) && IsUtf8(sources[i].path) && (!sources[i].isFile ==> sources[i].data == [])
  }

  /** The root first, then distinct paths, each after its directory. */
  ghost predicate Ordered(sources: seq<Source>) {
    && |sources| > 0 && sources[0] == Source("/", [], false) && Readable(sources)
    && (forall i, j :: 0 <= i < j < |sources| ==> sources[i].path != sources[j].path)
    && (forall i: nat :: 0 < i < |sources| ==> ParentBefore(sources, i))
  }

  function NodeOf(s: Source): Vfs.Slot { Vfs.Slot(0, Some(Vfs.Node(s.path, !s.isFile, s.data))) }

  function NodesOf(sources: seq<Source>): (r: Vfs.Nodes)
    ensures |r| == |sources| && forall i :: 0 <= i < |r| ==> r[i] == NodeOf(sources[i])
  {
    seq(|sources|, i requires 0 <= i < |sources| => NodeOf(sources[i]))
  }

  lemma RowAt(sources: seq<Source>, i: nat)
    requires i < |sources|
    ensures var image, at := Image(sources), HEADER_SIZE + i * ENTRY_SIZE;
      at + ENTRY_SIZE <= |image| && image[at..at + ENTRY_SIZE] == RowOf(sources, i)
  {
    hide Le, Flat, Row, Codes, PathParts, DataParts, Rows, RowOf, Header;
    var rows, after := Rows(sources), Flat(PathParts(sources)) + Flat(DataParts(sources));
    EqualParts(rows, ENTRY_SIZE, i);
    SliceInside(Header(|sources|), rows, after, i);
    assert Image(sources) == Header(|sources|) + Flat(rows) + after;
  }

  lemma RowsEnd(sources: seq<Source>)
    ensures |Header(|sources|) + Flat(Rows(sources))| == HEADER_SIZE + |sources| * ENTRY_SIZE
    ensures |Image(sources)| == DataStart(sources) + |Flat(DataParts(sources))|
  {
    hide Le, Flat, Row, Codes, PathParts, DataParts, Rows, RowOf, Header;
    EqualParts(Rows(sources), ENTRY_SIZE, |sources|);
    assert Rows(sources)[..|sources|] == Rows(sources);
  }

  lemma PathAt(sources: seq<Source>, i: nat)
    requires i < |sources|
    ensures Get(Image(sources), HEADER_SIZE + |sources| * ENTRY_SIZE + Offset(PathParts(sources), i),
        |sources[i].path|) == Some(Codes(sources[i].path))
    ensures Offset(PathParts(sources), i) + |sources[i].path| <= |Flat(PathParts(sources))|
  {
    hide Le, Flat, Row, Codes, PathParts, DataParts, Rows, RowOf, Header;
    RowsEnd(sources);
    var before, paths, after := Header(|sources|) + Flat(Rows(sources)), PathParts(sources), Flat(DataParts(sources));
    SliceInside(before, paths, after, i);
    FlatSlice(paths, i);
    assert Image(sources) == before + Flat(paths) + after;
  }

  lemma DataAt(sources: seq<Source>, i: nat)
    requires i < |sources|
    ensures Get(Image(sources), DataStart(sources) + Offset(DataParts(sources), i),
        |Payload(sources[i])|) == Some(Payload(sources[i]))
    ensures DataStart(sources) + Offset(DataParts(sources), i) + |Payload(sources[i])| <= |Image(sources)|
  {
    hide Le, Flat, Row, Codes, PathParts, DataParts, Rows, RowOf, Header;
    RowsEnd(sources);
    var before, data := Header(|sources|) + Flat(Rows(sources)) + Flat(PathParts(sources)), DataParts(sources);
    SliceInside(before, data, [], i);
    assert Image(sources) == before + Flat(data) + [];
  }

  lemma Regrouped(a: Data, b: Data, c: Data, d: Data, e: Data, f: Data)
    ensures a + b + (c + d) + e + f + f == [] + a + (b + c + d + e + f + f) == a + b + (c + d + e + f + f)
    ensures a + b + (c + d) + e + f + f == (a + b) + c + (d + e + f + f) == (a + b + c) + d + (e + f + f)
    ensures a + b + (c + d) + e + f + f == (a + b + c + d) + e + (f + f)
  {
  }

  /** The fields of a row, read back wherever the row lies. */
  lemma RowFields(image: Data, at: nat, s: Source, pathOffset: nat, dataOffset: nat)
    requires at + ENTRY_SIZE <= |image| && image[at..at + ENTRY_SIZE] == Row(s, pathOffset, dataOffset)
    requires |s.path| < 0x1_0000 && pathOffset < 0x1_0000 && dataOffset < WORD_LIMIT && |s.data| < WORD_LIMIT
    ensures ReadLe(image, at, 2) == Some(|s.path|) && ReadLe(image, at + 2, 2) == Some(pathOffset)
    ensures ReadLe(image, at + 4, 8) == Some(if s.isFile then dataOffset else 0)
    ensures ReadLe(image, at + 12, 8) == Some(|Payload(s)|)
    ensures ReadLe(image, at + 20, 4) == Some(Flags(s))
  {
    hide Le, ReadLe;
    Powers();
    var row := Row(s, pathOffset, dataOffset);
    var a, b := Le(|s.path|, 2), Le(pathOffset, 2);
    var x, y := if s.isFile then dataOffset else 0, |Payload(s)|;
    var c, d, e, f := Le(x, 8), Le(y, 8), Le(Flags(s), 4), Le(0, 4);
    Regrouped(a, b, c, d, e, f);
    ReadField(image, at, row, [], |s.path|, 2, b + c + d + e + f + f);
    ReadField(image, at, row, a, pathOffset, 2, c + d + e + f + f);
    ReadField(image, at, row, a + b, x, 8, d + e + f + f);
    ReadField(image, at, row, a + b + c, y, 8, e + f + f);
    ReadField(image, at, row, a + b + c + d, Flags(s), 4, f + f);
  }

  /** What the parser sees of entry `i`. */
  ghost function InfoOf(sources: seq<Source>, i: nat): Info
    requires i < |sources|
  {
    var s := sources[i];
    Info(s.path, if s.isFile then DataStart(sources) + Offset(DataParts(sources), i) else 0, |Payload(s)|, Flags(s))
  }

  lemma EntryReads(sources: seq<Source>, i: nat)
    requires Readable(sources) && Small(sources) && i < |sources|
    ensures ReadEntry(Image(sources), HEADER_SIZE + |sources| * ENTRY_SIZE, i) == Good(InfoOf(sources, i))
  {
    hide Le, Flat, Row, PathParts, DataParts, Rows, Header, ReadLe, Image, Paths.Valid, Offset, Codes, Text,
      Utf8.WellFormed;
    var s := sources[i];
    RowAt(sources, i);
    PathAt(sources, i);
    DataAt(sources, i);
    RowFields(Image(sources), HEADER_SIZE + i * ENTRY_SIZE, s.(data := Payload(s)), Offset(PathParts(sources), i),
        DataStart(sources) + Offset(DataParts(sources), i));
    TextRoundTrip(s.path);
  }

  /** With all ancestors there, `ensure_parents` adds nothing. */
  lemma {:induction false} ParentsThere(nodes: Vfs.Nodes, p: Path)
    requires Paths.Valid(p) && p != "/" && ParentOf(p) in PathsOf(nodes)
    requires forall q :: q in PathsOf(nodes) ==> Paths.Valid(q) && (q == "/" || ParentOf(q) in PathsOf(nodes))
    ensures EnsureParents(nodes, p) == nodes
    decreases |p|
  {
    hide PathsOf, Paths.Valid;
    ParentValid(p);
    if ParentOf(p) != "/" {
      ParentsThere(nodes, ParentOf(p));
    }
  }

  lemma PathsOfPrefix(sources: seq<Source>, n: nat, p: Path)
    requires n <= |sources|
    ensures p in PathsOf(NodesOf(sources)[..n]) <==> exists i :: 0 <= i < n && sources[i].path == p
  {
    var nodes := NodesOf(sources)[..n];
    if p in PathsOf(nodes) {
      var i :| 0 <= i < |nodes| && nodes[i].node.Some? && nodes[i].node.value.path == p;
      assert sources[i].path == p;
    }
    if exists i :: 0 <= i < n && sources[i].path == p {
      var i :| 0 <= i < n && sources[i].path == p;
      assert nodes[i].node.value.path == p;
    }
  }

  /** Entries before `i` have made exactly their nodes; entry `i` makes its own. */
  lemma StepUnpacks(sources: seq<Source>, i: nat)
    requires Ordered(sources) && Small(sources) && 0 < i < |sources|
    ensures AddEntry(Image(sources), InfoOf(sources, i), NodesOf(sources)[..i]) == Good(NodesOf(sources)[..i + 1])
  {
    hide Image, PathsOf, Paths.Valid, Flat, DataParts, PathParts, EnsureParents;
    var nodes, s := NodesOf(sources)[..i], sources[i];
    assert s.path != "/" by { assert sources[0].path != sources[i].path; }
    forall q | q in PathsOf(nodes) ensures Paths.Valid(q) && (q == "/" || ParentOf(q) in PathsOf(nodes)) {
      PathsOfPrefix(sources, i, q);
      var k :| 0 <= k < i && sources[k].path == q;
      if k > 0 {
        ParentIsThere(sources, k, i);
      }
    }
    ParentIsThere(sources, i, i);
    ParentsThere(nodes, s.path);
    PathsOfPrefix(sources, i, s.path);
    DataAt(sources, i);
    assert NodesOf(sources)[..i + 1] == nodes + [NodeOf(s)];
  }

  lemma ParentIsThere(sources: seq<Source>, k: nat, n: nat)
    requires Ordered(sources) && 0 < k <= n <= |sources| && k < |sources|
    ensures ParentOf(sources[k].path) in PathsOf(NodesOf(sources)[..n])
  {
    assert ParentBefore(sources, k);
    var j :| 0 <= j < k && !sources[j].isFile && sources[j].path == ParentOf(sources[k].path);
    PathsOfPrefix(sources, n, ParentOf(sources[k].path));
  }

  lemma {:induction false} RestUnpacks(sources: seq<Source>, i: nat)
    requires Ordered(sources) && Small(sources) && 0 < i <= |sources|
    ensures Unpack(Image(sources), |sources|, HEADER_SIZE + |sources| * ENTRY_SIZE, i,
        NodesOf(sources)[..i]) == Good(NodesOf(sources))
    decreases |sources| - i
  {
    hide Image, ReadEntry, AddEntry, Ordered, Small, Readable;
    if i < |sources| {
      OrderedIsReadable(sources);
      EntryReads(sources, i);
      StepUnpacks(sources, i);
      RestUnpacks(sources, i + 1);
    } else {
      assert NodesOf(sources)[..i] == NodesOf(sources);
    }
  }

  lemma OrderedIsReadable(sources: seq<Source>)
    requires Ordered(sources)
    ensures Readable(sources)
  {
    hide Readable;
  }

  /** The entry for the root finds the root there already. */
  lemma RootUnpacks(sources: seq<Source>)
    requires Ordered(sources) && Small(sources)
    ensures [Dir("/")] == NodesOf(sources)[..1]
    ensures AddEntry(Image(sources), InfoOf(sources, 0), [Dir("/")]) == Good([Dir("/")])
  {
    hide Image, Flat, DataParts, PathParts;
    RootValid();
    assert [Dir("/")][0].node.value.path == "/";
    assert "/" in PathsOf([Dir("/")]);
    assert NodesOf(sources)[..1] == [NodeOf(sources[0])];
  }

  lemma HeaderReads(sources: seq<Source>)
    requires Small(sources)
    ensures var image := Image(sources);
      && |image| >= HEADER_SIZE && image[..4] == [0x4b, 0x46, 0x53, 0] && ReadLe(image, 4, 4) == Some(1)
        && ReadLe(image, 8, 4) == Some(|sources|)
      && HEADER_SIZE + |sources| * ENTRY_SIZE <= |image|
  {
    hide Le, Flat, PathParts, DataParts, Rows, ReadLe;
    Powers();
    RowsEnd(sources);
    var n, image, rest := |sources|, Image(sources),
      Flat(Rows(sources)) + Flat(PathParts(sources)) + Flat(DataParts(sources));
    var magic := [0x4b, 0x46, 0x53, 0];
    assert image == Header(n) + rest;
    assert image[0..0 + HEADER_SIZE] == Header(n);
    assert Header(n) == magic + Le(1, 4) + (Le(n, 4) + Le(0, 8) + Le(0, 8));
    ReadField(image, 0, Header(n), magic, 1, 4, Le(n, 4) + Le(0, 8) + Le(0, 8));
    assert Header(n) == (magic + Le(1, 4)) + Le(n, 4) + (Le(0, 8) + Le(0, 8));
    ReadField(image, 0, Header(n), magic + Le(1, 4), n, 4, Le(0, 8) + Le(0, 8));
  }

  /** What was packed is unpacked: the same nodes in the same order. */
  lemma RoundTrip(sources: seq<Source>)
    requires Ordered(sources) && Small(sources)
    ensures Unpacked(Image(sources)) == Good(NodesOf(sources))
  {
    hide Image, ReadEntry, AddEntry, Small, ReadLe;
    HeaderReads(sources);
    EntryReads(sources, 0);
    RootUnpacks(sources);
    RestUnpacks(sources, 1);
  }

  /** The unpacked nodes are a tree. */
  lemma PackedIsTree(sources: seq<Source>)
    requires Ordered(sources)
    ensures Vfs.Tree(NodesOf(sources))
  {
    hide Paths.Valid, IsUtf8;
    var nodes := NodesOf(sources);
    assert Vfs.LiveAt(nodes, 0);
    forall i: nat | Vfs.LiveAt(nodes, i) ensures Vfs.Rooted(nodes, nodes[i].node.value.path) {
      if i > 0 {
        assert ParentBefore(sources, i);
        var j :| 0 <= j < i && !sources[j].isFile && sources[j].path == ParentOf(sources[i].path);
        assert Vfs.LiveAt(nodes, j);
      }
    }
    forall i: nat, j: nat | Vfs.LiveAt(nodes, i) && Vfs.LiveAt(nodes, j)
      && nodes[i].node.value.path == nodes[j].node.value.path
      ensures i == j
    {
      assert sources[i].path == sources[j].path;
    }
  }

  // ---- what the build packs ----

  type Files = seq<(string, Data)>

  function FilePath(dir: Path, stem: string, ext: string): Path { dir + "/" + stem + ext }

  function FileSources(dir: Path, ext: string, files: Files): (r: seq<Source>)
    ensures |r| == |files| && forall i :: 0 <= i < |r| ==>
      r[i] == Source(FilePath(dir, files[i].0, ext), files[i].1, true)
  {
    seq(|files|, i requires 0 <= i < |files| => Source(FilePath(dir, files[i].0, ext), files[i].1, true))
  }

  function Directory(p: Path): Source { Source(p, [], false) }

  /** The first half of `build_kfs`. */
  function SourcesOf(kxe: Files, kdm: Files, list: Data): seq<Source> {
    [Directory("/"), Directory("/bin")] + FileSources("/bin", ".kxe", kxe)
    + [Directory("/drivers")] + FileSources("/drivers", ".kdm", kdm)
    + if list == [] then [] else [Source("/drivers/drivers.list", list, true)]
  }

  /** Stems without slashes, no two alike. */
  ghost predicate GoodStems(files: Files) {
    && (forall i :: 0 <= i < |files| ==> NoSlashFrom(files[i].0, 0) && IsUtf8(files[i].0))
    && (forall i, j :: 0 <= i < j < |files| ==> files[i].0 != files[j].0)
  }

  lemma OccursMeans(p: string, t: string, i: nat)
    requires |t| > 0
    ensures OccursAt(p, t, i) ==> i + |t| <= |p| && p[i] == t[0] && p[i + |t| - 1] == t[|t| - 1]
  {
    if OccursAt(p, t, i) {
      var q := p[i..i + |t|];
      assert q[0] == t[0] && q[|t| - 1] == t[|t| - 1];
    }
  }

  /** With slashes only at 0 and at `n`, none of the forbidden patterns can occur. */
  lemma TwoSlashes(p: Path, n: nat)
    requires n > 3 && n < |p| - 1 && forall i :: 0 <= i < |p| ==> (p[i] == '/' <==> i == 0 || i == n)
    ensures Paths.Valid(p) && ParentOf(p) == p[..n]
  {
    forall i | 0 <= i < |p| ensures !OccursAt(p, "//", i) && !OccursAt(p, "/./", i) && !OccursAt(p, "/../", i) {
      OccursMeans(p, "//", i);
      OccursMeans(p, "/./", i);
      OccursMeans(p, "/../", i);
    }
    LastSlashIs(p, n);
  }

  /** A file under one of the two directories. */
  lemma FilePathIsValid(dir: Path, name: string)
    requires dir == "/bin" || dir == "/drivers"
    requires name != "" && NoSlashFrom(name, 0)
    ensures var p := dir + "/" + name; Paths.Valid(p) && ParentOf(p) == dir && p != "/"
    ensures IsUtf8(name) ==> IsUtf8(dir + "/" + name)
  {
    var p := dir + "/" + name;
    assert NoSlashFrom(dir, 1);
    TwoSlashes(p, |dir|);
    assert p[..|dir|] == dir;
    AsciiIsUtf8(dir + "/");
    if IsUtf8(name) {
      Utf8Concat(dir + "/", name);
    }
  }

  lemma DirectoriesAreValid()
    ensures Paths.Valid("/bin") && ParentOf("/bin") == "/" && Paths.Valid("/drivers") && ParentOf("/drivers") == "/"
    ensures IsUtf8("/bin") && IsUtf8("/drivers")
  {
    OneSlash("/bin");
    OneSlash("/drivers");
    AsciiIsUtf8("/bin");
    AsciiIsUtf8("/drivers");
  }

  lemma OneSlash(p: Path)
    requires |p| > 1 && p[0] == '/' && NoSlashFrom(p, 1)
    ensures Paths.Valid(p) && ParentOf(p) == "/"
  {
    forall i | 0 <= i < |p| ensures !OccursAt(p, "//", i) && !OccursAt(p, "/./", i) && !OccursAt(p, "/../", i) {
      OccursMeans(p, "//", i);
      OccursMeans(p, "/./", i);
      OccursMeans(p, "/../", i);
    }
    LastSlashIs(p, 0);
  }

  // ---- one source after another ----

  ghost predicate HasDirectory(sources: seq<Source>, p: Path) {
    exists j :: 0 <= j < |sources| && !sources[j].isFile && sources[j].path == p
  }

  ghost predicate Fresh(sources: seq<Source>, p: Path) {
    forall j :: 0 <= j < |sources| ==> sources[j].path != p
  }

  lemma PushOrdered(sources: seq<Source>, s: Source)
    requires Ordered(sources) && Fresh(sources, s.path) && HasDirectory(sources, ParentOf(s.path))
    requires Paths.Valid(s.path) && IsUtf8(s.path) && (!s.isFile ==> s.data == [])
    ensures Ordered(sources + [s])
  {
    hide Paths.Valid, IsUtf8, ParentOf;
    var t := sources + [s];
    forall i: nat | 0 < i < |t| ensures ParentBefore(t, i) {
      if i < |sources| {
        assert ParentBefore(sources, i);
        var j :| 0 <= j < i && !sources[j].isFile && sources[j].path == ParentOf(sources[i].path);
        assert t[j] == sources[j] && t[i] == sources[i];
      } else {
        var j :| 0 <= j < |sources| && !sources[j].isFile && sources[j].path == ParentOf(s.path);
        assert t[j] == sources[j];
      }
    }
  }

  /** The files of one directory, added to sources that have none of them yet. */
  lemma {:induction false} FilesOrdered(sources: seq<Source>, dir: Path, ext: string, files: Files, n: nat)
    requires Ordered(sources) && HasDirectory(sources, dir) && (dir == "/bin" || dir == "/drivers")
    requires forall j :: 0 <= j < |sources| ==> ParentOf(sources[j].path) != dir
    requires GoodStems(files) && ext != "" && NoSlashFrom(ext, 0) && IsUtf8(ext) && n <= |files|
    ensures Ordered(sources + FileSources(dir, ext, files)[..n])
  {
    hide Paths.Valid, IsUtf8, ParentOf, Ordered;
    var all := FileSources(dir, ext, files);
    if n == 0 {
      assert sources + all[..0] == sources;
    } else {
      FilesOrdered(sources, dir, ext, files, n - 1);
      var before, s := sources + all[..n - 1], all[n - 1];
      FileIsValid(dir, files, ext, n - 1);
      FileIsFresh(sources, dir, ext, files, n - 1);
      DirectoryStays(sources, all[..n - 1], dir);
      PushOrdered(before, s);
      assert before + [s] == sources + all[..n];
    }
  }

  lemma FileIsValid(dir: Path, files: Files, ext: string, i: nat)
    requires (dir == "/bin" || dir == "/drivers") && GoodStems(files) && i < |files|
    requires ext != "" && NoSlashFrom(ext, 0) && IsUtf8(ext)
    ensures var p := FilePath(dir, files[i].0, ext); Paths.Valid(p) && ParentOf(p) == dir && IsUtf8(p)
  {
    hide Paths.Valid, ParentOf;
    var name := files[i].0 + ext;
    Utf8Concat(files[i].0, ext);
    FilePathIsValid(dir, name);
    assert FilePath(dir, files[i].0, ext) == dir + "/" + name;
  }

  lemma FileIsFresh(sources: seq<Source>, dir: Path, ext: string, files: Files, n: nat)
    requires (dir == "/bin" || dir == "/drivers") && GoodStems(files) && n < |files| && ext != ""
      && NoSlashFrom(ext, 0) && IsUtf8(ext)
    requires forall j :: 0 <= j < |sources| ==> ParentOf(sources[j].path) != dir
    ensures Fresh(sources + FileSources(dir, ext, files)[..n], FilePath(dir, files[n].0, ext))
  {
    hide Paths.Valid, ParentOf, IsUtf8;
    FileIsValid(dir, files, ext, n);
    forall j | 0 <= j < n ensures FilePath(dir, files[j].0, ext) != FilePath(dir, files[n].0, ext) {
      StemsMatter(dir, files[j].0, files[n].0, ext);
    }
  }

  lemma StemsMatter(dir: Path, a: string, b: string, ext: string)
    requires a != b
    ensures FilePath(dir, a, ext) != FilePath(dir, b, ext)
  {
    var p, q, n := FilePath(dir, a, ext), FilePath(dir, b, ext), |dir| + 1;
    assert p[n..|p| - |ext|] == a;
    assert q[n..|q| - |ext|] == b;
  }

  lemma DirectoryStays(sources: seq<Source>, more: seq<Source>, p: Path)
    requires HasDirectory(sources, p)
    ensures HasDirectory(sources + more, p)
  {
    var j :| 0 <= j < |sources| && !sources[j].isFile && sources[j].path == p;
    assert (sources + more)[j] == sources[j];
  }

  lemma BaseOrdered()
    ensures Ordered([Directory("/"), Directory("/bin")])
  {
    hide Paths.Valid, IsUtf8, ParentOf;
    RootValid();
    AsciiIsUtf8("/");
    DirectoriesAreValid();
    var s := [Directory("/")];
    assert s[0].path == "/";
    assert HasDirectory(s, "/");
    PushOrdered(s, Directory("/bin"));
    assert s + [Directory("/bin")] == [Directory("/"), Directory("/bin")];
  }

  /** Programs first. */
  lemma ProgramsOrdered(kxe: Files)
    requires GoodStems(kxe)
    ensures var s := [Directory("/"), Directory("/bin")] + FileSources("/bin", ".kxe", kxe) + [Directory("/drivers")];
      && Ordered(s) && HasDirectory(s, "/drivers")
      && forall j :: 0 <= j < |s| ==> ParentOf(s[j].path) != "/drivers"
  {
    hide Paths.Valid, IsUtf8, ParentOf, Ordered;
    BaseOrdered();
    RootValid();
    DirectoriesAreValid();
    var base, all := [Directory("/"), Directory("/bin")], FileSources("/bin", ".kxe", kxe);
    assert base[0].path == "/" && base[1].path == "/bin";
    assert HasDirectory(base, "/") && HasDirectory(base, "/bin");
    ExtOk(".kxe");
    FilesOrdered(base, "/bin", ".kxe", kxe, |kxe|);
    assert all[..|kxe|] == all;
    var s := base + all;
    forall j | 0 <= j < |s| ensures ParentOf(s[j].path) != "/drivers" && s[j].path != "/drivers" {
      if j >= 2 {
        FileIsValid("/bin", kxe, ".kxe", j - 2);
      }
    }
    DirectoryStays(base, all, "/");
    PushOrdered(s, Directory("/drivers"));
    var t := s + [Directory("/drivers")];
    assert t[|s|] == Directory("/drivers");
  }

  lemma ExtOk(ext: string)
    requires ext == ".kxe" || ext == ".kdm"
    ensures ext != "" && NoSlashFrom(ext, 0) && IsUtf8(ext)
  {
    AsciiIsUtf8(ext);
  }

  lemma SourcesOrdered(kxe: Files, kdm: Files, list: Data)
    requires GoodStems(kxe) && GoodStems(kdm)
    ensures Ordered(SourcesOf(kxe, kdm, list))
  {
    hide Paths.Valid, IsUtf8, ParentOf, Ordered;
    ProgramsOrdered(kxe);
    var base, all := [Directory("/"), Directory("/bin")] + FileSources("/bin", ".kxe",
        kxe) + [Directory("/drivers")], FileSources("/drivers", ".kdm", kdm);
    ExtOk(".kdm");
    FilesOrdered(base, "/drivers", ".kdm", kdm, |kdm|);
    assert all[..|kdm|] == all;
    if list != [] {
      ListIsFresh(base, kdm);
      DirectoryStays(base, all, "/drivers");
      PushOrdered(base + all, Source("/drivers/drivers.list", list, true));
      assert SourcesOf(kxe, kdm, list) == base + all + [Source("/drivers/drivers.list", list, true)];
    } else {
      assert SourcesOf(kxe, kdm, list) == base + all;
    }
  }

  lemma ListIsFresh(base: seq<Source>, kdm: Files)
    requires GoodStems(kdm) && forall j :: 0 <= j < |base| ==> ParentOf(base[j].path) != "/drivers"
    ensures var p := "/drivers/drivers.list";
      && Fresh(base + FileSources("/drivers", ".kdm", kdm), p)
      && Paths.Valid(p) && ParentOf(p) == "/drivers" && IsUtf8(p)
  {
    hide Paths.Valid, ParentOf, IsUtf8;
    var p := "/drivers/drivers.list";
    AsciiIsUtf8("drivers.list");
    FilePathIsValid("/drivers", "drivers.list");
    assert "/drivers" + "/" + "drivers.list" == p;
    forall j | 0 <= j < |kdm| ensures FilePath("/drivers", kdm[j].0, ".kdm") != p {
      var q := FilePath("/drivers", kdm[j].0, ".kdm");
      assert q[|q| - 1] == 'm' && p[|p| - 1] == 't';
    }
  }

  /** `build_kfs`. */
  method BuildKfs(kxe: Files, kdm: Files, list: Data) returns (image: Data)
    ensures image == Image(SourcesOf(kxe, kdm, list))
  {
    var sources := [Directory("/"), Directory("/bin")];
    sources := AddFiles(sources, "/bin", ".kxe", kxe);
    sources := sources + [Directory("/drivers")];
    sources := AddFiles(sources, "/drivers", ".kdm", kdm);
    if list != [] {
      sources := sources + [Source("/drivers/drivers.list", list, true)];
    }
    assert sources == SourcesOf(kxe, kdm, list);
    image := Write(sources);
  }

  method AddFiles(start: seq<Source>, dir: Path, ext: string, files: Files) returns (sources: seq<Source>)
    ensures sources == start + FileSources(dir, ext, files)
  {
    sources := start;
    var i := 0;
    while i < |files|
      invariant 0 <= i <= |files| && sources == start + FileSources(dir, ext, files)[..i]
    {
      sources := sources + [Source(dir + "/" + files[i].0 + ext, files[i].1, true)];
      i := i + 1;
    }
  }

  /** The kernel unpacks from the built image exactly the files that went in, as a
      tree. */
  lemma BuiltImageUnpacks(kxe: Files, kdm: Files, list: Data)
    requires GoodStems(kxe) && GoodStems(kdm) && Small(SourcesOf(kxe, kdm, list))
    ensures var nodes := NodesOf(SourcesOf(kxe, kdm, list));
      Unpacked(Image(SourcesOf(kxe, kdm, list))) == Good(nodes) && Vfs.Tree(nodes) && forall i :: 0 <= i < |nodes| ==>
        nodes[i].generation == 0
  {
    hide Image, Unpacked, Small, GoodStems, SourcesOf, Vfs.Tree, Ordered;
    SourcesOrdered(kxe, kdm, list);
    RoundTrip(SourcesOf(kxe, kdm, list));
    PackedIsTree(SourcesOf(kxe, kdm, list));
  }

  function FileNode(path: Path, data: Data): Vfs.Slot { Vfs.Slot(0, Some(Vfs.Node(path, false, data))) }

  /** Which nodes those are: the two directories, every program and every driver under its
      name with its bytes, and the list if there is one. */
  lemma BuiltNodes(kxe: Files, kdm: Files, list: Data)
    ensures var nodes, n := NodesOf(SourcesOf(kxe, kdm, list)), |kxe|;
      && |nodes| == 3 + n + |kdm| + (if list == [] then 0 else 1)
      && nodes[0] == Dir("/") && nodes[1] == Dir("/bin") && nodes[2 + n] == Dir("/drivers")
      && (forall i :: 0 <= i < n ==> nodes[2 + i] == FileNode("/bin/" + kxe[i].0 + ".kxe", kxe[i].1))
      && (forall i :: 0 <= i < |kdm| ==> nodes[3 + n + i] == FileNode("/drivers/" + kdm[i].0 + ".kdm", kdm[i].1))
      && (list != [] ==> nodes[3 + n + |kdm|] == FileNode("/drivers/drivers.list", list))
  {
    var s, n := SourcesOf(kxe, kdm, list), |kxe|;
    var bins, drivers := FileSources("/bin", ".kxe", kxe), FileSources("/drivers", ".kdm", kdm);
    forall i | 0 <= i < n ensures NodeOf(s[2 + i]) == FileNode("/bin/" + kxe[i].0 + ".kxe", kxe[i].1) {
      assert s[2 + i] == bins[i];
      assert "/bin" + "/" == "/bin/";
    }
    forall i | 0 <= i < |kdm| ensures NodeOf(s[3 + n + i]) == FileNode("/drivers/" + kdm[i].0 + ".kdm", kdm[i].1) {
      assert s[3 + n + i] == drivers[i];
      assert "/drivers" + "/" == "/drivers/";
    }
  }
}
