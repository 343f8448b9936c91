/** The caption that tags an uploaded chunk: a printer and a parser that undo each other. */
module Caption {
  import opened Wrappers
  import opened Text
  import opened Identifiers

  datatype Header = Header(
    formatVersion: nat,
    fileId: string,
    chunkId: string,
    chunkIndex: nat,
    totalChunks: nat,
    sizeBytes: nat)

  /** The headers the program can hold: 32- and 64-bit numbers, validated identifiers. */
  predicate ValidHeader(h: Header) {
    && h.formatVersion < U32 && h.chunkIndex < U32 && h.totalChunks < U32 && h.sizeBytes < U64
    && ValidId(h.fileId) && ValidId(h.chunkId)
  }

  function ToCaption(h: Header): string {
    "TELEVAULT" + [':'] + (("v=" + PrintNat(h.formatVersion)) + [':'] + (("fid=" + h.fileId) + [':']
    + (("cid=" + h.chunkId) + [':'] + (("cidx=" + PrintNat(h.chunkIndex)) + [':']
    + (("tot=" + PrintNat(h.totalChunks)) + [':'] + ("sz=" + PrintNat(h.sizeBytes)))))))
  }

  // ----- the parser ----------------------------------------------------------------------------

  /** The optional locals the parser fills in; the version defaults to 1. */
  datatype Fields = Fields(
    version: nat,
    fid: Option<string>,
    cid: Option<string>,
    cidx: Option<nat>,
    tot: Option<nat>,
    sz: Option<nat>)

  datatype Tag = Version | FileTag | ChunkTag | Index | Total | Size | Unknown

  /** The first prefix that fits a part, tried in the order of the source, and what follows it. */
  function TagOf(part: string): (Tag, string) {
    if StartsWith(part, "v=") then (Version, part[2..])
    else if StartsWith(part, "fid=") then (FileTag, part[4..])
    else if StartsWith(part, "cid=") then (ChunkTag, part[4..])
    else if StartsWith(part, "cidx=") then (Index, part[5..])
    else if StartsWith(part, "tot=") then (Total, part[4..])
    else if StartsWith(part, "sz=") then (Size, part[3..])
    else (Unknown, part)
  }

  /** Stores the value of one part, if it is well formed; an unknown part is ignored. */
  function Store(f: Fields, tag: Tag, val: string): Option<Fields> {
    match tag
    case Version => (match ParseUnsigned(val, U32) case Some(n) => Some(f.(version := n)) case None => None)
    case FileTag => if ValidId(val) then Some(f.(fid := Some(val))) else None
    case ChunkTag => if ValidId(val) then Some(f.(cid := Some(val))) else None
    case Index => (match ParseUnsigned(val, U32) case Some(n) => Some(f.(cidx := Some(n))) case None => None)
    case Total => (match ParseUnsigned(val, U32) case Some(n) => Some(f.(tot := Some(n))) case None => None)
    case Size => (match ParseUnsigned(val, U64) case Some(n) => Some(f.(sz := Some(n))) case None => None)
    case Unknown => Some(f)
  }

  function ReadPart(f: Fields, part: string): Option<Fields> {
    var (tag, val) := TagOf(part);
    Store(f, tag, val)
  }

  ghost function ReadParts(f: Fields, parts: seq<string>): Option<Fields>
    decreases |parts|
  {
    if parts == [] then Some(f)
    else
      var g := ReadPart(f, parts[0]);
      if g.None? then None else ReadParts(g.value, parts[1..])
  }

  function Assemble(f: Fields): Option<Header> {
    if f.fid.Some? && f.cid.Some? && f.cidx.Some? && f.tot.Some? && f.sz.Some? then
      Some(Header(f.version, f.fid.value, f.cid.value, f.cidx.value, f.tot.value, f.sz.value))
    else None
  }

  const START: Fields := Fields(1, None, None, None, None, None)

  /** What a caption denotes. */
  ghost function HeaderOf(caption: string): Option<Header> {
    var trimmed := Trim(caption);
    if !StartsWith(trimmed, "TELEVAULT:") then None
    else
      var parts := Split(trimmed, ':');
      if |parts| != 7 then None
      else
        var f := ReadParts(START, parts[1..]);
        if f.None? then None else Assemble(f.value)
  }

  method ParseCaption(caption: string) returns (r: Option<Header>)
    ensures r == HeaderOf(caption)
  {
    var trimmed := Trim(caption);
    if !StartsWith(trimmed, "TELEVAULT:") {
      return None;
    }
    var parts := Split(trimmed, ':');
    if |parts| != 7 {
      return None;
    }
    var f := START;
    for i := 1 to 7
      invariant ReadParts(START, parts[1..]) == ReadParts(f, parts[i..])
    {
      var g := ReadPart(f, parts[i]);
      if g.None? {
        return None;
      }
      f := g.value;
      assert parts[i..][1..] == parts[i + 1..];
    }
    return Assemble(f);
  }

  // ----- round trip ----------------------------------------------------------------------------

  lemma NoColon(s: string)
    requires AllDigits(s) || ValidId(s)
    ensures ':' !in s
  {
    if ValidId(s) {
      ValidIdCharacters(s);
    }
  }

  /** The seven parts of a printed caption. */
  function Parts(h: Header): seq<string> {
    ["TELEVAULT", "v=" + PrintNat(h.formatVersion), "fid=" + h.fileId, "cid=" + h.chunkId,
     "cidx=" + PrintNat(h.chunkIndex), "tot=" + PrintNat(h.totalChunks), "sz=" + PrintNat(h.sizeBytes)]
  }

  lemma CaptionIsJoined(h: Header)
    ensures ToCaption(h) == Joined(Parts(h), ':')
  {
    var p := Parts(h);
    assert Joined(p[6..], ':') == p[6];
    assert Joined(p[5..], ':') == p[5] + [':'] + Joined(p[5..][1..], ':') && p[5..][1..] == p[6..];
    assert Joined(p[4..], ':') == p[4] + [':'] + Joined(p[4..][1..], ':') && p[4..][1..] == p[5..];
    assert Joined(p[3..], ':') == p[3] + [':'] + Joined(p[3..][1..], ':') && p[3..][1..] == p[4..];
    assert Joined(p[2..], ':') == p[2] + [':'] + Joined(p[2..][1..], ':') && p[2..][1..] == p[3..];
    assert Joined(p[1..], ':') == p[1] + [':'] + Joined(p[1..][1..], ':') && p[1..][1..] == p[2..];
  }

  lemma CaptionSplits(h: Header)
    requires ValidHeader(h)
    ensures Split(ToCaption(h), ':') == Parts(h)
  {
    NoColon(PrintNat(h.formatVersion));
    NoColon(h.fileId);
    NoColon(h.chunkId);
    NoColon(PrintNat(h.chunkIndex));
    NoColon(PrintNat(h.totalChunks));
    NoColon(PrintNat(h.sizeBytes));
    CaptionIsJoined(h);
    JoinedSplits(Parts(h), ':');
  }

  lemma CaptionUnpadded(h: Header)
    ensures Trim(ToCaption(h)) == ToCaption(h) && StartsWith(ToCaption(h), "TELEVAULT:")
  {
    var s := ToCaption(h);
    var z := PrintNat(h.sizeBytes);
    assert s[|s| - 1] == z[|z| - 1];
    assert s[0] == 'T';
    assert s[..10] == "TELEVAULT:";
    TrimUnpadded(s);
  }

  lemma Prefixed(prefix: string, body: string)
    ensures StartsWith(prefix + body, prefix) && (prefix + body)[|prefix|..] == body
  {
  }

  lemma VersionPart(x: string)
    ensures TagOf("v=" + x) == (Version, x)
  {
    Prefixed("v=", x);
  }

  lemma FilePart(x: string)
    ensures TagOf("fid=" + x) == (FileTag, x)
  {
    Prefixed("fid=", x);
    assert ("fid=" + x)[0] == 'f';
  }

  lemma ChunkPart(x: string)
    ensures TagOf("cid=" + x) == (ChunkTag, x)
  {
    Prefixed("cid=", x);
    assert ("cid=" + x)[0] == 'c';
  }

  lemma IndexPart(x: string)
    ensures TagOf("cidx=" + x) == (Index, x)
  {
    Prefixed("cidx=", x);
    assert ("cidx=" + x)[0] == 'c' && ("cidx=" + x)[3] == 'x';
    assert ("cidx=" + x)[..4][3] == 'x';
  }

  lemma TotalPart(x: string)
    ensures TagOf("tot=" + x) == (Total, x)
  {
    Prefixed("tot=", x);
    assert ("tot=" + x)[0] == 't';
  }

  lemma SizePart(x: string)
    ensures TagOf("sz=" + x) == (Size, x)
  {
    Prefixed("sz=", x);
    assert ("sz=" + x)[0] == 's';
  }

  /** The fields after the version and the two identifiers. */
  function AfterIds(h: Header): Fields {
    START.(version := h.formatVersion, fid := Some(h.fileId), cid := Some(h.chunkId))
  }

  lemma ReadVersion(f: Fields, n: nat)
    requires n < U32
    ensures ReadPart(f, "v=" + PrintNat(n)) == Some(f.(version := n))
  {
    VersionPart(PrintNat(n));
    ParsePrinted(n, U32);
  }

  lemma ReadIndex(f: Fields, n: nat)
    requires n < U32
    ensures ReadPart(f, "cidx=" + PrintNat(n)) == Some(f.(cidx := Some(n)))
  {
    IndexPart(PrintNat(n));
    ParsePrinted(n, U32);
  }

  lemma ReadTotal(f: Fields, n: nat)
    requires n < U32
    ensures ReadPart(f, "tot=" + PrintNat(n)) == Some(f.(tot := Some(n)))
  {
    TotalPart(PrintNat(n));
    ParsePrinted(n, U32);
  }

  lemma ReadSize(f: Fields, n: nat)
    requires n < U64
    ensures ReadPart(f, "sz=" + PrintNat(n)) == Some(f.(sz := Some(n)))
  {
    SizePart(PrintNat(n));
    ParsePrinted(n, U64);
  }

  lemma ReadFirstParts(h: Header, rest: seq<string>)
    requires ValidHeader(h)
    ensures ReadParts(START, Parts(h)[1..4] + rest) == ReadParts(AfterIds(h), rest)
  {
    ReadVersion(START, h.formatVersion);
    FilePart(h.fileId);
    ChunkPart(h.chunkId);
    var f1 := START.(version := h.formatVersion);
    ReadThree(Parts(h)[1..4], rest, START, f1, f1.(fid := Some(h.fileId)), AfterIds(h));
  }

  lemma ReadLastParts(f: Fields, h: Header)
    requires ValidHeader(h)
    ensures ReadParts(f, Parts(h)[4..]) ==
            Some(f.(cidx := Some(h.chunkIndex), tot := Some(h.totalChunks), sz := Some(h.sizeBytes)))
  {
    var f1 := f.(cidx := Some(h.chunkIndex));
    var f2 := f1.(tot := Some(h.totalChunks));
    ReadIndex(f, h.chunkIndex);
    ReadTotal(f1, h.totalChunks);
    ReadSize(f2, h.sizeBytes);
    ReadThree(Parts(h)[4..], [], f, f1, f2, f2.(sz := Some(h.sizeBytes)));
    assert Parts(h)[4..] + [] == Parts(h)[4..];
  }

  lemma ReadAllParts(h: Header)
    requires ValidHeader(h)
    ensures var f := ReadParts(START, Parts(h)[1..]);
            f.Some? && Assemble(f.value) == Some(h)
  {
    var p := Parts(h);
    ReadFirstParts(h, p[4..]);
    ReadLastParts(AfterIds(h), h);
    assert p[1..] == p[1..4] + p[4..];
  }

  lemma ReadThree(p: seq<string>, rest: seq<string>, f0: Fields, f1: Fields, f2: Fields, f3: Fields)
    requires |p| == 3
    requires ReadPart(f0, p[0]) == Some(f1) && ReadPart(f1, p[1]) == Some(f2) && ReadPart(f2, p[2]) == Some(f3)
    ensures ReadParts(f0, p + rest) == ReadParts(f3, rest)
  {
    ReadOne(f0, p + rest, f1);
    ReadOne(f1, p[1..] + rest, f2);
    ReadOne(f2, p[2..] + rest, f3);
    assert (p + rest)[1..] == p[1..] + rest;
    assert (p[1..] + rest)[1..] == p[2..] + rest;
    assert (p[2..] + rest)[1..] == rest;
  }

  lemma ReadOne(f: Fields, p: seq<string>, g: Fields)
    requires p != [] && ReadPart(f, p[0]) == Some(g)
    ensures ReadParts(f, p) == ReadParts(g, p[1..])
  {
  }

  /** Parsing a printed caption gives the header back, whitespace in its identifiers included. */
  lemma CaptionRoundTrip(h: Header)
    requires ValidHeader(h)
    ensures HeaderOf(ToCaption(h)) == Some(h)
  {
    CaptionUnpadded(h);
    CaptionSplits(h);
    ReadAllParts(h);
  }

  // ----- what parses is printable --------------------------------------------------------------

  predicate ValidFields(f: Fields) {
    && f.version < U32
    && (f.fid.Some? ==> ValidId(f.fid.value)) && (f.cid.Some? ==> ValidId(f.cid.value))
    && (f.cidx.Some? ==> f.cidx.value < U32) && (f.tot.Some? ==> f.tot.value < U32)
    && (f.sz.Some? ==> f.sz.value < U64)
  }

  lemma StoreValid(f: Fields, tag: Tag, val: string)
    requires ValidFields(f) && Store(f, tag, val).Some?
    ensures ValidFields(Store(f, tag, val).value)
  {
  }

  lemma {:induction false} ReadPartsValid(f: Fields, parts: seq<string>)
    requires ValidFields(f)
    ensures ReadParts(f, parts).Some? ==> ValidFields(ReadParts(f, parts).value)
    decreases |parts|
  {
    if parts != [] && ReadPart(f, parts[0]).Some? {
      StoreValid(f, TagOf(parts[0]).0, TagOf(parts[0]).1);
      ReadPartsValid(ReadPart(f, parts[0]).value, parts[1..]);
    }
  }

  /** Whatever a caption parses to is a valid header, so reprinting and reparsing is stable. */
  lemma ParsedHeaderStable(caption: string)
    requires HeaderOf(caption).Some?
    ensures ValidHeader(HeaderOf(caption).value)
    ensures HeaderOf(ToCaption(HeaderOf(caption).value)) == HeaderOf(caption)
  {
    ReadPartsValid(START, Split(Trim(caption), ':')[1..]);
    CaptionRoundTrip(HeaderOf(caption).value);
  }

  /** A caption in full: the header of a first of three chunks. */
  lemma CaptionExample(h: Header)
    requires h == Header(1, "file-video-01", "chunk-01", 0, 3, 42)
    ensures ToCaption(h) == "TELEVAULT:" + "v=1:" + "fid=file-video-01:" + "cid=chunk-01:" + "cidx=0:" + "tot=3:" + "sz=42"
  {
    PrintedDigits(h);
    Unnested("TELEVAULT", "v=" + "1", "fid=" + "file-video-01", "cid=" + "chunk-01", "cidx=" + "0", "tot=" + "3", "sz=" + "42");
    assert "TELEVAULT" + [':'] == "TELEVAULT:" && "v=" + "1" + [':'] == "v=1:";
    assert "fid=" + "file-video-01" + [':'] == "fid=file-video-01:" && "cid=" + "chunk-01" + [':'] == "cid=chunk-01:";
    assert "cidx=" + "0" + [':'] == "cidx=0:" && "tot=" + "3" + [':'] == "tot=3:" && "sz=" + "42" == "sz=42";
  }

  lemma Unnested(a: string, b: string, c: string, d: string, e: string, f: string, g: string)
    ensures a + [':'] + (b + [':'] + (c + [':'] + (d + [':'] + (e + [':'] + (f + [':'] + g))))) ==
            (a + [':']) + (b + [':']) + (c + [':']) + (d + [':']) + (e + [':']) + (f + [':']) + g
  {
  }

  lemma PrintedDigits(h: Header)
    requires h == Header(1, "file-video-01", "chunk-01", 0, 3, 42)
    ensures PrintNat(h.formatVersion) == "1" && PrintNat(h.chunkIndex) == "0" && PrintNat(h.totalChunks) == "3"
    ensures PrintNat(h.sizeBytes) == "42"
  {
    assert PrintNat(4) == "4";
  }
}
