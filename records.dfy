/** The binary dump format: the magic header, the tagged records the recorder
    writes (TRI/QUAD, TPRM, TPLT, PATR, VRAM, DISP, TOON), and a decoder that
    reads a whole dump file back. All multi-byte values are little-endian. */
module Records {
  import opened Encoding
  import opened Seqs

  datatype Option<T> = None | Some(value: T)

  /** The fields of a GPU3D vertex that a TRI/QUAD record carries. */
  datatype VertexFields = VertexFields(worldPosition: seq<uint32>, color: seq<uint32>, texCoords: seq<uint16>)
  type Vertex = v: VertexFields | |v.worldPosition| == 3 && |v.color| == 3 && |v.texCoords| == 2
    witness VertexFields([0, 0, 0], [0, 0, 0], [0, 0])

  /** The render-time GPU state appended when a frame is finalised:
      VRAMMap_Texture[4], VRAMMap_TexPal[8], the banks VRAM_A..VRAM_G,
      RenderDispCnt and RenderToonTable[32]. */
  datatype SnapshotFields = SnapshotFields(
    textureMap: seq<uint32>,
    texPalMap: seq<uint32>,
    banks: seq<seq<uint8>>,
    dispCnt: uint32,
    toonTable: seq<uint16>)
  type Snapshot = s: SnapshotFields |
    |s.textureMap| == 4 && |s.texPalMap| == 8 && |s.banks| == 7 && |s.toonTable| == 32
    witness SnapshotFields(
      [0, 0, 0, 0], [0, 0, 0, 0, 0, 0, 0, 0], [[], [], [], [], [], [], []], 0,
      [0, 0, 0, 0, 0, 0, 0, 0, 0, 0, 0, 0, 0, 0, 0, 0, 0, 0, 0, 0, 0, 0, 0, 0, 0, 0, 0, 0, 0, 0, 0, 0])

  /** One call of an emitter, in the order the 3D engine makes them. */
  datatype Command =
    | Poly(verts: seq<Vertex>)
    | TexParam(param: uint32)
    | TexPalette(pal: uint32)
    | PolygonAttr(attr: uint32)

  /** A command the decoder can read back: the decoder takes TRI to mean three
      vertices and QUAD to mean four. */
  predicate Decodable(c: Command)
  {
    c.Poly? ==> |c.verts| == 3 || |c.verts| == 4
  }

  /** The 24-byte char array initialised from "melon ripper v2": the fifteen
      characters, then zero bytes (the terminator and the rest of the array). */
  function Header(): (r: seq<uint8>)
    ensures |r| == 24 && forall i :: 15 <= i < 24 ==> r[i] == 0
  {
    [0x6D, 0x65, 0x6C, 0x6F, 0x6E, 0x20, 0x72, 0x69, 0x70, 0x70, 0x65, 0x72, 0x20, 0x76, 0x32,
     0, 0, 0, 0, 0, 0, 0, 0, 0]
  }

  /** The first fifteen header bytes are the character codes of "melon ripper v2". */
  lemma HeaderText()
    ensures forall i :: 0 <= i < 15 ==> Header()[i] == "melon ripper v2"[i] as int
  {
    var m := "melon ripper v2";
    assert m[0] == 'm' && m[1] == 'e' && m[2] == 'l' && m[3] == 'o' && m[4] == 'n' && m[5] == ' ';
    assert m[6] == 'r' && m[7] == 'i' && m[8] == 'p' && m[9] == 'p' && m[10] == 'e' && m[11] == 'r';
    assert m[12] == ' ' && m[13] == 'v' && m[14] == '2';
  }

  /** The 28 bytes of one vertex: WorldPosition[0..2], Color[0..2] as u32, then
      TexCoords[0..1] as u16. */
  function VertexBytes(v: Vertex): (r: seq<uint8>)
    ensures |r| == 28
  {
    Words(v.worldPosition + v.color) + Halfwords(v.texCoords)
  }

  /** The vertices of a polygon, one after the other. */
  function VerticesBytes(vs: seq<Vertex>): (r: seq<uint8>)
    ensures |r| == 28 * |vs|
  {
    if vs == [] then [] else VerticesBytes(vs[..|vs| - 1]) + VertexBytes(vs[|vs| - 1])
  }

  function PolygonTag(nverts: int): (tag: string)
    ensures |tag| == 4
  {
    if nverts == 3 then "TRI " else "QUAD"
  }

  /** What Polygon writes for its first nverts vertices. */
  function PolygonRecord(vs: seq<Vertex>): seq<uint8>
  {
    OpBytes(PolygonTag(|vs|)) + VerticesBytes(vs)
  }

  /** A tag followed by one u32 (TPRM, TPLT, PATR, DISP). */
  function WordRecord(tag: string, x: uint32): seq<uint8>
    requires |tag| == 4
  {
    OpBytes(tag) + LeU32(x)
  }

  /** A run of u32 values, as the map loops of DumpVRAM write them. */
  function Words(xs: seq<uint32>): (r: seq<uint8>)
    ensures |r| == 4 * |xs|
  {
    if xs == [] then [] else Words(xs[..|xs| - 1]) + LeU32(xs[|xs| - 1])
  }

  /** A run of u16 values, as the toon-table loop writes them. */
  function Halfwords(xs: seq<uint16>): (r: seq<uint8>)
    ensures |r| == 2 * |xs|
  {
    if xs == [] then [] else Halfwords(xs[..|xs| - 1]) + LeU16(xs[|xs| - 1])
  }

  function Sizes(banks: seq<seq<uint8>>): (r: seq<nat>)
    ensures |r| == |banks| && forall i :: 0 <= i < |banks| ==> r[i] == |banks[i]|
  {
    if banks == [] then [] else Sizes(banks[..|banks| - 1]) + [|banks[|banks| - 1]|]
  }

  function Sum(ns: seq<nat>): nat
  {
    if ns == [] then 0 else Sum(ns[..|ns| - 1]) + ns[|ns| - 1]
  }

  /** The banks copied verbatim, in order. */
  function Concat(banks: seq<seq<uint8>>): (r: seq<uint8>)
    ensures |r| == Sum(Sizes(banks))
  {
    if banks == [] then []
    else
      assert Sizes(banks)[..|banks| - 1] == Sizes(banks[..|banks| - 1]);
      Concat(banks[..|banks| - 1]) + banks[|banks| - 1]
  }

  function VramRecord(s: Snapshot): seq<uint8>
  {
    OpBytes("VRAM") + Words(s.textureMap) + Words(s.texPalMap) + Concat(s.banks)
  }

  function DispRecord(s: Snapshot): seq<uint8>
  {
    WordRecord("DISP", s.dispCnt)
  }

  function ToonRecord(s: Snapshot): seq<uint8>
  {
    OpBytes("TOON") + Halfwords(s.toonTable)
  }

  /** What RenderFrame appends to the pending buffer before writing it out. */
  function Trailer(s: Snapshot): seq<uint8>
  {
    VramRecord(s) + DispRecord(s) + ToonRecord(s)
  }

  function EncodeCommand(c: Command): seq<uint8>
  {
    match c
    case Poly(vs) => PolygonRecord(vs)
    case TexParam(x) => WordRecord("TPRM", x)
    case TexPalette(x) => WordRecord("TPLT", x)
    case PolygonAttr(x) => WordRecord("PATR", x)
  }

  function EncodeCommands(cs: seq<Command>): seq<uint8>
  {
    if cs == [] then [] else EncodeCommand(cs[0]) + EncodeCommands(cs[1..])
  }

  /** A complete dump file: header, the frame's commands in emission order, then
      the VRAM, DISP and TOON records of the state it was rendered with. */
  function DumpFile(cs: seq<Command>, s: Snapshot): seq<uint8>
  {
    Header() + EncodeCommands(cs) + Trailer(s)
  }

  // ---------------------------------------------------------------------------
  // Lengths and layout

  lemma {:induction false} PolygonRecordLength(vs: seq<Vertex>)
    ensures |PolygonRecord(vs)| == 4 + 28 * |vs|
    ensures PolygonRecord(vs)[..4] == OpBytes(if |vs| == 3 then "TRI " else "QUAD")
  {
  }

  /** Vertex i of a polygon occupies bytes 4 + 28i up to 4 + 28(i + 1). */
  lemma {:induction false} VerticesBytesAt(vs: seq<Vertex>, i: nat)
    requires i < |vs|
    ensures VerticesBytes(vs)[28 * i .. 28 * (i + 1)] == VertexBytes(vs[i])
  {
    if i < |vs| - 1 {
      VerticesBytesAt(vs[..|vs| - 1], i);
    }
  }

  lemma {:induction false} WordRecordLength(tag: string, x: uint32)
    requires |tag| == 4
    ensures |WordRecord(tag, x)| == 8
    ensures WordRecord(tag, x)[..4] == OpBytes(tag) && DecodeU32(WordRecord(tag, x)[4..]) == x
  {
    assert WordRecord(tag, x)[4..] == LeU32(x);
    DecodeLeU32(x);
  }

  lemma {:induction false} TrailerLength(s: Snapshot)
    ensures |VramRecord(s)| == 4 + 16 + 32 + Sum(Sizes(s.banks))
    ensures |DispRecord(s)| == 8 && |ToonRecord(s)| == 4 + 64
  {
  }

  // ---------------------------------------------------------------------------
  // Decoding

  function DecodeVertex(bs: seq<uint8>): Vertex
    requires |bs| == 28
  {
    var words := DecodeWords(bs[..24]);
    VertexFields(words[..3], words[3..], DecodeHalfwords(bs[24..]))
  }

  function DecodeVertices(bs: seq<uint8>): (vs: seq<Vertex>)
    requires |bs| % 28 == 0
    ensures |vs| == |bs| / 28
  {
    if bs == [] then [] else DecodeVertices(bs[..|bs| - 28]) + [DecodeVertex(bs[|bs| - 28..])]
  }

  function DecodeWords(bs: seq<uint8>): (xs: seq<uint32>)
    requires |bs| % 4 == 0
    ensures |xs| == |bs| / 4
  {
    if bs == [] then [] else DecodeWords(bs[..|bs| - 4]) + [DecodeU32(bs[|bs| - 4..])]
  }

  function DecodeHalfwords(bs: seq<uint8>): (xs: seq<uint16>)
    requires |bs| % 2 == 0
    ensures |xs| == |bs| / 2
  {
    if bs == [] then [] else DecodeHalfwords(bs[..|bs| - 2]) + [DecodeU16(bs[|bs| - 2..])]
  }

  /** Cuts a byte string into consecutive pieces of the given sizes. */
  function SplitBanks(bs: seq<uint8>, sizes: seq<nat>): (banks: seq<seq<uint8>>)
    requires |bs| == Sum(sizes)
    ensures |banks| == |sizes|
    decreases |sizes|
  {
    if sizes == [] then []
    else
      var last := sizes[|sizes| - 1];
      SplitBanks(bs[..|bs| - last], sizes[..|sizes| - 1]) + [bs[|bs| - last..]]
  }

  lemma {:induction false} DecodeVertexBytes(v: Vertex)
    ensures DecodeVertex(VertexBytes(v)) == v
  {
    var a, b := Words(v.worldPosition + v.color), Halfwords(v.texCoords);
    AppendSplit(a, b);
    DecodeWordsBytes(v.worldPosition + v.color);
    DecodeHalfwordsBytes(v.texCoords);
    AppendSplit(v.worldPosition, v.color);
  }

  lemma {:induction false} DecodeVerticesBytes(vs: seq<Vertex>)
    ensures DecodeVertices(VerticesBytes(vs)) == vs
  {
    if vs != [] {
      var init, last := vs[..|vs| - 1], vs[|vs| - 1];
      var a, b := VerticesBytes(init), VertexBytes(last);
      assert VerticesBytes(vs) == a + b;
      DecodeVerticesSnoc(a, b);
      DecodeVerticesBytes(init);
      DecodeVertexBytes(last);
      SplitLast(vs);
    }
  }

  lemma DecodeVerticesSnoc(a: seq<uint8>, b: seq<uint8>)
    requires |a| % 28 == 0 && |b| == 28
    ensures DecodeVertices(a + b) == DecodeVertices(a) + [DecodeVertex(b)]
  {
    AppendSplit(a, b);
  }

  lemma {:induction false} DecodeWordsBytes(xs: seq<uint32>)
    ensures DecodeWords(Words(xs)) == xs
  {
    if xs != [] {
      var init, last := xs[..|xs| - 1], xs[|xs| - 1];
      var a, b := Words(init), LeU32(last);
      assert Words(xs) == a + b;
      DecodeWordsSnoc(a, b);
      DecodeWordsBytes(init);
      DecodeLeU32(last);
      SplitLast(xs);
    }
  }

  lemma DecodeWordsSnoc(a: seq<uint8>, b: seq<uint8>)
    requires |a| % 4 == 0 && |b| == 4
    ensures DecodeWords(a + b) == DecodeWords(a) + [DecodeU32(b)]
  {
    AppendSplit(a, b);
  }

  lemma {:induction false} DecodeHalfwordsBytes(xs: seq<uint16>)
    ensures DecodeHalfwords(Halfwords(xs)) == xs
  {
    if xs != [] {
      var init, last := xs[..|xs| - 1], xs[|xs| - 1];
      var a, b := Halfwords(init), LeU16(last);
      assert Halfwords(xs) == a + b;
      DecodeHalfwordsSnoc(a, b);
      DecodeHalfwordsBytes(init);
      DecodeLeU16(last);
      SplitLast(xs);
    }
  }

  lemma DecodeHalfwordsSnoc(a: seq<uint8>, b: seq<uint8>)
    requires |a| % 2 == 0 && |b| == 2
    ensures DecodeHalfwords(a + b) == DecodeHalfwords(a) + [DecodeU16(b)]
  {
    AppendSplit(a, b);
  }

  lemma {:induction false} SplitConcat(banks: seq<seq<uint8>>)
    ensures SplitBanks(Concat(banks), Sizes(banks)) == banks
  {
    if banks != [] {
      var bs := Concat(banks);
      var init := banks[..|banks| - 1];
      assert Sizes(banks)[..|banks| - 1] == Sizes(init);
      assert bs[..|bs| - |banks[|banks| - 1]|] == Concat(init);
      SplitConcat(init);
    }
  }

  // ---------------------------------------------------------------------------
  // Reading a dump file back. A reader must know the size of each VRAM bank,
  // since the format carries no lengths.

  /** The eight four-character tags as bytes. */
  lemma TagBytes()
    ensures OpBytes("TRI ") == [0x54, 0x52, 0x49, 0x20] && OpBytes("QUAD") == [0x51, 0x55, 0x41, 0x44]
    ensures OpBytes("TPRM") == [0x54, 0x50, 0x52, 0x4D] && OpBytes("TPLT") == [0x54, 0x50, 0x4C, 0x54]
    ensures OpBytes("PATR") == [0x50, 0x41, 0x54, 0x52] && OpBytes("VRAM") == [0x56, 0x52, 0x41, 0x4D]
    ensures OpBytes("DISP") == [0x44, 0x49, 0x53, 0x50] && OpBytes("TOON") == [0x54, 0x4F, 0x4F, 0x4E]
  {
  }

  /** The payload size that follows a command tag; None for an unknown tag. */
  function PayloadLength(tag: seq<uint8>): Option<nat>
  {
    if tag == OpBytes("TRI ") then Some(28 * 3)
    else if tag == OpBytes("QUAD") then Some(28 * 4)
    else if tag == OpBytes("TPRM") || tag == OpBytes("TPLT") || tag == OpBytes("PATR") then Some(4)
    else None
  }

  function DecodeCommand(tag: seq<uint8>, payload: seq<uint8>): Command
    requires PayloadLength(tag) == Some(|payload|)
  {
    if tag == OpBytes("TRI ") || tag == OpBytes("QUAD") then Poly(DecodeVertices(payload))
    else if tag == OpBytes("TPRM") then TexParam(DecodeU32(payload))
    else if tag == OpBytes("TPLT") then TexPalette(DecodeU32(payload))
    else PolygonAttr(DecodeU32(payload))
  }

  /** The body of the trailer after its VRAM tag. */
  function ParseSnapshot(body: seq<uint8>, sizes: seq<nat>): Option<Snapshot>
  {
    if |sizes| != 7 || |body| != 48 + Sum(sizes) + 8 + 68 then None
    else
      var mid := 48 + Sum(sizes);
      if body[mid..mid + 4] != OpBytes("DISP") || body[mid + 8..mid + 12] != OpBytes("TOON") then None
      else
        var snap: Snapshot := SnapshotFields(
          DecodeWords(body[..16]),
          DecodeWords(body[16..48]),
          SplitBanks(body[48..mid], sizes),
          DecodeU32(body[mid + 4..mid + 8]),
          DecodeHalfwords(body[mid + 12..]));
        Some(snap)
  }

  /** The record stream after the header: commands up to the VRAM tag, then the trailer. */
  function ParseCommands(bs: seq<uint8>, sizes: seq<nat>): Option<(seq<Command>, Snapshot)>
    decreases |bs|
  {
    if |bs| < 4 then None
    else
      var tag, rest := bs[..4], bs[4..];
      if tag == OpBytes("VRAM") then
        match ParseSnapshot(rest, sizes)
        case None => None
        case Some(s) => Some(([], s))
      else
        match PayloadLength(tag)
        case None => None
        case Some(n) =>
          if |rest| < n then None
          else
            match ParseCommands(rest[n..], sizes)
            case None => None
            case Some((cs, s)) => Some(([DecodeCommand(tag, rest[..n])] + cs, s))
  }

  function ParseDump(bs: seq<uint8>, sizes: seq<nat>): Option<(seq<Command>, Snapshot)>
  {
    if |bs| < 24 || bs[..24] != Header() then None else ParseCommands(bs[24..], sizes)
  }

  /** How the reader classifies each command tag. */
  lemma CommandTags()
    ensures PayloadLength(OpBytes("TRI ")) == Some(28 * 3) && PayloadLength(OpBytes("QUAD")) == Some(28 * 4)
    ensures PayloadLength(OpBytes("TPRM")) == Some(4) && PayloadLength(OpBytes("TPLT")) == Some(4)
    ensures PayloadLength(OpBytes("PATR")) == Some(4)
    ensures OpBytes("VRAM") !in {OpBytes("TRI "), OpBytes("QUAD"), OpBytes("TPRM"), OpBytes("TPLT"), OpBytes("PATR")}
    ensures OpBytes("TPRM") !in {OpBytes("TRI "), OpBytes("QUAD")}
    ensures OpBytes("TPLT") !in {OpBytes("TRI "), OpBytes("QUAD"), OpBytes("TPRM")}
    ensures OpBytes("PATR") !in {OpBytes("TRI "), OpBytes("QUAD"), OpBytes("TPRM"), OpBytes("TPLT")}
  {
    TagBytes();
  }

  lemma PolyRoundTrip(vs: seq<Vertex>)
    requires |vs| == 3 || |vs| == 4
    ensures var e := PolygonRecord(vs);
            |e| >= 4 && e[..4] != OpBytes("VRAM") && PayloadLength(e[..4]) == Some(|e| - 4)
            && DecodeCommand(e[..4], e[4..]) == Poly(vs)
  {
    var tag, body := OpBytes(PolygonTag(|vs|)), VerticesBytes(vs);
    AppendSplit(tag, body);
    CommandTags();
    DecodeVerticesBytes(vs);
  }

  lemma WordCommandRoundTrip(tag: string, x: uint32, c: Command)
    requires tag in {"TPRM", "TPLT", "PATR"}
    requires c == (if tag == "TPRM" then TexParam(x) else if tag == "TPLT" then TexPalette(x) else PolygonAttr(x))
    ensures var e := WordRecord(tag, x);
            |e| >= 4 && e[..4] != OpBytes("VRAM") && PayloadLength(e[..4]) == Some(|e| - 4)
            && DecodeCommand(e[..4], e[4..]) == c
  {
    AppendSplit(OpBytes(tag), LeU32(x));
    CommandTags();
    DecodeLeU32(x);
  }

  lemma CommandRoundTrip(c: Command)
    requires Decodable(c)
    ensures var e := EncodeCommand(c);
            |e| >= 4 && e[..4] != OpBytes("VRAM") && PayloadLength(e[..4]) == Some(|e| - 4)
            && DecodeCommand(e[..4], e[4..]) == c
  {
    match c
    case Poly(vs) => PolyRoundTrip(vs);
    case TexParam(x) => WordCommandRoundTrip("TPRM", x, c);
    case TexPalette(x) => WordCommandRoundTrip("TPLT", x, c);
    case PolygonAttr(x) => WordCommandRoundTrip("PATR", x, c);
  }

  /** What follows the VRAM tag in a trailer. */
  function TrailerBody(s: Snapshot): seq<uint8>
  {
    Words(s.textureMap) + Words(s.texPalMap) + Concat(s.banks) + DispRecord(s) + ToonRecord(s)
  }

  lemma TrailerSplit(s: Snapshot)
    ensures Trailer(s) == OpBytes("VRAM") + TrailerBody(s)
    ensures |Trailer(s)| >= 4 && Trailer(s)[..4] == OpBytes("VRAM") && Trailer(s)[4..] == TrailerBody(s)
  {
  }

  lemma TrailerBodySlices(s: Snapshot)
    ensures var body, mid := TrailerBody(s), 48 + Sum(Sizes(s.banks));
      |body| == mid + 8 + 68
      && body[..16] == Words(s.textureMap)
      && body[16..48] == Words(s.texPalMap)
      && body[48..mid] == Concat(s.banks)
      && body[mid..mid + 4] == OpBytes("DISP")
      && body[mid + 4..mid + 8] == LeU32(s.dispCnt)
      && body[mid + 8..mid + 12] == OpBytes("TOON")
      && body[mid + 12..] == Halfwords(s.toonTable)
  {
    var body, mid := TrailerBody(s), 48 + Sum(Sizes(s.banks));
    var disp, toon := DispRecord(s), ToonRecord(s);
    assert body[mid..mid + 8] == disp;
    assert body[mid + 8..] == toon;
  }

  lemma {:induction false} SnapshotRoundTrip(s: Snapshot)
    ensures ParseSnapshot(TrailerBody(s), Sizes(s.banks)) == Some(s)
  {
    TrailerBodySlices(s);
    TagBytes();
    DecodeWordsBytes(s.textureMap);
    DecodeWordsBytes(s.texPalMap);
    SplitConcat(s.banks);
    DecodeLeU32(s.dispCnt);
    DecodeHalfwordsBytes(s.toonTable);
  }

  lemma TrailerRoundTrip(s: Snapshot)
    ensures ParseCommands(Trailer(s), Sizes(s.banks)) == Some(([], s))
  {
    TrailerSplit(s);
    SnapshotRoundTrip(s);
  }

  /** One step of the record parser: a command record followed by more records. */
  lemma ParseCommandsCons(e: seq<uint8>, more: seq<uint8>, sizes: seq<nat>, c: Command,
                          tail: seq<Command>, snap: Snapshot)
    requires |e| >= 4 && e[..4] != OpBytes("VRAM") && PayloadLength(e[..4]) == Some(|e| - 4)
    requires DecodeCommand(e[..4], e[4..]) == c
    requires ParseCommands(more, sizes) == Some((tail, snap))
    ensures ParseCommands(e + more, sizes) == Some(([c] + tail, snap))
  {
    var bs := e + more;
    var tag, rest, n := bs[..4], bs[4..], |e| - 4;
    assert tag == e[..4];
    assert rest[..n] == e[4..];
    assert rest[n..] == more;
  }

  lemma ParseCommandCons(c: Command, more: seq<uint8>, sizes: seq<nat>, tail: seq<Command>, snap: Snapshot)
    requires Decodable(c)
    requires ParseCommands(more, sizes) == Some((tail, snap))
    ensures ParseCommands(EncodeCommand(c) + more, sizes) == Some(([c] + tail, snap))
  {
    CommandRoundTrip(c);
    ParseCommandsCons(EncodeCommand(c), more, sizes, c, tail, snap);
  }

  /** Commands in front of any record stream that parses to no commands. */
  lemma {:induction false} CommandsRoundTrip(cs: seq<Command>, rest: seq<uint8>, sizes: seq<nat>, snap: Snapshot)
    requires forall i :: 0 <= i < |cs| ==> Decodable(cs[i])
    requires ParseCommands(rest, sizes) == Some(([], snap))
    ensures ParseCommands(EncodeCommands(cs) + rest, sizes) == Some((cs, snap))
  {
    if cs == [] {
      assert EncodeCommands(cs) + rest == rest;
    } else {
      var e, more := EncodeCommand(cs[0]), EncodeCommands(cs[1..]) + rest;
      assert EncodeCommands(cs) == e + EncodeCommands(cs[1..]);
      AppendAssoc(e, EncodeCommands(cs[1..]), rest);
      CommandsRoundTrip(cs[1..], rest, sizes, snap);
      ParseCommandCons(cs[0], more, sizes, cs[1..], snap);
      assert [cs[0]] + cs[1..] == cs;
    }
  }

  /** A dump file reads back as exactly the commands emitted for the frame, in
      emission order, and the render-time state appended to it. */
  lemma DumpFileRoundTrip(cs: seq<Command>, s: Snapshot)
    requires forall i :: 0 <= i < |cs| ==> Decodable(cs[i])
    ensures ParseDump(DumpFile(cs, s), Sizes(s.banks)) == Some((cs, s))
  {
    var bs := DumpFile(cs, s);
    AppendAssoc(Header(), EncodeCommands(cs), Trailer(s));
    AppendSplit(Header(), EncodeCommands(cs) + Trailer(s));
    TrailerRoundTrip(s);
    CommandsRoundTrip(cs, Trailer(s), Sizes(s.banks), s);
  }
}
