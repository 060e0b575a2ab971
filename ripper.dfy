/** The recorder as the source keeps it: process-wide state updated in place by
    its entry points. Each method is proved to have exactly the effect of the
    matching function of Capture. */
module MelonRipper {
  import opened Encoding
  import opened Records
  import opened Seqs
  import Capture

  class Recorder {
    var isDumping: bool
    var dump1: seq<uint8>
    var dump2: seq<uint8>
    var frameCntr: uint32
    var numScheduled: uint32
    var totRequested: uint32
    var timeStr: string
    /** The files written so far, in order; stands for the file system. */
    var written: seq<Capture.WrittenFile>

    function State(): Capture.State
      reads this
    {
      Capture.State(isDumping, dump1, dump2, frameCntr, numScheduled, totRequested, timeStr, written)
    }

    constructor ()
      ensures State() == Capture.Initial()
    {
      isDumping := false;
      dump1, dump2 := [], [];
      frameCntr, numScheduled, totRequested := 0, 0, 0;
      timeStr := "";
      written := [];
    }

    method RequestRip(nframes: uint32 := 1)
      modifies this`totRequested, this`numScheduled
      ensures State() == Capture.RequestRip(old(State()), nframes)
    {
      if totRequested != 0 {
        // already doing a rip
        return;
      }
      totRequested := nframes;
      numScheduled := nframes;
    }

    method FlushRequest()
      modifies this
      ensures State() == Capture.FlushRequest(old(State()))
    {
      if dump2 != [] {
        return;
      }
      dump1, dump2 := dump2, dump1;
      if numScheduled == 0 {
        isDumping := false;
        return;
      }
      isDumping := true;
      numScheduled := numScheduled - 1;
      dump1 := [];
      dump1 := Header() + dump1;
    }

    method RenderFrame(snap: Snapshot, now: string)
      modifies this`dump2, this`timeStr, this`written, this`frameCntr, this`totRequested
      ensures State() == Capture.RenderFrame(old(State()), snap, now)
    {
      if dump2 == [] {
        return;
      }
      ghost var r := Capture.RenderFrame(State(), snap, now);
      DumpVRAM(snap);
      DumpDispCnt(snap);
      DumpToonTable(snap);
      AppendTrailer(old(dump2), snap);
      if frameCntr == 0 {
        timeStr := now;
      }
      var filename := Capture.FileName(timeStr, totRequested, frameCntr);
      WriteDumpFile(filename);
      dump2 := [];
      frameCntr := Inc32(frameCntr);
      if frameCntr == totRequested {
        frameCntr, totRequested := 0, 0;
      }
      assert r.timeStr == timeStr;
      assert r.written == written;
      assert r.frameCntr == frameCntr && r.totRequested == totRequested;
    }

    /** Writes DumpFile2 under the given name. Whether the write succeeds does
        not affect the recorder. */
    method WriteDumpFile(filename: string)
      modifies this`written
      ensures written == old(written) + [Capture.WrittenFile(filename, dump2)]
    {
      written := written + [Capture.WrittenFile(filename, dump2)];
    }

    method Polygon(verts: seq<Vertex>, nverts: int)
      requires 0 <= nverts <= |verts|
      modifies this`dump1
      ensures State() == Capture.Emit(old(State()), Poly(verts[..nverts]))
      ensures |dump1| == |old(dump1)| + 4 + 28 * nverts
    {
      dump1 := dump1 + OpBytes(PolygonTag(nverts));
      var i := 0;
      while i != nverts
        invariant 0 <= i <= nverts
        invariant dump1 == old(dump1) + OpBytes(PolygonTag(nverts)) + VerticesBytes(verts[..i])
        decreases nverts - i
      {
        var v := verts[i];
        ghost var before := dump1;
        dump1 := dump1 + LeU32(v.worldPosition[0]);
        dump1 := dump1 + LeU32(v.worldPosition[1]);
        dump1 := dump1 + LeU32(v.worldPosition[2]);
        dump1 := dump1 + LeU32(v.color[0]);
        dump1 := dump1 + LeU32(v.color[1]);
        dump1 := dump1 + LeU32(v.color[2]);
        dump1 := dump1 + LeU16(v.texCoords[0]);
        dump1 := dump1 + LeU16(v.texCoords[1]);
        AppendVertex(before, v);
        VerticesAppend(old(dump1) + OpBytes(PolygonTag(nverts)), verts, i);
        i := i + 1;
      }
      PolygonParts(old(dump1), verts[..nverts]);
    }

    method TexParam(param: uint32)
      modifies this`dump1
      ensures State() == Capture.Emit(old(State()), Records.TexParam(param))
      ensures dump1 == old(dump1) + OpBytes("TPRM") + LeU32(param)
    {
      dump1 := dump1 + OpBytes("TPRM");
      dump1 := dump1 + LeU32(param);
    }

    method TexPalette(pal: uint32)
      modifies this`dump1
      ensures State() == Capture.Emit(old(State()), Records.TexPalette(pal))
      ensures dump1 == old(dump1) + OpBytes("TPLT") + LeU32(pal)
    {
      dump1 := dump1 + OpBytes("TPLT");
      dump1 := dump1 + LeU32(pal);
    }

    method PolygonAttr(attr: uint32)
      modifies this`dump1
      ensures State() == Capture.Emit(old(State()), Records.PolygonAttr(attr))
      ensures dump1 == old(dump1) + OpBytes("PATR") + LeU32(attr)
    {
      dump1 := dump1 + OpBytes("PATR");
      dump1 := dump1 + LeU32(attr);
    }

    method DumpVRAM(snap: Snapshot)
      modifies this`dump2
      ensures dump2 == old(dump2) + VramRecord(snap)
    {
      dump2 := dump2 + OpBytes("VRAM");
      ghost var start := dump2;
      for i := 0 to 4
        invariant dump2 == start + Words(snap.textureMap[..i])
      {
        dump2 := dump2 + LeU32(snap.textureMap[i]);
        WordsAppend(start, snap.textureMap, i);
      }
      assert snap.textureMap[..4] == snap.textureMap;
      ghost var maps := dump2;
      for i := 0 to 8
        invariant dump2 == maps + Words(snap.texPalMap[..i])
      {
        dump2 := dump2 + LeU32(snap.texPalMap[i]);
        WordsAppend(maps, snap.texPalMap, i);
      }
      assert snap.texPalMap[..8] == snap.texPalMap;
      // the seven DUMP_BANK lines, banks A to G in order
      ghost var banks := dump2;
      for b := 0 to 7
        invariant dump2 == banks + Concat(snap.banks[..b])
      {
        dump2 := dump2 + snap.banks[b];
        ConcatAppend(banks, snap.banks, b);
      }
      assert snap.banks[..7] == snap.banks;
      VramParts(old(dump2), snap);
    }

    method DumpDispCnt(snap: Snapshot)
      modifies this`dump2
      ensures dump2 == old(dump2) + DispRecord(snap)
    {
      dump2 := dump2 + OpBytes("DISP");
      dump2 := dump2 + LeU32(snap.dispCnt);
    }

    method DumpToonTable(snap: Snapshot)
      modifies this`dump2
      ensures dump2 == old(dump2) + ToonRecord(snap)
    {
      dump2 := dump2 + OpBytes("TOON");
      ghost var start := dump2;
      for i := 0 to 32
        invariant dump2 == start + Halfwords(snap.toonTable[..i])
      {
        dump2 := dump2 + LeU16(snap.toonTable[i]);
        HalfwordsAppend(start, snap.toonTable, i);
      }
      assert snap.toonTable[..32] == snap.toonTable;
    }
  }

  // Each lemma below extends a byte string by one more element of a run.

  lemma WordsAppend(d: seq<uint8>, xs: seq<uint32>, i: nat)
    requires i < |xs|
    ensures d + Words(xs[..i + 1]) == d + Words(xs[..i]) + LeU32(xs[i])
  {
    PrefixStep(xs, i);
    AppendAssoc(d, Words(xs[..i]), LeU32(xs[i]));
  }

  lemma HalfwordsAppend(d: seq<uint8>, xs: seq<uint16>, i: nat)
    requires i < |xs|
    ensures d + Halfwords(xs[..i + 1]) == d + Halfwords(xs[..i]) + LeU16(xs[i])
  {
    PrefixStep(xs, i);
    AppendAssoc(d, Halfwords(xs[..i]), LeU16(xs[i]));
  }

  lemma VerticesAppend(d: seq<uint8>, vs: seq<Vertex>, i: nat)
    requires i < |vs|
    ensures d + VerticesBytes(vs[..i + 1]) == d + VerticesBytes(vs[..i]) + VertexBytes(vs[i])
  {
    PrefixStep(vs, i);
    AppendAssoc(d, VerticesBytes(vs[..i]), VertexBytes(vs[i]));
  }

  lemma ConcatAppend(d: seq<uint8>, banks: seq<seq<uint8>>, i: nat)
    requires i < |banks|
    ensures d + Concat(banks[..i + 1]) == d + Concat(banks[..i]) + banks[i]
  {
    PrefixStep(banks, i);
    AppendAssoc(d, Concat(banks[..i]), banks[i]);
  }

  /** Appending the vertex fields one by one, in the order Polygon writes them,
      appends the vertex's record. */
  lemma AppendVertex(d: seq<uint8>, v: Vertex)
    ensures d + VertexBytes(v)
         == d + LeU32(v.worldPosition[0]) + LeU32(v.worldPosition[1]) + LeU32(v.worldPosition[2])
          + LeU32(v.color[0]) + LeU32(v.color[1]) + LeU32(v.color[2])
          + LeU16(v.texCoords[0]) + LeU16(v.texCoords[1])
  {
    var xs, ts := v.worldPosition + v.color, v.texCoords;
    AppendSixWords(d, xs);
    var d6 := d + Words(xs);
    assert ts[..0] == [];
    var d7 := d6 + LeU16(ts[0]);
    assert d7 == d6 + Halfwords(ts[..1]) by { HalfwordsAppend(d6, ts, 0); }
    var d8 := d7 + LeU16(ts[1]);
    assert d8 == d6 + Halfwords(ts) by { HalfwordsAppend(d6, ts, 1); assert ts[..2] == ts; }
    AppendAssoc(d, Words(xs), Halfwords(ts));
  }

  lemma AppendSixWords(d: seq<uint8>, xs: seq<uint32>)
    requires |xs| == 6
    ensures d + Words(xs)
         == d + LeU32(xs[0]) + LeU32(xs[1]) + LeU32(xs[2]) + LeU32(xs[3]) + LeU32(xs[4]) + LeU32(xs[5])
  {
    assert xs[..0] == [];
    var d1 := d + LeU32(xs[0]);
    assert d1 == d + Words(xs[..1]) by { WordsAppend(d, xs, 0); }
    var d2 := d1 + LeU32(xs[1]);
    assert d2 == d + Words(xs[..2]) by { WordsAppend(d, xs, 1); }
    var d3 := d2 + LeU32(xs[2]);
    assert d3 == d + Words(xs[..3]) by { WordsAppend(d, xs, 2); }
    var d4 := d3 + LeU32(xs[3]);
    assert d4 == d + Words(xs[..4]) by { WordsAppend(d, xs, 3); }
    var d5 := d4 + LeU32(xs[4]);
    assert d5 == d + Words(xs[..5]) by { WordsAppend(d, xs, 4); }
    var d6 := d5 + LeU32(xs[5]);
    assert d6 == d + Words(xs) by { WordsAppend(d, xs, 5); assert xs[..6] == xs; }
  }

  lemma AppendTrailer(d: seq<uint8>, snap: Snapshot)
    ensures d + VramRecord(snap) + DispRecord(snap) + ToonRecord(snap) == d + Trailer(snap)
  {
    AppendAssoc(d, VramRecord(snap), DispRecord(snap));
    AppendAssoc(d, VramRecord(snap) + DispRecord(snap), ToonRecord(snap));
  }

  lemma PolygonParts(d: seq<uint8>, vs: seq<Vertex>)
    ensures d + EncodeCommand(Poly(vs)) == d + OpBytes(PolygonTag(|vs|)) + VerticesBytes(vs)
  {
    assert EncodeCommand(Poly(vs)) == PolygonRecord(vs);
    AppendAssoc(d, OpBytes(PolygonTag(|vs|)), VerticesBytes(vs));
  }

  lemma VramParts(d: seq<uint8>, snap: Snapshot)
    ensures d + VramRecord(snap)
         == d + OpBytes("VRAM") + Words(snap.textureMap) + Words(snap.texPalMap) + Concat(snap.banks)
  {
  }

  /** A one-frame rip from a fresh recorder: the request, the flush that starts
      recording (its render finds nothing to write), one QUAD, the flush that
      hands the frame over, and the render that writes it. */
  method RipOneQuad(quad: seq<Vertex>, early: Snapshot, snap: Snapshot, t0: string, now: string)
    returns (files: seq<Capture.WrittenFile>)
    requires |quad| == 4
    ensures files == [Capture.WrittenFile("melonrip-" + now + ".dump", DumpFile([Poly(quad)], snap))]
    ensures ParseDump(files[0].contents, Sizes(snap.banks)) == Some(([Poly(quad)], snap))
  {
    assert quad[..4] == quad;
    OneQuadFile(quad, snap);
    var r := new Recorder();
    r.RequestRip(1);
    assert r.totRequested == 1 && r.numScheduled == 1 && r.dump2 == [];
    r.FlushRequest();
    assert r.isDumping && r.dump1 == Header() && r.dump2 == [] && r.numScheduled == 0;
    assert r.frameCntr == 0 && r.totRequested == 1 && r.written == [];
    r.RenderFrame(early, t0);
    ghost var recording := r.State();
    r.Polygon(quad, 4);
    assert r.State() == recording.(dump1 := Header() + PolygonRecord(quad));
    r.FlushRequest();
    assert r.dump2 == Header() + PolygonRecord(quad) && r.frameCntr == 0 && r.totRequested == 1 && r.written == [];
    r.RenderFrame(snap, now);
    files := r.written;
    assert Capture.FileName(now, 1, 0) == "melonrip-" + now + ".dump";
    assert files == [Capture.WrittenFile("melonrip-" + now + ".dump", Header() + PolygonRecord(quad) + Trailer(snap))];
  }

  lemma OneQuadFile(quad: seq<Vertex>, snap: Snapshot)
    requires |quad| == 4
    ensures DumpFile([Poly(quad)], snap) == Header() + PolygonRecord(quad) + Trailer(snap)
    ensures ParseDump(DumpFile([Poly(quad)], snap), Sizes(snap.banks)) == Some(([Poly(quad)], snap))
  {
    assert [Poly(quad)][1..] == [];
    assert EncodeCommands([Poly(quad)]) == PolygonRecord(quad);
    DumpFileRoundTrip([Poly(quad)], snap);
  }
}
