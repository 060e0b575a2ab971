/** The recorder's double-buffered state machine as functions on a state value.
    DumpFile1 records the commands of the frame being submitted; at a flush it
    moves to DumpFile2, where it waits for the render signal that appends the
    VRAM and render state and writes it out. */
module Capture {
  import opened Encoding
  import opened Records
  import opened Seqs

  /** One file the recorder wrote: its name and its bytes. */
  datatype WrittenFile = WrittenFile(name: string, contents: seq<uint8>)

  datatype State = State(
    isDumping: bool,        // IsDumping: recording polys to DumpFile1
    dump1: seq<uint8>,      // DumpFile1
    dump2: seq<uint8>,      // DumpFile2
    frameCntr: uint32,      // frames written so far in this rip
    numScheduled: uint32,   // frames still to be started
    totRequested: uint32,   // frames asked for; 0 when no rip is in progress
    timeStr: string,        // the time the rip started, for file names
    written: seq<WrittenFile>)

  /** The globals at program start. */
  function Initial(): State
  {
    State(false, [], [], 0, 0, 0, "", [])
  }

  /** 1 for a buffer that holds a frame, 0 for an empty one. */
  function Occupied(buf: seq<uint8>): nat
  {
    if buf == [] then 0 else 1
  }

  /** Between calls, every requested frame is either written, still to be
      started, or sitting in one of the two buffers; a buffer that holds a frame
      starts with the magic header, and so does every file written. */
  predicate Inv(s: State)
  {
    && s.frameCntr as int + s.numScheduled + Occupied(s.dump1) + Occupied(s.dump2) == s.totRequested
    && (s.isDumping <==> s.dump1 != [])
    && (s.dump1 != [] ==> Header() <= s.dump1)
    && (s.dump2 != [] ==> Header() <= s.dump2)
    && (forall i :: 0 <= i < |s.written| ==> Header() <= s.written[i].contents)
  }

  /** No rip in progress and nothing buffered. */
  predicate Idle(s: State)
  {
    s.totRequested == 0 && s.frameCntr == 0 && s.numScheduled == 0
    && s.dump1 == [] && s.dump2 == [] && !s.isDumping
  }

  /** RequestRip: ignored while a rip is in progress. */
  function RequestRip(s: State, nframes: uint32 := 1): (r: State)
    ensures s.totRequested != 0 ==> r == s
    ensures s.totRequested == 0 ==> r.totRequested == nframes && r.numScheduled == nframes
    ensures r.(totRequested := s.totRequested, numScheduled := s.numScheduled) == s
  {
    if s.totRequested != 0 then s
    else s.(totRequested := nframes, numScheduled := nframes)
  }

  /** FlushRequest: hands the recorded frame over to DumpFile2 (unless that is
      still waiting to be rendered) and starts recording the next frame if any
      is scheduled. */
  function FlushRequest(s: State): (r: State)
    ensures s.dump2 != [] ==> r == s
    ensures s.dump2 == [] ==> r.dump2 == s.dump1
    ensures s.dump2 == [] && s.numScheduled == 0 ==> !r.isDumping && r.dump1 == [] && r.numScheduled == 0
    ensures s.dump2 == [] && s.numScheduled != 0 ==>
              r.isDumping && r.dump1 == Header() && r.numScheduled == s.numScheduled - 1
    ensures r.(isDumping := s.isDumping, dump1 := s.dump1, dump2 := s.dump2, numScheduled := s.numScheduled) == s
  {
    if s.dump2 != [] then s
    else
      // DumpFile1.swap(DumpFile2): DumpFile1 takes the (empty) old DumpFile2
      var swapped := s.(dump1 := s.dump2, dump2 := s.dump1);
      if swapped.numScheduled == 0 then swapped.(isDumping := false)
      else swapped.(isDumping := true, numScheduled := swapped.numScheduled - 1, dump1 := Header())
  }

  /** The name RenderFrame gives a frame: no suffix for a one-frame rip, else
      "_f" and the 1-based frame number, formatted with "%d". */
  function FileName(timeStr: string, totRequested: uint32, frameCntr: uint32): string
  {
    if totRequested == 1 then "melonrip-" + timeStr + ".dump"
    else "melonrip-" + timeStr + "_f" + FormatSigned(Inc32(frameCntr)) + ".dump"
  }

  /** Every name is "melonrip-", the time string, a suffix and ".dump"; the
      suffix is empty exactly for a one-frame rip, and otherwise "_f" followed
      by the frame counter plus one (mod 2^32) as "%d" prints it. */
  lemma FileNameShape(timeStr: string, totRequested: uint32, frameCntr: uint32)
    ensures var r, t := FileName(timeStr, totRequested, frameCntr), |timeStr|;
            && |r| >= 14 + t && r[..9 + t] == "melonrip-" + timeStr && r[|r| - 5..] == ".dump"
            && (totRequested == 1 <==> |r| == 14 + t)
            && (totRequested != 1 ==> r[9 + t..|r| - 5] == "_f" + FormatSigned(Inc32(frameCntr)))
  {
    var p := "melonrip-" + timeStr;
    var m := if totRequested == 1 then "" else "_f" + FormatSigned(Inc32(frameCntr));
    var r := p + m + ".dump";
    assert FileName(timeStr, totRequested, frameCntr) == r;
    AppendAssoc(p, m, ".dump");
    AppendSplit(p, m + ".dump");
    AppendSplit(m, ".dump");
    assert r[|p|..][..|m|] == r[|p|..|r| - 5];
  }

  /** RenderFrame: finalises and writes the frame waiting in DumpFile2. The clock
      is read (as `now`) only for the first frame of a rip. */
  function RenderFrame(s: State, snap: Snapshot, now: string): (r: State)
    ensures s.dump2 == [] ==> r == s
    ensures s.dump2 != [] ==>
              && r.dump2 == []
              && r.written == s.written + [WrittenFile(FileName(r.timeStr, s.totRequested, s.frameCntr), s.dump2 + Trailer(snap))]
              && r.timeStr == (if s.frameCntr == 0 then now else s.timeStr)
    ensures r.(dump2 := s.dump2, written := s.written, timeStr := s.timeStr,
               frameCntr := s.frameCntr, totRequested := s.totRequested) == s
  {
    if s.dump2 == [] then s
    else
      var timeStr := if s.frameCntr == 0 then now else s.timeStr;
      var file := WrittenFile(FileName(timeStr, s.totRequested, s.frameCntr), s.dump2 + Trailer(snap));
      var cntr := Inc32(s.frameCntr);
      var done := cntr == s.totRequested;
      s.(dump2 := [], timeStr := timeStr, written := s.written + [file],
         frameCntr := if done then 0 else cntr,
         totRequested := if done then 0 else s.totRequested)
  }

  /** Polygon, TexParam, TexPalette, PolygonAttr: append one record to DumpFile1,
      whether or not a frame is being recorded. */
  function Emit(s: State, c: Command): (r: State)
    ensures s.dump1 <= r.dump1 && |r.dump1| == |s.dump1| + |EncodeCommand(c)|
    ensures r.(dump1 := s.dump1) == s
  {
    s.(dump1 := s.dump1 + EncodeCommand(c))
  }

  // ---------------------------------------------------------------------------
  // The invariant holds from program start and is kept by every entry point.

  lemma InitialInv()
    ensures Inv(Initial()) && Idle(Initial())
  {
  }

  lemma RequestRipKeepsInv(s: State, nframes: uint32)
    requires Inv(s)
    ensures Inv(RequestRip(s, nframes))
  {
  }

  lemma FlushRequestKeepsInv(s: State)
    requires Inv(s)
    ensures Inv(FlushRequest(s))
  {
  }

  /** Rendering a pending frame advances the frame counter, and the rip ends
      (both counters back to 0) exactly when the last requested frame is written. */
  lemma RenderFrameKeepsInv(s: State, snap: Snapshot, now: string)
    requires Inv(s)
    ensures var r := RenderFrame(s, snap, now);
            && Inv(r)
            && (s.dump2 != [] ==>
                  if s.frameCntr + 1 == s.totRequested then r.frameCntr == 0 && r.totRequested == 0
                  else r.frameCntr == s.frameCntr + 1 && r.totRequested == s.totRequested)
  {
  }

  /** Commands only ever arrive while a frame is being recorded. */
  lemma EmitKeepsInv(s: State, c: Command)
    requires Inv(s) && s.isDumping
    ensures Inv(Emit(s, c))
  {
  }

  function EmitAll(s: State, cs: seq<Command>): State
    decreases |cs|
  {
    if cs == [] then s else EmitAll(Emit(s, cs[0]), cs[1..])
  }

  lemma {:induction false} EmitAllAppends(s: State, cs: seq<Command>)
    ensures EmitAll(s, cs) == s.(dump1 := s.dump1 + EncodeCommands(cs))
    decreases |cs|
  {
    if cs != [] {
      var a, b := EncodeCommand(cs[0]), EncodeCommands(cs[1..]);
      var s1 := Emit(s, cs[0]);
      assert s1 == s.(dump1 := s.dump1 + a);
      EmitAllAppends(s1, cs[1..]);
      assert EmitAll(s, cs) == s1.(dump1 := s1.dump1 + b);
      assert EncodeCommands(cs) == a + b;
      AppendAssoc(s.dump1, a, b);
    }
  }

  // ---------------------------------------------------------------------------
  // A rip driven by the emulator: each frame is a flush, a render, and then the
  // commands of the next frame, which the 3D engine emits only while IsDumping.

  datatype Frame = Frame(commands: seq<Command>, snapshot: Snapshot, now: string)

  function Step(s: State, f: Frame): State
  {
    var r := RenderFrame(FlushRequest(s), f.snapshot, f.now);
    if r.isDumping then EmitAll(r, f.commands) else r
  }

  function Run(s: State, fs: seq<Frame>): State
  {
    if fs == [] then s else Step(Run(s, fs[..|fs| - 1]), fs[|fs| - 1])
  }

  /** File j (0-based) of a rip of n frames driven by fs: the commands emitted
      in frame j, finalised with the state of frame j + 1, named with the time
      of the render of frame 1. */
  function Expected(fs: seq<Frame>, n: uint32, j: nat): WrittenFile
    requires j + 1 < |fs| && j < n
  {
    WrittenFile(FileName(fs[1].now, n, j), DumpFile(fs[j].commands, fs[j + 1].snapshot))
  }

  /** The state after k frames of a rip of n frames (1 <= k <= n): frame k - 1
      is being recorded and frames 0 .. k - 2 have been written. */
  predicate Recording(s: State, w0: seq<WrittenFile>, n: uint32, fs: seq<Frame>, k: nat)
    requires 1 <= k <= n && n + 1 == |fs|
  {
    && s.totRequested == n && s.frameCntr == k - 1 && s.numScheduled == n - k
    && s.isDumping && s.dump2 == []
    && s.dump1 == Header() + EncodeCommands(fs[k - 1].commands)
    && (k >= 2 ==> s.timeStr == fs[1].now)
    && |s.written| == |w0| + k - 1 && s.written[..|w0|] == w0
    && (forall j :: 0 <= j < k - 1 ==> s.written[|w0| + j] == Expected(fs, n, j))
  }

  lemma StepFirst(s0: State, n: uint32, fs: seq<Frame>)
    requires Idle(s0) && 1 <= n && n + 1 == |fs|
    ensures Recording(Step(RequestRip(s0, n), fs[0]), s0.written, n, fs, 1)
  {
    var s1 := RequestRip(s0, n);
    var r := RenderFrame(FlushRequest(s1), fs[0].snapshot, fs[0].now);
    assert r == s1.(isDumping := true, numScheduled := n - 1, dump1 := Header());
    EmitAllAppends(r, fs[0].commands);
  }

  lemma StepMiddle(s: State, w0: seq<WrittenFile>, n: uint32, fs: seq<Frame>, k: nat)
    requires 1 <= k < n && n + 1 == |fs|
    requires Recording(s, w0, n, fs, k)
    ensures Recording(Step(s, fs[k]), w0, n, fs, k + 1)
  {
    var f := FlushRequest(s);
    assert f == s.(dump2 := s.dump1, dump1 := Header(), isDumping := true, numScheduled := n - k - 1);
    var r := RenderFrame(f, fs[k].snapshot, fs[k].now);
    var timeStr := if k == 1 then fs[k].now else s.timeStr;
    assert r.timeStr == timeStr == fs[1].now;
    assert r.written == s.written + [Expected(fs, n, k - 1)];
    assert r == f.(dump2 := [], timeStr := timeStr, written := r.written, frameCntr := k);
    EmitAllAppends(r, fs[k].commands);
    var t := Step(s, fs[k]);
    assert t.written == r.written;
    WrittenSnoc(s.written, w0, n, fs, k);
  }

  lemma StepLast(s: State, w0: seq<WrittenFile>, n: uint32, fs: seq<Frame>)
    requires 1 <= n && n + 1 == |fs|
    requires Recording(s, w0, n, fs, n)
    ensures var t := Step(s, fs[n]);
            && Idle(t) && |t.written| == |w0| + n && t.written[..|w0|] == w0
            && forall j :: 0 <= j < n ==> t.written[|w0| + j] == Expected(fs, n, j)
  {
    var f := FlushRequest(s);
    assert f == s.(dump2 := s.dump1, dump1 := [], isDumping := false);
    var r := RenderFrame(f, fs[n].snapshot, fs[n].now);
    var timeStr := if n == 1 then fs[n].now else s.timeStr;
    assert r.timeStr == timeStr == fs[1].now;
    assert r.written == s.written + [Expected(fs, n, n - 1)];
    var t := Step(s, fs[n]);
    assert t == r;
    WrittenSnoc(s.written, w0, n, fs, n);
  }

  /** Writing file k - 1 after files 0 .. k - 2 gives files 0 .. k - 1. */
  lemma WrittenSnoc(written: seq<WrittenFile>, w0: seq<WrittenFile>, n: uint32, fs: seq<Frame>, k: nat)
    requires 1 <= k <= n && n + 1 == |fs|
    requires |written| == |w0| + k - 1 && written[..|w0|] == w0
    requires forall j :: 0 <= j < k - 1 ==> written[|w0| + j] == Expected(fs, n, j)
    ensures var more := written + [Expected(fs, n, k - 1)];
            && |more| == |w0| + k && more[..|w0|] == w0
            && forall j :: 0 <= j < k ==> more[|w0| + j] == Expected(fs, n, j)
  {
    var more := written + [Expected(fs, n, k - 1)];
    assert more[..|w0|] == written[..|w0|];
    forall j | 0 <= j < k
      ensures more[|w0| + j] == Expected(fs, n, j)
    {
      if j < k - 1 {
        assert more[|w0| + j] == written[|w0| + j];
      }
    }
  }

  lemma {:induction false} RunRecording(s0: State, n: uint32, fs: seq<Frame>, k: nat)
    requires Idle(s0) && 1 <= k <= n && n + 1 == |fs|
    ensures Recording(Run(RequestRip(s0, n), fs[..k]), s0.written, n, fs, k)
  {
    var s1 := RequestRip(s0, n);
    assert fs[..k][..k - 1] == fs[..k - 1];
    if k == 1 {
      assert Run(s1, fs[..0]) == s1;
      StepFirst(s0, n, fs);
    } else {
      RunRecording(s0, n, fs, k - 1);
      StepMiddle(Run(s1, fs[..k - 1]), s0.written, n, fs, k - 1);
    }
  }

  /** A request for n frames, from an idle recorder, followed by n + 1 frames of
      flush/render writes exactly n files -- frame j's commands finalised with
      the next frame's state, all named with one timestamp -- and leaves the
      recorder idle, ready for the next request. */
  lemma RipWritesRequestedFrames(s0: State, n: uint32, fs: seq<Frame>)
    requires Idle(s0) && 1 <= n && n + 1 == |fs|
    ensures var r := Run(RequestRip(s0, n), fs);
            && Idle(r) && |r.written| == |s0.written| + n && r.written[..|s0.written|] == s0.written
            && forall j :: 0 <= j < n ==> r.written[|s0.written| + j] == Expected(fs, n, j)
  {
    var s1 := RequestRip(s0, n);
    RunRecording(s0, n, fs, n);
    assert fs[..n + 1] == fs;
    assert fs[..n + 1][..n] == fs[..n];
    StepLast(Run(s1, fs[..n]), s0.written, n, fs);
  }

  /** Within one rip of more than one frame, every frame gets its own file name. */
  lemma FileNamesDistinct(timeStr: string, n: uint32, j: nat, k: nat)
    requires n != 1 && j < n && k < n && j != k
    ensures FileName(timeStr, n, j) != FileName(timeStr, n, k)
  {
    var prefix := "melonrip-" + timeStr + "_f";
    var a, b := FormatSigned(j + 1), FormatSigned(k + 1);
    if FileName(timeStr, n, j) == FileName(timeStr, n, k) {
      var x, y := prefix + a + ".dump", prefix + b + ".dump";
      assert x[|prefix|..|x| - 5] == a;
      assert y[|prefix|..|y| - 5] == b;
      FormatSignedInjective(Inc32(j), Inc32(k));
    }
  }

  /** In a rip of several frames, frame j (0-based) is numbered j + 1 in its
      file name, as long as that number is below 2^31 and so prints unsigned. */
  lemma FrameFileName(timeStr: string, n: uint32, j: nat)
    requires n != 1 && j < n && j + 1 < 0x8000_0000
    ensures FileName(timeStr, n, j) == "melonrip-" + timeStr + "_f" + Decimal(j + 1) + ".dump"
    ensures DecimalValue(Decimal(j + 1)) == j + 1
  {
    DecimalRoundTrip(j + 1);
  }

  /** Each file of a rip reads back as exactly the commands emitted during its
      own frame, followed by the state it was rendered with. */
  lemma RipFilesReadBack(s0: State, n: uint32, fs: seq<Frame>, j: nat)
    requires Idle(s0) && 1 <= n && n + 1 == |fs| && j < n
    requires forall i :: 0 <= i < |fs[j].commands| ==> Decodable(fs[j].commands[i])
    ensures var files := Run(RequestRip(s0, n), fs).written;
            && |s0.written| + j < |files|
            && ParseDump(files[|s0.written| + j].contents, Sizes(fs[j + 1].snapshot.banks))
                 == Some((fs[j].commands, fs[j + 1].snapshot))
  {
    var files := Run(RequestRip(s0, n), fs).written;
    RipWritesRequestedFrames(s0, n, fs);
    var file := files[|s0.written| + j];
    assert file == Expected(fs, n, j);
    DumpFileRoundTrip(fs[j].commands, fs[j + 1].snapshot);
  }
}
