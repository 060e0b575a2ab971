# MelonRipper, modelled in Dafny

MelonRipper is the part of melonDS that rips the 3D scene of one or more
emulated frames to "dump" files. While a frame is being recorded, the 3D
engine reports every polygon and every texture or attribute change. Each
report becomes a tagged little-endian record in DumpFile1. Polygons
submitted in one frame are drawn with the textures and render state of the
next frame. Because of that, the recorder double-buffers:

- a flush hands the recorded frame to DumpFile2;
- the next render appends the VRAM and render state to DumpFile2 and writes
  it to `melonrip-<time>.dump`, or to `melonrip-<time>_f<n>.dump` for a rip
  of several frames.

The model has five modules:

- `Encoding`: the fixed-width integers, the byte encodings of DumpOp, DumpU32
  and DumpU16, the 32-bit wrap of `++FrameCntr`, and the `%d` formatting of
  file names, with the decoders that invert them.
- `Records`: the dump format. It covers the 24-byte magic header, the
  TRI/QUAD, TPRM, TPLT and PATR command records, and the VRAM, DISP and TOON
  trailer records. It also holds a reference reader, `ParseDump`. The
  source has no reader, so `ParseDump` is the independent partner that
  the encoder is proved against: every dump file reads back as the frame's
  commands, in order, and the render state.
- `Capture`: the recorder's globals as a state value. Each entry point
  (RequestRip, FlushRequest, RenderFrame and the emitters) is a function on
  that value. Three kinds of result are proved about them:
  - the bookkeeping invariant, which every entry point keeps;
  - a whole multi-frame rip writes exactly the requested files, and they
    have distinct names;
  - each written file reads back as its own frame's commands and the next
    frame's state.
- `MelonRipper`: the recorder as the source keeps it. `Recorder` is a class
  whose fields are the globals, updated in place. Its methods append field by
  field with the source's loops. The entry points and the emitters are each
  proved to have exactly the effect of the matching `Capture` function.
  DumpVRAM, DumpDispCnt and DumpToonTable have no `Capture` counterpart; they
  are proved to append exactly `Records.VramRecord`, `Records.DispRecord` and
  `Records.ToonRecord`. WriteDumpFile is proved to append one entry to the
  log of written files. `RipOneQuad` drives a
  fresh recorder through a one-frame rip.
- `Seqs`: generic facts about sequence concatenation used by the proofs.

The GPU globals that RenderFrame reads are modelled as one parameter, a
`Snapshot`: the texture and palette VRAM maps, the seven VRAM banks A to G,
RenderDispCnt and RenderToonTable. The wall clock is modelled as a
parameter `now`, which holds the already formatted time string.

Some facts about the code that the model keeps:

- A flush that finds DumpFile2 still pending returns at once and leaves
  IsDumping as it was (src/MelonRipper.cpp:91-94).
- The emitters append to DumpFile1 without looking at IsDumping
  (src/MelonRipper.cpp:150-179).
- Each vertex is 28 bytes: six u32 values and two u16 values
  (src/MelonRipper.cpp:155-162).
- File names are `melonrip-<time>.dump` for a one-frame rip and
  `melonrip-<time>_f<FrameCntr+1>.dump` otherwise
  (src/MelonRipper.cpp:133-137).
- The time string is taken at the first render of a rip, when FrameCntr is 0
  (src/MelonRipper.cpp:121).

## Model

| member | source | states |
|---|---|---|
| Encoding.LeU32 | src/MelonRipper.cpp:52-57 | DumpU32 emits four bytes whose least-significant-first value is the argument |
| Encoding.LeU16 | src/MelonRipper.cpp:59-62 | DumpU16 emits two bytes whose least-significant-first value is the argument |
| Encoding.DecodeU32 | src/MelonRipper.cpp:52-57 | any four bytes are the DumpU32 encoding of exactly one 32-bit value, the one returned |
| Encoding.DecodeU16 | src/MelonRipper.cpp:59-62 | any two bytes are the DumpU16 encoding of the value returned |
| Encoding.DecodeLeU32 | src/MelonRipper.cpp:52-57 | decoding a DumpU32 encoding gives the value back |
| Encoding.DecodeLeU16 | src/MelonRipper.cpp:59-62 | decoding a DumpU16 encoding gives the value back |
| Encoding.OpBytes | src/MelonRipper.cpp:45-50 | DumpOp emits exactly four bytes, one per tag character |
| Encoding.Inc32 | src/MelonRipper.cpp:143 | `++FrameCntr` on an unsigned counter is addition modulo 2^32 |
| Encoding.Decimal | src/MelonRipper.cpp:136 | the numeral `%d` prints is non-empty and made only of digits |
| Encoding.DecimalRoundTrip | src/MelonRipper.cpp:136 | the printed numeral denotes the number printed |
| Encoding.FormatSigned | src/MelonRipper.cpp:136 | `%d` of an unsigned value below 2^31 is all digits and denotes the value; from 2^31 up it is a minus sign followed by the digits of 2^32 minus the value |
| Encoding.FormatSignedInjective | src/MelonRipper.cpp:136 | distinct 32-bit values never print the same under `%d` |
| Records.Header | src/MelonRipper.cpp:108-109 | the magic header is 24 bytes, with zero bytes from position 15 on |
| Records.HeaderText | src/MelonRipper.cpp:108 | the first fifteen header bytes spell "melon ripper v2" |
| Records.VertexBytes | src/MelonRipper.cpp:154-162 | one vertex takes 28 bytes |
| Records.VerticesBytes | src/MelonRipper.cpp:153-163 | the vertex loop writes 28 bytes per vertex |
| Records.PolygonTag | src/MelonRipper.cpp:151 | the polygon tag has four characters |
| Records.Words | src/MelonRipper.cpp:183-184 | the map loops write four bytes per entry |
| Records.Halfwords | src/MelonRipper.cpp:203-205 | the toon-table loop writes two bytes per entry |
| Records.Concat | src/MelonRipper.cpp:185-192 | the bank copies add up to the total size of the banks |
| Records.PolygonRecordLength | src/MelonRipper.cpp:150-164 | a polygon record is 4 + 28·nverts bytes and starts with "TRI " for three vertices, "QUAD" otherwise |
| Records.VerticesBytesAt | src/MelonRipper.cpp:153-163 | vertex i occupies the 28 bytes from offset 28·i of the vertex data, in submission order |
| Records.WordRecordLength | src/MelonRipper.cpp:166-179 | a TPRM/TPLT/PATR/DISP record is 8 bytes: its tag, then a u32 that decodes to the argument |
| Records.TrailerLength | src/MelonRipper.cpp:181-206 | VRAM is 4 + 16 + 32 bytes plus the banks; DISP is 8 bytes and TOON 4 + 64 |
| Records.TagBytes | src/MelonRipper.cpp:45-50 | the byte values of the eight tags |
| Records.CommandTags | src/MelonRipper.cpp:151 | the reader sizes each command tag as the emitters write it, and no command tag collides with VRAM or with another |
| Records.DecodeVertexBytes | src/MelonRipper.cpp:154-162 | a vertex record decodes back to the vertex |
| Records.DecodeVerticesBytes | src/MelonRipper.cpp:153-163 | the vertex data of a polygon decodes back to its vertices, in order |
| Records.DecodeWordsBytes | src/MelonRipper.cpp:183-184 | a run of u32 values decodes back to the values |
| Records.DecodeHalfwordsBytes | src/MelonRipper.cpp:203-205 | a run of u16 values decodes back to the values |
| Records.SplitConcat | src/MelonRipper.cpp:185-192 | given the bank sizes, the copied banks split back into the seven banks |
| Records.PolyRoundTrip | src/MelonRipper.cpp:150-164 | a TRI or QUAD record is classified by its tag and decodes back to its polygon |
| Records.WordCommandRoundTrip | src/MelonRipper.cpp:166-179 | a TPRM, TPLT or PATR record decodes back to the same command and value |
| Records.CommandRoundTrip | src/MelonRipper.cpp:150-179 | every command with three or four vertices, and every word command, decodes back to itself |
| Records.TrailerSplit | src/MelonRipper.cpp:115-118 | the trailer starts with the VRAM tag |
| Records.TrailerBodySlices | src/MelonRipper.cpp:181-206 | where the maps, banks, DISP and TOON records lie in the trailer |
| Records.SnapshotRoundTrip | src/MelonRipper.cpp:181-206 | the trailer body decodes back to the render state it was written from |
| Records.TrailerRoundTrip | src/MelonRipper.cpp:115-118 | a trailer on its own reads as no commands plus the render state |
| Records.ParseCommandsCons | src/MelonRipper.cpp:150-179 | a command record in front of a record stream adds that command at the front of the commands read |
| Records.ParseCommandCons | src/MelonRipper.cpp:150-179 | the same, for the encoding of any decodable command |
| Records.CommandsRoundTrip | src/MelonRipper.cpp:150-179 | commands in front of a stream that reads no commands are read back in emission order |
| Records.DumpFileRoundTrip | src/MelonRipper.cpp:108-118 | header, commands and trailer read back as exactly the commands and the render state |
| Capture.RequestRip | src/MelonRipper.cpp:81-88 | a request is ignored while a rip is in progress; otherwise it sets both the total and the scheduled count to nframes and changes nothing else |
| Capture.FlushRequest | src/MelonRipper.cpp:90-110 | nothing happens while DumpFile2 is pending; otherwise DumpFile1 moves to DumpFile2, and recording either stops or restarts with a fresh header and one fewer frame scheduled |
| Capture.RenderFrame | src/MelonRipper.cpp:112-148 | nothing happens when DumpFile2 is empty; otherwise DumpFile2 plus the trailer is written under the frame's name and DumpFile2 is cleared; the clock is read only for frame 0 |
| Capture.Emit | src/MelonRipper.cpp:150-179 | an emitter only appends its record to DumpFile1 and changes nothing else |
| Capture.InitialInv | src/MelonRipper.cpp:23-39 | the initial globals satisfy the invariant and are idle |
| Capture.RequestRipKeepsInv | src/MelonRipper.cpp:81-88 | RequestRip keeps the invariant: written + scheduled + buffered frames equal the total requested, recording exactly while DumpFile1 is non-empty, and every buffer and file starts with the header |
| Capture.FlushRequestKeepsInv | src/MelonRipper.cpp:90-110 | FlushRequest keeps the invariant |
| Capture.RenderFrameKeepsInv | src/MelonRipper.cpp:112-148 | RenderFrame keeps the invariant; a render that writes advances the frame counter, and resets counter and total together when the last frame is written |
| Capture.EmitKeepsInv | src/MelonRipper.cpp:150-179 | an emitter called while recording keeps the invariant |
| Capture.EmitAllAppends | src/MelonRipper.cpp:150-179 | a frame's emitter calls append the encodings of its commands to DumpFile1, in call order |
| Capture.StepFirst | src/MelonRipper.cpp:11-21 | after a request and the first flush and render, frame 0 is being recorded and nothing is written yet |
| Capture.StepMiddle | src/MelonRipper.cpp:11-21 | each further flush and render writes the previous frame, finalised with the current state, and records the next one |
| Capture.StepLast | src/MelonRipper.cpp:11-21 | the flush and render after the last frame write it and leave the recorder idle |
| Capture.WrittenSnoc | src/MelonRipper.cpp:139 | writing the next expected file extends the files written so far by it |
| Capture.RunRecording | src/MelonRipper.cpp:11-21 | after k frames of a rip, frame k - 1 is being recorded and files 0 to k - 2 are written as expected |
| Capture.RipWritesRequestedFrames | src/MelonRipper.cpp:11-21 | a request for n frames followed by n + 1 flush/render cycles writes exactly n files, each holding its frame's commands and the next frame's state, named with one timestamp, and leaves the recorder idle |
| Capture.FileNameShape | src/MelonRipper.cpp:132-137 | every name is "melonrip-", the time string, a suffix and ".dump"; the suffix is empty exactly when TotRequestedFrames is 1, and otherwise it is "_f" and `%d` of FrameCntr + 1 modulo 2^32 |
| Capture.FileNamesDistinct | src/MelonRipper.cpp:133-137 | in a rip of more than one frame, no two frames get the same file name |
| Capture.FrameFileName | src/MelonRipper.cpp:136 | frame j of a multi-frame rip is named with suffix `_f` and j + 1 in decimal, while j + 1 is below 2^31 |
| Capture.RipFilesReadBack | src/MelonRipper.cpp:11-21 | every file of a rip reads back as exactly its frame's commands and the state it was rendered with |
| MelonRipper.Recorder.constructor | src/MelonRipper.cpp:23-39 | a new recorder holds the initial globals |
| MelonRipper.Recorder.RequestRip | src/MelonRipper.cpp:81-88 | the in-place update has exactly the effect of Capture.RequestRip; nframes defaults to 1, as declared in src/MelonRipper.h:6 |
| MelonRipper.Recorder.FlushRequest | src/MelonRipper.cpp:90-110 | the swap, clear and header insert have exactly the effect of Capture.FlushRequest |
| MelonRipper.Recorder.RenderFrame | src/MelonRipper.cpp:112-148 | finalising, naming, writing and counting have exactly the effect of Capture.RenderFrame |
| MelonRipper.Recorder.WriteDumpFile | src/MelonRipper.cpp:64-79 | the file named is written with the contents of DumpFile2 |
| MelonRipper.Recorder.Polygon | src/MelonRipper.cpp:150-164 | the tag and the per-vertex appends of the loop add a polygon record of the first nverts vertices, 4 + 28·nverts bytes, and change nothing else |
| MelonRipper.Recorder.TexParam | src/MelonRipper.cpp:166-169 | appends "TPRM" and the parameter as a u32; this is Capture.Emit of the command |
| MelonRipper.Recorder.TexPalette | src/MelonRipper.cpp:171-174 | appends "TPLT" and the palette as a u32; this is Capture.Emit of the command |
| MelonRipper.Recorder.PolygonAttr | src/MelonRipper.cpp:176-179 | appends "PATR" and the attribute as a u32; this is Capture.Emit of the command |
| MelonRipper.Recorder.DumpVRAM | src/MelonRipper.cpp:181-194 | the tag, the two map loops and the bank copies append exactly the VRAM record |
| MelonRipper.Recorder.DumpDispCnt | src/MelonRipper.cpp:196-199 | appends exactly the DISP record |
| MelonRipper.Recorder.DumpToonTable | src/MelonRipper.cpp:201-206 | the tag and the 32-entry loop append exactly the TOON record |
| MelonRipper.RipOneQuad | src/MelonRipper.cpp:11-21 | a one-frame rip of a single QUAD writes one file, `melonrip-<time>.dump`, which reads back as that quad and the render state |
| MelonRipper.OneQuadFile | src/MelonRipper.cpp:108-118 | the dump file of a single quad is header, QUAD record and trailer, and it reads back as that quad |

## Left out

- File I/O in WriteDumpFile: fopen, fwrite and fclose, and the printf of the outcome. A write becomes an entry in `written`. An I/O error changes no recorder state, so it is not modelled.
- The clock: time, localtime and strftime are replaced by the parameter `now`. The fallback to an empty time string when strftime fails is not modelled.
- snprintf's 96-byte limit on the file name: the model's names are not truncated. A time string of at most 63 characters, as TimeStr holds, always fits.
- `DumpFile1.reserve` only affects capacity and is not modelled.
- Global GPU state is passed in as a `Snapshot`. Only the vertex fields that Polygon reads are modelled. They are taken as the u32 and u16 values that DumpU32 and DumpU16 receive. The implicit conversion from GPU3D::Vertex's own field types at those calls is not modelled, because GPU3D.h is not part of this model. The bank sizes are whatever the snapshot holds and are not fixed to the hardware sizes.
- The seven DUMP_BANK lines are modelled as a loop over the seven banks, in the same order A to G.
- Recorder.Polygon: requires 0 <= nverts <= |verts|. The source's `i != nverts` loop never ends for a negative count, and it reads past the array for a count above the array size.
- Records.ParseDump reads TRI as three vertices and QUAD as four. A polygon of any other size is written as a QUAD record that this reader does not decode, so the round-trip lemmas require `Decodable`.
- Capture.EmitKeepsInv: requires that the emitters run only while IsDumping. The emitters themselves do not test the flag. src/MelonRipper.h exports IsDumping so that callers can guard their calls. The 3D engine that makes these calls is not part of this model.
- Capture.FrameFileName: stated only for frame numbers below 2^31. From 2^31 upward, `%d` prints the frame number as negative. The names still stay distinct (Capture.FileNamesDistinct).
- The declarations in src/MelonRipper.h have no body in the core file and are not part of this model. These are NotifyFlushRequest and NotifyRenderFrame, whose definitions in the core file are named FlushRequest and RenderFrame, and the rip-to-memory flag and callback. src/ARMJIT.h is not part of this model.
- Concurrency: the globals are accessed from a single emulation thread, and the model has one recorder.
