# GP command FIFO and FIFO recorder of gekko-gc-emu, in Dafny

This project models the command path of the emulator's graphics processor
(GP).

## The FIFO (`fifo.cpp`)

The CPU writes GX command bytes into a FIFO buffer. `Fifo_DecodeCommand`
handles the command at the read pointer in four steps:

1. It asks `Fifo_NextCommandReady`, the readiness check, whether the whole
   command has arrived. The check caches the size it is still waiting for
   in `last_required_size`.
2. While a recording is running, it logs the command's bytes, using
   `Fifo_GetCommandLength` to measure them.
3. It pops the opcode.
4. It runs the handler that `Fifo_Init` installed for the opcode's class,
   `cmd >> 3`.

The handlers read their operands through four installed pop routines. The
routines read either the FIFO buffer or, while a `CALL_DISPLAYLIST` runs,
a display list in main RAM. RAM holds 32-bit words byte-swapped, so
display-list reads go through address XOR 3. The handlers' effects on the
CP, XF, BP and vertex-loader register sinks are recorded as a sequence of
events.

## The recorder and player (`fifo_player.cpp`)

The recorder groups the raw bytes of each decoded command, or of each
memory update, into an element. It groups elements into frames. When a
recording ends, it closes the last frame, drops frames that hold no
elements, and fills in the file header.

`Save` writes the header, frame table, element table and raw log back to
back. `Load` reads them in the same order. `PlayFile` pushes every byte of
every element of every frame back into the FIFO.

## Modules

- `Bytes` (`bytes.dfy`): bytes, 16- and 32-bit words, and the two byte
  orders.
- `Commands` (`commands.dfy`) holds the pure logic of the command stream:
  - opcode classes and the handler table Init installs;
  - the readiness check `Check`;
  - the two command-length calculators;
  - the operand streams;
  - what each handler reads and emits (`Operate`);
  - the display-list loop (`RunList`).
- `OracleProperties` (`oracle_properties.dfy`) proves properties of the
  readiness check and of the length calculators, and proves that each
  handler reads exactly one command's length.
- `GpFifo` (`fifo.dfy`): the class `Fifo` holds the FIFO state:
  - the buffer, as an array;
  - the read and write pointers;
  - the cached size and the current command and vertex attribute table
    (vat);
  - the installed pop source and the display-list cursor;
  - the handler table and the emitted events.

  Its methods are the pop routines, the handlers, the readiness check,
  decoding, reset and initialisation. Each is proved against the functions
  in `Commands`.
- `FifoPlayer` (`fifo_player.dfy`) holds:
  - the recording structures;
  - the class `Recorder`, holding the recorder's globals, with
    StartRecording, Write, MemUpdate, FrameFinished and EndRecording;
  - frame-list properties;
  - PlayFile as three nested loops.
- `FileFormat` (`file_format.dfy`): Save as a serialiser and Load as a
  byte parser over a file's bytes, with their round trip.

## Model

| member | source | states |
|---|---|---|
| Bytes.BE16 | src/video_core/src/fifo.cpp:80-85 | the byte-swapped halfword has the first byte as its high byte and the second as its low byte |
| Bytes.BE24 | src/video_core/src/fifo.cpp:91-93 | the three shifted bytes of a 24-bit pop occupy disjoint bits and each can be read back; the result is below 2^24 |
| Bytes.BE32 | src/video_core/src/fifo.cpp:99-103 | the byte-swapped word's high half is the first two bytes, its low half the last two, its top byte the first and its bottom byte the last |
| Bytes.BE32RoundTrip | src/video_core/src/fifo.cpp:99-103 | reassembling the four big-endian bytes of any word gives the word back |
| Bytes.BE32Injective | src/video_core/src/fifo.cpp:99-103 | two byte quadruples with the same big-endian word are equal |
| Bytes.LE32At | src/video_core/src/fifo_player.cpp:137-152 | a little-endian header field read from the file has the first byte as its low byte and the fourth as its top byte |
| Bytes.LE32AtRoundTrip | src/video_core/src/fifo_player.cpp:123-126 | a word written little-endian reads back as the same word |
| Bytes.Xor3 | src/video_core/src/fifo.cpp:110-111 | address XOR 3 keeps the word index and mirrors the byte lane within the word |
| Commands.OpClass | src/video_core/src/fifo.cpp:544 | the opcode class is below 32 and the opcode lies in that class's block of eight |
| Commands.Vat | src/video_core/src/fifo.cpp:360 | the vat is the opcode's low three bits |
| Commands.XfRequired | src/video_core/src/fifo.cpp:379-381 | the LOAD_XF size the readiness check waits for is 4 × (count field + 1) + 5 in 16-bit arithmetic, exact when it does not wrap |
| Commands.VertexBytes | src/video_core/src/fifo.cpp:429-433 | a draw's vertex bytes are zero exactly when the vertex count or the vertex size is zero |
| Commands.DrawRequired | src/video_core/src/fifo.cpp:429-433 | the draw size the readiness check waits for is 3 + count × vertex size modulo 2^16, exact when it does not wrap |
| Commands.InitialHandler | src/video_core/src/fifo.cpp:566-588 | the installed table agrees with the readiness check's cases: fixed-length classes run fixed-length handlers, only class 2 loads the XF, only class 8 calls a display list, draws sit in classes 16-23, and unrecognised classes run UNKNOWN |
| Commands.Check | src/video_core/src/fifo.cpp:343-447 | readiness check: an empty window or a cached size larger than the window gives not ready with the cache untouched; ready implies the cache is cleared and the window holds the command's header; an opcode that is not examined leaves the cache alone |
| Commands.XfCount | src/video_core/src/fifo.cpp:192-193 | LOAD_XF's 16-bit transfer length is the count field plus one, wrapping to 0 for 0xFFFF |
| Commands.GetCommandLength | src/video_core/src/fifo.cpp:449-509 | the length measured for the recorder as written: fixed lengths per class, and a LOAD_XF length between 9 and 69 because the count is masked to four bits |
| Commands.CommandLength | src/video_core/src/fifo.cpp:449-509 | the corrected length: fixed lengths per class, and a LOAD_XF length of 5 + 4 × the handler's transfer length; never negative |
| Commands.XfValues | src/video_core/src/fifo.cpp:200-203 | LOAD_XF's data words: exactly `length` words, word k being the big-endian word 4 + 4k bytes after the control word |
| Commands.Operate | src/video_core/src/fifo.cpp:173-338 | each handler's operand bytes: none for UNKNOWN, NOP and INVALIDATE_VERTEX_CACHE; 5 for LOAD_CP_REG; 4 for LOAD_IDX_* and LOAD_BP_REG; 4 + 4 × length for LOAD_XF_REG; at most one event |
| Commands.RunList | src/video_core/src/fifo.cpp:267-271 | the display-list loop ends at or beyond the list's size unless a nested call stopped it, and never moves the offset backwards; a list already at its size does nothing |
| OracleProperties.CheckFixedClasses | src/video_core/src/fifo.cpp:365-424 | for NOP, LOAD_CP, LOAD_IDX_*, CALL_DL, INVALIDATE_VERTEX_CACHE and LOAD_BP: ready iff the window holds the fixed length, caching that length otherwise |
| OracleProperties.CheckLoadXf | src/video_core/src/fifo.cpp:377-393 | LOAD_XF: without the 5-byte header it waits for 5; with it, ready iff the window holds the 16-bit computed size, caching that size otherwise |
| OracleProperties.CheckDraw | src/video_core/src/fifo.cpp:426-444 | draws: without the 3-byte header it waits for 3; with it, ready iff the window holds 3 + count × vertex size (16-bit), caching that size otherwise |
| OracleProperties.CheckUnmatched | src/video_core/src/fifo.cpp:426-445 | an opcode with bit 7 clear and no case of its own is never ready and leaves the cache unchanged |
| OracleProperties.OracleExact | src/video_core/src/fifo.cpp:343-509 | when the 16-bit sizes do not wrap: ready implies the window holds the header and the whole command's length; conversely, for a class the check examines and a cache that does not hold it back, a window holding them is ready |
| OracleProperties.OracleWrapsDrawSize | src/video_core/src/fifo.cpp:431-434 | a worked example, not a general property: the 16-bit draw size wraps, so 4096 vertices of 16 bytes are reported ready with only the 3-byte header present |
| OracleProperties.CacheIsLowerBound | src/video_core/src/fifo.cpp:353-356 | a cached size never hides a ready command: a longer window shorter than the cached size is not ready either |
| OracleProperties.CacheOnlySavesWork | src/video_core/src/fifo.cpp:353-356 | re-checking a longer window with the cached size gives the same readiness as a check from an unknown cache |
| OracleProperties.GetCommandLengthMasksXfCount | src/video_core/src/fifo.cpp:486-492 | a worked example of the fifo.cpp:490 finding, not a general property: a 17-word LOAD_XF is measured as 9 bytes for the recorder, while the readiness check waits for 73 |
| OracleProperties.GetCommandLengthAgreesBelowSixteen | src/video_core/src/fifo.cpp:486-492 | below a count field of 16 the as-written and corrected lengths agree |
| OracleProperties.HandlerConsumesCommandLength | src/video_core/src/fifo.cpp:525-547 | after the opcode is popped from the FIFO, the installed handler reads exactly the rest of the command's length; CALL_DISPLAYLIST's length is 9 |
| OracleProperties.HandlerConsumesCommandLengthNested | src/video_core/src/fifo.cpp:267-271 | the same holds for a command read from a display list in RAM |
| GpFifo.MaskAddress | src/video_core/src/fifo.cpp:258 | the masked display-list address is bounded by both the address and RAM_MASK |
| GpFifo.ListTurn | src/video_core/src/fifo.cpp:267-271 | one turn of the CALL_DISPLAYLIST loop (an opcode pop and its handler) followed by the rest of the list is the whole list's run |
| GpFifo.Fifo.constructor | src/video_core/src/fifo.cpp:550-589 | a new FIFO is initialised: a zeroed buffer, both pointers at 0, no size cached, FIFO read mode, the display-list address and offset at 0, current command and vat 0, and the installed table |
| GpFifo.Fifo.FifoPop8 | src/video_core/src/fifo.cpp:73-75 | returns the byte at the read pointer and advances the pointer by 1 |
| GpFifo.Fifo.FifoPop16 | src/video_core/src/fifo.cpp:80-85 | returns the big-endian halfword at the read pointer and advances the pointer by 2 |
| GpFifo.Fifo.FifoPop24 | src/video_core/src/fifo.cpp:91-93 | returns the big-endian 24-bit value of the next three bytes and advances the pointer by 3 |
| GpFifo.Fifo.FifoPop32 | src/video_core/src/fifo.cpp:99-103 | returns the big-endian word at the read pointer and advances the pointer by 4 |
| GpFifo.Fifo.DisplayListPop8 | src/video_core/src/fifo.cpp:109-114 | returns RAM[(address + offset) XOR 3] and advances the display-list offset by 1 |
| GpFifo.Fifo.DisplayListPop16 | src/video_core/src/fifo.cpp:120-128 | returns the big-endian halfword of the next two display-list bytes and advances the offset by 2 |
| GpFifo.Fifo.DisplayListPop24 | src/video_core/src/fifo.cpp:134-136 | returns the big-endian 24-bit value of the next three display-list bytes and advances the offset by 3 |
| GpFifo.Fifo.DisplayListPop32 | src/video_core/src/fifo.cpp:142-151 | returns the big-endian word of the next four display-list bytes and advances the offset by 4 |
| GpFifo.Fifo.SetReadNormal | src/video_core/src/fifo.cpp:154-159 | installs the FIFO pop routines |
| GpFifo.Fifo.SetReadDisplayLists | src/video_core/src/fifo.cpp:162-167 | installs the display-list pop routines |
| GpFifo.Fifo.Pop8 | src/video_core/src/fifo.cpp:61 | the installed 8-bit pop returns the byte at the active cursor, advances only that cursor by 1 and keeps the source |
| GpFifo.Fifo.Pop16 | src/video_core/src/fifo.cpp:62 | the installed 16-bit pop returns the halfword at the active cursor and advances only that cursor by 2 |
| GpFifo.Fifo.Pop24 | src/video_core/src/fifo.cpp:63 | the installed 24-bit pop returns the three bytes at the cursor as a big-endian value and advances only that cursor by 3 |
| GpFifo.Fifo.Pop32 | src/video_core/src/fifo.cpp:64 | the installed 32-bit pop returns the word at the active cursor and advances only that cursor by 4 |
| GpFifo.Fifo.Skip | src/video_core/src/fifo.cpp:294 | the vertex loader's reads of a primitive's vertex bytes advance only the active cursor |
| GpFifo.Fifo.ExecLoadCpReg | src/video_core/src/fifo.cpp:183-188 | LOAD_CP_REG hands the CP the register byte and the data word at the cursor, and reads 5 bytes |
| GpFifo.Fifo.ExecLoadXfReg | src/video_core/src/fifo.cpp:191-206 | LOAD_XF_REG hands the XF the 16-bit length, the address (low half) and the data words, and reads 4 + 4 × length bytes |
| GpFifo.Fifo.PopXfValues | src/video_core/src/fifo.cpp:200-203 | the data-word loop returns exactly XfValues of the stream and advances the cursor by 4 × length |
| GpFifo.Fifo.PopXfValue | src/video_core/src/fifo.cpp:201-202 | one turn of the data-word loop returns word i and advances the cursor by 4 |
| GpFifo.Fifo.ExecLoadIdx | src/video_core/src/fifo.cpp:209-254 | LOAD_IDX_A..D hand the XF the bank, the index, the top-4-bits length plus one and the 12-bit address, and read 4 bytes |
| GpFifo.Fifo.ExecLoadBpReg | src/video_core/src/fifo.cpp:284-288 | LOAD_BP_REG hands the BP the word's top byte as register and its low 24 bits as value, and reads 4 bytes |
| GpFifo.Fifo.ExecDraw | src/video_core/src/fifo.cpp:291-338 | DRAW_* hands the vertex loader the primitive and count, and reads 2 + count × vertex size bytes for the current vat |
| GpFifo.Fifo.Execute | src/video_core/src/fifo.cpp:173-338 | running any handler but CALL_DISPLAYLIST emits Operate's events and advances the cursor by Operate's byte count |
| GpFifo.Fifo.ExecCallDisplayList | src/video_core/src/fifo.cpp:257-276 | CALL_DISPLAYLIST pops the masked address and the size, runs the list from RAM exactly as RunList says (events, final offset, last command), reads 8 FIFO bytes and restores FIFO read mode |
| GpFifo.Fifo.RunDisplayList | src/video_core/src/fifo.cpp:267-271 | the display-list loop's events, final offset and current command are RunList's from offset 0; the FIFO pointer is untouched |
| GpFifo.Fifo.ListStep | src/video_core/src/fifo.cpp:268-270 | one loop turn pops the opcode at the list offset, sets the current command and vat, and runs its handler from RAM, or stops on a nested call |
| GpFifo.Fifo.NextCommandReady | src/video_core/src/fifo.cpp:343-447 | readiness and the new cached size are those of Check on the bytes between the pointers; the current command and vat are set from the first byte whenever it is examined |
| GpFifo.Fifo.DecodeCommand | src/video_core/src/fifo.cpp:525-547 | not ready: nothing but the cached size and the current command and vat changes; the current command becomes the opcode when the check looked at it, and the display-list address and offset stay. Ready: the installed handler runs on the bytes after the opcode and emits exactly what Operate (or, for CALL_DL, RunList) says, with the nested-call status RunList reports; the read pointer moves past exactly the command's length, or past the opcode alone for an UNKNOWN slot; while recording (except for CALL_DL) the recorder gains the command's bytes as one register-write element; the display-list cursor and current command are what Dispatch states; the recorder's frames, header and recording flag never change |
| GpFifo.Fifo.RunCommand | src/video_core/src/fifo.cpp:537-545 | a ready command is logged, except CALL_DL, and then dispatched with the events, status, read pointer, display-list cursor and current command Dispatch states; a length that overruns the window is reported as a desync that reads nothing and leaves the events, the display-list state and the recorder (elements, log, frames and header) as they were, with the opcode as the current command |
| GpFifo.Fifo.Dispatch | src/video_core/src/fifo.cpp:544 | pops the opcode and runs its installed handler: CALL_DL reads 8 bytes and emits RunList's events, reporting a nested call as RunList does; every other handler emits Operate's events and reads Operate's operand bytes (none for UNKNOWN); CALL_DL leaves the display-list cursor at the masked address and the offset where the list stopped, with the list's last opcode current; every other handler leaves the cursor alone and the opcode current; for every class but UNKNOWN the read pointer ends exactly one command length further on |
| GpFifo.Fifo.ZeroBuffer | src/video_core/src/fifo.cpp:560 | every byte of the buffer becomes 0 |
| GpFifo.Fifo.Reset | src/video_core/src/fifo.cpp:512-522 | past the tail end, both pointers return to 0 over a zeroed buffer; otherwise nothing changes |
| GpFifo.Fifo.InstallHandlers | src/video_core/src/fifo.cpp:566-588 | every slot UNKNOWN, then the seventeen handlers by their opcodes' classes: the table equals InitialHandler slot by slot |
| GpFifo.Fifo.Init | src/video_core/src/fifo.cpp:550-589 | FIFO read mode, both pointers at 0, a zeroed buffer, the display-list cursor at 0, and the installed table |
| FifoPlayer.MemUpdateHeader | src/video_core/src/fifo_player.cpp:87-88 | a memory update's header is two bytes, the address and the size each truncated to a byte |
| FifoPlayer.Payload | src/video_core/src/fifo_player.cpp:195-196 | an element denotes exactly `size` bytes (which bytes of the raw log they are, from its offset on, is what PlayElement is proved against) |
| FifoPlayer.ElementsRangeSplit | src/video_core/src/fifo_player.cpp:192-197 | the bytes of a run of elements split at any element |
| FifoPlayer.ElementsRangeExtend | src/video_core/src/fifo_player.cpp:74-76 | appending elements and raw bytes leaves the bytes of existing elements unchanged |
| FifoPlayer.Finish | src/video_core/src/fifo_player.cpp:92-100 | closing a frame keeps the earlier frames, sets the closed frame's count to the element count minus its base, and opens a new empty frame at the element count |
| FifoPlayer.Trim | src/video_core/src/fifo_player.cpp:104-105 | the trimmed frame list is a prefix of the original whose last frame (if any) does not start at the element count, and every dropped frame starts at the element count |
| FifoPlayer.TrimAsWritten | src/video_core/src/fifo_player.cpp:104 | the loop as written faults (back() on an empty list) exactly when every frame starts at the element count; otherwise it leaves a non-empty prefix whose last frame does not |
| FifoPlayer.EndFrames | src/video_core/src/fifo_player.cpp:103-105 | EndRecording's frame list is a prefix of the closed list whose last frame does not start at the element count; an empty list stays empty |
| FifoPlayer.EndHeader | src/video_core/src/fifo_player.cpp:107-112 | the ending header keeps magic and version, stores the three counts, and places the sections right after the header, one after the other |
| FifoPlayer.PlayFile | src/video_core/src/fifo_player.cpp:184-199 | the pushed bytes are the payloads of each frame's elements, frame by frame |
| FifoPlayer.PlayFrame | src/video_core/src/fifo_player.cpp:192-197 | the frame loop pushes the frame's elements' payloads in order |
| FifoPlayer.PlayElement | src/video_core/src/fifo_player.cpp:195-196 | the byte loop pushes the element's payload |
| FifoPlayer.PlayTiledFrames | src/video_core/src/fifo_player.cpp:184-199 | when the frames partition the elements, playback pushes every element's payload exactly once, in order |
| FifoPlayer.TilesPlayable | src/video_core/src/fifo_player.cpp:192 | frames that partition the elements stay inside the element table |
| FifoPlayer.FramesBytesPrefix | src/video_core/src/fifo_player.cpp:189-198 | the first k frames of a partition play the elements up to the end of frame k − 1 |
| FifoPlayer.ConsecutiveEnds | src/video_core/src/fifo_player.cpp:92-100 | in consecutive frames no frame ends after the last one |
| FifoPlayer.EndFramesTile | src/video_core/src/fifo_player.cpp:102-105 | after EndRecording's close-and-trim, the frames partition all elements and the last frame is non-empty |
| FifoPlayer.TrimKeepsTiles | src/video_core/src/fifo_player.cpp:104-105 | trimming empty trailing frames keeps a partition of the elements |
| FifoPlayer.EndFramesIdempotent | src/video_core/src/fifo_player.cpp:102-105 | for every recording, ending it again with nothing recorded in between leaves the frame list unchanged, including a recording whose frames were all dropped |
| FifoPlayer.EndRecordingAsWrittenFaults | src/video_core/src/fifo_player.cpp:104 | the trimming loop as written reads the last frame of an empty list iff the recording holds no elements; otherwise it agrees with Trim |
| FifoPlayer.TrimAsWrittenAgrees | src/video_core/src/fifo_player.cpp:104-105 | the as-written loop faults exactly when the corrected trim empties the list, and agrees with it otherwise |
| FifoPlayer.StoreAt | src/video_core/src/fifo_player.cpp:87-88 | a store into the log succeeds iff the index is inside it, writes the byte there and leaves every other byte unchanged |
| FifoPlayer.MemUpdateAsWritten | src/video_core/src/fifo_player.cpp:79-90 | the memory update as written, were its stores to succeed, would push an element of 2 + size bytes while the log grows by only size bytes |
| FifoPlayer.MemUpdateAsWrittenFaults | src/video_core/src/fifo_player.cpp:79-90 | the as-written memory update always stores outside the log, and the element it pushes claims two bytes the log never gains |
| FifoPlayer.Recorder.constructor | src/video_core/src/fifo_player.cpp:38-43 | the recorder starts not recording, with a zero header and empty frame, element and raw lists |
| FifoPlayer.Recorder.StartRecording | src/video_core/src/fifo_player.cpp:52-66 | clears the header (keeping magic and version), the frames and the elements, but not the raw log; opens frame 0; starts recording |
| FifoPlayer.Recorder.Append | src/video_core/src/fifo_player.cpp:68-77 | one element of the given kind at the old end of the log; the played bytes grow by exactly the payload |
| FifoPlayer.Recorder.Write | src/video_core/src/fifo_player.cpp:68-77 | a register-write element at the old end of the log; the played bytes grow by exactly the data |
| FifoPlayer.Recorder.MemUpdate | src/video_core/src/fifo_player.cpp:79-90 | a memory-update element covering the address and size bytes and the payload; the played bytes grow by exactly those |
| FifoPlayer.Recorder.FrameFinished | src/video_core/src/fifo_player.cpp:92-100 | the frame list becomes Finish of the old one, and the frames still partition the elements up to the open frame |
| FifoPlayer.Recorder.EndRecording | src/video_core/src/fifo_player.cpp:102-116 | frames become the closed and trimmed list, which partitions all elements with a non-empty last frame; the header gets EndHeader's counts and offsets; recording stops |
| FifoPlayer.RecordAndPlay | src/video_core/src/fifo_player.cpp:52-199 | recording commands, memory updates and frame ends and then playing the recording pushes exactly the logged bytes, in order |
| FileFormat.Words | src/video_core/src/fifo_player.cpp:123-125 | a run of words takes four bytes per word (that word i reads back at byte 4i is FileFormat.WordsAt) |
| FileFormat.WordsAt | src/video_core/src/fifo_player.cpp:123-125 | word i of a written run reads back at byte 4i, whatever follows |
| FileFormat.WordsReadBack | src/video_core/src/fifo_player.cpp:123-125 | every word of a written run reads back |
| FileFormat.HeaderWords | src/video_core/src/fifo_player.cpp:123 | the header is eight words, 32 bytes |
| FileFormat.FrameWords | src/video_core/src/fifo_player.cpp:124 | frame i is written as words 2i and 2i+1: base element, element count |
| FileFormat.ElementWords | src/video_core/src/fifo_player.cpp:125 | element i is written as words 3i..3i+2: kind, offset, size |
| FileFormat.DecodeHeader | src/video_core/src/fifo_player.cpp:137 | the header read from the file is the inverse of its encoding: header field i is the little-endian word at byte 4i |
| FileFormat.Save | src/video_core/src/fifo_player.cpp:118-129 | the saved size is the header, the header-counted frames and elements, and the whole raw log |
| FileFormat.DecodeFrames | src/video_core/src/fifo_player.cpp:154-156 | the frame read yields exactly the header's frame count |
| FileFormat.DecodeElements | src/video_core/src/fifo_player.cpp:163-165 | the element read yields exactly the header's element count |
| FileFormat.Load | src/video_core/src/fifo_player.cpp:131-182 | a file shorter than the header fails; a successful load has the expected magic and version, non-empty sections of exactly the header's counts, all inside the file |
| FileFormat.SaveIsFileWords | src/video_core/src/fifo_player.cpp:118-129 | for a file whose counts match, Save is its words followed by the raw log |
| FileFormat.HeaderRoundTrip | src/video_core/src/fifo_player.cpp:137 | the header reads back from its saved words |
| FileFormat.FrameAt | src/video_core/src/fifo_player.cpp:156 | each frame reads back from its two saved words |
| FileFormat.ElementAt | src/video_core/src/fifo_player.cpp:165 | each element reads back from its three saved words |
| FileFormat.FramesRoundTrip | src/video_core/src/fifo_player.cpp:154-156 | the frame table reads back from its saved words |
| FileFormat.ElementsRoundTrip | src/video_core/src/fifo_player.cpp:163-165 | the element table reads back from its saved words |
| FileFormat.LoadSave | src/video_core/src/fifo_player.cpp:118-182 | Load of Save gives the recording back, whatever follows, when its counts match and its sections are non-empty |
| FileFormat.LoadWords | src/video_core/src/fifo_player.cpp:131-182 | Load reads back any recording from bytes that hold its words followed by its raw log |
| FileFormat.LoadRejectsEmptySection | src/video_core/src/fifo_player.cpp:154-179 | a recording with no frames, no elements or no raw bytes never loads back, because the zero-byte read reports nothing read |
| FileFormat.LoadShortSections | src/video_core/src/fifo_player.cpp:154-170 | a short frame table fails with a short-frames error, and a whole frame table followed by a short element table fails with a short-elements error |
| FileFormat.SaveMatchesHeaderOffsets | src/video_core/src/fifo_player.cpp:107-126 | the section offsets EndRecording stores are exactly where Save writes the frame table, the element table and the raw log |

## Left out

- Threads, `volatile` and `g_reset_fifo` are not modelled. The decode call
  is a single step over the current state. A set `g_reset_fifo` only lets
  an empty FIFO through to the readiness check, which then reports not
  ready anyway.
- Logging (`LOG_*`) and the `_ASSERT_MSG` dialogs are not modelled. UNKNOWN
  is modelled as doing nothing and reading nothing.
- The CP, XF, BP and vertex-loader sinks (`CP_RegisterWrite`, `XF_Load`,
  `XF_LoadIndexed`, `BP_RegisterWrite`, `VertexLoader_DecodePrimitive`) are
  not part of this model. Their calls are recorded as events.
- The vertex size of each vat is a parameter. The vertex loader is taken to
  read count × vertex size bytes from the installed pop routines, as
  `Fifo_GetCommandLength` assumes. Commands.RunList uses one set of vertex
  sizes for a whole display list: a LOAD_CP_REG inside the list that
  rewrites a vertex format does not change the size of a later draw in the
  same list, which in the source it would.
- Main RAM is a parameter. A read outside it gives 0.
- The display-list address plus offset wraps at 2^32. The offset itself is
  an unbounded counter, not a `u32`.
- A `CALL_DISPLAYLIST` met inside a display list stops that list. The
  source would recurse and then switch back to FIFO reads mid-list. The
  model reports the outer list as stopped (`nested`).
- Desync: when a ready command's length exceeds the bytes in the FIFO (the
  16-bit size wrap in `OracleProperties.OracleWrapsDrawSize`), the source
  reads past the write pointer. The model reports a desync, reads nothing
  and leaves everything but the readiness check's cache and the current
  command and vat as it was.
- GpFifo.Fifo.ExecLoadXfReg: the fixed `regs[64]` array is not modelled. A
  transfer longer than 64 words overflows it in the source; the model
  passes all the words it reads.
- GpFifo.Fifo.Pop24: C leaves the evaluation order of the three pops in one
  expression unspecified. The model reads the bytes in stream order.
- `gp::FifoPush8` is not part of this model. PlayFile returns the sequence
  of pushed bytes.
- File I/O (`fopen`, `fread`, `fwrite`, `fclose`) is not modelled.
  - Save produces the file's bytes.
  - Load parses a byte sequence and returns the recording or the first
    failing step.
  - Load's partial filling of its output on an early return is not
    modelled.
  - A file left open on an error return is not modelled.
- FileFormat.Save takes the frame and element counts from the header, as
  the source does. It requires those counts not to exceed the lists,
  because the source would read past them.
- FifoPlayer.Recorder.FrameFinished requires a recording in progress. The
  source dereferences a null frame pointer when no recording was ever
  started.
- FifoPlayer.Recorder.EndRecording requires a recording in progress. The
  model does not say what a call without a started recording does: the
  source dereferences a null frame pointer. It also does not say what a
  second call after the end does: the source writes through the frame
  pointer of the frame the first call popped. Ending twice is stated on
  the frame list only, by FifoPlayer.EndFramesIdempotent.
- FifoPlayer.PlayFile requires every frame's element range to lie inside
  the element table and every element's byte range inside the raw log.
  Load does not check this, and on such a file the source reads past its
  vectors. The model does not say what is pushed then.
- Commands inside a display list are not logged one by one while
  recording. Only commands decoded from the FIFO itself are logged, and
  CALL_DISPLAYLIST is skipped (fifo.cpp:540-543), so a recording of a
  frame that calls display lists does not hold their commands. The model
  follows the code here.
- `fifo.h` and `fifo_player.h` are not part of this model.
  - The opcode values are the standard GX command bytes.
  - `sizeof(FPMemUpdateInfo)` is taken to be 2, matching the two header
    stores.
  - All file structures are taken to be plain 32-bit fields, written
    little-endian.
- `g_exec_op` is a sequence of handler names, not function pointers.
- `Fifo_Shutdown` and `IsRecording` do nothing worth stating; IsRecording
  is the `isRecording` field.
- ExecUnknown, ExecNop and ExecInvalidateVertexCache have no effect to
  state, so they carry no contract. Execute's contract covers them through
  Operate.
- Fixed-width counters in the recorder are modelled as unbounded naturals:
  element offsets and sizes, frame counts, and header fields. Save's
  `Encodable` precondition requires each one it writes to fit in 32 bits.

## Findings

| source | as written | input that shows it | evidently intended | confidence | as-written member | corrected member |
|---|---|---|---|---|---|---|
| src/video_core/src/fifo.cpp:490 | `Fifo_GetCommandLength` masks the LOAD_XF count field with 15 | a LOAD_XF whose count field is 16 (17 words): it is measured as 9 bytes, while the readiness check waits for, and the handler reads, 73 bytes | the length is 5 + 4 × (count field + 1), as the readiness check and the handler compute it, so the recorder logs the whole command | not executed | Commands.GetCommandLength, OracleProperties.GetCommandLengthMasksXfCount | Commands.CommandLength (used by GpFifo.Fifo.RunCommand), OracleProperties.HandlerConsumesCommandLength |
| src/video_core/src/fifo_player.cpp:104 | the trimming loop reads `frame_info.back()` before testing `frame_info.empty()` | EndRecording of a recording with no elements: every frame starts at element 0, so all are popped and `back()` is called on an empty vector | test emptiness first, then drop trailing frames without elements | not executed | FifoPlayer.TrimAsWritten, FifoPlayer.EndRecordingAsWrittenFaults | FifoPlayer.Trim, FifoPlayer.Recorder.EndRecording, FifoPlayer.EndFramesTile |
| src/video_core/src/fifo_player.cpp:87-89 | MemUpdate stores the address and size at the element's offset, which is the old end of the log, and then appends only the payload | any memory update: both stores index one and two bytes past the end of `raw_data`, and the element claims 2 + size bytes while the log grows by size | append the two header bytes and then the payload, so the element covers exactly its bytes | not executed | FifoPlayer.MemUpdateAsWritten, FifoPlayer.MemUpdateAsWrittenFaults | FifoPlayer.Recorder.MemUpdate, FifoPlayer.RecordAndPlay |
