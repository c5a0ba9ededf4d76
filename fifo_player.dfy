/**
 * The FIFO recorder and player: recording groups the raw bytes of each
 * decoded command (an element) into frames, and playback pushes the bytes
 * of every element of every frame back into the FIFO in order.
 */
module FifoPlayer {
  import opened Bytes

  /** Element kinds (FPElementInfo::REGISTER_WRITE / MEMORY_UPDATE). */
  const RegisterWrite: U32 := 0
  const MemoryUpdate: U32 := 1

  /** A memory update's raw bytes start with the address and size, one byte each. */
  const MemUpdateHeaderSize: nat := 2

  /** Sizes of the serialised structures: eight, two and three 32-bit fields. */
  const HeaderSize: nat := 32
  const FrameInfoSize: nat := 8
  const ElementInfoSize: nat := 12

  datatype FrameInfo = FrameInfo(baseElement: nat, numElements: nat)
  datatype ElementInfo = ElementInfo(kind: U32, offset: nat, size: nat)
  datatype FileHeader = FileHeader(
    magic: U32, version: U32,
    numFrames: nat, numElements: nat, numRawBytes: nat,
    frameInfoOffset: nat, elementInfoOffset: nat, rawDataOffset: nat)

  /** A recording: header, frames, elements and the raw byte log (FPFile). */
  datatype FPFile = FPFile(header: FileHeader, frames: seq<FrameInfo>, elements: seq<ElementInfo>, raw: seq<Byte>)

  const ZeroHeader := FileHeader(0, 0, 0, 0, 0, 0, 0, 0)

  /** The two header bytes of a memory update: address and size, each truncated to a byte. */
  function MemUpdateHeader(address: U32, size: nat): (h: seq<Byte>)
    ensures |h| == MemUpdateHeaderSize
  {
    [address % 0x100, size % 0x100]
  }

  // ---------------------------------------------------------------------
  // Element ranges and the bytes they denote
  // ---------------------------------------------------------------------

  /** Every element's byte range lies inside the raw log. */
  predicate ElementsInRaw(es: seq<ElementInfo>, raw: seq<Byte>) {
    forall i :: 0 <= i < |es| ==> es[i].offset + es[i].size <= |raw|
  }

  /** The bytes an element denotes. */
  function Payload(raw: seq<Byte>, e: ElementInfo): (p: seq<Byte>)
    requires e.offset + e.size <= |raw|
    ensures |p| == e.size
  {
    raw[e.offset..e.offset + e.size]
  }

  /** The payloads of elements `a .. b - 1`, concatenated in order. */
  function ElementsRange(raw: seq<Byte>, es: seq<ElementInfo>, a: nat, b: nat): seq<Byte>
    requires a <= b <= |es| && ElementsInRaw(es, raw)
    decreases b
  {
    if a == b then [] else ElementsRange(raw, es, a, b - 1) + Payload(raw, es[b - 1])
  }

  /** The payloads of all elements, in order: the bytes a recording plays. */
  function ElementsBytes(raw: seq<Byte>, es: seq<ElementInfo>): seq<Byte>
    requires ElementsInRaw(es, raw)
  {
    ElementsRange(raw, es, 0, |es|)
  }

  lemma {:induction false} ElementsRangeSplit(raw: seq<Byte>, es: seq<ElementInfo>, a: nat, b: nat, c: nat)
    requires a <= b <= c <= |es| && ElementsInRaw(es, raw)
    ensures ElementsRange(raw, es, a, c) == ElementsRange(raw, es, a, b) + ElementsRange(raw, es, b, c)
    decreases c
  {
    if b < c {
      ElementsRangeSplit(raw, es, a, b, c - 1);
    }
  }

  /**
   * Appending elements, and bytes to the log, leaves the bytes of the
   * existing elements unchanged.
   */
  lemma {:induction false} ElementsRangeExtend(raw: seq<Byte>, more: seq<Byte>, es: seq<ElementInfo>, es2: seq<ElementInfo>, b: nat)
    requires b <= |es| && ElementsInRaw(es, raw) && ElementsInRaw(es + es2, raw + more)
    ensures ElementsRange(raw + more, es + es2, 0, b) == ElementsRange(raw, es, 0, b)
  {
    if b > 0 {
      ElementsRangeExtend(raw, more, es, es2, b - 1);
      var e := es[b - 1];
      assert (es + es2)[b - 1] == e;
      assert (raw + more)[e.offset..e.offset + e.size] == raw[e.offset..e.offset + e.size];
    }
  }

  // ---------------------------------------------------------------------
  // Frames
  // ---------------------------------------------------------------------

  function Last(frames: seq<FrameInfo>): FrameInfo
    requires frames != []
  {
    frames[|frames| - 1]
  }

  /** Each frame starts where the previous one ends. */
  predicate Consecutive(frames: seq<FrameInfo>) {
    forall i :: 0 < i < |frames| ==>
      frames[i].baseElement == frames[i - 1].baseElement + frames[i - 1].numElements
  }

  /** The frames partition the elements 0 .. n in order. */
  predicate Tiles(frames: seq<FrameInfo>, n: nat) {
    if frames == [] then n == 0
    else frames[0].baseElement == 0 && Consecutive(frames) &&
         Last(frames).baseElement + Last(frames).numElements == n
  }

  /**
   * While recording: the closed frames partition the elements before the
   * current (last) frame, which is still open (count not yet fixed).
   */
  predicate OpenTiles(frames: seq<FrameInfo>, n: nat) {
    && frames != []
    && frames[0].baseElement == 0
    && Consecutive(frames)
    && Last(frames).numElements == 0
    && Last(frames).baseElement <= n
  }

  /** FrameFinished on the frame list: close the current frame at `n` elements and open the next. */
  function Finish(frames: seq<FrameInfo>, n: nat): (r: seq<FrameInfo>)
    requires frames != [] && Last(frames).baseElement <= n
    ensures |r| == |frames| + 1 && r[..|frames| - 1] == frames[..|frames| - 1]
    ensures r[|frames| - 1] == FrameInfo(Last(frames).baseElement, n - Last(frames).baseElement)
    ensures Last(r) == FrameInfo(n, 0)
  {
    var cur := Last(frames);
    frames[..|frames| - 1] + [FrameInfo(cur.baseElement, n - cur.baseElement), FrameInfo(n, 0)]
  }

  /** Drop trailing frames that start at element `n` (hold no elements), testing emptiness first. */
  function Trim(frames: seq<FrameInfo>, n: nat): (r: seq<FrameInfo>)
    ensures r <= frames
    ensures r == [] || Last(r).baseElement != n
    ensures forall i :: |r| <= i < |frames| ==> frames[i].baseElement == n
  {
    if frames != [] && Last(frames).baseElement == n then Trim(frames[..|frames| - 1], n)
    else frames
  }

  /**
   * The trimming loop as written: it reads the last frame before testing
   * whether the list is empty; None stands for `back()` on an empty list.
   */
  function TrimAsWritten(frames: seq<FrameInfo>, n: nat): (r: Option<seq<FrameInfo>>)
    ensures r.None? <==> forall i :: 0 <= i < |frames| ==> frames[i].baseElement == n
    ensures r.Some? ==> r.value != [] && r.value <= frames && Last(r.value).baseElement != n
  {
    if frames == [] then None
    else if Last(frames).baseElement == n then TrimAsWritten(frames[..|frames| - 1], n)
    else Some(frames)
  }

  datatype Option<T> = None | Some(value: T)

  /**
   * The frame list EndRecording leaves: close the current frame and drop
   * the trailing frames without elements. An empty list has no frame to
   * close and stays empty.
   */
  function EndFrames(frames: seq<FrameInfo>, n: nat): (r: seq<FrameInfo>)
    requires frames == [] || Last(frames).baseElement <= n
    ensures frames == [] ==> r == []
    ensures frames != [] ==> r <= Finish(frames, n)
    ensures r == [] || Last(r).baseElement != n
  {
    if frames == [] then [] else Trim(Finish(frames, n), n)
  }

  /** The header EndRecording writes: counts, and section offsets derived from them. */
  function EndHeader(h: FileHeader, frames: nat, elements: nat, rawBytes: nat): (r: FileHeader)
    ensures r.magic == h.magic && r.version == h.version
    ensures r.numFrames == frames && r.numElements == elements && r.numRawBytes == rawBytes
    ensures r.frameInfoOffset == HeaderSize
    ensures r.elementInfoOffset == r.frameInfoOffset + frames * FrameInfoSize
    ensures r.rawDataOffset == r.elementInfoOffset + elements * ElementInfoSize
  {
    var fo := HeaderSize;
    var eo := fo + frames * FrameInfoSize;
    h.(numFrames := frames, numElements := elements, numRawBytes := rawBytes,
       frameInfoOffset := fo, elementInfoOffset := eo, rawDataOffset := eo + elements * ElementInfoSize)
  }

  // ---------------------------------------------------------------------
  // Playback
  // ---------------------------------------------------------------------

  /** Every frame's element range lies inside the elements, and every element inside the raw log. */
  predicate Playable(f: FPFile) {
    && ElementsInRaw(f.elements, f.raw)
    && forall i :: 0 <= i < |f.frames| ==>
         f.frames[i].baseElement + f.frames[i].numElements <= |f.elements|
  }

  /** The bytes of one frame: its elements' payloads in order. */
  function FrameBytes(f: FPFile, fr: FrameInfo): seq<Byte>
    requires ElementsInRaw(f.elements, f.raw) && fr.baseElement + fr.numElements <= |f.elements|
  {
    ElementsRange(f.raw, f.elements, fr.baseElement, fr.baseElement + fr.numElements)
  }

  /** The bytes of the first `k` frames. */
  function FramesBytes(f: FPFile, k: nat): seq<Byte>
    requires Playable(f) && k <= |f.frames|
  {
    if k == 0 then [] else FramesBytes(f, k - 1) + FrameBytes(f, f.frames[k - 1])
  }

  /** Everything PlayFile pushes: frames, then elements, then bytes, in order. */
  function PlayStream(f: FPFile): seq<Byte>
    requires Playable(f)
  {
    FramesBytes(f, |f.frames|)
  }

  /** PlayFile: three nested loops pushing each byte of each element of each frame. */
  method PlayFile(f: FPFile) returns (pushed: seq<Byte>)
    requires Playable(f)
    ensures pushed == PlayStream(f)
  {
    pushed := [];
    var i := 0;
    while i < |f.frames|
      invariant 0 <= i <= |f.frames|
      invariant pushed == FramesBytes(f, i)
    {
      var frame := f.frames[i];
      assert frame.baseElement + frame.numElements <= |f.elements|;
      pushed := PlayFrame(f, frame, pushed);
      i := i + 1;
    }
  }

  /** The frame loop of PlayFile: push every element of `frame`. */
  method PlayFrame(f: FPFile, frame: FrameInfo, before: seq<Byte>) returns (pushed: seq<Byte>)
    requires ElementsInRaw(f.elements, f.raw)
    requires frame.baseElement + frame.numElements <= |f.elements|
    ensures pushed == before + FrameBytes(f, frame)
  {
    pushed := before;
    var j := frame.baseElement;
    while j < frame.baseElement + frame.numElements
      invariant frame.baseElement <= j <= frame.baseElement + frame.numElements
      invariant pushed == before + ElementsRange(f.raw, f.elements, frame.baseElement, j)
    {
      var e := f.elements[j];
      assert e.offset + e.size <= |f.raw|;
      pushed := PlayElement(f.raw, e, pushed);
      j := j + 1;
    }
  }

  /** The element loop of PlayFile: push the element's bytes one at a time. */
  method PlayElement(raw: seq<Byte>, e: ElementInfo, before: seq<Byte>) returns (pushed: seq<Byte>)
    requires e.offset + e.size <= |raw|
    ensures pushed == before + Payload(raw, e)
  {
    pushed := before;
    var k := e.offset;
    while k < e.offset + e.size
      invariant e.offset <= k <= e.offset + e.size
      invariant pushed == before + raw[e.offset..k]
    {
      pushed := pushed + [raw[k]];
      assert raw[e.offset..k + 1] == raw[e.offset..k] + [raw[k]];
      k := k + 1;
    }
  }

  // ---------------------------------------------------------------------
  // Properties of the frame list
  // ---------------------------------------------------------------------

  /** Playing frames that partition the elements yields every element's payload, in order. */
  lemma PlayTiledFrames(f: FPFile)
    requires ElementsInRaw(f.elements, f.raw) && Tiles(f.frames, |f.elements|)
    ensures Playable(f)
    ensures PlayStream(f) == ElementsBytes(f.raw, f.elements)
  {
    TilesPlayable(f);
    if f.frames == [] {
      assert f.elements == [];
      assert PlayStream(f) == [];
    } else {
      var n := |f.frames|;
      assert f.frames[n - 1].baseElement + f.frames[n - 1].numElements == |f.elements|;
      FramesBytesPrefix(f, n);
    }
  }

  lemma TilesPlayable(f: FPFile)
    requires ElementsInRaw(f.elements, f.raw) && Tiles(f.frames, |f.elements|)
    ensures Playable(f)
  {
    forall i | 0 <= i < |f.frames|
      ensures f.frames[i].baseElement + f.frames[i].numElements <= |f.elements|
    {
      ConsecutiveEnds(f.frames, i);
    }
  }

  /** The first `k` frames of a partition play the elements before the end of frame `k - 1`. */
  lemma {:induction false} FramesBytesPrefix(f: FPFile, k: nat)
    requires Playable(f) && f.frames != [] && f.frames[0].baseElement == 0 && Consecutive(f.frames)
    requires 0 < k <= |f.frames|
    ensures var end := f.frames[k - 1].baseElement + f.frames[k - 1].numElements;
      FramesBytes(f, k) == ElementsRange(f.raw, f.elements, 0, end)
  {
    var fr := f.frames[k - 1];
    var start := fr.baseElement;
    var end := start + fr.numElements;
    assert end <= |f.elements|;
    if k > 1 {
      FramesBytesPrefix(f, k - 1);
      assert start == f.frames[k - 2].baseElement + f.frames[k - 2].numElements;
    }
    ElementsRangeSplit(f.raw, f.elements, 0, start, end);
  }

  /** In a consecutive list whose last frame ends at or before `n`, every frame ends at or before `n`. */
  lemma ConsecutiveEnds(frames: seq<FrameInfo>, i: nat)
    requires Consecutive(frames) && i < |frames|
    ensures frames[i].baseElement + frames[i].numElements <= Last(frames).baseElement + Last(frames).numElements
    decreases |frames| - i
  {
    if i < |frames| - 1 {
      ConsecutiveEnds(frames, i + 1);
    }
  }

  /** Closing the current frame and trimming leaves frames that partition all elements, the last one non-empty. */
  lemma {:induction false} EndFramesTile(frames: seq<FrameInfo>, n: nat)
    requires OpenTiles(frames, n)
    ensures var r := EndFrames(frames, n); Tiles(r, n) && (r != [] ==> Last(r).numElements > 0)
  {
    var fin := Finish(frames, n);
    assert Consecutive(fin) by {
      var m := |frames| - 1;
      forall i | 0 < i < |fin|
        ensures fin[i].baseElement == fin[i - 1].baseElement + fin[i - 1].numElements
      {
        if i < m {
          assert fin[i] == frames[i] && fin[i - 1] == frames[i - 1];
        } else if i == m {
          assert fin[i - 1] == frames[i - 1];
          assert frames[..m] + [FrameInfo(Last(frames).baseElement, 0)] == frames[..m + 1];
        }
      }
    }
    assert fin[0].baseElement == 0;
    TrimKeepsTiles(fin, n);
  }

  /** Trimming frames that partition the elements by consecutive ranges keeps a partition. */
  lemma {:induction false} TrimKeepsTiles(frames: seq<FrameInfo>, n: nat)
    requires frames != [] && frames[0].baseElement == 0 && Consecutive(frames)
    requires Last(frames) == FrameInfo(n, 0)
    ensures var r := Trim(frames, n); Tiles(r, n) && (r != [] ==> Last(r).numElements > 0)
    decreases |frames|
  {
    var p := frames[..|frames| - 1];
    if p == [] {
      assert n == 0;
    } else {
      assert Consecutive(p);
      if Last(p).baseElement == n {
        assert Last(p).numElements == 0;
        TrimKeepsTiles(p, n);
        assert Trim(frames, n) == Trim(p, n);
      } else {
        assert Trim(frames, n) == Trim(p, n) == p;
        assert Last(p).baseElement + Last(p).numElements == n;
      }
    }
  }

  /**
   * Ending a recording a second time, with nothing recorded in between,
   * changes nothing; that includes a recording that ended with no frames.
   */
  lemma {:induction false} EndFramesIdempotent(frames: seq<FrameInfo>, n: nat)
    requires OpenTiles(frames, n)
    ensures var r := EndFrames(frames, n); (r == [] || Last(r).baseElement <= n) && EndFrames(r, n) == r
  {
    var r := EndFrames(frames, n);
    EndFramesTile(frames, n);
    if r != [] {
      var cur := Last(r);
      assert cur.baseElement < n;
      var fin := Finish(r, n);
      assert fin == r[..|r| - 1] + [cur] + [FrameInfo(n, 0)];
      assert r[..|r| - 1] + [cur] == r;
      assert fin[..|fin| - 1] == r;
      assert Trim(fin, n) == Trim(r, n) == r;
    }
  }

  /**
   * The trimming loop as written reads the last frame of an empty list
   * exactly when the recording holds no elements; otherwise it agrees with
   * the emptiness-first loop.
   */
  lemma {:induction false} EndRecordingAsWrittenFaults(frames: seq<FrameInfo>, n: nat)
    requires OpenTiles(frames, n)
    ensures TrimAsWritten(Finish(frames, n), n) == None <==> n == 0
    ensures n > 0 ==> TrimAsWritten(Finish(frames, n), n) == Some(EndFrames(frames, n))
  {
    EndFramesTile(frames, n);
    TrimAsWrittenAgrees(Finish(frames, n), n);
  }

  lemma {:induction false} TrimAsWrittenAgrees(frames: seq<FrameInfo>, n: nat)
    ensures TrimAsWritten(frames, n) == if Trim(frames, n) == [] then None else Some(Trim(frames, n))
    decreases |frames|
  {
    if frames != [] && Last(frames).baseElement == n {
      TrimAsWrittenAgrees(frames[..|frames| - 1], n);
    }
  }

  // ---------------------------------------------------------------------
  // MemUpdate as written
  // ---------------------------------------------------------------------

  /** A checked store into a vector: None when the index is out of range. */
  function StoreAt(s: seq<Byte>, i: nat, b: Byte): (r: Option<seq<Byte>>)
    ensures r.Some? <==> i < |s|
    ensures r.Some? ==> |r.value| == |s| && r.value[i] == b
    ensures r.Some? ==> forall j :: 0 <= j < |s| && j != i ==> r.value[j] == s[j]
  {
    if i < |s| then Some(s[i := b]) else None
  }

  /**
   * The memory update as the recorder performs it: push the element (size
   * header plus payload, offset the old log size), store the address and
   * the size at the element's offset, then append only the payload. None
   * stands for a store outside the log. The contract describes a success
   * that never happens; what the update really does is stated by
   * `MemUpdateAsWrittenFaults`.
   */
  function MemUpdateAsWritten(elements: seq<ElementInfo>, raw: seq<Byte>, address: U32, data: seq<Byte>)
    : (r: Option<(seq<ElementInfo>, seq<Byte>)>)
    ensures r.Some? ==>
      && r.value.0 == elements + [ElementInfo(MemoryUpdate, |raw|, MemUpdateHeaderSize + |data|)]
      && |r.value.1| == |raw| + |data|
  {
    var e := ElementInfo(MemoryUpdate, |raw|, MemUpdateHeaderSize + |data|);
    var addressByte: Byte, sizeByte: Byte := address % 0x100, |data| % 0x100;
    var next: nat := e.offset + 1;
    match StoreAt(raw, e.offset, addressByte)
    case None => None
    case Some(r1) =>
      match StoreAt(r1, next, sizeByte)
      case None => None
      case Some(r2) => Some((elements + [e], r2 + data))
  }

  /**
   * Both header stores land one and two bytes past the end of the log, so
   * the update always faults; and even without the stores, the element it
   * pushes claims two bytes more than the log gains.
   */
  lemma MemUpdateAsWrittenFaults(elements: seq<ElementInfo>, raw: seq<Byte>, address: U32, data: seq<Byte>)
    ensures MemUpdateAsWritten(elements, raw, address, data) == None
    ensures var e := ElementInfo(MemoryUpdate, |raw|, MemUpdateHeaderSize + |data|);
      !ElementsInRaw(elements + [e], raw + data)
  {
    var e := ElementInfo(MemoryUpdate, |raw|, MemUpdateHeaderSize + |data|);
    assert (elements + [e])[|elements|] == e;
  }

  // ---------------------------------------------------------------------
  // The recorder
  // ---------------------------------------------------------------------

  class Recorder {
    /** FIFO_PLAYER_MAGIC_NUM and FIFO_PLAYER_VERSION. */
    const magic: U32
    const version: U32

    var isRecording: bool
    var header: FileHeader
    var frames: seq<FrameInfo>
    var elements: seq<ElementInfo>
    var raw: seq<Byte>

    /** Element ranges stay inside the raw log; while recording, the frames tile the elements. */
    ghost predicate Valid()
      reads this
    {
      ElementsInRaw(elements, raw) && (isRecording ==> OpenTiles(frames, |elements|))
    }

    /** The recording as a file image. */
    function File(): FPFile
      reads this
    {
      FPFile(header, frames, elements, raw)
    }

    constructor (magic: U32, version: U32)
      ensures Valid() && this.magic == magic && this.version == version
      ensures !isRecording && header == ZeroHeader && frames == [] && elements == [] && raw == []
    {
      this.magic, this.version := magic, version;
      isRecording, header := false, ZeroHeader;
      frames, elements, raw := [], [], [];
    }

    /** Clears frames and elements (not the raw log) and opens a first frame. */
    method StartRecording()
      requires Valid()
      modifies this
      ensures Valid() && isRecording
      ensures header == ZeroHeader.(magic := magic, version := version)
      ensures frames == [FrameInfo(0, 0)] && elements == [] && raw == old(raw)
    {
      header := ZeroHeader.(magic := magic, version := version);
      frames := [];
      elements := [];
      frames := [FrameInfo(0, 0)];
      isRecording := true;
    }

    /** Appends one element whose payload is `payload` at the end of the raw log. */
    method Append(kind: U32, payload: seq<Byte>)
      requires Valid()
      modifies this
      ensures Valid()
      ensures elements == old(elements) + [ElementInfo(kind, |old(raw)|, |payload|)]
      ensures raw == old(raw) + payload
      ensures frames == old(frames) && header == old(header) && isRecording == old(isRecording)
      ensures ElementsBytes(raw, elements) == old(ElementsBytes(raw, elements)) + payload
    {
      var e := ElementInfo(kind, |raw|, |payload|);
      assert ElementsInRaw(elements + [e], raw + payload);
      ElementsRangeExtend(raw, payload, elements, [e], |elements|);
      assert Payload(raw + payload, e) == payload;
      elements := elements + [e];
      raw := raw + payload;
    }

    /** Records one command's raw bytes as a register-write element at the end of the log. */
    method Write(data: seq<Byte>)
      requires Valid()
      modifies this
      ensures Valid()
      ensures elements == old(elements) + [ElementInfo(RegisterWrite, |old(raw)|, |data|)]
      ensures raw == old(raw) + data
      ensures frames == old(frames) && header == old(header) && isRecording == old(isRecording)
      ensures ElementsBytes(raw, elements) == old(ElementsBytes(raw, elements)) + data
    {
      Append(RegisterWrite, data);
    }

    /**
     * Records a memory update: the address and size bytes, then the
     * payload, as one memory-update element at the end of the log.
     */
    method MemUpdate(address: U32, data: seq<Byte>)
      requires Valid()
      modifies this
      ensures Valid()
      ensures elements == old(elements) + [ElementInfo(MemoryUpdate, |old(raw)|, MemUpdateHeaderSize + |data|)]
      ensures raw == old(raw) + MemUpdateHeader(address, |data|) + data
      ensures frames == old(frames) && header == old(header) && isRecording == old(isRecording)
      ensures ElementsBytes(raw, elements) == old(ElementsBytes(raw, elements)) + MemUpdateHeader(address, |data|) + data
    {
      Append(MemoryUpdate, MemUpdateHeader(address, |data|) + data);
    }

    /** Closes the current frame at the current element count and opens the next one. */
    method FrameFinished()
      requires Valid() && isRecording
      modifies this
      ensures elements == old(elements) && raw == old(raw) && header == old(header)
      ensures Valid() && isRecording
      ensures frames == Finish(old(frames), |elements|)
    {
      var n := |elements|;
      var cur := Last(frames);
      frames := frames[..|frames| - 1] + [FrameInfo(cur.baseElement, n - cur.baseElement)];
      frames := frames + [FrameInfo(n, 0)];
      assert OpenTiles(frames, n) by {
        var m := |frames| - 1;
        assert frames[..m] + [FrameInfo(n, 0)] == frames;
        forall i | 0 < i < |frames|
          ensures frames[i].baseElement == frames[i - 1].baseElement + frames[i - 1].numElements
        {
          if i < m - 1 {
            assert frames[i] == old(frames)[i] && frames[i - 1] == old(frames)[i - 1];
          } else if i == m - 1 {
            assert frames[i - 1] == old(frames)[i - 1];
            assert frames[i].baseElement == old(frames)[i].baseElement;
          }
        }
      }
    }

    /**
     * Closes the current frame, drops trailing frames without elements,
     * fills in the header's counts and section offsets, and stops recording.
     */
    method EndRecording()
      requires Valid() && isRecording
      modifies this
      ensures elements == old(elements) && raw == old(raw)
      ensures Valid() && !isRecording
      ensures frames == EndFrames(old(frames), |elements|)
      ensures Tiles(frames, |elements|) && (frames != [] ==> Last(frames).numElements > 0)
      ensures header == EndHeader(old(header), |frames|, |elements|, |raw|)
    {
      ghost var start := frames;
      FrameFinished();
      var n := |elements|;
      ghost var els, bytes, h := elements, raw, header;
      while frames != [] && Last(frames).baseElement == n
        invariant elements == els && raw == bytes && header == h && isRecording
        invariant Trim(frames, n) == EndFrames(start, n)
        decreases |frames|
      {
        frames := frames[..|frames| - 1];
      }
      EndFramesTile(start, n);
      header := EndHeader(header, |frames|, |elements|, |raw|);
      isRecording := false;
    }
  }

  // ---------------------------------------------------------------------
  // Record, then play back
  // ---------------------------------------------------------------------

  /** What happens during a recording session. */
  datatype RecordEvent =
    | Command(bytes: seq<Byte>)
    | MemoryWrite(address: U32, payload: seq<Byte>)
    | EndOfFrame

  /** The bytes a session's events put into the log. */
  function Logged(evs: seq<RecordEvent>): seq<Byte> {
    if evs == [] then []
    else
      var ev := evs[|evs| - 1];
      Logged(evs[..|evs| - 1]) +
        match ev
        case Command(b) => b
        case MemoryWrite(a, p) => MemUpdateHeader(a, |p|) + p
        case EndOfFrame => []
  }

  /**
   * Round trip: start a recording, feed it commands, memory updates and
   * frame ends, end it, and play the result: the player pushes exactly the
   * logged bytes, in the order they were logged.
   */
  method RecordAndPlay(magic: U32, version: U32, evs: seq<RecordEvent>) returns (pushed: seq<Byte>)
    ensures pushed == Logged(evs)
  {
    var rec := new Recorder(magic, version);
    rec.StartRecording();
    var i := 0;
    while i < |evs|
      invariant 0 <= i <= |evs|
      invariant rec.Valid() && rec.isRecording
      invariant ElementsBytes(rec.raw, rec.elements) == Logged(evs[..i])
    {
      assert evs[..i + 1][..i] == evs[..i];
      match evs[i] {
        case Command(b) => rec.Write(b);
        case MemoryWrite(a, p) => rec.MemUpdate(a, p);
        case EndOfFrame => rec.FrameFinished();
      }
      i := i + 1;
    }
    assert evs[..i] == evs;
    rec.EndRecording();
    PlayTiledFrames(rec.File());
    pushed := PlayFile(rec.File());
  }
}
