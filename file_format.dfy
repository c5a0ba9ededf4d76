/**
 * The recording file: a 32-byte header, the frame table, the element table
 * and the raw byte log. Header, frames and elements are all 32-bit words,
 * written little-endian. Save writes the sections back to back; Load reads
 * them back in the same order (it does not seek to the stored offsets) and
 * gives up at the first short section.
 */
module FileFormat {
  import opened Bytes
  import opened FifoPlayer

  // ---------------------------------------------------------------------
  // Words
  // ---------------------------------------------------------------------

  /** A run of 32-bit words, each little-endian. */
  function Words(ws: seq<U32>): (s: seq<Byte>)
    ensures |s| == 4 * |ws|
  {
    if ws == [] then [] else Words(ws[..|ws| - 1]) + BytesLE32(ws[|ws| - 1])
  }

  lemma PrefixSlice(a: seq<Byte>, b: seq<Byte>, lo: nat, hi: nat)
    requires lo <= hi <= |a|
    ensures (a + b)[lo..hi] == a[lo..hi]
  {
  }

  lemma {:induction false} WordsSlice(ws: seq<U32>, i: nat)
    requires i < |ws|
    ensures Words(ws)[4 * i..4 * i + 4] == BytesLE32(ws[i])
  {
    var p := ws[..|ws| - 1];
    if i < |ws| - 1 {
      WordsSlice(p, i);
      assert p[i] == ws[i];
      PrefixSlice(Words(p), BytesLE32(ws[|ws| - 1]), 4 * i, 4 * i + 4);
    }
  }

  /** Word `i` of a run of words reads back, whatever follows the run. */
  lemma WordsAt(ws: seq<U32>, rest: seq<Byte>, i: nat)
    requires i < |ws|
    ensures LE32At(Words(ws) + rest, 4 * i) == ws[i]
  {
    WordsSlice(ws, i);
    PrefixSlice(Words(ws), rest, 4 * i, 4 * i + 4);
    LE32AtRoundTrip(ws[i], Words(ws) + rest, 4 * i);
  }

  /** Every word of `ws` can be read back from `s` at four times its index. */
  predicate ReadsBack(s: seq<Byte>, ws: seq<U32>) {
    4 * |ws| <= |s| && forall i :: 0 <= i < |ws| ==> LE32At(s, 4 * i) == ws[i]
  }

  lemma WordsReadBack(ws: seq<U32>, tail: seq<Byte>)
    ensures ReadsBack(Words(ws) + tail, ws)
  {
    forall i | 0 <= i < |ws| ensures LE32At(Words(ws) + tail, 4 * i) == ws[i] {
      WordsAt(ws, tail, i);
    }
  }

  // ---------------------------------------------------------------------
  // The structures as words
  // ---------------------------------------------------------------------

  predicate IsU32(n: nat) {
    n < 0x1_0000_0000
  }

  predicate HeaderEncodable(h: FileHeader) {
    && IsU32(h.numFrames) && IsU32(h.numElements) && IsU32(h.numRawBytes)
    && IsU32(h.frameInfoOffset) && IsU32(h.elementInfoOffset) && IsU32(h.rawDataOffset)
  }

  predicate FramesEncodable(fs: seq<FrameInfo>) {
    forall i :: 0 <= i < |fs| ==> IsU32(fs[i].baseElement) && IsU32(fs[i].numElements)
  }

  predicate ElementsEncodable(es: seq<ElementInfo>) {
    forall i :: 0 <= i < |es| ==> IsU32(es[i].offset) && IsU32(es[i].size)
  }

  /** Every field that is written as a 32-bit word fits in one. */
  predicate Encodable(f: FPFile) {
    HeaderEncodable(f.header) && FramesEncodable(f.frames) && ElementsEncodable(f.elements)
  }

  function HeaderWords(h: FileHeader): (ws: seq<U32>)
    requires HeaderEncodable(h)
    ensures |ws| * 4 == HeaderSize
  {
    [h.magic, h.version, h.numFrames, h.numElements, h.numRawBytes,
     h.frameInfoOffset, h.elementInfoOffset, h.rawDataOffset]
  }

  function FrameWords(fs: seq<FrameInfo>): (ws: seq<U32>)
    requires FramesEncodable(fs)
    ensures |ws| * 4 == FrameInfoSize * |fs|
    ensures forall i :: 0 <= i < |fs| ==>
      ws[2 * i] == fs[i].baseElement && ws[2 * i + 1] == fs[i].numElements
  {
    if fs == [] then []
    else
      var fr := fs[|fs| - 1];
      FrameWords(fs[..|fs| - 1]) + [fr.baseElement, fr.numElements]
  }

  function ElementWords(es: seq<ElementInfo>): (ws: seq<U32>)
    requires ElementsEncodable(es)
    ensures |ws| * 4 == ElementInfoSize * |es|
    ensures forall i :: 0 <= i < |es| ==>
      ws[3 * i] == es[i].kind && ws[3 * i + 1] == es[i].offset && ws[3 * i + 2] == es[i].size
  {
    if es == [] then []
    else
      var e := es[|es| - 1];
      ElementWords(es[..|es| - 1]) + [e.kind, e.offset, e.size]
  }

  // ---------------------------------------------------------------------
  // Save and Load
  // ---------------------------------------------------------------------

  /**
   * Save: the header, the first `numFrames` frames, the first
   * `numElements` elements, then the whole raw log.
   */
  function Save(f: FPFile): (s: seq<Byte>)
    requires Encodable(f)
    requires f.header.numFrames <= |f.frames| && f.header.numElements <= |f.elements|
    ensures |s| == HeaderSize + FrameInfoSize * f.header.numFrames
                   + ElementInfoSize * f.header.numElements + |f.raw|
  {
    var h := f.header;
    Words(HeaderWords(h) + FrameWords(f.frames[..h.numFrames]) + ElementWords(f.elements[..h.numElements]))
      + f.raw
  }

  /** The header read back: word i of the file is header field i, the inverse of HeaderWords. */
  function DecodeHeader(s: seq<Byte>): (h: FileHeader)
    requires |s| >= HeaderSize
    ensures HeaderEncodable(h)
    ensures HeaderWords(h) == seq(8, i requires 0 <= i < 8 => LE32At(s, 4 * i))
  {
    FileHeader(LE32At(s, 0), LE32At(s, 4), LE32At(s, 8), LE32At(s, 12),
               LE32At(s, 16), LE32At(s, 20), LE32At(s, 24), LE32At(s, 28))
  }

  /** `n` frames from the table at `pos`. */
  function DecodeFrames(s: seq<Byte>, pos: nat, n: nat): (fs: seq<FrameInfo>)
    requires pos + FrameInfoSize * n <= |s|
    ensures |fs| == n
  {
    seq(n, i requires 0 <= i < n => FrameInfo(LE32At(s, pos + 8 * i), LE32At(s, pos + 8 * i + 4)))
  }

  /** `n` elements from the table at `pos`. */
  function DecodeElements(s: seq<Byte>, pos: nat, n: nat): (es: seq<ElementInfo>)
    requires pos + ElementInfoSize * n <= |s|
    ensures |es| == n
  {
    seq(n, i requires 0 <= i < n =>
      ElementInfo(LE32At(s, pos + 12 * i), LE32At(s, pos + 12 * i + 4), LE32At(s, pos + 12 * i + 8)))
  }

  datatype LoadError = ShortHeader | BadMagic | BadVersion | ShortFrames | ShortElements | ShortRaw

  datatype LoadResult = Loaded(file: FPFile) | Failed(error: LoadError)

  /**
   * A section read succeeds only when it asks for at least one byte and
   * that many bytes remain: a read of zero bytes reports zero objects
   * read, which Load treats like a short read.
   */
  predicate SectionPresent(s: seq<Byte>, pos: nat, len: nat) {
    len > 0 && pos + len <= |s|
  }

  /** Load over the file's bytes, with the expected magic number and version. */
  function Load(s: seq<Byte>, magic: U32, version: U32): (r: LoadResult)
    ensures |s| < HeaderSize ==> r == Failed(ShortHeader)
    ensures r.Loaded? ==>
      && |s| >= HeaderSize
      && r.file.header == DecodeHeader(s)
      && r.file.header.magic == magic && r.file.header.version == version
      && |r.file.frames| == r.file.header.numFrames > 0
      && |r.file.elements| == r.file.header.numElements > 0
      && |r.file.raw| == r.file.header.numRawBytes > 0
      && HeaderSize + FrameInfoSize * |r.file.frames| + ElementInfoSize * |r.file.elements|
           + |r.file.raw| <= |s|
  {
    if |s| < HeaderSize then Failed(ShortHeader)
    else
      var h := DecodeHeader(s);
      if h.magic != magic then Failed(BadMagic)
      else if h.version != version then Failed(BadVersion)
      else
        var fpos := HeaderSize;
        var flen := FrameInfoSize * h.numFrames;
        if !SectionPresent(s, fpos, flen) then Failed(ShortFrames)
        else
          var epos := fpos + flen;
          var elen := ElementInfoSize * h.numElements;
          if !SectionPresent(s, epos, elen) then Failed(ShortElements)
          else
            var rpos := epos + elen;
            var rlen := h.numRawBytes;
            if !SectionPresent(s, rpos, rlen) then Failed(ShortRaw)
            else
              Loaded(FPFile(h, DecodeFrames(s, fpos, h.numFrames),
                            DecodeElements(s, epos, h.numElements), s[rpos..rpos + rlen]))
  }

  // ---------------------------------------------------------------------
  // Properties
  // ---------------------------------------------------------------------

  /** The header's counts agree with the sections it describes. */
  predicate CountsMatch(f: FPFile) {
    && f.header.numFrames == |f.frames|
    && f.header.numElements == |f.elements|
    && f.header.numRawBytes == |f.raw|
  }

  /** The words Save writes before the raw log, for a file whose counts match. */
  function FileWords(f: FPFile): seq<U32>
    requires Encodable(f)
  {
    HeaderWords(f.header) + FrameWords(f.frames) + ElementWords(f.elements)
  }

  lemma SaveIsFileWords(f: FPFile)
    requires Encodable(f) && CountsMatch(f)
    ensures Save(f) == Words(FileWords(f)) + f.raw
  {
    assert f.frames[..f.header.numFrames] == f.frames;
    assert f.elements[..f.header.numElements] == f.elements;
  }

  lemma MiddleIndex(a: seq<U32>, b: seq<U32>, c: seq<U32>, k: nat)
    requires k < |b|
    ensures (a + b + c)[|a| + k] == b[k]
  {
  }

  lemma LastIndex(a: seq<U32>, b: seq<U32>, c: seq<U32>, k: nat)
    requires k < |c|
    ensures (a + b + c)[|a| + |b| + k] == c[k]
  {
  }

  lemma HeaderRoundTrip(f: FPFile, s: seq<Byte>)
    requires Encodable(f) && ReadsBack(s, FileWords(f))
    ensures |s| >= HeaderSize && DecodeHeader(s) == f.header
  {
    var ws := FileWords(f);
    var h := f.header;
    assert ws[..8] == HeaderWords(h);
    assert LE32At(s, 0) == ws[0] == h.magic && LE32At(s, 4) == ws[1] == h.version;
    assert LE32At(s, 8) == ws[2] == h.numFrames && LE32At(s, 12) == ws[3] == h.numElements;
    assert LE32At(s, 16) == ws[4] == h.numRawBytes && LE32At(s, 20) == ws[5] == h.frameInfoOffset;
    assert LE32At(s, 24) == ws[6] == h.elementInfoOffset && LE32At(s, 28) == ws[7] == h.rawDataOffset;
  }

  /** Frame `i` reads back from its two words. */
  lemma FrameAt(f: FPFile, s: seq<Byte>, i: nat)
    requires Encodable(f) && ReadsBack(s, FileWords(f)) && i < |f.frames|
    ensures && HeaderSize + FrameInfoSize * i + 8 <= |s|
      && LE32At(s, HeaderSize + 8 * i) == f.frames[i].baseElement
      && LE32At(s, HeaderSize + 8 * i + 4) == f.frames[i].numElements
  {
    var ws := FileWords(f);
    var hw, fw, ew := HeaderWords(f.header), FrameWords(f.frames), ElementWords(f.elements);
    MiddleIndex(hw, fw, ew, 2 * i);
    MiddleIndex(hw, fw, ew, 2 * i + 1);
    assert LE32At(s, 4 * (8 + 2 * i)) == ws[8 + 2 * i];
    assert LE32At(s, 4 * (8 + 2 * i + 1)) == ws[8 + 2 * i + 1];
  }

  /** Element `i` reads back from its three words. */
  lemma ElementAt(f: FPFile, s: seq<Byte>, i: nat)
    requires Encodable(f) && ReadsBack(s, FileWords(f)) && i < |f.elements|
    ensures var pos := HeaderSize + FrameInfoSize * |f.frames|;
      && pos + ElementInfoSize * i + 12 <= |s|
      && LE32At(s, pos + 12 * i) == f.elements[i].kind
      && LE32At(s, pos + 12 * i + 4) == f.elements[i].offset
      && LE32At(s, pos + 12 * i + 8) == f.elements[i].size
  {
    var ws := FileWords(f);
    var hw, fw, ew := HeaderWords(f.header), FrameWords(f.frames), ElementWords(f.elements);
    var base := 8 + 2 * |f.frames|;
    LastIndex(hw, fw, ew, 3 * i);
    LastIndex(hw, fw, ew, 3 * i + 1);
    LastIndex(hw, fw, ew, 3 * i + 2);
    assert LE32At(s, 4 * (base + 3 * i)) == ws[base + 3 * i];
    assert LE32At(s, 4 * (base + 3 * i + 1)) == ws[base + 3 * i + 1];
    assert LE32At(s, 4 * (base + 3 * i + 2)) == ws[base + 3 * i + 2];
  }

  lemma FramesRoundTrip(f: FPFile, s: seq<Byte>)
    requires Encodable(f) && ReadsBack(s, FileWords(f))
    ensures HeaderSize + FrameInfoSize * |f.frames| <= |s|
    ensures DecodeFrames(s, HeaderSize, |f.frames|) == f.frames
  {
    var d := DecodeFrames(s, HeaderSize, |f.frames|);
    forall i | 0 <= i < |f.frames| ensures d[i] == f.frames[i] {
      FrameAt(f, s, i);
    }
  }

  lemma ElementsRoundTrip(f: FPFile, s: seq<Byte>)
    requires Encodable(f) && ReadsBack(s, FileWords(f))
    ensures var pos := HeaderSize + FrameInfoSize * |f.frames|;
      && pos + ElementInfoSize * |f.elements| <= |s|
      && DecodeElements(s, pos, |f.elements|) == f.elements
  {
    var pos := HeaderSize + FrameInfoSize * |f.frames|;
    var d := DecodeElements(s, pos, |f.elements|);
    forall i | 0 <= i < |f.elements| ensures d[i] == f.elements[i] {
      ElementAt(f, s, i);
    }
  }

  /**
   * Loading a saved recording gives it back, whatever follows it in the
   * file, when its counts match its sections, none of them is empty, and
   * its magic number and version are the expected ones.
   */
  lemma LoadSave(f: FPFile, magic: U32, version: U32, rest: seq<Byte>)
    requires Encodable(f) && CountsMatch(f)
    requires |f.frames| > 0 && |f.elements| > 0 && |f.raw| > 0
    requires f.header.magic == magic && f.header.version == version
    ensures Load(Save(f) + rest, magic, version) == Loaded(f)
  {
    SaveIsFileWords(f);
    var w := Words(FileWords(f));
    var s := Save(f) + rest;
    assert s == w + (f.raw + rest);
    WordsReadBack(FileWords(f), f.raw + rest);
    assert s[|w|..|w| + |f.raw|] == f.raw;
    LoadWords(f, magic, version, s);
  }

  /** Load reads back a file from bytes that hold its words followed by its raw log. */
  lemma LoadWords(f: FPFile, magic: U32, version: U32, s: seq<Byte>)
    requires Encodable(f) && CountsMatch(f)
    requires |f.frames| > 0 && |f.elements| > 0 && |f.raw| > 0
    requires f.header.magic == magic && f.header.version == version
    requires ReadsBack(s, FileWords(f))
    requires var n := 4 * |FileWords(f)|; n + |f.raw| <= |s| && s[n..n + |f.raw|] == f.raw
    ensures Load(s, magic, version) == Loaded(f)
  {
    HeaderRoundTrip(f, s);
    FramesRoundTrip(f, s);
    ElementsRoundTrip(f, s);
  }

  /**
   * A recording with no frames, no elements or no raw bytes never loads
   * back: the read of the empty section reports nothing read.
   */
  lemma LoadRejectsEmptySection(f: FPFile, magic: U32, version: U32, rest: seq<Byte>)
    requires Encodable(f) && CountsMatch(f)
    requires f.header.magic == magic && f.header.version == version
    requires |f.frames| == 0 || |f.elements| == 0 || |f.raw| == 0
    ensures Load(Save(f) + rest, magic, version).Failed?
  {
    SaveIsFileWords(f);
    assert Save(f) + rest == Words(FileWords(f)) + (f.raw + rest);
    WordsReadBack(FileWords(f), f.raw + rest);
    HeaderRoundTrip(f, Save(f) + rest);
  }

  /**
   * The section reads fail in order: a file whose frame table is shorter
   * than its declared frame count fails with a short-frames error, and one
   * with a whole frame table but a short element table with a
   * short-elements error.
   */
  lemma LoadShortSections(s: seq<Byte>, magic: U32, version: U32)
    requires |s| >= HeaderSize
    requires DecodeHeader(s).magic == magic && DecodeHeader(s).version == version
    ensures var h := DecodeHeader(s);
      |s| < HeaderSize + FrameInfoSize * h.numFrames ==> Load(s, magic, version) == Failed(ShortFrames)
    ensures var h := DecodeHeader(s); var epos := HeaderSize + FrameInfoSize * h.numFrames;
      h.numFrames > 0 && epos <= |s| < epos + ElementInfoSize * h.numElements ==>
        Load(s, magic, version) == Failed(ShortElements)
  {
  }

  /**
   * The section offsets EndRecording stores are where Save puts the
   * sections: the frame table right after the header, the element table
   * after the frames, the raw log after the elements.
   */
  lemma SaveMatchesHeaderOffsets(f: FPFile)
    requires Encodable(f) && CountsMatch(f)
    requires f.header == EndHeader(f.header, |f.frames|, |f.elements|, |f.raw|)
    ensures var s := Save(f); var h := f.header;
      && h.frameInfoOffset <= h.elementInfoOffset <= h.rawDataOffset <= |s|
      && s[h.frameInfoOffset..h.elementInfoOffset] == Words(FrameWords(f.frames))
      && s[h.elementInfoOffset..h.rawDataOffset] == Words(ElementWords(f.elements))
      && s[h.rawDataOffset..] == f.raw
  {
    SaveIsFileWords(f);
    var hw, fw, ew := HeaderWords(f.header), FrameWords(f.frames), ElementWords(f.elements);
    WordsAppend(hw, fw);
    WordsAppend(hw + fw, ew);
    var a, b, c := Words(hw), Words(fw), Words(ew);
    assert Save(f) == a + b + c + f.raw;
    assert |a| == f.header.frameInfoOffset && |a| + |b| == f.header.elementInfoOffset;
    assert |a| + |b| + |c| == f.header.rawDataOffset;
    Sections(a, b, c, f.raw);
  }

  lemma Sections(a: seq<Byte>, b: seq<Byte>, c: seq<Byte>, d: seq<Byte>)
    ensures var s := a + b + c + d;
      && s[|a|..|a| + |b|] == b && s[|a| + |b|..|a| + |b| + |c|] == c && s[|a| + |b| + |c|..] == d
  {
  }

  lemma {:induction false} WordsAppend(a: seq<U32>, b: seq<U32>)
    ensures Words(a + b) == Words(a) + Words(b)
    decreases |b|
  {
    if b == [] {
      assert a + b == a;
    } else {
      var b' := b[..|b| - 1];
      assert (a + b)[..|a + b| - 1] == a + b';
      WordsAppend(a, b');
    }
  }
}
