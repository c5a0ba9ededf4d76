/**
 * Properties of the command-length oracle, of the two command-length
 * calculators and of the handlers' operand consumption.
 */
module OracleProperties {
  import opened Bytes
  import opened Commands

  /** The LOAD_XF control word (bytes 1..4) of a window that holds it. */
  function XfWord(avail: seq<Byte>): U32
    requires |avail| >= 5
  {
    BE32(avail[1], avail[2], avail[3], avail[4])
  }

  /** The draw vertex count (bytes 1..2) of a window that holds it. */
  function DrawCount(avail: seq<Byte>): U16
    requires |avail| >= 3
  {
    BE16(avail[1], avail[2])
  }

  /** The oracle's 16-bit size arithmetic does not wrap for the command at the head of `avail`. */
  predicate NoWrap(avail: seq<Byte>, sizes: VertexSizes)
    requires |avail| > 0
  {
    var c := OpClass(avail[0]);
    && (c == 2 && |avail| >= 5 ==> 4 * (XfWord(avail) / 0x1_0000 + 1) + 5 < 0x1_0000)
    && (!IsFixedClass(c) && c != 2 && IsDraw(avail[0]) && |avail| >= 3 ==>
          3 + VertexBytes(DrawCount(avail), sizes[Vat(avail[0])]) < 0x1_0000)
  }

  /** The cached size does not short-circuit the check. */
  predicate CacheOpen(avail: seq<Byte>, cached: int) {
    cached == -1 || cached <= |avail|
  }

  lemma CheckFixedClasses(avail: seq<Byte>, cached: int, sizes: VertexSizes)
    requires |avail| > 0 && CacheOpen(avail, cached) && IsFixedClass(OpClass(avail[0]))
    ensures var v := Check(avail, cached, sizes); var need := FixedLength(OpClass(avail[0]));
      && (v.ready <==> |avail| >= need)
      && v.cache == (if v.ready then -1 else need)
      && v.peeked
  {
  }

  lemma CheckLoadXf(avail: seq<Byte>, cached: int, sizes: VertexSizes)
    requires |avail| > 0 && CacheOpen(avail, cached) && OpClass(avail[0]) == 2
    ensures var v := Check(avail, cached, sizes);
      && (|avail| < 5 ==> !v.ready && v.cache == 5)
      && (|avail| >= 5 ==>
            var size := 4 * (XfWord(avail) / 0x1_0000 + 1) + 5;
            && (v.ready <==> |avail| >= size % 0x1_0000)
            && v.cache == (if v.ready then -1 else size % 0x1_0000))
  {
  }

  lemma CheckDraw(avail: seq<Byte>, cached: int, sizes: VertexSizes)
    requires |avail| > 0 && CacheOpen(avail, cached)
    requires var c := OpClass(avail[0]); !IsFixedClass(c) && c != 2 && IsDraw(avail[0])
    ensures var v := Check(avail, cached, sizes);
      && (|avail| < 3 ==> !v.ready && v.cache == 3)
      && (|avail| >= 3 ==>
            var size := (3 + VertexBytes(DrawCount(avail), sizes[Vat(avail[0])])) % 0x1_0000;
            && (v.ready <==> |avail| >= size)
            && v.cache == (if v.ready then -1 else size))
  {
  }

  /** An opcode with bit 7 clear and no class of its own is never ready and leaves the cache alone. */
  lemma CheckUnmatched(avail: seq<Byte>, cached: int, sizes: VertexSizes)
    requires |avail| > 0 && IsUnmatchedClass(OpClass(avail[0]))
    ensures !Check(avail, cached, sizes).ready
    ensures Check(avail, cached, sizes).cache == cached
  {
  }

  /**
   * Without 16-bit wrap-around the oracle reports ready exactly when the
   * command's header and its whole length are present (and the cache does
   * not hold it back, and the class is known).
   */
  lemma OracleExact(avail: seq<Byte>, cached: int, sizes: VertexSizes)
    requires |avail| > 0 && NoWrap(avail, sizes)
    ensures var v := Check(avail, cached, sizes);
      v.ready ==>
        |avail| >= HeaderLength(avail[0]) && CommandLength(avail, avail[0], sizes) <= |avail|
    ensures var v := Check(avail, cached, sizes);
      CacheOpen(avail, cached) && !IsUnmatchedClass(OpClass(avail[0])) &&
      |avail| >= HeaderLength(avail[0]) && CommandLength(avail, avail[0], sizes) <= |avail|
      ==> v.ready
  {
    var c := OpClass(avail[0]);
    if c == 2 && |avail| >= 5 {
      var w := XfWord(avail);
      assert w / 0x1_0000 < 0xFFFF;
      assert XfCount(w) == w / 0x1_0000 + 1;
      assert XfRequired(w) == 4 * (w / 0x1_0000 + 1) + 5;
    } else if !IsFixedClass(c) && c != 2 && IsDraw(avail[0]) && |avail| >= 3 {
      assert DrawRequired(DrawCount(avail), sizes[Vat(avail[0])])
          == 3 + VertexBytes(DrawCount(avail), sizes[Vat(avail[0])]);
    }
  }

  /**
   * The 16-bit draw size wraps: a draw of 4096 vertices of 16 bytes is
   * reported ready with only its 3-byte header present.
   */
  lemma OracleWrapsDrawSize()
    ensures var avail := [0x80, 0x10, 0x00];
      var sizes := [16, 0, 0, 0, 0, 0, 0, 0];
      Check(avail, -1, sizes).ready && CommandLength(avail, 0x80, sizes) == 65539
  {
    var avail: seq<Byte> := [0x80, 0x10, 0x00];
    var sizes: VertexSizes := [16, 0, 0, 0, 0, 0, 0, 0];
    assert BE16(avail[1], avail[2]) == 0x1000;
    assert DrawRequired(0x1000, 16) == 3;
  }

  /**
   * The cached size is a lower bound: when a check from an unknown cache
   * reports not ready with cache `v.cache`, every longer window with the
   * same prefix and fewer than `v.cache` bytes is not ready either, so the
   * short-circuit never hides a ready command.
   */
  lemma CacheIsLowerBound(avail: seq<Byte>, ext: seq<Byte>, sizes: VertexSizes)
    requires avail <= ext
    requires var v := Check(avail, -1, sizes); !v.ready && v.cache != -1 && |ext| < v.cache
    ensures !Check(ext, -1, sizes).ready
  {
    var v := Check(avail, -1, sizes);
    assert |avail| > 0;
    assert ext[0] == avail[0];
    var c := OpClass(avail[0]);
    if c == 2 && |avail| >= 5 {
      assert ext[1..5] == avail[1..5];
      assert XfWord(ext) == XfWord(avail);
    } else if !IsFixedClass(c) && c != 2 && IsDraw(avail[0]) && |avail| >= 3 {
      assert ext[1..3] == avail[1..3];
      assert DrawCount(ext) == DrawCount(avail);
    }
  }

  /** Re-checking a longer window with the cached size gives the same readiness as a fresh check. */
  lemma CacheOnlySavesWork(avail: seq<Byte>, ext: seq<Byte>, sizes: VertexSizes)
    requires avail <= ext && !Check(avail, -1, sizes).ready
    ensures var c := Check(avail, -1, sizes).cache;
      Check(ext, c, sizes).ready == Check(ext, -1, sizes).ready
  {
    var c := Check(avail, -1, sizes).cache;
    if c != -1 && |ext| < c {
      CacheIsLowerBound(avail, ext, sizes);
    }
  }

  // ---------------------------------------------------------------------
  // The two command-length calculators
  // ---------------------------------------------------------------------

  /**
   * Fifo_GetCommandLength masks the LOAD_XF count with 15: a transfer of
   * 17 words (count field 16) is recorded as 9 bytes although the oracle
   * waits for, and the handler reads, 73.
   */
  lemma GetCommandLengthMasksXfCount()
    ensures var s := [0x10, 0x00, 0x10, 0x00, 0x00, 0x00, 0x00, 0x00, 0x00];
      var sizes := [0, 0, 0, 0, 0, 0, 0, 0];
      && GetCommandLength(s, 0x10, sizes) == 9
      && CommandLength(s, 0x10, sizes) == 73
      && !Check(s, -1, sizes).ready && Check(s, -1, sizes).cache == 73
  {
    var s: seq<Byte> := [0x10, 0x00, 0x10, 0x00, 0x00, 0x00, 0x00, 0x00, 0x00];
    assert BE32(s[1], s[2], s[3], s[4]) == 0x0010_0000;
  }

  /** Below a count field of 16 the two calculators agree. */
  lemma GetCommandLengthAgreesBelowSixteen(s: seq<Byte>, curCmd: Byte, sizes: VertexSizes)
    requires |s| >= 1
    requires OpClass(s[0]) == 2 ==> |s| >= 5 && BE32(s[1], s[2], s[3], s[4]) / 0x1_0000 < 16
    requires !IsFixedClass(OpClass(s[0])) && OpClass(s[0]) != 2 && IsDraw(curCmd) ==> |s| >= 3
    ensures GetCommandLength(s, curCmd, sizes) == CommandLength(s, curCmd, sizes)
  {
    var c := OpClass(s[0]);
    if !IsFixedClass(c) && c == 2 {
      var w := BE32(s[1], s[2], s[3], s[4]);
      var x := w / 0x1_0000;
      assert x % 16 == x;
      assert XfCount(w) == x + 1;
    }
  }

  // ---------------------------------------------------------------------
  // Handlers consume exactly the command's length
  // ---------------------------------------------------------------------

  /**
   * Decode boundary: after popping the opcode at `pos`, the handler that
   * initialisation installs for its class reads exactly the rest of the
   * command's length (CALL_DISPLAYLIST reads its 8 header bytes).
   */
  lemma HandlerConsumesCommandLength(b: seq<Byte>, pos: nat, end: nat, sizes: VertexSizes)
    requires pos < end <= |b| && end - pos >= HeaderLength(b[pos])
    requires InitialHandler(OpClass(b[pos])) != Unknown
    ensures var h := InitialHandler(OpClass(b[pos]));
      var len := CommandLength(b[pos..end], b[pos], sizes);
      && (h == CallDisplayList ==> len == 9)
      && (h != CallDisplayList ==> len == 1 + Operate(h, b[pos], Primary(b, pos + 1), sizes).consumed)
  {
    var cmd := b[pos];
    var c := OpClass(cmd);
    var w := b[pos..end];
    var s := Primary(b, pos + 1);
    var h := InitialHandler(c);
    if c == 2 {
      assert w[1] == At(s, 0) && w[2] == At(s, 1) && w[3] == At(s, 2) && w[4] == At(s, 3);
      assert Word32(s, 0) == BE32(w[1], w[2], w[3], w[4]);
    } else if h.Draw? {
      assert !IsFixedClass(c) && IsDraw(cmd);
      assert w[1] == At(s, 0) && w[2] == At(s, 1);
      assert Word16(s, 0) == BE16(w[1], w[2]);
    }
  }

  /** The same boundary on a display list: the handler reads exactly the command's length from RAM. */
  lemma HandlerConsumesCommandLengthNested(ram: seq<Byte>, addr: U32, off: nat, sizes: VertexSizes)
    requires InitialHandler(OpClass(DlByte(ram, addr, off))) !in {Unknown, CallDisplayList}
    ensures var s := Nested(ram, addr, off);
      var window := seq(5, i requires 0 <= i < 5 => At(s, i));
      var h := InitialHandler(OpClass(window[0]));
      CommandLength(window, window[0], sizes) == 1 + Operate(h, window[0], Advance(s, 1), sizes).consumed
  {
    var s := Nested(ram, addr, off);
    var window := seq(5, i requires 0 <= i < 5 => At(s, i));
    var t := Advance(s, 1);
    AtAdvance(s, 1, 0); AtAdvance(s, 1, 1); AtAdvance(s, 1, 2); AtAdvance(s, 1, 3);
    assert window[0] == DlByte(ram, addr, off);
    assert window[1] == At(t, 0) && window[2] == At(t, 1) && window[3] == At(t, 2) && window[4] == At(t, 3);
  }
}
