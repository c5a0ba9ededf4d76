/**
 * The GP FIFO as an object: the primary command buffer with its read and
 * write pointers, the display-list cursor, the pop routines of both read
 * modes, the opcode handler table and its handlers, the readiness check,
 * the decode step, reset and initialisation.
 *
 * The register and primitive sinks (CP, XF, BP, the vertex loader) are
 * not modelled: what the handlers hand to them is appended to `events`.
 * Main RAM is a parameter `ram`; the vertex sizes the vertex loader
 * reports are a parameter `sizes`.
 */
module GpFifo {
  import opened Bytes
  import opened Commands
  import opened FifoPlayer
  import opened OracleProperties

  /** Which pop routines are installed: the primary buffer's or the display list's. */
  datatype Source = FifoSource | DisplayListSource

  /** The outcome of one decode step. */
  datatype Status =
    | NotReady           // no whole command between the read and the write pointer
    | Executed           // the command at the read pointer was popped and run
    | Desync             // the oracle's 16-bit size wrapped: the command runs past the write pointer
    | NestedDisplayList  // a display list called a display list

  /** The bitwise AND of the low `width` bits of `a` and `b`. */
  function BitAnd(a: nat, b: nat, width: nat): (r: nat)
    ensures r <= a && r <= b
  {
    if width == 0 then 0
    else (if a % 2 == 1 && b % 2 == 1 then 1 else 0) + 2 * BitAnd(a / 2, b / 2, width - 1)
  }

  /** RAM_MASK applied to a display-list address: the result never exceeds the mask. */
  function MaskAddress(addr: U32, mask: U32): (r: U32)
    ensures r <= addr && r <= mask
  {
    BitAnd(addr, mask, 32)
  }

  /** `r` with the events `done` put in front of its own. */
  function Then(done: seq<Event>, r: ListResult): ListResult {
    r.(events := done + r.events)
  }

  lemma Concat3(a: seq<Event>, b: seq<Event>, c: seq<Event>)
    ensures (a + b) + c == a + (b + c)
  {
  }

  lemma ThenThen(a: seq<Event>, b: seq<Event>, r: ListResult)
    ensures Then(a, Then(b, r)) == Then(a + b, r)
  {
    assert a + (b + r.events) == (a + b) + r.events;
  }

  /**
   * One turn of the CALL_DISPLAYLIST loop, in `RunList`'s terms: with
   * `done` the events so far and the list's remaining run still to come,
   * the turn that pops `cmd` at `off` and emits `step` leaves the run from
   * `next` still to come, or ends the list at a nested call.
   */
  lemma ListTurn(table: seq<Handler>, ram: seq<Byte>, addr: U32, size: U32, off: nat, lastCmd: Byte,
                 sizes: VertexSizes, total: ListResult, done: seq<Event>,
                 nested: bool, step: seq<Event>, next: nat, cmd: Byte)
    requires |table| == 32 && off < size
    requires total == Then(done, RunList(table, ram, addr, size, off, lastCmd, sizes))
    requires cmd == DlByte(ram, addr, off) && nested == (table[OpClass(cmd)] == CallDisplayList)
    requires nested ==> step == [] && next == off + 1
    requires !nested ==> var r := Operate(table[OpClass(cmd)], cmd, Nested(ram, addr, off + 1), sizes);
      step == r.events && next == off + 1 + r.consumed
    ensures nested ==> total == ListResult(done + step, next, cmd, true)
    ensures !nested ==> total == Then(done + step, RunList(table, ram, addr, size, next, cmd, sizes))
  {
    if nested {
      assert done + [] == done;
    } else {
      var rest := RunList(table, ram, addr, size, next, cmd, sizes);
      assert RunList(table, ram, addr, size, off, lastCmd, sizes) == Then(step, rest);
      ThenThen(done, step, rest);
    }
  }

  /** A table that holds, slot by slot, the handlers initialisation installs. */
  lemma InitialTableSlots(t: seq<Handler>)
    requires |t| == 32
    requires t[0] == Nop && t[1] == LoadCpReg && t[2] == LoadXfReg && t[3] == Unknown
    requires t[4] == LoadIdx(IdxA) && t[5] == LoadIdx(IdxB) && t[6] == LoadIdx(IdxC) && t[7] == LoadIdx(IdxD)
    requires t[8] == CallDisplayList && t[9] == InvalidateVertexCache && t[10] == Unknown && t[11] == Unknown
    requires t[12] == LoadBpReg && t[13] == Unknown && t[14] == Unknown && t[15] == Unknown
    requires t[16] == Draw(Quads) && t[17] == Unknown && t[18] == Draw(Triangles) && t[19] == Draw(TriangleStrip)
    requires t[20] == Draw(TriangleFan) && t[21] == Draw(Lines) && t[22] == Draw(LineStrip) && t[23] == Draw(Points)
    requires t[24] == Unknown && t[25] == Unknown && t[26] == Unknown && t[27] == Unknown
    requires t[28] == Unknown && t[29] == Unknown && t[30] == Unknown && t[31] == Unknown
    ensures forall c :: 0 <= c < 32 ==> t[c] == InitialHandler(c)
  {
  }

  class Fifo {
    /** g_fifo_buffer (FIFO_SIZE bytes). */
    const buf: array<Byte>
    /** FIFO_TAIL_END: past it, a reset moves the FIFO back to the start. */
    const tailEnd: nat
    /** RAM_MASK. */
    const ramMask: U32

    /** g_fifo_write_ptr, an offset into the buffer. */
    var writePtr: nat
    /** g_fifo_read_ptr, as an offset into the buffer. */
    var readPtr: nat
    /** last_required_size of the readiness check; -1 when unknown. */
    var lastRequired: int
    /** g_cur_cmd and g_cur_vat. */
    var curCmd: Byte
    var curVat: nat
    /** Which pop routines Fifo_Pop8 .. Fifo_Pop32 point to. */
    var source: Source
    /** g_dl_read_addr and g_dl_read_offset. */
    var dlAddr: U32
    var dlOffset: nat
    /** g_exec_op: the handler for each of the 32 opcode classes. */
    var ops: seq<Handler>
    /** What the handlers have handed to the register and primitive sinks, in order. */
    var events: seq<Event>

    /**
     * The read pointer does not pass the write pointer, which stays in the
     * buffer; the FIFO's pop routines are installed; the handler table is the one initialisation installs; the
     * current vat is the current command's.
     */
    ghost predicate Valid()
      reads this
    {
      && readPtr <= writePtr <= buf.Length
      && source == FifoSource
      && |ops| == 32
      && (forall c :: 0 <= c < 32 ==> ops[c] == InitialHandler(c))
      && curVat == Vat(curCmd)
    }

    /** The bytes between the read and the write pointer. */
    function Window(): (w: seq<Byte>)
      requires readPtr <= writePtr <= buf.Length
      reads this, buf
      ensures |w| == writePtr - readPtr
    {
      buf[readPtr..writePtr]
    }

    /** Where the installed pop routines read next. */
    function Cursor(ram: seq<Byte>): Stream
      reads this, buf
    {
      match source
      case FifoSource => Primary(buf[..], readPtr)
      case DisplayListSource => Nested(ram, dlAddr, dlOffset)
    }

    /** The installed pop routines may read `k` more bytes (the primary buffer does not run out). */
    predicate CanRead(k: nat)
      reads this
    {
      source == DisplayListSource || readPtr + k <= buf.Length
    }

    /** The active cursor moved by `k` bytes and the other one stayed put. */
    twostate predicate Advanced(ram: seq<Byte>, k: nat)
      reads this
    {
      && source == old(source)
      && (source == FifoSource ==> readPtr == old(readPtr) + k && dlOffset == old(dlOffset))
      && (source == DisplayListSource ==> dlOffset == old(dlOffset) + k && readPtr == old(readPtr))
    }

    constructor (size: nat, tailEnd: nat, ramMask: U32)
      ensures Valid() && buf.Length == size && this.tailEnd == tailEnd && this.ramMask == ramMask
      ensures writePtr == 0 && readPtr == 0 && lastRequired == -1 && source == FifoSource
      ensures forall i :: 0 <= i < size ==> buf[i] == 0
      ensures events == [] && dlAddr == 0 && dlOffset == 0 && curCmd == 0 && curVat == 0
    {
      this.buf := new Byte[size];
      this.tailEnd, this.ramMask := tailEnd, ramMask;
      lastRequired, curCmd, curVat, events := -1, 0, 0, [];
      ops := seq(32, _ => Unknown);
      new;
      Init();
    }

    // -------------------------------------------------------------------
    // Pops from the primary buffer
    // -------------------------------------------------------------------

    method FifoPop8() returns (b: Byte)
      requires readPtr + 1 <= buf.Length
      modifies this`readPtr
      ensures b == buf[old(readPtr)] && readPtr == old(readPtr) + 1
    {
      b := buf[readPtr];
      readPtr := readPtr + 1;
    }

    method FifoPop16() returns (h: U16)
      requires readPtr + 2 <= buf.Length
      modifies this`readPtr
      ensures h == BE16(buf[old(readPtr)], buf[old(readPtr) + 1]) && readPtr == old(readPtr) + 2
    {
      h := BE16(buf[readPtr], buf[readPtr + 1]);
      readPtr := readPtr + 2;
    }

    /** Three byte pops, the first one the most significant. */
    method FifoPop24() returns (w: U32)
      requires readPtr + 3 <= buf.Length
      modifies this`readPtr
      ensures w == BE24(buf[old(readPtr)], buf[old(readPtr) + 1], buf[old(readPtr) + 2])
      ensures readPtr == old(readPtr) + 3
    {
      var b0 := FifoPop8();
      var b1 := FifoPop8();
      var b2 := FifoPop8();
      w := BE24(b0, b1, b2);
    }

    method FifoPop32() returns (w: U32)
      requires readPtr + 4 <= buf.Length
      modifies this`readPtr
      ensures w == BE32(buf[old(readPtr)], buf[old(readPtr) + 1], buf[old(readPtr) + 2], buf[old(readPtr) + 3])
      ensures readPtr == old(readPtr) + 4
    {
      w := BE32(buf[readPtr], buf[readPtr + 1], buf[readPtr + 2], buf[readPtr + 3]);
      readPtr := readPtr + 4;
    }

    // -------------------------------------------------------------------
    // Pops from a display list in RAM
    // -------------------------------------------------------------------

    method DisplayListPop8(ram: seq<Byte>) returns (b: Byte)
      modifies this`dlOffset
      ensures b == DlByte(ram, dlAddr, old(dlOffset)) && dlOffset == old(dlOffset) + 1
    {
      b := DlByte(ram, dlAddr, dlOffset);
      dlOffset := dlOffset + 1;
    }

    method DisplayListPop16(ram: seq<Byte>) returns (h: U16)
      modifies this`dlOffset
      ensures h == BE16(DlByte(ram, dlAddr, old(dlOffset)), DlByte(ram, dlAddr, old(dlOffset) + 1))
      ensures dlOffset == old(dlOffset) + 2
    {
      h := BE16(DlByte(ram, dlAddr, dlOffset), DlByte(ram, dlAddr, dlOffset + 1));
      dlOffset := dlOffset + 2;
    }

    /** Three byte pops, the first one the most significant. */
    method DisplayListPop24(ram: seq<Byte>) returns (w: U32)
      modifies this`dlOffset
      ensures w == BE24(DlByte(ram, dlAddr, old(dlOffset)), DlByte(ram, dlAddr, old(dlOffset) + 1),
                        DlByte(ram, dlAddr, old(dlOffset) + 2))
      ensures dlOffset == old(dlOffset) + 3
    {
      var b0 := DisplayListPop8(ram);
      var b1 := DisplayListPop8(ram);
      var b2 := DisplayListPop8(ram);
      w := BE24(b0, b1, b2);
    }

    method DisplayListPop32(ram: seq<Byte>) returns (w: U32)
      modifies this`dlOffset
      ensures w == BE32(DlByte(ram, dlAddr, old(dlOffset)), DlByte(ram, dlAddr, old(dlOffset) + 1),
                        DlByte(ram, dlAddr, old(dlOffset) + 2), DlByte(ram, dlAddr, old(dlOffset) + 3))
      ensures dlOffset == old(dlOffset) + 4
    {
      w := BE32(DlByte(ram, dlAddr, dlOffset), DlByte(ram, dlAddr, dlOffset + 1),
                DlByte(ram, dlAddr, dlOffset + 2), DlByte(ram, dlAddr, dlOffset + 3));
      dlOffset := dlOffset + 4;
    }

    // -------------------------------------------------------------------
    // Read modes and the installed pops
    // -------------------------------------------------------------------

    method SetReadNormal()
      modifies this`source
      ensures source == FifoSource
    {
      source := FifoSource;
    }

    method SetReadDisplayLists()
      modifies this`source
      ensures source == DisplayListSource
    {
      source := DisplayListSource;
    }

    /** Fifo_Pop8: the byte at the cursor of the installed read mode. */
    method Pop8(ram: seq<Byte>) returns (b: Byte)
      requires CanRead(1)
      modifies this`readPtr, this`dlOffset
      ensures b == At(old(Cursor(ram)), 0) && Advanced(ram, 1)
    {
      if source == FifoSource {
        b := FifoPop8();
      } else {
        b := DisplayListPop8(ram);
      }
    }

    /** Fifo_Pop16: the big-endian halfword at the cursor. */
    method Pop16(ram: seq<Byte>) returns (h: U16)
      requires CanRead(2)
      modifies this`readPtr, this`dlOffset
      ensures h == Word16(old(Cursor(ram)), 0) && Advanced(ram, 2)
    {
      if source == FifoSource {
        h := FifoPop16();
      } else {
        h := DisplayListPop16(ram);
      }
    }

    /** Fifo_Pop24: the big-endian 24-bit value at the cursor. */
    method Pop24(ram: seq<Byte>) returns (w: U32)
      requires CanRead(3)
      modifies this`readPtr, this`dlOffset
      ensures w == BE24(At(old(Cursor(ram)), 0), At(old(Cursor(ram)), 1), At(old(Cursor(ram)), 2))
      ensures Advanced(ram, 3)
    {
      if source == FifoSource {
        w := FifoPop24();
      } else {
        w := DisplayListPop24(ram);
      }
    }

    /** Fifo_Pop32: the big-endian word at the cursor. */
    method Pop32(ram: seq<Byte>) returns (w: U32)
      requires CanRead(4)
      modifies this`readPtr, this`dlOffset
      ensures w == Word32(old(Cursor(ram)), 0)
      ensures Advanced(ram, 4)
    {
      ghost var c := Cursor(ram);
      if source == FifoSource {
        assert At(c, 0) == buf[readPtr] && At(c, 1) == buf[readPtr + 1];
        assert At(c, 2) == buf[readPtr + 2] && At(c, 3) == buf[readPtr + 3];
        w := FifoPop32();
      } else {
        assert At(c, 0) == DlByte(ram, dlAddr, dlOffset) && At(c, 1) == DlByte(ram, dlAddr, dlOffset + 1);
        assert At(c, 2) == DlByte(ram, dlAddr, dlOffset + 2) && At(c, 3) == DlByte(ram, dlAddr, dlOffset + 3);
        w := DisplayListPop32(ram);
      }
    }

    /** The vertex loader reads a primitive's `n` vertex bytes from the cursor. */
    method Skip(n: nat)
      requires CanRead(n)
      modifies this`readPtr, this`dlOffset
      ensures source == FifoSource ==> readPtr == old(readPtr) + n && dlOffset == old(dlOffset)
      ensures source == DisplayListSource ==> dlOffset == old(dlOffset) + n && readPtr == old(readPtr)
    {
      if source == FifoSource {
        readPtr := readPtr + n;
      } else {
        dlOffset := dlOffset + n;
      }
    }

    // -------------------------------------------------------------------
    // The handlers (all but CALL_DISPLAYLIST)
    // -------------------------------------------------------------------

    /** UNKNOWN: reads nothing (the source only raises an assertion dialog). */
    method ExecUnknown()
    {
    }

    method ExecNop()
    {
    }

    method ExecInvalidateVertexCache()
    {
    }

    /** LOAD_CP_REG: a register byte and a data word, handed to the CP. */
    method ExecLoadCpReg(ram: seq<Byte>)
      requires CanRead(5)
      modifies this`readPtr, this`dlOffset, this`events
      ensures var c := old(Cursor(ram)); events == old(events) + [CpWrite(At(c, 0), Word32(c, 1))]
      ensures Advanced(ram, 5)
    {
      ghost var c := Cursor(ram);
      var addr := Pop8(ram);
      var data := Pop32(ram);
      events := events + [CpWrite(addr, data)];
    }

    /**
     * LOAD_XF_REG: a control word holding the transfer count minus one
     * (upper half, 16-bit arithmetic) and the XF address (lower half),
     * then that many data words, handed to the XF.
     */
    method ExecLoadXfReg(ram: seq<Byte>)
      requires CanRead(4 + 4 * XfCount(Word32(Cursor(ram), 0)))
      modifies this`readPtr, this`dlOffset, this`events
      ensures var c := old(Cursor(ram)); var w := Word32(c, 0);
        events == old(events) + [XfLoad(XfCount(w), w % 0x1_0000, XfValues(c, XfCount(w)))]
      ensures Advanced(ram, 4 + 4 * XfCount(Word32(old(Cursor(ram)), 0)))
    {
      ghost var c := Cursor(ram);
      var temp := Pop32(ram);
      var length: U16 := (temp / 0x1_0000 + 1) % 0x1_0000;
      var addr: U16 := temp % 0x1_0000;
      var regs := PopXfValues(ram, c, length);
      events := events + [XfLoad(length, addr, regs)];
    }

    /** The data words of a LOAD_XF_REG whose control word sits at `c`; the cursor is past that word. */
    method PopXfValues(ram: seq<Byte>, ghost c: Stream, length: nat) returns (regs: seq<U32>)
      requires Cursor(ram) == Advance(c, 4) && CanRead(4 * length)
      modifies this`readPtr, this`dlOffset
      ensures regs == XfValues(c, length) && Advanced(ram, 4 * length)
    {
      regs := [];
      for i := 0 to length
        invariant regs == XfValues(c, i)
        invariant Advanced(ram, 4 * i)
      {
        ghost var entry := old(Cursor(ram));
        AdvanceAdvance(c, 4, 4 * i);
        AdvanceAdvance(entry, 4 * i, 4);
        XfValuesSnoc(c, i);
        var v := PopXfValue(ram, c, i);
        regs := regs + [v];
      }
    }

    /** The `i`-th data word of a LOAD_XF_REG whose control word sits at `c`. */
    method PopXfValue(ram: seq<Byte>, ghost c: Stream, ghost i: nat) returns (v: U32)
      requires Cursor(ram) == Advance(c, 4 + 4 * i) && CanRead(4)
      modifies this`readPtr, this`dlOffset
      ensures v == Word32(c, 4 + 4 * i) && Advanced(ram, 4)
    {
      Word32Advance(c, 4 + 4 * i);
      v := Pop32(ram);
    }

    /** LOAD_IDX_A .. LOAD_IDX_D: an index and a word of length minus one (4 bits) and address (12 bits). */
    method ExecLoadIdx(ram: seq<Byte>, bank: IndexBank)
      requires CanRead(4)
      modifies this`readPtr, this`dlOffset, this`events
      ensures var c := old(Cursor(ram)); var d := Word16(c, 2);
        events == old(events) + [XfLoadIndexed(bank, Word16(c, 0), d / 0x1000 + 1, d % 0x1000)]
      ensures Advanced(ram, 4)
    {
      ghost var c := Cursor(ram);
      Word16Advance(c, 2);
      AdvanceAdvance(c, 2, 2);
      var index := Pop16(ram);
      var data := Pop16(ram);
      var length: Byte := data / 0x1000 + 1;
      var addr: U16 := data % 0x1000;
      events := events + [XfLoadIndexed(bank, index, length, addr)];
    }

    /** LOAD_BP_REG: one word, its top byte the register and the rest the value, handed to the BP. */
    method ExecLoadBpReg(ram: seq<Byte>)
      requires CanRead(4)
      modifies this`readPtr, this`dlOffset, this`events
      ensures var w := Word32(old(Cursor(ram)), 0);
        events == old(events) + [BpWrite(w / 0x100_0000, w % 0x100_0000)]
      ensures Advanced(ram, 4)
    {
      var data := Pop32(ram);
      events := events + [BpWrite(data / 0x100_0000, data % 0x100_0000)];
    }

    /**
     * DRAW_*: the vertex count, then the primitive goes to the vertex
     * loader, which reads count x (vertex size of the current vat) bytes.
     */
    method ExecDraw(ram: seq<Byte>, prim: Primitive, sizes: VertexSizes)
      requires curVat < 8
      requires CanRead(2 + VertexBytes(Word16(Cursor(ram), 0), sizes[curVat]))
      modifies this`readPtr, this`dlOffset, this`events
      ensures events == old(events) + [DrawPrimitive(prim, Word16(old(Cursor(ram)), 0))]
      ensures Advanced(ram, 2 + VertexBytes(Word16(old(Cursor(ram)), 0), sizes[curVat]))
    {
      var count := Pop16(ram);
      events := events + [DrawPrimitive(prim, count)];
      Skip(VertexBytes(count, sizes[curVat]));
    }

    /** g_exec_op[class]() for every handler but CALL_DISPLAYLIST, as `Operate` describes it. */
    method Execute(h: Handler, ram: seq<Byte>, sizes: VertexSizes)
      requires h != CallDisplayList && curVat == Vat(curCmd)
      requires CanRead(Operate(h, curCmd, Cursor(ram), sizes).consumed)
      modifies this`readPtr, this`dlOffset, this`events
      ensures var r := Operate(h, curCmd, old(Cursor(ram)), sizes);
        events == old(events) + r.events && Advanced(ram, r.consumed)
    {
      match h {
        case Unknown => ExecUnknown();
        case Nop => ExecNop();
        case InvalidateVertexCache => ExecInvalidateVertexCache();
        case LoadCpReg => ExecLoadCpReg(ram);
        case LoadXfReg => ExecLoadXfReg(ram);
        case LoadIdx(bank) => ExecLoadIdx(ram, bank);
        case LoadBpReg => ExecLoadBpReg(ram);
        case Draw(prim) => ExecDraw(ram, prim, sizes);
      }
    }

    // -------------------------------------------------------------------
    // CALL_DISPLAYLIST
    // -------------------------------------------------------------------

    /**
     * CALL_DISPLAYLIST: the list's address (masked with RAM_MASK) and size
     * from the FIFO, then the list run from RAM with the display-list pop
     * routines installed, as `RunList` describes, and the FIFO's pop
     * routines installed again. A CALL_DISPLAYLIST inside the list stops it.
     */
    method ExecCallDisplayList(ram: seq<Byte>, sizes: VertexSizes) returns (nested: bool)
      requires source == FifoSource && readPtr + 8 <= buf.Length
      requires |ops| == 32 && curVat == Vat(curCmd)
      modifies this`readPtr, this`dlAddr, this`dlOffset, this`source, this`curCmd, this`curVat, this`events
      ensures var c := old(Cursor(ram)); var addr := MaskAddress(Word32(c, 0), ramMask);
        var r := RunList(ops, ram, addr, Word32(c, 4), 0, old(curCmd), sizes);
        && events == old(events) + r.events && nested == r.nested
        && dlAddr == addr && dlOffset == r.offset && curCmd == r.lastCmd
      ensures source == FifoSource && readPtr == old(readPtr) + 8 && curVat == Vat(curCmd)
    {
      ghost var c, last := Cursor(ram), curCmd;
      Word32Advance(c, 4);
      var a := Pop32(ram);
      var addr := MaskAddress(a, ramMask);
      var size := Pop32(ram);
      assert a == Word32(c, 0) && size == Word32(c, 4);
      dlAddr := addr;
      dlOffset := 0;
      SetReadDisplayLists();
      ghost var r := RunList(ops, ram, addr, size, 0, last, sizes);
      nested := RunDisplayList(ram, sizes, size);
      assert events == old(events) + r.events && nested == r.nested && dlOffset == r.offset && curCmd == r.lastCmd;
      SetReadNormal();
    }

    /** The CALL_DISPLAYLIST loop over the list at `dlAddr`, from offset 0 up to `size`. */
    method RunDisplayList(ram: seq<Byte>, sizes: VertexSizes, size: U32) returns (nested: bool)
      requires source == DisplayListSource && dlOffset == 0
      requires |ops| == 32 && curVat == Vat(curCmd)
      modifies this`readPtr, this`dlOffset, this`curCmd, this`curVat, this`events
      ensures var r := RunList(ops, ram, dlAddr, size, 0, old(curCmd), sizes);
        && events == old(events) + r.events && nested == r.nested
        && dlOffset == r.offset && curCmd == r.lastCmd
      ensures readPtr == old(readPtr) && curVat == Vat(curCmd)
    {
      ghost var total := RunList(ops, ram, dlAddr, size, 0, curCmd, sizes);
      ghost var done: seq<Event> := [];
      nested := false;
      while dlOffset < size && !nested
        invariant source == DisplayListSource && readPtr == old(readPtr)
        invariant curVat == Vat(curCmd) && events == old(events) + done
        invariant nested ==> total == ListResult(done, dlOffset, curCmd, true)
        invariant !nested ==> total == Then(done, RunList(ops, ram, dlAddr, size, dlOffset, curCmd, sizes))
        decreases size - dlOffset
      {
        ghost var off, last := dlOffset, curCmd;
        ghost var step;
        nested, step := ListStep(ram, sizes, dlAddr, off);
        ListTurn(ops, ram, dlAddr, size, off, last, sizes, total, done, nested, step, dlOffset, curCmd);
        Concat3(old(events), done, step);
        done := done + step;
      }
    }

    /**
     * One turn of the CALL_DISPLAYLIST loop: pop the opcode at offset `off`
     * of the list at `addr`, make it the current command and run its
     * handler, or stop at a nested CALL_DISPLAYLIST.
     */
    method ListStep(ram: seq<Byte>, sizes: VertexSizes, ghost addr: U32, ghost off: nat)
      returns (nested: bool, ghost step: seq<Event>)
      requires source == DisplayListSource && |ops| == 32 && curVat == Vat(curCmd)
      requires dlAddr == addr && dlOffset == off
      modifies this`readPtr, this`dlOffset, this`curCmd, this`curVat, this`events
      ensures events == old(events) + step && readPtr == old(readPtr)
      ensures var cmd := DlByte(ram, addr, off); var h := ops[OpClass(cmd)];
        && curCmd == cmd && curVat == Vat(cmd) && nested == (h == CallDisplayList)
        && (nested ==> step == [] && dlOffset == off + 1)
        && (!nested ==> var r := Operate(h, cmd, Nested(ram, addr, off + 1), sizes);
              step == r.events && dlOffset == off + 1 + r.consumed)
    {
      var cmd := Pop8(ram);
      curCmd := cmd;
      curVat := cmd % 8;
      var h := ops[OpClass(cmd)];
      if h == CallDisplayList {
        nested, step := true, [];
      } else {
        assert Cursor(ram) == Nested(ram, addr, off + 1);
        ghost var r := Operate(h, curCmd, Cursor(ram), sizes);
        Execute(h, ram, sizes);
        nested, step := false, r.events;
      }
    }

    // -------------------------------------------------------------------
    // Flow control and decoding
    // -------------------------------------------------------------------

    /**
     * Fifo_NextCommandReady: the readiness check `Check` over the bytes
     * between the read and the write pointer and the cached size; once it
     * has looked at the opcode, that opcode becomes the current command.
     */
    method NextCommandReady(sizes: VertexSizes) returns (ready: bool)
      requires readPtr <= writePtr <= buf.Length && curVat == Vat(curCmd)
      modifies this`lastRequired, this`curCmd, this`curVat
      ensures var v := Check(old(Window()), old(lastRequired), sizes);
        && ready == v.ready && lastRequired == v.cache
        && (v.peeked ==> curCmd == old(Window())[0])
        && (!v.peeked ==> curCmd == old(curCmd))
      ensures curVat == Vat(curCmd)
    {
      var window := buf[readPtr..writePtr];
      var v := Check(window, lastRequired, sizes);
      if v.peeked {
        curCmd := window[0];
        curVat := curCmd % 8;
      }
      lastRequired := v.cache;
      ready := v.ready;
    }

    /**
     * Fifo_DecodeCommand: nothing to do on an empty FIFO or while the
     * command at the read pointer is incomplete; otherwise the command is
     * recorded and run as `RunCommand` describes.
     */
    method DecodeCommand(ram: seq<Byte>, sizes: VertexSizes, rec: Recorder) returns (status: Status)
      requires Valid() && rec.Valid()
      modifies this`lastRequired, this`curCmd, this`curVat, this`readPtr, this`dlAddr, this`dlOffset
      modifies this`source, this`events, rec
      ensures Valid() && rec.Valid()
      ensures var w := old(Window()); var v := Check(w, old(lastRequired), sizes);
        && lastRequired == v.cache
        && (!v.ready ==> && status == NotReady && readPtr == old(readPtr) && events == old(events)
                         && dlAddr == old(dlAddr) && dlOffset == old(dlOffset)
                         && (v.peeked ==> curCmd == w[0]) && (!v.peeked ==> curCmd == old(curCmd))
                         && rec.raw == old(rec.raw) && rec.elements == old(rec.elements))
        && (v.ready ==> Ran(w, Primary(old(buf[..]), old(readPtr) + 1), ram, sizes, status, old(readPtr),
                            old(events), old(dlAddr), old(dlOffset), old(rec.raw), old(rec.elements),
                            old(rec.isRecording), rec))
      ensures rec.frames == old(rec.frames) && rec.isRecording == old(rec.isRecording) && rec.header == old(rec.header)
    {
      if writePtr - readPtr < 1 {
        return NotReady;
      }
      var ready := NextCommandReady(sizes);
      if !ready {
        return NotReady;
      }
      status := RunCommand(ram, sizes, rec);
    }

    /**
     * What decoding a ready command `w[0]` (the bytes `w` from the read
     * pointer on) leaves behind: a command whose length runs past the
     * write pointer (the check's 16-bit size wrapped) stops the decoder
     * with nothing read and the opcode left as the current command; otherwise its bytes are logged while recording
     * (all but CALL_DISPLAYLIST) and it is run as `Dispatched` says, every
     * handler but UNKNOWN reading exactly its length.
     */
    ghost predicate Ran(w: seq<Byte>, s: Stream, ram: seq<Byte>, sizes: VertexSizes, status: Status,
                        readPtr0: nat, events0: seq<Event>, dlAddr0: U32, dlOffset0: nat,
                        raw0: seq<Byte>, elements0: seq<ElementInfo>, recording: bool, rec: Recorder)
      requires |w| >= 1 && |w| >= HeaderLength(w[0]) && |ops| == 32
      reads this, rec
    {
      var len := CommandLength(w, w[0], sizes);
      if len > |w| then
        && status == Desync && readPtr == readPtr0 && events == events0
        && curCmd == w[0] && dlAddr == dlAddr0 && dlOffset == dlOffset0
        && rec.raw == raw0 && rec.elements == elements0
      else
        && Dispatched(w[0], s, ram, sizes, status, readPtr0, events0, dlAddr0, dlOffset0)
        && (InitialHandler(OpClass(w[0])) != Unknown ==> readPtr == readPtr0 + len)
        && if OpClass(w[0]) != 8 && recording
           then rec.raw == raw0 + w[..len] && rec.elements == elements0 + [ElementInfo(RegisterWrite, |raw0|, len)]
           else rec.raw == raw0 && rec.elements == elements0
    }

    /** The part of Fifo_DecodeCommand after the readiness check said yes. */
    method RunCommand(ram: seq<Byte>, sizes: VertexSizes, rec: Recorder) returns (status: Status)
      requires Valid() && rec.Valid() && readPtr < writePtr && curCmd == buf[readPtr]
      requires |Window()| >= HeaderLength(curCmd)
      modifies this`curCmd, this`curVat, this`readPtr, this`dlAddr, this`dlOffset, this`source, this`events, rec
      ensures Valid() && rec.Valid()
      ensures Ran(old(Window()), Primary(old(buf[..]), old(readPtr) + 1), ram, sizes, status, old(readPtr),
                  old(events), old(dlAddr), old(dlOffset), old(rec.raw), old(rec.elements),
                  old(rec.isRecording), rec)
      ensures rec.frames == old(rec.frames) && rec.isRecording == old(rec.isRecording) && rec.header == old(rec.header)
    {
      var window := buf[readPtr..writePtr];
      var len := CommandLength(window, curCmd, sizes);
      if len > |window| {
        return Desync;
      }
      if OpClass(curCmd) != 8 && rec.isRecording {
        rec.Write(window[..len]);
      }
      status := Dispatch(ram, sizes);
    }

    /**
     * What running the handler of opcode `cmd`, popped at `readPtr0` with
     * its operands at `s`, leaves behind. CALL_DISPLAYLIST reads its two
     * words and runs the list as `RunList` says, reporting a nested call;
     * every other handler emits what `Operate` says and reads its operand
     * bytes after the opcode (UNKNOWN reads none). The list leaves the
     * display-list cursor where it stopped and its last opcode current;
     * any other handler leaves both alone, with `cmd` current.
     */
    ghost predicate Dispatched(cmd: Byte, s: Stream, ram: seq<Byte>, sizes: VertexSizes, status: Status,
                               readPtr0: nat, events0: seq<Event>, dlAddr0: U32, dlOffset0: nat)
      requires |ops| == 32
      reads this
    {
      var h := InitialHandler(OpClass(cmd));
      if h == CallDisplayList then
        var addr := MaskAddress(Word32(s, 0), ramMask);
        var r := RunList(ops, ram, addr, Word32(s, 4), 0, cmd, sizes);
        && events == events0 + r.events && readPtr == readPtr0 + 9
        && status == (if r.nested then NestedDisplayList else Executed)
        && dlAddr == addr && dlOffset == r.offset && curCmd == r.lastCmd
      else
        var r := Operate(h, cmd, s, sizes);
        && events == events0 + r.events && readPtr == readPtr0 + 1 + r.consumed && status == Executed
        && dlAddr == dlAddr0 && dlOffset == dlOffset0 && curCmd == cmd
    }

    /**
     * g_exec_op[GP_OPMASK(Fifo_Pop8())](): pop the opcode and run the
     * handler the table holds for its class. Every handler but UNKNOWN
     * reads exactly the command's length.
     */
    method Dispatch(ram: seq<Byte>, sizes: VertexSizes) returns (status: Status)
      requires Valid() && readPtr < writePtr && curCmd == buf[readPtr]
      requires var w := Window(); |w| >= HeaderLength(w[0]) && CommandLength(w, w[0], sizes) <= |w|
      modifies this`readPtr, this`dlAddr, this`dlOffset, this`source, this`curCmd, this`curVat, this`events
      ensures Valid()
      ensures Dispatched(old(curCmd), Primary(old(buf[..]), old(readPtr) + 1), ram, sizes, status,
                         old(readPtr), old(events), old(dlAddr), old(dlOffset))
      ensures InitialHandler(OpClass(old(curCmd))) != Unknown ==>
        readPtr == old(readPtr) + CommandLength(old(Window()), old(curCmd), sizes)
    {
      ghost var b, p := buf[..], readPtr;
      assert b[p..writePtr] == Window();
      var cmd := Pop8(ram);
      assert Cursor(ram) == Primary(b, p + 1);
      var h := ops[OpClass(cmd)];
      assert h == InitialHandler(OpClass(cmd));
      if h != Unknown {
        HandlerConsumesCommandLength(b, p, writePtr, sizes);
      }
      if h == CallDisplayList {
        var nested := ExecCallDisplayList(ram, sizes);
        status := if nested then NestedDisplayList else Executed;
      } else {
        Execute(h, ram, sizes);
        status := Executed;
      }
    }

    // -------------------------------------------------------------------
    // Reset and initialisation
    // -------------------------------------------------------------------

    /** memset(g_fifo_buffer, 0, FIFO_SIZE). */
    method ZeroBuffer()
      modifies buf
      ensures forall i :: 0 <= i < buf.Length ==> buf[i] == 0
    {
      for i := 0 to buf.Length
        invariant forall j :: 0 <= j < i ==> buf[j] == 0
      {
        buf[i] := 0;
      }
    }

    /**
     * Fifo_Reset, at the end of a frame: once the write pointer has passed
     * the tail end, both pointers go back to the start of a zeroed buffer;
     * otherwise nothing changes.
     */
    method Reset()
      requires Valid()
      modifies this`writePtr, this`readPtr, buf
      ensures Valid()
      ensures old(writePtr) > tailEnd ==>
        writePtr == 0 && readPtr == 0 && forall i :: 0 <= i < buf.Length ==> buf[i] == 0
      ensures old(writePtr) <= tailEnd ==>
        writePtr == old(writePtr) && readPtr == old(readPtr) && buf[..] == old(buf[..])
    {
      if writePtr > tailEnd {
        writePtr := 0;
        readPtr := 0;
        ZeroBuffer();
      }
    }

    /** Init's table set-up: every slot UNKNOWN, then the seventeen handlers by their opcodes' classes. */
    method InstallHandlers()
      requires |ops| == 32
      modifies this`ops
      ensures |ops| == 32 && forall c :: 0 <= c < 32 ==> ops[c] == InitialHandler(c)
    {
      var table := ops;
      for i := 0 to 32
        invariant |table| == 32 && forall j :: 0 <= j < i ==> table[j] == Unknown
      {
        table := table[i := Unknown];
      }
      table := table[OpClass(OpNop) := Nop];
      table := table[OpClass(OpLoadCpReg) := LoadCpReg];
      table := table[OpClass(OpLoadXfReg) := LoadXfReg];
      table := table[OpClass(OpLoadIdxA) := LoadIdx(IdxA)];
      table := table[OpClass(OpLoadIdxB) := LoadIdx(IdxB)];
      table := table[OpClass(OpLoadIdxC) := LoadIdx(IdxC)];
      table := table[OpClass(OpLoadIdxD) := LoadIdx(IdxD)];
      table := table[OpClass(OpCallDisplayList) := CallDisplayList];
      table := table[OpClass(OpInvalidateVertexCache) := InvalidateVertexCache];
      table := table[OpClass(OpLoadBpReg) := LoadBpReg];
      table := table[OpClass(OpDrawQuads) := Draw(Quads)];
      table := table[OpClass(OpDrawTriangles) := Draw(Triangles)];
      table := table[OpClass(OpDrawTriangleStrip) := Draw(TriangleStrip)];
      table := table[OpClass(OpDrawTriangleFan) := Draw(TriangleFan)];
      table := table[OpClass(OpDrawLines) := Draw(Lines)];
      table := table[OpClass(OpDrawLineStrip) := Draw(LineStrip)];
      table := table[OpClass(OpDrawPoints) := Draw(Points)];
      InitialTableSlots(table);
      ops := table;
    }

    /**
     * Fifo_Init: normal read mode, both pointers at the start of a zeroed
     * buffer, the display-list cursor at zero, every table slot UNKNOWN and
     * then the seventeen handlers installed by their opcodes' classes. The
     * cached size and the current command are left alone.
     */
    method Init()
      requires |ops| == 32 && curVat == Vat(curCmd)
      modifies this`source, this`writePtr, this`readPtr, this`dlAddr, this`dlOffset, this`ops, buf
      ensures Valid() && source == FifoSource
      ensures writePtr == 0 && readPtr == 0 && dlAddr == 0 && dlOffset == 0
      ensures forall i :: 0 <= i < buf.Length ==> buf[i] == 0
    {
      SetReadNormal();
      writePtr := 0;
      readPtr := 0;
      ZeroBuffer();
      dlAddr := 0;
      dlOffset := 0;
      InstallHandlers();
    }
  }
}
