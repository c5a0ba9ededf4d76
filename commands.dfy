/**
 * The GP command set as pure functions: opcode classes, the handler table
 * built at initialisation, the command-length oracle, the two command
 * length calculators, and what each handler reads and emits.
 *
 * An opcode byte carries its class in bits 7..3 (GP_OPMASK) and the vertex
 * attribute table in bits 2..0.
 */
module Commands {
  import opened Bytes

  /** GP_OPMASK: the 5-bit class of an opcode byte. */
  function OpClass(cmd: Byte): (c: nat)
    ensures c < 32 && c * 8 <= cmd < c * 8 + 8
  {
    cmd / 8
  }

  /** The vertex attribute table selected by an opcode byte (g_cur_vat). */
  function Vat(cmd: Byte): (v: nat)
    ensures v < 8 && (cmd - v) % 8 == 0
  {
    cmd % 8
  }

  /** A draw opcode has bit 7 set. */
  predicate IsDraw(cmd: Byte) {
    cmd >= 0x80
  }

  /** The opcodes whose classes initialisation installs handlers for (standard GX command bytes). */
  const OpNop: Byte := 0x00
  const OpLoadCpReg: Byte := 0x08
  const OpLoadXfReg: Byte := 0x10
  const OpLoadIdxA: Byte := 0x20
  const OpLoadIdxB: Byte := 0x28
  const OpLoadIdxC: Byte := 0x30
  const OpLoadIdxD: Byte := 0x38
  const OpCallDisplayList: Byte := 0x40
  const OpInvalidateVertexCache: Byte := 0x48
  const OpLoadBpReg: Byte := 0x61
  const OpDrawQuads: Byte := 0x80
  const OpDrawTriangles: Byte := 0x90
  const OpDrawTriangleStrip: Byte := 0x98
  const OpDrawTriangleFan: Byte := 0xA0
  const OpDrawLines: Byte := 0xA8
  const OpDrawLineStrip: Byte := 0xB0
  const OpDrawPoints: Byte := 0xB8

  /** Bytes per vertex for each vertex attribute table, as the vertex loader reports them. */
  type VertexSizes = s: seq<U16> | |s| == 8 witness [0, 0, 0, 0, 0, 0, 0, 0]

  datatype IndexBank = IdxA | IdxB | IdxC | IdxD
  datatype Primitive = Quads | Triangles | TriangleStrip | TriangleFan | Lines | LineStrip | Points

  /** The opcode handlers of the dispatch table. */
  datatype Handler =
    | Unknown
    | Nop
    | LoadCpReg
    | LoadXfReg
    | LoadIdx(bank: IndexBank)
    | CallDisplayList
    | InvalidateVertexCache
    | LoadBpReg
    | Draw(prim: Primitive)

  /**
   * The handler installed for class `c` by initialisation; every other
   * class is Unknown. The table agrees with the readiness check's cases:
   * the classes it gives a fixed length run a fixed-length handler, class
   * 2 alone loads the XF, draws sit only in classes with bit 7 set, and
   * the classes it does not recognise run UNKNOWN.
   */
  function InitialHandler(c: nat): (h: Handler)
    ensures IsFixedClass(c) ==> h != Unknown && !h.LoadXfReg? && !h.Draw?
    ensures h == LoadXfReg <==> c == 2
    ensures h == CallDisplayList <==> c == 8
    ensures h.Draw? ==> 16 <= c < 24
    ensures IsUnmatchedClass(c) ==> h == Unknown
  {
    match c
    case 0 => Nop
    case 1 => LoadCpReg
    case 2 => LoadXfReg
    case 4 => LoadIdx(IdxA)
    case 5 => LoadIdx(IdxB)
    case 6 => LoadIdx(IdxC)
    case 7 => LoadIdx(IdxD)
    case 8 => CallDisplayList
    case 9 => InvalidateVertexCache
    case 12 => LoadBpReg
    case 16 => Draw(Quads)
    case 18 => Draw(Triangles)
    case 19 => Draw(TriangleStrip)
    case 20 => Draw(TriangleFan)
    case 21 => Draw(Lines)
    case 22 => Draw(LineStrip)
    case 23 => Draw(Points)
    case _ => Unknown
  }

  /** Classes the oracle gives a fixed length: 0 and 9 (one byte) and the register loads. */
  predicate IsFixedClass(c: nat) {
    c in {0, 1, 4, 5, 6, 7, 8, 9, 12}
  }

  /** Classes with bit 7 clear that the oracle does not recognise. */
  predicate IsUnmatchedClass(c: nat) {
    c in {3, 10, 11, 13, 14, 15}
  }

  /** Total length of a fixed-length command of class `c`. */
  function FixedLength(c: nat): nat
    requires IsFixedClass(c)
  {
    match c
    case 0 => 1
    case 9 => 1
    case 1 => 6
    case 8 => 9
    case _ => 5
  }

  // ---------------------------------------------------------------------
  // The command-length oracle (Fifo_NextCommandReady, without its state)
  // ---------------------------------------------------------------------

  /**
   * The outcome of one readiness check: whether the command is ready, the
   * new cached "last required size" (-1 for unknown), and whether the
   * opcode was peeked (which also sets the current command and vat).
   */
  datatype Verdict = Verdict(ready: bool, cache: int, peeked: bool)

  /** The LOAD_XF size as the oracle computes it, in 16-bit arithmetic. */
  function XfRequired(w: U32): (r: U16)
    ensures r == (4 * (w / 0x1_0000 + 1) + 5) % 0x1_0000
    ensures 4 * (w / 0x1_0000 + 1) + 5 < 0x1_0000 ==> r == 4 * (w / 0x1_0000 + 1) + 5
  {
    var words := 4 * (w / 0x1_0000 + 1);
    var low := words % 0x1_0000;
    assert words == (words / 0x1_0000) * 0x1_0000 + low;
    assert words + 5 == (words / 0x1_0000) * 0x1_0000 + (low + 5);
    (low + 5) % 0x1_0000
  }

  /** Bytes of vertex data a draw of `count` vertices of `vertexSize` bytes carries. */
  function VertexBytes(count: U16, vertexSize: U16): (n: nat)
    ensures count == 0 || vertexSize == 0 <==> n == 0
  {
    count * vertexSize
  }

  /** The draw size as the oracle computes it, in 16-bit arithmetic. */
  function DrawRequired(count: U16, vertexSize: U16): (r: U16)
    ensures (3 + VertexBytes(count, vertexSize) - r) % 0x1_0000 == 0
    ensures 3 + VertexBytes(count, vertexSize) < 0x1_0000 ==> r == 3 + VertexBytes(count, vertexSize)
  {
    (3 + VertexBytes(count, vertexSize)) % 0x1_0000
  }

  function Fixed(n: nat, need: nat): Verdict {
    if n >= need then Verdict(true, -1, true) else Verdict(false, need, true)
  }

  /**
   * The readiness check over the bytes between the read and the write
   * pointer, given the cached size from the previous check.
   */
  function Check(avail: seq<Byte>, cached: int, sizes: VertexSizes): (v: Verdict)
    ensures |avail| == 0 ==> v == Verdict(false, cached, false)
    ensures cached != -1 && cached > |avail| ==> v == Verdict(false, cached, false)
    ensures v.ready ==> v.cache == -1 && v.peeked && |avail| > 0 && |avail| >= HeaderLength(avail[0])
    ensures !v.peeked ==> !v.ready && v.cache == cached
  {
    var n := |avail|;
    if n == 0 then Verdict(false, cached, false)
    else if cached != -1 && cached > n then Verdict(false, cached, false)
    else
      var cmd := avail[0];
      var c := OpClass(cmd);
      if c == 0 || c == 9 then Verdict(true, -1, true)
      else if c == 1 then Fixed(n, 6)
      else if c == 2 then
        if n >= 5 then
          var size := XfRequired(BE32(avail[1], avail[2], avail[3], avail[4]));
          if n >= size then Verdict(true, -1, true) else Verdict(false, size, true)
        else Verdict(false, 5, true)
      else if 4 <= c <= 7 || c == 12 then Fixed(n, 5)
      else if c == 8 then Fixed(n, 9)
      else if IsDraw(cmd) then
        if n >= 3 then
          var size := DrawRequired(BE16(avail[1], avail[2]), sizes[Vat(cmd)]);
          if n >= size then Verdict(true, -1, true) else Verdict(false, size, true)
        else Verdict(false, 3, true)
      else Verdict(false, cached, true)
  }

  // ---------------------------------------------------------------------
  // Command lengths
  // ---------------------------------------------------------------------

  /** The transfer count of a LOAD_XF control word: `(w >> 16) + 1` stored in a u16. */
  function XfCount(w: U32): (n: U16)
    ensures w / 0x1_0000 < 0xFFFF ==> n == w / 0x1_0000 + 1
    ensures w / 0x1_0000 == 0xFFFF ==> n == 0
  {
    (w / 0x1_0000 + 1) % 0x1_0000
  }

  /** How many header bytes a command of this opcode needs before its length is known. */
  function HeaderLength(cmd: Byte): nat {
    var c := OpClass(cmd);
    if c == 2 then 5
    else if !IsFixedClass(c) && IsDraw(cmd) then 3
    else 1
  }

  /**
   * Fifo_GetCommandLength as written: the LOAD_XF transfer count is masked
   * with `& 15`, and the draw test uses the current command `curCmd`.
   */
  function GetCommandLength(s: seq<Byte>, curCmd: Byte, sizes: VertexSizes): (n: int)
    requires |s| >= 1
    requires OpClass(s[0]) == 2 ==> |s| >= 5
    requires !IsFixedClass(OpClass(s[0])) && OpClass(s[0]) != 2 && IsDraw(curCmd) ==> |s| >= 3
    ensures IsFixedClass(OpClass(s[0])) ==> n == FixedLength(OpClass(s[0]))
    ensures OpClass(s[0]) == 2 ==> 9 <= n <= 69
  {
    var c := OpClass(s[0]);
    if IsFixedClass(c) then FixedLength(c)
    else if c == 2 then
      var w := BE32(s[1], s[2], s[3], s[4]);
      5 + 4 * ((w / 0x1_0000) % 16 + 1)
    else if IsDraw(curCmd) then 3 + VertexBytes(BE16(s[1], s[2]), sizes[Vat(curCmd)])
    else 0
  }

  /**
   * The command length with the LOAD_XF count taken whole, as the oracle
   * and the LOAD_XF handler take it.
   */
  function CommandLength(s: seq<Byte>, curCmd: Byte, sizes: VertexSizes): (n: int)
    requires |s| >= 1
    requires OpClass(s[0]) == 2 ==> |s| >= 5
    requires !IsFixedClass(OpClass(s[0])) && OpClass(s[0]) != 2 && IsDraw(curCmd) ==> |s| >= 3
    ensures IsFixedClass(OpClass(s[0])) ==> n == FixedLength(OpClass(s[0]))
    ensures OpClass(s[0]) == 2 ==> n == 5 + 4 * XfCount(BE32(s[1], s[2], s[3], s[4]))
    ensures n >= 0
  {
    var c := OpClass(s[0]);
    if IsFixedClass(c) then FixedLength(c)
    else if c == 2 then 5 + 4 * XfCount(BE32(s[1], s[2], s[3], s[4]))
    else if IsDraw(curCmd) then 3 + VertexBytes(BE16(s[1], s[2]), sizes[Vat(curCmd)])
    else 0
  }

  // ---------------------------------------------------------------------
  // Byte sources and handler semantics
  // ---------------------------------------------------------------------

  /** A RAM byte; reads outside the modelled RAM give 0. */
  function RamAt(ram: seq<Byte>, a: int): Byte {
    if 0 <= a < |ram| then ram[a] else 0
  }

  /** The byte at display-list offset `off`: RAM[(addr + off) ^ 3], address arithmetic in 32 bits. */
  function DlByte(ram: seq<Byte>, addr: U32, off: nat): Byte {
    RamAt(ram, Xor3((addr + off) % 0x1_0000_0000))
  }

  /**
   * Where pops read from: the primary buffer at a read position, or a
   * display list in RAM at an address and offset.
   */
  datatype Stream =
    | Primary(bytes: seq<Byte>, pos: nat)
    | Nested(ram: seq<Byte>, addr: U32, offset: nat)

  /** The `i`-th byte ahead of the stream's cursor. */
  function At(s: Stream, i: nat): Byte {
    match s
    case Primary(b, p) => if p + i < |b| then b[p + i] else 0
    case Nested(ram, a, o) => DlByte(ram, a, o + i)
  }

  function Word16(s: Stream, i: nat): U16 {
    BE16(At(s, i), At(s, i + 1))
  }

  function Word32(s: Stream, i: nat): U32 {
    BE32(At(s, i), At(s, i + 1), At(s, i + 2), At(s, i + 3))
  }

  /** The same stream advanced by `k` bytes. */
  function Advance(s: Stream, k: nat): Stream {
    match s
    case Primary(b, p) => Primary(b, p + k)
    case Nested(ram, a, o) => Nested(ram, a, o + k)
  }

  lemma AtAdvance(s: Stream, k: nat, i: nat)
    ensures At(Advance(s, k), i) == At(s, k + i)
  {
  }

  lemma AdvanceAdvance(s: Stream, a: nat, b: nat)
    ensures Advance(Advance(s, a), b) == Advance(s, a + b)
  {
  }

  lemma Word16Advance(s: Stream, k: nat)
    ensures Word16(Advance(s, k), 0) == Word16(s, k)
  {
    AtAdvance(s, k, 0); AtAdvance(s, k, 1);
  }

  lemma Word32Advance(s: Stream, k: nat)
    ensures Word32(Advance(s, k), 0) == Word32(s, k)
  {
    AtAdvance(s, k, 0); AtAdvance(s, k, 1); AtAdvance(s, k, 2); AtAdvance(s, k, 3);
  }

  /** What a handler hands to the register and primitive sinks. */
  datatype Event =
    | CpWrite(cpAddr: Byte, data: U32)
    | XfLoad(xfLength: U16, xfAddr: U16, values: seq<U32>)
    | XfLoadIndexed(bank: IndexBank, index: U16, idxLength: Byte, idxAddr: U16)
    | BpWrite(bpAddr: Byte, value: U32)
    | DrawPrimitive(prim: Primitive, count: U16)

  /** The `n` data words of a LOAD_XF that follow its control word. */
  function XfValues(s: Stream, n: nat): (vs: seq<U32>)
    ensures |vs| == n
    ensures forall k :: 0 <= k < n ==> vs[k] == Word32(s, 4 + 4 * k)
  {
    seq(n, k requires 0 <= k => Word32(s, 4 + 4 * k))
  }

  lemma XfValuesSnoc(s: Stream, n: nat)
    ensures XfValues(s, n + 1) == XfValues(s, n) + [Word32(s, 4 + 4 * n)]
  {
    var a, b := XfValues(s, n + 1), XfValues(s, n) + [Word32(s, 4 + 4 * n)];
    forall k | 0 <= k < n + 1
      ensures a[k] == b[k]
    {
      if k < n {
        assert b[k] == XfValues(s, n)[k];
      }
    }
  }

  /** Operand bytes a handler pops and the events it emits. */
  datatype StepResult = StepResult(consumed: nat, events: seq<Event>)

  /**
   * A handler other than CALL_DISPLAYLIST run on the operands at the
   * cursor of `s`; `cmd` is the opcode already popped. A draw hands the
   * primitive to the vertex loader, which reads count x vertex size bytes.
   */
  function Operate(h: Handler, cmd: Byte, s: Stream, sizes: VertexSizes): (r: StepResult)
    requires h != CallDisplayList
    ensures h.Unknown? || h.Nop? || h.InvalidateVertexCache? ==> r == StepResult(0, [])
    ensures h.LoadCpReg? ==> r.consumed == 5
    ensures h.LoadIdx? || h.LoadBpReg? ==> r.consumed == 4
    ensures h.LoadXfReg? ==> r.consumed == 4 + 4 * XfCount(Word32(s, 0))
    ensures |r.events| <= 1
  {
    match h
    case Unknown => StepResult(0, [])
    case Nop => StepResult(0, [])
    case InvalidateVertexCache => StepResult(0, [])
    case LoadCpReg => StepResult(5, [CpWrite(At(s, 0), Word32(s, 1))])
    case LoadXfReg =>
      var w := Word32(s, 0);
      var n := XfCount(w);
      StepResult(4 + 4 * n, [XfLoad(n, w % 0x1_0000, XfValues(s, n))])
    case LoadIdx(bank) =>
      var d := Word16(s, 2);
      StepResult(4, [XfLoadIndexed(bank, Word16(s, 0), d / 0x1000 + 1, d % 0x1000)])
    case LoadBpReg =>
      var w := Word32(s, 0);
      StepResult(4, [BpWrite(w / 0x100_0000, w % 0x100_0000)])
    case Draw(p) =>
      var count := Word16(s, 0);
      StepResult(2 + VertexBytes(count, sizes[Vat(cmd)]), [DrawPrimitive(p, count)])
  }

  /** The outcome of running a display list. */
  datatype ListResult = ListResult(events: seq<Event>, offset: nat, lastCmd: Byte, nested: bool)

  /**
   * The CALL_DISPLAYLIST loop: while the offset is below `size`, pop an
   * opcode from the list and run its handler from the same list. A
   * CALL_DISPLAYLIST met inside a list stops it (`nested`).
   */
  function RunList(table: seq<Handler>, ram: seq<Byte>, addr: U32, size: U32, off: nat,
                   lastCmd: Byte, sizes: VertexSizes): (r: ListResult)
    requires |table| == 32
    ensures r.offset >= off
    ensures r.nested || r.offset >= size
    ensures off >= size ==> r == ListResult([], off, lastCmd, false)
    decreases size - off
  {
    if off >= size then ListResult([], off, lastCmd, false)
    else
      var cmd := DlByte(ram, addr, off);
      var h := table[OpClass(cmd)];
      if h == CallDisplayList then ListResult([], off + 1, cmd, true)
      else
        var r := Operate(h, cmd, Nested(ram, addr, off + 1), sizes);
        var rest := RunList(table, ram, addr, size, off + 1 + r.consumed, cmd, sizes);
        ListResult(r.events + rest.events, rest.offset, rest.lastCmd, rest.nested)
  }
}
