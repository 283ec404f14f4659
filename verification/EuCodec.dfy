/** Instruction compaction: sixteen bytes to eight and back, through the index
    tables of the generation. */
module EuCodec {
  import opened Options
  import opened Digits
  import opened EuStructs

  type IndexTable = t: seq<nat> | |t| == 32 && forall i | 0 <= i < 32 :: t[i] < 0x8_0000
    witness seq(32, _ => 0)

  type SrcTable = t: seq<nat> | |t| == 32 && forall i | 0 <= i < 32 :: t[i] < 0x1000
    witness seq(32, _ => 0)

  /** The generations that have compaction tables. */
  type Gen = g: int | g == 6 || g == 7 witness 6

  const GEN6_CONTROL_INDEX_TABLE: IndexTable := [
    0x00000, 0x08000, 0x06000, 0x00100, 0x02000, 0x01100, 0x00102, 0x00002,
    0x08100, 0x0a000, 0x16000, 0x04000, 0x1a000, 0x18000, 0x09100, 0x08008,
    0x08004, 0x00008, 0x00004, 0x07100, 0x01102, 0x06100, 0x06001, 0x04001,
    0x06002, 0x06005, 0x06009, 0x06010, 0x06003, 0x06004, 0x06108, 0x04009
  ]

  const GEN6_DATATYPE_TABLE: IndexTable := [
    0x09c00, 0x08c20, 0x09c01, 0x08060, 0x0ad29, 0x081ad, 0x0c62c, 0x0bdad,
    0x081ec, 0x08061, 0x08ca5, 0x08041, 0x08231, 0x08229, 0x08020, 0x08232,
    0x0a529, 0x0b4a5, 0x081a5, 0x0c629, 0x0b62c, 0x0b5a5, 0x0bda5, 0x0f7bd,
    0x0f7bc, 0x0f7bd, 0x0f79d, 0x0f7be, 0x08021, 0x08022, 0x09fdd, 0x083be
  ]

  const GEN6_SUBREG_TABLE: IndexTable := [
    0x00000, 0x00004, 0x00180, 0x07000, 0x03c08, 0x00400, 0x00010, 0x00c0c,
    0x01000, 0x00200, 0x00294, 0x00056, 0x02000, 0x06000, 0x00800, 0x00080,
    0x00008, 0x04000, 0x00280, 0x01400, 0x01800, 0x00054, 0x05a94, 0x02800,
    0x0008f, 0x03000, 0x07c00, 0x05000, 0x0000f, 0x0088f, 0x0108f, 0x00c00
  ]

  const GEN6_SRC_INDEX_TABLE: SrcTable := [
    0x00000, 0x00588, 0x00468, 0x00228, 0x00690, 0x00120, 0x0046c, 0x00570,
    0x00678, 0x00328, 0x0058c, 0x00220, 0x0058a, 0x00002, 0x00550, 0x00568,
    0x00f4c, 0x00f2c, 0x00670, 0x00589, 0x00558, 0x00348, 0x0042c, 0x00400,
    0x00370, 0x00310, 0x00300, 0x0046a, 0x00378, 0x00070, 0x00320, 0x00350
  ]

  const GEN7_CONTROL_INDEX_TABLE: IndexTable := [
    0x00002, 0x04000, 0x04001, 0x04002, 0x04003, 0x04004, 0x04005, 0x04007,
    0x04008, 0x04009, 0x0400d, 0x06000, 0x06001, 0x06002, 0x06003, 0x06004,
    0x06005, 0x06007, 0x06009, 0x0600d, 0x06010, 0x06100, 0x08000, 0x08002,
    0x08004, 0x08100, 0x16000, 0x16010, 0x18000, 0x18100, 0x28000, 0x28100
  ]

  const GEN7_DATATYPE_TABLE: IndexTable := [
    0x08001, 0x08020, 0x08021, 0x08061, 0x080bd, 0x082fd, 0x083a1, 0x083a5,
    0x083bd, 0x08421, 0x08c20, 0x08c21, 0x094a5, 0x09ca4, 0x09ca5, 0x0f3bd,
    0x0f79d, 0x0f7bc, 0x0f7bd, 0x0ffbc, 0x0020c, 0x0803d, 0x080a5, 0x08420,
    0x094a4, 0x09c84, 0x0a509, 0x0dfbd, 0x0ffbd, 0x0bdac, 0x0a528, 0x0ad28
  ]

  const GEN7_SUBREG_TABLE: IndexTable := [
    0x00000, 0x00001, 0x00008, 0x0000f, 0x00010, 0x00080, 0x00100, 0x00180,
    0x00200, 0x00210, 0x00500, 0x01000, 0x01001, 0x01081, 0x01082, 0x01083,
    0x01084, 0x01087, 0x01088, 0x0108e, 0x0108f, 0x01180, 0x011e8, 0x02000,
    0x02180, 0x03000, 0x03c87, 0x04000, 0x05000, 0x06000, 0x07000, 0x0701c
  ]

  const GEN7_SRC_INDEX_TABLE: SrcTable := [
    0x00000, 0x00002, 0x00010, 0x00012, 0x00018, 0x00020, 0x00028, 0x00048,
    0x00050, 0x00070, 0x00078, 0x00300, 0x00302, 0x00308, 0x00310, 0x00312,
    0x00320, 0x00328, 0x00338, 0x00340, 0x00342, 0x00348, 0x00350, 0x00360,
    0x00368, 0x00370, 0x00371, 0x00378, 0x00468, 0x00469, 0x0046a, 0x00588
  ]

  function ControlTable(gen: Gen): IndexTable {
    if gen == 7 then GEN7_CONTROL_INDEX_TABLE else GEN6_CONTROL_INDEX_TABLE
  }

  function DatatypeTable(gen: Gen): IndexTable {
    if gen == 7 then GEN7_DATATYPE_TABLE else GEN6_DATATYPE_TABLE
  }

  function SubregTable(gen: Gen): IndexTable {
    if gen == 7 then GEN7_SUBREG_TABLE else GEN6_SUBREG_TABLE
  }

  function SrcIndexTable(gen: Gen): SrcTable {
    if gen == 7 then GEN7_SRC_INDEX_TABLE else GEN6_SRC_INDEX_TABLE
  }

  /** The bit-fields of struct brw_compact_instruction. */
  datatype Fields = Fields(
    opcode: nat, debug: nat, control: nat, datatype_: nat, subreg: nat, acc: nat,
    cond: nat, flag: nat, cmpt: nat, src0: nat, src1: nat,
    dstReg: nat, src0Reg: nat, src1Reg: nat)
  {
    predicate InRange() {
      && opcode < 0x80 && debug < 2 && control < 32 && datatype_ < 32 && subreg < 32
      && acc < 2 && cond < 0x10 && flag < 2 && cmpt < 2 && src0 < 32 && src1 < 32
      && dstReg < 0x100 && src0Reg < 0x100 && src1Reg < 0x100
    }
  }

  function Pack(f: Fields): Chunk
    requires f.InRange()
  {
    Chunk(
      f.opcode + 0x80 * f.debug + 0x100 * f.control + 0x2000 * f.datatype_ + 0x4_0000 * f.subreg
      + 0x80_0000 * f.acc + 0x100_0000 * f.cond + 0x1000_0000 * f.flag + 0x2000_0000 * f.cmpt
      + 0x4000_0000 * (f.src0 % 4),
      f.src0 / 4 + 8 * f.src1 + 0x100 * f.dstReg + 0x1_0000 * f.src0Reg + 0x100_0000 * f.src1Reg)
  }

  function Unpack(c: Chunk): (f: Fields)
    ensures f.InRange()
  {
    Fields(
      c.lo % 0x80, c.lo / 0x80 % 2, c.lo / 0x100 % 32, c.lo / 0x2000 % 32, c.lo / 0x4_0000 % 32,
      c.lo / 0x80_0000 % 2, c.lo / 0x100_0000 % 0x10, c.lo / 0x1000_0000 % 2, c.lo / 0x2000_0000 % 2,
      c.lo / 0x4000_0000 + 4 * (c.hi % 8), c.hi / 8 % 32,
      c.hi / 0x100 % 0x100, c.hi / 0x1_0000 % 0x100, c.hi / 0x100_0000)
  }

  lemma LowFields(x: nat, o: nat, d: nat, c: nat, t: nat, s: nat, a: nat, n: nat, f: nat, m: nat, z: nat)
    requires o < 0x80 && d < 2 && c < 32 && t < 32 && s < 32 && a < 2 && n < 0x10 && f < 2 && m < 2
    requires x == o + 0x80 * d + 0x100 * c + 0x2000 * t + 0x4_0000 * s + 0x80_0000 * a
                  + 0x100_0000 * n + 0x1000_0000 * f + 0x2000_0000 * m + 0x4000_0000 * z
    ensures x % 0x80 == o && x / 0x80 % 2 == d && x / 0x100 % 32 == c && x / 0x2000 % 32 == t
    ensures x / 0x4_0000 % 32 == s && x / 0x80_0000 % 2 == a && x / 0x100_0000 % 0x10 == n
    ensures x / 0x1000_0000 % 2 == f && x / 0x2000_0000 % 2 == m && x / 0x4000_0000 == z
  {
    var r8 := m + 2 * z;
    var r7 := f + 2 * r8;
    var r6 := n + 0x10 * r7;
    var r5 := a + 2 * r6;
    var r4 := s + 0x20 * r5;
    var r3 := t + 0x20 * r4;
    var r2 := c + 0x20 * r3;
    var r1 := d + 2 * r2;
    DivUnique(x, 0x80, r1, o);
    DivUnique(r1, 2, r2, d);
    DivUnique(x, 0x100, r2, o + 0x80 * d);
    DivUnique(r2, 0x20, r3, c);
    DivUnique(x, 0x2000, r3, o + 0x80 * d + 0x100 * c);
    DivUnique(r3, 0x20, r4, t);
    DivUnique(x, 0x4_0000, r4, o + 0x80 * d + 0x100 * c + 0x2000 * t);
    DivUnique(r4, 0x20, r5, s);
    var low5 := o + 0x80 * d + 0x100 * c + 0x2000 * t + 0x4_0000 * s;
    DivUnique(x, 0x80_0000, r5, low5);
    DivUnique(r5, 2, r6, a);
    DivUnique(x, 0x100_0000, r6, low5 + 0x80_0000 * a);
    DivUnique(r6, 0x10, r7, n);
    var low7 := low5 + 0x80_0000 * a + 0x100_0000 * n;
    DivUnique(x, 0x1000_0000, r7, low7);
    DivUnique(r7, 2, r8, f);
    DivUnique(x, 0x2000_0000, r8, low7 + 0x1000_0000 * f);
    DivUnique(r8, 2, z, m);
    DivUnique(x, 0x4000_0000, z, low7 + 0x1000_0000 * f + 0x2000_0000 * m);
  }

  lemma HighFields(x: nat, s0: nat, s1: nat, d: nat, r0: nat, r1: nat)
    requires s0 < 8 && s1 < 32 && d < 0x100 && r0 < 0x100
    requires x == s0 + 8 * s1 + 0x100 * d + 0x1_0000 * r0 + 0x100_0000 * r1
    ensures x % 8 == s0 && x / 8 % 32 == s1 && x / 0x100 % 0x100 == d && x / 0x1_0000 % 0x100 == r0
    ensures x / 0x100_0000 == r1
  {
    DivUnique(x, 8, s1 + 32 * d + 0x2000 * r0 + 0x20_0000 * r1, s0);
    DivUnique(s1 + 32 * d + 0x2000 * r0 + 0x20_0000 * r1, 32, d + 0x100 * r0 + 0x1_0000 * r1, s1);
    DivUnique(x, 0x100, d + 0x100 * r0 + 0x1_0000 * r1, s0 + 8 * s1);
    DivUnique(d + 0x100 * r0 + 0x1_0000 * r1, 0x100, r0 + 0x100 * r1, d);
    DivUnique(x, 0x1_0000, r0 + 0x100 * r1, s0 + 8 * s1 + 0x100 * d);
    DivUnique(r0 + 0x100 * r1, 0x100, r1, r0);
    DivUnique(x, 0x100_0000, r1, s0 + 8 * s1 + 0x100 * d + 0x1_0000 * r0);
  }

  lemma UnpackPack(f: Fields)
    requires f.InRange()
    ensures Unpack(Pack(f)) == f
  {
    var c := Pack(f);
    LowFields(c.lo, f.opcode, f.debug, f.control, f.datatype_, f.subreg, f.acc, f.cond, f.flag, f.cmpt, f.src0 % 4);
    HighFields(c.hi, f.src0 / 4, f.src1, f.dstReg, f.src0Reg, f.src1Reg);
  }

  lemma PackUnpack(c: Chunk)
    ensures Pack(Unpack(c)) == c
  {
    DivTwice(c.lo, 0x80, 2);
    DivTwice(c.lo, 0x100, 0x20);
    DivTwice(c.lo, 0x2000, 0x20);
    DivTwice(c.lo, 0x4_0000, 0x20);
    DivTwice(c.lo, 0x80_0000, 2);
    DivTwice(c.lo, 0x100_0000, 0x10);
    DivTwice(c.lo, 0x1000_0000, 2);
    DivTwice(c.lo, 0x2000_0000, 2);
    DivTwice(c.hi, 8, 32);
    DivTwice(c.hi, 0x100, 0x100);
    DivTwice(c.hi, 0x1_0000, 0x100);
    var f := Unpack(c);
    DivUnique(f.src0, 4, c.hi % 8, c.lo / 0x4000_0000);
  }

  /** First position of a value in an index table, or -1. */
  function FirstIndex(table: seq<nat>, value: nat, from: nat := 0): (r: int)
    requires from <= |table|
    ensures r == -1 || from <= r < |table|
    ensures r >= 0 ==> table[r] == value && forall j | from <= j < r :: table[j] != value
    ensures r == -1 ==> forall j | from <= j < |table| :: table[j] != value
    decreases |table| - from
  {
    if from == |table| then -1
    else if table[from] == value then from
    else FirstIndex(table, value, from + 1)
  }

  method FindIndex(table: seq<nat>, value: nat) returns (r: int)
    requires |table| == 32
    ensures r == FirstIndex(table, value)
  {
    for i := 0 to 32
      invariant FirstIndex(table, value) == FirstIndex(table, value, i)
    {
      if table[i] == value {
        return i;
      }
    }
    r := -1;
  }

  // The values the tables are searched for.

  function ControlKey(gen: Gen, i: Insn): nat {
    Control(i.d0) + 0x1_0000 * Saturate(i.d0) + if gen == 7 then 0x2_0000 * (i.d2 / 0x200_0000 % 4) else 0
  }

  function DatatypeKey(i: Insn): nat {
    i.d1 % 0x8000 + 0x8000 * (i.d1 / 0x2000_0000)
  }

  function SubregKey(i: Insn): nat {
    i.d1 / 0x1_0000 % 32 + 0x20 * (i.d2 % 32) + 0x400 * (i.d3 % 32)
  }

  function Src0Key(i: Insn): nat {
    i.d2 / 0x2000 % 0x1000
  }

  function Src1Key(i: Insn): nat {
    i.d3 / 0x2000 % 0x1000
  }

  /** Flow control that compaction leaves alone. */
  predicate RefusedOpcode(op: nat) {
    || op == OPCODE_IF || op == OPCODE_ELSE || op == OPCODE_ENDIF
    || op == OPCODE_HALT || op == OPCODE_DO || op == OPCODE_WHILE
  }

  predicate HasImmediate(i: Insn) {
    Src0RegFile(i.d1) == IMMEDIATE_VALUE || Src1RegFile(i.d1) == IMMEDIATE_VALUE
  }

  /** The compact fields of an instruction, when each of its index keys is in its table. */
  function CompactFields(gen: Gen, i: Insn): Option<Fields> {
    if RefusedOpcode(Opcode(i.d0)) || HasImmediate(i) then None
    else
      var control := FirstIndex(ControlTable(gen), ControlKey(gen, i));
      var datatype_ := FirstIndex(DatatypeTable(gen), DatatypeKey(i));
      var subreg := FirstIndex(SubregTable(gen), SubregKey(i));
      var src0 := FirstIndex(SrcIndexTable(gen), Src0Key(i));
      var src1 := FirstIndex(SrcIndexTable(gen), Src1Key(i));
      if control < 0 || datatype_ < 0 || subreg < 0 || src0 < 0 || src1 < 0 then None
      else Some(Fields(
        Opcode(i.d0), DebugControl(i.d0), control, datatype_, subreg, AccWrControl(i.d0),
        ConditionalMod(i.d0), if gen == 6 then i.d2 / 0x200_0000 % 2 else 0, 1, src0, src1,
        i.d1 / 0x20_0000 % 0x100, i.d2 / 0x20 % 0x100, i.d3 / 0x20 % 0x100))
  }

  function TryCompact(gen: Gen, i: Insn): (r: Option<Chunk>)
    ensures r.Some? ==> CmptControl(r.value.lo) && Opcode(r.value.lo) == Opcode(i.d0)
  {
    var f := CompactFields(gen, i);
    if f.None? then None
    else
      UnpackPack(f.value);
      Some(Pack(f.value))
  }

  // The dwords of an uncompacted instruction.

  function UncompactHeader(gen: Gen, f: Fields): u32
    requires f.InRange()
  {
    var control := ControlTable(gen)[f.control];
    f.opcode + 0x100 * (control % 0x1_0000) + 0x100_0000 * f.cond + 0x1000_0000 * f.acc
    + 0x4000_0000 * f.debug + 0x8000_0000 * (control / 0x1_0000 % 2)
  }

  function UncompactBits1(gen: Gen, f: Fields): u32
    requires f.InRange()
  {
    var datatype_ := DatatypeTable(gen)[f.datatype_];
    datatype_ % 0x8000 + 0x1_0000 * (SubregTable(gen)[f.subreg] % 32) + 0x20_0000 * f.dstReg
    + 0x2000_0000 * (datatype_ / 0x8000 % 8)
  }

  function UncompactBits2(gen: Gen, f: Fields): u32
    requires f.InRange()
  {
    SubregTable(gen)[f.subreg] / 32 % 32 + 0x20 * f.src0Reg + 0x2000 * SrcIndexTable(gen)[f.src0]
    + 0x200_0000 * (if gen == 7 then ControlTable(gen)[f.control] / 0x2_0000 % 4 else f.flag)
  }

  function UncompactBits3(gen: Gen, f: Fields): u32
    requires f.InRange()
  {
    SubregTable(gen)[f.subreg] / 0x400 % 32 + 0x20 * f.src1Reg + 0x2000 * SrcIndexTable(gen)[f.src1]
  }

  function Uncompact(gen: Gen, c: Chunk): Insn {
    var f := Unpack(c);
    Insn(UncompactHeader(gen, f), UncompactBits1(gen, f), UncompactBits2(gen, f), UncompactBits3(gen, f))
  }

  /** An instruction without the bits that have no place in the compact form. */
  function ClearUnencoded(gen: Gen, i: Insn): Insn {
    Insn(
      i.d0 - 0x80 * (i.d0 / 0x80 % 2) - 0x2000_0000 * (i.d0 / 0x2000_0000 % 2),
      i.d1 - 0x8000 * (i.d1 / 0x8000 % 2),
      if gen == 6 then i.d2 % 0x400_0000 else i.d2 % 0x800_0000,
      i.d3 % 0x200_0000)
  }

  lemma HeaderSplit(x: nat)
    ensures x == x % 0x80 + 0x80 * (x / 0x80 % 2) + 0x100 * (x / 0x100 % 0x1_0000)
                 + 0x100_0000 * (x / 0x100_0000 % 0x10) + 0x1000_0000 * (x / 0x1000_0000 % 2)
                 + 0x2000_0000 * (x / 0x2000_0000 % 2) + 0x4000_0000 * (x / 0x4000_0000 % 2)
                 + 0x8000_0000 * (x / 0x8000_0000)
  {
    DivTwice(x, 0x80, 2);
    DivTwice(x, 0x100, 0x1_0000);
    DivTwice(x, 0x100_0000, 0x10);
    DivTwice(x, 0x1000_0000, 2);
    DivTwice(x, 0x2000_0000, 2);
    DivTwice(x, 0x4000_0000, 2);
  }

  lemma Bits1Split(x: nat)
    ensures x == x % 0x8000 + 0x8000 * (x / 0x8000 % 2) + 0x1_0000 * (x / 0x1_0000 % 32)
                 + 0x20_0000 * (x / 0x20_0000 % 0x100) + 0x2000_0000 * (x / 0x2000_0000)
  {
    DivTwice(x, 0x8000, 2);
    DivTwice(x, 0x1_0000, 32);
    DivTwice(x, 0x20_0000, 0x100);
  }

  lemma OperandSplit(x: nat)
    ensures x == x % 32 + 0x20 * (x / 0x20 % 0x100) + 0x2000 * (x / 0x2000 % 0x1000)
                 + 0x200_0000 * (x / 0x200_0000)
  {
    DivTwice(x, 0x20, 0x100);
    DivTwice(x, 0x2000, 0x1000);
  }

  lemma ControlParts(gen: Gen, i: Insn)
    ensures ControlKey(gen, i) % 0x1_0000 == Control(i.d0)
    ensures ControlKey(gen, i) / 0x1_0000 % 2 == Saturate(i.d0)
    ensures gen == 7 ==> ControlKey(gen, i) / 0x2_0000 % 4 == i.d2 / 0x200_0000 % 4
  {
    var key, flag := ControlKey(gen, i), if gen == 7 then i.d2 / 0x200_0000 % 4 else 0;
    DivUnique(key, 0x1_0000, Saturate(i.d0) + 2 * flag, Control(i.d0));
    DivUnique(Saturate(i.d0) + 2 * flag, 2, flag, Saturate(i.d0));
    DivUnique(key, 0x2_0000, flag, Control(i.d0) + 0x1_0000 * Saturate(i.d0));
  }

  lemma DatatypeParts(i: Insn)
    ensures DatatypeKey(i) % 0x8000 == i.d1 % 0x8000
    ensures DatatypeKey(i) / 0x8000 % 8 == i.d1 / 0x2000_0000
  {
    DivUnique(DatatypeKey(i), 0x8000, i.d1 / 0x2000_0000, i.d1 % 0x8000);
  }

  lemma SubregParts(i: Insn)
    ensures SubregKey(i) % 32 == i.d1 / 0x1_0000 % 32
    ensures SubregKey(i) / 32 % 32 == i.d2 % 32
    ensures SubregKey(i) / 0x400 % 32 == i.d3 % 32
  {
    var dst, src0, src1 := i.d1 / 0x1_0000 % 32, i.d2 % 32, i.d3 % 32;
    DivUnique(SubregKey(i), 32, src0 + 0x20 * src1, dst);
    DivUnique(src0 + 0x20 * src1, 32, src1, src0);
    DivUnique(SubregKey(i), 0x400, src1, dst + 0x20 * src0);
  }

  /** Keeping 27 or 26 bits of a dword keeps two or one of the bits from 25 up. */
  lemma FlagBits(x: nat, low: nat, high: nat)
    requires low < 0x200_0000 && x == low + 0x200_0000 * high
    ensures x % 0x800_0000 == low + 0x200_0000 * (high % 4)
    ensures x % 0x400_0000 == low + 0x200_0000 * (high % 2)
    ensures x % 0x200_0000 == low
  {
    DivUnique(x, 0x800_0000, high / 4, low + 0x200_0000 * (high % 4));
    DivUnique(x, 0x400_0000, high / 2, low + 0x200_0000 * (high % 2));
    DivUnique(x, 0x200_0000, high, low);
  }

  lemma OperandBits(x: nat)
    ensures var low := x % 32 + 0x20 * (x / 0x20 % 0x100) + 0x2000 * (x / 0x2000 % 0x1000);
            && x % 0x800_0000 == low + 0x200_0000 * (x / 0x200_0000 % 4)
            && x % 0x400_0000 == low + 0x200_0000 * (x / 0x200_0000 % 2)
            && x % 0x200_0000 == low
  {
    OperandSplit(x);
    FlagBits(x, x % 32 + 0x20 * (x / 0x20 % 0x100) + 0x2000 * (x / 0x2000 % 0x1000), x / 0x200_0000);
  }

  lemma HeaderRoundTrip(gen: Gen, i: Insn, f: Fields)
    requires f.InRange() && ControlTable(gen)[f.control] == ControlKey(gen, i)
    requires f.opcode == Opcode(i.d0) && f.cond == ConditionalMod(i.d0) && f.acc == AccWrControl(i.d0)
    requires f.debug == DebugControl(i.d0)
    ensures UncompactHeader(gen, f) == ClearUnencoded(gen, i).d0
  {
    HeaderSplit(i.d0);
    ControlParts(gen, i);
  }

  lemma Bits1RoundTrip(gen: Gen, i: Insn, f: Fields)
    requires f.InRange() && f.dstReg == i.d1 / 0x20_0000 % 0x100
    requires DatatypeTable(gen)[f.datatype_] == DatatypeKey(i) && SubregTable(gen)[f.subreg] == SubregKey(i)
    ensures UncompactBits1(gen, f) == ClearUnencoded(gen, i).d1
  {
    Bits1Split(i.d1);
    DatatypeParts(i);
    SubregParts(i);
  }

  lemma Bits2RoundTrip(gen: Gen, i: Insn, f: Fields)
    requires f.InRange() && f.src0Reg == i.d2 / 0x20 % 0x100
    requires SrcIndexTable(gen)[f.src0] == Src0Key(i) && SubregTable(gen)[f.subreg] == SubregKey(i)
    requires ControlTable(gen)[f.control] == ControlKey(gen, i) && (gen == 6 ==> f.flag == i.d2 / 0x200_0000 % 2)
    ensures UncompactBits2(gen, f) == ClearUnencoded(gen, i).d2
  {
    OperandBits(i.d2);
    SubregParts(i);
    ControlParts(gen, i);
  }

  lemma Bits3RoundTrip(gen: Gen, i: Insn, f: Fields)
    requires f.InRange() && f.src1Reg == i.d3 / 0x20 % 0x100
    requires SrcIndexTable(gen)[f.src1] == Src1Key(i) && SubregTable(gen)[f.subreg] == SubregKey(i)
    ensures UncompactBits3(gen, f) == ClearUnencoded(gen, i).d3
  {
    OperandBits(i.d3);
    SubregParts(i);
  }

  /** An accepted instruction comes back with exactly the unencoded bits cleared, whichever of
      two equal table entries the search met first. */
  lemma CompactRoundTrip(gen: Gen, i: Insn)
    requires TryCompact(gen, i).Some?
    ensures Uncompact(gen, TryCompact(gen, i).value) == ClearUnencoded(gen, i)
    ensures var u := Uncompact(gen, TryCompact(gen, i).value);
            && u.d0 == i.d0 - 0x80 * (i.d0 / 0x80 % 2) - 0x2000_0000 * (i.d0 / 0x2000_0000 % 2)
            && u.d1 == i.d1 - 0x8000 * (i.d1 / 0x8000 % 2)
            && u.d2 == i.d2 % (if gen == 6 then 0x400_0000 else 0x800_0000)
            && u.d3 == i.d3 % 0x200_0000
  {
    hide UncompactHeader, UncompactBits1, UncompactBits2, UncompactBits3, Pack, Unpack;
    var f := CompactFields(gen, i).value;
    UnpackPack(f);
    HeaderRoundTrip(gen, i, f);
    Bits1RoundTrip(gen, i, f);
    Bits2RoundTrip(gen, i, f);
    Bits3RoundTrip(gen, i, f);
  }

  /** Whether the parts of an instruction that have no place of their own in the compact form are in
      the given tables.  high are the control bits above the seventeenth. */
  predicate InTables(i: Insn, high: nat, control: seq<nat>, datatype_: seq<nat>, subreg: seq<nat>, src: seq<nat>) {
    && i.d0 / 0x100 % 0x1_0000 + 0x1_0000 * (i.d0 / 0x8000_0000) + 0x2_0000 * high in control
    && i.d1 % 0x8000 + 0x8000 * (i.d1 / 0x2000_0000) in datatype_
    && i.d1 / 0x1_0000 % 0x20 + 0x20 * (i.d2 % 0x20) + 0x400 * (i.d3 % 0x20) in subreg
    && i.d2 / 0x2000 % 0x1000 in src
    && i.d3 / 0x2000 % 0x1000 in src
  }

  lemma KeysInTables(gen: Gen, i: Insn, high: nat, control: seq<nat>, datatype_: seq<nat>, subreg: seq<nat>,
                     src: seq<nat>)
    requires ControlTable(gen) == control && DatatypeTable(gen) == datatype_
    requires SubregTable(gen) == subreg && SrcIndexTable(gen) == src
    requires high == if gen == 7 then i.d2 / 0x200_0000 % 4 else 0
    ensures TryCompact(gen, i).Some? <==>
              !RefusedOpcode(Opcode(i.d0)) && !HasImmediate(i) && InTables(i, high, control, datatype_, subreg, src)
  {
    hide ControlTable, DatatypeTable, SubregTable, SrcIndexTable, Pack, RefusedOpcode, HasImmediate;
  }

  /** Which instructions are accepted, in their bits: those that are none of the six flow-control
      opcodes, have no immediate in either source, and have all five keys in the tables of the generation. */
  lemma AcceptedExactly(i: Insn)
    ensures TryCompact(6, i).Some? <==>
              && i.d0 % 0x80 !in {34, 36, 37, 38, 39, 42} && i.d1 / 0x20 % 4 != 3 && i.d1 / 0x400 % 4 != 3
              && InTables(i, 0, GEN6_CONTROL_INDEX_TABLE, GEN6_DATATYPE_TABLE, GEN6_SUBREG_TABLE, GEN6_SRC_INDEX_TABLE)
    ensures TryCompact(7, i).Some? <==>
              && i.d0 % 0x80 !in {34, 36, 37, 38, 39, 42} && i.d1 / 0x20 % 4 != 3 && i.d1 / 0x400 % 4 != 3
              && InTables(i, i.d2 / 0x200_0000 % 4, GEN7_CONTROL_INDEX_TABLE, GEN7_DATATYPE_TABLE, GEN7_SUBREG_TABLE,
                          GEN7_SRC_INDEX_TABLE)
  {
    hide TryCompact, InTables;
    KeysInTables(6, i, 0, GEN6_CONTROL_INDEX_TABLE, GEN6_DATATYPE_TABLE, GEN6_SUBREG_TABLE, GEN6_SRC_INDEX_TABLE);
    KeysInTables(7, i, i.d2 / 0x200_0000 % 4, GEN7_CONTROL_INDEX_TABLE, GEN7_DATATYPE_TABLE, GEN7_SUBREG_TABLE,
                 GEN7_SRC_INDEX_TABLE);
  }

  /** Where the compact form has what, in its bits: every part of the accepted instruction is in its
      place, or at its place in the table that the bits of the form index. */
  lemma CompactBits(gen: Gen, i: Insn)
    requires TryCompact(gen, i).Some?
    ensures var c := TryCompact(gen, i).value;
            && c.lo % 0x80 == i.d0 % 0x80
            && c.lo / 0x80 % 2 == i.d0 / 0x4000_0000 % 2
            && ControlTable(gen)[c.lo / 0x100 % 32] == ControlKey(gen, i)
            && DatatypeTable(gen)[c.lo / 0x2000 % 32] == DatatypeKey(i)
            && SubregTable(gen)[c.lo / 0x4_0000 % 32] == SubregKey(i)
            && c.lo / 0x80_0000 % 2 == i.d0 / 0x1000_0000 % 2
            && c.lo / 0x100_0000 % 0x10 == i.d0 / 0x100_0000 % 0x10
            && c.lo / 0x1000_0000 % 2 == (if gen == 6 then i.d2 / 0x200_0000 % 2 else 0)
            && c.lo / 0x2000_0000 % 2 == 1
            && SrcIndexTable(gen)[c.lo / 0x4000_0000 + 4 * (c.hi % 8)] == i.d2 / 0x2000 % 0x1000
            && SrcIndexTable(gen)[c.hi / 8 % 32] == i.d3 / 0x2000 % 0x1000
            && c.hi / 0x100 % 0x100 == i.d1 / 0x20_0000 % 0x100
            && c.hi / 0x1_0000 % 0x100 == i.d2 / 0x20 % 0x100
            && c.hi / 0x100_0000 == i.d3 / 0x20 % 0x100
  {
    hide ControlKey, DatatypeKey, SubregKey, ControlTable, DatatypeTable, SubregTable, SrcIndexTable, Pack;
    UnpackPack(CompactFields(gen, i).value);
  }
}
