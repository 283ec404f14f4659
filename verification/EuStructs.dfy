/** The 128-bit instruction word and its 64-bit compact form, as the bit-fields of
    `struct brw_instruction` and `struct brw_compact_instruction` lay them out.
    A dword is a number below 2^32; a bit-field is read by dividing by its place
    value and reducing modulo its range, and written by adding at its place value. */
module EuStructs {

  type u32 = x: int | 0 <= x < 0x1_0000_0000

  /** One 8-byte unit of the instruction store. */
  datatype Chunk = Chunk(lo: u32, hi: u32)

  /** A full instruction: header, bits1, bits2 and bits3. */
  datatype Insn = Insn(d0: u32, d1: u32, d2: u32, d3: u32)

  const OPCODE_IF := 34
  const OPCODE_ELSE := 36
  const OPCODE_ENDIF := 37
  const OPCODE_DO := 38
  const OPCODE_WHILE := 39
  const OPCODE_BREAK := 40
  const OPCODE_CONTINUE := 41
  const OPCODE_HALT := 42
  const OPCODE_SEND := 49
  const OPCODE_SENDC := 50
  const OPCODE_NOP := 126

  const IMMEDIATE_VALUE := 3

  // header
  function Opcode(d0: u32): nat { d0 % 0x80 }
  function Control(d0: u32): nat { d0 / 0x100 % 0x1_0000 }
  function ConditionalMod(d0: u32): nat { d0 / 0x100_0000 % 0x10 }
  function AccWrControl(d0: u32): nat { d0 / 0x1000_0000 % 2 }
  predicate CmptControl(d0: u32) { d0 / 0x2000_0000 % 2 == 1 }
  function DebugControl(d0: u32): nat { d0 / 0x4000_0000 % 2 }
  function Saturate(d0: u32): nat { d0 / 0x8000_0000 }

  // bits1
  function Src0RegFile(d1: u32): nat { d1 / 0x20 % 4 }
  function Src1RegFile(d1: u32): nat { d1 / 0x400 % 4 }

  // bits3 of a message send
  predicate EndOfThread(d3: u32) { d3 / 0x8000_0000 == 1 }

  /** The value of a 16-bit two's complement field. */
  function Signed16(x: nat): (v: int)
    requires x < 0x1_0000
    ensures -0x8000 <= v < 0x8000
  {
    if x < 0x8000 then x else x - 0x1_0000
  }

  /** What a store into a signed 16-bit field keeps of a value. */
  function Field16(v: int): (x: nat)
    ensures x < 0x1_0000
  {
    v % 0x1_0000
  }

  lemma Field16RoundTrip(v: int)
    ensures Signed16(Field16(v)) == v <==> -0x8000 <= v < 0x8000
  {
  }

  // bits3.break_cont and bits1.branch_gen6
  function Jip(d3: u32): int { Signed16(d3 % 0x1_0000) }
  function Uip(d3: u32): int { Signed16(d3 / 0x1_0000) }
  function JumpCount(d1: u32): int { Signed16(d1 / 0x1_0000) }
  function BreakCont(jip: int, uip: int): u32 { Field16(jip) + 0x1_0000 * Field16(uip) }
  function WithJip(d3: u32, jip: int): u32 { Field16(jip) + 0x1_0000 * (d3 / 0x1_0000) }
  function WithUip(d3: u32, uip: int): u32 { d3 % 0x1_0000 + 0x1_0000 * Field16(uip) }
  function WithJumpCount(d1: u32, count: int): u32 { d1 % 0x1_0000 + 0x1_0000 * Field16(count) }
}
