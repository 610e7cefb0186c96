/**
 * The opcode decoder of src/chip8/opcode.rs: two memory cells form a big-endian
 * 16-bit word, its four nibbles select an entry of the dispatch table, and the
 * entry is an `Instruction` record (name, operand shape, handler).
 *
 * The masks and shifts of the source (`(w & 0x0F00) >> 8`, `(m1 << 8) | m2`)
 * are written here as division and remainder by powers of two, which is what
 * they compute on unsigned values.
 */
module OpCode {
  import opened Ints

  /** The operand shapes an instruction can carry. */
  datatype Operands =
    | Empty                              // no operands
    | Address(addr: u16)                 // 12-bit address nnn
    | Reg(x: u8)                         // one register name
    | Regs(x: u8, y: u8)                 // two register names
    | RegAndConst(x: u8, k: u8)          // register name and 8-bit constant kk
    | RegsAndConst(x: u8, y: u8, n: u8)  // two register names and 4-bit constant n
  {
    /** Every field is what a nibble-based decoder can produce. */
    predicate InRange() {
      match this
      case Empty => true
      case Address(a) => a < 0x1000
      case Reg(x) => x < 16
      case Regs(x, y) => x < 16 && y < 16
      case RegAndConst(x, _) => x < 16
      case RegsAndConst(x, y, n) => x < 16 && y < 16 && n < 16
    }
  }

  /**
   * The routines of src/chip8/instruction.rs, standing for the function pointer
   * an `Instruction` carries; `Instruction.Exec` maps each to its method.
   */
  datatype Handler =
    | NotImplemented
    | Cls00e0 | Jp1nnn | Sne4xnn | Ld6xkk | Add7xkk
    | Ld8xy0 | Or8xy1 | And8xy2 | Xor8xy3 | Add8xy4
    | LdAnnn | DrwDxyn | AddFx1e | LdFx55 | LdFx65 | LdFx29

  /** A decoded instruction; the datatype constructor plays `Instruction::create`. */
  datatype Instruction = Instruction(code: u16, name: string, operands: Operands, handler: Handler)

  /** `OpCode::from_cells`: `m1` is the high byte, `m2` the low byte. */
  function FromCells(m1: u8, m2: u8): (w: u16)
    ensures w / 0x100 == m1 && w % 0x100 == m2
  {
    m1 * 0x100 + m2
  }

  /** Every word is the combination of its own high and low byte. */
  lemma FromCellsSplits(w: u16)
    ensures FromCells(w / 0x100, w % 0x100) == w
  {
  }

  /** `to_matchtup`: the four nibbles, most significant first. */
  function ToMatchTup(w: u16): (t: (u8, u8, u8, u8))
    ensures t.0 < 16 && t.1 < 16 && t.2 < 16 && t.3 < 16
    ensures t.0 * 0x1000 + t.1 * 0x100 + t.2 * 0x10 + t.3 == w
  {
    NibblesRecombine(w);
    (w / 0x1000, (w / 0x100) % 0x10, (w / 0x10) % 0x10, w % 0x10)
  }

  /** The nibble decomposition of a word, one nibble at a time. */
  lemma NibblesRecombine(w: u16)
    ensures (w / 0x1000) * 0x1000 + ((w / 0x100) % 0x10) * 0x100 + ((w / 0x10) % 0x10) * 0x10 + w % 0x10 == w
  {
    var hi, b, lo := w / 0x100, w % 0x100, w / 0x10;
    assert w == hi * 0x100 + b;
    assert hi == (w / 0x1000) * 0x10 + hi % 0x10;
    assert b == (b / 0x10) * 0x10 + w % 0x10;
    assert b / 0x10 == lo % 0x10;
  }

  /** `decode_addr`: the low 12 bits. */
  function DecodeAddr(w: u16): (o: Operands)
    ensures o.Address? && o.addr < 0x1000
    ensures var t := ToMatchTup(w); o.addr == t.1 * 0x100 + t.2 * 0x10 + t.3
  {
    Address(w % 0x1000)
  }

  /** `decode_reg`: nibble 2 names the register. */
  function DecodeReg(w: u16): (o: Operands)
    ensures o == Reg(ToMatchTup(w).1) && o.InRange()
  {
    Reg((w / 0x100) % 0x10)
  }

  /** `decode_regs`: nibbles 2 and 3 name the registers. */
  function DecodeRegs(w: u16): (o: Operands)
    ensures o == Regs(ToMatchTup(w).1, ToMatchTup(w).2) && o.InRange()
  {
    Regs((w / 0x100) % 0x10, (w / 0x10) % 0x10)
  }

  /** `decode_reg_const`: nibble 2 names the register, the low byte is the constant. */
  function DecodeRegConst(w: u16): (o: Operands)
    ensures var t := ToMatchTup(w); o == RegAndConst(t.1, t.2 * 0x10 + t.3) && o.InRange()
  {
    RegAndConst((w / 0x100) % 0x10, w % 0x100)
  }

  /** `decode_regs_const`: nibbles 2, 3 and 4. */
  function DecodeRegsConst(w: u16): (o: Operands)
    ensures var t := ToMatchTup(w); o == RegsAndConst(t.1, t.2, t.3) && o.InRange()
  {
    RegsAndConst((w / 0x100) % 0x10, (w / 0x10) % 0x10, w % 0x10)
  }

  /** `OpCode::decode`: the dispatch table, arm by arm in the source's order. */
  function Decode(w: u16): (ins: Instruction)
    ensures ins.code == w && ins.operands.InRange()
  {
    match ToMatchTup(w)
    case (0, 0, 0xE, 0x0) => Instruction(w, "CLS", Empty, NotImplemented)
    case (0, 0, 0xE, 0xE) => Instruction(w, "RET", Empty, NotImplemented)
    case (0, _, _, _) => Instruction(w, "SYS", DecodeAddr(w), NotImplemented)
    case (1, _, _, _) => Instruction(w, "JP", DecodeAddr(w), Jp1nnn)
    case (2, _, _, _) => Instruction(w, "CALL", DecodeAddr(w), NotImplemented)
    case (3, _, _, _) => Instruction(w, "SE", DecodeRegConst(w), NotImplemented)
    case (4, _, _, _) => Instruction(w, "SNE", DecodeRegConst(w), NotImplemented)
    case (5, _, _, 0) => Instruction(w, "SE", DecodeRegs(w), NotImplemented)
    case (6, _, _, _) => Instruction(w, "LD", DecodeRegConst(w), Ld6xkk)
    case (7, _, _, _) => Instruction(w, "ADD", DecodeRegConst(w), Add7xkk)
    case (8, _, _, 0) => Instruction(w, "LD", DecodeRegs(w), Ld8xy0)
    case (8, _, _, 1) => Instruction(w, "OR", DecodeRegs(w), Or8xy1)
    case (8, _, _, 2) => Instruction(w, "AND", DecodeRegs(w), And8xy2)
    case (8, _, _, 3) => Instruction(w, "XOR", DecodeRegs(w), Xor8xy3)
    case (8, _, _, 4) => Instruction(w, "ADD", DecodeRegs(w), Add8xy4)
    case (8, _, _, 5) => Instruction(w, "SUB", DecodeRegs(w), NotImplemented)
    case (8, _, _, 6) => Instruction(w, "SHR", DecodeRegs(w), NotImplemented)
    case (8, _, _, 7) => Instruction(w, "SUBN", DecodeRegs(w), NotImplemented)
    case (8, _, _, 0xE) => Instruction(w, "SHL", DecodeRegs(w), NotImplemented)
    case (9, _, _, 0) => Instruction(w, "SNE", DecodeRegs(w), NotImplemented)
    case (0xA, _, _, _) => Instruction(w, "LD", DecodeAddr(w), LdAnnn)
    case (0xB, _, _, _) => Instruction(w, "JP", DecodeAddr(w), NotImplemented)
    case (0xC, _, _, _) => Instruction(w, "RND", DecodeRegConst(w), NotImplemented)
    case (0xD, _, _, _) => Instruction(w, "DRW", DecodeRegsConst(w), NotImplemented)
    case (0xE, _, 9, 0xE) => Instruction(w, "SKP", DecodeReg(w), NotImplemented)
    case (0xE, _, 0xA, 1) => Instruction(w, "SKNP", DecodeReg(w), NotImplemented)
    case (0xF, _, 0, 7) => Instruction(w, "LD", DecodeReg(w), NotImplemented)
    case (0xF, _, 0, 0xA) => Instruction(w, "LD", DecodeReg(w), NotImplemented)
    case (0xF, _, 1, 5) => Instruction(w, "LD", DecodeReg(w), NotImplemented)
    case (0xF, _, 1, 8) => Instruction(w, "LD", DecodeReg(w), NotImplemented)
    case (0xF, _, 1, 0xE) => Instruction(w, "ADD", DecodeReg(w), NotImplemented)
    case (0xF, _, 2, 9) => Instruction(w, "LD", DecodeReg(w), LdFx29)
    case (0xF, _, 3, 3) => Instruction(w, "LD", DecodeReg(w), NotImplemented)
    case (0xF, _, 5, 5) => Instruction(w, "LD", DecodeReg(w), LdFx55)
    case (0xF, _, 6, 5) => Instruction(w, "LD", DecodeReg(w), LdFx65)
    case _ => Instruction(w, "???", Empty, NotImplemented)
  }

  // ------------------------------------------------------------------
  // Reference descriptions of the table, phrased on the word's value
  // ------------------------------------------------------------------

  /** The instruction class: the most significant nibble. */
  function Class(w: u16): nat { w / 0x1000 }

  /** The match tuple read off the word: the class first, the low byte last two. */
  lemma NibbleFacts(w: u16)
    ensures ToMatchTup(w).0 == Class(w)
    ensures ToMatchTup(w).3 == w % 0x10
    ensures ToMatchTup(w).2 * 0x10 + ToMatchTup(w).3 == w % 0x100
  {
  }

  /**
   * The words no arm of the table matches: classes 5 and 9 with a non-zero
   * low nibble, class 8 with low nibble 8..D or F, class E other than x9E and
   * xA1, class F outside the nine listed low bytes.
   */
  predicate Unrecognised(w: u16) {
    var low := w % 0x100;
    var n := w % 0x10;
    || (Class(w) == 5 && n != 0)
    || (Class(w) == 9 && n != 0)
    || (Class(w) == 8 && (8 <= n <= 0xD || n == 0xF))
    || (Class(w) == 0xE && low != 0x9E && low != 0xA1)
    || (Class(w) == 0xF && low !in {0x07, 0x0A, 0x15, 0x18, 0x1E, 0x29, 0x33, 0x55, 0x65})
  }

  /** Decoding is total: exactly the unrecognised words fall to the `"???"` no-op arm. */
  lemma DecodeUnknown(w: u16)
    ensures Decode(w).name == "???" <==> Unrecognised(w)
    ensures Unrecognised(w) ==> Decode(w) == Instruction(w, "???", Empty, NotImplemented)
  {
    NibbleFacts(w);
  }

  /** Class 0: only 00E0 is CLS and only 00EE is RET; every other word is SYS nnn. */
  lemma DecodeClassZero(w: u16)
    requires Class(w) == 0
    ensures Decode(w).handler == NotImplemented
    ensures Decode(w).name == (if w == 0x00E0 then "CLS" else if w == 0x00EE then "RET" else "SYS")
    ensures Decode(w).operands == (if w == 0x00E0 || w == 0x00EE then Empty else Address(w))
  {
    NibbleFacts(w);
  }

  /** The handler each word is routed to: only nine arms reach an implemented routine. */
  function Routed(w: u16): Handler {
    var low := w % 0x100;
    var n := w % 0x10;
    if Class(w) == 1 then Jp1nnn
    else if Class(w) == 6 then Ld6xkk
    else if Class(w) == 7 then Add7xkk
    else if Class(w) == 8 && n == 0 then Ld8xy0
    else if Class(w) == 8 && n == 1 then Or8xy1
    else if Class(w) == 8 && n == 2 then And8xy2
    else if Class(w) == 8 && n == 3 then Xor8xy3
    else if Class(w) == 8 && n == 4 then Add8xy4
    else if Class(w) == 0xA then LdAnnn
    else if Class(w) == 0xF && low == 0x29 then LdFx29
    else if Class(w) == 0xF && low == 0x55 then LdFx55
    else if Class(w) == 0xF && low == 0x65 then LdFx65
    else NotImplemented
  }

  /** The dispatch table routes every word to `Routed(w)`; CLS, SNE, DRW and Fx1E are not routed. */
  lemma DecodeRouting(w: u16)
    ensures Decode(w).handler == Routed(w)
    ensures Decode(w).handler !in {Cls00e0, Sne4xnn, DrwDxyn, AddFx1e}
  {
    NibbleFacts(w);
  }

  /** The operand shape of every recognised word outside class 0 follows its class. */
  function Shape(w: u16): Operands {
    var x, y := (w / 0x100) % 0x10, (w / 0x10) % 0x10;
    match Class(w)
    case 1 | 2 | 0xA | 0xB => Address(w % 0x1000)
    case 3 | 4 | 6 | 7 | 0xC => RegAndConst(x, w % 0x100)
    case 5 | 8 | 9 => Regs(x, y)
    case 0xD => RegsAndConst(x, y, w % 0x10)
    case _ => Reg(x)
  }

  /** Recognised words of classes 1..F carry the operands `Shape` gives them. */
  lemma DecodeOperands(w: u16)
    requires Class(w) != 0 && !Unrecognised(w)
    ensures Decode(w).operands == Shape(w)
  {
    NibbleFacts(w);
  }

  /** Worked examples of the table. */
  lemma DecodeExamples()
    ensures Decode(0x00E0).name == "CLS" && Decode(0x00EE).name == "RET"
    ensures Decode(0x5121).name == "???" && Decode(0x5120).name == "SE"
    ensures Decode(0xD125) == Instruction(0xD125, "DRW", RegsAndConst(1, 2, 5), NotImplemented)
    ensures Decode(0x600A) == Instruction(0x600A, "LD", RegAndConst(0, 0x0A), Ld6xkk)
  {
  }
}
