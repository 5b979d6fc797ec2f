/** The opcode switch that both 6510 cores list case by case, and its agreement with the decoder. */
module OpcodeTable {
  import opened Bitwise
  import opened Mos6510
  import opened Decoder

  function Cases00(opcode: Byte): Insn
    requires 0x00 <= opcode < 0x20
  {
    match opcode
    case 0x00 => BRK
    case 0x01 => Load(ORA, IndX)
    case 0x02 => JAM
    case 0x03 => Modify(SLO, IndX)
    case 0x04 => Load(NOOP, Zp)
    case 0x05 => Load(ORA, Zp)
    case 0x06 => Modify(ASL, Zp)
    case 0x07 => Modify(SLO, Zp)
    case 0x08 => PHP
    case 0x09 => Load(ORA, Imm)
    case 0x0a => Simple(ASL_A)
    case 0x0b => Load(ANC, Imm)
    case 0x0c => Load(NOOP, Abs)
    case 0x0d => Load(ORA, Abs)
    case 0x0e => Modify(ASL, Abs)
    case 0x0f => Modify(SLO, Abs)
    case 0x10 => Branch(PL)
    case 0x11 => Load(ORA, IndY)
    case 0x12 => JAM
    case 0x13 => Modify(SLO, IndY)
    case 0x14 => Load(NOOP, ZpX)
    case 0x15 => Load(ORA, ZpX)
    case 0x16 => Modify(ASL, ZpX)
    case 0x17 => Modify(SLO, ZpX)
    case 0x18 => Simple(CLC)
    case 0x19 => Load(ORA, AbsY)
    case 0x1a => Simple(NOP)
    case 0x1b => Modify(SLO, AbsY)
    case 0x1c => Load(NOOP, AbsX)
    case 0x1d => Load(ORA, AbsX)
    case 0x1e => Modify(ASL, AbsX)
    case _ => Modify(SLO, AbsX)
  }

  function Cases20(opcode: Byte): Insn
    requires 0x20 <= opcode < 0x40
  {
    match opcode
    case 0x20 => JSR
    case 0x21 => Load(AND, IndX)
    case 0x22 => JAM
    case 0x23 => Modify(RLA, IndX)
    case 0x24 => Load(BIT, Zp)
    case 0x25 => Load(AND, Zp)
    case 0x26 => Modify(ROL, Zp)
    case 0x27 => Modify(RLA, Zp)
    case 0x28 => PLP
    case 0x29 => Load(AND, Imm)
    case 0x2a => Simple(ROL_A)
    case 0x2b => Load(ANC, Imm)
    case 0x2c => Load(BIT, Abs)
    case 0x2d => Load(AND, Abs)
    case 0x2e => Modify(ROL, Abs)
    case 0x2f => Modify(RLA, Abs)
    case 0x30 => Branch(MI)
    case 0x31 => Load(AND, IndY)
    case 0x32 => JAM
    case 0x33 => Modify(RLA, IndY)
    case 0x34 => Load(NOOP, ZpX)
    case 0x35 => Load(AND, ZpX)
    case 0x36 => Modify(ROL, ZpX)
    case 0x37 => Modify(RLA, ZpX)
    case 0x38 => Simple(SEC)
    case 0x39 => Load(AND, AbsY)
    case 0x3a => Simple(NOP)
    case 0x3b => Modify(RLA, AbsY)
    case 0x3c => Load(NOOP, AbsX)
    case 0x3d => Load(AND, AbsX)
    case 0x3e => Modify(ROL, AbsX)
    case _ => Modify(RLA, AbsX)
  }

  function Cases40(opcode: Byte): Insn
    requires 0x40 <= opcode < 0x60
  {
    match opcode
    case 0x40 => RTI
    case 0x41 => Load(EOR, IndX)
    case 0x42 => JAM
    case 0x43 => Modify(SRE, IndX)
    case 0x44 => Load(NOOP, Zp)
    case 0x45 => Load(EOR, Zp)
    case 0x46 => Modify(LSR, Zp)
    case 0x47 => Modify(SRE, Zp)
    case 0x48 => PHA
    case 0x49 => Load(EOR, Imm)
    case 0x4a => Simple(LSR_A)
    case 0x4b => Load(ASR, Imm)
    case 0x4c => JMP
    case 0x4d => Load(EOR, Abs)
    case 0x4e => Modify(LSR, Abs)
    case 0x4f => Modify(SRE, Abs)
    case 0x50 => Branch(VC)
    case 0x51 => Load(EOR, IndY)
    case 0x52 => JAM
    case 0x53 => Modify(SRE, IndY)
    case 0x54 => Load(NOOP, ZpX)
    case 0x55 => Load(EOR, ZpX)
    case 0x56 => Modify(LSR, ZpX)
    case 0x57 => Modify(SRE, ZpX)
    case 0x58 => Simple(CLI)
    case 0x59 => Load(EOR, AbsY)
    case 0x5a => Simple(NOP)
    case 0x5b => Modify(SRE, AbsY)
    case 0x5c => Load(NOOP, AbsX)
    case 0x5d => Load(EOR, AbsX)
    case 0x5e => Modify(LSR, AbsX)
    case _ => Modify(SRE, AbsX)
  }

  function Cases60(opcode: Byte): Insn
    requires 0x60 <= opcode < 0x80
  {
    match opcode
    case 0x60 => RTS
    case 0x61 => Load(ADC, IndX)
    case 0x62 => JAM
    case 0x63 => Modify(RRA, IndX)
    case 0x64 => Load(NOOP, Zp)
    case 0x65 => Load(ADC, Zp)
    case 0x66 => Modify(ROR, Zp)
    case 0x67 => Modify(RRA, Zp)
    case 0x68 => PLA
    case 0x69 => Load(ADC, Imm)
    case 0x6a => Simple(ROR_A)
    case 0x6b => Load(ARR, Imm)
    case 0x6c => JMP_IND
    case 0x6d => Load(ADC, Abs)
    case 0x6e => Modify(ROR, Abs)
    case 0x6f => Modify(RRA, Abs)
    case 0x70 => Branch(VS)
    case 0x71 => Load(ADC, IndY)
    case 0x72 => JAM
    case 0x73 => Modify(RRA, IndY)
    case 0x74 => Load(NOOP, ZpX)
    case 0x75 => Load(ADC, ZpX)
    case 0x76 => Modify(ROR, ZpX)
    case 0x77 => Modify(RRA, ZpX)
    case 0x78 => Simple(SEI)
    case 0x79 => Load(ADC, AbsY)
    case 0x7a => Simple(NOP)
    case 0x7b => Modify(RRA, AbsY)
    case 0x7c => Load(NOOP, AbsX)
    case 0x7d => Load(ADC, AbsX)
    case 0x7e => Modify(ROR, AbsX)
    case _ => Modify(RRA, AbsX)
  }

  function Cases80(opcode: Byte): Insn
    requires 0x80 <= opcode < 0xa0
  {
    match opcode
    case 0x80 => Load(NOOP, Imm)
    case 0x81 => Store(STA, IndX)
    case 0x82 => Load(NOOP, Imm)
    case 0x83 => Store(SAX, IndX)
    case 0x84 => Store(STY, Zp)
    case 0x85 => Store(STA, Zp)
    case 0x86 => Store(STX, Zp)
    case 0x87 => Store(SAX, Zp)
    case 0x88 => Simple(DEY)
    case 0x89 => Load(NOOP, Imm)
    case 0x8a => Simple(TXA)
    case 0x8b => Load(ANE, Imm)
    case 0x8c => Store(STY, Abs)
    case 0x8d => Store(STA, Abs)
    case 0x8e => Store(STX, Abs)
    case 0x8f => Store(SAX, Abs)
    case 0x90 => Branch(CC)
    case 0x91 => Store(STA, IndY)
    case 0x92 => JAM
    case 0x93 => HighStore(SHA, IndY)
    case 0x94 => Store(STY, ZpX)
    case 0x95 => Store(STA, ZpX)
    case 0x96 => Store(STX, ZpY)
    case 0x97 => Store(SAX, ZpY)
    case 0x98 => Simple(TYA)
    case 0x99 => Store(STA, AbsY)
    case 0x9a => Simple(TXS)
    case 0x9b => HighStore(SHS, AbsY)
    case 0x9c => HighStore(SHY, AbsX)
    case 0x9d => Store(STA, AbsX)
    case 0x9e => HighStore(SHX, AbsY)
    case _ => HighStore(SHA, AbsY)
  }

  function Casesa0(opcode: Byte): Insn
    requires 0xa0 <= opcode < 0xc0
  {
    match opcode
    case 0xa0 => Load(LDY, Imm)
    case 0xa1 => Load(LDA, IndX)
    case 0xa2 => Load(LDX, Imm)
    case 0xa3 => Load(LAX, IndX)
    case 0xa4 => Load(LDY, Zp)
    case 0xa5 => Load(LDA, Zp)
    case 0xa6 => Load(LDX, Zp)
    case 0xa7 => Load(LAX, Zp)
    case 0xa8 => Simple(TAY)
    case 0xa9 => Load(LDA, Imm)
    case 0xaa => Simple(TAX)
    case 0xab => Load(LXA, Imm)
    case 0xac => Load(LDY, Abs)
    case 0xad => Load(LDA, Abs)
    case 0xae => Load(LDX, Abs)
    case 0xaf => Load(LAX, Abs)
    case 0xb0 => Branch(CS)
    case 0xb1 => Load(LDA, IndY)
    case 0xb2 => JAM
    case 0xb3 => Load(LAX, IndY)
    case 0xb4 => Load(LDY, ZpX)
    case 0xb5 => Load(LDA, ZpX)
    case 0xb6 => Load(LDX, ZpY)
    case 0xb7 => Load(LAX, ZpY)
    case 0xb8 => Simple(CLV)
    case 0xb9 => Load(LDA, AbsY)
    case 0xba => Simple(TSX)
    case 0xbb => Load(LAS, AbsY)
    case 0xbc => Load(LDY, AbsX)
    case 0xbd => Load(LDA, AbsX)
    case 0xbe => Load(LDX, AbsY)
    case _ => Load(LAX, AbsY)
  }

  function Casesc0(opcode: Byte): Insn
    requires 0xc0 <= opcode < 0xe0
  {
    match opcode
    case 0xc0 => Load(CPY, Imm)
    case 0xc1 => Load(CMP, IndX)
    case 0xc2 => Load(NOOP, Imm)
    case 0xc3 => Modify(DCP, IndX)
    case 0xc4 => Load(CPY, Zp)
    case 0xc5 => Load(CMP, Zp)
    case 0xc6 => Modify(DEC, Zp)
    case 0xc7 => Modify(DCP, Zp)
    case 0xc8 => Simple(INY)
    case 0xc9 => Load(CMP, Imm)
    case 0xca => Simple(DEX)
    case 0xcb => Load(SBX, Imm)
    case 0xcc => Load(CPY, Abs)
    case 0xcd => Load(CMP, Abs)
    case 0xce => Modify(DEC, Abs)
    case 0xcf => Modify(DCP, Abs)
    case 0xd0 => Branch(NE)
    case 0xd1 => Load(CMP, IndY)
    case 0xd2 => JAM
    case 0xd3 => Modify(DCP, IndY)
    case 0xd4 => Load(NOOP, ZpX)
    case 0xd5 => Load(CMP, ZpX)
    case 0xd6 => Modify(DEC, ZpX)
    case 0xd7 => Modify(DCP, ZpX)
    case 0xd8 => Simple(CLD)
    case 0xd9 => Load(CMP, AbsY)
    case 0xda => Simple(NOP)
    case 0xdb => Modify(DCP, AbsY)
    case 0xdc => Load(NOOP, AbsX)
    case 0xdd => Load(CMP, AbsX)
    case 0xde => Modify(DEC, AbsX)
    case _ => Modify(DCP, AbsX)
  }

  function Casese0(opcode: Byte): Insn
    requires 0xe0 <= opcode < 0x100
  {
    match opcode
    case 0xe0 => Load(CPX, Imm)
    case 0xe1 => Load(SBC, IndX)
    case 0xe2 => Load(NOOP, Imm)
    case 0xe3 => Modify(ISB, IndX)
    case 0xe4 => Load(CPX, Zp)
    case 0xe5 => Load(SBC, Zp)
    case 0xe6 => Modify(INC, Zp)
    case 0xe7 => Modify(ISB, Zp)
    case 0xe8 => Simple(INX)
    case 0xe9 => Load(SBC, Imm)
    case 0xea => Simple(NOP)
    case 0xeb => Load(SBC, Imm)
    case 0xec => Load(CPX, Abs)
    case 0xed => Load(SBC, Abs)
    case 0xee => Modify(INC, Abs)
    case 0xef => Modify(ISB, Abs)
    case 0xf0 => Branch(EQ)
    case 0xf1 => Load(SBC, IndY)
    case 0xf2 => JAM
    case 0xf3 => Modify(ISB, IndY)
    case 0xf4 => Load(NOOP, ZpX)
    case 0xf5 => Load(SBC, ZpX)
    case 0xf6 => Modify(INC, ZpX)
    case 0xf7 => Modify(ISB, ZpX)
    case 0xf8 => Simple(SED)
    case 0xf9 => Load(SBC, AbsY)
    case 0xfa => Simple(NOP)
    case 0xfb => Modify(ISB, AbsY)
    case 0xfc => Load(NOOP, AbsX)
    case 0xfd => Load(SBC, AbsX)
    case 0xfe => Modify(INC, AbsX)
    case _ => Modify(ISB, AbsX)
  }

  /** The macro that each case invokes, as operation and addressing mode. */
  function Listed(opcode: Byte): Insn {
    match opcode / 32
    case 0 => Cases00(opcode)
    case 1 => Cases20(opcode)
    case 2 => Cases40(opcode)
    case 3 => Cases60(opcode)
    case 4 => Cases80(opcode)
    case 5 => Casesa0(opcode)
    case 6 => Casesc0(opcode)
    case _ => Casese0(opcode)
  }

  lemma Decodes00Low(opcode: Byte)
    requires 0x00 <= opcode < 0x10
    ensures Decode(opcode) == Cases00(opcode)
  {
    Fields(opcode, 0, opcode - 0x00);
  }

  lemma Decodes00High(opcode: Byte)
    requires 0x10 <= opcode < 0x20
    ensures Decode(opcode) == Cases00(opcode)
  {
    Fields(opcode, 1, opcode - 0x10);
  }

  lemma Decodes20Low(opcode: Byte)
    requires 0x20 <= opcode < 0x30
    ensures Decode(opcode) == Cases20(opcode)
  {
    Fields(opcode, 2, opcode - 0x20);
  }

  lemma Decodes20High(opcode: Byte)
    requires 0x30 <= opcode < 0x40
    ensures Decode(opcode) == Cases20(opcode)
  {
    Fields(opcode, 3, opcode - 0x30);
  }

  lemma Decodes40Low(opcode: Byte)
    requires 0x40 <= opcode < 0x50
    ensures Decode(opcode) == Cases40(opcode)
  {
    Fields(opcode, 4, opcode - 0x40);
  }

  lemma Decodes40High(opcode: Byte)
    requires 0x50 <= opcode < 0x60
    ensures Decode(opcode) == Cases40(opcode)
  {
    Fields(opcode, 5, opcode - 0x50);
  }

  lemma Decodes60Low(opcode: Byte)
    requires 0x60 <= opcode < 0x70
    ensures Decode(opcode) == Cases60(opcode)
  {
    Fields(opcode, 6, opcode - 0x60);
  }

  lemma Decodes60High(opcode: Byte)
    requires 0x70 <= opcode < 0x80
    ensures Decode(opcode) == Cases60(opcode)
  {
    Fields(opcode, 7, opcode - 0x70);
  }

  lemma Decodes80Low(opcode: Byte)
    requires 0x80 <= opcode < 0x90
    ensures Decode(opcode) == Cases80(opcode)
  {
    Fields(opcode, 8, opcode - 0x80);
  }

  lemma Decodes80High(opcode: Byte)
    requires 0x90 <= opcode < 0xa0
    ensures Decode(opcode) == Cases80(opcode)
  {
    Fields(opcode, 9, opcode - 0x90);
  }

  lemma Decodesa0Low(opcode: Byte)
    requires 0xa0 <= opcode < 0xb0
    ensures Decode(opcode) == Casesa0(opcode)
  {
    Fields(opcode, 10, opcode - 0xa0);
  }

  lemma Decodesa0High(opcode: Byte)
    requires 0xb0 <= opcode < 0xc0
    ensures Decode(opcode) == Casesa0(opcode)
  {
    Fields(opcode, 11, opcode - 0xb0);
  }

  lemma Decodesc0Low(opcode: Byte)
    requires 0xc0 <= opcode < 0xd0
    ensures Decode(opcode) == Casesc0(opcode)
  {
    Fields(opcode, 12, opcode - 0xc0);
  }

  lemma Decodesc0High(opcode: Byte)
    requires 0xd0 <= opcode < 0xe0
    ensures Decode(opcode) == Casesc0(opcode)
  {
    Fields(opcode, 13, opcode - 0xd0);
  }

  lemma Decodese0Low(opcode: Byte)
    requires 0xe0 <= opcode < 0xf0
    ensures Decode(opcode) == Casese0(opcode)
  {
    Fields(opcode, 14, opcode - 0xe0);
  }

  lemma Decodese0High(opcode: Byte)
    requires 0xf0 <= opcode < 0x100
    ensures Decode(opcode) == Casese0(opcode)
  {
    Fields(opcode, 15, opcode - 0xf0);
  }

  /** The structured decoding of the opcode byte is what the switch lists, for all 256 opcodes. */
  lemma ListedIsDecoded(opcode: Byte)
    ensures Listed(opcode) == Decode(opcode)
  {
    match opcode / 32 {
      case 0 => if opcode < 0x10 { Decodes00Low(opcode); } else { Decodes00High(opcode); }
      case 1 => if opcode < 0x30 { Decodes20Low(opcode); } else { Decodes20High(opcode); }
      case 2 => if opcode < 0x50 { Decodes40Low(opcode); } else { Decodes40High(opcode); }
      case 3 => if opcode < 0x70 { Decodes60Low(opcode); } else { Decodes60High(opcode); }
      case 4 => if opcode < 0x90 { Decodes80Low(opcode); } else { Decodes80High(opcode); }
      case 5 => if opcode < 0xb0 { Decodesa0Low(opcode); } else { Decodesa0High(opcode); }
      case 6 => if opcode < 0xd0 { Decodesc0Low(opcode); } else { Decodesc0High(opcode); }
      case _ => if opcode < 0xf0 { Decodese0Low(opcode); } else { Decodese0High(opcode); }
    }
  }
}
