/** The opcode switch of src/65816core.c: the macro that each case invokes. */
module Opcodes65816 {
  import opened Bitwise

  /** The macros, by the part of the machine they change; those with an A apply to the accumulator. */
  datatype Macro =
    | ORA | AND | EOR | LDA | ADC | SBC | CMP | CPX | CPY | BIT | BIT_IMM
    | STA | STX | STY | STZ
    | ASL | ROL | LSR | ROR | INC | DEC | TSB | TRB
    | ASL_A | ROL_A | LSR_A | ROR_A | INC_A | DEC_A
    | CLC | SEC | CLI | SEI | CLD | SED | CLV | NOP | WDM | WAI | STP
    | TXA | TYA | TCD | TDC | TSC | XBA
    | LDX | LDY | INX | INY | DEX | DEY | TAX | TAY | TSX | TXY | TYX
    | TXS | TCS | XCE | REP | SEP
    | BRANCH | BRANCH_LONG | JMP | JMP_LONG | JMP_IND | JMP_IND_X | JMP_IND_LONG
    | PHA | PHX | PHY | PHB | PHK | PHP | PHD | PEA | PEI | PER
    | PLA | PLX | PLY | PLB | PLP | PLD
    | JSR | JSR_LONG | JSR_IND_X | RTS | RTL | RTI
    | BRK | COP_02 | IRQ | NMI | RES
    | MVN | MVP

  function Row0(column: nat): Macro
    requires column < 16
  {
    match column
    case 0 => BRK
    case 1 => ORA
    case 2 => COP_02
    case 3 => ORA
    case 4 => TSB
    case 5 => ORA
    case 6 => ASL
    case 7 => ORA
    case 8 => PHP
    case 9 => ORA
    case 10 => ASL_A
    case 11 => PHD
    case 12 => TSB
    case 13 => ORA
    case 14 => ASL
    case _ => ORA
  }

  function Row1(column: nat): Macro
    requires column < 16
  {
    match column
    case 0 => BRANCH
    case 1 => ORA
    case 2 => ORA
    case 3 => ORA
    case 4 => TRB
    case 5 => ORA
    case 6 => ASL
    case 7 => ORA
    case 8 => CLC
    case 9 => ORA
    case 10 => INC_A
    case 11 => TCS
    case 12 => TRB
    case 13 => ORA
    case 14 => ASL
    case _ => ORA
  }

  function Row2(column: nat): Macro
    requires column < 16
  {
    match column
    case 0 => JSR
    case 1 => AND
    case 2 => JSR_LONG
    case 3 => AND
    case 4 => BIT
    case 5 => AND
    case 6 => ROL
    case 7 => AND
    case 8 => PLP
    case 9 => AND
    case 10 => ROL_A
    case 11 => PLD
    case 12 => BIT
    case 13 => AND
    case 14 => ROL
    case _ => AND
  }

  function Row3(column: nat): Macro
    requires column < 16
  {
    match column
    case 0 => BRANCH
    case 1 => AND
    case 2 => AND
    case 3 => AND
    case 4 => BIT
    case 5 => AND
    case 6 => ROL
    case 7 => AND
    case 8 => SEC
    case 9 => AND
    case 10 => DEC_A
    case 11 => TSC
    case 12 => BIT
    case 13 => AND
    case 14 => ROL
    case _ => AND
  }

  function Row4(column: nat): Macro
    requires column < 16
  {
    match column
    case 0 => RTI
    case 1 => EOR
    case 2 => WDM
    case 3 => EOR
    case 4 => MVP
    case 5 => EOR
    case 6 => LSR
    case 7 => EOR
    case 8 => PHA
    case 9 => EOR
    case 10 => LSR_A
    case 11 => PHK
    case 12 => JMP
    case 13 => EOR
    case 14 => LSR
    case _ => EOR
  }

  function Row5(column: nat): Macro
    requires column < 16
  {
    match column
    case 0 => BRANCH
    case 1 => EOR
    case 2 => EOR
    case 3 => EOR
    case 4 => MVN
    case 5 => EOR
    case 6 => LSR
    case 7 => EOR
    case 8 => CLI
    case 9 => EOR
    case 10 => PHY
    case 11 => TCD
    case 12 => JMP_LONG
    case 13 => EOR
    case 14 => LSR
    case _ => EOR
  }

  function Row6(column: nat): Macro
    requires column < 16
  {
    match column
    case 0 => RTS
    case 1 => ADC
    case 2 => PER
    case 3 => ADC
    case 4 => STZ
    case 5 => ADC
    case 6 => ROR
    case 7 => ADC
    case 8 => PLA
    case 9 => ADC
    case 10 => ROR_A
    case 11 => RTL
    case 12 => JMP_IND
    case 13 => ADC
    case 14 => ROR
    case _ => ADC
  }

  function Row7(column: nat): Macro
    requires column < 16
  {
    match column
    case 0 => BRANCH
    case 1 => ADC
    case 2 => ADC
    case 3 => ADC
    case 4 => STZ
    case 5 => ADC
    case 6 => ROR
    case 7 => ADC
    case 8 => SEI
    case 9 => ADC
    case 10 => PLY
    case 11 => TDC
    case 12 => JMP_IND_X
    case 13 => ADC
    case 14 => ROR
    case _ => ADC
  }

  function Row8(column: nat): Macro
    requires column < 16
  {
    match column
    case 0 => BRANCH
    case 1 => STA
    case 2 => BRANCH_LONG
    case 3 => STA
    case 4 => STY
    case 5 => STA
    case 6 => STX
    case 7 => STA
    case 8 => DEY
    case 9 => BIT_IMM
    case 10 => TXA
    case 11 => PHB
    case 12 => STY
    case 13 => STA
    case 14 => STX
    case _ => STA
  }

  function Row9(column: nat): Macro
    requires column < 16
  {
    match column
    case 0 => BRANCH
    case 1 => STA
    case 2 => STA
    case 3 => STA
    case 4 => STY
    case 5 => STA
    case 6 => STX
    case 7 => STA
    case 8 => TYA
    case 9 => STA
    case 10 => TXS
    case 11 => TXY
    case 12 => STZ
    case 13 => STA
    case 14 => STZ
    case _ => STA
  }

  function RowA(column: nat): Macro
    requires column < 16
  {
    match column
    case 0 => LDY
    case 1 => LDA
    case 2 => LDX
    case 3 => LDA
    case 4 => LDY
    case 5 => LDA
    case 6 => LDX
    case 7 => LDA
    case 8 => TAY
    case 9 => LDA
    case 10 => TAX
    case 11 => PLB
    case 12 => LDY
    case 13 => LDA
    case 14 => LDX
    case _ => LDA
  }

  function RowB(column: nat): Macro
    requires column < 16
  {
    match column
    case 0 => BRANCH
    case 1 => LDA
    case 2 => LDA
    case 3 => LDA
    case 4 => LDY
    case 5 => LDA
    case 6 => LDX
    case 7 => LDA
    case 8 => CLV
    case 9 => LDA
    case 10 => TSX
    case 11 => TYX
    case 12 => LDY
    case 13 => LDA
    case 14 => LDX
    case _ => LDA
  }

  function RowC(column: nat): Macro
    requires column < 16
  {
    match column
    case 0 => CPY
    case 1 => CMP
    case 2 => REP
    case 3 => CMP
    case 4 => CPY
    case 5 => CMP
    case 6 => DEC
    case 7 => CMP
    case 8 => INY
    case 9 => CMP
    case 10 => DEX
    case 11 => WAI
    case 12 => CPY
    case 13 => CMP
    case 14 => DEC
    case _ => CMP
  }

  function RowD(column: nat): Macro
    requires column < 16
  {
    match column
    case 0 => BRANCH
    case 1 => CMP
    case 2 => CMP
    case 3 => CMP
    case 4 => PEI
    case 5 => CMP
    case 6 => DEC
    case 7 => CMP
    case 8 => CLD
    case 9 => CMP
    case 10 => PHX
    case 11 => STP
    case 12 => JMP_IND_LONG
    case 13 => CMP
    case 14 => DEC
    case _ => CMP
  }

  function RowE(column: nat): Macro
    requires column < 16
  {
    match column
    case 0 => CPX
    case 1 => SBC
    case 2 => SEP
    case 3 => SBC
    case 4 => CPX
    case 5 => SBC
    case 6 => INC
    case 7 => SBC
    case 8 => INX
    case 9 => SBC
    case 10 => NOP
    case 11 => XBA
    case 12 => CPX
    case 13 => SBC
    case 14 => INC
    case _ => SBC
  }

  function RowF(column: nat): Macro
    requires column < 16
  {
    match column
    case 0 => BRANCH
    case 1 => SBC
    case 2 => SBC
    case 3 => SBC
    case 4 => PEA
    case 5 => SBC
    case 6 => INC
    case 7 => SBC
    case 8 => SED
    case 9 => SBC
    case 10 => PLX
    case 11 => XCE
    case 12 => JSR_IND_X
    case 13 => SBC
    case 14 => INC
    case _ => SBC
  }

  function Cell(row: nat, column: nat): Macro
    requires row < 16 && column < 16
  {
    match row
    case 0 => Row0(column)
    case 1 => Row1(column)
    case 2 => Row2(column)
    case 3 => Row3(column)
    case 4 => Row4(column)
    case 5 => Row5(column)
    case 6 => Row6(column)
    case 7 => Row7(column)
    case 8 => Row8(column)
    case 9 => Row9(column)
    case 10 => RowA(column)
    case 11 => RowB(column)
    case 12 => RowC(column)
    case 13 => RowD(column)
    case 14 => RowE(column)
    case _ => RowF(column)
  }

  function MacroOf(opcode: Byte): Macro {
    Cell(opcode / 16, opcode % 16)
  }

  // ------------------------------------------------------------------ a second reading, by the fields aaabbbcc

  /** Column 01, and wherever else the accumulator group appears. */
  function OnAccumulator(a: nat): Macro
    requires a < 8
  {
    match a
    case 0 => ORA
    case 1 => AND
    case 2 => EOR
    case 3 => ADC
    case 4 => STA
    case 5 => LDA
    case 6 => CMP
    case _ => SBC
  }

  /** Column 10: shifts, X and memory counting. */
  function OnMemoryOrX(a: nat): Macro
    requires a < 8
  {
    match a
    case 0 => ASL
    case 1 => ROL
    case 2 => LSR
    case 3 => ROR
    case 4 => STX
    case 5 => LDX
    case 6 => DEC
    case _ => INC
  }

  function OnOneRegister(a: nat): Macro
    requires a < 8
  {
    match a
    case 0 => ASL_A
    case 1 => ROL_A
    case 2 => LSR_A
    case 3 => ROR_A
    case 4 => TXA
    case 5 => TAX
    case 6 => DEX
    case _ => NOP
  }

  function CountOrStackX(a: nat): Macro
    requires a < 8
  {
    match a
    case 0 => INC_A
    case 1 => DEC_A
    case 2 => PHY
    case 3 => PLY
    case 4 => TXS
    case 5 => TSX
    case 6 => PHX
    case _ => PLX
  }

  function LongOrModes(a: nat): Macro
    requires a < 8
  {
    match a
    case 0 => COP_02
    case 1 => JSR_LONG
    case 2 => WDM
    case 3 => PER
    case 4 => BRANCH_LONG
    case 5 => LDX
    case 6 => REP
    case _ => SEP
  }

  function Shifting(a: nat, b: nat): Macro
    requires a < 8 && b < 8
  {
    match b
    case 0 => LongOrModes(a)
    case 2 => OnOneRegister(a)
    case 4 => OnAccumulator(a)
    case 6 => CountOrStackX(a)
    case _ => if a == 4 && b == 7 then STZ else OnMemoryOrX(a)
  }

  /** Column 11: the long and stack-relative modes of the accumulator group, and the registers of the
      65816. */
  function OnStackOrBanks(a: nat): Macro
    requires a < 8
  {
    match a
    case 0 => PHD
    case 1 => PLD
    case 2 => PHK
    case 3 => RTL
    case 4 => PHB
    case 5 => PLB
    case 6 => WAI
    case _ => XBA
  }

  function BetweenRegisters(a: nat): Macro
    requires a < 8
  {
    match a
    case 0 => TCS
    case 1 => TSC
    case 2 => TCD
    case 3 => TDC
    case 4 => TXY
    case 5 => TYX
    case 6 => STP
    case _ => XCE
  }

  function Extended(a: nat, b: nat): Macro
    requires a < 8 && b < 8
  {
    if b == 2 then OnStackOrBanks(a) else if b == 6 then BetweenRegisters(a) else OnAccumulator(a)
  }

  /** Column 00: control flow, flags, Y, the index comparisons, and block moves. */
  function Flow(a: nat): Macro
    requires a < 8
  {
    match a
    case 0 => BRK
    case 1 => JSR
    case 2 => RTI
    case 3 => RTS
    case 4 => BRANCH
    case 5 => LDY
    case 6 => CPY
    case _ => CPX
  }

  function StackOrCount(a: nat): Macro
    requires a < 8
  {
    match a
    case 0 => PHP
    case 1 => PLP
    case 2 => PHA
    case 3 => PLA
    case 4 => DEY
    case 5 => TAY
    case 6 => INY
    case _ => INX
  }

  function FlagOrY(a: nat): Macro
    requires a < 8
  {
    match a
    case 0 => CLC
    case 1 => SEC
    case 2 => CLI
    case 3 => SEI
    case 4 => TYA
    case 5 => CLV
    case 6 => CLD
    case _ => SED
  }

  /** Rows 2, 3, 6 and 7 of the columns 04, 0C, 14 and 1C hold what the four modes do not share. */
  function OnY(a: nat, b: nat): Macro
    requires a < 8 && b < 8
  {
    match a
    case 0 => if b < 4 then TSB else TRB
    case 1 => BIT
    case 2 => if b == 1 then MVP else if b == 3 then JMP else if b == 5 then MVN else JMP_LONG
    case 3 => if b == 3 then JMP_IND else if b == 7 then JMP_IND_X else STZ
    case 4 => if b == 7 then STZ else STY
    case 5 => LDY
    case 6 => if b == 5 then PEI else if b == 7 then JMP_IND_LONG else CPY
    case _ => if b == 5 then PEA else if b == 7 then JSR_IND_X else CPX
  }

  function Control(a: nat, b: nat): Macro
    requires a < 8 && b < 8
  {
    match b
    case 0 => Flow(a)
    case 2 => StackOrCount(a)
    case 4 => BRANCH
    case 6 => FlagOrY(a)
    case _ => OnY(a, b)
  }

  /** The opcode with the fields a, b and c. */
  function ByFields(a: nat, b: nat, c: nat): Macro
    requires a < 8 && b < 8 && c < 4
  {
    match c
    case 0 => Control(a, b)
    case 1 => if a == 4 && b == 2 then BIT_IMM else OnAccumulator(a)
    case 2 => Shifting(a, b)
    case _ => Extended(a, b)
  }

  /** The rows as the switch has them. */
  lemma Row0ByFields(b: nat, c: nat)
    requires b < 4 && c < 4
    ensures Row0(4 * b + c) == ByFields(0, b, c)
  {
    match c
    case 0 => assert Row0(4 * b) == Control(0, b);
    case 1 => assert Row0(4 * b + 1) == ByFields(0, b, 1);
    case 2 => assert Row0(4 * b + 2) == Shifting(0, b);
    case _ => assert Row0(4 * b + 3) == Extended(0, b);
  }

  lemma Row1ByFields(b: nat, c: nat)
    requires b < 4 && c < 4
    ensures Row1(4 * b + c) == ByFields(0, 4 + b, c)
  {
    match c
    case 0 => assert Row1(4 * b) == Control(0, 4 + b);
    case 1 => assert Row1(4 * b + 1) == ByFields(0, 4 + b, 1);
    case 2 => assert Row1(4 * b + 2) == Shifting(0, 4 + b);
    case _ => assert Row1(4 * b + 3) == Extended(0, 4 + b);
  }

  lemma Row2ByFields(b: nat, c: nat)
    requires b < 4 && c < 4
    ensures Row2(4 * b + c) == ByFields(1, b, c)
  {
    match c
    case 0 => assert Row2(4 * b) == Control(1, b);
    case 1 => assert Row2(4 * b + 1) == ByFields(1, b, 1);
    case 2 => assert Row2(4 * b + 2) == Shifting(1, b);
    case _ => assert Row2(4 * b + 3) == Extended(1, b);
  }

  lemma Row3ByFields(b: nat, c: nat)
    requires b < 4 && c < 4
    ensures Row3(4 * b + c) == ByFields(1, 4 + b, c)
  {
    match c
    case 0 => assert Row3(4 * b) == Control(1, 4 + b);
    case 1 => assert Row3(4 * b + 1) == ByFields(1, 4 + b, 1);
    case 2 => assert Row3(4 * b + 2) == Shifting(1, 4 + b);
    case _ => assert Row3(4 * b + 3) == Extended(1, 4 + b);
  }

  lemma Row4ByFields(b: nat, c: nat)
    requires b < 4 && c < 4
    ensures Row4(4 * b + c) == ByFields(2, b, c)
  {
    match c
    case 0 => assert Row4(4 * b) == Control(2, b);
    case 1 => assert Row4(4 * b + 1) == ByFields(2, b, 1);
    case 2 => assert Row4(4 * b + 2) == Shifting(2, b);
    case _ => assert Row4(4 * b + 3) == Extended(2, b);
  }

  lemma Row5ByFields(b: nat, c: nat)
    requires b < 4 && c < 4
    ensures Row5(4 * b + c) == ByFields(2, 4 + b, c)
  {
    match c
    case 0 => assert Row5(4 * b) == Control(2, 4 + b);
    case 1 => assert Row5(4 * b + 1) == ByFields(2, 4 + b, 1);
    case 2 => assert Row5(4 * b + 2) == Shifting(2, 4 + b);
    case _ => assert Row5(4 * b + 3) == Extended(2, 4 + b);
  }

  lemma Row6ByFields(b: nat, c: nat)
    requires b < 4 && c < 4
    ensures Row6(4 * b + c) == ByFields(3, b, c)
  {
    match c
    case 0 => assert Row6(4 * b) == Control(3, b);
    case 1 => assert Row6(4 * b + 1) == ByFields(3, b, 1);
    case 2 => assert Row6(4 * b + 2) == Shifting(3, b);
    case _ => assert Row6(4 * b + 3) == Extended(3, b);
  }

  lemma Row7ByFields(b: nat, c: nat)
    requires b < 4 && c < 4
    ensures Row7(4 * b + c) == ByFields(3, 4 + b, c)
  {
    match c
    case 0 => assert Row7(4 * b) == Control(3, 4 + b);
    case 1 => assert Row7(4 * b + 1) == ByFields(3, 4 + b, 1);
    case 2 => assert Row7(4 * b + 2) == Shifting(3, 4 + b);
    case _ => assert Row7(4 * b + 3) == Extended(3, 4 + b);
  }

  lemma Row8ByFields(b: nat, c: nat)
    requires b < 4 && c < 4
    ensures Row8(4 * b + c) == ByFields(4, b, c)
  {
    match c
    case 0 => assert Row8(4 * b) == Control(4, b);
    case 1 => assert Row8(4 * b + 1) == ByFields(4, b, 1);
    case 2 => assert Row8(4 * b + 2) == Shifting(4, b);
    case _ => assert Row8(4 * b + 3) == Extended(4, b);
  }

  lemma Row9ByFields(b: nat, c: nat)
    requires b < 4 && c < 4
    ensures Row9(4 * b + c) == ByFields(4, 4 + b, c)
  {
    match c
    case 0 => assert Row9(4 * b) == Control(4, 4 + b);
    case 1 => assert Row9(4 * b + 1) == ByFields(4, 4 + b, 1);
    case 2 => assert Row9(4 * b + 2) == Shifting(4, 4 + b);
    case _ => assert Row9(4 * b + 3) == Extended(4, 4 + b);
  }

  lemma RowAByFields(b: nat, c: nat)
    requires b < 4 && c < 4
    ensures RowA(4 * b + c) == ByFields(5, b, c)
  {
    match c
    case 0 => assert RowA(4 * b) == Control(5, b);
    case 1 => assert RowA(4 * b + 1) == ByFields(5, b, 1);
    case 2 => assert RowA(4 * b + 2) == Shifting(5, b);
    case _ => assert RowA(4 * b + 3) == Extended(5, b);
  }

  lemma RowBByFields(b: nat, c: nat)
    requires b < 4 && c < 4
    ensures RowB(4 * b + c) == ByFields(5, 4 + b, c)
  {
    match c
    case 0 => assert RowB(4 * b) == Control(5, 4 + b);
    case 1 => assert RowB(4 * b + 1) == ByFields(5, 4 + b, 1);
    case 2 => assert RowB(4 * b + 2) == Shifting(5, 4 + b);
    case _ => assert RowB(4 * b + 3) == Extended(5, 4 + b);
  }

  lemma RowCByFields(b: nat, c: nat)
    requires b < 4 && c < 4
    ensures RowC(4 * b + c) == ByFields(6, b, c)
  {
    match c
    case 0 => assert RowC(4 * b) == Control(6, b);
    case 1 => assert RowC(4 * b + 1) == ByFields(6, b, 1);
    case 2 => assert RowC(4 * b + 2) == Shifting(6, b);
    case _ => assert RowC(4 * b + 3) == Extended(6, b);
  }

  lemma RowDByFields(b: nat, c: nat)
    requires b < 4 && c < 4
    ensures RowD(4 * b + c) == ByFields(6, 4 + b, c)
  {
    match c
    case 0 => assert RowD(4 * b) == Control(6, 4 + b);
    case 1 => assert RowD(4 * b + 1) == ByFields(6, 4 + b, 1);
    case 2 => assert RowD(4 * b + 2) == Shifting(6, 4 + b);
    case _ => assert RowD(4 * b + 3) == Extended(6, 4 + b);
  }

  lemma RowEByFields(b: nat, c: nat)
    requires b < 4 && c < 4
    ensures RowE(4 * b + c) == ByFields(7, b, c)
  {
    match c
    case 0 => assert RowE(4 * b) == Control(7, b);
    case 1 => assert RowE(4 * b + 1) == ByFields(7, b, 1);
    case 2 => assert RowE(4 * b + 2) == Shifting(7, b);
    case _ => assert RowE(4 * b + 3) == Extended(7, b);
  }

  lemma RowFByFields(b: nat, c: nat)
    requires b < 4 && c < 4
    ensures RowF(4 * b + c) == ByFields(7, 4 + b, c)
  {
    match c
    case 0 => assert RowF(4 * b) == Control(7, 4 + b);
    case 1 => assert RowF(4 * b + 1) == ByFields(7, 4 + b, 1);
    case 2 => assert RowF(4 * b + 2) == Shifting(7, 4 + b);
    case _ => assert RowF(4 * b + 3) == Extended(7, 4 + b);
  }

  lemma CellByFields(row: nat, b: nat, c: nat)
    requires row < 16 && b < 4 && c < 4
    ensures Cell(row, 4 * b + c) == ByFields(row / 2, 4 * (row % 2) + b, c)
  {
    hide ByFields, Row0, Row1, Row2, Row3, Row4, Row5, Row6, Row7, Row8, Row9, RowA, RowB, RowC, RowD, RowE, RowF;
    match row {
      case 0 => Row0ByFields(b, c);
      case 1 => Row1ByFields(b, c);
      case 2 => Row2ByFields(b, c);
      case 3 => Row3ByFields(b, c);
      case 4 => Row4ByFields(b, c);
      case 5 => Row5ByFields(b, c);
      case 6 => Row6ByFields(b, c);
      case 7 => Row7ByFields(b, c);
      case 8 => Row8ByFields(b, c);
      case 9 => Row9ByFields(b, c);
      case 10 => RowAByFields(b, c);
      case 11 => RowBByFields(b, c);
      case 12 => RowCByFields(b, c);
      case 13 => RowDByFields(b, c);
      case 14 => RowEByFields(b, c);
      case _ => RowFByFields(b, c);
    }
  }

  lemma FieldsOf(opcode: Byte)
    ensures opcode / 32 == opcode / 16 / 2 && opcode % 4 == opcode % 16 % 4
    ensures opcode / 4 % 8 == 4 * (opcode / 16 % 2) + opcode % 16 / 4
    ensures opcode % 16 == 4 * (opcode % 16 / 4) + opcode % 4
  {
  }

  /** For all 256 opcodes the switch has the macro that the fields of the opcode decode to. */
  lemma MacroByFields(opcode: Byte)
    ensures MacroOf(opcode) == ByFields(opcode / 32, opcode / 4 % 8, opcode % 4)
  {
    hide Cell, ByFields;
    FieldsOf(opcode);
    CellByFields(opcode / 16, opcode % 16 / 4, opcode % 4);
  }
}
