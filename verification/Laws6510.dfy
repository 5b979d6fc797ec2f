/** What one turn of the 6510 does, said of opcode bytes, memory cells and bits, without the functions
    that the reference and the cores share. */
module Laws6510 {
  import opened ByteBits
  import opened Bitwise
  import opened Mos6510
  import opened Decoder

  lemma Executes(s: Cpu, opcode: Byte, insn: Insn)
    requires s.ram[s.pc] == opcode && Decode(opcode) == insn
    ensures Ticked(s, Instruction) == Execute(s, insn)
  {
    hide Decode, Execute;
  }

  // ------------------------------------------------------------------ branches

  /** The eight branch opcodes, each with the flag value that takes it. */
  predicate IsBranch(opcode: Byte) {
    opcode in {0x10, 0x30, 0x50, 0x70, 0x90, 0xb0, 0xd0, 0xf0}
  }

  predicate Takes(opcode: Byte, f: Flags)
    requires IsBranch(opcode)
  {
    if opcode == 0x10 then !f.n
    else if opcode == 0x30 then f.n
    else if opcode == 0x50 then !f.v
    else if opcode == 0x70 then f.v
    else if opcode == 0x90 then !f.c
    else if opcode == 0xb0 then f.c
    else if opcode == 0xd0 then !f.z
    else f.z
  }

  /** `p` is `k` bytes from `n`, at most 128 back or 127 ahead, and `k` is the operand modulo 256. */
  predicate Displaced(n: Word, operand: Byte, k: int, p: Word) {
    -128 <= k < 128 && (k - operand) % 256 == 0 && p == (n + k) % 65536
  }

  ghost predicate LandsAt(n: Word, operand: Byte, p: Word) {
    exists k :: Displaced(n, operand, k, p)
  }

  /** No operand leads to two addresses. */
  lemma OneLanding(n: Word, operand: Byte, p: Word, q: Word)
    requires LandsAt(n, operand, p) && LandsAt(n, operand, q)
    ensures p == q
  {
    var j :| Displaced(n, operand, j, p);
    var k :| Displaced(n, operand, k, q);
    OneDisplacement(operand, j, k);
  }

  lemma OneDisplacement(operand: Byte, j: int, k: int)
    requires (j - operand) % 256 == 0 && (k - operand) % 256 == 0 && -256 < j - k < 256
    ensures j == k
  {
    assert j - k == 256 * ((j - operand) / 256 - (k - operand) / 256);
  }

  lemma BranchDecoded(opcode: Byte)
    requires IsBranch(opcode)
    ensures Decode(opcode).Branch?
    ensures forall f: Flags :: Taken(Decode(opcode).cond, f) <==> Takes(opcode, f)
  {
  }

  lemma TargetLands(s: Cpu)
    ensures LandsAt((s.pc + 2) % 65536, s.ram[(s.pc + 1) % 65536], BranchTarget(s))
  {
    var operand: int := s.ram[(s.pc + 1) % 65536];
    var k := if operand >= 128 then operand - 256 else operand;
    assert Displaced((s.pc + 2) % 65536, operand, k, BranchTarget(s));
  }

  lemma Decoded(s: Cpu)
    requires IsBranch(s.ram[s.pc])
    ensures var cond := Decode(s.ram[s.pc]).cond; var taken := Takes(s.ram[s.pc], s.r.f);
            && Decode(s.ram[s.pc]).Branch?
            && Ticked(s, Instruction) == s.(pc := if taken then BranchTarget(s) else (s.pc + 2) % 65536)
            && TickCycles(s, Instruction)
               == if !taken then 2 else if (s.pc + 2) % 65536 / 256 == BranchTarget(s) / 256 then 3 else 4
  {
    BranchDecoded(s.ram[s.pc]);
    assert Fetch(s, 0) == s.ram[s.pc];
    hide Decode, Taken, Takes, BranchTarget, IsBranch;
  }

  /** Every branch opcode: nothing but the PC changes; untaken, it is the next instruction in two cycles;
      taken, the one address that the operand leads to, in three cycles, or four in another page. */
  lemma BranchExact(s: Cpu)
    requires IsBranch(s.ram[s.pc])
    ensures var n: Word, operand, u := (s.pc + 2) % 65536, s.ram[(s.pc + 1) % 65536], Ticked(s, Instruction);
            && u == s.(pc := u.pc)
            && if Takes(s.ram[s.pc], s.r.f) then
                 && LandsAt(n, operand, u.pc)
                 && TickCycles(s, Instruction) == if u.pc / 256 == n / 256 then 3 else 4
               else u.pc == n && TickCycles(s, Instruction) == 2
  {
    Decoded(s);
    TargetLands(s);
    hide Decode, Takes, LandsAt, BranchTarget, Ticked, TickCycles;
  }

  /** A taken branch with operand 0xFE goes back to itself. */
  lemma BranchToItself(s: Cpu)
    requires IsBranch(s.ram[s.pc]) && Takes(s.ram[s.pc], s.r.f) && s.ram[(s.pc + 1) % 65536] == 0xfe
    ensures Ticked(s, Instruction) == s
  {
    var n: Word := (s.pc + 2) % 65536;
    BranchExact(s);
    Back(s.pc);
    assert Displaced(n, 0xfe, -2, s.pc);
    OneLanding(n, 0xfe, Ticked(s, Instruction).pc, s.pc);
    hide Ticked;
  }

  lemma Back(pc: Word)
    ensures ((pc + 2) % 65536 - 2) % 65536 == pc
  {
  }

  // ------------------------------------------------------------------ bitwise operations

  /** N and Z of a byte, by its bits. */
  predicate Shown(f: Flags, b: Bits) {
    f.n == b.b7 && f.z == (b == ZERO)
  }

  lemma ShownBy(f: Flags, v: Byte)
    ensures Shown(WithNZ(f, v), OfByte(v))
  {
    ZeroBits(v);
    hide OfByte;
  }

  /** AND, ORA and EOR set a bit of A exactly where that bit of both, of either, or of just one is set. */
  lemma LogicExact(op: LoadOp, r: Regs, m: Byte)
    requires op == AND || op == ORA || op == EOR
    ensures var t, a, b := Loaded(op, r, m), OfByte(r.a), OfByte(m);
            && t == r.(a := t.a, f := r.f.(n := t.f.n, z := t.f.z)) && Shown(t.f, OfByte(t.a))
            && OfByte(t.a) == if op == AND then Both(a, b) else if op == ORA then Either(a, b) else Differing(a, b)
  {
    hide And, Or, Xor, OfByte, Both, Either, Differing, Shown;
    AndByBits(r.a, m);
    OrByBits(r.a, m);
    XorByBits(r.a, m);
    ShownBy(r.f, if op == AND then And(r.a, m) else if op == ORA then Or(r.a, m) else Xor(r.a, m));
  }

  /** BIT: Z where no bit is common, N and V from the top bits of the operand. */
  lemma BitExact(r: Regs, m: Byte)
    ensures var t, b := Loaded(BIT, r, m), OfByte(m);
            && t == r.(f := r.f.(n := b.b7, v := b.b6, z := t.f.z))
            && (t.f.z <==> Both(OfByte(r.a), b) == ZERO)
  {
    hide And, OfByte;
    AndByBits(m, r.a);
    ZeroBits(And(m, r.a));
    TopBitsOf(m);
    BothWays(OfByte(r.a), OfByte(m));
    hide Both;
  }

  lemma BothWays(a: Bits, b: Bits)
    ensures Both(a, b) == Both(b, a)
  {
  }

  lemma TopBitsOf(m: Byte)
    ensures OfByte(m).b7 == (m >= 128) && OfByte(m).b6 == (m / 64 % 2 == 1)
  {
    DigitsOf(m);
    hide OfByte;
  }

  /** ANC takes C from bit 7 of the AND ... */
  lemma AncExact(r: Regs, m: Byte)
    ensures var t := Loaded(ANC, r, m); OfByte(t.a) == Both(OfByte(r.a), OfByte(m)) && t.f.c == OfByte(t.a).b7
  {
    hide And, OfByte, Both;
    AndByBits(r.a, m);
    TopBitsOf(And(r.a, m));
  }

  /** ... and ASR shifts it right. */
  lemma AsrExact(r: Regs, m: Byte)
    ensures var t, v := Loaded(ASR, r, m), Both(OfByte(r.a), OfByte(m));
            OfByte(t.a) == Bits(false, v.b7, v.b6, v.b5, v.b4, v.b3, v.b2, v.b1) && t.f.c == v.b0
  {
    hide And, OfByte, Both;
    AndByBits(r.a, m);
    ShiftedRight(And(r.a, m));
  }

  /** SAX stores the AND of A and X. */
  lemma SaxExact(r: Regs)
    ensures OfByte(Stored(SAX, r)) == Both(OfByte(r.a), OfByte(r.x))
  {
    AndByBits(r.a, r.x);
    hide And, OfByte, Both;
  }

  lemma ShiftedRight(v: Byte)
    ensures var b := OfByte(v); OfByte(v / 2) == Bits(false, b.b7, b.b6, b.b5, b.b4, b.b3, b.b2, b.b1)
    ensures v % 2 == 1 <==> OfByte(v).b0
  {
    DigitsOf(v);
    DigitsOf(v / 2);
    Quotients(v);
    hide OfByte;
  }

  lemma Quotients(v: Byte)
    ensures v / 2 / 2 == v / 4 && v / 2 / 4 == v / 8 && v / 2 / 8 == v / 16 && v / 2 / 16 == v / 32
    ensures v / 2 / 32 == v / 64 && v / 2 / 64 == v / 128 && v / 2 / 128 == 0
  {
  }

  // ------------------------------------------------------------------ interrupt entries

  function Digit(b: bool, value: nat): nat {
    if b then value else 0
  }

  /** The status byte that is pushed: N, V, the unused bit, B, D, I, Z and C. */
  function StatusByte(f: Flags, brk: bool): (b: Byte) {
    Digit(f.n, 128) + Digit(f.v, 64) + 32 + Digit(brk, 16) + Digit(f.d, 8) + Digit(f.i, 4) + Digit(f.z, 2)
    + Digit(f.c, 1)
  }

  /** The three bytes pushed, down from SP in page one. */
  function Stacked(s: Cpu, returnTo: Word, brk: bool): Ram {
    s.ram[0x100 + s.r.sp := returnTo / 256][0x100 + (s.r.sp - 1) % 256 := returnTo % 256]
      [0x100 + (s.r.sp - 2) % 256 := StatusByte(s.r.f, brk)]
  }

  /** The entry leaves SP three lower, sets I, and goes on at the word in the two cells from `vector`. */
  predicate Enters(s: Cpu, u: Cpu, returnTo: Word, brk: bool, vector: Word)
    requires vector < 65535
  {
    && u.ram == Stacked(s, returnTo, brk)
    && u.r == s.r.(sp := (s.r.sp - 3) % 256, f := s.r.f.(i := true))
    && u.pc == u.ram[vector] as int + 256 * u.ram[vector + 1] as int
  }

  lemma StatusPowers(f: Flags, brk: bool)
    ensures Value(StatusBits(f, brk)) == StatusByte(f, brk)
  {
    ByPowers(StatusBits(f, brk));
    hide Value;
  }

  lemma ThreeBelow(sp: Byte)
    ensures ((sp - 1) % 256 - 1) % 256 == (sp - 2) % 256 && ((sp - 2) % 256 - 1) % 256 == (sp - 3) % 256
  {
  }

  lemma EntryExact(s: Cpu, brk: bool, vector: Word)
    requires vector < 65535
    ensures Enters(s, Entered(s, brk, vector), s.pc, brk, vector)
  {
    StatusPowers(s.r.f, brk);
    ThreeBelow(s.r.sp);
    hide Value, StatusByte;
  }

  /** An IRQ goes on at the word in cells 65534 and 65535, an NMI at the one in 65530 and 65531, both from
      where the program stood, with B clear. */
  lemma InterruptExact(s: Cpu)
    ensures Enters(s, Ticked(s, Irq), s.pc, false, 65534)
    ensures Enters(s, Ticked(s, Nmi), s.pc, false, 65530)
  {
    EntryExact(s, false, 65534);
    EntryExact(s, false, 65530);
    hide Entered, Enters;
  }

  lemma BreakIs(s: Cpu)
    requires s.ram[s.pc] == 0x00
    ensures Ticked(s, Instruction) == Entered(Moved(s, 2), true, 65534)
  {
    assert Decode(0x00) == BRK;
    hide Decode, Entered, Moved, Ticked;
    Executes(s, 0x00, BRK);
  }

  /** A BRK goes on where an IRQ does, with B set, from behind its second byte. */
  lemma BreakExact(s: Cpu)
    requires s.ram[s.pc] == 0x00
    ensures Enters(s, Ticked(s, Instruction), (s.pc + 2) % 65536, true, 65534)
  {
    hide Ticked, Entered, StatusByte;
    BreakIs(s);
    EntryExact(Moved(s, 2), true, 65534);
  }

  /** The stack is not where the vectors are. */
  lemma VectorsKept(s: Cpu, returnTo: Word, brk: bool, a: Word)
    requires a >= 0x200
    ensures Stacked(s, returnTo, brk)[a] == s.ram[a]
  {
    hide StatusByte;
  }

  /** So IRQ and BRK share a handler, which NMI does not use. */
  lemma Handlers(s: Cpu)
    ensures Ticked(s, Irq).pc == s.ram[65534] as int + 256 * s.ram[65535] as int
    ensures Ticked(s, Nmi).pc == s.ram[65530] as int + 256 * s.ram[65531] as int
    ensures s.ram[s.pc] == 0x00 ==> Ticked(s, Instruction).pc == Ticked(s, Irq).pc
  {
    hide Ticked, Stacked;
    InterruptExact(s);
    VectorsKept(s, s.pc, false, 65534);
    VectorsKept(s, s.pc, false, 65535);
    VectorsKept(s, s.pc, false, 65530);
    VectorsKept(s, s.pc, false, 65531);
    if s.ram[s.pc] == 0x00 {
      BreakExact(s);
      VectorsKept(s, (s.pc + 2) % 65536, true, 65534);
      VectorsKept(s, (s.pc + 2) % 65536, true, 65535);
    }
  }

  // ------------------------------------------------------------------ the indirect jump

  /** JMP ($nnnn) takes the high byte of its target from the same page: from $nn00 behind $nnFF. */
  lemma IndirectJump(s: Cpu)
    requires s.ram[s.pc] == 0x6c
    ensures var low, page := s.ram[(s.pc + 1) % 65536], s.ram[(s.pc + 2) % 65536];
            var next := if low == 255 then 256 * page as int else 256 * page as int + low + 1;
            Ticked(s, Instruction) == s.(pc := s.ram[256 * page as int + low] as int + 256 * s.ram[next] as int)
  {
    hide Ticked, NextInPage;
    IndirectJumpIs(s);
    NextCell(s.ram[(s.pc + 1) % 65536], s.ram[(s.pc + 2) % 65536]);
  }

  lemma IndirectJumpIs(s: Cpu)
    requires s.ram[s.pc] == 0x6c
    ensures Ticked(s, Instruction) == JumpedIndirect(s)
  {
    assert Decode(0x6c) == JMP_IND;
    hide Decode, JumpedIndirect, Ticked;
    Executes(s, 0x6c, JMP_IND);
  }

  lemma NextCell(low: Byte, page: Byte)
    ensures NextInPage(WordOf(low, page)) == if low == 255 then 256 * page as int else 256 * page as int + low + 1
  {
    assert WordOf(low, page) / 256 == page;
    if low == 255 {
      assert WordOf(low, page) + 1 == 256 * (page as int + 1);
    }
  }
}
