/** The arithmetic and register opcode macros whose text src/6510core.c and src/6510dtvcore.c share.
    A constant mask is written as division and remainder; a BYTE assignment truncates. */
module OpcodeMacros {
  import opened ByteBits
  import opened Bitwise
  import opened Mos6510
  import opened RegisterMacros

  method DecimalAdd(a: Byte, value: Byte, c: nat) returns (tmp: int)
    requires c <= 1
    ensures tmp == DecimalSum(a, value, c) && 0 <= tmp < 0x200
  {
    tmp := a % 16 + value % 16 + c;
    if tmp > 9 {
      tmp := tmp + 6;
    }
    if tmp <= 0x0f {
      tmp := tmp % 16 + (a - a % 16) + (value - value % 16);
    } else {
      tmp := tmp % 16 + (a - a % 16) + (value - value % 16) + 0x10;
    }
  }

  method DecimalCarry(t: int) returns (carry: bool, v: Byte)
    requires 0 <= t < 0x200
    ensures var u := if t - t % 16 > 0x90 then t + 0x60 else t;
            carry == (u - u % 16 > 0xf0) && v == u % 256
  {
    var tmp := t;
    if tmp % 0x200 - tmp % 16 > 0x90 {
      tmp := tmp + 0x60;
    }
    carry := tmp % 0x1000 - tmp % 16 > 0xf0;
    v := tmp % 256;
  }

  method DecimalFlags(r: Native, value: Byte, tmp: int) returns (t: Native)
    requires r.Clean() && 0 <= tmp < 0x200
    ensures t.Clean() && t.Abstract() == DecimalAdc(r.Abstract(), value, tmp)
  {
    t := r;
    t := t.SetZero((t.a + value + t.Carry()) % 256 == 0);
    t := t.SetSign(tmp / 128 % 2 == 1);
    t := t.SetOverflow(SignsDiffer(t.a, tmp) && !SignsDiffer(t.a, value));
    var carry, v := DecimalCarry(tmp);
    t := t.SetCarry(carry);
    t := t.(a := v);
  }

  method AdcBinary(r: Native, value: Byte) returns (t: Native)
    requires r.Clean() && !r.p.b3
    ensures t.Clean() && t.Abstract() == Mos6510.Adc(r.Abstract(), value)
  {
    var tmp := value + r.a + r.Carry();
    t := r.SetNZ(tmp % 256);
    t := t.SetOverflow(!SignsDiffer(t.a, value) && SignsDiffer(t.a, tmp));
    t := t.SetCarry(tmp > 0xff);
    t := t.(a := tmp % 256);
  }

  method Adc(r: Native, value: Byte) returns (t: Native)
    requires r.Clean()
    ensures t.Clean() && t.Abstract() == Mos6510.Adc(r.Abstract(), value)
  {
    if r.p.b3 {
      var tmp := DecimalAdd(r.a, value, r.Carry());
      t := DecimalFlags(r, value, tmp);
    } else {
      t := AdcBinary(r, value);
    }
  }

  /** What a 16-bit unsigned wrap-around leaves of a small difference. */
  lemma Wrapped16(d: int)
    requires -256 <= d < 256
    ensures d % 0x1_0000 % 256 == d % 256
    ensures d % 0x1_0000 < 0x100 <==> d >= 0
    ensures d % 0x1_0000 / 128 % 2 == d / 128 % 2
  {
    if d < 0 {
      assert d % 0x1_0000 == d + 0x1_0000;
      assert d + 0x1_0000 == 256 * (d / 256 + 256) + d % 256;
      assert d + 0x1_0000 == 128 * (d / 128 + 512) + d % 128;
    }
  }

  lemma Wrapped32(d: int)
    requires -256 <= d < 256
    ensures d % 0x1_0000_0000 < 0x100 <==> d >= 0
    ensures d % 0x1_0000_0000 % 256 == d % 256
  {
    if d < 0 {
      assert d % 0x1_0000_0000 == d + 0x1_0000_0000;
      assert d + 0x1_0000_0000 == 256 * (d / 256 + 0x100_0000) + d % 256;
    }
  }

  /** A borrow shows in bit 4 of a wrapped digit difference and in bit 8 of a wrapped byte. */
  lemma BorrowOfDigit(d: int)
    requires -16 <= d < 16
    ensures d % 0x1_0000_0000 / 16 % 2 == 1 <==> d < 0
    ensures (d % 0x1_0000_0000 - 6) % 16 == (d - 6) % 16
    ensures d % 0x1_0000_0000 % 16 == d % 16
  {
    if d < 0 {
      WrappedBelow(d);
      assert d + 0x1_0000_0000 == 16 * 0xfff_ffff + (d + 16);
      assert d - 6 + 0x1_0000_0000 == 16 * ((d - 6) / 16 + 0x1000_0000) + (d - 6) % 16;
    }
  }

  lemma BorrowOfByte(d: int)
    requires -256 <= d < 256
    ensures d % 0x1_0000_0000 / 256 % 2 == 1 <==> d < 0
    ensures d % 0x1_0000_0000 % 256 == d % 256
  {
    if d < 0 {
      WrappedBelow(d);
      assert d + 0x1_0000_0000 == 256 * 0xff_ffff + (d + 256);
    }
  }

  lemma CorrectedByte(d: int)
    requires -256 <= d < 0
    ensures (d % 0x1_0000_0000 - 0x60) % 256 == (d - 0x60) % 256
  {
    WrappedBelow(d);
    assert d - 0x60 + 0x1_0000_0000 == 256 * ((d - 0x60) / 256 + 0x100_0000) + (d - 0x60) % 256;
  }

  lemma WrappedBelow(d: int)
    requires -0x1_0000_0000 <= d < 0
    ensures d % 0x1_0000_0000 == d + 0x1_0000_0000
  {
  }

  lemma DifferenceRange(a: Byte, m: Byte, c: nat)
    requires c <= 1
    ensures -256 <= DigitDifference(a, m, c) < 256
  {
  }

  /** `tmpA` is 32 bits wide and unsigned. */
  method SubtractDigits(a: Byte, src: Byte, c: nat) returns (tmpA: int)
    requires c <= 1
    ensures tmpA == DigitDifference(a, src, c) % 0x1_0000_0000
  {
    var low := a % 16 - src % 16 - (1 - c);
    tmpA := low % 0x1_0000_0000;
    BorrowOfDigit(low);
    if tmpA / 16 % 2 == 1 {
      tmpA := ((tmpA - 6) % 16 + (a - a % 16) - (src - src % 16) - 0x10) % 0x1_0000_0000;
    } else {
      tmpA := (tmpA % 16 + (a - a % 16) - (src - src % 16)) % 0x1_0000_0000;
    }
  }

  method DecimalSubtract(a: Byte, src: Byte, c: nat) returns (v: Byte)
    requires c <= 1
    ensures v == DecimalDifference(a, src, c) % 256
  {
    var tmpA := SubtractDigits(a, src, c);
    DifferenceRange(a, src, c);
    BorrowOfByte(DigitDifference(a, src, c));
    if tmpA / 256 % 2 == 1 {
      CorrectedByte(DigitDifference(a, src, c));
      tmpA := tmpA - 0x60;
    }
    v := tmpA % 256;
  }

  /** The binary difference, in a 16-bit unsigned variable. */
  method BinaryDifference(a: Byte, src: Byte, borrow: nat) returns (carry: bool, diff: Byte, v: bool)
    requires borrow <= 1
    ensures carry == (a - src - borrow >= 0) && diff == (a - src - borrow) % 256
    ensures v == (SignsDiffer(a, a - src - borrow) && SignsDiffer(a, src))
  {
    var tmp := (a - src - borrow) % 0x1_0000;
    Wrapped16(a - src - borrow);
    carry, diff, v := tmp < 0x100, tmp % 256, SignsDiffer(a, tmp) && SignsDiffer(a, src);
  }

  method Sbc(r: Native, src: Byte) returns (t: Native)
    requires r.Clean()
    ensures t.Clean() && t.Abstract() == Mos6510.Sbc(r.Abstract(), src)
  {
    var carry, diff, v := BinaryDifference(r.a, src, if r.p.b0 then 0 else 1);
    t := r.SetCarry(carry);
    t := t.SetNZ(diff);
    t := t.SetOverflow(v);
    if r.p.b3 {
      diff := DecimalSubtract(t.a, src, r.Carry());
    }
    t := t.(a := diff);
  }

  method ArrDigits(tmp: Byte, tmp2: Byte) returns (carry: bool, v: Byte)
    ensures carry == ArrCarries(tmp) && v == ArrAdjusted(tmp, tmp2)
  {
    v := tmp2;
    if tmp % 16 + tmp % 2 > 5 {
      v := v - v % 16 + (v + 6) % 16;
    }
    carry := tmp - tmp % 16 + (tmp % 32 - tmp % 16) > 0x50;
    if carry {
      v := v % 16 + ((v + 0x60) % 256 - (v + 0x60) % 16);
    }
  }

  method ArrDecimal(r: Native, tmp: Byte) returns (t: Native)
    requires r.Clean() && r.p.b3
    ensures t.Clean() && t.Abstract() == ArrMasked(r.Abstract(), tmp)
  {
    t := r;
    var tmp2 := (tmp + 256 * t.Carry()) / 2;
    assert tmp2 == tmp / 2 + 128 * t.Carry();
    t := t.SetSign(t.p.b0);
    t := t.SetZero(tmp2 == 0);
    t := t.SetOverflow(tmp2 / 64 % 2 != tmp / 64 % 2);
    var carry, v := ArrDigits(tmp, tmp2);
    t := t.SetCarry(carry);
    t := t.(a := v);
  }

  method Arr(r: Native, value: Byte) returns (t: Native)
    requires r.Clean()
    ensures t.Clean() && t.Abstract() == Mos6510.Arr(r.Abstract(), value)
  {
    var masked := And(r.a, value);
    if r.p.b3 {
      t := ArrDecimal(r, masked);
    } else {
      var tmp := (masked + 256 * r.Carry()) / 2;
      t := r.SetNZ(tmp);
      t := t.SetCarry(tmp / 64 % 2 == 1);
      t := t.SetOverflow(tmp / 64 % 2 != tmp / 32 % 2);
      t := t.(a := tmp);
    }
  }

  method Cmp(r: Native, reg: Byte, value: Byte) returns (t: Native)
    requires r.Clean()
    ensures t.Clean()
    ensures t.Abstract() == r.Abstract().(f := Compare(r.Flagged(), reg, value))
  {
    var tmp := (reg - value) % 0x1_0000_0000;
    Wrapped32(reg - value);
    t := r.SetCarry(tmp < 0x100).SetNZ(tmp % 256);
  }

  method Bit(r: Native, tmp: Byte) returns (t: Native)
    requires r.Clean()
    ensures t.Clean() && t.Abstract() == Loaded(BIT, r.Abstract(), tmp)
  {
    t := r.SetSign(tmp / 128 % 2 == 1);
    t := t.SetOverflow(tmp / 64 % 2 == 1);
    t := t.SetZero(And(tmp, r.a) == 0);
  }

  method Sbx(r: Native, value: Byte) returns (t: Native)
    requires r.Clean()
    ensures t.Clean() && t.Abstract() == Loaded(SBX, r.Abstract(), value)
  {
    var tmp := (And(r.a, r.x) - value) % 0x1_0000_0000;
    Wrapped32(And(r.a, r.x) - value);
    t := r.SetCarry(tmp < 0x100);
    t := t.(x := tmp % 256);
    t := t.SetNZ(t.x);
  }

  /** The operations that only move or mask a value. */
  method Transfer(op: LoadOp, r: Native, value: Byte) returns (t: Native)
    requires r.Clean() && op in {LDA, LDX, LDY, LAX, LAS, NOOP}
    ensures t.Clean() && t.Abstract() == Loaded(op, r.Abstract(), value)
  {
    t := r;
    var tmp := value;
    match op {
      case LDA => t := t.(a := tmp).SetNZ(tmp);
      case LDX => t := t.(x := tmp).SetNZ(tmp);
      case LDY => t := t.(y := tmp).SetNZ(tmp);
      case LAX => t := t.(x := tmp).(a := tmp).SetNZ(tmp);
      case LAS => t := t.(sp := And(t.sp, value)); t := t.(x := t.sp).(a := t.sp).SetNZ(t.sp);
      case NOOP =>
    }
  }

  method Combine(op: LoadOp, r: Native, value: Byte) returns (t: Native)
    requires r.Clean() && op in {ORA, AND, EOR, ANC, ASR, ANE, LXA}
    ensures t.Clean() && t.Abstract() == Loaded(op, r.Abstract(), value)
  {
    t := r;
    var tmp := value;
    match op {
      case ORA => tmp := Or(t.a, value); t := t.(a := tmp).SetNZ(tmp);
      case AND => tmp := And(t.a, value); t := t.(a := tmp).SetNZ(tmp);
      case EOR => tmp := Xor(t.a, value); t := t.(a := tmp).SetNZ(tmp);
      case ANC => tmp := And(t.a, value); t := t.(a := tmp).SetNZ(tmp); t := t.SetCarry(t.Sign());
      case ASR => tmp := And(t.a, value); t := t.SetCarry(tmp % 2 == 1); tmp := tmp / 2; t := t.(a := tmp).SetNZ(tmp);
      case ANE => tmp := And(And(Or(t.a, 0xff), t.x), value); t := t.(a := tmp).SetNZ(tmp);
      case LXA => tmp := And(Or(t.a, 0xee), value); t := t.(x := tmp).(a := tmp).SetNZ(tmp);
    }
  }

  /** Any operation on a loaded value. */
  method Alu(op: LoadOp, r: Native, value: Byte) returns (t: Native)
    requires r.Clean()
    ensures t.Clean() && t.Abstract() == Loaded(op, r.Abstract(), value)
  {
    match op {
      case ADC => t := Adc(r, value);
      case SBC => t := Sbc(r, value);
      case ARR => t := Arr(r, value);
      case SBX => t := Sbx(r, value);
      case BIT => t := Bit(r, value);
      case CMP => t := Cmp(r, r.a, value);
      case CPX => t := Cmp(r, r.x, value);
      case CPY => t := Cmp(r, r.y, value);
      case _ =>
        if op in {LDA, LDX, LDY, LAX, LAS, NOOP} {
          t := Transfer(op, r, value);
        } else {
          t := Combine(op, r, value);
        }
    }
  }

  /** What ROL shifts out, and what it leaves. */
  method LeftThroughCarry(m: Byte, carry: nat) returns (out: bool, v: nat)
    requires carry <= 1
    ensures out == (m >= 128) && v % 256 == (2 * m + carry) % 256
  {
    v := 2 * m + carry;
    out := v > 0xff;
  }

  lemma TopBitOf(m: Byte)
    ensures m / 128 % 2 == 1 <==> m >= 128
  {
  }

  method ShiftA(op: SimpleOp, r: Native) returns (t: Native)
    requires r.Clean() && op in {ASL_A, ROL_A, LSR_A, ROR_A}
    ensures t.Clean() && t.Abstract() == Simply(op, r.Abstract())
  {
    t := r;
    var tmp: int := t.a;
    match op {
      case ASL_A =>
        TopBitOf(t.a);
        t := t.SetCarry(tmp / 128 % 2 == 1);
        tmp := 2 * tmp % 256;
        t := t.(a := tmp).SetNZ(tmp);
      case ROL_A =>
        var out, v := LeftThroughCarry(t.a, t.Carry());
        t := t.(a := v % 256).SetNZ(v % 256);
        t := t.SetCarry(out);
      case LSR_A => t := t.SetCarry(tmp % 2 == 1); tmp := tmp / 2; t := t.(a := tmp).SetNZ(tmp);
      case ROR_A =>
        var tmp2 := tmp / 2 + 128 * t.Carry();
        t := t.SetCarry(tmp % 2 == 1);
        t := t.(a := tmp2).SetNZ(tmp2);
    }
  }

  method SetFlag(op: SimpleOp, r: Native) returns (t: Native)
    requires r.Clean() && op in {CLC, SEC, CLI, SEI, CLV, CLD, SED}
    ensures t.Clean() && t.Abstract() == Simply(op, r.Abstract())
  {
    match op {
      case CLC => t := r.SetCarry(false);
      case SEC => t := r.SetCarry(true);
      case CLI => t := r.SetInterrupt(false);
      case SEI => t := r.SetInterrupt(true);
      case CLV => t := r.SetOverflow(false);
      case CLD => t := r.SetDecimal(false);
      case SED => t := r.SetDecimal(true);
    }
  }

  method Count(op: SimpleOp, r: Native) returns (t: Native)
    requires r.Clean() && op in {INX, INY, DEX, DEY}
    ensures t.Clean() && t.Abstract() == Simply(op, r.Abstract())
  {
    match op {
      case INX => t := r.(x := (r.x + 1) % 256); t := t.SetNZ(t.x);
      case INY => t := r.(y := (r.y + 1) % 256); t := t.SetNZ(t.y);
      case DEX => t := r.(x := (r.x - 1) % 256); t := t.SetNZ(t.x);
      case DEY => t := r.(y := (r.y - 1) % 256); t := t.SetNZ(t.y);
    }
  }

  /** The one-byte instructions without memory access. */
  method Implied(op: SimpleOp, r: Native) returns (t: Native)
    requires r.Clean()
    ensures t.Clean() && t.Abstract() == Simply(op, r.Abstract())
  {
    if op in {CLC, SEC, CLI, SEI, CLV, CLD, SED} {
      t := SetFlag(op, r);
    } else if op in {INX, INY, DEX, DEY} {
      t := Count(op, r);
    } else if op in {ASL_A, ROL_A, LSR_A, ROR_A} {
      t := ShiftA(op, r);
    } else {
      t := Move(op, r);
    }
  }

  method Move(op: SimpleOp, r: Native) returns (t: Native)
    requires r.Clean() && op in {TAX, TXA, TAY, TYA, TSX, TXS, NOP}
    ensures t.Clean() && t.Abstract() == Simply(op, r.Abstract())
  {
    t := r;
    match op {
      case TAX => t := t.(x := t.a); t := t.SetNZ(t.x);
      case TXA => t := t.(a := t.x); t := t.SetNZ(t.x);
      case TAY => t := t.(y := t.a); t := t.SetNZ(t.y);
      case TYA => t := t.(a := t.y); t := t.SetNZ(t.y);
      case TSX => t := t.(x := t.sp); t := t.SetNZ(t.sp);
      case TXS => t := t.(sp := t.x);
      case NOP =>
    }
  }

  // ------------------------------------------------------------------ read-modify-write

  /** The operations whose macros agree in both cores; a value wider than a byte is cut by the store. */
  method ReadModify(op: ModifyOp, r: Native, m: Byte) returns (t: Native, v: nat)
    requires r.Clean() && op != SLO && op != RRA
    ensures t.Clean() && (t.Abstract(), v % 256) == Modified(op, r.Abstract(), m)
  {
    if Documented(op) {
      t, v := ModifyOnly(op, r, m);
    } else {
      t, v := ModifyAndUse(op, r, m);
    }
  }

  method ModifyOnly(op: ModifyOp, r: Native, m: Byte) returns (t: Native, v: nat)
    requires r.Clean() && Documented(op)
    ensures t.Clean() && (t.Abstract(), v % 256) == Modified(op, r.Abstract(), m)
  {
    if op == ROR {
      t, v := RotateRight(r, m);
    } else if op == INC || op == DEC {
      v := (if op == INC then m + 1 else m - 1) % 256;
      t := r.SetNZ(v);
    } else {
      t, v := Shift(op, r, m);
    }
  }

  method ModifyAndUse(op: ModifyOp, r: Native, m: Byte) returns (t: Native, v: nat)
    requires r.Clean() && op in {DCP, ISB, RLA, SRE}
    ensures t.Clean() && (t.Abstract(), v % 256) == Modified(op, r.Abstract(), m)
  {
    match op {
      case DCP => t, v := DecrementAndCompare(r, m);
      case ISB => t, v := IncrementAndSubtract(r, m);
      case RLA => t, v := RotateAndMask(r, m);
      case SRE => t, v := ShiftAndToggle(r, m);
    }
  }

  method Shift(op: ModifyOp, r: Native, m: Byte) returns (t: Native, v: nat)
    requires r.Clean() && op in {ASL, LSR, ROL}
    ensures t.Clean() && (t.Abstract(), v % 256) == Modified(op, r.Abstract(), m)
  {
    if op == LSR {
      t := r.SetCarry(m % 2 == 1);
      v := m / 2;
      t := t.SetNZ(v);
    } else {
      t, v := ShiftLeft(op, r, m);
    }
  }

  method ShiftLeft(op: ModifyOp, r: Native, m: Byte) returns (t: Native, v: nat)
    requires r.Clean() && op in {ASL, ROL}
    ensures t.Clean() && (t.Abstract(), v % 256) == Modified(op, r.Abstract(), m)
  {
    var out: bool;
    out, v := LeftThroughCarry(m, if op == ROL then r.Carry() else 0);
    t := r.SetCarry(out);
    t := t.SetNZ(v % 256);
  }

  method RotateRight(r: Native, m: Byte) returns (t: Native, v: Byte)
    requires r.Clean()
    ensures t.Clean() && (t.Abstract(), v) == Modified(ROR, r.Abstract(), m)
  {
    var src: nat := m;
    if r.p.b0 {
      src := src + 0x100;
    }
    t := r.SetCarry(src % 2 == 1);
    v := src / 2;
    t := t.SetNZ(v);
  }

  method RotateAndMask(r: Native, m: Byte) returns (t: Native, v: nat)
    requires r.Clean()
    ensures t.Clean() && (t.Abstract(), v % 256) == Modified(RLA, r.Abstract(), m)
  {
    var out: bool;
    out, v := LeftThroughCarry(m, r.Carry());
    t := r.SetCarry(out);
    var tmp2 := And(t.a, v % 256);
    t := t.(a := tmp2).SetNZ(tmp2);
  }

  method ShiftAndToggle(r: Native, m: Byte) returns (t: Native, v: Byte)
    requires r.Clean()
    ensures t.Clean() && (t.Abstract(), v % 256) == Modified(SRE, r.Abstract(), m)
  {
    t := r.SetCarry(m % 2 == 1);
    v := m / 2;
    var tmp2 := Xor(t.a, v);
    t := t.(a := tmp2).SetNZ(tmp2);
  }

  method DecrementAndCompare(r: Native, m: Byte) returns (t: Native, v: Byte)
    requires r.Clean()
    ensures t.Clean() && (t.Abstract(), v % 256) == Modified(DCP, r.Abstract(), m)
  {
    v := (m - 1) % 256;
    t := r.SetCarry(r.a >= v).SetNZ((r.a - v) % 256);
  }

  method IncrementAndSubtract(r: Native, m: Byte) returns (t: Native, v: Byte)
    requires r.Clean()
    ensures t.Clean() && (t.Abstract(), v % 256) == Modified(ISB, r.Abstract(), m)
  {
    IsbIsSbc(r.Abstract(), m);
    v := (m + 1) % 256;
    t := Sbc(r, v);
  }

  /** SBC and ADC set N and Z themselves, so what the operation before left there does not matter. */
  lemma IsbIsSbc(r: Regs, m: Byte)
    ensures var v := (m + 1) % 256; Modified(ISB, r, m) == (Mos6510.Sbc(r, v), v)
  {
  }

  lemma RraIsAdc(r: Regs, m: Byte)
    ensures var v := m / 2 + 128 * CarryIn(r.f);
            Modified(RRA, r, m) == (Mos6510.Adc(r.(f := r.f.(c := m % 2 == 1)), v), v)
  {
    var v := m / 2 + 128 * CarryIn(r.f);
    AdcSetsNZ(r.(f := r.f.(c := m % 2 == 1)), v, v);
    hide Mos6510.Adc;
  }

  lemma AdcSetsNZ(r: Regs, m: Byte, v: Byte)
    ensures Mos6510.Adc(r.(f := WithNZ(r.f, v)), m) == Mos6510.Adc(r, m)
  {
  }

  lemma ModifiedKeepsIndexes(op: ModifyOp, r: Regs, m: Byte)
    ensures Modified(op, r, m).0.x == r.x && Modified(op, r, m).0.y == r.y
  {
  }

  // ------------------------------------------------------------------ branches

  /** The branch target, and whether it lies in another page; `destAddr` is 32 bits wide and unsigned. */
  method BranchDest(pc: nat, offset: int) returns (dest: Word, crosses: bool)
    ensures dest == (pc % 65536 + offset) % 65536 && crosses == (pc % 65536 / 256 != dest / 256)
  {
    var destAddr := pc + offset;
    crosses := pc / 256 % 256 != destAddr / 256 % 256;
    dest := destAddr % 65536;
    BytesOfWrapped(pc);
    BytesOfWrapped(destAddr);
    WrappedFirst(pc, offset);
  }

  lemma WrappedFirst(pc: nat, offset: int)
    ensures (pc + offset) % 65536 == (pc % 65536 + offset) % 65536
  {
    var k := pc % 65536 + offset;
    assert pc + offset == 65536 * (pc / 65536 + k / 65536) + k % 65536;
  }
}
