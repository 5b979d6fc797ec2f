/** Registers as both 6510 cores hold them, and the opcode macros whose text the cores share.
    The status byte is split: N and Z live in two separate bytes, the rest in `p`. */
module RegisterMacros {
  import opened ByteBits
  import opened Bitwise
  import opened Mos6510

  datatype Native = Native(a: Byte, x: Byte, y: Byte, sp: Byte, p: Bits, flagN: Byte, flagZ: Byte) {
    function SetNZ(v: Byte): Native {
      this.(flagN := v, flagZ := v)
    }

    function SetOverflow(b: bool): Native {
      this.(p := p.(b6 := b))
    }

    function SetBreak(b: bool): Native {
      this.(p := p.(b4 := b))
    }

    function SetDecimal(b: bool): Native {
      this.(p := p.(b3 := b))
    }

    function SetInterrupt(b: bool): Native {
      this.(p := p.(b2 := b))
    }

    function SetCarry(b: bool): Native {
      this.(p := p.(b0 := b))
    }

    function SetSign(b: bool): Native {
      this.(flagN := if b then 0x80 else 0)
    }

    function SetZero(b: bool): Native {
      this.(flagZ := if b then 0 else 1)
    }

    function SetStatus(v: Byte): Native {
      Split(OfByte(v), v)
    }

    /** The status byte `v`, whose bits are `b`, taken apart. */
    function Split(b: Bits, v: Byte): Native {
      this.(p := b.(b1 := false, b7 := false), flagN := v).SetZero(b.b1)
    }

    predicate Sign() {
      flagN >= 0x80
    }

    predicate Zero() {
      flagZ == 0
    }

    function Carry(): nat {
      if p.b0 then 1 else 0
    }

    function Status(): Byte {
      Value(p.(b7 := p.b7 || Sign(), b5 := true, b1 := p.b1 || Zero()))
    }

    /** The N and Z bits of `p` are never set, so the rebuilt status is faithful. */
    predicate Clean() {
      !p.b7 && !p.b1
    }

    function Flagged(): Flags {
      Flags(Sign(), p.b6, p.b3, p.b2, Zero(), p.b0)
    }

    function Abstract(): Regs {
      Regs(a, x, y, sp, Flagged())
    }
  }

  /** A clean register file pushes exactly its flags, with the unused bit set. */
  lemma StatusIsFaithful(r: Native)
    requires r.Clean()
    ensures r.Status() == Value(StatusBits(r.Flagged(), r.p.b4))
  {
  }

  lemma SplitIsFaithful(r: Native, b: Bits, v: Byte)
    requires b.b7 <==> v >= 128
    ensures r.Split(b, v).Clean() && r.Split(b, v).Flagged() == FlagsOf(b)
    ensures r.Split(b, v).Status() == Value(b.(b5 := true))
  {
  }

  /** Setting the status and reading it back gives the byte with the unused bit forced. */
  lemma StatusRoundTrip(r: Native, v: Byte)
    ensures r.SetStatus(v).Clean() && r.SetStatus(v).Flagged() == FlagsOf(OfByte(v))
    ensures OfByte(r.SetStatus(v).Status()) == OfByte(v).(b5 := true)
  {
    SplitIsFaithful(r, OfByte(v), v);
    OfByteValue(OfByte(v).(b5 := true));
  }
}
