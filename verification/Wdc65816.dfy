/** The register model of src/65816core.c: what the stack, mode and long-call macros do to the
    registers and to the flat 24-bit memory. */
module Wdc65816 {
  import opened ByteBits
  import opened Bitwise

  type Memory = s: seq<Byte> | |s| == 0x100_0000 witness seq(0x100_0000, _ => 0)

  /** Bit 5 of `p` is the M flag, bit 4 the X flag, which is the break bit in emulation mode. */
  datatype Regs = Regs(c: Word, x: Word, y: Word, sp: Word, d: Word, dbr: Byte, pbr: Byte, pc: Word,
                       e: int, p: Bits, flagN: Byte, flagZ: Byte)

  datatype Core = Core(r: Regs, mem: Memory)

  /** What a 16-bit variable, and a 24-bit address, make of a value that is out of range once. */
  function Wrap16(v: int): Word
    requires -0x1_0000 <= v < 0x2_0000
  {
    if v < 0 then v + 0x1_0000 else if v < 0x1_0000 then v else v - 0x1_0000
  }

  function Wrap24(v: nat): (a: nat)
    requires v < 0x200_0000
    ensures a < 0x100_0000
  {
    if v < 0x100_0000 then v else v - 0x100_0000
  }

  predicate Emulation(r: Regs) {
    r.e != 0
  }

  predicate Index8(r: Regs) {
    Emulation(r) || r.p.b4
  }

  /** What every instruction and interrupt entry keeps; N and Z are never kept in `p`. */
  predicate Modes(r: Regs) {
    && (r.e == 0 || r.e == 1)
    && !r.p.b7 && !r.p.b1
    && (Emulation(r) ==> r.sp / 256 == 1)
    && (Index8(r) ==> r.x < 256 && r.y < 256)
  }

  function Carry(r: Regs): int {
    if r.p.b0 then 1 else 0
  }

  predicate Sign(r: Regs) {
    r.flagN >= 128
  }

  predicate Zero(r: Regs) {
    r.flagZ == 0
  }

  /** LOCAL_SET_NZ: for 16-bit values N and Z live in two bytes that are not equal. */
  function WithNZ(r: Regs, v: nat, bits8: bool): Regs {
    if bits8 then r.(flagN := v % 256, flagZ := v % 256)
    else r.(flagN := v / 256 % 256, flagZ := Or(v % 256, v / 256 % 256))
  }

  lemma {:induction false} OrIsZero(a: nat, b: nat, width: nat)
    requires a < Pow2(width) && b < Pow2(width)
    ensures BitOr(a, b, width) == 0 <==> a == 0 && b == 0
  {
    if width > 0 {
      OrIsZero(a / 2, b / 2, width - 1);
    }
  }

  lemma OrOfBytesIsZero(a: Byte, b: Byte)
    ensures Or(a, b) == 0 <==> a == 0 && b == 0
  {
    EightBits();
    OrIsZero(a, b, 8);
  }

  lemma LowWord(v: nat)
    ensures v % 0x1_0000 == 256 * (v / 256 % 256) + v % 256
  {
    var q := v / 256;
    assert v == 0x1_0000 * (q / 256) + (256 * (q % 256) + v % 256);
  }

  /** The two-byte encoding is exact for every 16-bit result. */
  lemma WideFlagsExact(r: Regs, v: nat)
    ensures Sign(WithNZ(r, v, false)) == (v % 0x1_0000 >= 0x8000)
    ensures Zero(WithNZ(r, v, false)) == (v % 0x1_0000 == 0)
  {
    OrOfBytesIsZero(v % 256, v / 256 % 256);
    LowWord(v);
  }

  // ------------------------------------------------------------------ the status byte

  /** LOCAL_SET_STATUS, with the bits of the byte. */
  function Split(r: Regs, b: Bits, v: Byte): Regs {
    r.(p := b.(b7 := false, b1 := false), flagN := v, flagZ := if b.b1 then 0 else 1)
  }

  function WithStatus(r: Regs, v: Byte): (t: Regs)
    ensures !t.p.b7 && !t.p.b1 && t == r.(p := t.p, flagN := t.flagN, flagZ := t.flagZ)
  {
    Split(r, OfByte(v), v)
  }

  /** LOCAL_65816_STATUS, and LOCAL_STATUS, which forces the unused bit. */
  function NativeStatus(r: Regs): Byte {
    Value(r.p.(b7 := r.p.b7 || Sign(r), b1 := r.p.b1 || Zero(r)))
  }

  function EmulationStatus(r: Regs): Byte {
    Value(r.p.(b7 := r.p.b7 || Sign(r), b5 := true, b1 := r.p.b1 || Zero(r)))
  }

  /** The eight status bits as the program sees them. */
  function StatusOf(r: Regs): Bits {
    r.p.(b7 := Sign(r), b1 := Zero(r))
  }

  lemma SplitStatus(r: Regs, b: Bits, v: Byte)
    requires b.b7 <==> v >= 128
    ensures NativeStatus(Split(r, b, v)) == Value(b) && EmulationStatus(Split(r, b, v)) == Value(b.(b5 := true))
  {
  }

  lemma SplitBits(r: Regs, b: Bits, v: Byte)
    requires b.b7 <==> v >= 128
    ensures StatusOf(Split(r, b, v)) == b && !Split(r, b, v).p.b7 && !Split(r, b, v).p.b1
  {
  }

  lemma StatusSet(r: Regs, v: Byte)
    ensures StatusOf(WithStatus(r, v)) == OfByte(v) && !WithStatus(r, v).p.b7 && !WithStatus(r, v).p.b1
  {
    SplitBits(r, OfByte(v), v);
  }

  /** Setting the status and reading it back returns the byte: exactly in native mode, with the
      unused bit forced in emulation mode. */
  lemma StatusRoundTrip(r: Regs, v: Byte)
    ensures NativeStatus(WithStatus(r, v)) == v
    ensures OfByte(EmulationStatus(WithStatus(r, v))) == OfByte(v).(b5 := true)
  {
    SplitStatus(r, OfByte(v), v);
    OfByteValue(OfByte(v).(b5 := true));
  }

  // ------------------------------------------------------------------ the stack

  function PageOne(sp: int): Word {
    0x100 + sp % 256
  }

  /** The stack pointer after a push or a pull: in emulation mode it stays in page one. */
  function Down(r: Regs): Word {
    if Emulation(r) then PageOne(r.sp - 1) else Wrap16(r.sp - 1)
  }

  function Up(r: Regs): Word {
    if Emulation(r) then PageOne(r.sp + 1) else Wrap16(r.sp + 1)
  }

  function Pushed(s: Core, v: Byte): Core {
    s.(mem := s.mem[s.r.sp := v], r := s.r.(sp := Down(s.r)))
  }

  /** A store at SP and `reg_sp--`, which leaves page one in emulation mode. */
  function PushedUnwrapped(s: Core, v: Byte): Core {
    s.(mem := s.mem[s.r.sp := v], r := s.r.(sp := Wrap16(s.r.sp - 1)))
  }

  /** Two bytes, the first of them without wrapping. */
  function PushedWordUnwrapped(s: Core, w: Word): Core {
    Pushed(PushedUnwrapped(s, w / 256), w % 256)
  }

  function PushedWord(s: Core, w: Word): Core {
    Pushed(Pushed(s, w / 256), w % 256)
  }

  function Pulled(s: Core): Core {
    s.(r := s.r.(sp := Up(s.r)))
  }

  /** The byte that a pull returns: the one at the new SP. */
  function Top(s: Core): Byte {
    s.mem[Up(s.r)]
  }

  function TopWord(s: Core): Word {
    WordOf(Top(s), Top(Pulled(s)))
  }

  function At(s: Core, k: nat): Word
    requires k <= 3
  {
    Wrap16(s.r.sp + k)
  }

  /** SP after `k` unwrapped increments and the final fix-up. */
  function Dropped(r: Regs, k: nat): Word
    requires k <= 3
  {
    var sp := Wrap16(r.sp + k);
    if Emulation(r) then PageOne(sp) else sp
  }

  function Fetched(s: Core, k: nat): Byte
    requires k <= 3
  {
    s.mem[Wrap16(s.r.pc + k) + 0x1_0000 * s.r.pbr as int]
  }

  function NextPc(r: Regs, k: nat): Word
    requires k <= 4
  {
    Wrap16(r.pc + k)
  }

  // ------------------------------------------------------------------ modes

  /** 8-bit index registers have no high byte. */
  function Narrowed(r: Regs): Regs {
    if Index8(r) then r.(x := r.x % 256, y := r.y % 256) else r
  }

  function WithIndex(r: Regs, isX: bool, v: Word): Regs {
    if isX then r.(x := v) else r.(y := v)
  }

  function IndexOf(r: Regs, isX: bool): Word {
    if isX then r.x else r.y
  }

  /** A value loaded into or computed for an index register, with its flags. */
  function IndexLoaded(r: Regs, isX: bool, v: Word): Regs {
    var w := if Index8(r) then v % 256 else v;
    WithNZ(WithIndex(r, isX, w), w, Index8(r))
  }

  /** The bits of `s` set to `v` where `mask` has ones. */
  function Overwritten(s: Bits, mask: Bits, v: bool): Bits {
    Bits(if mask.b7 then v else s.b7, if mask.b6 then v else s.b6, if mask.b5 then v else s.b5,
         if mask.b4 then v else s.b4, if mask.b3 then v else s.b3, if mask.b2 then v else s.b2,
         if mask.b1 then v else s.b1, if mask.b0 then v else s.b0)
  }

  function SignZeroSet(r: Regs, value: Bits, v: bool): Regs {
    r.(flagN := if value.b7 then (if v then 0x80 else 0) else r.flagN,
       flagZ := if value.b1 then (if v then 0 else 1) else r.flagZ)
  }

  function ModesSet(r: Regs, value: Bits, v: bool): Regs {
    if Emulation(r) then r
    else Narrowed(r.(p := r.p.(b5 := if value.b5 then v else r.p.b5, b4 := if value.b4 then v else r.p.b4)))
  }

  function FlagsSet(r: Regs, value: Bits, v: bool): Regs {
    r.(p := r.p.(b6 := if value.b6 then v else r.p.b6, b3 := if value.b3 then v else r.p.b3,
                 b2 := if value.b2 then v else r.p.b2, b0 := if value.b0 then v else r.p.b0))
  }

  /** REP (`v` false) and SEP (`v` true). */
  function BitsSet(r: Regs, value: Bits, v: bool): Regs {
    FlagsSet(ModesSet(SignZeroSet(r, value, v), value, v), value, v)
  }

  /** Exactly the bits that the operand names change, except that M and X are out of reach in
      emulation mode; and the index registers stay within their width. */
  lemma BitsSetExactly(r: Regs, value: Bits, v: bool)
    requires Modes(r)
    ensures var mask := if Emulation(r) then value.(b5 := false, b4 := false) else value;
            StatusOf(BitsSet(r, value, v)) == Overwritten(StatusOf(r), mask, v)
    ensures Modes(BitsSet(r, value, v)) && BitsSet(r, value, v).e == r.e
  {
  }

  // ------------------------------------------------------------------ interrupts

  datatype Interrupt = BRK | COP | IRQ | NMI

  /** BRK and COP set the break bit and return past their signature byte. */
  predicate IsSoftware(kind: Interrupt) {
    kind == BRK || kind == COP
  }

  function ReturnAddress(r: Regs, kind: Interrupt): Word {
    if IsSoftware(kind) then NextPc(r, 2) else r.pc
  }

  function VectorOf(kind: Interrupt, emulation: bool): (v: Word)
    ensures v < 0xffff
  {
    match kind
    case BRK => if emulation then 0xfffe else 0xffe6
    case COP => if emulation then 0xfff4 else 0xffe4
    case IRQ => if emulation then 0xfffe else 0xffee
    case NMI => if emulation then 0xfffa else 0xffea
  }

  /** The stack frame of an interrupt; the break bit only exists in emulation mode. */
  function Framed(s: Core, brk: bool, returnTo: Word): Core {
    if Emulation(s.r) then
      var t := PushedWord(s.(r := s.r.(p := s.r.p.(b4 := brk))), returnTo);
      Pushed(t, EmulationStatus(t.r))
    else
      var t := PushedWord(Pushed(s, s.r.pbr), returnTo);
      Pushed(t, NativeStatus(t.r))
  }

  function Entered(s: Core, kind: Interrupt): Core {
    var u := Framed(s, IsSoftware(kind), ReturnAddress(s.r, kind));
    var vector := VectorOf(kind, Emulation(s.r));
    u.(r := u.r.(p := u.r.p.(b3 := false, b2 := true), pbr := 0, pc := WordOf(u.mem[vector], u.mem[vector + 1])))
  }

  function ReturnedFromInterrupt(s: Core): Core {
    var t := Pulled(s);
    var u := t.(r := Narrowed(WithStatus(t.r, Top(s))));
    var v := Pulled(Pulled(u));
    if Emulation(s.r) then v.(r := v.r.(pc := TopWord(u)))
    else Pulled(v).(r := Pulled(v).r.(pc := TopWord(u), pbr := Top(v)))
  }

  // ------------------------------------------------------------------ long calls and the direct register

  /** JSL: the bank byte of the target is fetched after the old bank has been pushed. */
  function CalledLong(s: Core): Core {
    var t := PushedUnwrapped(s, s.r.pbr);
    var u := PushedWordUnwrapped(t, NextPc(s.r, 3));
    u.(r := u.r.(pc := WordOf(Fetched(s, 1), Fetched(s, 2)), pbr := Fetched(t, 3)))
  }

  function ReturnedLong(s: Core): Core {
    s.(r := s.r.(sp := Dropped(s.r, 3), pbr := s.mem[At(s, 3)],
                 pc := Wrap16(WordOf(s.mem[At(s, 1)], s.mem[At(s, 2)]) as int + 1)))
  }

  /** JSR (abs,X): the return address is pushed before the high operand byte is fetched. */
  function CalledIndirect(s: Core): Core {
    var t := PushedWordUnwrapped(s, NextPc(s.r, 2));
    t.(r := t.r.(pc := Vector(t, Wrap16(WordOf(Fetched(s, 1), Fetched(t, 2)) + s.r.x))))
  }

  /** The word at `ea` of the program bank. */
  function Vector(s: Core, ea: Word): Word {
    WordOf(s.mem[ea + 0x1_0000 * s.r.pbr as int], s.mem[Wrap16(ea + 1) + 0x1_0000 * s.r.pbr as int])
  }

  function Returned(s: Core): Core {
    var t := Pulled(Pulled(s));
    t.(r := t.r.(pc := Wrap16(TopWord(s) as int + 1)))
  }

  function DirectPushed(s: Core): Core {
    var t := PushedWordUnwrapped(s, s.r.d);
    t.(r := t.r.(pc := NextPc(s.r, 1)))
  }

  function DirectPulled(s: Core): Core {
    var v := WordOf(s.mem[At(s, 1)], s.mem[At(s, 2)]);
    s.(r := WithNZ(s.r.(sp := Dropped(s.r, 2), d := v, pc := NextPc(s.r, 1)), v, false))
  }
}
