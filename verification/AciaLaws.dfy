/** What the ACIA does with its registers, said of register numbers, byte values and cycles, without the
    functions that the model and the class share. */
module AciaLaws {
  import opened Clocks
  import opened Options
  import opened ByteBits
  import opened AciaModel
  import opened AciaSnapshot

  // ------------------------------------------------------------------ the character time

  /** Bits per second by the low four bits of the control register, the first standing for an external
      clock, which the Turbo232 replaces by a rate of the extended register. */
  const RATES := [
    10.0, 50.0, 75.0, 109.92, 134.58, 150.0, 300.0, 600.0,
    1200.0, 1800.0, 2400.0, 3600.0, 4800.0, 7200.0, 9600.0, 19200.0
  ]

  const EXTENDED_RATES := [230400.0, 115200.0, 57600.0, 28800.0]

  function Rate(mode: Mode, code: nat, extended: nat): real
    requires code < 16 && extended < 4
  {
    if mode == Normal then RATES[code]
    else if mode == Turbo232 && code == 0 then EXTENDED_RATES[extended]
    else 2.0 * RATES[code]
  }

  /** Start bit, eight to five data bits, parity bit and one or two stop bits, from the register values. */
  function Frame(cmd: nat, ctrl: nat): int {
    1 + (8 - ctrl / 32 % 4) + cmd / 32 % 2 + 1 + ctrl / 128 % 2
  }

  /** The rates strictly increase with the code, and the extended ones decrease. */
  lemma RatesIncrease(i: nat, j: nat)
    requires i < j < 16
    ensures 0.0 < RATES[i] < RATES[j]
    ensures j < 4 ==> EXTENDED_RATES[i] > EXTENDED_RATES[j] > 0.0
  {
  }

  /** The same code runs a Swiftlink or a Turbo232 at twice the rate, but for the external clock of the
      latter. */
  lemma RatesDouble(mode: Mode, code: nat, extended: nat)
    requires code < 16 && extended < 4 && mode != Normal
    ensures Rate(mode, code, extended) == 2.0 * Rate(Normal, code, extended) <==> mode == Swiftlink || code != 0
  {
  }

  lemma LowDigits(b: Bits)
    ensures Value(b) % 16 == One(b.b0) + 2 * One(b.b1) + 4 * One(b.b2) + 8 * One(b.b3)
    ensures Value(b) % 4 == One(b.b0) + 2 * One(b.b1)
  {
    ByPowers(b);
    hide Value;
  }

  lemma FrameDigits(b: Bits)
    ensures Value(b) / 32 % 4 == One(b.b5) + 2 * One(b.b6)
    ensures Value(b) / 32 % 2 == One(b.b5) && Value(b) / 128 % 2 == One(b.b7)
  {
    ByPowers(b);
    hide Value;
  }

  lemma RateIs(mode: Mode, ctrl: Bits, ectrl: Bits)
    ensures Bps(mode, ctrl, ectrl) == Rate(mode, Value(ctrl) % 16, Value(ectrl) % 4)
  {
    LowDigits(ctrl);
    LowDigits(ectrl);
    hide Value;
  }

  lemma FrameIs(cmd: Bits, ctrl: Bits)
    ensures FrameBits(cmd, ctrl) == Frame(Value(cmd), Value(ctrl))
  {
    FrameDigits(cmd);
    FrameDigits(ctrl);
    hide Value;
  }

  /** `t` are the whole cycles that `bits` bits take: what is left of `cycles * bits` is less than the rate. */
  predicate WholeCycles(t: int, cycles: nat, rate: real, bits: int) {
    0.0 <= cycles as real * bits as real - t as real * rate < rate
  }

  lemma FrameTicksIs(cycles: nat, rate: real, bits: nat)
    requires rate > 0.0
    ensures WholeCycles(FrameTicks(cycles, rate, bits), cycles, rate, bits)
  {
    var q := cycles as real / rate;
    var t := FrameTicks(cycles, rate, bits);
    assert q * rate == cycles as real;
    assert q * bits as real * rate == cycles as real * bits as real;
    FloorProduct(q * bits as real, rate, t, cycles as real * bits as real);
  }

  lemma FloorProduct(x: real, rate: real, t: int, p: real)
    requires rate > 0.0 && t == x.Floor && x * rate == p
    ensures 0.0 <= p - t as real * rate < rate
  {
    var y := t as real;
    LeftOver(x, y, x - y, rate, p, y * rate);
  }

  lemma LeftOver(x: real, y: real, part: real, rate: real, p: real, s: real)
    requires rate > 0.0 && x * rate == p && y * rate == s && part == x - y && 0.0 <= part < 1.0
    ensures 0.0 <= p - s < rate
  {
    assert part * rate == p - s;
    Between(part, rate);
  }

  lemma Between(part: real, rate: real)
    requires rate > 0.0 && 0.0 <= part < 1.0
    ensures 0.0 <= part * rate < rate
  {
    ProductOrder(part, 0.0, rate);
    ProductOrder(part, 1.0, rate);
  }

  /** The character time is the whole cycles of one frame at the listed rate. */
  lemma TicksExact(cfg: Config, cmd: Bits, ctrl: Bits, ectrl: Bits)
    ensures WholeCycles(Ticks(cfg, cmd, ctrl, ectrl), cfg.cyclesPerSecond,
                        Rate(cfg.mode, Value(ctrl) % 16, Value(ectrl) % 4), Frame(Value(cmd), Value(ctrl)))
  {
    RateIs(cfg.mode, ctrl, ectrl);
    FrameIs(cmd, ctrl);
    FrameTicksIs(cfg.cyclesPerSecond, Bps(cfg.mode, ctrl, ectrl), FrameBits(cmd, ctrl));
    hide Bps, FrameBits, Frame, Rate, FrameTicks, WholeCycles, Value;
  }

  /** No other number of cycles is. */
  lemma WholeCyclesOnce(t: int, u: int, cycles: nat, rate: real, bits: int)
    requires rate > 0.0 && WholeCycles(t, cycles, rate, bits) && WholeCycles(u, cycles, rate, bits)
    ensures t == u
  {
    var p := cycles as real * bits as real;
    NotLess(t, u, rate, p);
    NotLess(u, t, rate, p);
  }

  lemma NotLess(t: int, u: int, rate: real, p: real)
    requires rate > 0.0 && 0.0 <= p - u as real * rate && p - t as real * rate < rate
    ensures t >= u
  {
    var k := u as real - t as real;
    assert k * rate == u as real * rate - t as real * rate;
    ProductOrder(k, 1.0, rate);
  }

  /** A Swiftlink at 38400 bps with eight bits, no parity and one stop bit, on a PAL machine. */
  lemma At38400(cmd: Bits, ctrl: Bits, ectrl: Bits, wired: bool)
    requires Value(ctrl) == 0x0f && Value(cmd) / 32 % 2 == 0
    ensures Ticks(Config(Swiftlink, 985248, wired), cmd, ctrl, ectrl) == 256
  {
    hide Value, Ticks;
    var cfg := Config(Swiftlink, 985248, wired);
    TicksExact(cfg, cmd, ctrl, ectrl);
    assert WholeCycles(256, 985248, 38400.0, 10);
    WholeCyclesOnce(Ticks(cfg, cmd, ctrl, ectrl), 256, 985248, 38400.0, 10);
  }

  lemma HalfTheCycles(t: int, cycles: nat, rate: real, bits: int)
    requires WholeCycles(t, cycles, rate, bits)
    ensures WholeCycles(t / 2, cycles, 2.0 * rate, bits)
  {
    var h, b := t / 2, t % 2;
    assert t == 2 * h + b;
    HalfProduct(h, b, t, rate, h as real * (2.0 * rate), t as real * rate);
  }

  lemma HalfProduct(h: int, b: int, t: int, rate: real, x: real, y: real)
    requires t == 2 * h + b && 0 <= b < 2 && x == h as real * (2.0 * rate) && y == t as real * rate
    ensures y == x + (if b == 1 then rate else 0.0)
  {
    var k := h as real;
    assert t as real == 2.0 * k + b as real;
    assert k * (2.0 * rate) == 2.0 * k * rate;
    assert (2.0 * k + b as real) * rate == 2.0 * k * rate + b as real * rate;
  }

  /** A character takes a Swiftlink, and with a code other than the first a Turbo232, half the cycles. */
  lemma HalfTheTime(cfg: Config, cmd: Bits, ctrl: Bits, ectrl: Bits)
    requires cfg.mode == Swiftlink || (cfg.mode == Turbo232 && Value(ctrl) % 16 != 0)
    ensures Ticks(cfg, cmd, ctrl, ectrl) == Ticks(cfg.(mode := Normal), cmd, ctrl, ectrl) / 2
  {
    hide Value, Ticks, WholeCycles, Frame;
    var slow := cfg.(mode := Normal);
    var bits, rate := Frame(Value(cmd), Value(ctrl)), RATES[Value(ctrl) % 16];
    PositiveRate(Value(ctrl) % 16);
    TicksExact(cfg, cmd, ctrl, ectrl);
    TicksExact(slow, cmd, ctrl, ectrl);
    HalfTheCycles(Ticks(slow, cmd, ctrl, ectrl), cfg.cyclesPerSecond, rate, bits);
    WholeCyclesOnce(Ticks(cfg, cmd, ctrl, ectrl), Ticks(slow, cmd, ctrl, ectrl) / 2, cfg.cyclesPerSecond,
                    2.0 * rate, bits);
  }

  lemma PositiveRate(code: nat)
    requires code < 16
    ensures RATES[code] > 0.0
  {
  }

  // ------------------------------------------------------------------ register values

  /** The register that an address selects: the Turbo232 decodes three address lines, the others two. */
  function Number(mode: Mode, addr: nat): nat {
    if mode == Turbo232 then addr % 8 else addr % 4
  }

  /** Bit 0 of the command register is DTR; bits 3 and 2 are the transmitter control. */
  predicate Ready(cmd: Bits) {
    Value(cmd) % 2 == 1
  }

  function Transmitter(cmd: Bits): nat {
    Value(cmd) / 4 % 4
  }

  lemma CommandFields(cmd: Bits)
    ensures Dtr(cmd) == Ready(cmd) && NoRts(cmd) == (Transmitter(cmd) == 0)
    ensures InterruptOnTransmit(cmd) == (Transmitter(cmd) == 1)
    ensures ExternalClock(cmd) == (Value(cmd) % 16 == 0)
  {
    LowDigits(cmd);
    TransmitterDigits(cmd);
    hide Value;
  }

  lemma TransmitterDigits(b: Bits)
    ensures Value(b) / 4 % 4 == One(b.b2) + 2 * One(b.b3) && Value(b) % 2 == One(b.b0)
  {
    ByPowers(b);
    hide Value;
  }

  // ------------------------------------------------------------------ writes

  /** A clock some cycles on, modulo 32 bits. */
  function OnBy(clk: Clock, k: int): Clock {
    (clk + k) % 0x1_0000_0000
  }

  /** The character time that the registers of `t` ask for, and the receive time, a quarter longer. */
  predicate Timed(cfg: Config, t: State) {
    t.r.ticks == Ticks(cfg, t.r.cmd, t.r.ctrl, t.r.ectrl) && t.r.ticksRx == t.r.ticks * 5 / 4
  }

  /** Nothing but the character times and the receive deadline differs: a pending deadline starts over. */
  predicate Retimed(cfg: Config, s: State, t: State, clk: Clock) {
    && Timed(cfg, t) && t.r == s.r.(ticks := t.r.ticks, ticksRx := t.r.ticksRx) && t.txAt == s.txAt
    && t.rxAt == if s.rxAt.Some? then Some(OnBy(clk, t.r.ticksRx)) else None
  }

  /** Address 0: with DTR on, the byte waits for a transmission that starts with the next cycle, if none is
      scheduled; with DTR off it is only held. */
  lemma DataWritten(cfg: Config, s: State, addr: nat, byte: Bits, clk: Clock, openOk: bool)
    requires Number(cfg.mode, addr) == 0
    ensures Write(cfg, s, addr, byte, clk, openOk)
            == if !Ready(s.r.cmd) then s.(r := s.r.(txdata := byte))
               else State(s.r.(txdata := byte, inTx := 2, status := s.r.status.(b4 := false)),
                          if s.txAt.Some? then s.txAt else Some(OnBy(clk, 1)), s.rxAt)
  {
    hide Value;
    CommandFields(s.r.cmd);
  }

  /** Address 3: the control register, and the rate. */
  lemma ControlWritten(cfg: Config, s: State, addr: nat, byte: Bits, clk: Clock, openOk: bool)
    requires Number(cfg.mode, addr) == 3
    ensures Retimed(cfg, s.(r := s.r.(ctrl := byte)), Write(cfg, s, addr, byte, clk, openOk), clk)
  {
    hide Ticks;
  }

  /** Address 7, which only the Turbo232 has: the extended rate, while code 0 selects it. */
  lemma ExtendedWritten(cfg: Config, s: State, addr: nat, byte: Bits, clk: Clock, openOk: bool)
    requires Number(cfg.mode, addr) == 7
    ensures var t := Write(cfg, s, addr, byte, clk, openOk);
            if Value(s.r.ctrl) % 16 == 0 then Retimed(cfg, s.(r := s.r.(ectrl := byte)), t, clk) else t == s
  {
    hide Ticks, Value;
    CommandFields(s.r.ctrl);
  }

  /** The addresses between do nothing. */
  lemma NothingWritten(cfg: Config, s: State, addr: nat, byte: Bits, clk: Clock, openOk: bool)
    requires 4 <= Number(cfg.mode, addr) < 7
    ensures Write(cfg, s, addr, byte, clk, openOk) == s
  {
  }

  /** The lines follow the command register, and RTS decides about reception: off stops it, on starts it if
      it is not running. */
  predicate Shaken(cfg: Config, s: State, t: State, clk: Clock) {
    var on := Transmitter(s.r.cmd) != 0;
    && t.r == s.r.(lines := Lines(on, Ready(s.r.cmd)), ticks := t.r.ticks, ticksRx := t.r.ticksRx) && t.txAt == s.txAt
    && if on && s.rxAt.None? then Timed(cfg, t) && t.rxAt == Some(OnBy(clk, t.r.ticksRx))
       else t.r.ticks == s.r.ticks && t.r.ticksRx == s.r.ticksRx && t.rxAt == if on then s.rxAt else None
  }

  lemma HandshakeIs(cfg: Config, s: State, clk: Clock)
    ensures Shaken(cfg, s, WithHandshake(cfg, s, clk), clk)
  {
    hide Ticks, Value;
    CommandFields(s.r.cmd);
  }

  /** Address 1: a programmed reset closes the port, stops the transmitter, clears overrun and interrupt, and
      keeps of the command register the top three bits. */
  lemma ResetWritten(cfg: Config, s: State, addr: nat, byte: Bits, clk: Clock, openOk: bool)
    requires Number(cfg.mode, addr) == 1
    ensures var t := Write(cfg, s, addr, byte, clk, openOk);
            var r := s.r.(fdOpen := false, status := s.r.status.(b2 := false), cmd := t.r.cmd, inTx := 0, irq := false,
                          line := if cfg.wired then false else s.r.line);
            Shaken(cfg, State(r, None, s.rxAt), t, clk) && Value(t.r.cmd) == Value(s.r.cmd) / 32 * 32
  {
    var u := State(ResetRegs(cfg, s.r), None, s.rxAt);
    HandshakeIs(cfg, u, clk);
    TopThree(s.r.cmd, u.r.cmd);
    hide Ticks, Value, Shaken;
  }

  lemma TopThree(b: Bits, c: Bits)
    requires c == b.(b4 := false, b3 := false, b2 := false, b1 := false, b0 := false)
    ensures Value(c) == Value(b) / 32 * 32
  {
    ByPowers(b);
    ByPowers(c);
    hide Value;
  }

  /** Address 2: the lines follow, then DTR opens the port, which starts reception whatever the driver answers,
      or closes it, which stops the transmission. */
  lemma CommandWritten(cfg: Config, s: State, addr: nat, byte: Bits, clk: Clock, openOk: bool) returns (u: State)
    requires Number(cfg.mode, addr) == 2
    ensures Shaken(cfg, s.(r := s.r.(cmd := byte)), u, clk)
    ensures var t := Write(cfg, s, addr, byte, clk, openOk);
            if Ready(byte) && !s.r.fdOpen then Retimed(cfg, State(u.r.(fdOpen := openOk), u.txAt, Some(clk)), t, clk)
            else t == if Ready(byte) then u else if s.r.fdOpen then State(u.r.(fdOpen := false), None, u.rxAt) else u
  {
    hide Ticks, Value;
    u := WithHandshake(cfg, s.(r := s.r.(cmd := byte)), clk);
    HandshakeIs(cfg, s.(r := s.r.(cmd := byte)), clk);
    CommandFields(byte);
    hide WithHandshake;
  }

  /** A read-modify-write instruction writes the byte last read one cycle earlier. */
  lemma StoreExact(cfg: Config, s: State, addr: nat, byte: Bits, clk: Clock, openOk: bool, openOk2: bool)
    ensures Store(cfg, s, addr, byte, clk, true, openOk, openOk2)
            == Write(cfg, Write(cfg, s, addr, s.r.lastRead, OnBy(clk, -1), openOk), addr, byte, clk, openOk2)
    ensures Store(cfg, s, addr, byte, clk, false, openOk, openOk2) == Write(cfg, s, addr, byte, clk, openOk2)
  {
  }

  // ------------------------------------------------------------------ reads and reset

  /** The data register yields the byte received, and is empty then. */
  lemma DataRead(cfg: Config, r: Regs, addr: nat, dsr: bool)
    requires Number(cfg.mode, addr) == 0
    ensures ReadByte(cfg, r, addr, dsr) == r.rxdata
    ensures Read(cfg, r, addr, dsr) == r.(lastRead := r.rxdata, status := r.status.(b3 := false))
  {
  }

  /** The status register shows the interrupt in bit 7, no DCD in bit 6 and the modem line in bit 5; reading it
      ends the interrupt. */
  lemma StatusRead(cfg: Config, r: Regs, addr: nat, dsr: bool)
    requires Number(cfg.mode, addr) == 1
    ensures var modem := r.status.(b6 := false, b5 := dsr); var byte := modem.(b7 := r.irq || r.status.b7);
            && ReadByte(cfg, r, addr, dsr) == byte
            && Read(cfg, r, addr, dsr)
               == r.(lastRead := byte, status := modem, irq := false, line := if cfg.wired then false else r.line)
  {
  }

  /** Command and control read as written, the extended register, while it rules, four higher; the addresses
      between yield 0xFF. */
  lemma OtherRead(cfg: Config, r: Regs, addr: nat, dsr: bool)
    requires Number(cfg.mode, addr) >= 2
    ensures var n, byte := Number(cfg.mode, addr), ReadByte(cfg, r, addr, dsr);
            && (n == 2 ==> byte == r.cmd) && (n == 3 ==> byte == r.ctrl) && (4 <= n < 7 ==> Value(byte) == 255)
            && (n == 7 ==> Value(byte)
                           == if Value(r.ctrl) % 16 == 0 then (Value(r.ectrl) + 4) % 256 else Value(r.ectrl))
            && Read(cfg, r, addr, dsr) == if n < 4 then r.(lastRead := byte) else r
  {
    hide Value, PlusActive;
    CommandFields(r.ctrl);
    FourHigher(r.ectrl);
    ByPowers(ALL_ONES);
  }

  lemma FourHigher(b: Bits)
    ensures Value(PlusActive(b)) == (Value(b) + 4) % 256
  {
    hide Value;
    var c := PlusActive(b);
    ByPowers(b);
    ByPowers(c);
    if b.b2 && b.b3 && b.b4 && b.b5 && b.b6 && b.b7 {
      assert Value(c) == Value(b) + 4 - 256;
    } else {
      assert Value(c) == Value(b) + 4;
    }
  }

  /** A hardware reset. */
  lemma ResetExact(cfg: Config, s: State)
    ensures var t := HardwareReset(cfg, s);
            && Value(t.r.cmd) == 0 && Value(t.r.ctrl) == 0 && Value(t.r.ectrl) == 0 && Value(t.r.status) == 16
            && t.r.lines == Lines(false, false) && !t.r.irq && !t.r.fdOpen && t.r.inTx == 0 && Timed(cfg, t)
            && t.txAt == None && t.rxAt == None && (cfg.wired ==> !t.r.line)
            && t.r.txdata == s.r.txdata && t.r.rxdata == s.r.rxdata
  {
    hide Value, Ticks;
    ByPowers(ZERO);
    ByPowers(ZERO.(b4 := true));
  }

  // ------------------------------------------------------------------ the transmit alarm

  /** A waiting byte is sent, if the port is open, with an interrupt for transmitter control 01; the transmitter
      is then busy for one character time, and idle at the next alarm. */
  lemma AlarmExact(cfg: Config, s: State, clk: Clock)
    requires 0 <= s.r.inTx <= 2
    ensures var t, sent := TransmitAlarm(cfg, s, clk), s.r.inTx == 2 && s.r.fdOpen;
            var raised := sent && Transmitter(s.r.cmd) == 1;
            && Transmits(s.r) == (if sent then Some(s.r.txdata) else None)
            && t.r == s.r.(inTx := if s.r.inTx == 2 then 1 else 0, status := s.r.status.(b4 := sent || s.r.status.b4),
                           irq := raised || s.r.irq, line := if raised && cfg.wired then true else s.r.line)
            && t.txAt == (if s.r.inTx == 2 then Some(OnBy(clk, s.r.ticks)) else None) && t.rxAt == s.rxAt
  {
    hide Value;
    CommandFields(s.r.cmd);
  }

  /** The receive alarm takes a byte, if the port is open and there is one, with overrun if the last was not
      read, and an interrupt unless bit 1 of the command register forbids it; it is always set again. */
  lemma ReceptionExact(cfg: Config, s: State, clk: Clock, input: Option<Bits>)
    ensures var t, got, b := ReceiveAlarm(cfg, s, clk, input), s.r.fdOpen && input.Some?, s.r.status;
            var raised := got && Value(s.r.cmd) / 2 % 2 == 0;
            && t.r == s.r.(rxdata := if got then input.value else s.r.rxdata,
                           status := b.(b3 := got || b.b3, b2 := (got && b.b3) || b.b2),
                           irq := raised || s.r.irq, line := if raised && cfg.wired then true else s.r.line)
            && t.txAt == s.txAt && t.rxAt == Some(OnBy(clk, s.r.ticksRx))
  {
    ByDigits(s.r.cmd);
    hide Value;
  }

  // ------------------------------------------------------------------ snapshots

  lemma BytesFrom(b: seq<Bits>, i: nat)
    requires i < |b|
    ensures FromBytes(b[i..]) == Value(b[i]) + 256 * FromBytes(b[i + 1..])
  {
    assert b[i..][1..] == b[i + 1..];
  }

  /** A 32-bit field is stored low byte first. */
  lemma FieldExact(d: Clock)
    ensures var b := DwordBytes(d);
            d == Value(b[0]) + 256 * Value(b[1]) + 65536 * Value(b[2]) + 16777216 * Value(b[3])
  {
    DwordRoundTrip(d);
    var b := DwordBytes(d);
    assert b[0..] == b && b[4..] == [];
    assert FromBytes(b[4..]) == 0;
    hide FromBytes, Value, DwordBytes;
    BytesFrom(b, 0);
    BytesFrom(b, 1);
    BytesFrom(b, 2);
    BytesFrom(b, 3);
  }

  /** The reader takes version 1.0, and nothing newer, with at least ten bytes; a missing module leaves the chip
      without alarms and without an interrupt. */
  lemma VersionsRead(cfg: Config, s: State, major: nat, minor: nat, b: seq<Bits>, clk: Clock, openOk: bool)
    ensures Restore(cfg, s, Present(major, minor, b), clk, openOk).1 == (major <= 1 && minor == 0 && |b| >= 10)
    ensures var line := if cfg.wired then false else s.r.line;
            Restore(cfg, s, Absent, clk, openOk) == (State(s.r.(line := line), None, None), false)
  {
    hide Restored;
  }
}
