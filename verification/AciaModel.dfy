/** The ACIA 6551 as a value: its registers, its transmitter and the two deadlines it has queued.
    The class in Acia.dfy keeps its own copies of the deadlines and of "alarm active" flags; here a
    deadline is either present or not. */
module AciaModel {
  import opened Clocks
  import opened Options
  import opened ByteBits

  type Register = r: int | 0 <= r < 8

  const DR: Register := 0
  const SR: Register := 1
  const CMD: Register := 2
  const CTRL: Register := 3
  const ECTRL: Register := 7

  // Status register: b7 interrupt, b6 DCD, b5 DSR, b4 transmit register empty,
  // b3 receive register full, b2 overrun.
  // Command register: b7 b6 parity type, b5 parity enabled, b3 b2 transmitter control,
  // b1 interrupt disabled, b0 DTR.
  // Control register: b7 two stop bits, b6 b5 word length, b3..b0 bit rate.
  // Extended control register: b1 b0 bit rate; b2 reads as "active".

  // Handshake output lines.
  datatype Lines = Lines(rts: bool, dtr: bool)

  // Transmitter states; the transmit alarm counts them down, over 1 for a character under way.
  const NO_TRANSMIT := 0
  const DR_WRITTEN := 2

  datatype Mode = Normal | Swiftlink | Turbo232

  /** What does not change while the chip runs; `wired` is false for the interrupt type "none". */
  datatype Config = Config(mode: Mode, cyclesPerSecond: nat, wired: bool)

  datatype Regs = Regs(
    cmd: Bits, ctrl: Bits, ectrl: Bits, status: Bits, rxdata: Bits, txdata: Bits, lastRead: Bits,
    inTx: int, irq: bool, line: bool, fdOpen: bool, lines: Lines, ticks: int, ticksRx: int)

  /** The registers and the two queued deadlines. */
  datatype State = State(r: Regs, txAt: Option<Clock>, rxAt: Option<Clock>)

  predicate Dtr(cmd: Bits) {
    cmd.b0
  }

  /** RTS is off only for transmitter control 00. */
  predicate NoRts(cmd: Bits) {
    !cmd.b3 && !cmd.b2
  }

  predicate InterruptOnTransmit(cmd: Bits) {
    !cmd.b3 && cmd.b2
  }

  predicate ExternalClock(ctrl: Bits) {
    !ctrl.b3 && !ctrl.b2 && !ctrl.b1 && !ctrl.b0
  }

  // ------------------------------------------------------------------ timing

  function TableBps(ctrl: Bits): (r: real)
    ensures 10.0 <= r <= 19200.0
  {
    match (ctrl.b3, ctrl.b2, ctrl.b1, ctrl.b0)
    case (false, false, false, false) => 10.0
    case (false, false, false, true) => 50.0
    case (false, false, true, false) => 75.0
    case (false, false, true, true) => 109.92
    case (false, true, false, false) => 134.58
    case (false, true, false, true) => 150.0
    case (false, true, true, false) => 300.0
    case (false, true, true, true) => 600.0
    case (true, false, false, false) => 1200.0
    case (true, false, false, true) => 1800.0
    case (true, false, true, false) => 2400.0
    case (true, false, true, true) => 3600.0
    case (true, true, false, false) => 4800.0
    case (true, true, false, true) => 7200.0
    case (true, true, true, false) => 9600.0
    case (true, true, true, true) => 19200.0
  }

  function ExtendedBps(ectrl: Bits): (r: real)
    ensures 28800.0 <= r <= 230400.0
  {
    match (ectrl.b1, ectrl.b0)
    case (false, false) => 230400.0
    case (false, true) => 115200.0
    case (true, false) => 57600.0
    case (true, true) => 28800.0
  }

  function Bps(mode: Mode, ctrl: Bits, ectrl: Bits): (r: real)
    ensures 10.0 <= r <= 230400.0
  {
    match mode
    case Normal => TableBps(ctrl)
    case Swiftlink => TableBps(ctrl) * 2.0
    case Turbo232 => if ExternalClock(ctrl) then ExtendedBps(ectrl) else TableBps(ctrl) * 2.0
  }

  /** Start bit, data bits, parity bit, and stop bits (1.5 stop bits count as 2). */
  function FrameBits(cmd: Bits, ctrl: Bits): (r: int)
    ensures 7 <= r <= 12
  {
    (match (ctrl.b6, ctrl.b5)
     case (false, false) => 8
     case (false, true) => 7
     case (true, false) => 6
     case (true, true) => 5)
    + 1
    + (if cmd.b5 then 1 else 0)
    + (if ctrl.b7 then 2 else 1)
  }

  function Ticks(cfg: Config, cmd: Bits, ctrl: Bits, ectrl: Bits): (r: int)
    ensures r >= 0
  {
    FrameTicks(cfg.cyclesPerSecond, Bps(cfg.mode, ctrl, ectrl), FrameBits(cmd, ctrl))
  }

  /** Cycles per second over bits per second, times the bits of a frame, truncated.  A character
      takes at least one cycle exactly when the machine runs at least as many cycles per second as
      the line carries frames. */
  function FrameTicks(cycles: nat, bps: real, bits: nat): (r: int)
    requires bps > 0.0
    ensures r >= 0
    ensures r >= 1 <==> cycles as real * bits as real >= bps
  {
    ScaledQuotient(cycles as real, bps, bits as real);
    (cycles as real / bps * bits as real).Floor
  }

  /** 32915 cycles per second are enough for every rate and frame. */
  lemma EnoughCycles(cfg: Config, cmd: Bits, ctrl: Bits, ectrl: Bits)
    requires cfg.cyclesPerSecond >= 32915
    ensures Ticks(cfg, cmd, ctrl, ectrl) >= 1
  {
    FastEnough(cfg.cyclesPerSecond, Bps(cfg.mode, ctrl, ectrl), FrameBits(cmd, ctrl));
  }

  lemma FastEnough(cycles: nat, bps: real, bits: nat)
    requires cycles >= 32915 && 0.0 < bps <= 230400.0 && bits >= 7
    ensures FrameTicks(cycles, bps, bits) >= 1
  {
    ProductMonotone(32915.0, cycles as real, 7.0, bits as real);
    assert 32915.0 * 7.0 == 230405.0;
  }

  lemma ScaledQuotient(c: real, b: real, n: real)
    requires c >= 0.0 && b > 0.0 && n >= 0.0
    ensures c / b * n >= 0.0
    ensures c / b * n >= 1.0 <==> c * n >= b
  {
    var q := c / b;
    assert q * b == c;
    assert (q * n) * b == c * n;
    ProductOrder(q * n, 1.0, b);
    ProductOrder(q * n, 0.0, b);
    assert c * n >= 0.0;
  }

  lemma ProductOrder(x: real, y: real, b: real)
    requires b > 0.0
    ensures x >= y <==> x * b >= y * b
  {
    assert x * b - y * b == (x - y) * b;
  }

  lemma ProductMonotone(x: real, y: real, a: real, b: real)
    requires 0.0 <= x <= y && 0.0 <= a <= b
    ensures x * a <= y * b
  {
    assert y * b - x * a == y * (b - a) + (y - x) * a;
  }

  // ------------------------------------------------------------------ register writes

  /** acia_set_int: the line follows the request unless the interrupt type is "none". */
  function Line(cfg: Config, r: Regs, value: bool): bool {
    if cfg.wired then value else r.line
  }

  function Rated(cfg: Config, r: Regs): Regs {
    var ticks := Ticks(cfg, r.cmd, r.ctrl, r.ectrl);
    r.(ticks := ticks, ticksRx := ticks * 5 / 4)
  }

  /** set_acia_ticks: the character time, and a pending receive deadline restarted with it. */
  function WithTicks(cfg: Config, s: State, clk: Clock): State {
    var r := Rated(cfg, s.r);
    State(r, s.txAt, if s.rxAt.Some? then Some(Wrap(clk + r.ticksRx)) else None)
  }

  /** The RTS half of acia_set_handshake_lines: turning RTS on arms reception. */
  function WithRts(cfg: Config, s: State, clk: Clock): State {
    var r := s.r.(lines := s.r.lines.(rts := !NoRts(s.r.cmd)));
    if NoRts(r.cmd) then State(r, s.txAt, None)
    else if s.rxAt.Some? then State(r, s.txAt, s.rxAt)
    else WithTicks(cfg, State(r, s.txAt, Some(clk)), clk)
  }

  /** acia_set_handshake_lines: RTS and DTR follow the command register. */
  function WithHandshake(cfg: Config, s: State, clk: Clock): State {
    var t := WithRts(cfg, s, clk);
    t.(r := t.r.(lines := t.r.lines.(dtr := Dtr(s.r.cmd))))
  }

  /** The Turbo232 decodes eight registers, the others four. */
  function Decode(mode: Mode, addr: nat): Register {
    if mode == Turbo232 then addr % 8 else addr % 4
  }

  function WriteData(s: State, byte: Bits, clk: Clock): State {
    if !Dtr(s.r.cmd) then s.(r := s.r.(txdata := byte))
    else State(s.r.(txdata := byte, inTx := DR_WRITTEN, status := s.r.status.(b4 := false)),
               if s.txAt.Some? then s.txAt else Some(Wrap(clk + 1)),
               s.rxAt)
  }

  /** Writing the status register is a programmed reset; of the command register only the parity
      bits survive. */
  function ProgrammedReset(cfg: Config, s: State, clk: Clock): State {
    WithHandshake(cfg, State(ResetRegs(cfg, s.r), None, s.rxAt), clk)
  }

  function ResetRegs(cfg: Config, r: Regs): Regs {
    r.(fdOpen := false, status := r.status.(b2 := false),
       cmd := r.cmd.(b4 := false, b3 := false, b2 := false, b1 := false, b0 := false),
       inTx := NO_TRANSMIT, irq := false, line := Line(cfg, r, false))
  }

  /** Opening the port arms reception whatever the driver answers. */
  function OpenPort(cfg: Config, s: State, clk: Clock, openOk: bool): State {
    WithTicks(cfg, State(s.r.(fdOpen := openOk), s.txAt, Some(clk)), clk)
  }

  function ClosePort(s: State): State {
    State(s.r.(fdOpen := false), None, s.rxAt)
  }

  /** `openOk` is the driver's answer if the port has to be opened. */
  function WriteCommand(cfg: Config, s: State, byte: Bits, clk: Clock, openOk: bool): State {
    var t := WithHandshake(cfg, s.(r := s.r.(cmd := byte)), clk);
    if Dtr(t.r.cmd) && !t.r.fdOpen then OpenPort(cfg, t, clk, openOk)
    else if t.r.fdOpen && !Dtr(t.r.cmd) then ClosePort(t)
    else t
  }

  function Write(cfg: Config, s: State, addr: nat, byte: Bits, clk: Clock, openOk: bool): State {
    var n := Decode(cfg.mode, addr);
    if n == DR then WriteData(s, byte, clk)
    else if n == SR then ProgrammedReset(cfg, s, clk)
    else if n == CTRL then WithTicks(cfg, s.(r := s.r.(ctrl := byte)), clk)
    else if n == CMD then WriteCommand(cfg, s, byte, clk, openOk)
    else if n == ECTRL && ExternalClock(s.r.ctrl) then WithTicks(cfg, s.(r := s.r.(ectrl := byte)), clk)
    else s
  }

  /** A read-modify-write instruction stores the byte last read one cycle before the real store. */
  function Store(cfg: Config, s: State, addr: nat, byte: Bits, clk: Clock, rmw: bool,
                 openOk: bool, openOk2: bool): State {
    var t := if rmw then Write(cfg, s, addr, s.r.lastRead, Wrap(clk - 1), openOk) else s;
    Write(cfg, t, addr, byte, clk, openOk2)
  }

  // ------------------------------------------------------------------ register reads, reset

  function ModemStatus(status: Bits, dsr: bool): Bits {
    status.(b6 := false, b5 := dsr)
  }

  /** The extended control register plus 4, in eight bits. */
  function PlusActive(b: Bits): Bits {
    if !b.b2 then b.(b2 := true)
    else if !b.b3 then b.(b3 := true, b2 := false)
    else if !b.b4 then b.(b4 := true, b3 := false, b2 := false)
    else if !b.b5 then b.(b5 := true, b4 := false, b3 := false, b2 := false)
    else if !b.b6 then b.(b6 := true, b5 := false, b4 := false, b3 := false, b2 := false)
    else b.(b7 := !b.b7, b6 := false, b5 := false, b4 := false, b3 := false, b2 := false)
  }

  function ReadByte(cfg: Config, r: Regs, addr: nat, dsr: bool): Bits {
    var n := Decode(cfg.mode, addr);
    if n == DR then r.rxdata
    else if n == SR then
      if r.irq then ModemStatus(r.status, dsr).(b7 := true) else ModemStatus(r.status, dsr)
    else if n == CTRL then r.ctrl
    else if n == CMD then r.cmd
    else if n == ECTRL then
      if ExternalClock(r.ctrl) then PlusActive(r.ectrl) else r.ectrl
    else ALL_ONES
  }

  function Read(cfg: Config, r: Regs, addr: nat, dsr: bool): Regs {
    var n := Decode(cfg.mode, addr);
    var byte := ReadByte(cfg, r, addr, dsr);
    if n == DR then r.(lastRead := byte, status := r.status.(b3 := false))
    else if n == SR then
      r.(lastRead := byte, status := ModemStatus(r.status, dsr), irq := false, line := Line(cfg, r, false))
    else if n == CTRL || n == CMD then r.(lastRead := byte)
    else r
  }

  function HardwareReset(cfg: Config, s: State): State {
    var r := Rated(cfg, s.r.(lines := Lines(false, false), cmd := ZERO, ctrl := ZERO, ectrl := ZERO));
    State(Silenced(cfg, r), None, None)
  }

  /** The transmitter, the port and the interrupt after a reset. */
  function Silenced(cfg: Config, r: Regs): Regs {
    r.(status := ZERO.(b4 := true), inTx := NO_TRANSMIT, fdOpen := false, irq := false, line := Line(cfg, r, false))
  }

  // ------------------------------------------------------------------ alarms

  /** The byte the transmit alarm hands to the driver, if any. */
  function Transmits(r: Regs): Option<Bits> {
    if r.inTx == DR_WRITTEN && r.fdOpen then Some(r.txdata) else None
  }

  function Transmitted(cfg: Config, r: Regs): Regs {
    if Transmits(r).None? then r
    else if InterruptOnTransmit(r.cmd) then
      r.(status := r.status.(b4 := true), irq := true, line := Line(cfg, r, true))
    else r.(status := r.status.(b4 := true))
  }

  /** The transmitter counts down to idle. */
  function CountedDown(r: Regs): Regs {
    r.(inTx := if r.inTx != NO_TRANSMIT then r.inTx - 1 else NO_TRANSMIT)
  }

  /** The alarm is set again as long as the transmitter is not idle. */
  function NextTx(r: Regs, clk: Clock): Option<Clock> {
    if r.inTx != NO_TRANSMIT then Some(Wrap(clk + r.ticks)) else None
  }

  function TransmitAlarm(cfg: Config, s: State, clk: Clock): State {
    var r := CountedDown(Transmitted(cfg, s.r));
    State(r, NextTx(r, clk), s.rxAt)
  }

  /** `input` is what the driver would deliver; it is asked only when the port is open. */
  function Received(cfg: Config, r: Regs, input: Option<Bits>): Regs {
    if !r.fdOpen || input.None? then r
    else
      var status := if r.status.b3 then r.status.(b2 := true) else r.status.(b3 := true);
      if r.cmd.b1 then r.(rxdata := input.value, status := status)
      else r.(rxdata := input.value, status := status, irq := true, line := Line(cfg, r, true))
  }

  function ReceiveAlarm(cfg: Config, s: State, clk: Clock, input: Option<Bits>): State {
    var r := Received(cfg, s.r, input);
    State(r, s.txAt, Some(Wrap(clk + r.ticksRx)))
  }
}
