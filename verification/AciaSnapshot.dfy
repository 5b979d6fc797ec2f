/** The ACIA's snapshot module: fourteen bytes, the last four of which older files lack. */
module AciaSnapshot {
  import opened Clocks
  import opened Options
  import opened ByteBits
  import opened AciaModel

  /** A module as the reader finds it. */
  datatype Module = Absent | Present(major: nat, minor: nat, body: seq<Bits>)

  const MAJOR := 1
  const MINOR := 0

  function Pow256(n: nat): nat {
    if n == 0 then 1 else 256 * Pow256(n - 1)
  }

  /** A number as `n` bytes, low byte first. */
  function ToBytes(d: nat, n: nat): (b: seq<Bits>)
    ensures |b| == n
  {
    if n == 0 then [] else [OfByte(d % 256)] + ToBytes(d / 256, n - 1)
  }

  function FromBytes(b: seq<Bits>): (d: nat)
    ensures d < Pow256(|b|)
  {
    if b == [] then 0 else Value(b[0]) + 256 * FromBytes(b[1..])
  }

  lemma {:induction false} BytesRoundTrip(d: nat, n: nat)
    requires d < Pow256(n)
    ensures FromBytes(ToBytes(d, n)) == d
  {
    if n > 0 {
      BytesRoundTrip(d / 256, n - 1);
      assert ToBytes(d, n)[1..] == ToBytes(d / 256, n - 1);
    }
  }

  lemma FourBytes()
    ensures Pow256(4) == MODULUS
  {
    assert Pow256(2) == 65536;
  }

  /** SMW_DW and SMR_DW. */
  function DwordBytes(d: Clock): (b: seq<Bits>)
    ensures |b| == 4
  {
    ToBytes(d, 4)
  }

  function Dword(b: seq<Bits>): Clock
    requires |b| == 4
  {
    FourBytes();
    FromBytes(b)
  }

  lemma DwordRoundTrip(d: Clock)
    ensures Dword(DwordBytes(d)) == d
  {
    FourBytes();
    BytesRoundTrip(d, 4);
  }

  /** Cycles until a pending alarm, or zero. */
  function Remaining(at: Option<Clock>, clk: Clock): Clock {
    match at
    case None => 0
    case Some(deadline) => Wrap(deadline - clk)
  }

  function Snapshot(s: State, clk: Clock, dsr: bool): (b: seq<Bits>)
    ensures |b| == 14
  {
    Head(s.r, dsr) + DwordBytes(Remaining(s.txAt, clk)) + DwordBytes(Remaining(s.rxAt, clk))
  }

  function Head(r: Regs, dsr: bool): (b: seq<Bits>)
    ensures |b| == 6
  {
    var status := ModemStatus(r.status, dsr);
    [r.txdata, r.rxdata, if r.irq then status.(b7 := true) else status, r.cmd, r.ctrl, OfByte(r.inTx % 256)]
  }

  /** Writing refreshes the modem bits of the status register. */
  function Written(s: State, dsr: bool): State {
    s.(r := s.r.(status := ModemStatus(s.r.status, dsr)))
  }

  /** The registers read before the first field that is missing. */
  function ReadRegs(r: Regs, b: seq<Bits>): Regs {
    r.(txdata := if |b| > 0 then b[0] else r.txdata,
       rxdata := if |b| > 1 then b[1] else r.rxdata,
       status := if |b| > 2 then b[2] else r.status,
       cmd := if |b| > 3 then b[3] else r.cmd,
       ctrl := if |b| > 4 then b[4] else r.ctrl)
  }

  /** The saved status carries the interrupt latch in its top bit. */
  function SavedRegs(cfg: Config, r: Regs, b: seq<Bits>): Regs
    requires |b| >= 5
  {
    ReadRegs(r, b).(status := b[2].(b7 := false), irq := b[2].b7, line := Line(cfg, r, b[2].b7))
  }

  function Reopened(cfg: Config, s: State, clk: Clock, openOk: bool): State {
    if Dtr(s.r.cmd) && !s.r.fdOpen then WithHandshake(cfg, s.(r := s.r.(fdOpen := openOk)), clk)
    else if s.r.fdOpen && !Dtr(s.r.cmd) then s.(r := s.r.(fdOpen := false))
    else s
  }

  /** The deadline a saved field stands for. */
  function At(remaining: Clock, clk: Clock): Option<Clock> {
    if remaining != 0 then Some(Wrap(clk + remaining)) else None
  }

  /** A nonzero transmit field arms both alarms; a receive field, if there is one, then decides. */
  function Rearmed(s: State, b: seq<Bits>, clk: Clock): State
    requires |b| >= 10
  {
    var tx := Dword(b[6..10]);
    var t := if tx != 0 then State(s.r, At(tx, clk), At(tx, clk)) else s;
    if |b| >= 14 then t.(rxAt := At(Dword(b[10..14]), clk)) else t
  }

  /** Reading always disarms both alarms and drops the interrupt line first. */
  function Disarmed(cfg: Config, s: State): State {
    State(s.r.(line := Line(cfg, s.r, false)), None, None)
  }

  /** The state after reading, and whether the reader reports success. */
  function Restore(cfg: Config, s: State, m: Module, clk: Clock, openOk: bool): (State, bool) {
    var t := Disarmed(cfg, s);
    match m
    case Absent => (t, false)
    case Present(major, minor, b) =>
      if major > MAJOR || minor > MINOR then (t, false)
      else if |b| < 10 then (t.(r := ReadRegs(t.r, b)), false)
      else (Restored(cfg, t.r, b, clk, openOk), true)
  }

  function Restored(cfg: Config, r: Regs, b: seq<Bits>, clk: Clock, openOk: bool): State
    requires |b| >= 10
  {
    var u := WithTicks(cfg, Reopened(cfg, State(SavedRegs(cfg, r, b), None, None), clk, openOk), clk);
    Rearmed(u.(r := u.r.(inTx := Value(b[5]))), b, clk)
  }

  /** The restored transmitter, whatever the reader held before. */
  predicate SameRegisters(w: Regs, r: Regs, dsr: bool) {
    && r.txdata == w.txdata && r.rxdata == w.rxdata && r.cmd == w.cmd && r.ctrl == w.ctrl
    && r.inTx == w.inTx && r.irq == w.irq && r.status == ModemStatus(w.status, dsr)
  }

  /** Snapshot round trip: a file written by `w` and read at the same clock by any `s` restores every
      saved register, and restores each alarm exactly when it is not due at that very clock. */
  lemma RoundTrip(cfg: Config, w: State, s: State, clk: Clock, dsr: bool, openOk: bool)
    requires 0 <= w.r.inTx < 256 && !w.r.status.b7
    ensures var (t, ok) := Restore(cfg, s, Present(MAJOR, MINOR, Snapshot(w, clk, dsr)), clk, openOk);
            && ok && SameRegisters(w.r, t.r, dsr)
            && (t.txAt == w.txAt <==> w.txAt != Some(clk))
            && (t.rxAt == w.rxAt <==> w.rxAt != Some(clk))
            && t.r.fdOpen == (Dtr(w.r.cmd) && (s.r.fdOpen || openOk))
  {
    hide Snapshot, Restored, SameRegisters, Dword, At, Remaining;
    var b := Snapshot(w, clk, dsr);
    SnapshotFields(w, clk, dsr);
    var r := Disarmed(cfg, s).r;
    RestoredRegisters(cfg, r, w.r, dsr, b, clk, openOk);
    RestoredAlarms(cfg, r, b, clk, openOk);
    RemainingRoundTrip(w.txAt, clk);
    RemainingRoundTrip(w.rxAt, clk);
  }

  lemma RestoredRegisters(cfg: Config, r: Regs, w: Regs, dsr: bool, b: seq<Bits>, clk: Clock, openOk: bool)
    requires |b| >= 10 && b[..6] == Head(w, dsr) && 0 <= w.inTx < 256 && !w.status.b7
    ensures var t := Restored(cfg, r, b, clk, openOk).r;
            SameRegisters(w, t, dsr) && t.fdOpen == (Dtr(w.cmd) && (r.fdOpen || openOk))
  {
    hide SavedRegs, WithTicks, Reopened, Value, At, Dword;
    SavedFields(cfg, r, w, dsr, b);
    PortKeepsRegisters(cfg, State(SavedRegs(cfg, r, b), None, None), clk, openOk);
  }

  lemma SavedFields(cfg: Config, r: Regs, w: Regs, dsr: bool, b: seq<Bits>)
    requires |b| >= 6 && b[..6] == Head(w, dsr) && 0 <= w.inTx < 256 && !w.status.b7
    ensures Value(b[5]) == w.inTx && SavedRegs(cfg, r, b).fdOpen == r.fdOpen
    ensures SameRegisters(w, SavedRegs(cfg, r, b).(inTx := w.inTx), dsr)
  {
    hide Value, OfByte;
    var h := Head(w, dsr);
    assert b[0] == h[0] && b[1] == h[1] && b[2] == h[2] && b[3] == h[3] && b[4] == h[4] && b[5] == h[5];
  }

  lemma RestoredAlarms(cfg: Config, r: Regs, b: seq<Bits>, clk: Clock, openOk: bool)
    requires |b| >= 10
    ensures var t := Restored(cfg, r, b, clk, openOk);
            && t.txAt == At(Dword(b[6..10]), clk)
            && (|b| >= 14 ==> t.rxAt == At(Dword(b[10..14]), clk))
            && (|b| < 14 && Dword(b[6..10]) != 0 ==> t.rxAt == t.txAt)
  {
    PortKeepsRegisters(cfg, State(SavedRegs(cfg, r, b), None, None), clk, openOk);
  }

  lemma SnapshotFields(w: State, clk: Clock, dsr: bool)
    requires 0 <= w.r.inTx < 256
    ensures var b := Snapshot(w, clk, dsr);
            && b[..6] == Head(w.r, dsr)
            && Dword(b[6..10]) == Remaining(w.txAt, clk)
            && Dword(b[10..14]) == Remaining(w.rxAt, clk)
  {
    hide Head, DwordBytes, Dword, Remaining;
    var b := Snapshot(w, clk, dsr);
    Slices(Head(w.r, dsr), DwordBytes(Remaining(w.txAt, clk)), DwordBytes(Remaining(w.rxAt, clk)));
    assert b[10..14] == b[10..];
    DwordRoundTrip(Remaining(w.txAt, clk));
    DwordRoundTrip(Remaining(w.rxAt, clk));
  }

  lemma Slices(h: seq<Bits>, x: seq<Bits>, y: seq<Bits>)
    ensures (h + x + y)[..|h|] == h
    ensures (h + x + y)[|h|..|h| + |x|] == x
    ensures (h + x + y)[|h| + |x|..] == y
  {
  }

  /** Opening or closing the port and setting the rate leave the saved registers alone. */
  lemma PortKeepsRegisters(cfg: Config, s: State, clk: Clock, openOk: bool)
    ensures var t := WithTicks(cfg, Reopened(cfg, s, clk, openOk), clk);
            && t.txAt == s.txAt && t.r.fdOpen == (Dtr(s.r.cmd) && (s.r.fdOpen || openOk))
            && t.r == s.r.(fdOpen := t.r.fdOpen, lines := t.r.lines, ticks := t.r.ticks, ticksRx := t.r.ticksRx)
  {
    hide Ticks;
  }

  lemma RemainingRoundTrip(at: Option<Clock>, clk: Clock)
    ensures At(Remaining(at, clk), clk) == if at == Some(clk) then None else at
  {
  }

  /** A file without the receive field gives reception the transmitter's deadline. */
  lemma OldFormat(cfg: Config, w: State, s: State, clk: Clock, dsr: bool, openOk: bool)
    requires 0 <= w.r.inTx < 256 && w.txAt.Some? && w.txAt != Some(clk)
    ensures var (t, ok) := Restore(cfg, s, Present(MAJOR, MINOR, Snapshot(w, clk, dsr)[..10]), clk, openOk);
            ok && t.txAt == w.txAt && t.rxAt == w.txAt
  {
    hide Snapshot, Restored, Dword, Remaining;
    var b := Snapshot(w, clk, dsr);
    SnapshotFields(w, clk, dsr);
    RemainingRoundTrip(w.txAt, clk);
    var old10 := b[..10];
    assert old10[6..10] == b[6..10];
    RestoredAlarms(cfg, Disarmed(cfg, s).r, old10, clk, openOk);
  }
}
