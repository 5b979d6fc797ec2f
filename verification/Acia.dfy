/** The ACIA 6551 emulation, running on two alarms of a shared alarm context.  Every method is
    proved equal to its counterpart in AciaModel on `View()`, where a deadline is whatever the
    queue really holds; `Agrees()` ties the chip's own flags and clocks to it. */
module Acia6551 {
  import opened Clocks
  import opened AlarmQueue
  import opened AlarmDispatch
  import opened AciaModel
  import opened AciaRuns
  import opened AciaSnapshot
  import opened Options
  import opened ByteBits

  class Acia {
    const cfg: Config
    const context: AlarmContext
    const alarmTx: Alarm
    const alarmRx: Alarm

    /** The registers, the serial port and the transmitter. */
    var regs: Regs
    var alarmActiveTx: bool
    var alarmActiveRx: bool
    var alarmClkTx: Clock
    var alarmClkRx: Clock
    /** Every byte handed to the serial driver. */
    ghost var sent: seq<Sent>

    /** The part of the queue that belongs to other chips. */
    ghost function Foreign(): map<Alarm, Clock>
      reads context`queue
    {
      Others(context.queue)
    }

    ghost function Others(queue: map<Alarm, Clock>): map<Alarm, Clock> {
      queue - {alarmTx, alarmRx}
    }

    ghost function Deadline(alarm: Alarm): Option<Clock>
      reads context`queue
    {
      DeadlineIn(context.queue, alarm)
    }

    /** Both alarms belong to the context, which has no more alarms than its queue has slots. */
    ghost predicate Registered()
      reads context`owned
    {
      |context.owned| <= MAX_PENDING && alarmTx in context.owned && alarmRx in context.owned && alarmTx != alarmRx
    }

    ghost predicate Attached()
      reads context, context.pendingAlarms, context.owned
    {
      match context.Abstract()
      case None => false
      case Some(_) => Registered()
    }

    /** The flags say which of the two alarms are pending, and for those the clocks say when. */
    ghost predicate Agrees()
      reads this`alarmActiveTx, this`alarmClkTx, this`alarmActiveRx, this`alarmClkRx
      reads context, context.pendingAlarms, context.owned
    {
      match context.Abstract()
      case None => false
      case Some(_) =>
        && Registered()
        && Deadline(alarmTx) == (if alarmActiveTx then Some(alarmClkTx) else None)
        && Deadline(alarmRx) == (if alarmActiveRx then Some(alarmClkRx) else None)
    }

    /** The receive flag may run ahead of the queue inside a command write. */
    ghost predicate AgreesButRx()
      reads this`alarmActiveTx, this`alarmClkTx, this`alarmActiveRx, this`alarmClkRx
      reads context, context.pendingAlarms, context.owned
    {
      match context.Abstract()
      case None => false
      case Some(_) =>
        && Registered()
        && Deadline(alarmTx) == (if alarmActiveTx then Some(alarmClkTx) else None)
        && (alarmActiveRx || Deadline(alarmRx) == None)
    }

    ghost function View(): State
      reads this`regs, context`queue
    {
      State(regs, Deadline(alarmTx), Deadline(alarmRx))
    }

    /** acia_preinit and myacia_init. */
    constructor (cfg: Config, context: AlarmContext)
      requires context.Abstract() == Some(context.queue) && context.Linked() && |context.owned| + 2 <= MAX_PENDING
      modifies context`alarms, context`members, context`owned, context.members`prev
      ensures Agrees() && context.Linked() && this.cfg == cfg && this.context == context
      ensures View() == State(INITIAL, None, None)
      ensures regs.ticks == regs.ticksRx == 21111 && regs.inTx == 0 && !regs.fdOpen && regs.lines == Lines(false, false)
      ensures context.queue == old(context.queue) && sent == []
    {
      this.cfg := cfg;
      this.context := context;
      var tx, rx := NewAlarms(context);
      alarmTx, alarmRx := tx, rx;
      regs := INITIAL;
      alarmActiveTx, alarmActiveRx, alarmClkTx, alarmClkRx := false, false, 0, 0;
      sent := [];
    }

    static method NewAlarms(context: AlarmContext) returns (tx: Alarm, rx: Alarm)
      requires context.Abstract() == Some(context.queue) && context.Linked()
      modifies context`alarms, context`members, context`owned, context.members`prev
      ensures context.Abstract() == Some(context.queue) && context.Linked()
      ensures context.queue == old(context.queue)
      ensures tx != rx && context.owned == old(context.owned) + {tx, rx}
      ensures tx !in context.queue && rx !in context.queue
    {
      tx := context.NewAlarm();
      rx := context.NewAlarm();
    }

    // ---------------------------------------------------------------- the two alarms

    method SetAlarm(alarm: Alarm, clk: Clock)
      requires Attached() && (alarm == alarmTx || alarm == alarmRx)
      modifies context`numPendingAlarms, context`nextPendingAlarmClk, context`nextPendingAlarmIdx, context`queue
      modifies context.pendingAlarms, context.owned`pendingIdx
      ensures Attached() && context.queue == old(context.queue)[alarm := clk]
    {
      if alarm !in context.queue {
        SmallerSet(context.queue.Keys, context.owned, alarm);
      }
      context.Set(alarm, clk);
      assert context.Valid();
    }

    static lemma SmallerSet(a: set<Alarm>, b: set<Alarm>, x: Alarm)
      requires a <= b && x in b && x !in a
      ensures |a| < |b|
    {
      if y :| y in a {
        SmallerSet(a - {y}, b - {y}, x);
      }
    }

    method UnsetAlarm(alarm: Alarm)
      requires Attached() && (alarm == alarmTx || alarm == alarmRx)
      modifies context`numPendingAlarms, context`nextPendingAlarmClk, context`nextPendingAlarmIdx, context`queue
      modifies context.pendingAlarms, context.owned`pendingIdx
      ensures Attached() && context.queue == old(context.queue) - {alarm}
    {
      context.Unset(alarm);
      assert context.Valid();
    }

    /** One of the two alarms changed on the map: the other one and all the rest are as before. */
    lemma OneChanged(before: map<Alarm, Clock>, after: map<Alarm, Clock>, alarm: Alarm, clk: Clock)
      requires alarm == alarmTx || alarm == alarmRx
      requires after == before[alarm := clk] || after == before - {alarm}
      ensures Others(after) == Others(before)
      ensures forall a :: a != alarm ==> DeadlineIn(after, a) == DeadlineIn(before, a)
    {
    }

    method ArmTx(clk: Clock)
      requires Agrees()
      modifies this`alarmClkTx, this`alarmActiveTx
      modifies context`numPendingAlarms, context`nextPendingAlarmClk, context`nextPendingAlarmIdx, context`queue
      modifies context.pendingAlarms, context.owned`pendingIdx
      ensures Agrees() && Foreign() == old(Foreign())
      ensures context.queue == old(context.queue)[alarmTx := clk]
      ensures View() == old(View()).(txAt := Some(clk))
    {
      hide AlarmContext.Abstract;
      OneChanged(context.queue, context.queue[alarmTx := clk], alarmTx, clk);
      alarmClkTx := clk;
      SetAlarm(alarmTx, alarmClkTx);
      alarmActiveTx := true;
    }

    method DisarmTx()
      requires Agrees()
      modifies this`alarmActiveTx
      modifies context`numPendingAlarms, context`nextPendingAlarmClk, context`nextPendingAlarmIdx, context`queue
      modifies context.pendingAlarms, context.owned`pendingIdx
      ensures Agrees() && Foreign() == old(Foreign())
      ensures context.queue == old(context.queue) - {alarmTx}
      ensures View() == old(View()).(txAt := None)
    {
      hide AlarmContext.Abstract;
      OneChanged(context.queue, context.queue - {alarmTx}, alarmTx, 0);
      UnsetAlarm(alarmTx);
      alarmActiveTx := false;
    }

    method ArmRx(clk: Clock)
      requires AgreesButRx()
      modifies this`alarmClkRx, this`alarmActiveRx
      modifies context`numPendingAlarms, context`nextPendingAlarmClk, context`nextPendingAlarmIdx, context`queue
      modifies context.pendingAlarms, context.owned`pendingIdx
      ensures Agrees() && Foreign() == old(Foreign())
      ensures context.queue == old(context.queue)[alarmRx := clk]
      ensures View() == old(View()).(rxAt := Some(clk))
    {
      hide AlarmContext.Abstract;
      OneChanged(context.queue, context.queue[alarmRx := clk], alarmRx, clk);
      alarmClkRx := clk;
      SetAlarm(alarmRx, alarmClkRx);
      alarmActiveRx := true;
    }

    method DisarmRx()
      requires Agrees()
      modifies this`alarmActiveRx
      modifies context`numPendingAlarms, context`nextPendingAlarmClk, context`nextPendingAlarmIdx, context`queue
      modifies context.pendingAlarms, context.owned`pendingIdx
      ensures Agrees() && Foreign() == old(Foreign())
      ensures context.queue == old(context.queue) - {alarmRx}
      ensures View() == old(View()).(rxAt := None)
    {
      hide AlarmContext.Abstract;
      OneChanged(context.queue, context.queue - {alarmRx}, alarmRx, 0);
      alarmActiveRx := false;
      UnsetAlarm(alarmRx);
    }

    // ---------------------------------------------------------------- timing and handshake

    method SetAciaTicks(myclk: Clock)
      requires AgreesButRx()
      modifies this`regs, this`alarmClkRx, this`alarmActiveRx
      modifies context`numPendingAlarms, context`nextPendingAlarmClk, context`nextPendingAlarmIdx, context`queue
      modifies context.pendingAlarms, context.owned`pendingIdx
      ensures Agrees() && Foreign() == old(Foreign())
      ensures View() == WithTicks(cfg, old(View()).(rxAt := if old(alarmActiveRx) then Some(0) else None), myclk)
    {
      hide AlarmContext.Abstract, Foreign, Ticks;
      var ticks := Ticks(cfg, regs.cmd, regs.ctrl, regs.ectrl);
      regs := regs.(ticks := ticks, ticksRx := ticks * 5 / 4);
      if alarmActiveRx {
        ArmRx(Wrap(myclk + regs.ticksRx));
      }
    }

    method EnableReception(myclk: Clock)
      requires Agrees()
      modifies this`regs, this`alarmClkRx, this`alarmActiveRx
      modifies context`numPendingAlarms, context`nextPendingAlarmClk, context`nextPendingAlarmIdx, context`queue
      modifies context.pendingAlarms, context.owned`pendingIdx
      ensures Agrees() && Foreign() == old(Foreign())
      ensures View() == WithTicks(cfg, old(View()).(rxAt := Some(myclk)), myclk)
    {
      hide AlarmContext.Abstract, Foreign, Ticks;
      alarmActiveRx := true;
      SetAciaTicks(myclk);
    }

    method SetHandshakeLines(myclk: Clock)
      requires Agrees()
      modifies this`regs, this`alarmClkRx, this`alarmActiveRx
      modifies context`numPendingAlarms, context`nextPendingAlarmClk, context`nextPendingAlarmIdx, context`queue
      modifies context.pendingAlarms, context.owned`pendingIdx
      ensures Agrees() && Foreign() == old(Foreign())
      ensures View() == WithHandshake(cfg, old(View()), myclk)
    {
      SetRts(myclk);
      regs := regs.(lines := regs.lines.(dtr := Dtr(regs.cmd)));
    }

    method SetRts(myclk: Clock)
      requires Agrees()
      modifies this`regs, this`alarmClkRx, this`alarmActiveRx
      modifies context`numPendingAlarms, context`nextPendingAlarmClk, context`nextPendingAlarmIdx, context`queue
      modifies context.pendingAlarms, context.owned`pendingIdx
      ensures Agrees() && Foreign() == old(Foreign())
      ensures View() == WithRts(cfg, old(View()), myclk)
    {
      regs := regs.(lines := regs.lines.(rts := !NoRts(regs.cmd)));
      if NoRts(regs.cmd) {
        if alarmActiveRx {
          DisarmRx();
        }
      } else if !alarmActiveRx {
        EnableReception(myclk);
      }
    }

    method Reset(myclk: Clock)
      requires Agrees()
      modifies this`regs, this`alarmClkRx, this`alarmActiveRx, this`alarmActiveTx
      modifies context`numPendingAlarms, context`nextPendingAlarmClk, context`nextPendingAlarmIdx, context`queue
      modifies context.pendingAlarms, context.owned`pendingIdx
      ensures Agrees() && Foreign() == old(Foreign())
      ensures View() == HardwareReset(cfg, old(View()))
    {
      hide Agrees, Deadline, Foreign, Ticks;
      ResetRate(myclk);
      regs := regs.(status := ZERO.(b4 := true), inTx := NO_TRANSMIT, fdOpen := false);
      DisarmTx();
      DisarmRx();
      regs := regs.(line := Line(cfg, regs, false), irq := false);
    }

    method ResetRate(myclk: Clock)
      requires Agrees()
      modifies this`regs, this`alarmClkRx, this`alarmActiveRx
      modifies context`numPendingAlarms, context`nextPendingAlarmClk, context`nextPendingAlarmIdx, context`queue
      modifies context.pendingAlarms, context.owned`pendingIdx
      ensures Agrees() && Foreign() == old(Foreign())
      ensures regs == AciaModel.Rated(cfg, old(regs).(lines := Lines(false, false), cmd := ZERO, ctrl := ZERO,
                                                      ectrl := ZERO))
    {
      regs := regs.(lines := Lines(false, false), cmd := ZERO, ctrl := ZERO, ectrl := ZERO);
      SetAciaTicks(myclk);
    }

    // ---------------------------------------------------------------- registers

    /** `openOk` and `openOk2` are the driver's answers if a port has to be opened. */
    method Store(addr: nat, byte: Bits, myclk: Clock, rmwFlag: bool, openOk: bool, openOk2: bool)
      requires Agrees()
      modifies this`regs, this`alarmClkTx, this`alarmActiveTx, this`alarmClkRx, this`alarmActiveRx
      modifies context`numPendingAlarms, context`nextPendingAlarmClk, context`nextPendingAlarmIdx, context`queue
      modifies context.pendingAlarms, context.owned`pendingIdx
      ensures Agrees() && Foreign() == old(Foreign())
      ensures View() == AciaModel.Store(cfg, old(View()), addr, byte, myclk, rmwFlag, openOk, openOk2)
    {
      if rmwFlag {
        StoreRegister(addr, regs.lastRead, Wrap(myclk - 1), openOk);
      }
      StoreRegister(addr, byte, myclk, openOk2);
    }

    method StoreRegister(addr: nat, byte: Bits, myclk: Clock, openOk: bool)
      requires Agrees()
      modifies this`regs, this`alarmClkTx, this`alarmActiveTx, this`alarmClkRx, this`alarmActiveRx
      modifies context`numPendingAlarms, context`nextPendingAlarmClk, context`nextPendingAlarmIdx, context`queue
      modifies context.pendingAlarms, context.owned`pendingIdx
      ensures Agrees() && Foreign() == old(Foreign())
      ensures View() == Write(cfg, old(View()), addr, byte, myclk, openOk)
    {
      hide Foreign, AlarmContext.Abstract, Ticks, WriteData, ProgrammedReset, WriteCommand;
      var register := Decode(cfg.mode, addr);
      if register == DR {
        StoreData(byte, myclk);
      } else if register == SR {
        StoreReset(myclk);
      } else if register == CTRL {
        regs := regs.(ctrl := byte);
        SetAciaTicks(myclk);
      } else if register == CMD {
        StoreCommand(byte, myclk, openOk);
      } else if register == ECTRL {
        if ExternalClock(regs.ctrl) {
          regs := regs.(ectrl := byte);
          SetAciaTicks(myclk);
        }
      }
    }

    method StoreData(byte: Bits, myclk: Clock)
      requires Agrees()
      modifies this`regs, this`alarmClkTx, this`alarmActiveTx
      modifies context`numPendingAlarms, context`nextPendingAlarmClk, context`nextPendingAlarmIdx, context`queue
      modifies context.pendingAlarms, context.owned`pendingIdx
      ensures Agrees() && Foreign() == old(Foreign())
      ensures View() == WriteData(old(View()), byte, myclk)
    {
      hide AlarmContext.Abstract;
      regs := regs.(txdata := byte);
      if Dtr(regs.cmd) {
        regs := regs.(inTx := DR_WRITTEN);
        if !alarmActiveTx {
          ArmTx(Wrap(myclk + 1));
        }
        regs := regs.(status := regs.status.(b4 := false));
      }
    }

    method StoreReset(myclk: Clock)
      requires Agrees()
      modifies this`regs, this`alarmActiveTx, this`alarmClkRx, this`alarmActiveRx
      modifies context`numPendingAlarms, context`nextPendingAlarmClk, context`nextPendingAlarmIdx, context`queue
      modifies context.pendingAlarms, context.owned`pendingIdx
      ensures Agrees() && Foreign() == old(Foreign())
      ensures View() == ProgrammedReset(cfg, old(View()), myclk)
    {
      regs := regs.(fdOpen := false, status := regs.status.(b2 := false),
                    cmd := regs.cmd.(b4 := false, b3 := false, b2 := false, b1 := false, b0 := false),
                    inTx := NO_TRANSMIT, line := Line(cfg, regs, false), irq := false);
      DisarmTx();
      SetHandshakeLines(myclk);
    }

    method StoreCommand(byte: Bits, myclk: Clock, openOk: bool)
      requires Agrees()
      modifies this`regs, this`alarmActiveTx, this`alarmClkRx, this`alarmActiveRx
      modifies context`numPendingAlarms, context`nextPendingAlarmClk, context`nextPendingAlarmIdx, context`queue
      modifies context.pendingAlarms, context.owned`pendingIdx
      ensures Agrees() && Foreign() == old(Foreign())
      ensures View() == WriteCommand(cfg, old(View()), byte, myclk, openOk)
    {
      hide Agrees, Foreign, Deadline, WithHandshake;
      regs := regs.(cmd := byte);
      SetHandshakeLines(myclk);
      if Dtr(regs.cmd) && !regs.fdOpen {
        Open(myclk, openOk);
      } else if regs.fdOpen && !Dtr(regs.cmd) {
        DisarmTx();
        regs := regs.(fdOpen := false);
      }
    }

    method Open(myclk: Clock, openOk: bool)
      requires Agrees()
      modifies this`regs, this`alarmClkRx, this`alarmActiveRx
      modifies context`numPendingAlarms, context`nextPendingAlarmClk, context`nextPendingAlarmIdx, context`queue
      modifies context.pendingAlarms, context.owned`pendingIdx
      ensures Agrees() && Foreign() == old(Foreign())
      ensures View() == OpenPort(cfg, old(View()), myclk, openOk)
    {
      regs := regs.(fdOpen := openOk);
      EnableReception(myclk);
    }

    /** `dsr` is the modem line as the driver reports it. */
    method Read(addr: nat, dsr: bool) returns (byte: Bits)
      modifies this`regs
      ensures byte == ReadByte(cfg, old(regs), addr, dsr)
      ensures regs == AciaModel.Read(cfg, old(regs), addr, dsr)
    {
      var register := Decode(cfg.mode, addr);
      if register == DR {
        regs := regs.(status := regs.status.(b3 := false));
        regs := regs.(lastRead := regs.rxdata);
        return regs.rxdata;
      } else if register == SR {
        regs := regs.(status := ModemStatus(regs.status, dsr));
        var c := if regs.irq then regs.status.(b7 := true) else regs.status;
        regs := regs.(line := Line(cfg, regs, false), irq := false);
        regs := regs.(lastRead := c);
        return c;
      } else if register == CTRL {
        regs := regs.(lastRead := regs.ctrl);
        return regs.ctrl;
      } else if register == CMD {
        regs := regs.(lastRead := regs.cmd);
        return regs.cmd;
      } else if register == ECTRL {
        return if ExternalClock(regs.ctrl) then PlusActive(regs.ectrl) else regs.ectrl;
      } else {
        return ALL_ONES;
      }
    }

    // ---------------------------------------------------------------- alarm callbacks

    /** What the callbacks do to the queue. */
    ghost function TxCommands(inTx: int, ticks: int, myclk: Clock): seq<Command> {
      if inTx != NO_TRANSMIT then [Arm(alarmTx, Wrap(myclk + ticks))] else [Disarm(alarmTx)]
    }

    ghost function RxCommands(ticksRx: int, myclk: Clock): seq<Command> {
      [Arm(alarmRx, Wrap(myclk + ticksRx))]
    }

    /** With at least one tick both callbacks are what the CPU loop asks of every callback. */
    lemma CallbacksBehave(inTx: int, ticks: int, ticksRx: int, myclk: Clock)
      requires 1 <= ticks && 1 <= ticksRx && myclk + ticks < MODULUS && myclk + ticksRx < MODULUS
      ensures WellBehaved(TxCommands(inTx, ticks, myclk), alarmTx, myclk)
      ensures WellBehaved(RxCommands(ticksRx, myclk), alarmRx, myclk)
    {
      assert TxCommands(inTx, ticks, myclk)[0].alarm == alarmTx;
      assert RxCommands(ticksRx, myclk)[0].alarm == alarmRx;
    }

    /** As the context has no more alarms than slots, an alarm_set of one of its own always succeeds. */
    lemma AlwaysRoom(alarm: Alarm, clk: Clock)
      requires Attached() && (alarm == alarmTx || alarm == alarmRx)
      ensures AppliedAll(context.queue, [Arm(alarm, clk)]) == context.queue[alarm := clk]
      ensures AppliedAll(context.queue, [Disarm(alarm)]) == context.queue - {alarm}
    {
      OneCommand(context.queue, Arm(alarm, clk));
      OneCommand(context.queue, Disarm(alarm));
      assert context.Valid();
      if alarm !in context.queue {
        SmallerSet(context.queue.Keys, context.owned, alarm);
      }
    }

    method IntTx(offset: Clock, myclk: Clock)
      requires Agrees()
      modifies this`regs, this`sent, this`alarmClkTx, this`alarmActiveTx
      modifies context`numPendingAlarms, context`nextPendingAlarmClk, context`nextPendingAlarmIdx, context`queue
      modifies context.pendingAlarms, context.owned`pendingIdx
      ensures Agrees() && Foreign() == old(Foreign())
      ensures View() == TransmitAlarm(cfg, old(View()), myclk)
      ensures context.queue == AppliedAll(old(context.queue), TxCommands(regs.inTx, regs.ticks, myclk))
      ensures sent == old(sent) + SentBy(old(View()), TransmitEvent(myclk))
    {
      hide Agrees, Foreign, Deadline, AppliedAll, Transmitted, CountedDown, NextTx;
      Transmit(myclk);
      regs := CountedDown(regs);
      RearmTx(myclk);
    }

    /** The part that re-arms the transmit alarm, or leaves it unset. */
    method RearmTx(myclk: Clock)
      requires Agrees()
      modifies this`alarmClkTx, this`alarmActiveTx
      modifies context`numPendingAlarms, context`nextPendingAlarmClk, context`nextPendingAlarmIdx, context`queue
      modifies context.pendingAlarms, context.owned`pendingIdx
      ensures Agrees() && Foreign() == old(Foreign())
      ensures View() == State(regs, NextTx(regs, myclk), old(View()).rxAt)
      ensures context.queue == AppliedAll(old(context.queue), TxCommands(regs.inTx, regs.ticks, myclk))
    {
      hide AlarmContext.Abstract, Foreign, AppliedAll;
      AlwaysRoom(alarmTx, Wrap(myclk + regs.ticks));
      if regs.inTx != NO_TRANSMIT {
        ArmTx(Wrap(myclk + regs.ticks));
      } else {
        DisarmTx();
      }
    }

    /** The part of the transmit alarm that hands a waiting byte to the driver. */
    method Transmit(myclk: Clock)
      modifies this`regs, this`sent
      ensures regs == Transmitted(cfg, old(regs))
      ensures sent == old(sent) + SentBy(old(View()), TransmitEvent(myclk))
    {
      if regs.inTx == DR_WRITTEN && regs.fdOpen {
        sent := sent + [Sent(regs.txdata, myclk)];
        regs := regs.(status := regs.status.(b4 := true));
        if InterruptOnTransmit(regs.cmd) {
          regs := regs.(line := Line(cfg, regs, true), irq := true);
        }
      }
    }

    method IntRx(offset: Clock, myclk: Clock, input: Option<Bits>)
      requires Agrees()
      modifies this`regs, this`alarmClkRx, this`alarmActiveRx
      modifies context`numPendingAlarms, context`nextPendingAlarmClk, context`nextPendingAlarmIdx, context`queue
      modifies context.pendingAlarms, context.owned`pendingIdx
      ensures Agrees() && Foreign() == old(Foreign())
      ensures View() == ReceiveAlarm(cfg, old(View()), myclk, input)
      ensures context.queue == AppliedAll(old(context.queue), RxCommands(regs.ticksRx, myclk))
    {
      hide Agrees, Foreign, Deadline, AppliedAll, Received;
      Receive(input);
      RearmRx(myclk);
    }

    method RearmRx(myclk: Clock)
      requires Agrees()
      modifies this`alarmClkRx, this`alarmActiveRx
      modifies context`numPendingAlarms, context`nextPendingAlarmClk, context`nextPendingAlarmIdx, context`queue
      modifies context.pendingAlarms, context.owned`pendingIdx
      ensures Agrees() && Foreign() == old(Foreign())
      ensures View() == State(regs, old(View()).txAt, Some(Wrap(myclk + regs.ticksRx)))
      ensures context.queue == AppliedAll(old(context.queue), RxCommands(regs.ticksRx, myclk))
    {
      hide AlarmContext.Abstract, Foreign, AppliedAll;
      AlwaysRoom(alarmRx, Wrap(myclk + regs.ticksRx));
      ArmRx(Wrap(myclk + regs.ticksRx));
    }

    /** The part of the receive alarm that takes a byte from the driver. */
    method Receive(input: Option<Bits>)
      modifies this`regs
      ensures regs == Received(cfg, old(regs), input)
    {
      if regs.fdOpen && input.Some? {
        regs := regs.(rxdata := input.value);
        if !regs.cmd.b1 {
          regs := regs.(line := Line(cfg, regs, true), irq := true);
        }
        if regs.status.b3 {
          regs := regs.(status := regs.status.(b2 := true));
        } else {
          regs := regs.(status := regs.status.(b3 := true));
        }
      }
    }

    // ---------------------------------------------------------------- runs

    /** The chip is where the events lead from `start`, and has sent what they send. */
    ghost predicate Follows(start: State, log: seq<Sent>, events: seq<Event>)
      reads this`regs, this`sent, context`queue
    {
      Reaches(Run(cfg, start, events), log, View(), sent)
    }

    // ---------------------------------------------------------------- the CPU loop

    /** What the firing of an alarm is for this chip. */
    ghost function EventsOf(alarm: Alarm, myclk: Clock, input: Option<Bits>): seq<Event> {
      if alarm == alarmTx then [TransmitEvent(myclk)]
      else if alarm == alarmRx then [ReceiveEvent(myclk, input)]
      else []
    }

    ghost function EventsOfAll(fired: seq<Firing>, myclk: Clock, input: nat -> Option<Bits>): seq<Event> {
      if fired == [] then []
      else
        var n := |fired| - 1;
        EventsOfAll(fired[..n], myclk, input) + EventsOf(fired[n].alarm, myclk, input(n))
    }

    lemma OneMoreFiring(fired: seq<Firing>, f: Firing, myclk: Clock, input: nat -> Option<Bits>)
      ensures EventsOfAll(fired + [f], myclk, input)
              == EventsOfAll(fired, myclk, input) + EventsOf(f.alarm, myclk, input(|fired|))
    {
      assert (fired + [f])[..|fired|] == fired;
    }

    ghost predicate AllNow(events: seq<Event>, myclk: Clock) {
      forall i :: 0 <= i < |events| ==> Later(events[i]) == myclk
    }

    lemma {:induction false} FiringsAreNow(fired: seq<Firing>, myclk: Clock, input: nat -> Option<Bits>)
      ensures AllNow(EventsOfAll(fired, myclk, input), myclk)
    {
      if fired != [] {
        FiringsAreNow(fired[..|fired| - 1], myclk, input);
      }
    }

    ghost function TxFirings(fired: seq<Firing>): nat {
      if fired == [] then 0
      else TxFirings(fired[..|fired| - 1]) + if fired[|fired| - 1].alarm == alarmTx then 1 else 0
    }

    lemma {:induction false} FiredOnce(fired: seq<Firing>)
      requires forall i, j :: 0 <= i < j < |fired| ==> fired[i].alarm != fired[j].alarm
      ensures TxFirings(fired) <= 1
      ensures TxFirings(fired) == 1 ==> exists i :: 0 <= i < |fired| && fired[i].alarm == alarmTx
    {
      if fired != [] {
        FiredOnce(fired[..|fired| - 1]);
      }
    }

    ghost predicate SentNow(log: seq<Sent>, myclk: Clock) {
      forall i :: 0 <= i < |log| ==> log[i].clk == myclk
    }

    lemma SendsNow(run: Run, e: Event, myclk: Clock)
      requires SentNow(Log(run, |run.events|), myclk) && e.clk == myclk
      ensures var longer := run.(events := run.events + [e]); var n := |run.events|;
              && SentNow(Log(longer, n + 1), myclk)
              && |Log(longer, n + 1)| <= |Log(run, n)| + if e.TransmitEvent? then 1 else 0
    {
      OneMoreEvent(run, e);
    }

    /** A drain sends no more bytes than the transmit alarm fires, and each at its own clock. */
    lemma {:induction false} SentWhileDraining(fired: seq<Firing>, view: State, myclk: Clock,
                                               input: nat -> Option<Bits>)
      ensures var run := Run(cfg, view, EventsOfAll(fired, myclk, input));
              var log := Log(run, |run.events|); |log| <= TxFirings(fired) && SentNow(log, myclk)
    {
      hide Step, Run.At;
      if fired != [] {
        var n := |fired| - 1;
        SentWhileDraining(fired[..n], view, myclk, input);
        var run := Run(cfg, view, EventsOfAll(fired[..n], myclk, input));
        SendsNow(run, TransmitEvent(myclk), myclk);
        SendsNow(run, ReceiveEvent(myclk, input(n)), myclk);
        assert run.events + [] == run.events;
      }
    }

    /** PROCESS_ALARMS with this chip on the queue: `callbacks` stands for the other chips' alarms and
        `input` for what the serial driver delivers.  When a character takes at least one cycle, this
        chip's callbacks are as well behaved as the others', so the loop drains the queue earliest
        first, and the chip ends where its own firings lead. */
    method ProcessAlarms(myclk: Clock, callbacks: Callbacks, input: nat -> Option<Bits>)
      returns (ghost fired: seq<Firing>, ghost ran: seq<seq<Command>>)
      requires Agrees() && Rated() && myclk + regs.ticks < NEVER && myclk + regs.ticksRx < NEVER
      requires forall n: nat, a :: a in context.owned - {alarmTx, alarmRx} ==> Foreigns(callbacks(n, a), a, myclk)
      modifies this`regs, this`sent, this`alarmClkTx, this`alarmActiveTx, this`alarmClkRx, this`alarmActiveRx
      modifies context`numPendingAlarms, context`nextPendingAlarmClk, context`nextPendingAlarmIdx, context`queue
      modifies context.pendingAlarms, context.owned`pendingIdx
      ensures Agrees() && Emptied(old(context.queue), context.queue, fired, ran, myclk)
      ensures Follows(old(View()), old(sent), EventsOfAll(fired, myclk, input))
      ensures ByThese(fired, ran, callbacks)
      ensures AtMostOneMore(old(sent), sent, myclk)
    {
      fired, ran := Drain(myclk, callbacks, input);
      SentWhileDraining(fired, old(View()), myclk, input);
      FiredOnce(fired);
      ghost var run := Run(cfg, old(View()), EventsOfAll(fired, myclk, input));
      OneOrNone(old(sent), Log(run, |run.events|), myclk);
    }

    lemma OneOrNone(before: seq<Sent>, log: seq<Sent>, myclk: Clock)
      requires |log| <= 1 && SentNow(log, myclk)
      ensures AtMostOneMore(before, before + log, myclk)
    {
      if log == [] {
        assert before + log == before;
      } else {
        assert log == [Sent(log[0].byte, myclk)];
      }
    }

    ghost predicate AtMostOneMore(before: seq<Sent>, after: seq<Sent>, myclk: Clock) {
      after == before || exists byte :: after == before + [Sent(byte, myclk)]
    }

    method Drain(myclk: Clock, callbacks: Callbacks, input: nat -> Option<Bits>)
      returns (ghost fired: seq<Firing>, ghost ran: seq<seq<Command>>)
      requires Agrees() && Rated() && myclk + regs.ticks < NEVER && myclk + regs.ticksRx < NEVER
      requires forall n: nat, a :: a in context.owned - {alarmTx, alarmRx} ==> Foreigns(callbacks(n, a), a, myclk)
      modifies this`regs, this`sent, this`alarmClkTx, this`alarmActiveTx, this`alarmClkRx, this`alarmActiveRx
      modifies context`numPendingAlarms, context`nextPendingAlarmClk, context`nextPendingAlarmIdx, context`queue
      modifies context.pendingAlarms, context.owned`pendingIdx
      ensures Agrees() && Emptied(old(context.queue), context.queue, fired, ran, myclk)
      ensures Follows(old(View()), old(sent), EventsOfAll(fired, myclk, input))
      ensures ByThese(fired, ran, callbacks)
    {
      fired, ran := [], [];
      NothingFired(context.queue, myclk);
      var n := 0;
      while myclk >= context.nextPendingAlarmClk
        invariant Agrees() && Rated() && n == |fired| && regs.ticks == old(regs.ticks)
        invariant Drained(old(context.queue), context.queue, fired, ran, myclk)
        invariant Follows(old(View()), old(sent), EventsOfAll(fired, myclk, input))
        invariant ByThese(fired, ran, callbacks)
        decreases Due(context.queue, myclk)
      {
        ghost var f, commands := DispatchOne(myclk, callbacks, n, input, old(context.queue), fired, ran,
                                             old(View()), old(sent));
        ByTheseNext(fired, ran, callbacks, f, commands);
        fired, ran := fired + [f], ran + [commands];
        n := n + 1;
      }
      NothingLeft(old(context.queue), fired, ran, myclk);
    }

    lemma NothingLeft(start: map<Alarm, Clock>, fired: seq<Firing>, ran: seq<seq<Command>>, myclk: Clock)
      requires Agrees() && myclk < context.nextPendingAlarmClk
      requires Drained(start, context.queue, fired, ran, myclk)
      ensures Emptied(start, context.queue, fired, ran, myclk)
    {
      assert context.Valid();
      context.CachedDeadline();
      NothingDue(start, context.queue, fired, ran, myclk);
    }

    ghost predicate Rated()
      reads this`regs
    {
      1 <= regs.ticks && regs.ticksRx == regs.ticks * 5 / 4
    }

    /** Every safe chip whose character takes a cycle at all is. */
    lemma SafeIsRated()
      requires Safe(cfg, View()) && 1 <= regs.ticks
      ensures Rated()
    {
    }

    /** What the other chips' callbacks may do. */
    ghost predicate Foreigns(commands: seq<Command>, alarm: Alarm, cpuClk: Clock)
      reads context`owned
    {
      WellBehaved(commands, alarm, cpuClk) && Within(commands, context.owned - {alarmTx, alarmRx})
    }

    /** The commands that ran are the other chips' own, or concern this chip's alarm alone. */
    ghost predicate ByThese(fired: seq<Firing>, ran: seq<seq<Command>>, callbacks: Callbacks) {
      |ran| == |fired| && forall i :: 0 <= i < |fired| ==> ByThis(fired[i].alarm, ran[i], callbacks(i, fired[i].alarm))
    }

    lemma ByTheseNext(fired: seq<Firing>, ran: seq<seq<Command>>, callbacks: Callbacks,
                      f: Firing, commands: seq<Command>)
      requires ByThese(fired, ran, callbacks) && ByThis(f.alarm, commands, callbacks(|fired|, f.alarm))
      ensures ByThese(fired + [f], ran + [commands], callbacks)
    {
      var more := fired + [f];
      forall i | 0 <= i < |more|
        ensures ByThis(more[i].alarm, (ran + [commands])[i], callbacks(i, more[i].alarm))
      {
      }
    }

    ghost predicate ByThis(alarm: Alarm, commands: seq<Command>, others: seq<Command>) {
      if alarm == alarmTx || alarm == alarmRx then |commands| == 1 && commands[0].alarm == alarm else commands == others
    }

    method DispatchOne(myclk: Clock, callbacks: Callbacks, n: nat, input: nat -> Option<Bits>,
                       ghost start: map<Alarm, Clock>, ghost fired: seq<Firing>, ghost ran: seq<seq<Command>>,
                       ghost view: State, ghost log: seq<Sent>)
      returns (ghost f: Firing, ghost commands: seq<Command>)
      requires Agrees() && Rated() && myclk + regs.ticks < NEVER && myclk + regs.ticksRx < NEVER
      requires context.nextPendingAlarmClk <= myclk && n == |fired|
      requires forall a :: a in context.owned - {alarmTx, alarmRx} ==> Foreigns(callbacks(n, a), a, myclk)
      requires Drained(start, context.queue, fired, ran, myclk)
      requires Follows(view, log, EventsOfAll(fired, myclk, input))
      modifies this`regs, this`sent, this`alarmClkTx, this`alarmActiveTx, this`alarmClkRx, this`alarmActiveRx
      modifies context`numPendingAlarms, context`nextPendingAlarmClk, context`nextPendingAlarmIdx, context`queue
      modifies context.pendingAlarms, context.owned`pendingIdx
      ensures Agrees() && Rated() && regs.ticks == old(regs.ticks)
      ensures Due(context.queue, myclk) < Due(old(context.queue), myclk)
      ensures Drained(start, context.queue, fired + [f], ran + [commands], myclk)
      ensures Follows(view, log, EventsOfAll(fired + [f], myclk, input))
      ensures ByThis(f.alarm, commands, callbacks(n, f.alarm))
    {
      hide EventsOfAll;
      assert context.Valid();
      var alarm, offset := context.Dispatch(myclk);
      f := Firing(alarm, context.nextPendingAlarmClk, offset);
      ghost var before, events := context.queue, EventsOfAll(fired, myclk, input);
      OneMoreFiring(fired, f, myclk, input);
      FiringsAreNow(fired, myclk, input);
      if alarm == alarmTx {
        commands := FireTx(offset, myclk, view, log, events);
      } else if alarm == alarmRx {
        commands := FireRx(offset, myclk, input(n), view, log, events);
      } else {
        commands := callbacks(n, alarm);
        RunForeign(alarm, callbacks(n, alarm), myclk);
        assert events + [] == events;
      }
      OneFired(start, before, context.queue, fired, f, ran, commands, myclk);
    }

    method FireTx(offset: Clock, myclk: Clock, ghost view: State, ghost log: seq<Sent>, ghost events: seq<Event>)
      returns (ghost commands: seq<Command>)
      requires Agrees() && Rated() && myclk + regs.ticks < NEVER && myclk + regs.ticksRx < NEVER
      requires alarmTx in Due(context.queue, myclk) && Follows(view, log, events) && AllNow(events, myclk)
      modifies this`regs, this`sent, this`alarmClkTx, this`alarmActiveTx, this`alarmClkRx, this`alarmActiveRx
      modifies context`numPendingAlarms, context`nextPendingAlarmClk, context`nextPendingAlarmIdx, context`queue
      modifies context.pendingAlarms, context.owned`pendingIdx
      ensures Agrees() && Rated() && regs.ticks == old(regs.ticks)
      ensures Follows(view, log, events + [TransmitEvent(myclk)])
      ensures context.queue == AppliedAll(old(context.queue), commands) && WellBehaved(commands, alarmTx, myclk)
      ensures ByThis(alarmTx, commands, [])
    {
      TransmittedKeepsRate(cfg, regs);
      ReachesNext(Run(cfg, view, events), log, View(), sent, TransmitEvent(myclk));
      IntTx(offset, myclk);
      commands := TxCommands(regs.inTx, regs.ticks, myclk);
      CallbacksBehave(regs.inTx, regs.ticks, regs.ticksRx, myclk);
    }

    method FireRx(offset: Clock, myclk: Clock, input: Option<Bits>,
                  ghost view: State, ghost log: seq<Sent>, ghost events: seq<Event>)
      returns (ghost commands: seq<Command>)
      requires Agrees() && Rated() && myclk + regs.ticks < NEVER && myclk + regs.ticksRx < NEVER
      requires alarmRx in Due(context.queue, myclk) && Follows(view, log, events) && AllNow(events, myclk)
      modifies this`regs, this`sent, this`alarmClkTx, this`alarmActiveTx, this`alarmClkRx, this`alarmActiveRx
      modifies context`numPendingAlarms, context`nextPendingAlarmClk, context`nextPendingAlarmIdx, context`queue
      modifies context.pendingAlarms, context.owned`pendingIdx
      ensures Agrees() && Rated() && regs.ticks == old(regs.ticks)
      ensures Follows(view, log, events + [ReceiveEvent(myclk, input)])
      ensures context.queue == AppliedAll(old(context.queue), commands) && WellBehaved(commands, alarmRx, myclk)
      ensures ByThis(alarmRx, commands, [])
    {
      ReceivedKeepsRate(cfg, regs, input);
      ReachesNext(Run(cfg, view, events), log, View(), sent, ReceiveEvent(myclk, input));
      IntRx(offset, myclk, input);
      commands := RxCommands(regs.ticksRx, myclk);
      CallbacksBehave(regs.inTx, regs.ticks, regs.ticksRx, myclk);
      assert sent == old(sent) + [];
    }

    method RunForeign(alarm: Alarm, commands: seq<Command>, ghost myclk: Clock)
      requires Agrees() && alarm in Due(context.queue, myclk) && Foreigns(commands, alarm, myclk)
      modifies context`numPendingAlarms, context`nextPendingAlarmClk, context`nextPendingAlarmIdx, context`queue
      modifies context.pendingAlarms, context.owned`pendingIdx
      ensures Agrees() && View() == old(View())
      ensures context.queue == AppliedAll(old(context.queue), commands)
    {
      RunOthers(commands);
    }

    /** Other chips set and unset alarms of their own. */
    method RunOthers(commands: seq<Command>)
      requires Agrees() && Within(commands, context.owned - {alarmTx, alarmRx})
      modifies context`numPendingAlarms, context`nextPendingAlarmClk, context`nextPendingAlarmIdx, context`queue
      modifies context.pendingAlarms, context.owned`pendingIdx
      ensures Agrees() && View() == old(View())
      ensures context.queue == AppliedAll(old(context.queue), commands)
      ensures Foreign() == AppliedAll(old(Foreign()), commands)
    {
      ghost var before := context.queue;
      assert context.Valid();
      OthersApart(before, commands);
      RunCommands(context, commands);
      CommandsElsewhere(before, commands, alarmTx);
      CommandsElsewhere(before, commands, alarmRx);
    }

    /** As there is room for all alarms, what other chips do to theirs does not depend on this one's. */
    lemma {:induction false} OthersApart(queue: map<Alarm, Clock>, commands: seq<Command>)
      requires queue.Keys <= context.owned && Registered() && Within(commands, context.owned - {alarmTx, alarmRx})
      ensures Others(AppliedAll(queue, commands)) == AppliedAll(Others(queue), commands)
      ensures AppliedAll(queue, commands).Keys <= context.owned
    {
      if commands != [] {
        var n := |commands| - 1;
        OthersApart(queue, commands[..n]);
        OneApart(AppliedAll(queue, commands[..n]), commands[n]);
      }
    }

    lemma OneApart(queue: map<Alarm, Clock>, c: Command)
      requires queue.Keys <= context.owned && Registered() && c.alarm in context.owned - {alarmTx, alarmRx}
      ensures Others(Applied(queue, c)) == Applied(Others(queue), c)
      ensures Applied(queue, c).Keys <= context.owned
    {
      if c.alarm !in queue {
        SmallerSet(queue.Keys, context.owned, c.alarm);
        SmallerSet(Others(queue).Keys, context.owned, c.alarm);
      }
    }

    // ---------------------------------------------------------------- clock rebasing

    /** The clock guard takes `sub` off every clock: the queue's, then this chip's own copies. */
    method Rebase(sub: Clock)
      requires Agrees() && context.nextPendingAlarmClk < NEVER
      requires WrapAlike(context.queue, context.nextPendingAlarmClk, -(sub as int))
      modifies this`alarmClkTx, this`alarmClkRx
      modifies context`nextPendingAlarmClk, context`queue, context.pendingAlarms
      ensures Agrees() && context.queue == Shifted(old(context.queue), -(sub as int))
    {
      hide AlarmContext.Indexed, AlarmContext.Cached;
      assert context.Valid();
      context.TimeWarp(sub, -1);
      ClkOverflow(sub);
    }

    method ClkOverflow(sub: Clock)
      modifies this`alarmClkTx, this`alarmClkRx
      ensures alarmClkTx == Wrap(old(alarmClkTx) - sub) && alarmClkRx == Wrap(old(alarmClkRx) - sub)
    {
      alarmClkTx := Wrap(alarmClkTx - sub);
      alarmClkRx := Wrap(alarmClkRx - sub);
    }

    /** Rebasing as an event: with no deadline behind `sub`, nothing wraps. */
    method RebaseNow(clk: Clock, sub: Clock)
      requires Agrees() && Rebasable(Foreign(), View(), sub)
      modifies this`alarmClkTx, this`alarmClkRx
      modifies context`nextPendingAlarmClk, context`queue, context.pendingAlarms
      ensures Agrees() && View() == Step(cfg, old(View()), RebaseEvent(clk, sub))
      ensures Foreign() == Shifted(old(Foreign()), -(sub as int))
    {
      NoneWraps(sub);
      ShiftedDeadlines(context.queue, sub);
      Rebase(sub);
    }

    lemma ShiftedDeadlines(queue: map<Alarm, Clock>, sub: Clock)
      ensures var after := Shifted(queue, -(sub as int));
              && Others(after) == Shifted(Others(queue), -(sub as int))
              && DeadlineIn(after, alarmTx) == Earlier(DeadlineIn(queue, alarmTx), sub)
              && DeadlineIn(after, alarmRx) == Earlier(DeadlineIn(queue, alarmRx), sub)
    {
    }

    lemma SomethingPending(sub: Clock)
      requires Rebasable(Foreign(), View(), sub)
      ensures exists a :: a in context.queue && context.queue[a] < NEVER
    {
      if a :| a in Foreign() && Foreign()[a] < NEVER {
        assert a in context.queue && context.queue[a] < NEVER;
      } else if IsPending(View().txAt) {
        assert alarmTx in context.queue && context.queue[alarmTx] < NEVER;
      } else {
        assert alarmRx in context.queue && context.queue[alarmRx] < NEVER;
      }
    }

    lemma NoneWraps(sub: Clock)
      requires Agrees() && Rebasable(Foreign(), View(), sub)
      ensures context.nextPendingAlarmClk < NEVER
      ensures WrapAlike(context.queue, context.nextPendingAlarmClk, -(sub as int))
    {
      assert context.Valid();
      context.CachedDeadline();
      SomethingPending(sub);
      var first := context.CachedIsPending();
      forall a | a in context.queue
        ensures sub <= context.queue[a]
      {
        assert a == alarmTx || a == alarmRx || a in Foreign();
      }
    }

    // ---------------------------------------------------------------- any sequence of events

    /** A register access or a reset. */
    method Access(e: Event)
      requires Agrees() && (e.WriteEvent? || e.ReadEvent? || e.ResetEvent?)
      modifies this`regs, this`alarmClkTx, this`alarmActiveTx, this`alarmClkRx, this`alarmActiveRx
      modifies context`numPendingAlarms, context`nextPendingAlarmClk, context`nextPendingAlarmIdx, context`queue
      modifies context.pendingAlarms, context.owned`pendingIdx
      ensures Agrees() && Foreign() == old(Foreign())
      ensures View() == Step(cfg, old(View()), e)
    {
      match e {
        case WriteEvent(clk, addr, byte, rmw, openOk, openOk2) => Store(addr, byte, clk, rmw, openOk, openOk2);
        case ReadEvent(_, addr, dsr) => var _ := Read(addr, dsr);
        case ResetEvent(clk) => Reset(clk);
      }
    }

    /** An alarm of this chip. */
    method Fire(e: Event)
      requires Agrees() && (e.TransmitEvent? || e.ReceiveEvent?)
      modifies this`regs, this`sent, this`alarmClkTx, this`alarmActiveTx, this`alarmClkRx, this`alarmActiveRx
      modifies context`numPendingAlarms, context`nextPendingAlarmClk, context`nextPendingAlarmIdx, context`queue
      modifies context.pendingAlarms, context.owned`pendingIdx
      ensures Agrees() && Foreign() == old(Foreign())
      ensures View() == Step(cfg, old(View()), e) && sent == old(sent) + SentBy(old(View()), e)
    {
      match e {
        case TransmitEvent(clk) => IntTx(Wrap(clk - alarmClkTx), clk);
        case ReceiveEvent(clk, input) => IntRx(Wrap(clk - alarmClkRx), clk, input);
      }
      assert e.TransmitEvent? || sent == old(sent) + [];
    }

    /** What another chip's event stands for is in `commands`. */
    method PerformOne(e: Event, commands: seq<Command>)
      requires Agrees() && NoWrap(View(), e) && Possible(e, commands, Foreign(), View())
      modifies this`regs, this`sent, this`alarmClkTx, this`alarmActiveTx, this`alarmClkRx, this`alarmActiveRx
      modifies context`numPendingAlarms, context`nextPendingAlarmClk, context`nextPendingAlarmIdx, context`queue
      modifies context.pendingAlarms, context.owned`pendingIdx
      ensures Agrees() && Foreign() == ForeignNext(old(Foreign()), e, commands)
      ensures View() == Step(cfg, old(View()), e) && sent == old(sent) + SentBy(old(View()), e)
    {
      assert sent == sent + [];
      if e.TransmitEvent? || e.ReceiveEvent? {
        Fire(e);
      } else if e.RebaseEvent? {
        RebaseNow(e.clk, e.sub);
      } else if e.OtherEvent? {
        RunOthers(commands);
      } else {
        Access(e);
      }
    }

    /** An event that reaches beyond this chip: other chips keep to alarms of their own, and the clock is
        rebased when no deadline lies behind the amount and something is pending. */
    ghost predicate Possible(e: Event, commands: seq<Command>, others: map<Alarm, Clock>, view: State)
      reads context`owned
    {
      && (e.OtherEvent? ==> Within(commands, context.owned - {alarmTx, alarmRx}))
      && (e.RebaseEvent? ==> Rebasable(others, view, e.sub))
    }

    method Perform(e: Event, commands: seq<Command>, ghost view: State, ghost log: seq<Sent>, ghost events: seq<Event>)
      requires Agrees() && Follows(view, log, events) && MayFollow(Run(cfg, view, events), e)
      requires Possible(e, commands, Foreign(), View())
      modifies this`regs, this`sent, this`alarmClkTx, this`alarmActiveTx, this`alarmClkRx, this`alarmActiveRx
      modifies context`numPendingAlarms, context`nextPendingAlarmClk, context`nextPendingAlarmIdx, context`queue
      modifies context.pendingAlarms, context.owned`pendingIdx
      ensures Agrees() && Follows(view, log, events + [e])
      ensures Foreign() == ForeignNext(old(Foreign()), e, commands)
    {
      ReachesNext(Run(cfg, view, events), log, View(), sent, e);
      PerformOne(e, commands);
    }

    /** Any legal sequence of register accesses, alarms, resets, rebased clocks and other chips' commands
        takes the chip where the pure run leads, the driver gets what the run sends, and the other
        chips' alarms are where their own commands and the rebasing have put them. */
    method PerformAll(events: seq<Event>, commands: seq<seq<Command>>)
      requires Agrees() && Run(cfg, View(), events).Legal() && |commands| == |events|
      requires forall i: nat :: i < |events| ==>
                 Possible(events[i], commands[i],
                          ForeignAt(Foreign(), events, commands, i), Run(cfg, View(), events).At(i))
      modifies this`regs, this`sent, this`alarmClkTx, this`alarmActiveTx, this`alarmClkRx, this`alarmActiveRx
      modifies context`numPendingAlarms, context`nextPendingAlarmClk, context`nextPendingAlarmIdx, context`queue
      modifies context.pendingAlarms, context.owned`pendingIdx
      ensures Agrees() && View() == Run(cfg, old(View()), events).At(|events|)
      ensures sent == old(sent) + Log(Run(cfg, old(View()), events), |events|)
      ensures Foreign() == ForeignAt(old(Foreign()), events, commands, |events|)
    {
      ghost var run := Run(cfg, View(), events);
      assert sent == sent + Log(run, 0);
      for i := 0 to |events|
        invariant Agrees() && Follows(old(View()), old(sent), events[..i])
        invariant Foreign() == ForeignAt(old(Foreign()), events, commands, i)
      {
        PerformNext(events[i], commands[i], run, i, old(sent));
      }
      assert events[..|events|] == events;
    }

    method PerformNext(e: Event, commands: seq<Command>, ghost run: Run, ghost i: nat, ghost log: seq<Sent>)
      requires Agrees() && run.cfg == cfg && run.Legal() && i < |run.events| && e == run.events[i]
      requires Follows(run.start, log, run.events[..i]) && Possible(e, commands, Foreign(), run.At(i))
      modifies this`regs, this`sent, this`alarmClkTx, this`alarmActiveTx, this`alarmClkRx, this`alarmActiveRx
      modifies context`numPendingAlarms, context`nextPendingAlarmClk, context`nextPendingAlarmIdx, context`queue
      modifies context.pendingAlarms, context.owned`pendingIdx
      ensures Agrees() && Follows(run.start, log, run.events[..i + 1])
      ensures Foreign() == ForeignNext(old(Foreign()), e, commands)
    {
      hide Agrees, Foreign, AlarmContext.Abstract, Step, Shifted, Possible;
      LegalSoFar(run, i);
      Perform(e, commands, run.start, log, run.events[..i]);
      assert run.events[..i] + [e] == run.events[..i + 1];
    }

    // ---------------------------------------------------------------- snapshots

    method SnapshotWrite(myclk: Clock, dsr: bool) returns (body: seq<Bits>)
      requires Agrees()
      modifies this`regs
      ensures body == Snapshot(old(View()), myclk, dsr)
      ensures View() == Written(old(View()), dsr)
    {
      hide AlarmContext.Abstract, DwordBytes, Head;
      var act := if alarmActiveTx then Wrap(alarmClkTx - myclk) else 0;
      var aar := if alarmActiveRx then Wrap(alarmClkRx - myclk) else 0;
      assert act == Remaining(Deadline(alarmTx), myclk) && aar == Remaining(Deadline(alarmRx), myclk);
      body := WriteHead(dsr);
      body := body + DwordBytes(act) + DwordBytes(aar);
    }

    method WriteHead(dsr: bool) returns (head: seq<Bits>)
      modifies this`regs
      ensures head == Head(old(regs), dsr) && regs == old(regs).(status := ModemStatus(old(regs).status, dsr))
    {
      regs := regs.(status := ModemStatus(regs.status, dsr));
      head := [regs.txdata, regs.rxdata, if regs.irq then regs.status.(b7 := true) else regs.status,
               regs.cmd, regs.ctrl, OfByte(regs.inTx % 256)];
    }

    method SnapshotRead(m: Module, myclk: Clock, openOk: bool) returns (ok: bool)
      requires Agrees()
      modifies this`regs, this`alarmClkTx, this`alarmActiveTx, this`alarmClkRx, this`alarmActiveRx
      modifies context`numPendingAlarms, context`nextPendingAlarmClk, context`nextPendingAlarmIdx, context`queue
      modifies context.pendingAlarms, context.owned`pendingIdx
      ensures Agrees() && Foreign() == old(Foreign())
      ensures (View(), ok) == Restore(cfg, old(View()), m, myclk, openOk)
    {
      DisarmBoth();
      match m
      case Absent => return false;
      case Present(major, minor, b) =>
        if major > MAJOR || minor > MINOR {
          return false;
        }
        ReadHead(b);
        if |b| < 10 {
          return false;
        }
        RestoreFrom(old(View()), b, myclk, openOk);
        return true;
    }

    method DisarmBoth()
      requires Agrees()
      modifies this`regs, this`alarmActiveTx, this`alarmActiveRx
      modifies context`numPendingAlarms, context`nextPendingAlarmClk, context`nextPendingAlarmIdx, context`queue
      modifies context.pendingAlarms, context.owned`pendingIdx
      ensures Agrees() && Foreign() == old(Foreign())
      ensures View() == Disarmed(cfg, old(View()))
    {
      DisarmTx();
      DisarmRx();
      regs := regs.(line := Line(cfg, regs, false));
    }

    method ReadHead(b: seq<Bits>)
      modifies this`regs
      ensures regs == ReadRegs(old(regs), b)
    {
      if |b| > 0 { regs := regs.(txdata := b[0]); }
      if |b| > 1 { regs := regs.(rxdata := b[1]); }
      if |b| > 2 { regs := regs.(status := b[2]); }
      if |b| > 3 { regs := regs.(cmd := b[3]); }
      if |b| > 4 { regs := regs.(ctrl := b[4]); }
    }

    /** The top bit of the saved status is the interrupt latch. */
    method SplitLatch(ghost before: Regs, b: seq<Bits>)
      requires |b| >= 5 && regs == ReadRegs(before, b)
      modifies this`regs
      ensures regs == SavedRegs(cfg, before, b)
    {
      var irq := regs.status.b7;
      regs := regs.(status := regs.status.(b7 := false), irq := irq, line := Line(cfg, regs, irq));
    }

    method RestoreFrom(ghost before: State, b: seq<Bits>, myclk: Clock, openOk: bool)
      requires Agrees() && |b| >= 10
      requires View() == State(ReadRegs(Disarmed(cfg, before).r, b), None, None)
      modifies this`regs, this`alarmClkTx, this`alarmActiveTx, this`alarmClkRx, this`alarmActiveRx
      modifies context`numPendingAlarms, context`nextPendingAlarmClk, context`nextPendingAlarmIdx, context`queue
      modifies context.pendingAlarms, context.owned`pendingIdx
      ensures Agrees() && Foreign() == old(Foreign())
      ensures View() == Restored(cfg, Disarmed(cfg, before).r, b, myclk, openOk)
    {
      hide Agrees, Foreign, Deadline, ReadRegs, SavedRegs, Value, WithTicks, Reopened, Rearmed;
      SplitLatch(Disarmed(cfg, before).r, b);
      ReopenAndRate(myclk, openOk);
      regs := regs.(inTx := Value(b[5]));
      Rearm(b, myclk);
    }

    method ReopenAndRate(myclk: Clock, openOk: bool)
      requires Agrees()
      modifies this`regs, this`alarmClkRx, this`alarmActiveRx
      modifies context`numPendingAlarms, context`nextPendingAlarmClk, context`nextPendingAlarmIdx, context`queue
      modifies context.pendingAlarms, context.owned`pendingIdx
      ensures Agrees() && Foreign() == old(Foreign())
      ensures View() == WithTicks(cfg, Reopened(cfg, old(View()), myclk, openOk), myclk)
    {
      Reopen(myclk, openOk);
      Rate(myclk);
    }

    method Rate(myclk: Clock)
      requires Agrees()
      modifies this`regs, this`alarmClkRx, this`alarmActiveRx
      modifies context`numPendingAlarms, context`nextPendingAlarmClk, context`nextPendingAlarmIdx, context`queue
      modifies context.pendingAlarms, context.owned`pendingIdx
      ensures Agrees() && Foreign() == old(Foreign())
      ensures View() == WithTicks(cfg, old(View()), myclk)
    {
      SetAciaTicks(myclk);
    }

    method Reopen(myclk: Clock, openOk: bool)
      requires Agrees()
      modifies this`regs, this`alarmClkRx, this`alarmActiveRx
      modifies context`numPendingAlarms, context`nextPendingAlarmClk, context`nextPendingAlarmIdx, context`queue
      modifies context.pendingAlarms, context.owned`pendingIdx
      ensures Agrees() && Foreign() == old(Foreign())
      ensures View() == Reopened(cfg, old(View()), myclk, openOk)
    {
      if Dtr(regs.cmd) && !regs.fdOpen {
        regs := regs.(fdOpen := openOk);
        SetHandshakeLines(myclk);
      } else if regs.fdOpen && !Dtr(regs.cmd) {
        regs := regs.(fdOpen := false);
      }
    }

    method Rearm(b: seq<Bits>, myclk: Clock)
      requires Agrees() && |b| >= 10
      modifies this`alarmClkTx, this`alarmActiveTx, this`alarmClkRx, this`alarmActiveRx
      modifies context`numPendingAlarms, context`nextPendingAlarmClk, context`nextPendingAlarmIdx, context`queue
      modifies context.pendingAlarms, context.owned`pendingIdx
      ensures Agrees() && Foreign() == old(Foreign())
      ensures View() == Rearmed(old(View()), b, myclk)
    {
      hide AlarmContext.Abstract, Foreign, Dword;
      var tx := Dword(b[6..10]);
      if tx != 0 {
        ArmTx(Wrap(myclk + tx));
        ArmRx(Wrap(myclk + tx));
      }
      if |b| >= 14 {
        RestoreRx(Dword(b[10..14]), myclk);
      }
    }

    method RestoreRx(remaining: Clock, myclk: Clock)
      requires Agrees()
      modifies this`alarmClkRx, this`alarmActiveRx
      modifies context`numPendingAlarms, context`nextPendingAlarmClk, context`nextPendingAlarmIdx, context`queue
      modifies context.pendingAlarms, context.owned`pendingIdx
      ensures Agrees() && Foreign() == old(Foreign())
      ensures View() == old(View()).(rxAt := At(remaining, myclk))
    {
      if remaining != 0 {
        ArmRx(Wrap(myclk + remaining));
      } else {
        DisarmRx();
      }
    }
  }

  predicate IsPending(at: Option<Clock>) {
    at.Some? && at.value < NEVER
  }

  /** No deadline, of another chip or of this one, lies behind `sub`, and one of them at least is not the
      sentinel. */
  ghost predicate Rebasable(others: map<Alarm, Clock>, view: State, sub: Clock) {
    && (forall a :: a in others ==> sub <= others[a])
    && NotBefore(view.txAt, sub) && NotBefore(view.rxAt, sub)
    && ((exists a :: a in others && others[a] < NEVER) || IsPending(view.txAt) || IsPending(view.rxAt))
  }

  /** The other chips' alarms after an event. */
  ghost function ForeignNext(others: map<Alarm, Clock>, e: Event, commands: seq<Command>): map<Alarm, Clock> {
    if e.OtherEvent? then AppliedAll(others, commands)
    else if e.RebaseEvent? then Shifted(others, -(e.sub as int))
    else others
  }

  ghost function ForeignAt(others: map<Alarm, Clock>, events: seq<Event>, commands: seq<seq<Command>>, i: nat)
    : map<Alarm, Clock>
    requires i <= |events| == |commands|
  {
    if i == 0 then others else ForeignNext(ForeignAt(others, events, commands, i - 1), events[i - 1], commands[i - 1])
  }

  ghost function DeadlineIn(queue: map<Alarm, Clock>, alarm: Alarm): Option<Clock> {
    if alarm in queue then Some(queue[alarm]) else None
  }

  lemma OneCommand(queue: map<Alarm, Clock>, c: Command)
    ensures AppliedAll(queue, [c]) == Applied(queue, c)
  {
    assert [c][..0] == [];
  }

  lemma TransmittedKeepsRate(cfg: Config, r: Regs)
    ensures Transmitted(cfg, r).ticks == r.ticks && Transmitted(cfg, r).ticksRx == r.ticksRx
  {
  }

  lemma ReceivedKeepsRate(cfg: Config, r: Regs, input: Option<Bits>)
    ensures Received(cfg, r, input).ticks == r.ticks && Received(cfg, r, input).ticksRx == r.ticksRx
  {
  }

  /** acia_preinit. */
  const INITIAL := Regs(ZERO, ZERO, ZERO, ZERO, ZERO, ZERO, ZERO, NO_TRANSMIT, false, false, false,
                        Lines(false, false), 21111, 21111)
}
