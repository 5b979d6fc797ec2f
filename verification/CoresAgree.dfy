/** The batched and the per-cycle 6510 cores agree. */
module CoresAgree {
  import opened Mos6510
  import opened Decoder
  import opened Machine6510
  import Batched = Core6510Batched
  import PerCycle = Core6510PerCycle

  method TickBoth(a: Machine, b: Machine, t: Tick)
    requires a.Valid() && b.Valid() && a.State() == b.State() && a != b && a.ram != b.ram
    modifies a.ram, a`regs, a`pc, a`clk, b.ram, b`regs, b`pc, b`clk
    ensures a.Valid() && b.Valid() && a.State() == b.State() == Ticked(old(a.State()), t)
    ensures a.clk - old(a.clk) == b.clk - old(b.clk) == TickCycles(old(a.State()), t)
  {
    Batched.TickOnce(a, t);
    PerCycle.TickOnce(b, t);
  }

  lemma OneMore(s: Cpu, run: seq<Tick>, k: nat)
    requires k < |run|
    ensures After(s, run[..k + 1]) == Ticked(After(s, run[..k]), run[k])
    ensures CyclesOver(s, run[..k + 1]) == CyclesOver(s, run[..k]) + TickCycles(After(s, run[..k]), run[k])
  {
    assert run[..k + 1] == run[..k] + [run[k]];
    AfterConcat(s, run[..k], [run[k]]);
  }

  /** Started on equal machines, with memory of their own, the two cores stay equal over any run of
      instructions and interrupt entries: the same registers, flags, PC modulo 65536 and memory,
      and the same number of cycles. */
  method Lockstep(a: Machine, b: Machine, run: seq<Tick>)
    requires a.Valid() && b.Valid() && a.State() == b.State() && a != b && a.ram != b.ram
    modifies a.ram, a`regs, a`pc, a`clk, b.ram, b`regs, b`pc, b`clk
    ensures a.Valid() && b.Valid() && a.State() == b.State() == After(old(a.State()), run)
    ensures a.clk - old(a.clk) == b.clk - old(b.clk) == CyclesOver(old(a.State()), run)
  {
    for k := 0 to |run|
      invariant a.Valid() && b.Valid() && a.State() == b.State() == After(old(a.State()), run[..k])
      invariant a.clk - old(a.clk) == b.clk - old(b.clk) == CyclesOver(old(a.State()), run[..k])
    {
      OneMore(old(a.State()), run, k);
      TickBoth(a, b, run[k]);
    }
    assert run[..|run|] == run;
  }
}
