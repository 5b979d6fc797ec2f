/** Balanced use of the 6510 stack by instructions as they are fetched at the PC. */
module StackRuns {
  import opened Bitwise
  import opened Mos6510
  import opened Decoder
  import opened Stack6510

  /** A properly nested piece of a run, before it is known what is fetched. */
  datatype Shape = Plain | Both(first: Shape, second: Shape) | Around(pair: Pair, inside: Shape)

  function Opening(p: Pair): Tick {
    match p
    case OfIrq => Irq
    case OfNmi => Nmi
    case _ => Instruction
  }

  predicate Opens(p: Pair, s: Cpu) {
    match p
    case OfA => Next(s) == PHA
    case OfStatus => Next(s) == PHP
    case OfCall => Next(s) == JSR
    case _ => true
  }

  function Ticks(n: Shape): seq<Tick> {
    match n
    case Plain => [Instruction]
    case Both(first, second) => Ticks(first) + Ticks(second)
    case Around(pair, inside) => [Opening(pair)] + Ticks(inside) + [Instruction]
  }

  function Size(n: Shape): nat {
    match n
    case Plain => 0
    case Both(first, second) => if Size(first) > Size(second) then Size(first) else Size(second)
    case Around(pair, inside) => BytesOf(pair) + Size(inside)
  }

  function Next(s: Cpu): Insn {
    Decode(Fetch(s, 0))
  }

  predicate OnPageOne(at: Word) {
    at / 256 == 1
  }

  /** An instruction that neither moves SP nor writes to page one. */
  predicate LeavesStack(s: Cpu, insn: Insn) {
    match insn
    case Load(op, _) => op != LAS
    case Store(_, mode) => !OnPageOne(Address(s, mode))
    case Modify(_, mode) => !OnPageOne(Address(s, mode))
    case HighStore(op, mode) => op != SHS && !OnPageOne(HighAddress(s, op, mode))
    case Simple(op) => op != TXS
    case Branch(_) => true
    case JMP => true
    case JMP_IND => true
    case JAM => true
    case _ => false
  }

  /** What is fetched from `s` on has the shape `n`. */
  predicate Runs(n: Shape, s: Cpu) {
    match n
    case Plain => LeavesStack(s, Next(s))
    case Both(first, second) => Runs(first, s) && Runs(second, After(s, Ticks(first)))
    case Around(pair, inside) =>
      var t := Ticked(s, Opening(pair));
      Opens(pair, s) && Runs(inside, t) && Next(After(t, Ticks(inside))) == Closing(pair)
  }

  /** The nest that a run of this shape is. */
  function NestOf(n: Shape, s: Cpu): Nest {
    match n
    case Plain => Other(Ticked(s, Instruction))
    case Both(first, second) => Nest.Then(NestOf(first, s), NestOf(second, After(s, Ticks(first))))
    case Around(pair, inside) => Enclosed(pair, NestOf(inside, Ticked(s, Opening(pair))))
  }

  lemma {:induction false} SizeIsDepth(n: Shape, s: Cpu)
    ensures Depth(NestOf(n, s)) == Size(n)
  {
    match n
    case Plain =>
    case Both(first, second) => SizeIsDepth(first, s); SizeIsDepth(second, After(s, Ticks(first)));
    case Around(pair, inside) =>
      SizeIsDepth(inside, Ticked(s, Opening(pair)));
  }

  lemma AfterEnclosed(s: Cpu, first: Tick, body: seq<Tick>, last: Tick)
    ensures After(s, [first] + body + [last]) == Ticked(After(Ticked(s, first), body), last)
  {
    AfterConcat(s, [first] + body, [last]);
    AfterConcat(s, [first], body);
    assert After(s, [first]) == Ticked(s, first) by {
      assert [first][1..] == [];
    }
    var t := After(s, [first] + body);
    assert After(t, [last]) == Ticked(t, last) by {
      assert [last][1..] == [];
    }
  }

  lemma TickOpens(p: Pair, s: Cpu)
    requires Opens(p, s)
    ensures Ticked(s, Opening(p)) == Opened(p, s)
  {
    if p == OfIrq || p == OfNmi {
      assert Opened(p, s) == Ticked(s, Opening(p));
    } else {
      assert Opened(p, s) == Execute(s, Next(s));
    }
  }

  lemma RegistersKeepSp(r: Regs, op: LoadOp, m: Byte)
    requires op != LAS
    ensures Loaded(op, r, m).sp == r.sp
  {
  }

  lemma ModifyKeepsSp(r: Regs, op: ModifyOp, m: Byte)
    ensures Modified(op, r, m).0.sp == r.sp
  {
  }

  /** Storing outside page one leaves the stack alone. */
  lemma StoredElsewhere(s: Cpu, t: Cpu, at: Word, v: Byte)
    requires t.r.sp == s.r.sp && t.ram == s.ram[at := v] && !OnPageOne(at)
    ensures WithStackOf(s, t) == t
  {
    assert t.ram[256..512] == s.ram[256..512];
    assert t.ram == t.ram[..256] + t.ram[256..512] + t.ram[512..];
  }

  lemma StoredNowhere(s: Cpu, t: Cpu)
    requires t.r.sp == s.r.sp && t.ram == s.ram
    ensures WithStackOf(s, t) == t
  {
    assert t.ram == t.ram[..256] + t.ram[256..512] + t.ram[512..];
  }

  lemma PlainIsOther(s: Cpu, insn: Insn)
    requires LeavesStack(s, insn)
    ensures WithStackOf(s, Execute(s, insn)) == Execute(s, insn)
  {
    var t := Execute(s, insn);
    match insn
    case Load(op, mode) => RegistersKeepSp(s.r, op, Operand(s, mode)); StoredNowhere(s, t);
    case Store(op, mode) => StoredElsewhere(s, t, Address(s, mode), Stored(op, s.r));
    case Modify(op, mode) =>
      var at := Address(s, mode);
      ModifyKeepsSp(s.r, op, s.ram[at]);
      StoredElsewhere(s, t, at, Modified(op, s.r, s.ram[at]).1);
    case HighStore(op, mode) => StoredElsewhere(s, t, HighAddress(s, op, mode), HighMasked(s, op, mode));
    case _ => StoredNowhere(s, t);
  }

  /** A run of that shape does to the machine what its nest does. */
  lemma {:induction false} RunIsNest(n: Shape, s: Cpu)
    requires Runs(n, s)
    ensures After(s, Ticks(n)) == Final(NestOf(n, s), s)
  {
    match n
    case Plain => PlainIsOther(s, Next(s)); assert [Instruction][1..] == [];
    case Both(first, second) =>
      RunIsNest(first, s);
      RunIsNest(second, After(s, Ticks(first)));
      AfterConcat(s, Ticks(first), Ticks(second));
    case Around(pair, inside) =>
      var t := Ticked(s, Opening(pair));
      RunIsNest(inside, t);
      AfterEnclosed(s, Opening(pair), Ticks(inside), Instruction);
      TickOpens(pair, s);
  }

  /** Any run whose fetched instructions nest properly in at most 256 bytes returns SP and leaves the
      rest of page one alone, wherever SP starts. */
  lemma RunKeepsStack(n: Shape, s: Cpu)
    requires Runs(n, s) && Size(n) <= 256
    ensures Kept(s, After(s, Ticks(n)), Size(n))
  {
    RunIsNest(n, s);
    SizeIsDepth(n, s);
    NestKeepsStack(NestOf(n, s), s);
  }

  /** ... and its enclosing pair restores what it saved. */
  lemma RunRestores(p: Pair, inside: Shape, s: Cpu)
    requires Runs(Around(p, inside), s) && Size(Around(p, inside)) <= 256
    ensures Undone(p, s, After(s, Ticks(Around(p, inside))))
  {
    RunIsNest(Around(p, inside), s);
    SizeIsDepth(Around(p, inside), s);
    PairUndone(p, NestOf(inside, Ticked(s, Opening(p))), s);
  }
}
