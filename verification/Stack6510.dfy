/** Balanced use of the 6510 stack: pushes and pulls nest properly, and what lies between them
    returns the stack as it found it, even when the stack pointer wraps. */
module Stack6510 {
  import opened ByteBits
  import opened Bitwise
  import opened Mos6510

  /** The pairs that nest: PHA ... PLA, PHP ... PLP, JSR ... RTS, and an interrupt entry ... RTI. */
  datatype Pair = OfA | OfStatus | OfCall | OfIrq | OfNmi

  predicate IsEntry(p: Pair) {
    p == OfIrq || p == OfNmi
  }

  /** The machine behind the opening of a pair. */
  function Opened(p: Pair, s: Cpu): Cpu {
    match p
    case OfA => Execute(s, PHA)
    case OfStatus => Execute(s, PHP)
    case OfCall => Execute(s, JSR)
    case OfIrq => Interrupted(s, IRQ_VECTOR)
    case OfNmi => Interrupted(s, NMI_VECTOR)
  }

  function Closing(p: Pair): Insn {
    match p
    case OfA => PLA
    case OfStatus => PLP
    case OfCall => RTS
    case _ => RTI
  }

  function BytesOf(p: Pair): nat {
    match p
    case OfA => 1
    case OfStatus => 1
    case OfCall => 2
    case _ => 3
  }

  /** A properly nested piece of a run. */
  datatype Nest =
    | Other(after: Cpu)                    // any instructions that leave SP and page one alone
    | Then(first: Nest, second: Nest)
    | Enclosed(pair: Pair, body: Nest)

  /** `after`, but with the stack of `s`. */
  function WithStackOf(s: Cpu, after: Cpu): Cpu {
    after.(r := after.r.(sp := s.r.sp), ram := after.ram[..256] + s.ram[256..512] + after.ram[512..])
  }

  function Final(n: Nest, s: Cpu): Cpu {
    match n
    case Other(after) => WithStackOf(s, after)
    case Then(first, second) => Final(second, Final(first, s))
    case Enclosed(pair, body) => Execute(Final(body, Opened(pair, s)), Closing(pair))
  }

  /** The stack bytes that a nest uses at once. */
  function Depth(n: Nest): nat {
    match n
    case Other(_) => 0
    case Then(first, second) => if Depth(first) > Depth(second) then Depth(first) else Depth(second)
    case Enclosed(pair, body) => BytesOf(pair) + Depth(body)
  }

  /** A cell of page one, and how many pushes from SP it is written. */
  function Cell(s: Cpu, c: Byte): Byte {
    s.ram[0x100 + c]
  }

  function Distance(sp: Byte, c: Byte): nat {
    if c <= sp then sp - c else sp + 256 - c
  }

  /** SP is back, and page one is as before except for the `d` cells from SP downwards. */
  ghost predicate Kept(s: Cpu, t: Cpu, d: nat) {
    t.r.sp == s.r.sp && forall c: Byte :: Distance(s.r.sp, c) >= d ==> Cell(t, c) == Cell(s, c)
  }

  lemma PushPull(s: Cpu, v: Byte, t: Cpu, d: nat)
    requires d < 256 && Kept(Push(s, v), t, d)
    ensures Top(t) == v && Kept(s, Popped(t), d + 1)
  {
    var u := Push(s, v);
    assert (u.r.sp + 1) % 256 == s.r.sp && Distance(u.r.sp, s.r.sp) == 255;
    assert Top(t) == Cell(t, s.r.sp) == v;
    forall c: Byte | Distance(s.r.sp, c) >= d + 1
      ensures Cell(Popped(t), c) == Cell(s, c)
    {
      assert Distance(u.r.sp, c) >= d && Cell(u, c) == Cell(s, c);
      assert Cell(Popped(t), c) == Cell(t, c);
    }
  }

  lemma PushPullWord(s: Cpu, w: Word, t: Cpu, d: nat)
    requires d < 255 && Kept(PushWord(s, w), t, d)
    ensures PulledWord(t) == w && Kept(s, Popped(Popped(t)), d + 2)
  {
    PushPull(Push(s, w / 256), w % 256, t, d);
    PushPull(s, w / 256, Popped(t), d + 1);
  }

  /** Kept looks at nothing but SP and page one. */
  lemma KeptOnStack(s: Cpu, s': Cpu, t: Cpu, t': Cpu, d: nat)
    requires Kept(s, t, d) && s.r.sp == s'.r.sp && s.ram == s'.ram && t.r.sp == t'.r.sp && t.ram == t'.ram
    ensures Kept(s', t', d)
  {
    forall c: Byte | Distance(s'.r.sp, c) >= d
      ensures Cell(t', c) == Cell(s', c)
    {
      assert Cell(t, c) == Cell(s, c);
    }
  }

  lemma OtherKeeps(s: Cpu, after: Cpu)
    ensures Kept(s, WithStackOf(s, after), 0)
  {
    forall c: Byte | Distance(s.r.sp, c) >= 0
      ensures Cell(WithStackOf(s, after), c) == Cell(s, c)
    {
    }
  }

  lemma KeptTwice(s: Cpu, t: Cpu, u: Cpu, d: nat, e: nat, m: nat)
    requires Kept(s, t, d) && Kept(t, u, e) && d <= m && e <= m
    ensures Kept(s, u, m)
  {
    forall c: Byte | Distance(s.r.sp, c) >= m
      ensures Cell(u, c) == Cell(s, c)
    {
      assert Cell(t, c) == Cell(s, c);
    }
  }

  lemma SubroutineReturns(s: Cpu, t: Cpu, d: nat)
    requires d < 255 && Kept(Execute(s, JSR), t, d)
    ensures Kept(s, Execute(t, RTS), d + 2) && Execute(t, RTS).pc == (s.pc + 3) % 65536
  {
    var next := Moved(s, 2);
    KeptOnStack(Execute(s, JSR), PushWord(next, next.pc), t, t, d);
    PushPullWord(next, next.pc, t, d);
    KeptOnStack(next, s, Popped(Popped(t)), Execute(t, RTS), d + 2);
    AfterReturnAddress(s.pc);
  }

  lemma AfterReturnAddress(pc: Word)
    ensures ((pc + 2) % 65536 + 1) % 65536 == (pc + 3) % 65536
  {
  }

  lemma StatusReturns(s: Cpu, f: Flags, breakBit: bool, t: Cpu, d: nat)
    requires d < 256 && Kept(Push(s, Value(StatusBits(f, breakBit))), t, d)
    ensures PulledStatus(t).r.f == f && Kept(s, PulledStatus(t), d + 1)
  {
    PushPull(s, Value(StatusBits(f, breakBit)), t, d);
    OfByteValue(StatusBits(f, breakBit));
    KeptOnStack(s, s, Popped(t), PulledStatus(t), d + 1);
  }

  lemma EntryPushes(s: Cpu, vector: Word)
    requires vector < 65535
    ensures var u, p := Interrupted(s, vector), Push(PushWord(s, s.pc), Value(StatusBits(s.r.f, false)));
            u.r.sp == p.r.sp && u.ram == p.ram
  {
  }

  lemma RtiPulls(t: Cpu)
    ensures var u, p := Execute(t, RTI), PulledStatus(t);
            u.r.sp == Popped(Popped(p)).r.sp && u.ram == p.ram && u.pc == PulledWord(p) && u.r.f == p.r.f
  {
  }

  lemma HandlerReturns(s: Cpu, vector: Word, t: Cpu, d: nat)
    requires vector < 65535 && d < 254 && Kept(Interrupted(s, vector), t, d)
    ensures var u := Execute(t, RTI); Kept(s, u, d + 3) && u.pc == s.pc && u.r.f == s.r.f
  {
    var pushed := PushWord(s, s.pc);
    EntryPushes(s, vector);
    KeptOnStack(Interrupted(s, vector), Push(pushed, Value(StatusBits(s.r.f, false))), t, t, d);
    StatusReturns(pushed, s.r.f, false, t, d);
    PushPullWord(s, s.pc, PulledStatus(t), d + 1);
    RtiPulls(t);
    KeptOnStack(s, s, Popped(Popped(PulledStatus(t))), Execute(t, RTI), d + 3);
  }

  lemma PulledAReturns(s: Cpu, t: Cpu, d: nat)
    requires d < 256 && Kept(Execute(s, PHA), t, d)
    ensures var u := Execute(t, PLA); Kept(s, u, d + 1) && u.r.a == s.r.a && u.r.f == WithNZ(t.r.f, s.r.a)
  {
    KeptOnStack(Execute(s, PHA), Push(s, s.r.a), t, t, d);
    PushPull(s, s.r.a, t, d);
    KeptOnStack(s, s, Popped(t), Execute(t, PLA), d + 1);
  }

  lemma PulledStatusReturns(s: Cpu, t: Cpu, d: nat)
    requires d < 256 && Kept(Execute(s, PHP), t, d)
    ensures Kept(s, Execute(t, PLP), d + 1) && Execute(t, PLP).r.f == s.r.f
  {
    KeptOnStack(Execute(s, PHP), Push(s, Value(StatusBits(s.r.f, true))), t, t, d);
    StatusReturns(s, s.r.f, true, t, d);
    KeptOnStack(s, s, PulledStatus(t), Execute(t, PLP), d + 1);
  }

  /** What closing a pair gives back: A, the flags, the PC behind the JSR, or both PC and flags. */
  ghost predicate Undone(p: Pair, s: Cpu, u: Cpu) {
    && (p == OfA ==> u.r.a == s.r.a && u.r.f.n == (s.r.a >= 128) && u.r.f.z == (s.r.a == 0))
    && (p == OfStatus ==> u.r.f == s.r.f)
    && (p == OfCall ==> u.pc == (s.pc + 3) % 65536)
    && (IsEntry(p) ==> u.pc == s.pc && u.r.f == s.r.f)
  }

  lemma PairReturns(p: Pair, s: Cpu, t: Cpu, d: nat)
    requires d + BytesOf(p) <= 256 && Kept(Opened(p, s), t, d)
    ensures Kept(s, Execute(t, Closing(p)), d + BytesOf(p)) && Undone(p, s, Execute(t, Closing(p)))
  {
    match p
    case OfA => PulledAReturns(s, t, d);
    case OfStatus => PulledStatusReturns(s, t, d);
    case OfCall => SubroutineReturns(s, t, d);
    case OfIrq => HandlerReturns(s, IRQ_VECTOR, t, d);
    case OfNmi => HandlerReturns(s, NMI_VECTOR, t, d);
  }

  /** Any properly nested run that uses at most 256 stack bytes puts SP back and leaves the rest of
      the stack alone, wherever SP starts and however often it wraps. */
  lemma {:induction false} NestKeepsStack(n: Nest, s: Cpu)
    requires Depth(n) <= 256
    ensures Kept(s, Final(n, s), Depth(n))
    decreases n
  {
    match n {
      case Other(after) => OtherKeeps(s, after);
      case Then(first, second) =>
        NestKeepsStack(first, s);
        NestKeepsStack(second, Final(first, s));
        KeptTwice(s, Final(first, s), Final(n, s), Depth(first), Depth(second), Depth(n));
      case Enclosed(pair, body) =>
        NestKeepsStack(body, Opened(pair, s));
        PairReturns(pair, s, Final(body, Opened(pair, s)), Depth(body));
    }
  }

  /** PLA returns the A that its PHA pushed, PLP the flags of its PHP, RTS resumes behind its JSR, and
      RTI restores PC and N V D I Z C of the interrupted program. */
  lemma PairUndone(p: Pair, body: Nest, s: Cpu)
    requires Depth(Enclosed(p, body)) <= 256
    ensures Undone(p, s, Final(Enclosed(p, body), s)) && Final(Enclosed(p, body), s).r.sp == s.r.sp
  {
    NestKeepsStack(body, Opened(p, s));
    PairReturns(p, s, Final(body, Opened(p, s)), Depth(body));
  }

  /** `k` nested PHA ... PLA pairs around some other instructions. */
  function Saves(k: nat, inner: Cpu): Nest
    ensures Depth(Saves(k, inner)) == k
  {
    if k == 0 then Other(inner) else Enclosed(OfA, Saves(k - 1, inner))
  }

  /** The `k` cells from `sp` downwards hold 1. */
  ghost predicate Filled(sp: Byte, t: Cpu, k: nat) {
    forall c: Byte :: Distance(sp, c) < k ==> Cell(t, c) == 1
  }

  lemma FilledAfterPla(sp: Byte, t: Cpu, k: nat)
    requires Filled(sp, t, k)
    ensures Filled(sp, Execute(t, PLA), k)
  {
    assert Execute(t, PLA).ram == t.ram;
  }

  lemma FillOneMore(s: Cpu, t: Cpu, k: nat)
    requires 0 < k <= 256 && s.r.a == 1
    requires Kept(Execute(s, PHA), t, k - 1) && Filled(Execute(s, PHA).r.sp, t, k - 1)
    ensures Filled(s.r.sp, t, k)
  {
    var pushed := Execute(s, PHA);
    forall c: Byte | Distance(s.r.sp, c) < k
      ensures Cell(t, c) == 1
    {
      if c == s.r.sp {
        assert Cell(pushed, c) == 1 && Distance(pushed.r.sp, c) == 255;
      } else {
        assert Distance(pushed.r.sp, c) == Distance(s.r.sp, c) - 1;
      }
    }
  }

  lemma {:induction false} SavesFill(k: nat, s: Cpu, inner: Cpu)
    requires k <= 256 && s.r.a == 1 && inner.r.a == 1
    ensures Filled(s.r.sp, Final(Saves(k, inner), s), k)
  {
    if k > 0 {
      var pushed := Execute(s, PHA);
      var t := Final(Saves(k - 1, inner), pushed);
      SavesFill(k - 1, pushed, inner);
      NestKeepsStack(Saves(k - 1, inner), pushed);
      FillOneMore(s, t, k);
      FilledAfterPla(s.r.sp, t, k);
    }
  }

  /** The bound is sharp: with 257 bytes a pull can return a byte that overwrote the one pushed. */
  lemma TooDeep(k: nat, s: Cpu, inner: Cpu)
    requires k == 256 && s.r.a == 0 && inner.r.a == 1
    ensures var n := Enclosed(OfA, Then(Other(inner), Saves(k, inner))); Depth(n) == 257 && Final(n, s).r.a != s.r.a
  {
    var body := Then(Other(inner), Saves(k, inner));
    assert Depth(Other(inner)) == 0 && Depth(body) == k;
    var pushed := Execute(s, PHA);
    var u := WithStackOf(pushed, inner);
    var t := Final(Saves(k, inner), u);
    assert Final(Other(inner), pushed) == u && Final(body, pushed) == t;
    SavesFill(k, u, inner);
    NestKeepsStack(Saves(k, inner), u);
    assert Distance(u.r.sp, s.r.sp) == 255;
    assert Top(t) == Cell(t, s.r.sp) == 1;
    assert Final(Enclosed(OfA, body), s) == Execute(t, PLA);
  }
}
