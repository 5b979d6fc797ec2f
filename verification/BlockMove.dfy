/** MVN and MVP: the opcode moves one byte and repeats itself until the count in C runs out. */
module BlockMove {
  import opened ByteBits
  import opened Bitwise
  import opened Wdc65816

  /** `n` steps of a 16-bit register, and of an index register, which may be narrower. */
  function Stepped(w: Word, up: bool, n: nat): Word {
    if up then (w + n) % 0x1_0000 else (w - n) % 0x1_0000
  }

  function Advanced(w: Word, up: bool, n: nat, narrow: bool): Word {
    if narrow then (if up then w + n else w - n) % 256 else Stepped(w, up, n)
  }

  /** The number of steps after which an index register comes round. */
  function Width(narrow: bool): nat {
    if narrow then 256 else 0x1_0000
  }

  /** The operand bytes lie behind the opcode, within the bank only for the last execution. */
  function OperandCell(r: Regs, k: nat, last: bool): nat
    requires k <= 2
  {
    if last then Wrap16(r.pc + k) + 0x1_0000 * r.pbr as int
    else Wrap24(r.pc + k + 0x1_0000 * r.pbr as int)
  }

  /** The bank written to, then the bank read from. */
  function DestBank(s: Core): Byte {
    s.mem[OperandCell(s.r, 1, s.r.c == 0)]
  }

  function SourceBank(s: Core): Byte {
    s.mem[OperandCell(s.r, 2, s.r.c == 0)]
  }

  /** One execution of the opcode. */
  function MovedOnce(s: Core, up: bool): Core
  {
    var to, from := DestBank(s), SourceBank(s);
    var x, y := Stepped(s.r.x, up, 1), Stepped(s.r.y, up, 1);
    Core(s.r.(pc := if s.r.c == 0 then NextPc(s.r, 3) else s.r.pc, dbr := to,
              x := if Index8(s.r) then x % 256 else x, y := if Index8(s.r) then y % 256 else y,
              c := (s.r.c - 1) % 0x1_0000),
         s.mem[0x1_0000 * to as int + s.r.y := s.mem[0x1_0000 * from as int + s.r.x]])
  }

  /** `n` executions of the opcode. */
  function Repeated(s: Core, up: bool, n: nat): Core {
    if n == 0 then s else MovedOnce(Repeated(s, up, n - 1), up)
  }

  /** Where byte `i` of the block is read and written. */
  function Source(s: Core, up: bool, i: nat): (a: nat)
    ensures a < 0x100_0000
  {
    0x1_0000 * SourceBank(s) as int + Advanced(s.r.x, up, i, Index8(s.r))
  }

  function Dest(s: Core, up: bool, i: nat): (a: nat)
    ensures a < 0x100_0000
  {
    0x1_0000 * DestBank(s) as int + Advanced(s.r.y, up, i, Index8(s.r))
  }

  /** The last execution reads the operand bytes that the others read.  Up to a PC of 0xFFFD it
      always does. */
  predicate OneReading(s: Core) {
    s.mem[OperandCell(s.r, 1, true)] == DestBank(s) && s.mem[OperandCell(s.r, 2, true)] == SourceBank(s)
  }

  predicate IsOperandCell(r: Regs, a: nat) {
    || a == OperandCell(r, 1, false) || a == OperandCell(r, 2, false)
    || a == OperandCell(r, 1, true) || a == OperandCell(r, 2, true)
  }

  /** Of `n` executions, none but the last overwrites the operand bytes. */
  ghost predicate Untouched(s: Core, up: bool, n: nat) {
    forall i: nat :: i + 1 < n ==> !IsOperandCell(s.r, Dest(s, up, i))
  }

  /** `n` executions find the operand bytes unchanged; the last one of all may read them elsewhere. */
  ghost predicate Ready(s: Core, up: bool, n: nat) {
    && Modes(s.r) && n <= s.r.c + 1
    && Untouched(s, up, n)
    && (n == s.r.c + 1 ==> OneReading(s))
  }

  /** How far the write position is ahead of the read position, in the direction of the move; zero
      when neither can catch up with the other. */
  function Lead(s: Core, up: bool): Word {
    if DestBank(s) != SourceBank(s) then 0
    else Ahead(s.r.y, s.r.x, up, Index8(s.r))
  }

  /** No byte is overwritten before it is read. */
  predicate Disjoint(s: Core, up: bool)
  {
    Lead(s, up) == 0 || Lead(s, up) > s.r.c
  }

  /** The byte of the original block that execution `i` writes: where the move has caught up with
      itself, what it wrote `lead` bytes ago. */
  function Origin(i: nat, lead: nat): (o: nat)
    ensures o <= i
  {
    if lead == 0 || i < lead then i else Origin(i - lead, lead)
  }

  ghost predicate Intact(s: Core, t: Core, up: bool, n: nat)
  {
    forall a: nat :: a < 0x100_0000 && (forall i: nat :: i < n ==> a != Dest(s, up, i)) ==> t.mem[a] == s.mem[a]
  }

  ghost predicate Copied(s: Core, t: Core, up: bool, n: nat)
  {
    forall i: nat :: i < n ==> t.mem[Dest(s, up, i)] == s.mem[Source(s, up, i)]
  }

  /** What the last executions wrote, as far back as no later one wrote the same cell. */
  ghost predicate Smeared(s: Core, t: Core, up: bool, n: nat) {
    forall i: nat :: i < n <= i + Width(Index8(s.r)) ==>
      t.mem[Dest(s, up, i)] == s.mem[Source(s, up, Origin(i, Lead(s, up)))]
  }

  function RegsAfter(s: Core, up: bool, n: nat): Regs
  {
    s.r.(c := (s.r.c - n) % 0x1_0000,
         x := Advanced(s.r.x, up, n, Index8(s.r)), y := Advanced(s.r.y, up, n, Index8(s.r)),
         dbr := if n == 0 then s.r.dbr else DestBank(s),
         pc := if n == s.r.c + 1 then NextPc(s.r, 3) else s.r.pc)
  }

  // ------------------------------------------------------------------ index arithmetic

  lemma WideStep(w: Word, up: bool, n: nat)
    ensures Stepped(Stepped(w, up, n), up, 1) == Stepped(w, up, n + 1)
  {
    if up {
      assert (w + n) % 0x1_0000 == w + n - 0x1_0000 * ((w + n) / 0x1_0000);
    } else {
      assert (w - n) % 0x1_0000 == w - n - 0x1_0000 * ((w - n) / 0x1_0000);
    }
  }

  lemma NarrowStep(w: Word, up: bool, n: nat)
    ensures Stepped(Advanced(w, up, n, true), up, 1) % 256 == Advanced(w, up, n + 1, true)
  {
  }

  lemma AdvancedOnce(w: Word, up: bool, n: nat, narrow: bool)
    requires narrow ==> w < 256
    ensures var v := Stepped(Advanced(w, up, n, narrow), up, 1);
            (if narrow then v % 256 else v) == Advanced(w, up, n + 1, narrow)
    ensures Advanced(w, up, 0, narrow) == w
  {
    if narrow {
      NarrowStep(w, up, n);
    } else {
      WideStep(w, up, n);
    }
  }

  /** Two sums modulo a width agree exactly when they differ by a multiple of it. */
  lemma Agree256(a: int, b: int)
    ensures a % 256 == b % 256 <==> (a - b) % 256 == 0
  {
    assert a == 256 * (a / 256) + a % 256 && b == 256 * (b / 256) + b % 256;
  }

  lemma AgreeWide(a: int, b: int)
    ensures a % 0x1_0000 == b % 0x1_0000 <==> (a - b) % 0x1_0000 == 0
  {
    assert a == 0x1_0000 * (a / 0x1_0000) + a % 0x1_0000 && b == 0x1_0000 * (b / 0x1_0000) + b % 0x1_0000;
  }

  /** How far position `i` of one index register is from position `n` of another. */
  function Gap(v: Word, w: Word, up: bool, i: nat, n: nat): int {
    if up then (v + i) - (w + n) else (w - n) - (v - i)
  }

  lemma SamePlace(v: Word, w: Word, up: bool, i: nat, n: nat, narrow: bool)
    ensures Advanced(v, up, i, narrow) == Advanced(w, up, n, narrow)
            <==> (if narrow then Gap(v, w, up, i, n) % 256 else Gap(v, w, up, i, n) % 0x1_0000) == 0
  {
    if up {
      Agree256(v + i, w + n);
      AgreeWide(v + i, w + n);
    } else {
      Agree256(w - n, v - i);
      AgreeWide(w - n, v - i);
    }
  }

  lemma DistinctSteps(w: Word, up: bool, i: nat, n: nat, narrow: bool)
    requires i < n < i + Width(narrow)
    ensures Advanced(w, up, i, narrow) != Advanced(w, up, n, narrow)
  {
    SamePlace(w, w, up, i, n, narrow);
    assert Gap(w, w, up, i, n) == i - n;
  }

  lemma ComesRound(w: Word, up: bool, i: nat, narrow: bool)
    ensures Advanced(w, up, i + Width(narrow), narrow) == Advanced(w, up, i, narrow)
  {
    SamePlace(w, w, up, i + Width(narrow), i, narrow);
    assert Gap(w, w, up, i + Width(narrow), i) == Width(narrow);
  }

  /** The position `v`, which leads `w` by so many steps. */
  function Ahead(v: Word, w: Word, up: bool, narrow: bool): Word {
    if narrow then Gap(v, w, up, 0, 0) % 256 else Gap(v, w, up, 0, 0) % 0x1_0000
  }

  lemma Meets(w: Word, v: Word, up: bool, i: nat, n: nat, narrow: bool)
    requires i <= n
    ensures n - i == Ahead(v, w, up, narrow) ==> Advanced(v, up, i, narrow) == Advanced(w, up, n, narrow)
    ensures n - i < Ahead(v, w, up, narrow) ==> Advanced(v, up, i, narrow) != Advanced(w, up, n, narrow)
  {
    var gap := Gap(v, w, up, 0, 0);
    assert Gap(v, w, up, i, n) == gap - (n - i);
    SamePlace(v, w, up, i, n, narrow);
    if narrow {
      Agree256(gap, n - i);
    } else {
      AgreeWide(gap, n - i);
    }
  }

  // ------------------------------------------------------------------ one execution more

  lemma OperandsIntact(s: Core, t: Core, up: bool, n: nat)
    requires Untouched(s, up, n + 1) && Intact(s, t, up, n)
    ensures forall a: nat :: a < 0x100_0000 && IsOperandCell(s.r, a) ==> t.mem[a] == s.mem[a]
  {
    forall a: nat | a < 0x100_0000 && IsOperandCell(s.r, a)
      ensures t.mem[a] == s.mem[a]
    {
      assert forall i: nat :: i < n ==> Dest(s, up, i) != a;
    }
  }

  lemma SameBanks(s: Core, t: Core, up: bool, n: nat)
    requires Ready(s, up, n + 1) && t.r == RegsAfter(s, up, n) && Intact(s, t, up, n)
    ensures DestBank(t) == DestBank(s) && SourceBank(t) == SourceBank(s)
  {
    CountsOut(s.r.c, n);
    OperandsIntact(s, t, up, n);
  }

  lemma CountsOut(c: Word, n: nat)
    requires n <= c
    ensures (c - n) % 0x1_0000 == 0 <==> n == c
  {
  }

  lemma OneMoreRegs(s: Core, t: Core, up: bool, n: nat)
    requires Ready(s, up, n + 1) && t.r == RegsAfter(s, up, n) && Intact(s, t, up, n)
    ensures MovedOnce(t, up).r == RegsAfter(s, up, n + 1)
  {
    SameBanks(s, t, up, n);
    AdvancedOnce(s.r.x, up, n, Index8(s.r));
    AdvancedOnce(s.r.y, up, n, Index8(s.r));
    WideStep(s.r.c, false, n);
    CountsOut(s.r.c, n);
  }

  lemma OneMoreIntact(s: Core, t: Core, up: bool, n: nat)
    requires Ready(s, up, n + 1) && t.r == RegsAfter(s, up, n) && Intact(s, t, up, n)
    ensures Intact(s, MovedOnce(t, up), up, n + 1)
  {
    SameBanks(s, t, up, n);
    var u := MovedOnce(t, up);
    forall a: nat | a < 0x100_0000 && (forall i: nat :: i < n + 1 ==> a != Dest(s, up, i))
      ensures u.mem[a] == s.mem[a]
    {
      assert a != Dest(s, up, n);
    }
  }

  /** The byte that execution `n` reads is the original one unless the move has caught up. */
  lemma ReadsOriginal(s: Core, t: Core, up: bool, n: nat)
    requires Modes(s.r) && Intact(s, t, up, n) && n < Width(Index8(s.r))
    requires Lead(s, up) == 0 || n < Lead(s, up)
    ensures t.mem[Source(s, up, n)] == s.mem[Source(s, up, n)]
  {
    var narrow := Index8(s.r);
    forall i: nat | i < n
      ensures Dest(s, up, i) != Source(s, up, n)
    {
      Meets(s.r.x, s.r.y, up, i, n, narrow);
      Meets(s.r.x, s.r.y, up, n, n, narrow);
      DistinctSteps(s.r.y, up, i, n, narrow);
    }
  }

  lemma ReadsAcrossBanks(s: Core, t: Core, up: bool, n: nat)
    requires Intact(s, t, up, n) && DestBank(s) != SourceBank(s)
    ensures t.mem[Source(s, up, n)] == s.mem[Source(s, up, n)]
  {
    assert forall i: nat :: i < n ==> Dest(s, up, i) != Source(s, up, n);
  }

  /** A byte moved onto itself, met again after the index registers have come round. */
  lemma ReadsAgain(s: Core, t: Core, up: bool, n: nat)
    requires Smeared(s, t, up, n) && DestBank(s) == SourceBank(s) && Lead(s, up) == 0 && n >= Width(Index8(s.r))
    ensures t.mem[Source(s, up, n)] == s.mem[Source(s, up, n)]
  {
    var narrow := Index8(s.r);
    var i := n - Width(narrow);
    Meets(s.r.x, s.r.y, up, i, i, narrow);
    ComesRound(s.r.x, up, i, narrow);
    assert t.mem[Dest(s, up, i)] == s.mem[Source(s, up, Origin(i, 0))];
  }

  /** A byte that the move itself wrote `lead` executions ago. */
  lemma ReadsWritten(s: Core, t: Core, up: bool, n: nat)
    requires Smeared(s, t, up, n) && DestBank(s) == SourceBank(s) && 0 < Lead(s, up) <= n
    ensures t.mem[Source(s, up, n)] == s.mem[Source(s, up, Origin(n - Lead(s, up), Lead(s, up)))]
  {
    Meets(s.r.x, s.r.y, up, n - Lead(s, up), n, Index8(s.r));
    assert Dest(s, up, n - Lead(s, up)) == Source(s, up, n);
  }

  lemma ReadsSmeared(s: Core, t: Core, up: bool, n: nat)
    requires Modes(s.r) && Intact(s, t, up, n) && Smeared(s, t, up, n)
    ensures t.mem[Source(s, up, n)] == s.mem[Source(s, up, Origin(n, Lead(s, up)))]
  {
    if DestBank(s) != SourceBank(s) {
      ReadsAcrossBanks(s, t, up, n);
    } else if Lead(s, up) == 0 && n >= Width(Index8(s.r)) {
      ReadsAgain(s, t, up, n);
    } else if Lead(s, up) == 0 || n < Lead(s, up) {
      ReadsOriginal(s, t, up, n);
    } else {
      ReadsWritten(s, t, up, n);
    }
  }

  lemma OneMoreSmeared(s: Core, t: Core, up: bool, n: nat)
    requires Ready(s, up, n + 1) && t.r == RegsAfter(s, up, n)
    requires Intact(s, t, up, n) && Smeared(s, t, up, n)
    ensures Smeared(s, MovedOnce(t, up), up, n + 1)
  {
    SameBanks(s, t, up, n);
    ReadsSmeared(s, t, up, n);
    var u := MovedOnce(t, up);
    forall i: nat | i < n + 1 <= i + Width(Index8(s.r))
      ensures u.mem[Dest(s, up, i)] == s.mem[Source(s, up, Origin(i, Lead(s, up)))]
    {
      if i < n {
        DistinctSteps(s.r.y, up, i, n, Index8(s.r));
      }
    }
  }

  // ------------------------------------------------------------------ the whole move

  /** After `n` executions: the registers, the memory outside the destination, and every byte of it. */
  lemma {:induction false} RepeatedMoves(s: Core, up: bool, n: nat)
    requires Ready(s, up, n)
    ensures var t := Repeated(s, up, n);
            t.r == RegsAfter(s, up, n) && Intact(s, t, up, n) && Smeared(s, t, up, n)
  {
    if n == 0 {
      AdvancedOnce(s.r.x, up, 0, Index8(s.r));
      AdvancedOnce(s.r.y, up, 0, Index8(s.r));
    } else {
      RepeatedMoves(s, up, n - 1);
      var t := Repeated(s, up, n - 1);
      OneMoreRegs(s, t, up, n - 1);
      OneMoreIntact(s, t, up, n - 1);
      OneMoreSmeared(s, t, up, n - 1);
    }
  }

  /** Every byte that ends up in the destination is the one that belongs there. */
  ghost predicate Repeats(s: Core, up: bool, n: nat) {
    forall i: nat :: i < n <= i + Width(Index8(s.r)) ==>
      s.mem[Source(s, up, i)] == s.mem[Source(s, up, Origin(i, Lead(s, up)))]
  }

  lemma {:induction false} LastPass(s: Core, t: Core, up: bool, n: nat, i: nat)
    requires i < n && Smeared(s, t, up, n) && Repeats(s, up, n)
    ensures t.mem[Dest(s, up, i)] == s.mem[Source(s, up, i)]
    decreases n - i
  {
    var w := Width(Index8(s.r));
    if i + w < n {
      LastPass(s, t, up, n, i + w);
      ComesRound(s.r.x, up, i, Index8(s.r));
      ComesRound(s.r.y, up, i, Index8(s.r));
    }
  }

  /** C+1 executions copy the block exactly when it agrees with itself wherever the move has caught
      up, whatever the overlap and the width of the index registers. */
  lemma RepeatedCopies(s: Core, up: bool)
    requires Ready(s, up, s.r.c + 1)
    ensures Copied(s, Repeated(s, up, s.r.c + 1), up, s.r.c + 1) <==> Repeats(s, up, s.r.c + 1)
  {
    var n := s.r.c + 1;
    var t := Repeated(s, up, n);
    RepeatedMoves(s, up, n);
    if Repeats(s, up, n) {
      forall i: nat | i < n
        ensures t.mem[Dest(s, up, i)] == s.mem[Source(s, up, i)]
      {
        LastPass(s, t, up, n, i);
      }
    }
  }

  /** ... for a block that does not come round: when its bytes repeat with the lead as their period. */
  lemma PeriodicBlock(s: Core, up: bool)
    requires s.r.c < Width(Index8(s.r)) && Lead(s, up) > 0
    ensures Repeats(s, up, s.r.c + 1)
            <==> forall i: nat :: Lead(s, up) <= i <= s.r.c ==>
                   s.mem[Source(s, up, i)] == s.mem[Source(s, up, i - Lead(s, up))]
  {
    if Repeats(s, up, s.r.c + 1) {
      forall i: nat | Lead(s, up) <= i <= s.r.c
        ensures s.mem[Source(s, up, i)] == s.mem[Source(s, up, i - Lead(s, up))]
      {
        assert Origin(i, Lead(s, up)) == Origin(i - Lead(s, up), Lead(s, up));
      }
    } else {
      var i: nat :| i <= s.r.c && s.mem[Source(s, up, i)] != s.mem[Source(s, up, Origin(i, Lead(s, up)))];
      NotPeriodic(s, up, i);
    }
  }

  lemma {:induction false} NotPeriodic(s: Core, up: bool, i: nat)
    requires Lead(s, up) > 0 && s.mem[Source(s, up, i)] != s.mem[Source(s, up, Origin(i, Lead(s, up)))]
    ensures exists j: nat :: Lead(s, up) <= j <= i && s.mem[Source(s, up, j)] != s.mem[Source(s, up, j - Lead(s, up))]
  {
    var back := i - Lead(s, up);
    if s.mem[Source(s, up, i)] == s.mem[Source(s, up, back)] {
      NotPeriodic(s, up, back);
    }
  }

  lemma DisjointRepeats(s: Core, up: bool, n: nat)
    requires Disjoint(s, up) && n == s.r.c + 1
    ensures Repeats(s, up, n)
  {
  }

  lemma CountsOnce(s: Core, up: bool)
    ensures MovedOnce(s, up).r.c == Stepped(s.r.c, false, 1)
  {
    hide DestBank, SourceBank;
  }

  lemma CountedOut(c: Word, n: nat)
    requires n == c + 1
    ensures (c - n) % 0x1_0000 == 0xffff
  {
  }

  /** C+1 executions of a move that does not catch up with itself: exactly C+1 bytes copied and nothing
      else changed, C = 0xFFFF, X and Y moved by C+1, DBR the destination bank, and the PC past the
      instruction. */
  lemma RepeatedBlock(s: Core, up: bool)
    requires Ready(s, up, s.r.c + 1) && Disjoint(s, up)
    ensures var n, narrow := s.r.c + 1, Index8(s.r); var t := Repeated(s, up, n);
            && Copied(s, t, up, n) && Intact(s, t, up, n)
            && t.r == s.r.(c := 0xffff, x := Advanced(s.r.x, up, n, narrow), y := Advanced(s.r.y, up, n, narrow),
                           dbr := DestBank(s), pc := NextPc(s.r, 3))
  {
    RepeatedMoves(s, up, s.r.c + 1);
    RepeatedCopies(s, up);
    DisjointRepeats(s, up, s.r.c + 1);
    CountedOut(s.r.c, s.r.c + 1);
    assert RegsAfter(s, up, s.r.c + 1).c == 0xffff;
  }

  // ------------------------------------------------------------------ where a move goes wrong

  /** Any overlapping move of two different bytes up by one cell. */
  lemma OneCellUp(s: Core)
    requires Ready(s, true, s.r.c + 1) && s.r.c == 1 && Lead(s, true) == 1
    requires s.mem[Source(s, true, 0)] != s.mem[Source(s, true, 1)]
    ensures !Copied(s, Repeated(s, true, s.r.c + 1), true, s.r.c + 1)
  {
    RepeatedCopies(s, true);
    assert Origin(1, 1) == Origin(0, 1) == 0;
  }

  lemma ReadAlike(s: Core)
    requires s.r.pc <= 0xfffd
    ensures OneReading(s)
  {
  }

  /** Behind the end of a bank, all executions but the last take the banks from the next bank. */
  lemma OperandsSplit(s: Core, up: bool)
    requires Modes(s.r) && s.r.c > 0 && Untouched(s, up, s.r.c + 1)
    ensures var t := Repeated(s, up, s.r.c);
            && Smeared(s, t, up, s.r.c)
            && DestBank(t) == s.mem[OperandCell(s.r, 1, true)] && SourceBank(t) == s.mem[OperandCell(s.r, 2, true)]
  {
    hide Repeated, Smeared;
    RepeatedMoves(s, up, s.r.c);
    BanksOfLast(s, Repeated(s, up, s.r.c), up);
  }

  lemma BanksOfLast(s: Core, t: Core, up: bool)
    requires t.r.c == 0 && t.r.pc == s.r.pc && t.r.pbr == s.r.pbr
    requires Untouched(s, up, s.r.c + 1) && Intact(s, t, up, s.r.c)
    ensures DestBank(t) == s.mem[OperandCell(s.r, 1, true)] && SourceBank(t) == s.mem[OperandCell(s.r, 2, true)]
  {
    OperandsIntact(s, t, up, s.r.c);
  }

  /** An opcode at 0xFFFF: first both operand bytes of the next bank, then those at the bank's start. */
  lemma OperandsBehindTheBank(r: Regs)
    requires r.pc == 0xffff && r.pbr < 255
    ensures OperandCell(r, 1, false) == 0x1_0000 * (r.pbr as int + 1)
    ensures OperandCell(r, 1, true) == 0x1_0000 * r.pbr as int
    ensures OperandCell(r, 2, false) == 0x1_0000 * (r.pbr as int + 1) + 1
    ensures OperandCell(r, 2, true) == 0x1_0000 * r.pbr as int + 1
  {
  }
}
