/** Block moves as the main loop runs them: MVN and MVP stay where they are, and the opcode is fetched
    again before each byte. */
module MoveRuns {
  import opened ByteBits
  import opened Bitwise
  import opened Wdc65816
  import opened Opcodes65816
  import opened BlockMove
  import opened ModeRuns

  function Mover(up: bool): Macro {
    if up then MVN else MVP
  }

  /** The opcode of such a move stands at the PC. */
  predicate Stands(s: Core, up: bool) {
    MacroOf(Fetched(s, 0)) == Mover(up)
  }

  /** `n` turns of the main loop that no interrupt breaks into. */
  ghost predicate Turns(run: seq<Tick>, n: nat) {
    |run| == n && forall i :: 0 <= i < n ==> run[i].Instruction?
  }

  lemma TurnMoves(s: Core, up: bool, t: Tick)
    requires Modes(s.r) && Stands(s, up) && t.Instruction?
    ensures Ticked(s, t) == MovedOnce(s, up)
  {
    hide MovedOnce;
  }

  lemma OneMoreTurn(s: Core, run: seq<Tick>, k: nat)
    requires Modes(s.r) && k < |run|
    ensures After(s, run[..k + 1]) == Ticked(After(s, run[..k]), run[k])
  {
    var part := run[..k + 1];
    RunKeepsModes(s, part, k);
    assert part[..k] == run[..k] && part[k..] == [run[k]];
    assert [run[k]][1..] == [];
  }

  /** Every turn of the run finds the move at the PC. */
  ghost predicate Refetched(s: Core, up: bool, run: seq<Tick>)
    requires Modes(s.r)
  {
    forall k: nat :: k < |run| ==> Stands(After(s, run[..k]), up)
  }

  lemma {:induction false} RefetchedIsRepeated(s: Core, up: bool, run: seq<Tick>, n: nat, k: nat)
    requires Modes(s.r) && Turns(run, n) && k <= n
    requires forall i: nat :: i < k ==> Stands(After(s, run[..i]), up) || Stands(Repeated(s, up, i), up)
    ensures After(s, run[..k]) == Repeated(s, up, k)
  {
    hide Stands, MovedOnce, Ticked, Modes;
    if k > 0 {
      RefetchedIsRepeated(s, up, run, n, k - 1);
      OneMoreTurn(s, run, k - 1);
      TurnMoves(After(s, run[..k - 1]), up, run[k - 1]);
    }
  }

  // ------------------------------------------------------------------ the opcode on the way

  function OpcodeCell(r: Regs): nat {
    OperandCell(r, 0, true)
  }

  /** Of `n` executions, any but the last that writes to the opcode writes an opcode of the same move. */
  ghost predicate OpcodeKept(s: Core, up: bool, n: nat) {
    forall j: nat :: j + 1 < n && Dest(s, up, j) == OpcodeCell(s.r) ==>
      MacroOf(s.mem[Source(s, up, Origin(j, Lead(s, up)))]) == Mover(up)
  }

  /** The last of `n` executions that writes to the cell `a`, if any. */
  lemma {:induction false} LastWriter(s: Core, up: bool, a: nat, n: nat) returns (j: int)
    ensures -1 <= j < n && (j >= 0 ==> Dest(s, up, j) == a && n <= j + Width(Index8(s.r)))
    ensures j < 0 ==> forall i: nat :: i < n ==> Dest(s, up, i) != a
  {
    if n == 0 {
      j := -1;
    } else if Dest(s, up, n - 1) == a {
      j := n - 1;
    } else {
      j := LastWriter(s, up, a, n - 1);
      if j >= 0 && n > j + Width(Index8(s.r)) {
        ComesRound(s.r.y, up, j, Index8(s.r));
        assert false;
      }
    }
  }

  lemma Sooner(s: Core, up: bool, n: nat, k: nat)
    requires Ready(s, up, n) && k <= n
    ensures Ready(s, up, k)
    ensures OpcodeKept(s, up, n) ==> OpcodeKept(s, up, k)
  {
    hide IsOperandCell, Dest, Source, Mover, MacroOf, Origin, Lead, OneReading;
  }

  /** What the opcode cell holds after some executions: the byte that the last of them to reach it wrote. */
  lemma OpcodeByte(s: Core, up: bool, i: nat) returns (j: int)
    requires i <= s.r.c && Ready(s, up, i)
    ensures -1 <= j < i && (j >= 0 ==> Dest(s, up, j) == OpcodeCell(s.r))
    ensures Fetched(Repeated(s, up, i), 0)
            == if j < 0 then Fetched(s, 0) else s.mem[Source(s, up, Origin(j, Lead(s, up)))]
  {
    RepeatedMoves(s, up, i);
    j := LastWriter(s, up, OpcodeCell(s.r), i);
    hide Repeated, Origin, Lead, Source, Ready, Advanced;
  }

  lemma StandsAfter(s: Core, up: bool, i: nat)
    requires i <= s.r.c && Ready(s, up, i) && Stands(s, up) && OpcodeKept(s, up, i + 1)
    ensures Stands(Repeated(s, up, i), up)
  {
    var j := OpcodeByte(s, up, i);
    hide Repeated, Origin, Lead, Source, Dest, Ready, MacroOf, Fetched;
  }

  /** The move is found at the PC before each byte exactly when it stands there at first and whatever
      lands on the opcode is such an opcode. */
  lemma FetchedEachTime(s: Core, up: bool, run: seq<Tick>)
    requires Modes(s.r) && Ready(s, up, s.r.c + 1) && Turns(run, s.r.c + 1)
    ensures Refetched(s, up, run) <==> Stands(s, up) && OpcodeKept(s, up, s.r.c + 1)
    ensures Refetched(s, up, run) ==> After(s, run) == Repeated(s, up, s.r.c + 1)
  {
    var n := s.r.c + 1;
    hide Stands, OpcodeKept, After, Repeated, Ready, Modes;
    if Stands(s, up) && OpcodeKept(s, up, n) {
      RefetchedIfKept(s, up, run);
    }
    if Refetched(s, up, run) {
      KeptIfRefetched(s, up, run);
      RefetchedIsRepeated(s, up, run, n, n);
      assert run[..n] == run;
    }
  }

  lemma RefetchedIfKept(s: Core, up: bool, run: seq<Tick>)
    requires Modes(s.r) && Ready(s, up, s.r.c + 1) && Turns(run, s.r.c + 1)
    requires Stands(s, up) && OpcodeKept(s, up, s.r.c + 1)
    ensures Refetched(s, up, run)
  {
    var n := s.r.c + 1;
    hide Stands, OpcodeKept, After, Repeated, Ready, Modes;
    forall k: nat | k < n
      ensures Stands(Repeated(s, up, k), up)
    {
      Sooner(s, up, n, k);
      Sooner(s, up, n, k + 1);
      StandsAfter(s, up, k);
    }
    forall k: nat | k < n
      ensures Stands(After(s, run[..k]), up)
    {
      RefetchedIsRepeated(s, up, run, n, k);
    }
  }

  lemma SameCell(s: Core, t: Core)
    requires t.r.pc == s.r.pc && t.r.pbr == s.r.pbr
    ensures Fetched(t, 0) == t.mem[OpcodeCell(s.r)]
  {
  }

  /** Right after the execution that reaches the opcode, the opcode is the byte it has moved there. */
  lemma OpcodeWritten(s: Core, up: bool, j: nat)
    requires j < s.r.c && Ready(s, up, j + 1) && Dest(s, up, j) == OpcodeCell(s.r)
    ensures Fetched(Repeated(s, up, j + 1), 0) == s.mem[Source(s, up, Origin(j, Lead(s, up)))]
  {
    hide Ready, Origin, Lead, Source, Dest, Advanced, Intact, DestBank;
    RepeatedMoves(s, up, j + 1);
    assert Repeated(s, up, j + 1).r.pc == s.r.pc && Repeated(s, up, j + 1).r.pbr == s.r.pbr;
    hide RegsAfter, Repeated, Fetched, OpcodeCell;
    SameCell(s, Repeated(s, up, j + 1));
  }

  /** A move that has stopped early has overwritten its opcode. */
  lemma NotYetStopped(s: Core, up: bool, n: nat)
    requires n <= s.r.c && Stands(s, up) && !Stands(Repeated(s, up, n), up)
    ensures !(Ready(s, up, s.r.c + 1) && OpcodeKept(s, up, s.r.c + 1))
  {
    hide Ready, OpcodeKept, Stands, Repeated;
    if Ready(s, up, s.r.c + 1) && OpcodeKept(s, up, s.r.c + 1) {
      Sooner(s, up, s.r.c + 1, n);
      Sooner(s, up, s.r.c + 1, n + 1);
      StandsAfter(s, up, n);
    }
  }

  lemma WrittenAt(s: Core, up: bool, run: seq<Tick>, j: nat)
    requires Modes(s.r) && Ready(s, up, s.r.c + 1) && Turns(run, s.r.c + 1) && Refetched(s, up, run)
    requires j < s.r.c && Dest(s, up, j) == OpcodeCell(s.r)
    ensures MacroOf(s.mem[Source(s, up, Origin(j, Lead(s, up)))]) == Mover(up)
  {
    hide After, Repeated, Origin, Lead, Source, Dest, Ready, MacroOf, Fetched, OpcodeCell, Modes;
    assert Stands(After(s, run[..j + 1]), up);
    RefetchedIsRepeated(s, up, run, s.r.c + 1, j + 1);
    Sooner(s, up, s.r.c + 1, j + 1);
    OpcodeWritten(s, up, j);
  }

  lemma KeptIfRefetched(s: Core, up: bool, run: seq<Tick>)
    requires Modes(s.r) && Ready(s, up, s.r.c + 1) && Turns(run, s.r.c + 1) && Refetched(s, up, run)
    ensures Stands(s, up) && OpcodeKept(s, up, s.r.c + 1)
  {
    assert run[..0] == [] && Stands(After(s, run[..0]), up);
    hide Stands, Ready, MacroOf, Origin, Source, Dest, Lead;
    forall j: nat | j < s.r.c && Dest(s, up, j) == OpcodeCell(s.r)
      ensures MacroOf(s.mem[Source(s, up, Origin(j, Lead(s, up)))]) == Mover(up)
    {
      WrittenAt(s, up, run, j);
    }
  }

  // ------------------------------------------------------------------ the whole move

  /** What the whole move does when it copies its block: exactly C+1 bytes copied and nothing else
      changed, C = 0xFFFF, X and Y moved by C+1, DBR the destination bank, the PC behind it. */
  ghost predicate Moved(s: Core, t: Core, up: bool) {
    var n, narrow := s.r.c + 1, Index8(s.r);
    && Copied(s, t, up, n) && Intact(s, t, up, n)
    && t.r == s.r.(c := 0xffff, x := Advanced(s.r.x, up, n, narrow), y := Advanced(s.r.y, up, n, narrow),
                   dbr := DestBank(s), pc := NextPc(s.r, 3))
  }

  /** C+1 turns of the main loop move the block if the move does not overtake itself. */
  lemma BlockMoved(s: Core, up: bool, run: seq<Tick>)
    requires Modes(s.r) && Ready(s, up, s.r.c + 1) && Turns(run, s.r.c + 1)
    requires Stands(s, up) && OpcodeKept(s, up, s.r.c + 1) && Disjoint(s, up)
    ensures Moved(s, After(s, run), up)
  {
    FetchedEachTime(s, up, run);
    RepeatedBlock(s, up);
  }

  /** Whatever the overlap, they copy the block exactly when it agrees with itself wherever the move
      has caught up. */
  lemma CopiedExactly(s: Core, up: bool, run: seq<Tick>)
    requires Modes(s.r) && Ready(s, up, s.r.c + 1) && Turns(run, s.r.c + 1)
    requires Stands(s, up) && OpcodeKept(s, up, s.r.c + 1)
    ensures Copied(s, After(s, run), up, s.r.c + 1) <==> Repeats(s, up, s.r.c + 1)
  {
    FetchedEachTime(s, up, run);
    RepeatedCopies(s, up);
  }

  /** The destination stays clear of the three bytes of the instruction, but for the last byte moved. */
  ghost predicate Clear(s: Core, up: bool)
    requires s.r.pc <= 0xfffd
  {
    forall i: nat :: i < s.r.c ==> !(OpcodeCell(s.r) <= Dest(s, up, i) <= OpcodeCell(s.r) + 2)
  }

  /** Inside a bank and clear of the instruction, nothing more is asked. */
  lemma OrdinaryMove(s: Core, up: bool, run: seq<Tick>)
    requires Modes(s.r) && s.r.pc <= 0xfffd && Stands(s, up) && Clear(s, up) && Disjoint(s, up)
    requires Turns(run, s.r.c + 1)
    ensures Moved(s, After(s, run), up)
  {
    ReadAlike(s);
    BlockMoved(s, up, run);
  }

  // ------------------------------------------------------------------ a move that overtakes itself

  /** MVN at 0x2000 moves two bytes, 1 and 0, up by one cell: the second one read is the first one
      written. */
  function Overlapping(): Core {
    Core(Regs(1, 0x1000, 0x1001, 0x1ff, 0, 0, 0, 0x2000, 0, ZERO, 0, 1),
         seq(0x100_0000, i => if i == 0x1000 then 1 else if i == 0x2000 then 0x54 else 0))
  }

  lemma OneCellApart()
    ensures var s := Overlapping(); s.mem[Source(s, true, 0)] != s.mem[Source(s, true, 1)] && Lead(s, true) == 1
    ensures DestBank(Overlapping()) == 0 && Dest(Overlapping(), true, 0) == 0x1001
  {
    var s := Overlapping();
    assert DestBank(s) == 0 && SourceBank(s) == 0;
    assert Source(s, true, 0) == 0x1000 && Source(s, true, 1) == 0x1001;
  }

  lemma MoverStands()
    ensures var s := Overlapping(); Stands(s, true) && OpcodeKept(s, true, s.r.c + 1) && Ready(s, true, s.r.c + 1)
  {
    var s := Overlapping();
    hide MacroOf, DestBank, SourceBank, Dest, Source, Lead;
    OneCellApart();
    ReadAlike(s);
    SomeOpcodes();
  }

  lemma OverlapSmears(run: seq<Tick>)
    requires Turns(run, Overlapping().r.c + 1)
    ensures var s := Overlapping(); Modes(s.r) && !Copied(s, After(s, run), true, s.r.c + 1)
  {
    var s := Overlapping();
    MoverStands();
    OneCellApart();
    OneCellUp(s);
    FetchedEachTime(s, true, run);
    hide Ready, Stands, OpcodeKept, Overlapping, Copied, After, Repeated;
  }

  // ------------------------------------------------------------------ a move that overwrites itself

  /** MVP at 0x2000, which moves a zero from 0x013000 onto its own opcode, and one byte more. */
  function OnItself(): Core {
    Core(Regs(1, 0x3000, 0x2000, 0x1ff, 0, 0, 0, 0x2000, 0, ZERO, 0, 1),
         seq(0x100_0000, i => if i == 0x2000 then 0x44 else if i == 0x2002 then 1 else 0))
  }

  lemma WouldMove()
    ensures var s := OnItself();
            Ready(s, false, s.r.c + 1) && Disjoint(s, false) && Stands(s, false) && !OpcodeKept(s, false, s.r.c + 1)
  {
    var s := OnItself();
    assert DestBank(s) == 0 && SourceBank(s) == 1;
    assert Dest(s, false, 0) == 0x2000 && Source(s, false, 0) == 0x1_3000;
    hide MacroOf, DestBank, SourceBank, Dest, Source;
    ReadAlike(s);
    SomeOpcodes();
  }

  lemma SomeOpcodes()
    ensures MacroOf(0x54) == MVN && MacroOf(0x44) == MVP && MacroOf(0x00) == Macro.BRK
  {
  }

  lemma FirstMoved()
    ensures Fetched(MovedOnce(OnItself(), false), 0) == 0
  {
    var s := OnItself();
    assert DestBank(s) == 0 && SourceBank(s) == 1;
  }

  /** All that is asked of a move but its own opcode, and the second turn executes a BRK. */
  lemma OpcodeOverwritten(d: Data)
    ensures var s := OnItself();
            && Ready(s, false, s.r.c + 1) && Disjoint(s, false) && Stands(s, false) && !OpcodeKept(s, false, s.r.c + 1)
            && MacroAt(Ticked(s, Instruction(d)), Instruction(d)) == Macro.BRK
  {
    WouldMove();
    FirstMoved();
    TurnMoves(OnItself(), false, Instruction(d));
    SomeOpcodes();
    hide Ready, Disjoint, Stands, OpcodeKept, MovedOnce, MacroOf, OnItself;
  }
}
