/** What the VM translator's output does when run on the Hack machine.

    The stack lives in RAM from the address held in RAM[0] (SP) downwards:
    the top of the stack is RAM[SP-1] and the value below it RAM[SP-2]. The
    lemmas here read back the lines the code writer emits as instructions,
    run them, and show that each command does to the stack what the VM
    language says: arithmetic and logic replace the top one or two values by
    the result, push adds the value of a segment slot on top, and pop moves
    the top into a segment slot. */
module VMSemantics {
  import opened Numerals
  import opened HackCode
  import opened HackAlu
  import opened HackMachine
  import opened VMParser
  import opened VMCodeWriter

  /** The symbols the emitted code relies on, bound as in the assembler's
      initial table. */
  predicate PlatformBound(sym: map<string, nat>) {
    "SP" in sym && sym["SP"] == 0 &&
    "THIS" in sym && sym["THIS"] == 3 && "THAT" in sym && sym["THAT"] == 4 &&
    "R13" in sym && sym["R13"] == 13 && "R14" in sym && sym["R14"] == 14
  }

  /** The addresses the emitted code's A-instructions load for those
      symbols. */
  predicate Platform(sym: map<string, nat>) {
    Loaded(sym, "SP") == 0 && Loaded(sym, "THIS") == 3 && Loaded(sym, "THAT") == 4 &&
    Loaded(sym, "R13") == 13 && Loaded(sym, "R14") == 14
  }

  lemma PlatformLoads(sym: map<string, nat>)
    requires PlatformBound(sym)
    ensures Platform(sym)
  {
    LoadedSymbol(sym, "SP");
    LoadedSymbol(sym, "THIS");
    LoadedSymbol(sym, "THAT");
    LoadedSymbol(sym, "R13");
    LoadedSymbol(sym, "R14");
  }

  /** The stack pointer. */
  function SP(m: Machine): Word {
    Read(m.ram, 0)
  }

  // ------------------------------------------------------ small pieces

  /** `@SP`, `M=M-1`, `A=M`: SP decreases and A points at the old top. */
  const DecrementSP: seq<Instr> := [Load("SP"), Compute("M", "X-1", true, "-1"), Compute("A", "X", true, "-1")]

  /** `D=M`. */
  const FetchD: Instr := Compute("D", "X", true, "-1")

  /** `@r`, `M=D`: D is saved in the register `r`. */
  function SaveD(r: string): seq<Instr> {
    [Load(r), Compute("M", "D", false, "-1")]
  }

  /** `@SP`, `A=M`, `M=D`: D is stored at the address in SP. */
  const StoreAtSP: seq<Instr> := [Load("SP"), Compute("A", "X", true, "-1"), Compute("M", "D", false, "-1")]

  /** `@SP`, `M=M+1`. */
  const IncrementSP: seq<Instr> := [Load("SP"), Compute("M", "X+1", true, "-1")]

  /** `@R13`, `A=M`, `M=D`: D is stored at the address held in R13. */
  const StoreThroughR13: seq<Instr> := [Load("R13"), Compute("A", "X", true, "-1"), Compute("M", "D", false, "-1")]

  lemma DecrementSPRun(sym: map<string, nat>, m: Machine)
    requires Loaded(sym, "SP") == 0 && 1 <= SP(m)
    ensures Run(sym, m, DecrementSP) == Machine(SP(m) - 1, m.d, m.ram[0 := SP(m) - 1])
  {
    var p := DecrementSP;
    var m1 := m.(a := 0);
    var m2 := m1.(ram := m.ram[0 := SP(m) - 1]);
    assert p[0..] == p;
    RunStep(sym, m, p, 0);
    RunStep(sym, m1, p, 1);
    RunStep(sym, m2, p, 2);
    assert p[3..] == [];
  }

  lemma FetchDRun(sym: map<string, nat>, m: Machine)
    ensures Run(sym, m, [FetchD]) == m.(d := Read(m.ram, m.a))
  {
    RunStep(sym, m, [FetchD], 0);
    assert [FetchD][1..] == [];
  }

  lemma SaveDRun(sym: map<string, nat>, m: Machine, r: string)
    ensures Run(sym, m, SaveD(r)) == Machine(Loaded(sym, r), m.d, m.ram[Loaded(sym, r) := m.d])
  {
    var p := SaveD(r);
    assert p[0..] == p;
    RunStep(sym, m, p, 0);
    RunStep(sym, m.(a := Loaded(sym, r)), p, 1);
    assert p[2..] == [];
  }

  lemma StoreAtSPRun(sym: map<string, nat>, m: Machine)
    requires Loaded(sym, "SP") == 0
    ensures Run(sym, m, StoreAtSP) == Machine(SP(m), m.d, m.ram[SP(m) := m.d])
  {
    var p := StoreAtSP;
    var m1 := m.(a := 0);
    var m2 := m1.(a := SP(m));
    assert p[0..] == p;
    RunStep(sym, m, p, 0);
    RunStep(sym, m1, p, 1);
    RunStep(sym, m2, p, 2);
    assert p[3..] == [];
  }

  lemma IncrementSPRun(sym: map<string, nat>, m: Machine)
    requires Loaded(sym, "SP") == 0 && SP(m) < 65535
    ensures Run(sym, m, IncrementSP) == Machine(0, m.d, m.ram[0 := SP(m) + 1])
  {
    var p := IncrementSP;
    assert p[0..] == p;
    RunStep(sym, m, p, 0);
    RunStep(sym, m.(a := 0), p, 1);
    assert p[2..] == [];
  }

  lemma StoreThroughR13Run(sym: map<string, nat>, m: Machine)
    requires Loaded(sym, "R13") == 13
    ensures Run(sym, m, StoreThroughR13) == Machine(Read(m.ram, 13), m.d, m.ram[Read(m.ram, 13) := m.d])
  {
    var p := StoreThroughR13;
    var m1 := m.(a := 13);
    var m2 := m1.(a := Read(m.ram, 13));
    assert p[0..] == p;
    RunStep(sym, m, p, 0);
    RunStep(sym, m1, p, 1);
    RunStep(sym, m2, p, 2);
    assert p[3..] == [];
  }

  /** `@SP`, `M=M-1`, `A=M`, `D=M`: the top of the stack is popped into D. */
  const PopD: seq<Instr> := DecrementSP + [FetchD]

  lemma PopDRun(sym: map<string, nat>, m: Machine)
    requires Loaded(sym, "SP") == 0 && 2 <= SP(m)
    ensures Run(sym, m, PopD) == Machine(SP(m) - 1, Read(m.ram, SP(m) - 1), m.ram[0 := SP(m) - 1])
  {
    RunConcat(sym, m, DecrementSP, [FetchD]);
    DecrementSPRun(sym, m);
    FetchDRun(sym, Run(sym, m, DecrementSP));
  }

  // ------------------------------------------------------ the writer's blocks

  /** The instructions of `PopOneCode`. */
  const PopOneProg: seq<Instr> := PopD + SaveD("R13")

  /** The instructions of `PopTwoCode`. */
  const PopTwoProg: seq<Instr> := PopOneProg + (PopD + SaveD("R14"))

  /** The instructions of `PushDCode`. */
  const PushDProg: seq<Instr> := StoreAtSP + IncrementSP

  /** The instructions of `PopToDCode`. */
  const PopToDProg: seq<Instr> := SaveD("R13") + (PopD + StoreThroughR13)

  /** Popping into R13: SP decreases and the old top is in D and in R13. */
  lemma PopOneRun(sym: map<string, nat>, m: Machine)
    requires Platform(sym) && 17 <= SP(m)
    ensures var x := Read(m.ram, SP(m) - 1);
      Run(sym, m, PopOneProg) == Machine(13, x, m.ram[0 := SP(m) - 1][13 := x])
  {
    RunConcat(sym, m, PopD, SaveD("R13"));
    PopDRun(sym, m);
    SaveDRun(sym, Run(sym, m, PopD), "R13");
  }

  /** Popping two values: y (the top) into R13 and x (below it) into R14
      and D; SP decreases by two. */
  lemma PopTwoRun(sym: map<string, nat>, m: Machine)
    requires Platform(sym) && 18 <= SP(m)
    ensures var y := Read(m.ram, SP(m) - 1);
      var x := Read(m.ram, SP(m) - 2);
      Run(sym, m, PopTwoProg) == Machine(14, x, m.ram[0 := SP(m) - 1][13 := y][0 := SP(m) - 2][14 := x])
  {
    RunConcat(sym, m, PopOneProg, PopD + SaveD("R14"));
    PopOneRun(sym, m);
    var m1 := Run(sym, m, PopOneProg);
    assert SP(m1) == SP(m) - 1 && Read(m1.ram, SP(m) - 2) == Read(m.ram, SP(m) - 2);
    RunConcat(sym, m1, PopD, SaveD("R14"));
    PopDRun(sym, m1);
    SaveDRun(sym, Run(sym, m1, PopD), "R14");
  }

  /** Pushing D: D is stored at the old SP, which then increases. */
  lemma PushDRun(sym: map<string, nat>, m: Machine)
    requires Platform(sym) && 1 <= SP(m) < 65535
    ensures Run(sym, m, PushDProg) == Machine(0, m.d, m.ram[SP(m) := m.d][0 := SP(m) + 1])
  {
    RunConcat(sym, m, StoreAtSP, IncrementSP);
    StoreAtSPRun(sym, m);
    IncrementSPRun(sym, Run(sym, m, StoreAtSP));
  }

  /** Popping into the address in D: the address is kept in R13, SP
      decreases, and the old top is stored at the address. */
  lemma PopToDRun(sym: map<string, nat>, m: Machine)
    requires Platform(sym) && 17 <= SP(m)
    ensures var x := Read(m.ram, SP(m) - 1);
      Run(sym, m, PopToDProg) == Machine(m.d, x, m.ram[13 := m.d][0 := SP(m) - 1][m.d := x])
  {
    RunConcat(sym, m, SaveD("R13"), PopD + StoreThroughR13);
    SaveDRun(sym, m, "R13");
    var m1 := Run(sym, m, SaveD("R13"));
    assert SP(m1) == SP(m) && Read(m1.ram, SP(m) - 1) == Read(m.ram, SP(m) - 1);
    RunConcat(sym, m1, PopD, StoreThroughR13);
    PopDRun(sym, m1);
    StoreThroughR13Run(sym, Run(sym, m1, PopD));
  }

  // ------------------------------------------------------ reading the text back

  lemma AllWellFormedConcat(a: seq<Instr>, b: seq<Instr>)
    requires AllWellFormed(a) && AllWellFormed(b)
    ensures AllWellFormed(a + b)
  {
    forall i | 0 <= i < |a + b|
      ensures WellFormed((a + b)[i])
    {
      if i < |a| {
        assert (a + b)[i] == a[i];
      } else {
        assert (a + b)[i] == b[i - |a|];
      }
    }
  }

  /** Writing and well-formedness both go piece by piece. */
  lemma Join(a: seq<Instr>, b: seq<Instr>, ta: seq<string>, tb: seq<string>)
    requires WrittenAll(a) == ta && AllWellFormed(a)
    requires WrittenAll(b) == tb && AllWellFormed(b)
    ensures WrittenAll(a + b) == ta + tb && AllWellFormed(a + b)
  {
    WrittenConcat(a, b);
    AllWellFormedConcat(a, b);
  }

  lemma WrittenJoin(a: seq<Instr>, b: seq<Instr>, ta: seq<string>, tb: seq<string>)
    requires WrittenAll(a) == ta && WrittenAll(b) == tb
    ensures WrittenAll(a + b) == ta + tb
  {
    WrittenConcat(a, b);
  }

  /** The instructions of the blocks can be written and read back. */
  lemma LoadsWellFormed()
    ensures WellFormed(Load("SP")) && WellFormed(Load("R13")) && WellFormed(Load("R14"))
  {
  }

  lemma ComputesWellFormed()
    ensures WellFormed(Compute("M", "X-1", true, "-1")) && WellFormed(Compute("A", "X", true, "-1"))
    ensures WellFormed(FetchD)
  {
  }

  lemma StoresWellFormed()
    ensures WellFormed(Compute("M", "D", false, "-1")) && WellFormed(Compute("M", "X+1", true, "-1"))
  {
  }

  lemma DecrementSPText()
    ensures WrittenAll(DecrementSP) == ["@SP", "M=M-1", "A=M"] && AllWellFormed(DecrementSP)
  {
    var p := DecrementSP;
    assert Written(p[0]) == "@SP";
    assert Written(p[1]) == "M=M-1";
    assert Written(p[2]) == "A=M";
    LoadsWellFormed();
    ComputesWellFormed();
  }

  lemma PopDText()
    ensures WrittenAll(PopD) == ["@SP", "M=M-1", "A=M", "D=M"] && AllWellFormed(PopD)
  {
    DecrementSPText();
    ComputesWellFormed();
    Single(FetchD);
    assert Written(FetchD) == "D=M";
    Join(DecrementSP, [FetchD], ["@SP", "M=M-1", "A=M"], ["D=M"]);
    BlockSplits();
  }

  /** A one-instruction program. */
  lemma Single(i: Instr)
    ensures WrittenAll([i]) == [Written(i)]
    ensures AllWellFormed([i]) <==> WellFormed(i)
  {
    assert [i][1..] == [];
  }

  /** The writer's stack blocks, cut where the instruction blocks meet. */
  lemma BlockSplits()
    ensures ["@SP", "M=M-1", "A=M", "D=M"] == ["@SP", "M=M-1", "A=M"] + ["D=M"]
    ensures PopOneCode == ["@SP", "M=M-1", "A=M", "D=M"] + ["@R13", "M=D"]
    ensures ["@SP", "M=M-1", "A=M", "D=M", "@R14", "M=D"] == ["@SP", "M=M-1", "A=M", "D=M"] + ["@R14", "M=D"]
    ensures PushDCode == ["@SP", "A=M", "M=D"] + ["@SP", "M=M+1"]
    ensures ["@SP", "M=M-1", "A=M", "D=M", "@R13", "A=M", "M=D"] == ["@SP", "M=M-1", "A=M", "D=M"] + ["@R13", "A=M", "M=D"]
    ensures PopToDCode == ["@R13", "M=D"] + ["@SP", "M=M-1", "A=M", "D=M", "@R13", "A=M", "M=D"]
  {
  }

  lemma SaveDText()
    ensures WrittenAll(SaveD("R13")) == ["@R13", "M=D"] && AllWellFormed(SaveD("R13"))
    ensures WrittenAll(SaveD("R14")) == ["@R14", "M=D"] && AllWellFormed(SaveD("R14"))
  {
    var p, q := SaveD("R13"), SaveD("R14");
    assert Written(p[0]) == "@R13";
    assert Written(q[0]) == "@R14";
    assert Written(p[1]) == "M=D";
    LoadsWellFormed();
    StoresWellFormed();
  }

  lemma StoreAtSPText()
    ensures WrittenAll(StoreAtSP) == ["@SP", "A=M", "M=D"] && AllWellFormed(StoreAtSP)
  {
    var p := StoreAtSP;
    assert Written(p[0]) == "@SP";
    assert Written(p[1]) == "A=M";
    assert Written(p[2]) == "M=D";
    LoadsWellFormed();
    ComputesWellFormed();
    StoresWellFormed();
  }

  lemma IncrementSPText()
    ensures WrittenAll(IncrementSP) == ["@SP", "M=M+1"] && AllWellFormed(IncrementSP)
  {
    var p := IncrementSP;
    assert Written(p[0]) == "@SP";
    assert Written(p[1]) == "M=M+1";
    LoadsWellFormed();
    StoresWellFormed();
  }

  lemma StoreThroughR13Text()
    ensures WrittenAll(StoreThroughR13) == ["@R13", "A=M", "M=D"] && AllWellFormed(StoreThroughR13)
  {
    var p := StoreThroughR13;
    assert Written(p[0]) == "@R13";
    assert Written(p[1]) == "A=M";
    assert Written(p[2]) == "M=D";
    LoadsWellFormed();
    ComputesWellFormed();
    StoresWellFormed();
  }

  lemma PopOneText()
    ensures WrittenAll(PopOneProg) == PopOneCode && AllWellFormed(PopOneProg)
  {
    PopDText();
    SaveDText();
    Join(PopD, SaveD("R13"), ["@SP", "M=M-1", "A=M", "D=M"], ["@R13", "M=D"]);
    BlockSplits();
  }

  lemma PopTwoText()
    ensures WrittenAll(PopTwoProg) == PopTwoCode && AllWellFormed(PopTwoProg)
  {
    PopOneText();
    PopDText();
    SaveDText();
    BlockSplits();
    Join(PopD, SaveD("R14"), ["@SP", "M=M-1", "A=M", "D=M"], ["@R14", "M=D"]);
    Join(PopOneProg, PopD + SaveD("R14"), PopOneCode, ["@SP", "M=M-1", "A=M", "D=M", "@R14", "M=D"]);
  }

  lemma PushDText()
    ensures WrittenAll(PushDProg) == PushDCode && AllWellFormed(PushDProg)
  {
    StoreAtSPText();
    IncrementSPText();
    Join(StoreAtSP, IncrementSP, ["@SP", "A=M", "M=D"], ["@SP", "M=M+1"]);
    BlockSplits();
  }

  lemma PopThroughR13Text()
    ensures WrittenAll(PopD + StoreThroughR13) == ["@SP", "M=M-1", "A=M", "D=M", "@R13", "A=M", "M=D"]
    ensures AllWellFormed(PopD + StoreThroughR13)
  {
    PopDText();
    StoreThroughR13Text();
    Join(PopD, StoreThroughR13, ["@SP", "M=M-1", "A=M", "D=M"], ["@R13", "A=M", "M=D"]);
    BlockSplits();
  }

  lemma PopToDText()
    ensures WrittenAll(PopToDProg) == PopToDCode && AllWellFormed(PopToDProg)
  {
    SaveDText();
    PopThroughR13Text();
    Join(SaveD("R13"), PopD + StoreThroughR13, ["@R13", "M=D"], ["@SP", "M=M-1", "A=M", "D=M", "@R13", "A=M", "M=D"]);
    BlockSplits();
  }



  /** The assembler reads the writer's four stack blocks as the
      instructions above. */
  lemma BlocksRead()
    ensures Decoded(PopOneCode) == PopOneProg && Decoded(PopTwoCode) == PopTwoProg
    ensures Decoded(PushDCode) == PushDProg && Decoded(PopToDCode) == PopToDProg
  {
    PopOneText();
    DecodedWritten(PopOneProg);
    PopTwoText();
    DecodedWritten(PopTwoProg);
    PushDText();
    DecodedWritten(PushDProg);
    PopToDText();
    DecodedWritten(PopToDProg);
  }

  // ------------------------------------------------------ arithmetic and logic

  /** A word read as a two's complement number. */
  function Signed(w: Word): int {
    if w < 32768 then w else w - 65536
  }

  /** The VM's booleans: true is -1 (all ones), false is 0. */
  function Truth(b: bool): Word {
    if b then 65535 else 0
  }

  /** What each command leaves on the stack, given x (below the top) and y
      (the top); neg and not only use y. The comparisons look at the 16-bit
      difference x - y, as the emitted code does. */
  function OpValue(op: Op, x: Word, y: Word): Word {
    match op
    case Add => Add16(x, y)
    case Sub => Sub16(x, y)
    case Neg => Sub16(0, y)
    case And => And16(x, y)
    case Or => Or16(x, y)
    case Not => Not16(y)
    case Eq => Truth(x == y)
    case Gt => Truth(Signed(Sub16(x, y)) > 0)
    case Lt => Truth(Signed(Sub16(x, y)) < 0)
  }

  /** The instruction `Combine(op)`: D and M combined into D. */
  function CombineInstr(op: Op): Instr {
    match op
    case Add => Compute("D", "D+X", true, "-1")
    case Sub => Compute("D", "X-D", true, "-1")
    case Neg => Compute("D", "-X", true, "-1")
    case And => Compute("D", "X&D", true, "-1")
    case Or => Compute("D", "X|D", true, "-1")
    case Not => Compute("D", "!X", true, "-1")
    case _ => Compute("D", "X-D", true, "-1")
  }

  /** `@R13` and the combining instruction of neg and not. */
  function UnaryStage(op: Op): seq<Instr> {
    [Load("R13"), CombineInstr(op)]
  }

  /** `@R13`, `D=M`, `@R14` and the combining instruction. */
  function BinaryStage(op: Op): seq<Instr> {
    [Load("R13"), FetchD, Load("R14"), CombineInstr(op)]
  }

  /** The instructions of `UnaryCode(op)`. */
  function UnaryProg(op: Op): seq<Instr> {
    PopOneProg + UnaryStage(op) + PushDProg
  }

  /** The instructions of `BinaryCode(op)`. */
  function BinaryProg(op: Op): seq<Instr> {
    PopTwoProg + BinaryStage(op) + PushDProg
  }

  lemma CombineWritten(op: Op)
    ensures Written(CombineInstr(op)) == Combine(op)
  {
    match op
    case Add =>
      assert Written(CombineInstr(op)) == "D=D+M";
    case Sub =>
      assert Written(CombineInstr(op)) == "D=M-D";
    case Neg =>
      assert Written(CombineInstr(op)) == "D=-M";
    case And =>
      assert Written(CombineInstr(op)) == "D=M&D";
    case Or =>
      assert Written(CombineInstr(op)) == "D=M|D";
    case Not =>
      assert Written(CombineInstr(op)) == "D=!M";
    case _ =>
      assert Written(CombineInstr(op)) == "D=M-D";
  }

  lemma CombineWellFormed(op: Op)
    ensures WellFormed(CombineInstr(op))
  {
    var k := CombineInstr(op).key;
    assert k in {"D+X", "X-D", "-X", "X&D", "X|D", "!X"};
  }

  lemma CombineText(op: Op)
    ensures Written(CombineInstr(op)) == Combine(op) && WellFormed(CombineInstr(op))
  {
    CombineWritten(op);
    CombineWellFormed(op);
  }

  lemma UnaryText(op: Op)
    ensures WrittenAll(UnaryProg(op)) == UnaryCode(op) && AllWellFormed(UnaryProg(op))
  {
    var stage := UnaryStage(op);
    UnaryStageText(op);
    PopOneText();
    PushDText();
    Join(PopOneProg, stage, PopOneCode, ["@R13", Combine(op)]);
    Join(PopOneProg + stage, PushDProg, PopOneCode + ["@R13", Combine(op)], PushDCode);
  }

  lemma UnaryStageText(op: Op)
    ensures WrittenAll(UnaryStage(op)) == ["@R13", Combine(op)] && AllWellFormed(UnaryStage(op))
  {
    var stage := UnaryStage(op);
    CombineText(op);
    LoadsWellFormed();
    assert Written(stage[0]) == "@R13";
    assert WrittenAll(stage) == ["@R13", Combine(op)];
  }

  lemma FetchOperandsText()
    ensures WrittenAll(FetchOperands) == ["@R13", "D=M", "@R14"] && AllWellFormed(FetchOperands)
  {
    var p := FetchOperands;
    assert Written(p[0]) == "@R13";
    assert Written(p[1]) == "D=M";
    assert Written(p[2]) == "@R14";
    LoadsWellFormed();
    ComputesWellFormed();
  }

  lemma BinaryStageText(op: Op)
    ensures WrittenAll(BinaryStage(op)) == ["@R13", "D=M", "@R14", Combine(op)]
    ensures AllWellFormed(BinaryStage(op))
  {
    assert BinaryStage(op) == FetchOperands + [CombineInstr(op)];
    FetchOperandsText();
    CombineText(op);
    Single(CombineInstr(op));
    Join(FetchOperands, [CombineInstr(op)], ["@R13", "D=M", "@R14"], [Combine(op)]);
    FetchSplit(Combine(op));
  }

  lemma FetchSplit(w: string)
    ensures ["@R13", "D=M", "@R14"] + [w] == ["@R13", "D=M", "@R14", w]
  {
  }

  lemma BinaryText(op: Op)
    ensures WrittenAll(BinaryProg(op)) == BinaryCode(op) && AllWellFormed(BinaryProg(op))
  {
    var stage := BinaryStage(op);
    BinaryStageText(op);
    PopTwoText();
    PushDText();
    Join(PopTwoProg, stage, PopTwoCode, ["@R13", "D=M", "@R14", Combine(op)]);
    Join(PopTwoProg + stage, PushDProg, PopTwoCode + ["@R13", "D=M", "@R14", Combine(op)], PushDCode);
  }

  /** What the combining instruction leaves in D, with x in M and y in D:
      the operator's value (neg and not take their operand from M), or
      x - y for a comparison. */
  function CombineValue(op: Op, x: Word, y: Word): Word {
    if IsComparison(op) then Sub16(x, y)
    else if IsUnary(op) then OpValue(op, x, x)
    else OpValue(op, x, y)
  }

  // One lemma per computation the combining instruction uses, with x in M
  // and y in D.

  lemma AddsMeaning(x: Word, y: Word)
    ensures CompMeaning("D+X", y, x) == Add16(x, y)
  {
  }

  lemma SubtractsMeaning(x: Word, y: Word)
    ensures CompMeaning("X-D", y, x) == Sub16(x, y)
  {
  }

  lemma NegatesMeaning(x: Word, y: Word)
    ensures CompMeaning("-X", y, x) == Sub16(0, x)
  {
  }

  lemma AndsMeaning(x: Word, y: Word)
    ensures CompMeaning("X&D", y, x) == And16(x, y)
  {
  }

  lemma OrsMeaning(x: Word, y: Word)
    ensures CompMeaning("X|D", y, x) == Or16(x, y)
  {
  }

  lemma NotsMeaning(x: Word, y: Word)
    ensures CompMeaning("!X", y, x) == Not16(x)
  {
  }

  lemma CombineMeaning(op: Op, x: Word, y: Word)
    ensures CompMeaning(CombineInstr(op).key, y, x) == CombineValue(op, x, y)
  {
    match op
    case Add => AddsMeaning(x, y);
    case Neg => NegatesMeaning(x, y);
    case And => AndsMeaning(x, y);
    case Or => OrsMeaning(x, y);
    case Not => NotsMeaning(x, y);
    case _ => SubtractsMeaning(x, y);
  }

  /** The combining instruction sets D to `CombineValue` of M and D. */
  lemma CombineRun(sym: map<string, nat>, m: Machine, op: Op)
    ensures Effect(sym, m, CombineInstr(op)) == m.(d := CombineValue(op, Read(m.ram, m.a), m.d))
  {
    CombineMeaning(op, Read(m.ram, m.a), m.d);
  }

  /** neg and not combine the operand staged in R13 into D. */
  lemma UnaryStageRun(sym: map<string, nat>, m: Machine, op: Op)
    requires Loaded(sym, "R13") == 13 && IsUnary(op)
    ensures Run(sym, m, UnaryStage(op)) == Machine(13, OpValue(op, Read(m.ram, 13), Read(m.ram, 13)), m.ram)
  {
    var p := UnaryStage(op);
    var m1 := m.(a := 13);
    assert p[0..] == p;
    RunStep(sym, m, p, 0);
    RunStep(sym, m1, p, 1);
    assert p[2..] == [];
    CombineRun(sym, m1, op);
  }

  /** `@R13`, `D=M`, `@R14`: y from R13 in D, and A at R14. */
  const FetchOperands: seq<Instr> := [Load("R13"), FetchD, Load("R14")]

  lemma FetchOperandsRun(sym: map<string, nat>, m: Machine)
    requires Loaded(sym, "R13") == 13 && Loaded(sym, "R14") == 14
    ensures Run(sym, m, FetchOperands) == Machine(14, Read(m.ram, 13), m.ram)
  {
    var p := FetchOperands;
    var m1 := m.(a := 13);
    var m2 := m1.(d := Read(m.ram, 13));
    assert p[0..] == p;
    RunStep(sym, m, p, 0);
    RunStep(sym, m1, p, 1);
    RunStep(sym, m2, p, 2);
    assert p[3..] == [];
  }

  /** The binary stage loads y from R13 into D and combines it with x from
      R14; for a comparison the result is x - y. */
  lemma BinaryStageRun(sym: map<string, nat>, m: Machine, op: Op)
    requires Loaded(sym, "R13") == 13 && Loaded(sym, "R14") == 14
    ensures Run(sym, m, BinaryStage(op)) == Machine(14, CombineValue(op, Read(m.ram, 14), Read(m.ram, 13)), m.ram)
  {
    assert BinaryStage(op) == FetchOperands + [CombineInstr(op)];
    RunConcat(sym, m, FetchOperands, [CombineInstr(op)]);
    FetchOperandsRun(sym, m);
    var m1 := Run(sym, m, FetchOperands);
    RunStep(sym, m1, [CombineInstr(op)], 0);
    assert [CombineInstr(op)][1..] == [];
    CombineRun(sym, m1, op);
  }

  /** The registers and memory after popping x and y into R14 and R13. */
  function PoppedTwo(m: Machine): map<int, Word>
    requires 2 <= SP(m)
  {
    var sp := SP(m);
    m.ram[0 := sp - 1][13 := Read(m.ram, sp - 1)][0 := sp - 2][14 := Read(m.ram, sp - 2)]
  }
  /** The machine after neg or not leaves `v`: SP back where it was, `v` on
      top, y in R13, A at SP and `v` in D. */
  function UnaryOutcome(m: Machine, v: Word): Machine
    requires 1 <= SP(m)
  {
    var sp := SP(m);
    Machine(0, v, m.ram[0 := sp - 1][13 := Read(m.ram, sp - 1)][sp - 1 := v][0 := sp])
  }
  /** The machine after a binary command leaves `v`: SP one lower, `v` on
      top, y in R13 and x in R14, A at SP and `v` in D. */
  function BinaryOutcome(m: Machine, v: Word): Machine
    requires 2 <= SP(m)
  {
    Machine(0, v, PoppedTwo(m)[SP(m) - 2 := v][0 := SP(m) - 1])
  }
  /** The outcomes written out. */
  lemma OutcomesSpelled(m: Machine, v: Word)
    requires 2 <= SP(m)
    ensures var sp, x, y := SP(m), Read(m.ram, SP(m) - 2), Read(m.ram, SP(m) - 1);
      && UnaryOutcome(m, v) == Machine(0, v, m.ram[0 := sp - 1][13 := y][sp - 1 := v][0 := sp])
      && BinaryOutcome(m, v) == Machine(0, v, m.ram[0 := sp - 1][13 := y][0 := sp - 2][14 := x][sp - 2 := v][0 := sp - 1])
  {
  }

  /** neg and not replace the top of the stack y by the result; SP is
      back where it was. */
  lemma UnaryRun(sym: map<string, nat>, m: Machine, op: Op)
    requires Platform(sym) && 17 <= SP(m) && IsUnary(op)
    ensures var sp, x, y := SP(m), Read(m.ram, SP(m) - 2), Read(m.ram, SP(m) - 1);
      var v := OpValue(op, x, y);
      Run(sym, m, UnaryProg(op)) == Machine(0, v, m.ram[0 := sp - 1][13 := y][sp - 1 := v][0 := sp])
  {
    var sp, x, y := SP(m), Read(m.ram, SP(m) - 2), Read(m.ram, SP(m) - 1);
    var stage := UnaryStage(op);
    RunConcat(sym, m, PopOneProg + stage, PushDProg);
    RunConcat(sym, m, PopOneProg, stage);
    PopOneRun(sym, m);
    var m1 := Run(sym, m, PopOneProg);
    var ram1 := m.ram[0 := sp - 1][13 := y];
    assert m1 == Machine(13, y, ram1);
    assert Read(ram1, 13) == y && Read(ram1, 0) == sp - 1;
    UnaryStageRun(sym, m1, op);
    var m2 := Run(sym, m1, stage);
    assert OpValue(op, y, y) == OpValue(op, x, y);
    assert m2 == Machine(13, OpValue(op, x, y), ram1);
    PushDRun(sym, m2);
  }

  /** add, sub, and, or replace x and y by the result; SP decreases by
      one. */
  lemma BinaryRun(sym: map<string, nat>, m: Machine, op: Op)
    requires Platform(sym) && 18 <= SP(m) && !IsUnary(op) && !IsComparison(op)
    ensures Run(sym, m, BinaryProg(op)) == BinaryOutcome(m, OpValue(op, Read(m.ram, SP(m) - 2), Read(m.ram, SP(m) - 1)))
  {
    PopTwoStageRun(sym, m, op);
    BinaryFinish(sym, m, PopTwoProg + BinaryStage(op), OpValue(op, Read(m.ram, SP(m) - 2), Read(m.ram, SP(m) - 1)));
  }

  /** Code that pops two values and leaves `v` in D, followed by pushing D,
      leaves `BinaryOutcome(m, v)`. */
  lemma BinaryFinish(sym: map<string, nat>, m: Machine, p: seq<Instr>, v: Word)
    requires Platform(sym) && 18 <= SP(m) && Run(sym, m, p) == Machine(14, v, PoppedTwo(m))
    ensures Run(sym, m, p + PushDProg) == BinaryOutcome(m, v)
  {
    PushAfter(sym, m, p, Machine(14, v, PoppedTwo(m)), SP(m) - 2);
  }

  /** Code that leaves SP at `t`, followed by pushing D. */
  lemma PushAfter(sym: map<string, nat>, m: Machine, p: seq<Instr>, m1: Machine, t: int)
    requires Platform(sym) && Run(sym, m, p) == m1 && SP(m1) == t && 1 <= t < 65535
    ensures Run(sym, m, p + PushDProg) == Machine(0, m1.d, m1.ram[t := m1.d][0 := t + 1])
  {
    RunConcat(sym, m, p, PushDProg);
    PushDRun(sym, m1);
  }

  /** Popping x and y and combining them leaves the value in D. */
  lemma PopTwoStageRun(sym: map<string, nat>, m: Machine, op: Op)
    requires Platform(sym) && 18 <= SP(m) && !IsUnary(op) && !IsComparison(op)
    ensures Run(sym, m, PopTwoProg + BinaryStage(op)) ==
      Machine(14, OpValue(op, Read(m.ram, SP(m) - 2), Read(m.ram, SP(m) - 1)), PoppedTwo(m))
  {
    var sp, x, y := SP(m), Read(m.ram, SP(m) - 2), Read(m.ram, SP(m) - 1);
    var stage := BinaryStage(op);
    RunConcat(sym, m, PopTwoProg, stage);
    PopTwoRun(sym, m);
    var m1 := Run(sym, m, PopTwoProg);
    var ram1 := m.ram[0 := sp - 1][13 := y][0 := sp - 2][14 := x];
    assert m1 == Machine(14, x, ram1);
    assert Read(ram1, 14) == x && Read(ram1, 13) == y && Read(ram1, 0) == sp - 2;
    BinaryStageRun(sym, m1, op);
  }

  // ------------------------------------------------------ comparisons

  /** The jump mnemonic of each comparison. */
  function JumpMnemonic(op: Op): string
    requires IsComparison(op)
  {
    match op
    case Eq => "JEQ"
    case Gt => "JGT"
    case Lt => "JLT"
  }

  /** `JumpOf(op)`: jump when x - y, in D, is =, > or < 0. */
  function JumpInstr(op: Op): Instr
    requires IsComparison(op)
  {
    Compute("-1", "D", false, JumpMnemonic(op))
  }

  /** `D;JMP` */
  const JumpAlways: Instr := Compute("-1", "D", false, "JMP")

  /** `0;JMP` */
  const Goto: Instr := Compute("-1", "0", false, "JMP")

  /** `D=-1` */
  const SetTrue: Instr := Compute("D", "-1", false, "-1")

  /** `D=0` */
  const SetFalse: Instr := Compute("D", "0", false, "-1")

  /** `@TRUEs`, the conditional jump, `@FALSEs`, `D;JMP`. */
  function Branch(op: Op, s: string): seq<Instr>
    requires IsComparison(op)
  {
    [Load("TRUE" + s), JumpInstr(op), Load("FALSE" + s), JumpAlways]
  }

  /** `(tags)`, the instruction `setD`, `@NEXTs`, `0;JMP`: one arm of the
      comparison, setting D and joining at NEXTs. */
  function Arm(tag: string, setD: Instr, s: string): seq<Instr> {
    [Label(tag + s), setD, Load("NEXT" + s), Goto]
  }

  /** The instructions of `TrueFalseCode`. */
  function TrueFalse(s: string): seq<Instr> {
    Arm("TRUE", SetTrue, s) + Arm("FALSE", SetFalse, s) + [Label("NEXT" + s)]
  }

  /** The instructions of `ComparisonCode(op, n)`. */
  function ComparisonProg(op: Op, n: nat): seq<Instr>
    requires IsComparison(op)
  {
    var s := NatToDecimal(n);
    PopTwoProg + BinaryStage(op) + Branch(op, s) + TrueFalse(s) + PushDProg
  }

  lemma NumberedPlain(tag: string, n: nat)
    requires tag != [] && Plain(tag)
    ensures tag + NatToDecimal(n) != [] && Plain(tag + NatToDecimal(n))
  {
    var s := NatToDecimal(n);
    assert forall i :: 0 <= i < |s| ==> IsDigit(s[i]);
    PlainConcat(tag, s);
  }

  lemma JumpInstrText(op: Op)
    requires IsComparison(op)
    ensures Written(JumpInstr(op)) == JumpOf(op)
  {
    match op
    case Eq =>
      assert Written(JumpInstr(op)) == "D;JEQ";
    case Gt =>
      assert Written(JumpInstr(op)) == "D;JGT";
    case Lt =>
      assert Written(JumpInstr(op)) == "D;JLT";
  }

  lemma JumpInstrWellFormed(op: Op)
    requires IsComparison(op)
    ensures WellFormed(JumpInstr(op))
  {
    assert JumpMnemonic(op) in {"JEQ", "JGT", "JLT"};
  }

  lemma JumpsText()
    ensures Written(JumpAlways) == "D;JMP" && Written(Goto) == "0;JMP"
    ensures WellFormed(JumpAlways) && WellFormed(Goto)
  {
  }

  lemma SettersText()
    ensures Written(SetTrue) == "D=-1" && Written(SetFalse) == "D=0"
    ensures WellFormed(SetTrue) && WellFormed(SetFalse)
  {
  }

  lemma WrittenFour(a: Instr, b: Instr, c: Instr, d: Instr)
    ensures WrittenAll([a, b, c, d]) == [Written(a), Written(b), Written(c), Written(d)]
  {
    var p := [a, b, c, d];
    assert p[1..] == [b, c, d];
    assert p[1..][1..] == [c, d];
    assert p[1..][1..][1..] == [d];
    assert p[1..][1..][1..][1..] == [];
  }

  lemma WellFormedFour(a: Instr, b: Instr, c: Instr, d: Instr)
    requires WellFormed(a) && WellFormed(b) && WellFormed(c) && WellFormed(d)
    ensures AllWellFormed([a, b, c, d])
  {
  }

  lemma BranchText(op: Op, n: nat)
    requires IsComparison(op)
    ensures var s := NatToDecimal(n);
      WrittenAll(Branch(op, s)) == ["@TRUE" + s, JumpOf(op), "@FALSE" + s, "D;JMP"]
  {
    var s := NatToDecimal(n);
    JumpInstrText(op);
    JumpsText();
    WrittenFour(Load("TRUE" + s), JumpInstr(op), Load("FALSE" + s), JumpAlways);
    assert Written(Load("TRUE" + s)) == "@TRUE" + s;
    assert Written(Load("FALSE" + s)) == "@FALSE" + s;
  }

  lemma BranchWellFormed(op: Op, n: nat)
    requires IsComparison(op)
    ensures AllWellFormed(Branch(op, NatToDecimal(n)))
  {
    var s := NatToDecimal(n);
    NumberedPlain("TRUE", n);
    NumberedPlain("FALSE", n);
    JumpInstrWellFormed(op);
    JumpsText();
    WellFormedFour(Load("TRUE" + s), JumpInstr(op), Load("FALSE" + s), JumpAlways);
  }

  lemma ArmText(tag: string, setD: Instr, n: nat)
    ensures var s := NatToDecimal(n);
      WrittenAll(Arm(tag, setD, s)) == ["(" + tag + s + ")", Written(setD), "@NEXT" + s, "0;JMP"]
  {
    var s := NatToDecimal(n);
    JumpsText();
    WrittenFour(Label(tag + s), setD, Load("NEXT" + s), Goto);
    assert Written(Label(tag + s)) == "(" + tag + s + ")";
    assert Written(Load("NEXT" + s)) == "@NEXT" + s;
  }

  lemma ArmWellFormed(tag: string, setD: Instr, n: nat)
    requires tag != [] && Plain(tag) && WellFormed(setD)
    ensures AllWellFormed(Arm(tag, setD, NatToDecimal(n)))
  {
    var s := NatToDecimal(n);
    NumberedPlain(tag, n);
    NumberedPlain("NEXT", n);
    JumpsText();
    WellFormedFour(Label(tag + s), setD, Load("NEXT" + s), Goto);
  }

  lemma NextText(n: nat)
    ensures var s := NatToDecimal(n);
      WrittenAll([Label("NEXT" + s)]) == ["(NEXT" + s + ")"] && AllWellFormed([Label("NEXT" + s)])
  {
    var s := NatToDecimal(n);
    NumberedPlain("NEXT", n);
    assert [Label("NEXT" + s)][1..] == [];
    assert "(" + ("NEXT" + s) + ")" == "(NEXT" + s + ")";
  }

  lemma TrueFalseWritten(n: nat)
    ensures WrittenAll(TrueFalse(NatToDecimal(n))) == TrueFalseCode(n)
  {
    var s := NatToDecimal(n);
    var t, f, l := Arm("TRUE", SetTrue, s), Arm("FALSE", SetFalse, s), [Label("NEXT" + s)];
    var tt := ["(" + "TRUE" + s + ")", "D=-1", "@NEXT" + s, "0;JMP"];
    var ft := ["(" + "FALSE" + s + ")", "D=0", "@NEXT" + s, "0;JMP"];
    SettersText();
    ArmText("TRUE", SetTrue, n);
    ArmText("FALSE", SetFalse, n);
    NextText(n);
    WrittenJoin(t, f, tt, ft);
    WrittenJoin(t + f, l, tt + ft, ["(NEXT" + s + ")"]);
    TrueFalseSplit(n);
  }

  lemma TrueFalseSplit(n: nat)
    ensures var s := NatToDecimal(n);
      TrueFalseCode(n) ==
        ["(" + "TRUE" + s + ")", "D=-1", "@NEXT" + s, "0;JMP"] +
        ["(" + "FALSE" + s + ")", "D=0", "@NEXT" + s, "0;JMP"] + ["(NEXT" + s + ")"]
  {
    var s := NatToDecimal(n);
    assert "(" + "TRUE" + s + ")" == "(TRUE" + s + ")";
    assert "(" + "FALSE" + s + ")" == "(FALSE" + s + ")";
  }

  lemma TrueFalseWellFormed(n: nat)
    ensures AllWellFormed(TrueFalse(NatToDecimal(n)))
  {
    var s := NatToDecimal(n);
    var t, f, l := Arm("TRUE", SetTrue, s), Arm("FALSE", SetFalse, s), [Label("NEXT" + s)];
    SettersText();
    ArmWellFormed("TRUE", SetTrue, n);
    ArmWellFormed("FALSE", SetFalse, n);
    NextText(n);
    AllWellFormedConcat(t, f);
    AllWellFormedConcat(t + f, l);
  }

  lemma ComparisonWritten(op: Op, n: nat)
    requires IsComparison(op)
    ensures WrittenAll(ComparisonProg(op, n)) == ComparisonCode(op, n)
  {
    var s := NatToDecimal(n);
    var a, b, c, d, e := PopTwoProg, BinaryStage(op), Branch(op, s), TrueFalse(s), PushDProg;
    var tb, tc := ["@R13", "D=M", "@R14", Combine(op)], ["@TRUE" + s, JumpOf(op), "@FALSE" + s, "D;JMP"];
    PopTwoText();
    BinaryStageText(op);
    BranchText(op, n);
    TrueFalseWritten(n);
    PushDText();
    WrittenJoin(a, b, PopTwoCode, tb);
    WrittenJoin(a + b, c, PopTwoCode + tb, tc);
    WrittenJoin(a + b + c, d, PopTwoCode + tb + tc, TrueFalseCode(n));
    WrittenJoin(a + b + c + d, e, PopTwoCode + tb + tc + TrueFalseCode(n), PushDCode);
  }

  lemma ComparisonWellFormed(op: Op, n: nat)
    requires IsComparison(op)
    ensures AllWellFormed(ComparisonProg(op, n))
  {
    var s := NatToDecimal(n);
    var a, b, c, d, e := PopTwoProg, BinaryStage(op), Branch(op, s), TrueFalse(s), PushDProg;
    PopTwoText();
    BinaryStageText(op);
    BranchWellFormed(op, n);
    TrueFalseWellFormed(n);
    PushDText();
    AllWellFormedConcat(a, b);
    AllWellFormedConcat(a + b, c);
    AllWellFormedConcat(a + b + c, d);
    AllWellFormedConcat(a + b + c + d, e);
  }

  // ------------------------------------------------------ whole commands

  /** The instructions of `ArithmeticBody(op, n)`. */
  function BodyProg(op: Op, n: nat): seq<Instr> {
    if IsUnary(op) then UnaryProg(op)
    else if IsComparison(op) then ComparisonProg(op, n)
    else BinaryProg(op)
  }

  /** The instructions of `ArithmeticCode(op, n)`: the comment reads as a
      no-op. */
  function ArithmeticProg(op: Op, n: nat): seq<Instr> {
    [NoOp] + BodyProg(op, n)
  }

  lemma BodyRead(op: Op, n: nat)
    ensures Decoded(ArithmeticBody(op, n)) == BodyProg(op, n)
  {
    if IsUnary(op) {
      UnaryText(op);
    } else if IsComparison(op) {
      ComparisonWritten(op, n);
      ComparisonWellFormed(op, n);
    } else {
      BinaryText(op);
    }
    DecodedWritten(BodyProg(op, n));
  }

  lemma CommentSplit(w: string)
    ensures "// C_ARITHMETIC " + w + " " == "//" + (" C_ARITHMETIC " + w + " ")
  {
    assert "// C_ARITHMETIC " == "//" + " C_ARITHMETIC ";
  }

  lemma CommentDecoded(c: string, text: string)
    requires c == "//" + text
    ensures Decoded([c]) == [NoOp]
  {
    CommentLine(text);
  }

  /** The comment line of an arithmetic command reads as a no-op. */
  lemma CommentRead(op: Op)
    ensures Decoded([ArithmeticComment(op)]) == [NoOp]
  {
    CommentSplit(OpName(op));
    CommentDecoded(ArithmeticComment(op), " C_ARITHMETIC " + OpName(op) + " ");
  }

  /** The assembler reads the code of an arithmetic or logical command as
      `ArithmeticProg`. */
  lemma ArithmeticRead(op: Op, n: nat)
    ensures Decoded(ArithmeticCode(op, n)) == ArithmeticProg(op, n)
  {
    CommentRead(op);
    DecodedConcat([ArithmeticComment(op)], ArithmeticBody(op, n));
    BodyRead(op, n);
  }
}
