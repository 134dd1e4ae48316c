/** Running the code of one arithmetic or logical command in place, inside
    a larger program: control enters at the command's first line and leaves
    after its last, and the stack holds the command's result.

    The comparisons jump: the conditional jump goes to `(TRUEn)` or falls
    through to `@FALSEn` and `D;JMP`, and both arms join at `(NEXTn)`. A jump
    lands on the first label the symbol table binds to the address in A, so
    the command's three labels must be bound to three different addresses,
    none of them taken by a label earlier in the program. */
module VMExecution {
  import opened Numerals
  import opened HackCode
  import opened HackAlu
  import opened HackMachine
  import opened VMParser
  import opened VMCodeWriter
  import opened VMSemantics

  // ------------------------------------------------------ straight blocks

  lemma SmallBlocksStraight()
    ensures AllStraight(PopD) && LabelFree(PopD)
    ensures AllStraight(SaveD("R13")) && LabelFree(SaveD("R13"))
    ensures AllStraight(SaveD("R14")) && LabelFree(SaveD("R14"))
    ensures AllStraight(StoreAtSP) && LabelFree(StoreAtSP)
    ensures AllStraight(IncrementSP) && LabelFree(IncrementSP)
  {
  }

  lemma PopTwoStraight()
    ensures AllStraight(PopTwoProg) && LabelFree(PopTwoProg)
  {
    SmallBlocksStraight();
    AllStraightConcat(PopD, SaveD("R13"));
    LabelFreeConcat(PopD, SaveD("R13"));
    AllStraightConcat(PopD, SaveD("R14"));
    LabelFreeConcat(PopD, SaveD("R14"));
    AllStraightConcat(PopOneProg, PopD + SaveD("R14"));
    LabelFreeConcat(PopOneProg, PopD + SaveD("R14"));
  }

  lemma PushDStraight()
    ensures AllStraight(PushDProg) && LabelFree(PushDProg)
  {
    SmallBlocksStraight();
    AllStraightConcat(StoreAtSP, IncrementSP);
    LabelFreeConcat(StoreAtSP, IncrementSP);
  }

  lemma StageStraight(op: Op)
    ensures AllStraight(BinaryStage(op)) && LabelFree(BinaryStage(op))
  {
  }

  // ------------------------------------------------------ comparison layout

  /** Everything up to the conditional jump: the comment, popping x and y,
      computing x - y into D, and `@TRUEs`. */
  function Head(op: Op, s: string): seq<Instr> {
    [NoOp] + PopTwoProg + BinaryStage(op) + [Load("TRUE" + s)]
  }

  /** The straight part of an arm: its label, setting D, `@NEXTs`. */
  function ArmBody(tag: string, setD: Instr, s: string): seq<Instr> {
    [Label(tag + s), setD, Load("NEXT" + s)]
  }

  /** `(NEXTs)` and pushing D. */
  function Tail(s: string): seq<Instr> {
    [Label("NEXT" + s)] + PushDProg
  }

  /** The code of a comparison, cut where control branches and joins. */
  function Layout(op: Op, s: string): seq<Instr>
    requires IsComparison(op)
  {
    Head(op, s) + [JumpInstr(op), Load("FALSE" + s), JumpAlways] + ArmBody("TRUE", SetTrue, s) + [Goto]
      + ArmBody("FALSE", SetFalse, s) + [Goto] + Tail(s)
  }

  lemma ComparisonLayout(op: Op, n: nat)
    requires IsComparison(op)
    ensures ArithmeticProg(op, n) == Layout(op, NatToDecimal(n))
  {
    var s := NatToDecimal(n);
    assert ArithmeticProg(op, n) == [NoOp] + ComparisonProg(op, n);
    assert Branch(op, s) == [Load("TRUE" + s)] + [JumpInstr(op), Load("FALSE" + s), JumpAlways];
    assert TrueFalse(s) ==
      (ArmBody("TRUE", SetTrue, s) + [Goto]) + (ArmBody("FALSE", SetFalse, s) + [Goto]) + [Label("NEXT" + s)];
    Regroup(NoOp, PopTwoProg, BinaryStage(op), Load("TRUE" + s), [JumpInstr(op), Load("FALSE" + s), JumpAlways],
            ArmBody("TRUE", SetTrue, s), Goto, ArmBody("FALSE", SetFalse, s), Label("NEXT" + s), PushDProg);
  }

  lemma Regroup<T>(c: T, pop: seq<T>, stage: seq<T>, t: T, branch: seq<T>, armT: seq<T>, g: T,
                   armF: seq<T>, l: T, push: seq<T>)
    ensures [c] + (pop + stage + ([t] + branch) + ((armT + [g]) + (armF + [g]) + [l]) + push) ==
      ([c] + pop + stage + [t]) + branch + armT + [g] + armF + [g] + ([l] + push)
  {
  }

  lemma HeadStraight(op: Op, s: string)
    ensures AllStraight(Head(op, s)) && LabelFree(Head(op, s))
  {
    PopTwoStraight();
    StageStraight(op);
    AllStraightConcat([NoOp], PopTwoProg);
    LabelFreeConcat([NoOp], PopTwoProg);
    AllStraightConcat([NoOp] + PopTwoProg, BinaryStage(op));
    LabelFreeConcat([NoOp] + PopTwoProg, BinaryStage(op));
    AllStraightConcat([NoOp] + PopTwoProg + BinaryStage(op), [Load("TRUE" + s)]);
    LabelFreeConcat([NoOp] + PopTwoProg + BinaryStage(op), [Load("TRUE" + s)]);
  }


  /** The head leaves x - y in D and the address of `TRUEs` in A. */
  lemma HeadRun(sym: map<string, nat>, m: Machine, op: Op, s: string)
    requires Platform(sym) && 18 <= SP(m) && IsComparison(op)
    ensures var x, y := Read(m.ram, SP(m) - 2), Read(m.ram, SP(m) - 1);
      Run(sym, m, Head(op, s)) == Machine(Loaded(sym, "TRUE" + s), Sub16(x, y), PoppedTwo(m))
  {
    var sp, x, y := SP(m), Read(m.ram, SP(m) - 2), Read(m.ram, SP(m) - 1);
    var stage := BinaryStage(op);
    RunConcat(sym, m, [NoOp] + PopTwoProg + stage, [Load("TRUE" + s)]);
    RunConcat(sym, m, [NoOp] + PopTwoProg, stage);
    RunConcat(sym, m, [NoOp], PopTwoProg);
    RunStep(sym, m, [NoOp], 0);
    assert [NoOp][0..] == [NoOp] && [NoOp][1..] == [];
    PopTwoRun(sym, m);
    var m1 := Run(sym, m, [NoOp] + PopTwoProg);
    var ram1 := PoppedTwo(m);
    assert m1 == Machine(14, x, ram1);
    assert Read(ram1, 14) == x && Read(ram1, 13) == y;
    BinaryStageRun(sym, m1, op);
    var m2 := Run(sym, m1, stage);
    assert m2 == Machine(14, Sub16(x, y), ram1);
    RunStep(sym, m2, [Load("TRUE" + s)], 0);
    assert [Load("TRUE" + s)][1..] == [];
  }

  /** Where the pieces of the layout lie. */
  lemma Pieces(h: seq<Instr>, j: Instr, lf: Instr, ja: Instr, at: seq<Instr>, g: Instr, af: seq<Instr>, tl: seq<Instr>)
    ensures var l := h + [j, lf, ja] + at + [g] + af + [g] + tl;
      var k := |h| + 3;
      && At(l, 0, h) && At(l, |h|, [j, lf, ja]) && At(l, |h|, [j]) && At(l, |h| + 1, [lf]) && At(l, |h| + 2, [ja])
      && At(l, k, at) && At(l, k + |at|, [g]) && At(l, k + |at| + 1, af)
      && At(l, k + |at| + 1 + |af|, [g]) && At(l, k + |at| + 2 + |af|, tl)
  {
  }

  // ------------------------------------------------------ running a comparison

  /** The comparison's labels are bound to three different addresses, and
      no label before index `k` of the program is bound to any of them. */
  predicate LabelsPlaced(sym: map<string, nat>, prog: seq<Instr>, k: nat, s: string) {
    var t, f, x := "TRUE" + s, "FALSE" + s, "NEXT" + s;
    t in sym && f in sym && x in sym &&
    sym[t] % 32768 != sym[f] % 32768 && sym[t] % 32768 != sym[x] % 32768 && sym[f] % 32768 != sym[x] % 32768 &&
    UnmarkedBefore(sym, prog, k, sym[t] % 32768) && UnmarkedBefore(sym, prog, k, sym[f] % 32768) &&
    UnmarkedBefore(sym, prog, k, sym[x] % 32768)
  }

  lemma LabelsLoad(sym: map<string, nat>, s: string)
    requires "TRUE" + s in sym && "FALSE" + s in sym && "NEXT" + s in sym
    ensures Loaded(sym, "TRUE" + s) == sym["TRUE" + s] % 32768
    ensures Loaded(sym, "FALSE" + s) == sym["FALSE" + s] % 32768
    ensures Loaded(sym, "NEXT" + s) == sym["NEXT" + s] % 32768
  {
    assert ("TRUE" + s)[0] == 'T' && ("FALSE" + s)[0] == 'F' && ("NEXT" + s)[0] == 'N';
    LoadedSymbol(sym, "TRUE" + s);
    LoadedSymbol(sym, "FALSE" + s);
    LoadedSymbol(sym, "NEXT" + s);
  }

  /** The jumps of a comparison store nothing. */
  lemma JumpsStoreNothing(sym: map<string, nat>, m: Machine, op: Op)
    requires IsComparison(op)
    ensures Effect(sym, m, JumpInstr(op)) == m && Effect(sym, m, JumpAlways) == m && Effect(sym, m, Goto) == m
  {
  }

  lemma DMeaning(d: Word, a: Word)
    ensures CompMeaning("D", d, a) == d
  {
  }

  /** The conditional jump is taken exactly when the comparison is true;
      `D;JMP` and `0;JMP` always jump. */
  lemma JumpDecides(m: Machine, op: Op, x: Word, y: Word)
    requires IsComparison(op) && m.d == Sub16(x, y)
    ensures Jumps(m, JumpInstr(op)) <==> OpValue(op, x, y) == 65535
    ensures OpValue(op, x, y) == 65535 || OpValue(op, x, y) == 0
  {
    DMeaning(m.d, m.a);
    assert Value(m, "D", false) == m.d;
  }

  lemma AlwaysJumps(m: Machine)
    ensures Jumps(m, JumpAlways) && Jumps(m, Goto)
  {
  }

  lemma SetMeaning(d: Word, a: Word)
    ensures CompMeaning("-1", d, a) == 65535 && CompMeaning("0", d, a) == 0
  {
  }

  /** An arm sets D to true or false and loads the address of `NEXTs`. */
  lemma ArmRun(sym: map<string, nat>, m: Machine, tag: string, setD: Instr, s: string)
    requires setD == SetTrue || setD == SetFalse
    ensures Run(sym, m, ArmBody(tag, setD, s)) ==
      Machine(Loaded(sym, "NEXT" + s), if setD == SetTrue then 65535 else 0, m.ram)
  {
    var p := ArmBody(tag, setD, s);
    SetMeaning(m.d, m.a);
    var m2 := m.(d := if setD == SetTrue then 65535 else 0);
    assert p[0..] == p;
    RunStep(sym, m, p, 0);
    RunStep(sym, m, p, 1);
    RunStep(sym, m2, p, 2);
    assert p[3..] == [];
  }

  /** `(NEXTs)` and pushing D. */
  lemma TailRun(sym: map<string, nat>, m: Machine, s: string)
    requires Platform(sym) && 1 <= SP(m) < 65535
    ensures Run(sym, m, Tail(s)) == Machine(0, m.d, m.ram[SP(m) := m.d][0 := SP(m) + 1])
  {
    RunConcat(sym, m, [Label("NEXT" + s)], PushDProg);
    RunStep(sym, m, [Label("NEXT" + s)], 0);
    assert [Label("NEXT" + s)][0..] == [Label("NEXT" + s)] && [Label("NEXT" + s)][1..] == [];
    PushDRun(sym, m);
  }

  /** Where the pieces of a comparison lie in a program it starts at index
      `k` of. */
  predicate Placed(prog: seq<Instr>, k: nat, op: Op, s: string)
    requires IsComparison(op)
  {
    At(prog, k, Head(op, s)) && At(prog, k + 18, [JumpInstr(op)]) && At(prog, k + 19, [Load("FALSE" + s)])
    && At(prog, k + 20, [JumpAlways]) && At(prog, k + 21, ArmBody("TRUE", SetTrue, s)) && At(prog, k + 24, [Goto])
    && At(prog, k + 25, ArmBody("FALSE", SetFalse, s)) && At(prog, k + 28, [Goto]) && At(prog, k + 29, Tail(s))
  }

  lemma PlacedIn(prog: seq<Instr>, k: nat, op: Op, s: string)
    requires IsComparison(op) && At(prog, k, Layout(op, s))
    ensures Placed(prog, k, op, s)
  {
    var l := Layout(op, s);
    Pieces(Head(op, s), JumpInstr(op), Load("FALSE" + s), JumpAlways, ArmBody("TRUE", SetTrue, s), Goto,
           ArmBody("FALSE", SetFalse, s), Tail(s));
    AtWithin(prog, k, l, 0, Head(op, s));
    AtWithin(prog, k, l, 18, [JumpInstr(op)]);
    AtWithin(prog, k, l, 19, [Load("FALSE" + s)]);
    AtWithin(prog, k, l, 20, [JumpAlways]);
    AtWithin(prog, k, l, 21, ArmBody("TRUE", SetTrue, s));
    AtWithin(prog, k, l, 24, [Goto]);
    AtWithin(prog, k, l, 25, ArmBody("FALSE", SetFalse, s));
    AtWithin(prog, k, l, 28, [Goto]);
    AtWithin(prog, k, l, 29, Tail(s));
  }

  /** No label of the head or of the branch is bound to anything. */
  lemma UnmarkedToArms(sym: map<string, nat>, prog: seq<Instr>, k: nat, op: Op, s: string, t: Word)
    requires IsComparison(op) && Placed(prog, k, op, s) && UnmarkedBefore(sym, prog, k, t)
    ensures UnmarkedBefore(sym, prog, k + 21, t)
  {
    HeadStraight(op, s);
    LabelFreeUnmarked(sym, Head(op, s), t);
    UnmarkedAcross(sym, prog, k, Head(op, s), t);
    UnmarkedAcross(sym, prog, k + 18, [JumpInstr(op)], t);
    UnmarkedAcross(sym, prog, k + 19, [Load("FALSE" + s)], t);
    UnmarkedAcross(sym, prog, k + 20, [JumpAlways], t);
  }

  /** An arm's label is the only label in it. */
  lemma ArmUnmarked(sym: map<string, nat>, tag: string, setD: Instr, s: string, t: Word)
    requires !setD.Label? && !Marks(sym, Label(tag + s), t)
    ensures Unmarked(sym, ArmBody(tag, setD, s) + [Goto], t)
  {
  }

  /** Where the comparison's three jumps land. */
  lemma Targets(sym: map<string, nat>, prog: seq<Instr>, k: nat, op: Op, s: string)
    requires IsComparison(op) && Placed(prog, k, op, s) && LabelsPlaced(sym, prog, k, s)
    ensures Target(sym, prog, Loaded(sym, "TRUE" + s)) == k + 21
    ensures Target(sym, prog, Loaded(sym, "FALSE" + s)) == k + 25
    ensures Target(sym, prog, Loaded(sym, "NEXT" + s)) == k + 29
  {
    LabelsLoad(sym, s);
    var t, f, x := Loaded(sym, "TRUE" + s), Loaded(sym, "FALSE" + s), Loaded(sym, "NEXT" + s);
    UnmarkedToArms(sym, prog, k, op, s, t);
    UnmarkedToArms(sym, prog, k, op, s, f);
    UnmarkedToArms(sym, prog, k, op, s, x);
    var armT, armF := ArmBody("TRUE", SetTrue, s) + [Goto], ArmBody("FALSE", SetFalse, s) + [Goto];
    ArmUnmarked(sym, "TRUE", SetTrue, s, f);
    ArmUnmarked(sym, "TRUE", SetTrue, s, x);
    ArmUnmarked(sym, "FALSE", SetFalse, s, x);
    ArmAt(prog, k + 21, "TRUE", SetTrue, s);
    ArmAt(prog, k + 25, "FALSE", SetFalse, s);
    UnmarkedAcross(sym, prog, k + 21, armT, f);
    UnmarkedAcross(sym, prog, k + 21, armT, x);
    UnmarkedAcross(sym, prog, k + 25, armF, x);
    TargetAt(sym, prog, k + 21, t);
    TargetAt(sym, prog, k + 25, f);
    TargetAt(sym, prog, k + 29, x);
  }

  /** An arm and the `0;JMP` after it lie together. */
  lemma ArmAt(prog: seq<Instr>, k: nat, tag: string, setD: Instr, s: string)
    requires At(prog, k, ArmBody(tag, setD, s)) && At(prog, k + 3, [Goto])
    ensures At(prog, k, ArmBody(tag, setD, s) + [Goto])
    ensures prog[k] == Label(tag + s)
  {
    assert prog[k + 3] == prog[k + 3..k + 4][0];
    assert prog[k] == prog[k..k + 3][0];
  }

  lemma ArmsStraight(s: string)
    ensures AllStraight(ArmBody("TRUE", SetTrue, s)) && AllStraight(ArmBody("FALSE", SetFalse, s))
    ensures AllStraight(Tail(s)) && AllStraight([Load("FALSE" + s)])
  {
    PushDStraight();
    AllStraightConcat([Label("NEXT" + s)], PushDProg);
  }

  /** When x - y passes the test: on to `(TRUEs)`, D = true, on to
      `(NEXTs)`. */
  lemma TakenPath(sym: map<string, nat>, prog: seq<Instr>, k: nat, op: Op, s: string, m: Machine, fuel: nat)
    requires IsComparison(op) && Placed(prog, k, op, s) && 5 <= fuel
    requires Target(sym, prog, Loaded(sym, "TRUE" + s)) == k + 21 && Target(sym, prog, Loaded(sym, "NEXT" + s)) == k + 29
    requires m.a == Loaded(sym, "TRUE" + s) && Jumps(m, JumpInstr(op))
    ensures Exec(sym, prog, k + 18, m, fuel) ==
      Exec(sym, prog, k + 29, Machine(Loaded(sym, "NEXT" + s), 65535, m.ram), fuel - 5)
  {
    JumpsStoreNothing(sym, m, op);
    JumpAt(sym, prog, k + 18, JumpInstr(op), m, fuel);
    ArmsStraight(s);
    ExecAt(sym, prog, k + 21, ArmBody("TRUE", SetTrue, s), m, fuel - 1);
    ArmRun(sym, m, "TRUE", SetTrue, s);
    var m1 := Machine(Loaded(sym, "NEXT" + s), 65535, m.ram);
    AlwaysJumps(m1);
    JumpsStoreNothing(sym, m1, op);
    JumpAt(sym, prog, k + 24, Goto, m1, fuel - 4);
  }

  /** When x - y fails the test: on to `@FALSEs` and `D;JMP`, to
      `(FALSEs)`, D = false, on to `(NEXTs)`. */
  lemma NotTakenPath(sym: map<string, nat>, prog: seq<Instr>, k: nat, op: Op, s: string, m: Machine, fuel: nat)
    requires IsComparison(op) && Placed(prog, k, op, s) && 7 <= fuel
    requires Target(sym, prog, Loaded(sym, "FALSE" + s)) == k + 25 && Target(sym, prog, Loaded(sym, "NEXT" + s)) == k + 29
    requires !Jumps(m, JumpInstr(op))
    ensures Exec(sym, prog, k + 18, m, fuel) ==
      Exec(sym, prog, k + 29, Machine(Loaded(sym, "NEXT" + s), 0, m.ram), fuel - 7)
  {
    JumpsStoreNothing(sym, m, op);
    FallAt(sym, prog, k + 18, JumpInstr(op), m, fuel);
    ArmsStraight(s);
    ExecAt(sym, prog, k + 19, [Load("FALSE" + s)], m, fuel - 1);
    RunStep(sym, m, [Load("FALSE" + s)], 0);
    assert [Load("FALSE" + s)][0..] == [Load("FALSE" + s)] && [Load("FALSE" + s)][1..] == [];
    var m1 := m.(a := Loaded(sym, "FALSE" + s));
    AlwaysJumps(m1);
    JumpsStoreNothing(sym, m1, op);
    JumpAt(sym, prog, k + 20, JumpAlways, m1, fuel - 2);
    ExecAt(sym, prog, k + 25, ArmBody("FALSE", SetFalse, s), m1, fuel - 3);
    ArmRun(sym, m1, "FALSE", SetFalse, s);
    var m2 := Machine(Loaded(sym, "NEXT" + s), 0, m.ram);
    AlwaysJumps(m2);
    JumpsStoreNothing(sym, m2, op);
    JumpAt(sym, prog, k + 28, Goto, m2, fuel - 6);
  }


  /** From the head to `(NEXTs)`: 23 steps when the result is true and 25
      when it is false, with the result in D. */
  lemma ComparisonToJoin(sym: map<string, nat>, prog: seq<Instr>, k: nat, op: Op, s: string, m: Machine, fuel: nat)
    requires Platform(sym) && 18 <= SP(m) && IsComparison(op) && Placed(prog, k, op, s) && 25 <= fuel
    requires Target(sym, prog, Loaded(sym, "TRUE" + s)) == k + 21
    requires Target(sym, prog, Loaded(sym, "FALSE" + s)) == k + 25
    requires Target(sym, prog, Loaded(sym, "NEXT" + s)) == k + 29
    ensures var v := OpValue(op, Read(m.ram, SP(m) - 2), Read(m.ram, SP(m) - 1));
      Exec(sym, prog, k, m, fuel) ==
        Exec(sym, prog, k + 29, Machine(Loaded(sym, "NEXT" + s), v, PoppedTwo(m)), fuel - if v == 65535 then 23 else 25)
  {
    var x, y := Read(m.ram, SP(m) - 2), Read(m.ram, SP(m) - 1);
    HeadStraight(op, s);
    ExecAt(sym, prog, k, Head(op, s), m, fuel);
    HeadRun(sym, m, op, s);
    var m1 := Machine(Loaded(sym, "TRUE" + s), Sub16(x, y), PoppedTwo(m));
    JumpDecides(m1, op, x, y);
    if OpValue(op, x, y) == 65535 {
      TakenPath(sym, prog, k, op, s, m1, fuel - 18);
    } else {
      NotTakenPath(sym, prog, k, op, s, m1, fuel - 18);
    }
  }

  /** eq, gt and lt run through their 35 lines in 29 steps when the result
      is true and 31 when it is false, replacing x and y by the result. */
  lemma ComparisonExec(sym: map<string, nat>, prog: seq<Instr>, k: nat, op: Op, n: nat, m: Machine, fuel: nat)
    requires Platform(sym) && 18 <= SP(m) && IsComparison(op)
    requires At(prog, k, ArithmeticProg(op, n)) && LabelsPlaced(sym, prog, k, NatToDecimal(n)) && 31 <= fuel
    ensures var v := OpValue(op, Read(m.ram, SP(m) - 2), Read(m.ram, SP(m) - 1));
      Exec(sym, prog, k, m, fuel) == Exec(sym, prog, k + 35, BinaryOutcome(m, v), fuel - if v == 65535 then 29 else 31)
  {
    var s := NatToDecimal(n);
    var v := OpValue(op, Read(m.ram, SP(m) - 2), Read(m.ram, SP(m) - 1));
    ComparisonLayout(op, n);
    PlacedIn(prog, k, op, s);
    Targets(sym, prog, k, op, s);
    ComparisonToJoin(sym, prog, k, op, s, m, fuel);
    var m2 := Machine(Loaded(sym, "NEXT" + s), v, PoppedTwo(m));
    assert SP(m2) == SP(m) - 2;
    ArmsStraight(s);
    ExecAt(sym, prog, k + 29, Tail(s), m2, fuel - if v == 65535 then 23 else 25);
    TailRun(sym, m2, s);
  }

  // ------------------------------------------------------ straight-line commands


  lemma StraightCommands(op: Op, n: nat)
    requires !IsComparison(op)
    ensures AllStraight(ArithmeticProg(op, n))
  {
    SmallBlocksStraight();
    PopTwoStraight();
    PushDStraight();
    StageStraight(op);
    AllStraightConcat(PopD, SaveD("R13"));
    var body := BodyProg(op, n);
    if IsUnary(op) {
      AllStraightConcat(PopOneProg, UnaryStage(op));
      AllStraightConcat(PopOneProg + UnaryStage(op), PushDProg);
    } else {
      AllStraightConcat(PopTwoProg, BinaryStage(op));
      AllStraightConcat(PopTwoProg + BinaryStage(op), PushDProg);
    }
    AllStraightConcat([NoOp], body);
  }

  /** Running a command's code in place runs its instructions in order. */
  lemma StraightCommandExec(sym: map<string, nat>, prog: seq<Instr>, k: nat, op: Op, n: nat, m: Machine, fuel: nat)
    requires !IsComparison(op) && At(prog, k, ArithmeticProg(op, n)) && Lines(op) <= fuel
    ensures Exec(sym, prog, k, m, fuel) == Exec(sym, prog, k + Lines(op), Run(sym, m, BodyProg(op, n)), fuel - Lines(op))
  {
    CommandLength(op, n);
    StraightCommands(op, n);
    ExecAt(sym, prog, k, ArithmeticProg(op, n), m, fuel);
    RunConcat(sym, m, [NoOp], BodyProg(op, n));
    RunStep(sym, m, [NoOp], 0);
    assert [NoOp][0..] == [NoOp] && [NoOp][1..] == [];
  }

  /** How many lines the code of each command has. */
  function Lines(op: Op): nat {
    if IsUnary(op) then 14 else if IsComparison(op) then 35 else 22
  }

  lemma CommandLength(op: Op, n: nat)
    ensures |ArithmeticProg(op, n)| == Lines(op)
  {
  }

  // ------------------------------------------------------ any arithmetic command

  /** How many values a command takes from the stack. */
  function Arity(op: Op): nat {
    if IsUnary(op) then 1 else 2
  }

  /** The machine after the command `op`, given the values x and y at the
      top of the stack. */
  function Outcome(m: Machine, op: Op): Machine
    requires 2 <= SP(m)
  {
    var v := OpValue(op, Read(m.ram, SP(m) - 2), Read(m.ram, SP(m) - 1));
    if IsUnary(op) then UnaryOutcome(m, v) else BinaryOutcome(m, v)
  }

  /** The stack as the VM sees it: the words from `base` up to SP. */
  function Stack(m: Machine, base: nat): (s: seq<Word>)
    requires base <= SP(m)
    ensures |s| == SP(m) - base
    ensures forall i :: 0 <= i < |s| ==> s[i] == Read(m.ram, base + i)
  {
    seq<Word>(SP(m) - base, i requires 0 <= i < SP(m) - base => Read(m.ram, base + i))
  }

  /** `r` is `m` with the top `arity` words of the stack based at `base`
      replaced by `v`: SP moves accordingly, `v` is on top and in D, and no
      other word from R16 up changes. */
  ghost predicate Replaces(m: Machine, r: Machine, base: nat, arity: nat, v: Word)
    requires base + arity <= SP(m)
  {
    var s := Stack(m, base);
    && SP(r) == SP(m) - arity + 1
    && Stack(r, base) == s[..|s| - arity] + [v]
    && r.d == v
    && forall a :: 16 <= a && a != SP(r) - 1 ==> Read(r.ram, a) == Read(m.ram, a)
  }

  /** What `Outcome` means for the VM: the command's operands on top of a
      stack based at or above R16 are replaced by its value. */
  lemma OutcomeStack(m: Machine, op: Op, base: nat)
    requires 16 <= base && base + Arity(op) <= SP(m)
    ensures Replaces(m, Outcome(m, op), base, Arity(op), OpValue(op, Read(m.ram, SP(m) - 2), Read(m.ram, SP(m) - 1)))
  {
    var v := OpValue(op, Read(m.ram, SP(m) - 2), Read(m.ram, SP(m) - 1));
    if IsUnary(op) {
      assert Outcome(m, op) == UnaryOutcome(m, v) && Arity(op) == 1;
      UnaryStack(m, v, base);
    } else {
      assert Outcome(m, op) == BinaryOutcome(m, v) && Arity(op) == 2;
      BinaryStack(m, v, base);
    }
  }

  lemma UnaryStack(m: Machine, v: Word, base: nat)
    requires 16 <= base && base + 1 <= SP(m)
    ensures Replaces(m, UnaryOutcome(m, v), base, 1, v)
  {
    var sp := SP(m);
    var r, s := UnaryOutcome(m, v), Stack(m, base);
    assert r.ram == m.ram[0 := sp - 1][13 := Read(m.ram, sp - 1)][sp - 1 := v][0 := sp];
    var t := Stack(r, base);
    forall i | 0 <= i < |t|
      ensures t[i] == (s[..|s| - 1] + [v])[i]
    {
    }
  }

  lemma BinaryStack(m: Machine, v: Word, base: nat)
    requires 16 <= base && base + 2 <= SP(m)
    ensures Replaces(m, BinaryOutcome(m, v), base, 2, v)
  {
    var sp := SP(m);
    var r, s := BinaryOutcome(m, v), Stack(m, base);
    OutcomesSpelled(m, v);
    assert r.ram == m.ram[0 := sp - 1][13 := Read(m.ram, sp - 1)][0 := sp - 2][14 := Read(m.ram, sp - 2)][sp - 2 := v][0 := sp - 1];
    var t := Stack(r, base);
    forall i | 0 <= i < |t|
      ensures t[i] == (s[..|s| - 2] + [v])[i]
    {
    }
  }

  /** How many instructions the command's code executes. */
  function Steps(op: Op, x: Word, y: Word): nat {
    if IsUnary(op) then 14
    else if IsComparison(op) then (if OpValue(op, x, y) == 65535 then 29 else 31)
    else 22
  }

  lemma BodyRun(sym: map<string, nat>, m: Machine, op: Op, n: nat)
    requires Platform(sym) && 16 + Arity(op) <= SP(m) && !IsComparison(op)
    ensures Run(sym, m, BodyProg(op, n)) == Outcome(m, op)
  {
    OutcomesSpelled(m, OpValue(op, Read(m.ram, SP(m) - 2), Read(m.ram, SP(m) - 1)));
    if IsUnary(op) {
      UnaryRun(sym, m, op);
    } else {
      BinaryRun(sym, m, op);
    }
  }

  /** Running from index `k` of `prog` with at least as much fuel as the
      command has lines: control leaves the command just past its last
      line, in `Outcome(m, op)`, after `Steps` instructions. */
  predicate Performs(sym: map<string, nat>, prog: seq<Instr>, k: nat, op: Op, m: Machine, fuel: nat)
    requires 2 <= SP(m) && Lines(op) <= fuel
  {
    var steps := Steps(op, Read(m.ram, SP(m) - 2), Read(m.ram, SP(m) - 1));
    steps <= Lines(op) && Leaves(sym, prog, k, Lines(op), m, fuel, Outcome(m, op), steps)
  }

  /** Running from index `k` with `fuel` comes to the same as running from
      index `k + l` in machine `r` with `steps` less fuel. */
  predicate Leaves(sym: map<string, nat>, prog: seq<Instr>, k: nat, l: nat, m: Machine, fuel: nat, r: Machine, steps: nat)
    requires steps <= fuel
  {
    Exec(sym, prog, k, m, fuel) == Exec(sym, prog, k + l, r, fuel - steps)
  }

  /** The straight-line commands leave `Outcome(m, op)`. */
  lemma StraightExec(sym: map<string, nat>, prog: seq<Instr>, k: nat, op: Op, n: nat, m: Machine, fuel: nat)
    requires Platform(sym) && 16 + Arity(op) <= SP(m) && !IsComparison(op)
    requires At(prog, k, ArithmeticProg(op, n)) && Lines(op) <= fuel
    ensures Performs(sym, prog, k, op, m, fuel)
  {
    StraightCommandExec(sym, prog, k, op, n, m, fuel);
    StraightJoin(sym, prog, k, op, n, m, fuel);
  }

  /** The body of a straight-line command ends in `Outcome(m, op)`. */
  lemma StraightJoin(sym: map<string, nat>, prog: seq<Instr>, k: nat, op: Op, n: nat, m: Machine, fuel: nat)
    requires Platform(sym) && 16 + Arity(op) <= SP(m) && !IsComparison(op) && Lines(op) <= fuel
    requires Exec(sym, prog, k, m, fuel) == Exec(sym, prog, k + Lines(op), Run(sym, m, BodyProg(op, n)), fuel - Lines(op))
    ensures Performs(sym, prog, k, op, m, fuel)
  {
    StraightSteps(op, Read(m.ram, SP(m) - 2), Read(m.ram, SP(m) - 1));
    BodyRun(sym, m, op, n);
    Bridge(sym, prog, k, op, m, fuel, Outcome(m, op), Lines(op));
  }

  /** `Performs`, from its parts. */
  lemma Bridge(sym: map<string, nat>, prog: seq<Instr>, k: nat, op: Op, m: Machine, fuel: nat, r: Machine, steps: nat)
    requires 2 <= SP(m) && Lines(op) <= fuel && steps <= Lines(op)
    requires steps == Steps(op, Read(m.ram, SP(m) - 2), Read(m.ram, SP(m) - 1)) && r == Outcome(m, op)
    requires Leaves(sym, prog, k, Lines(op), m, fuel, r, steps)
    ensures Performs(sym, prog, k, op, m, fuel)
  {
  }

  /** The comparisons leave `Outcome(m, op)`. */
  lemma CompareExec(sym: map<string, nat>, prog: seq<Instr>, k: nat, op: Op, n: nat, m: Machine, fuel: nat)
    requires Platform(sym) && 18 <= SP(m) && IsComparison(op)
    requires At(prog, k, ArithmeticProg(op, n)) && LabelsPlaced(sym, prog, k, NatToDecimal(n)) && 35 <= fuel
    ensures Lines(op) <= fuel && Performs(sym, prog, k, op, m, fuel)
  {
    var v := OpValue(op, Read(m.ram, SP(m) - 2), Read(m.ram, SP(m) - 1));
    CommandLength(op, n);
    ComparisonOutcome(m, op);
    ComparisonExec(sym, prog, k, op, n, m, fuel);
    Bridge(sym, prog, k, op, m, fuel, BinaryOutcome(m, v), if v == 65535 then 29 else 31);
  }

  lemma ComparisonOutcome(m: Machine, op: Op)
    requires IsComparison(op) && 2 <= SP(m)
    ensures var x, y := Read(m.ram, SP(m) - 2), Read(m.ram, SP(m) - 1);
      var v := OpValue(op, x, y);
      Outcome(m, op) == BinaryOutcome(m, v) && Steps(op, x, y) == if v == 65535 then 29 else 31
  {
  }

  /** A straight-line command executes each of its lines once. */
  lemma StraightSteps(op: Op, x: Word, y: Word)
    requires !IsComparison(op)
    ensures Steps(op, x, y) == Lines(op)
  {
  }

  /** The code of any arithmetic or logical command, found at index `k` of
      a program, leaves the machine in `Outcome(m, op)` after `Steps`
      instructions, with control just past its last line. */
  lemma ArithmeticExec(sym: map<string, nat>, prog: seq<Instr>, k: nat, op: Op, n: nat, m: Machine, fuel: nat)
    requires Platform(sym) && 16 + Arity(op) <= SP(m) && At(prog, k, ArithmeticProg(op, n))
    requires IsComparison(op) ==> LabelsPlaced(sym, prog, k, NatToDecimal(n))
    requires Lines(op) <= fuel
    ensures |ArithmeticProg(op, n)| == Lines(op) && Performs(sym, prog, k, op, m, fuel)
  {
    CommandLength(op, n);
    if IsComparison(op) {
      CompareExec(sym, prog, k, op, n, m, fuel);
    } else {
      StraightExec(sym, prog, k, op, n, m, fuel);
    }
  }
}
