/** A reference machine for Hack code: the CPU's A and D registers and its
    data memory, executing lines of assembly the way the assembler reads
    them.

    A line is first decoded (`Decode`) through the assembler's own reading of
    it: an A-instruction loads a constant or the address the symbol table
    gives a symbol; a C-instruction computes the meaning of its computation
    mnemonic (`CompMeaning`, with D as x and A, or M = RAM[A] when the
    computation names M, as y), stores the value in the registers its dest
    names, and jumps when its jump condition holds of the value's sign.
    `CompTableMatchesAlu`, `DestTableByRegisters` and `JumpTableBySign` show
    that the assembled bits do the same. Comments, blank lines and label
    definitions do nothing. */
module HackMachine {
  import opened Text
  import opened Numerals
  import opened HackCode
  import opened HackAlu
  import opened HackAssembler

  /** The registers and the data memory; a word never written reads 0. */
  datatype Machine = Machine(a: Word, d: Word, ram: map<int, Word>)

  function Read(ram: map<int, Word>, address: int): Word {
    if address in ram then ram[address] else 0
  }

  /** The value an A-instruction `@v` loads: a decimal constant, or the
      address of a symbol, in the 15 bits an A-instruction holds; an unknown
      symbol loads 0. */
  function Loaded(sym: map<string, nat>, v: string): Word {
    if IsDigits(v) then DecimalValue(v) % 32768
    else if v in sym then sym[v] % 32768
    else 0
  }

  /** One line of assembly as the CPU sees it. A computation is held as
      its table key (`CompKey`) and whether its operand is the memory word M
      rather than the register A. */
  datatype Instr =
    | Load(symbol: string)
    | Compute(dest: string, key: string, memory: bool, jump: string)
    | Label(name: string)
    | NoOp

  /** A line read as both passes of the assembler read it. A C-instruction
      the assembler cannot encode has no meaning and is read as `NoOp`. */
  function Decode(line: string): Instr {
    match Pass2Kind(line)
    case AInst(v) => Load(v)
    case CInst(code, encoded) =>
      if encoded.Fail? then NoOp
      else
        (match SplitC(code)
         case CFields(dest, comp, jump) => Compute(dest, CompKey(comp), 'M' in comp, jump)
         case Unsplit => NoOp)
    case LabelSkip =>
      (match Pass1Kind(line)
       case LabelDef(name) => Label(name)
       case _ => NoOp)
    case Blank2 => NoOp
  }

  function Decoded(code: seq<string>): (prog: seq<Instr>)
    ensures |prog| == |code|
  {
    seq(|code|, i requires 0 <= i < |code| => Decode(code[i]))
  }

  /** The line an instruction is written as: a missing dest or jump is left
      out, and the operand of a computation is written M or A. */
  function Written(i: Instr): string {
    match i
    case Load(v) => "@" + v
    case Compute(dest, key, memory, jump) =>
      RenderC(if dest == "-1" then "" else dest, WithOperand(key, if memory then 'M' else 'A'),
              if jump == "-1" then "" else jump)
    case Label(name) => "(" + name + ")"
    case NoOp => "//"
  }

  function WrittenAll(prog: seq<Instr>): (code: seq<string>)
    ensures |code| == |prog|
    ensures forall i :: 0 <= i < |prog| ==> code[i] == Written(prog[i])
  {
    if prog == [] then [] else [Written(prog[0])] + WrittenAll(prog[1..])
  }

  /** An instruction that can be written as a line and read back: a plain
      symbol or label name, and mnemonics from the tables. */
  predicate WellFormed(i: Instr) {
    match i
    case Load(v) => v != [] && Plain(v)
    case Compute(dest, key, memory, jump) =>
      dest in DestMap && key in CompMap && jump in JumpMap && (memory ==> 'X' in key)
    case Label(name) => Plain(name)
    case NoOp => true
  }

  /** The value a computation produces. */
  function Value(m: Machine, key: string, memory: bool): Word {
    CompMeaning(key, m.d, if memory then Read(m.ram, m.a) else m.a)
  }

  /** Stores `v` in the registers `dest` names; M is the word at the A the
      instruction started with. */
  function Store(m: Machine, dest: string, v: Word): Machine {
    Machine(if 'A' in dest then v else m.a,
            if 'D' in dest then v else m.d,
            if 'M' in dest then m.ram[m.a := v] else m.ram)
  }

  /** The sign of a word read as a two's-complement integer. */
  function Signum(v: Word): int {
    if v == 0 then 0 else if v < 32768 then 1 else -1
  }

  /** One instruction's effect on the registers and the memory. */
  function Effect(sym: map<string, nat>, m: Machine, i: Instr): Machine {
    match i
    case Load(v) => m.(a := Loaded(sym, v))
    case Compute(dest, key, memory, _) => Store(m, dest, Value(m, key, memory))
    case _ => m
  }

  /** Whether an instruction jumps: a computation whose jump condition holds
      of the sign of the value it computes. */
  predicate Jumps(m: Machine, i: Instr) {
    i.Compute? && JumpTaken(i.jump, Signum(Value(m, i.key, i.memory)))
  }

  /** An instruction that never jumps. */
  predicate Straight(i: Instr) {
    i.Compute? ==> i.jump == "-1"
  }

  /** Runs straight-line code: every instruction once, in order. */
  function Run(sym: map<string, nat>, m: Machine, prog: seq<Instr>): Machine
    decreases |prog|
  {
    if prog == [] then m else Run(sym, Effect(sym, m, prog[0]), prog[1..])
  }

  /** The index of the first label of `prog` that the symbol table binds to
      address `t`, or `|prog|` when there is none. */
  function Target(sym: map<string, nat>, prog: seq<Instr>, t: Word): (j: nat)
    ensures j <= |prog|
    ensures j < |prog| ==> Marks(sym, prog[j], t)
    decreases |prog|
  {
    if prog == [] then 0
    else if Marks(sym, prog[0], t) then 0
    else 1 + Target(sym, prog[1..], t)
  }

  /** A label the symbol table binds to address `t`. */
  predicate Marks(sym: map<string, nat>, i: Instr, t: Word) {
    i.Label? && i.name in sym && sym[i.name] % 32768 == t
  }

  /** No instruction of `prog` is a label bound to `t`. */
  predicate Unmarked(sym: map<string, nat>, prog: seq<Instr>, t: Word) {
    forall i :: 0 <= i < |prog| ==> !Marks(sym, prog[i], t)
  }

  /** No instruction of `prog` is a label. */
  predicate LabelFree(prog: seq<Instr>) {
    forall i :: 0 <= i < |prog| ==> !prog[i].Label?
  }

  /** No instruction of `prog` jumps. */
  predicate AllStraight(prog: seq<Instr>) {
    forall i :: 0 <= i < |prog| ==> Straight(prog[i])
  }

  /** Runs a program from instruction `pc` for at most `fuel` instructions.
      A taken jump continues at the label bound to the address in A; when the
      program has no such label, control leaves it. */
  function Exec(sym: map<string, nat>, prog: seq<Instr>, pc: nat, m: Machine, fuel: nat): Machine
    decreases fuel
  {
    if fuel == 0 || pc >= |prog| then m
    else
      var next := Effect(sym, m, prog[pc]);
      if Jumps(m, prog[pc]) then Exec(sym, prog, Target(sym, prog, m.a), next, fuel - 1)
      else Exec(sym, prog, pc + 1, next, fuel - 1)
  }

  // ------------------------------------------------------------------ lemmas

  /** Decoding works line by line. */
  lemma DecodedConcat(a: seq<string>, b: seq<string>)
    ensures Decoded(a + b) == Decoded(a) + Decoded(b)
  {
  }

  /** Straight-line code may be run piece by piece. */
  lemma {:induction false} RunConcat(sym: map<string, nat>, m: Machine, a: seq<Instr>, b: seq<Instr>)
    ensures Run(sym, m, a + b) == Run(sym, Run(sym, m, a), b)
    decreases |a|
  {
    if a == [] {
      assert a + b == b;
    } else {
      assert (a + b)[0] == a[0] && (a + b)[1..] == a[1..] + b;
      RunConcat(sym, Effect(sym, m, a[0]), a[1..], b);
    }
  }

  /** Running from instruction `k` is running instruction `k`, then the
      rest. */
  lemma RunStep(sym: map<string, nat>, m: Machine, prog: seq<Instr>, k: nat)
    requires k < |prog|
    ensures Run(sym, m, prog[k..]) == Run(sym, Effect(sym, m, prog[k]), prog[k + 1..])
  {
    assert prog[k..][0] == prog[k] && prog[k..][1..] == prog[k + 1..];
  }

  /** A symbol that does not start with a digit loads its address. */
  lemma LoadedSymbol(sym: map<string, nat>, v: string)
    requires v != [] && !IsDigit(v[0]) && v in sym
    ensures Loaded(sym, v) == sym[v] % 32768
  {
  }

  /** Instructions that do not jump run in order. */
  lemma {:induction false} ExecStraight(sym: map<string, nat>, prog: seq<Instr>, pc: nat, k: nat, m: Machine, fuel: nat)
    requires pc + k <= |prog| && k <= fuel
    requires forall i :: pc <= i < pc + k ==> Straight(prog[i])
    ensures Exec(sym, prog, pc, m, fuel) == Exec(sym, prog, pc + k, Run(sym, m, prog[pc..pc + k]), fuel - k)
    decreases k
  {
    if k > 0 {
      assert !Jumps(m, prog[pc]);
      ExecStraight(sym, prog, pc + 1, k - 1, Effect(sym, m, prog[pc]), fuel - 1);
      assert prog[pc..pc + k][0] == prog[pc] && prog[pc..pc + k][1..] == prog[pc + 1..pc + k];
    } else {
      assert Run(sym, m, prog[pc..pc]) == m;
    }
  }

  /** A plain token: no space, newline, slash, parenthesis or `@`. */
  predicate Plain(s: string) {
    forall i :: 0 <= i < |s| ==> s[i] != ' ' && s[i] != '\n' && s[i] != '/' && s[i] != '(' && s[i] != ')' && s[i] != '@'
  }

  /** A non-empty line without spaces, newlines and slashes is read whole. */
  lemma CodeLine(line: string)
    requires line != [] && ' ' !in line && '\n' !in line && '/' !in line
    ensures Clean(line) == line && !Skipped(line) && Before(line, "//") == line
  {
    RemoveAbsent(line, ' ');
    RemoveAbsent(line, '\n');
    FindAbsent(line, "//");
  }

  /** `@v` loads the value of `v`. */
  lemma LoadLine(v: string)
    requires v != [] && Plain(v)
    ensures Decode("@" + v) == Load(v)
  {
    var line := "@" + v;
    assert forall i :: 1 <= i < |line| ==> line[i] == v[i - 1];
    CodeLine(line);
    assert line[1..] == v;
  }

  /** A comment line does nothing. */
  lemma CommentLine(text: string)
    ensures Decode("//" + text) == NoOp
  {
    RemoveConcat("//", text, ' ');
    RemoveAbsent("//", ' ');
    RemoveConcat("//", Remove(text, ' '), '\n');
    RemoveAbsent("//", '\n');
    assert StartsWith(Clean("//" + text), "//");
  }

  /** `(name)` defines the label `name`. */
  lemma LabelLine(name: string)
    requires Plain(name)
    ensures Decode("(" + name + ")") == Label(name)
  {
    var line := "(" + name + ")";
    assert forall i :: 1 <= i < |line| - 1 ==> line[i] == name[i - 1];
    CodeLine(line);
    assert Pass2Kind(line) == LabelSkip;
    LabelName(name);
  }

  lemma LabelName(name: string)
    requires Plain(name)
    ensures Before(("(" + name + ")")[1..], ")") == name
  {
    assert ("(" + name + ")")[1..] == name + ")";
    BeforeConcat(name, ")", ")");
    FindHere(")", ")");
    assert Before(")", ")") == [];
    assert name + [] == name;
  }

  /** A C-instruction written from table mnemonics decodes to its fields; a
      missing dest or jump reads as "-1". */
  lemma ComputeLine(dest: string, k: string, operand: char, jump: string)
    requires dest == "" || dest in DestMap
    requires k in CompMap
    requires operand == 'A' || operand == 'M'
    requires jump == "" || (jump in JumpMap && jump != "-1")
    ensures Decode(RenderC(dest, WithOperand(k, operand), jump)) ==
      Compute(if dest == "" then "-1" else dest, k, operand == 'M' && 'X' in k, if jump == "" then "-1" else jump)
  {
    var c := WithOperand(k, operand);
    var line := RenderC(dest, c, jump);
    RenderedPlain(dest, k, operand, jump);
    InstructionLine(line);
    CInstructionFields(dest, k, operand, jump);
    KeyCharacters(k, if dest == "" then "-1" else dest, if jump == "" then "-1" else jump);
    CompKeyOfOperand(k, operand);
    assert ';' !in c && '=' !in c;
    SplitRendered(dest, c, jump);
    DecodeInstruction(line);
  }

  /** How a C-instruction line decodes. */
  lemma DecodeInstruction(line: string)
    requires Pass2Kind(line) == CInst(line, CInstruction(line))
    requires CInstruction(line).Word? && SplitC(line).CFields?
    ensures Decode(line) == Compute(SplitC(line).dest, CompKey(SplitC(line).comp), 'M' in SplitC(line).comp, SplitC(line).jump)
  {
  }

  /** A plain line that is not blank is a C-instruction. */
  lemma InstructionLine(line: string)
    requires line != [] && Plain(line)
    ensures Pass2Kind(line) == CInst(line, CInstruction(line))
  {
    PlainCharacters(line);
    CodeLine(line);
  }

  lemma PlainCharacters(s: string)
    requires Plain(s)
    ensures ' ' !in s && '\n' !in s && '/' !in s
    ensures s != [] ==> s[0] != '@' && s[0] != '('
  {
  }

  /** A C-instruction written from table mnemonics is plain. */
  lemma RenderedPlain(dest: string, k: string, operand: char, jump: string)
    requires dest == "" || dest in DestMap
    requires k in CompMap
    requires operand == 'A' || operand == 'M'
    requires jump == "" || jump in JumpMap
    ensures RenderC(dest, WithOperand(k, operand), jump) != []
    ensures Plain(RenderC(dest, WithOperand(k, operand), jump))
  {
    if dest != "" {
      DestPlain(dest);
    }
    if jump != "" {
      JumpPlain(jump);
    }
    CompPlain(k);
    var c := WithOperand(k, operand);
    assert Plain(c);
    var left := if dest == "" then "" else dest + "=";
    var right := if jump == "" then "" else ";" + jump;
    assert Plain(left) && Plain(right);
    PlainConcat(left, c);
    PlainConcat(left + c, right);
  }

  lemma PlainConcat(a: string, b: string)
    requires Plain(a) && Plain(b)
    ensures Plain(a + b)
  {
    assert forall i :: |a| <= i < |a + b| ==> (a + b)[i] == b[i - |a|];
  }

  lemma CompPlain(k: string)
    requires k in CompMap
    ensures Plain(k) && k != []
  {
  }

  lemma DestPlain(d: string)
    requires d in DestMap
    ensures Plain(d)
  {
  }

  lemma JumpPlain(j: string)
    requires j in JumpMap
    ensures Plain(j)
  {
  }

  /** Reading back a written instruction gives the instruction. */
  lemma DecodeWritten(i: Instr)
    requires WellFormed(i)
    ensures Decode(Written(i)) == i
  {
    match i
    case Load(v) =>
      LoadLine(v);
    case Compute(dest, key, memory, jump) =>
      NoEmptyMnemonic();
      ComputeLine(if dest == "-1" then "" else dest, key, if memory then 'M' else 'A',
                  if jump == "-1" then "" else jump);
    case Label(name) =>
      LabelLine(name);
    case NoOp =>
      CommentLine("");
      assert "//" + "" == "//";
  }

  /** Reading back a written program gives the program. */
  lemma DecodedWritten(prog: seq<Instr>)
    requires AllWellFormed(prog)
    ensures Decoded(WrittenAll(prog)) == prog
  {
    var code := WrittenAll(prog);
    forall i | 0 <= i < |prog|
      ensures Decoded(code)[i] == prog[i]
    {
      assert code[i] == Written(prog[i]);
      DecodeWritten(prog[i]);
    }
  }

  lemma NoEmptyMnemonic()
    ensures "" !in DestMap && "" !in JumpMap
  {
  }

  /** Writing a program works instruction by instruction. */
  lemma {:induction false} WrittenConcat(a: seq<Instr>, b: seq<Instr>)
    ensures WrittenAll(a + b) == WrittenAll(a) + WrittenAll(b)
    decreases |a|
  {
    if a == [] {
      assert a + b == b;
    } else {
      assert (a + b)[1..] == a[1..] + b;
      WrittenConcat(a[1..], b);
    }
  }

  /** Every instruction of a program can be written and read back. */
  predicate AllWellFormed(prog: seq<Instr>) {
    forall i :: 0 <= i < |prog| ==> WellFormed(prog[i])
  }

  lemma LabelFreeUnmarked(sym: map<string, nat>, prog: seq<Instr>, t: Word)
    requires LabelFree(prog)
    ensures Unmarked(sym, prog, t)
  {
  }

  lemma LabelFreeConcat(a: seq<Instr>, b: seq<Instr>)
    requires LabelFree(a) && LabelFree(b)
    ensures LabelFree(a + b)
  {
    forall i | 0 <= i < |a + b|
      ensures !(a + b)[i].Label?
    {
      if i < |a| {
        assert (a + b)[i] == a[i];
      } else {
        assert (a + b)[i] == b[i - |a|];
      }
    }
  }

  lemma AllStraightConcat(a: seq<Instr>, b: seq<Instr>)
    requires AllStraight(a) && AllStraight(b)
    ensures AllStraight(a + b)
  {
    forall i | 0 <= i < |a + b|
      ensures Straight((a + b)[i])
    {
      if i < |a| {
        assert (a + b)[i] == a[i];
      } else {
        assert (a + b)[i] == b[i - |a|];
      }
    }
  }

  /** `b` occurs in `prog` from index `k` on. */
  predicate At(prog: seq<Instr>, k: nat, b: seq<Instr>) {
    k + |b| <= |prog| && prog[k..k + |b|] == b
  }

  /** Where the pieces of a concatenation are. */
  lemma AtConcat(a: seq<Instr>, b: seq<Instr>, c: seq<Instr>)
    ensures At(a + b + c, 0, a) && At(a + b + c, |a|, b) && At(a + b + c, |a| + |b|, c)
  {
    var p := a + b + c;
    assert p[0..|a|] == a;
    assert p[|a|..|a| + |b|] == b;
    assert p[|a| + |b|..|a| + |b| + |c|] == c;
  }

  /** A piece of a piece is a piece. */
  lemma AtWithin(prog: seq<Instr>, k: nat, l: seq<Instr>, o: nat, b: seq<Instr>)
    requires At(prog, k, l) && At(l, o, b)
    ensures At(prog, k + o, b)
  {
    forall i | 0 <= i < |b|
      ensures prog[k + o..k + o + |b|][i] == b[i]
    {
      assert b[i] == l[o + i] == prog[k..k + |l|][o + i];
    }
  }

  /** No label before index `k` is bound to `t`. */
  predicate UnmarkedBefore(sym: map<string, nat>, prog: seq<Instr>, k: nat, t: Word) {
    k <= |prog| && forall i :: 0 <= i < k ==> !Marks(sym, prog[i], t)
  }

  lemma UnmarkedAcross(sym: map<string, nat>, prog: seq<Instr>, k: nat, b: seq<Instr>, t: Word)
    requires UnmarkedBefore(sym, prog, k, t) && At(prog, k, b) && Unmarked(sym, b, t)
    ensures UnmarkedBefore(sym, prog, k + |b|, t)
  {
    forall i | k <= i < k + |b|
      ensures !Marks(sym, prog[i], t)
    {
      assert prog[i] == prog[k..k + |b|][i - k];
    }
  }

  /** A jump to `t` lands on the first label bound to `t`. */
  lemma {:induction false} TargetAt(sym: map<string, nat>, prog: seq<Instr>, k: nat, t: Word)
    requires k < |prog| && UnmarkedBefore(sym, prog, k, t) && Marks(sym, prog[k], t)
    ensures Target(sym, prog, t) == k
    decreases k
  {
    if k > 0 {
      assert !Marks(sym, prog[0], t);
      assert forall i :: 0 <= i < k - 1 ==> prog[1..][i] == prog[i + 1];
      TargetAt(sym, prog[1..], k - 1, t);
    }
  }

  /** A piece of straight-line code inside a program runs in order. */
  lemma ExecAt(sym: map<string, nat>, prog: seq<Instr>, k: nat, b: seq<Instr>, m: Machine, fuel: nat)
    requires At(prog, k, b) && AllStraight(b) && |b| <= fuel
    ensures Exec(sym, prog, k, m, fuel) == Exec(sym, prog, k + |b|, Run(sym, m, b), fuel - |b|)
  {
    forall i | k <= i < k + |b|
      ensures Straight(prog[i])
    {
      assert prog[i] == b[i - k];
    }
    ExecStraight(sym, prog, k, |b|, m, fuel);
  }

  /** A jump that is taken continues at its target. */
  lemma JumpAt(sym: map<string, nat>, prog: seq<Instr>, k: nat, i: Instr, m: Machine, fuel: nat)
    requires At(prog, k, [i]) && 0 < fuel && Jumps(m, i)
    ensures Exec(sym, prog, k, m, fuel) == Exec(sym, prog, Target(sym, prog, m.a), Effect(sym, m, i), fuel - 1)
  {
    assert prog[k] == prog[k..k + 1][0];
  }

  /** A jump that is not taken falls through. */
  lemma FallAt(sym: map<string, nat>, prog: seq<Instr>, k: nat, i: Instr, m: Machine, fuel: nat)
    requires At(prog, k, [i]) && 0 < fuel && !Jumps(m, i)
    ensures Exec(sym, prog, k, m, fuel) == Exec(sym, prog, k + 1, Effect(sym, m, i), fuel - 1)
  {
    assert prog[k] == prog[k..k + 1][0];
  }
}
