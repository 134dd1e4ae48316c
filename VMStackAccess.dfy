/** Running the code of a push or pop command.

    The address part leaves in D the value of the segment slot (push) or
    the slot's address (pop); the stack part then pushes D, or keeps the
    address in R13, pops the top of the stack and stores it there. */
module VMStackAccess {
  import opened Numerals
  import opened HackAlu
  import opened HackMachine
  import opened VMParser
  import opened VMCodeWriter
  import opened VMSemantics
  import opened VMExecution

  // ------------------------------------------------------ the instructions

  /** `D=A`. */
  const TakeA: Instr := Compute("D", "X", false, "-1")

  /** `A=M+D`: the base pointer plus the index, into A. */
  const OffsetA: Instr := Compute("A", "X+D", true, "-1")

  /** `D=M+D`: the base pointer plus the index, into D. */
  const OffsetD: Instr := Compute("D", "X+D", true, "-1")

  /** `D=M` for a push, `D=A` for a pop. */
  function Take(kind: StackOp): Instr {
    if kind == PushOp then FetchD else TakeA
  }

  /** The symbol of the A-instruction that reaches a static slot. */
  function StaticSymbol(index: string): string
    requires PythonInt(index).Some?
  {
    IntToDecimal(16 + PythonInt(index).value)
  }

  /** Whether the segment is reached through a base pointer. */
  predicate Mapped(segment: string) {
    !IsDirect(segment)
  }

  /** A pointer access that names neither THIS nor THAT. */
  predicate NoPointer(segment: string, index: string) {
    segment == "pointer" && index != "0" && index != "1"
  }

  /** A segment the writer knows, with an index it can read. */
  predicate Reachable(segment: string, index: string) {
    (Mapped(segment) ==> segment in SegmentMapping) && (segment == "static" ==> PythonInt(index).Some?)
  }

  /** The instructions of the address part of a push or pop the writer got
      through. */
  function AddressProg(kind: StackOp, segment: string, index: string): seq<Instr>
    requires AddressCode(kind, segment, index).ok
  {
    if Mapped(segment) then
      [Load(index), TakeA, Load(SegmentMapping[segment])] + (if kind == PushOp then [OffsetA, FetchD] else [OffsetD])
    else if segment == "pointer" then
      if index == "0" then [Load("THIS"), Take(kind)]
      else if index == "1" then [Load("THAT"), Take(kind)]
      else []
    else if segment == "static" then [Load(StaticSymbol(index)), Take(kind)]
    else [Load(index), TakeA]
  }

  /** The instructions of the stack part. */
  function StackProg(kind: StackOp): seq<Instr> {
    if kind == PushOp then PushDProg else PopToDProg
  }

  /** The instructions of `PushPopCode(kind, segment, index)`: the comment
      reads as a no-op. */
  function PushPopProg(kind: StackOp, segment: string, index: string): seq<Instr>
    requires AddressCode(kind, segment, index).ok
  {
    [NoOp] + AddressProg(kind, segment, index) + StackProg(kind)
  }

  // ------------------------------------------------------ reading the text back

  /** The index token is written after `@` for a segment reached through a
      base pointer and for constant; there it must be a plain symbol or
      number for the assembler to read the line as a load of it. */
  predicate IndexReadable(segment: string, index: string) {
    (Mapped(segment) || segment == "constant") ==> index != [] && Plain(index)
  }

  lemma AddressInstrsText()
    ensures Written(TakeA) == "D=A" && Written(FetchD) == "D=M"
    ensures Written(OffsetA) == "A=M+D" && Written(OffsetD) == "D=M+D"
    ensures WellFormed(TakeA) && WellFormed(FetchD) && WellFormed(OffsetA) && WellFormed(OffsetD)
  {
  }

  /** The rendering of an integer is a plain, non-empty token. */
  lemma DecimalPlain(v: int)
    ensures IntToDecimal(v) != [] && Plain(IntToDecimal(v))
  {
    var s := NatToDecimal(if v < 0 then -v else v);
    assert IsDigits(s);
    if v < 0 {
      assert forall i :: 1 <= i < |"-" + s| ==> ("-" + s)[i] == s[i - 1];
    }
  }

  lemma MappedSymbols(segment: string)
    requires segment in SegmentMapping
    ensures SegmentMapping[segment] != [] && Plain(SegmentMapping[segment])
  {
  }

  /** Two instructions written as two lines. */
  lemma TwoText(i: Instr, j: Instr)
    requires WellFormed(i) && WellFormed(j)
    ensures WrittenAll([i, j]) == [Written(i), Written(j)] && AllWellFormed([i, j])
  {
  }

  lemma MappedText(kind: StackOp, segment: string, index: string)
    requires Mapped(segment) && segment in SegmentMapping && index != [] && Plain(index)
    ensures WrittenAll(AddressProg(kind, segment, index)) == AddressCode(kind, segment, index).lines
    ensures AllWellFormed(AddressProg(kind, segment, index))
  {
    var b := SegmentMapping[segment];
    MappedSymbols(segment);
    AddressInstrsText();
    var head := [Load(index), TakeA, Load(b)];
    var tail := if kind == PushOp then [OffsetA, FetchD] else [OffsetD];
    var th := ["@" + index, "D=A", "@" + b];
    var tt := if kind == PushOp then ["A=M+D", "D=M"] else ["D=M+D"];
    assert WrittenAll(head) == th;
    assert WrittenAll(tail) == tt;
    Join(head, tail, th, tt);
  }

  lemma DirectText(kind: StackOp, segment: string, index: string)
    requires !Mapped(segment) && AddressCode(kind, segment, index).ok && IndexReadable(segment, index)
    ensures WrittenAll(AddressProg(kind, segment, index)) == AddressCode(kind, segment, index).lines
    ensures AllWellFormed(AddressProg(kind, segment, index))
  {
    if segment == "pointer" {
      PointerText(kind, index);
    } else if segment == "static" {
      StaticText(kind, index);
    } else {
      ConstantText(kind, index);
    }
  }

  lemma TakeText(kind: StackOp)
    ensures Written(Take(kind)) == (if kind == PushOp then "D=M" else "D=A") && WellFormed(Take(kind))
  {
    AddressInstrsText();
  }

  lemma PointerText(kind: StackOp, index: string)
    ensures WrittenAll(AddressProg(kind, "pointer", index)) == AddressCode(kind, "pointer", index).lines
    ensures AllWellFormed(AddressProg(kind, "pointer", index))
  {
    TakeText(kind);
    var take := if kind == PushOp then "D=M" else "D=A";
    if index == "0" {
      assert AddressProg(kind, "pointer", index) == [Load("THIS"), Take(kind)];
      assert AddressCode(kind, "pointer", index).lines == ["@THIS", take];
      TwoText(Load("THIS"), Take(kind));
      assert Written(Load("THIS")) == "@THIS";
    } else if index == "1" {
      assert AddressProg(kind, "pointer", index) == [Load("THAT"), Take(kind)];
      assert AddressCode(kind, "pointer", index).lines == ["@THAT", take];
      TwoText(Load("THAT"), Take(kind));
      assert Written(Load("THAT")) == "@THAT";
    } else {
      assert AddressProg(kind, "pointer", index) == [];
      assert AddressCode(kind, "pointer", index).lines == [];
    }
  }

  lemma StaticText(kind: StackOp, index: string)
    requires PythonInt(index).Some?
    ensures WrittenAll(AddressProg(kind, "static", index)) == AddressCode(kind, "static", index).lines
    ensures AllWellFormed(AddressProg(kind, "static", index))
  {
    TakeText(kind);
    DecimalPlain(16 + PythonInt(index).value);
    TwoText(Load(StaticSymbol(index)), Take(kind));
  }

  lemma ConstantText(kind: StackOp, index: string)
    requires index != [] && Plain(index)
    ensures WrittenAll(AddressProg(kind, "constant", index)) == AddressCode(kind, "constant", index).lines
    ensures AllWellFormed(AddressProg(kind, "constant", index))
  {
    AddressInstrsText();
    TwoText(Load(index), TakeA);
  }

  /** The address part written out is the writer's address code. */
  lemma AddressText(kind: StackOp, segment: string, index: string)
    requires AddressCode(kind, segment, index).ok && IndexReadable(segment, index)
    ensures WrittenAll(AddressProg(kind, segment, index)) == AddressCode(kind, segment, index).lines
    ensures AllWellFormed(AddressProg(kind, segment, index))
  {
    if Mapped(segment) {
      MappedText(kind, segment, index);
    } else {
      DirectText(kind, segment, index);
    }
  }

  lemma StackRead(kind: StackOp)
    ensures Decoded(StackCode(kind)) == StackProg(kind)
  {
    BlocksRead();
  }

  lemma PushPopCommentSplit(kind: StackOp, segment: string, index: string)
    ensures PushPopComment(kind, segment, index) == "//" + (" " + KindName(kind) + " " + segment + " " + index)
  {
    assert "// " == "//" + " ";
  }

  /** The assembler reads the code of a push or pop the writer got through
      as `PushPopProg`. */
  lemma PushPopRead(kind: StackOp, segment: string, index: string)
    requires AddressCode(kind, segment, index).ok && IndexReadable(segment, index)
    ensures Decoded(PushPopCode(kind, segment, index).lines) == PushPopProg(kind, segment, index)
  {
    var c := PushPopComment(kind, segment, index);
    var address := AddressCode(kind, segment, index).lines;
    PushPopCommentSplit(kind, segment, index);
    CommentDecoded(c, " " + KindName(kind) + " " + segment + " " + index);
    AddressText(kind, segment, index);
    DecodedWritten(AddressProg(kind, segment, index));
    StackRead(kind);
    DecodedConcat([c], address);
    DecodedConcat([c] + address, StackCode(kind));
  }

  // ------------------------------------------------------ running the code

  /** The RAM address a push reads or a pop writes: the segment's base
      pointer plus the index, in 16 bits, for a segment reached through one;
      THIS or THAT for pointer 0 or 1; the address the static symbol loads
      for static; and the index itself for constant. */
  function Slot(sym: map<string, nat>, m: Machine, segment: string, index: string): Word
    requires Reachable(segment, index)
  {
    if Mapped(segment) then
      Add16(Read(m.ram, Loaded(sym, SegmentMapping[segment])), Loaded(sym, index))
    else if segment == "pointer" then (if index == "0" then 3 else 4)
    else if segment == "static" then Loaded(sym, StaticSymbol(index))
    else Loaded(sym, index)
  }

  /** What the address part leaves in D: for a push the word at the slot
      (the index itself for constant), for a pop the slot's address; a
      pointer access that names neither THIS nor THAT emits no address code
      and leaves D as it was. */
  function AddressValue(sym: map<string, nat>, m: Machine, kind: StackOp, segment: string, index: string): Word
    requires AddressCode(kind, segment, index).ok
  {
    if NoPointer(segment, index) then m.d
    else if kind == PushOp && segment != "constant" then Read(m.ram, Slot(sym, m, segment, index))
    else Slot(sym, m, segment, index)
  }

  /** The address part changes only the registers. */
  predicate Addressed(sym: map<string, nat>, m: Machine, kind: StackOp, segment: string, index: string, r: Machine)
    requires AddressCode(kind, segment, index).ok
  {
    r.d == AddressValue(sym, m, kind, segment, index) && r.ram == m.ram
  }

  lemma MappedRun(sym: map<string, nat>, m: Machine, kind: StackOp, segment: string, index: string)
    requires Mapped(segment) && segment in SegmentMapping
    ensures Addressed(sym, m, kind, segment, index, Run(sym, m, AddressProg(kind, segment, index)))
  {
    var symbol := SegmentMapping[segment];
    var head := [Load(index), TakeA, Load(symbol)];
    ThreeRun(sym, m, Load(index), TakeA, Load(symbol));
    var m3 := Machine(Loaded(sym, symbol), Loaded(sym, index), m.ram);
    assert Run(sym, m, head) == m3;
    if kind == PushOp {
      assert AddressProg(kind, segment, index) == head + [OffsetA, FetchD];
      RunConcat(sym, m, head, [OffsetA, FetchD]);
      TwoRun(sym, m3, OffsetA, FetchD);
    } else {
      assert AddressProg(kind, segment, index) == head + [OffsetD];
      RunConcat(sym, m, head, [OffsetD]);
      OneRun(sym, m3, OffsetD);
    }
  }

  /** One instruction runs. */
  lemma OneRun(sym: map<string, nat>, m: Machine, i: Instr)
    ensures Run(sym, m, [i]) == Effect(sym, m, i)
  {
    RunStep(sym, m, [i], 0);
    assert [i][0..] == [i] && [i][1..] == [];
  }

  /** Three instructions run in order. */
  lemma ThreeRun(sym: map<string, nat>, m: Machine, i: Instr, j: Instr, k: Instr)
    ensures Run(sym, m, [i, j, k]) == Effect(sym, Effect(sym, Effect(sym, m, i), j), k)
  {
    var p := [i, j, k];
    assert p[0..] == p;
    RunStep(sym, m, p, 0);
    RunStep(sym, Effect(sym, m, i), p, 1);
    RunStep(sym, Effect(sym, Effect(sym, m, i), j), p, 2);
    assert p[3..] == [];
  }

  /** Two instructions run in order. */
  lemma TwoRun(sym: map<string, nat>, m: Machine, i: Instr, j: Instr)
    ensures Run(sym, m, [i, j]) == Effect(sym, Effect(sym, m, i), j)
  {
    var p := [i, j];
    assert p[0..] == p;
    RunStep(sym, m, p, 0);
    RunStep(sym, Effect(sym, m, i), p, 1);
    assert p[2..] == [];
  }

  lemma DirectRun(sym: map<string, nat>, m: Machine, kind: StackOp, segment: string, index: string)
    requires Platform(sym) && !Mapped(segment) && AddressCode(kind, segment, index).ok
    ensures Addressed(sym, m, kind, segment, index, Run(sym, m, AddressProg(kind, segment, index)))
  {
    if segment == "pointer" {
      if index == "0" {
        TwoRun(sym, m, Load("THIS"), Take(kind));
      } else if index == "1" {
        TwoRun(sym, m, Load("THAT"), Take(kind));
      }
    } else if segment == "static" {
      TwoRun(sym, m, Load(StaticSymbol(index)), Take(kind));
    } else {
      TwoRun(sym, m, Load(index), TakeA);
    }
  }

  /** The address part leaves `AddressValue` in D and the memory as it
      was. */
  lemma AddressRun(sym: map<string, nat>, m: Machine, kind: StackOp, segment: string, index: string)
    requires Platform(sym) && AddressCode(kind, segment, index).ok
    ensures Addressed(sym, m, kind, segment, index, Run(sym, m, AddressProg(kind, segment, index)))
  {
    if Mapped(segment) {
      MappedRun(sym, m, kind, segment, index);
    } else {
      DirectRun(sym, m, kind, segment, index);
    }
  }

  /** The comment, then the address part. */
  lemma PrefixRun(sym: map<string, nat>, m: Machine, kind: StackOp, segment: string, index: string)
    requires Platform(sym) && AddressCode(kind, segment, index).ok
    ensures Addressed(sym, m, kind, segment, index, Run(sym, m, [NoOp] + AddressProg(kind, segment, index)))
  {
    var p := [NoOp] + AddressProg(kind, segment, index);
    RunStep(sym, m, p, 0);
    assert p[0..] == p && p[1..] == AddressProg(kind, segment, index);
    AddressRun(sym, m, kind, segment, index);
  }

  /** A push stores the value the address part found at the old SP and
      moves SP up by one. */
  lemma PushRun(sym: map<string, nat>, m: Machine, segment: string, index: string)
    requires Platform(sym) && AddressCode(PushOp, segment, index).ok && 1 <= SP(m) < 65535
    ensures var v := AddressValue(sym, m, PushOp, segment, index);
      Run(sym, m, PushPopProg(PushOp, segment, index)) == Machine(0, v, m.ram[SP(m) := v][0 := SP(m) + 1])
  {
    var front := [NoOp] + AddressProg(PushOp, segment, index);
    PrefixRun(sym, m, PushOp, segment, index);
    var m1 := Run(sym, m, front);
    PushAfter(sym, m, front, m1, SP(m));
  }

  /** A pop keeps the slot's address in R13, moves SP down by one and
      stores the old top at the slot. */
  lemma PopRun(sym: map<string, nat>, m: Machine, segment: string, index: string)
    requires Platform(sym) && AddressCode(PopOp, segment, index).ok && 17 <= SP(m)
    ensures var t := AddressValue(sym, m, PopOp, segment, index);
      var x := Read(m.ram, SP(m) - 1);
      Run(sym, m, PushPopProg(PopOp, segment, index)) == Machine(t, x, m.ram[13 := t][0 := SP(m) - 1][t := x])
  {
    var front := [NoOp] + AddressProg(PopOp, segment, index);
    PrefixRun(sym, m, PopOp, segment, index);
    PopAfter(sym, m, front, Run(sym, m, front));
  }

  /** Popping into the address a piece of code leaves in D, when that
      piece changes no memory. */
  lemma PopAfter(sym: map<string, nat>, m: Machine, p: seq<Instr>, m1: Machine)
    requires Platform(sym) && 17 <= SP(m) && Run(sym, m, p) == m1 && m1.ram == m.ram
    ensures var x := Read(m.ram, SP(m) - 1);
      Run(sym, m, p + PopToDProg) == Machine(m1.d, x, m.ram[13 := m1.d][0 := SP(m) - 1][m1.d := x])
  {
    RunConcat(sym, m, p, PopToDProg);
    assert SP(m1) == SP(m) && Read(m1.ram, SP(m1) - 1) == Read(m.ram, SP(m) - 1);
    PopToDRun(sym, m1);
  }

  // ------------------------------------------------------ in place

  lemma AddressStraight(kind: StackOp, segment: string, index: string)
    requires AddressCode(kind, segment, index).ok
    ensures AllStraight(AddressProg(kind, segment, index))
  {
  }

  lemma PopToDStraight()
    ensures AllStraight(PopToDProg)
  {
    SmallBlocksStraight();
    assert AllStraight(StoreThroughR13);
    AllStraightConcat(PopD, StoreThroughR13);
    AllStraightConcat(SaveD("R13"), PopD + StoreThroughR13);
  }

  lemma PushPopStraight(kind: StackOp, segment: string, index: string)
    requires AddressCode(kind, segment, index).ok
    ensures AllStraight(PushPopProg(kind, segment, index))
  {
    AddressStraight(kind, segment, index);
    PushDStraight();
    PopToDStraight();
    AllStraightConcat([NoOp], AddressProg(kind, segment, index));
    AllStraightConcat([NoOp] + AddressProg(kind, segment, index), StackProg(kind));
  }

  /** The code of a push or pop, found at index `k` of a program, runs its
      instructions once each, in order, and control leaves it just past its
      last line. */
  lemma PushPopExec(sym: map<string, nat>, prog: seq<Instr>, k: nat, kind: StackOp, segment: string, index: string, m: Machine, fuel: nat)
    requires AddressCode(kind, segment, index).ok
    requires At(prog, k, PushPopProg(kind, segment, index)) && |PushPopProg(kind, segment, index)| <= fuel
    ensures var p := PushPopProg(kind, segment, index);
      Leaves(sym, prog, k, |p|, m, fuel, Run(sym, m, p), |p|)
  {
    PushPopStraight(kind, segment, index);
    ExecAt(sym, prog, k, PushPopProg(kind, segment, index), m, fuel);
  }

  // ------------------------------------------------------ what the VM sees

  /** A push puts the value the address part found on top of a stack based
      at or above R16, and changes no other word from R16 up. */
  lemma PushStack(sym: map<string, nat>, m: Machine, segment: string, index: string, base: nat)
    requires Platform(sym) && AddressCode(PushOp, segment, index).ok && 16 <= base <= SP(m) < 65535
    ensures Replaces(m, Run(sym, m, PushPopProg(PushOp, segment, index)), base, 0, AddressValue(sym, m, PushOp, segment, index))
  {
    PushRun(sym, m, segment, index);
    PushedStack(m, Run(sym, m, PushPopProg(PushOp, segment, index)), AddressValue(sym, m, PushOp, segment, index), base);
  }

  lemma PushedStack(m: Machine, r: Machine, v: Word, base: nat)
    requires 16 <= base <= SP(m) < 65535 && r == Machine(0, v, m.ram[SP(m) := v][0 := SP(m) + 1])
    ensures Replaces(m, r, base, 0, v)
  {
    var s := Stack(m, base);
    var t := Stack(r, base);
    forall i | 0 <= i < |t|
      ensures t[i] == (s[..|s|] + [v])[i]
    {
    }
  }

  /** `r` is `m` after the top of a stack based at `base` was stored at
      address `t`: the old top is at `t` and no other word from R16 up
      changes; unless `t` is SP itself, SP moves down by one, and unless `t`
      lies in what is left of the stack, that is the old stack without its
      top. */
  ghost predicate PopsInto(m: Machine, r: Machine, t: Word, base: nat)
    requires base < SP(m)
  {
    var s := Stack(m, base);
    && Read(r.ram, t) == s[|s| - 1]
    && (forall a :: 16 <= a && a != t ==> Read(r.ram, a) == Read(m.ram, a))
    && (t != 0 ==> SP(r) == SP(m) - 1)
    && (t != 0 && (t < base || SP(m) - 1 <= t) ==> Stack(r, base) == s[..|s| - 1])
  }

  /** A pop stores the top of a stack based at or above R16 at the slot the
      address part found. */
  lemma PopStack(sym: map<string, nat>, m: Machine, segment: string, index: string, base: nat)
    requires Platform(sym) && AddressCode(PopOp, segment, index).ok && 16 <= base < SP(m)
    ensures PopsInto(m, Run(sym, m, PushPopProg(PopOp, segment, index)), AddressValue(sym, m, PopOp, segment, index), base)
  {
    PopRun(sym, m, segment, index);
    PoppedStack(m, Run(sym, m, PushPopProg(PopOp, segment, index)), AddressValue(sym, m, PopOp, segment, index), base);
  }

  lemma PoppedStack(m: Machine, r: Machine, t: Word, base: nat)
    requires 16 <= base < SP(m)
    requires r.ram == m.ram[13 := t][0 := SP(m) - 1][t := Read(m.ram, SP(m) - 1)]
    ensures PopsInto(m, r, t, base)
  {
    var s := Stack(m, base);
    if t != 0 && (t < base || SP(m) - 1 <= t) {
      var u := Stack(r, base);
      forall i | 0 <= i < |u|
        ensures u[i] == s[..|s| - 1][i]
      {
      }
    }
  }

  // ------------------------------------------------------ the slots

  /** A static index `v` with `16 + v` in range reaches RAM[16 + v]. */
  lemma StaticAddress(sym: map<string, nat>, m: Machine, index: string, v: int)
    requires PythonInt(index) == Some(v) && 0 <= 16 + v < 32768
    ensures Slot(sym, m, "static", index) == 16 + v
  {
    assert StaticSymbol(index) == NatToDecimal(16 + v);
  }

  /** `push constant n` pushes n, taken modulo 2^15 as an A-instruction
      holds it. */
  lemma ConstantValue(sym: map<string, nat>, m: Machine, index: string)
    requires IsDigits(index)
    ensures AddressValue(sym, m, PushOp, "constant", index) == DecimalValue(index) % 32768
  {
  }

  /** Pointer 0 and 1 reach THIS and THAT. */
  lemma PointerSlots(sym: map<string, nat>, m: Machine, kind: StackOp)
    ensures AddressValue(sym, m, kind, "pointer", "0") == if kind == PushOp then Read(m.ram, 3) else 3
    ensures AddressValue(sym, m, kind, "pointer", "1") == if kind == PushOp then Read(m.ram, 4) else 4
  {
  }
}
