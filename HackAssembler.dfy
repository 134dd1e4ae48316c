/** The two-pass Hack assembler: a symbol table pre-seeded with the
    platform symbols, lazy allocation of variables from address 16, and the
    driver that binds labels in a first pass and emits one 16-bit word per
    A- or C-instruction in a second.

    A source line is cleaned the way the assembler cleans it: every space
    and every newline is removed, a line that is then empty or starts with
    `//` is skipped, and an inline `//` comment is cut off. */
module HackAssembler {
  import opened Text
  import opened Numerals
  import opened HackCode

  // ------------------------------------------------------------ symbol table

  /** The fixed platform symbols. */
  const PlatformSymbols: map<string, nat> := map[
    "SP" := 0, "LCL" := 1, "ARG" := 2, "THIS" := 3, "THAT" := 4,
    "SCREEN" := 16384, "KBD" := 24576
  ]

  /** The name `R`i of the i-th virtual register. */
  function RegisterName(i: nat): string {
    "R" + NatToDecimal(i)
  }

  lemma RegisterNameInjective(i: nat, j: nat)
    requires RegisterName(i) == RegisterName(j)
    ensures i == j
  {
    assert NatToDecimal(i) == RegisterName(i)[1..];
    assert NatToDecimal(j) == RegisterName(j)[1..];
  }

  lemma RegisterNamesDistinct()
    ensures forall i: nat, j: nat :: RegisterName(i) == RegisterName(j) ==> i == j
  {
    forall i: nat, j: nat | RegisterName(i) == RegisterName(j)
      ensures i == j
    {
      RegisterNameInjective(i, j);
    }
  }

  /** The registers R0 .. R(n-1), each bound to its own number. */
  function Registers(n: nat): map<string, nat> {
    RegisterNamesDistinct();
    map i | 0 <= i < n :: RegisterName(i) := i
  }

  /** Registers(n) holds exactly R0 .. R(n-1), each bound to its number. */
  lemma RegistersContents(n: nat)
    ensures Registers(n).Keys == set i | 0 <= i < n :: RegisterName(i)
    ensures forall i :: 0 <= i < n ==> Registers(n)[RegisterName(i)] == i
    ensures forall s :: s in Registers(n) ==> |s| >= 1 && s[0] == 'R'
  {
    RegisterNamesDistinct();
  }

  /** Adding register n to R0 .. R(n-1) gives R0 .. Rn. */
  lemma RegistersStep(n: nat)
    ensures Registers(n + 1) == Registers(n)[RegisterName(n) := n]
  {
    RegisterNamesDistinct();
  }

  /** The table every assembly run starts from. */
  function InitialTable(): map<string, nat> {
    PlatformSymbols + Registers(16)
  }

  /** Builds the initial symbol table: the platform symbols, then R0 .. R15
      added one by one. */
  method InitSymbolTable() returns (t: map<string, nat>)
    ensures t == InitialTable()
  {
    t := PlatformSymbols;
    assert Registers(0) == map[];
    var i := 0;
    while i < 16
      invariant 0 <= i <= 16
      invariant t == PlatformSymbols + Registers(i)
    {
      MergeUpdate(PlatformSymbols, Registers(i), RegisterName(i), i);
      RegistersStep(i);
      t := t[RegisterName(i) := i];
      i := i + 1;
    }
  }

  /** The initial table holds exactly the platform symbols and R0 .. R15,
      with their fixed addresses. */
  lemma InitialTableContents()
    ensures InitialTable().Keys == PlatformSymbols.Keys + set i | 0 <= i < 16 :: RegisterName(i)
    ensures forall s :: s in PlatformSymbols ==> InitialTable()[s] == PlatformSymbols[s]
    ensures forall i :: 0 <= i < 16 ==> InitialTable()[RegisterName(i)] == i
  {
    RegistersContents(16);
    PlatformNotRegisters(PlatformSymbols, Registers(16));
  }

  lemma MergeUpdate(p: map<string, nat>, m: map<string, nat>, k: string, v: nat)
    ensures (p + m)[k := v] == p + m[k := v]
  {
  }

  /** No platform symbol starts with 'R', so none is shadowed by a register. */
  lemma PlatformNotRegisters(p: map<string, nat>, m: map<string, nat>)
    requires p == PlatformSymbols
    requires forall s :: s in m ==> |s| >= 1 && s[0] == 'R'
    ensures forall s :: s in p ==> s !in m && (p + m)[s] == p[s]
  {
    assert forall s :: s in p ==> |s| >= 1 && s[0] != 'R';
  }

  // -------------------------------------------------------- address words

  /** A string left-padded with '0' to 15 characters. */
  function Pad15(s: string): string {
    if |s| < 15 then Zeros(15 - |s|) + s else s
  }

  /** Pads a bit string to 15 characters by prepending '0's: the input is a
      suffix of the result, and everything before it is '0'. */
  method StrTo15(s: string) returns (r: string)
    ensures |r| == if |s| < 15 then 15 else |s|
    ensures r == Zeros(|r| - |s|) + s
    ensures r == Pad15(s)
  {
    r := s;
    while |r| < 15
      invariant |s| <= |r| && (|s| < 15 ==> |r| <= 15) && (|s| >= 15 ==> r == s)
      invariant r == Zeros(|r| - |s|) + s
    {
      assert ['0'] + Zeros(|r| - |s|) == Zeros(|r| - |s| + 1);
      r := "0" + r;
    }
  }

  /** The word of an A-instruction that loads `v`: '0', then `v` in binary
      padded to 15 bits. */
  function EncodeAddress(v: nat): string {
    "0" + Pad15(ToBinary(v))
  }

  /** An address word starts with '0' and reads back as the address; it is
      16 bits long exactly when the address fits in 15 bits. */
  lemma EncodeAddressValue(v: nat)
    ensures IsBits(EncodeAddress(v)) && EncodeAddress(v)[0] == '0'
    ensures BinaryValue(EncodeAddress(v)) == v
    ensures |EncodeAddress(v)| == 16 <==> v < 32768
  {
    var b := ToBinary(v);
    var k := PaddedZeros(b);
    LeadingZeros(k, b);
    ToBinaryLength(v, 15);
    Pow15();
  }

  /** An address word is its binary numeral behind at least one '0'. */
  lemma PaddedZeros(b: string) returns (k: nat)
    ensures k >= 1 && "0" + Pad15(b) == Zeros(k) + b
    ensures |b| < 15 ==> k + |b| == 16
    ensures |b| >= 15 ==> k == 1
  {
    if |b| < 15 {
      k := 16 - |b|;
      assert "0" + Zeros(15 - |b|) == Zeros(k);
      assert "0" + (Zeros(15 - |b|) + b) == ("0" + Zeros(15 - |b|)) + b;
    } else {
      k := 1;
      assert "0" == Zeros(1);
    }
  }

  lemma Pow15()
    ensures Pow2(15) == 32768
  {
    assert Pow2(5) == 32;
    assert Pow2(10) == 1024;
  }

  // ------------------------------------------------------- A-instructions

  /** The result of one A-instruction: its word and the symbol table and the
      next variable address after it. */
  datatype AStep = AStep(word: string, table: map<string, nat>, next: nat)

  /** An A-instruction `@v`: a decimal literal is encoded directly; a bound
      symbol is encoded as its address; an unbound symbol is first bound to
      the next variable address, which then moves on by one. */
  function ResolveA(table: map<string, nat>, next: nat, v: string): AStep {
    if IsDigits(v) then AStep(EncodeAddress(DecimalValue(v)), table, next)
    else if v in table then AStep(EncodeAddress(table[v]), table, next)
    else AStep(EncodeAddress(next), table[v := next], next + 1)
  }

  /** `@k` for a decimal literal below 2^15 is a 16-bit word starting with
      '0' whose value is k; the table and the variable cursor are unchanged. */
  lemma ALiteral(table: map<string, nat>, next: nat, digits: string)
    requires IsDigits(digits) && DecimalValue(digits) < 32768
    ensures var st := ResolveA(table, next, digits);
      |st.word| == 16 && IsBits(st.word) && st.word[0] == '0' &&
      BinaryValue(st.word) == DecimalValue(digits) &&
      st.table == table && st.next == next
  {
    EncodeAddressValue(DecimalValue(digits));
  }

  /** `@v` for a symbol already in the table leaves the table and the cursor
      alone and reads back as the bound address. */
  lemma ABound(table: map<string, nat>, next: nat, v: string)
    requires !IsDigits(v) && v in table
    ensures var st := ResolveA(table, next, v);
      st.table == table && st.next == next && BinaryValue(st.word) == table[v]
  {
    EncodeAddressValue(table[v]);
  }

  /** `@v` for a fresh symbol binds it to the cursor, advances the cursor by
      one and reads back as the new address. */
  lemma AFresh(table: map<string, nat>, next: nat, v: string)
    requires !IsDigits(v) && v !in table
    ensures var st := ResolveA(table, next, v);
      st.table == table[v := next] && st.next == next + 1 && BinaryValue(st.word) == next
  {
    EncodeAddressValue(next);
  }

  // ----------------------------------------------------------- line shapes

  /** A raw line with its spaces and newlines removed. */
  function Clean(raw: string): string {
    Remove(Remove(raw, ' '), '\n')
  }

  /** Whether a cleaned line is skipped by both passes. */
  predicate Skipped(line: string) {
    line == "" || StartsWith(line, "//")
  }

  /** What the first pass sees in a raw line. */
  datatype Pass1Line = Blank1 | LabelDef(name: string) | Counted

  function Pass1Kind(raw: string): Pass1Line {
    var line := Clean(raw);
    if Skipped(line) then Blank1
    else
      var code := Before(line, "//");
      if |code| >= 1 && StartsWith(code, "(") && EndsWith(code, ")") then LabelDef(Before(code[1..], ")"))
      else Counted
  }

  /** What the second pass sees in a raw line. */
  datatype Pass2Line = Blank2 | LabelSkip | AInst(symbol: string) | CInst(code: string, encoded: Encoded)

  function Pass2Kind(raw: string): Pass2Line {
    var line := Clean(raw);
    if Skipped(line) then Blank2
    else
      var code := Before(line, "//");
      if StartsWith(code, "@") then AInst(code[1..])
      else if StartsWith(code, "(") then LabelSkip
      else CInst(code, CInstruction(code))
  }

  // ---------------------------------------------------------------- pass 1

  /** The first-pass reading of every line. */
  function Pass1Kinds(lines: seq<string>): (ks: seq<Pass1Line>)
    ensures |ks| == |lines|
  {
    seq(|lines|, i requires 0 <= i < |lines| => Pass1Kind(lines[i]))
  }

  /** The table after the first pass, starting with counter `pc`: each label
      is bound to the counter, which counts the lines that are neither
      skipped nor labels. A later definition of the same label overwrites an
      earlier one. */
  function BindLabels(table: map<string, nat>, ks: seq<Pass1Line>, pc: nat): map<string, nat>
    decreases |ks|
  {
    if ks == [] then table
    else
      match ks[0]
      case Blank1 => BindLabels(table, ks[1..], pc)
      case LabelDef(name) => BindLabels(table[name := pc], ks[1..], pc)
      case Counted => BindLabels(table, ks[1..], pc + 1)
  }

  /** The number of lines the first pass counts as instructions. */
  function InstructionCount(ks: seq<Pass1Line>): nat {
    if ks == [] then 0 else (if ks[0].Counted? then 1 else 0) + InstructionCount(ks[1..])
  }

  /** A label's final address is the number of instructions before its last
      definition (counted from `pc`). */
  lemma {:induction false} LabelAddress(table: map<string, nat>, ks: seq<Pass1Line>, pc: nat, i: nat)
    requires i < |ks| && ks[i].LabelDef? && ks[i] !in ks[i + 1..]
    ensures ks[i].name in BindLabels(table, ks, pc)
    ensures BindLabels(table, ks, pc)[ks[i].name] == pc + InstructionCount(ks[..i])
    decreases i
  {
    var name := ks[i].name;
    if i == 0 {
      assert ks[..0] == [];
      NoDefinition(table[name := pc], ks[1..], pc, name);
    } else {
      assert ks[..i][1..] == ks[1..][..i - 1];
      assert ks[1..][i - 1] == ks[i] && ks[1..][i..] == ks[i + 1..];
      match ks[0]
      case Blank1 => LabelAddress(table, ks[1..], pc, i - 1);
      case LabelDef(n) => LabelAddress(table[n := pc], ks[1..], pc, i - 1);
      case Counted => LabelAddress(table, ks[1..], pc + 1, i - 1);
    }
  }

  /** A symbol no line defines as a label keeps its binding, or its absence,
      through the first pass. */
  lemma {:induction false} NoDefinition(table: map<string, nat>, ks: seq<Pass1Line>, pc: nat, name: string)
    requires LabelDef(name) !in ks
    ensures name in BindLabels(table, ks, pc) <==> name in table
    ensures name in table ==> BindLabels(table, ks, pc)[name] == table[name]
    decreases |ks|
  {
    if ks != [] {
      assert LabelDef(name) !in ks[1..];
      match ks[0]
      case Blank1 => NoDefinition(table, ks[1..], pc, name);
      case LabelDef(n) => NoDefinition(table[n := pc], ks[1..], pc, name);
      case Counted => NoDefinition(table, ks[1..], pc + 1, name);
    }
  }

  // ---------------------------------------------------------------- pass 2

  /** The second-pass reading of every line. */
  function Pass2Kinds(lines: seq<string>): (ks: seq<Pass2Line>)
    ensures |ks| == |lines|
  {
    seq(|lines|, i requires 0 <= i < |lines| => Pass2Kind(lines[i]))
  }

  /** The state after the second pass: the table, the variable cursor, the
      words emitted and whether every C-instruction could be encoded. */
  datatype Pass2Result = Pass2Result(table: map<string, nat>, next: nat, words: seq<string>, ok: bool)

  /** The second pass: one word per A- or C-instruction, in order; the first
      C-instruction that cannot be encoded stops it. */
  function EmitWords(table: map<string, nat>, next: nat, ks: seq<Pass2Line>): Pass2Result
    decreases |ks|
  {
    if ks == [] then Pass2Result(table, next, [], true)
    else
      match ks[0]
      case Blank2 => EmitWords(table, next, ks[1..])
      case LabelSkip => EmitWords(table, next, ks[1..])
      case AInst(v) =>
        var st := ResolveA(table, next, v);
        var rest := EmitWords(st.table, st.next, ks[1..]);
        Pass2Result(rest.table, rest.next, [st.word] + rest.words, rest.ok)
      case CInst(_, encoded) =>
        match encoded
        case Fail(_) => Pass2Result(table, next, [], false)
        case Word(w) =>
          var rest := EmitWords(table, next, ks[1..]);
          Pass2Result(rest.table, rest.next, [w] + rest.words, rest.ok)
  }

  /** The number of lines the second pass emits a word for. */
  function ExecutableCount(ks: seq<Pass2Line>): nat {
    if ks == [] then 0
    else (if ks[0].AInst? || ks[0].CInst? then 1 else 0) + ExecutableCount(ks[1..])
  }

  /** The whole assembler: labels bound over the initial table, then the
      words emitted with variables allocated from 16. */
  function Assembly(lines: seq<string>): Pass2Result {
    EmitWords(BindLabels(InitialTable(), Pass1Kinds(lines), 0), 16, Pass2Kinds(lines))
  }

  /** The symbols of A-instructions that are neither numbers nor known, in
      order of first reference. */
  function FreshSymbols(known: set<string>, ks: seq<Pass2Line>): seq<string>
    decreases |ks|
  {
    if ks == [] then []
    else
      match ks[0]
      case AInst(v) =>
        if !IsDigits(v) && v !in known then [v] + FreshSymbols(known + {v}, ks[1..])
        else FreshSymbols(known, ks[1..])
      case _ => FreshSymbols(known, ks[1..])
  }

  /** The second pass never changes a binding it starts with, and only moves
      the variable cursor forward: labels and platform symbols resolve to
      the same address wherever they are referenced. */
  lemma {:induction false} EmitKeepsBindings(table: map<string, nat>, next: nat, ks: seq<Pass2Line>)
    ensures EmitWords(table, next, ks).next >= next
    ensures forall s :: s in table ==> s in EmitWords(table, next, ks).table && EmitWords(table, next, ks).table[s] == table[s]
    decreases |ks|
  {
    if ks != [] {
      match ks[0]
      case Blank2 => EmitKeepsBindings(table, next, ks[1..]);
      case LabelSkip => EmitKeepsBindings(table, next, ks[1..]);
      case AInst(v) =>
        var st := ResolveA(table, next, v);
        EmitKeepsBindings(st.table, st.next, ks[1..]);
      case CInst(_, _) => EmitKeepsBindings(table, next, ks[1..]);
    }
  }

  /** Starting from `table` with the variable cursor at `next`, the
      symbols `added` were allocated in order, the j-th at `next + j`,
      leaving the table `rtable` and the cursor `rnext` just past them, and
      nothing else was added. */
  predicate Allocated(table: map<string, nat>, next: nat, rtable: map<string, nat>, rnext: nat, added: seq<string>) {
    rnext == next + |added| &&
    rtable.Keys == table.Keys + (set x | x in added) &&
    forall j :: 0 <= j < |added| ==> rtable[added[j]] == next + j
  }

  /** Variables are allocated in order of first reference: the j-th fresh
      symbol gets address `next + j`, and nothing else is added. */
  lemma {:induction false} FreshAllocation(table: map<string, nat>, next: nat, ks: seq<Pass2Line>)
    requires EmitWords(table, next, ks).ok
    ensures var r := EmitWords(table, next, ks);
      Allocated(table, next, r.table, r.next, FreshSymbols(table.Keys, ks))
    decreases |ks|
  {
    if ks != [] {
      match ks[0]
      case Blank2 => FreshAllocation(table, next, ks[1..]);
      case LabelSkip => FreshAllocation(table, next, ks[1..]);
      case CInst(_, _) => FreshAllocation(table, next, ks[1..]);
      case AInst(v) =>
        var st := ResolveA(table, next, v);
        FreshAllocation(st.table, st.next, ks[1..]);
        if !IsDigits(v) && v !in table {
          FreshStep(table, next, ks, v);
        }
    }
  }

  /** The step of `FreshAllocation` for a line that allocates a variable. */
  lemma FreshStep(table: map<string, nat>, next: nat, ks: seq<Pass2Line>, v: string)
    requires ks != [] && ks[0] == AInst(v)
    requires !IsDigits(v) && v !in table
    requires var st := ResolveA(table, next, v);
      var r := EmitWords(st.table, st.next, ks[1..]);
      Allocated(st.table, st.next, r.table, r.next, FreshSymbols(st.table.Keys, ks[1..]))
    ensures var r := EmitWords(table, next, ks);
      Allocated(table, next, r.table, r.next, FreshSymbols(table.Keys, ks))
  {
    var st := ResolveA(table, next, v);
    var inner := EmitWords(st.table, st.next, ks[1..]);
    var rest := FreshSymbols(st.table.Keys, ks[1..]);
    assert st.table == table[v := next] && st.next == next + 1;
    assert st.table.Keys == table.Keys + {v};
    assert FreshSymbols(table.Keys, ks) == [v] + rest;
    var r := EmitWords(table, next, ks);
    assert r.table == inner.table && r.next == inner.next;
    EmitKeepsBindings(st.table, st.next, ks[1..]);
    AllocatedCons(table, next, v, inner.table, inner.next, rest);
  }

  /** Allocating `v` at `next`, then `rest` from `next + 1` on, allocates
      `[v] + rest` from `next` on. */
  lemma AllocatedCons(table: map<string, nat>, next: nat, v: string, rtable: map<string, nat>, rnext: nat, rest: seq<string>)
    requires v !in table && Allocated(table[v := next], next + 1, rtable, rnext, rest)
    requires v in rtable && rtable[v] == next
    ensures Allocated(table, next, rtable, rnext, [v] + rest)
  {
    var added := [v] + rest;
    assert table[v := next].Keys == table.Keys + {v};
    assert (set x | x in added) == {v} + set x | x in rest;
    forall j | 0 <= j < |added|
      ensures rtable[added[j]] == next + j
    {
      if j > 0 {
        assert added[j] == rest[j - 1];
      }
    }
  }

  /** A successful second pass emits exactly one word per A- or
      C-instruction line, and nothing for labels, blank lines and comments. */
  lemma {:induction false} OneWordPerInstruction(table: map<string, nat>, next: nat, ks: seq<Pass2Line>)
    requires EmitWords(table, next, ks).ok
    ensures |EmitWords(table, next, ks).words| == ExecutableCount(ks)
    decreases |ks|
  {
    if ks != [] {
      match ks[0]
      case Blank2 => OneWordPerInstruction(table, next, ks[1..]);
      case LabelSkip => OneWordPerInstruction(table, next, ks[1..]);
      case AInst(v) =>
        var st := ResolveA(table, next, v);
        OneWordPerInstruction(st.table, st.next, ks[1..]);
      case CInst(_, _) => OneWordPerInstruction(table, next, ks[1..]);
    }
  }

  /** One line: an instruction for the second pass is counted by the first,
      and a label for the first is skipped by the second. */
  lemma LineKindsAgree(raw: string)
    ensures Pass2Kind(raw).Blank2? <==> Pass1Kind(raw).Blank1?
    ensures Pass1Kind(raw).LabelDef? ==> Pass2Kind(raw).LabelSkip?
    ensures Pass2Kind(raw).AInst? || Pass2Kind(raw).CInst? ==> Pass1Kind(raw).Counted?
  {
    var line := Clean(raw);
    if !Skipped(line) {
      var code := Before(line, "//");
      if StartsWith(code, "@") {
        assert code[0] == '@';
      }
    }
  }

  /** Whether the two passes read a line the same way: as an instruction in
      both, or in neither. */
  predicate Agree(k1: Pass1Line, k2: Pass2Line) {
    k1.Counted? <==> (k2.AInst? || k2.CInst?)
  }

  lemma {:induction false} CountsAgree(k1: seq<Pass1Line>, k2: seq<Pass2Line>)
    requires |k1| == |k2| && forall i :: 0 <= i < |k1| ==> Agree(k1[i], k2[i])
    ensures InstructionCount(k1) == ExecutableCount(k2)
  {
    if k1 != [] {
      assert Agree(k1[0], k2[0]);
      CountsAgree(k1[1..], k2[1..]);
    }
  }

  /** The passes agree on which lines are instructions as long as every line
      starting with `(` is a complete label `(...)`: then the address the
      first pass gives a label defined at line i is the number of words the
      second pass emits for the lines before it. */
  lemma PassesAgree(lines: seq<string>, i: nat)
    requires i <= |lines|
    requires forall j :: 0 <= j < |lines| ==> Pass2Kind(lines[j]).LabelSkip? ==> Pass1Kind(lines[j]).LabelDef?
    ensures InstructionCount(Pass1Kinds(lines)[..i]) == ExecutableCount(Pass2Kinds(lines)[..i])
  {
    forall j | 0 <= j < i
      ensures Agree(Pass1Kinds(lines)[..i][j], Pass2Kinds(lines)[..i][j])
    {
      LineKindsAgree(lines[j]);
    }
    CountsAgree(Pass1Kinds(lines)[..i], Pass2Kinds(lines)[..i]);
  }

  /** A line `(name` that never closes its parenthesis is an instruction to
      the first pass and a label to the second. */
  lemma UnclosedLabel(name: string)
    requires ' ' !in name && '\n' !in name && '/' !in name && ')' !in name
    ensures Pass1Kind("(" + name) == Counted
    ensures Pass2Kind("(" + name) == LabelSkip
  {
    var line := "(" + name;
    LineUntouched(line);
    FindAbsent(line, "//");
    assert Before(line, "//") == line;
    assert line[|line| - 1] != ')';
  }

  /** A complete label line `(name)` defines `name`. */
  lemma ClosedLabel(name: string)
    requires ' ' !in name && '\n' !in name && '/' !in name && ')' !in name
    ensures Pass1Kind("(" + name + ")") == LabelDef(name)
  {
    var line := "(" + name + ")";
    LineUntouched(line);
    FindAbsent(line, "//");
    assert Before(line, "//") == line;
    assert line[1..] == name + [')'] + [];
    SplitOnce(name, [], ')');
  }

  /** A line without spaces or newlines is already clean. */
  lemma LineUntouched(line: string)
    requires ' ' !in line && '\n' !in line
    ensures Clean(line) == line
  {
    RemoveAbsent(line, ' ');
    RemoveAbsent(line, '\n');
  }

  /** Without the requirement of `PassesAgree` the passes disagree: after an
      unclosed `(name`, a label `(next)` is bound to address 1 by the first
      pass although the second pass emits no word before it. */
  lemma UnclosedLabelShifts(table: map<string, nat>, name: string, next: string)
    requires ' ' !in name && '\n' !in name && '/' !in name && ')' !in name
    requires ' ' !in next && '\n' !in next && '/' !in next && ')' !in next
    ensures var lines := ["(" + name, "(" + next + ")"];
      BindLabels(table, Pass1Kinds(lines), 0) == table[next := 1] &&
      InstructionCount(Pass1Kinds(lines)[..1]) == 1 &&
      ExecutableCount(Pass2Kinds(lines)) == 0
  {
    var lines := ["(" + name, "(" + next + ")"];
    UnclosedLabel(name);
    ClosedLabel(next);
    ClosedSkipped(next);
    KindsOfTwo(lines[0], lines[1]);
    BindAfterCounted(table, next);
    assert [Counted, LabelDef(next)][..1] == [Counted];
  }

  lemma KindsOfTwo(a: string, b: string)
    ensures Pass1Kinds([a, b]) == [Pass1Kind(a), Pass1Kind(b)]
    ensures Pass2Kinds([a, b]) == [Pass2Kind(a), Pass2Kind(b)]
  {
  }

  lemma BindAfterCounted(table: map<string, nat>, next: string)
    ensures BindLabels(table, [Counted, LabelDef(next)], 0) == table[next := 1]
    ensures ExecutableCount([LabelSkip, LabelSkip]) == 0
  {
    var ks := [Counted, LabelDef(next)];
    assert ks[1..] == [LabelDef(next)] && ks[1..][1..] == [];
    assert BindLabels(table, ks, 0) == BindLabels(table, [LabelDef(next)], 1);
    assert BindLabels(table, [LabelDef(next)], 1) == BindLabels(table[next := 1], [], 1);
    var ls := [LabelSkip, LabelSkip];
    assert ls[1..] == [LabelSkip] && ls[1..][1..] == [];
  }

  lemma ClosedSkipped(name: string)
    requires ' ' !in name && '\n' !in name && '/' !in name && ')' !in name
    ensures Pass2Kind("(" + name + ")") == LabelSkip
  {
    ClosedLabel(name);
    LineKindsAgree("(" + name + ")");
  }

  /** Resuming the second pass from state `r` with output `out` ends where
      the whole pass `total` ends with output `out0`. */
  ghost predicate Resumes(r: Pass2Result, out: seq<string>, total: Pass2Result, out0: seq<string>) {
    r.table == total.table && r.next == total.next && r.ok == total.ok && out + r.words == out0 + total.words
  }

  lemma ResumeStep(before: Pass2Result, rest: Pass2Result, w: seq<string>, out: seq<string>, total: Pass2Result, out0: seq<string>)
    requires Resumes(before, out, total, out0)
    requires before == rest.(words := w + rest.words)
    ensures Resumes(rest, out + w, total, out0)
  {
    assert (out + w) + rest.words == out + before.words;
  }

  lemma EmitA(table: map<string, nat>, next: nat, ks: seq<Pass2Line>, v: string)
    requires ks != [] && ks[0] == AInst(v)
    ensures var st := ResolveA(table, next, v);
      var rest := EmitWords(st.table, st.next, ks[1..]);
      EmitWords(table, next, ks) == rest.(words := [st.word] + rest.words)
  {
  }

  lemma EmitC(table: map<string, nat>, next: nat, ks: seq<Pass2Line>, e: Encoded)
    requires ks != [] && ks[0].CInst? && ks[0].encoded == e
    ensures e.Fail? ==> EmitWords(table, next, ks) == Pass2Result(table, next, [], false)
    ensures e.Word? ==>
      var rest := EmitWords(table, next, ks[1..]);
      EmitWords(table, next, ks) == rest.(words := [e.bits] + rest.words)
  {
  }

  lemma EmitSkip(table: map<string, nat>, next: nat, ks: seq<Pass2Line>)
    requires ks != [] && (ks[0].Blank2? || ks[0].LabelSkip?)
    ensures EmitWords(table, next, ks) == EmitWords(table, next, ks[1..])
  {
  }

  // --------------------------------------------------------------- driver

  class Assembler {
    var symbolTable: map<string, nat>
    var varAddr: nat
    var out: seq<string>

    /** A fresh assembler: the initial symbol table, variables from 16, no
        output. */
    constructor ()
      ensures symbolTable == InitialTable() && varAddr == 16 && out == []
    {
      var table := InitSymbolTable();
      symbolTable := table;
      varAddr := 16;
      out := [];
    }

    /** Encodes one A-instruction line, binding a fresh symbol on the way. */
    method AInstruction(line: string) returns (word: string)
      requires |line| >= 1
      modifies this`symbolTable, this`varAddr
      ensures AStep(word, symbolTable, varAddr) == ResolveA(old(symbolTable), old(varAddr), line[1..])
    {
      var v := line[1..];
      if IsDigits(v) {
        var bits := StrTo15(ToBinary(DecimalValue(v)));
        return "0" + bits;
      }
      if v !in symbolTable {
        symbolTable := symbolTable[v := varAddr];
        varAddr := varAddr + 1;
      }
      var bits := StrTo15(ToBinary(symbolTable[v]));
      word := "0" + bits;
    }

    /** The first pass: binds every label to the instruction counter. */
    method FirstPass(lines: seq<string>)
      modifies this`symbolTable
      ensures symbolTable == BindLabels(old(symbolTable), Pass1Kinds(lines), 0)
    {
      ghost var ks := Pass1Kinds(lines);
      var lineCount: int := 0;
      var i := 0;
      while i < |lines|
        invariant 0 <= i <= |lines| && lineCount >= 0
        invariant BindLabels(symbolTable, ks[i..], lineCount) == BindLabels(old(symbolTable), ks, 0)
      {
        assert ks[i..][0] == Pass1Kind(lines[i]) && ks[i..][1..] == ks[i + 1..];
        var line := Clean(lines[i]);
        if !Skipped(line) {
          line := Before(line, "//");
          if |line| >= 1 && StartsWith(line, "(") && EndsWith(line, ")") {
            assert ks[i] == LabelDef(Before(line[1..], ")"));
            symbolTable := symbolTable[Before(line[1..], ")") := lineCount];
            lineCount := lineCount - 1;
          } else {
            assert ks[i] == Counted;
          }
          lineCount := lineCount + 1;
        } else {
          assert ks[i] == Blank1;
        }
        i := i + 1;
      }
    }

    /** The second pass: appends one word per A- or C-instruction; stops
        with `ok` false at the first C-instruction that cannot be encoded. */
    method SecondPass(lines: seq<string>) returns (ok: bool)
      modifies this`symbolTable, this`varAddr, this`out
      ensures var r := EmitWords(old(symbolTable), old(varAddr), Pass2Kinds(lines));
        symbolTable == r.table && varAddr == r.next && out == old(out) + r.words && ok == r.ok
    {
      ghost var ks := Pass2Kinds(lines);
      ghost var total := EmitWords(symbolTable, varAddr, ks);
      var i := 0;
      while i < |lines|
        invariant 0 <= i <= |lines|
        invariant Resumes(EmitWords(symbolTable, varAddr, ks[i..]), out, total, old(out))
      {
        assert ks[i..][0] == Pass2Kind(lines[i]) && ks[i..][1..] == ks[i + 1..];
        var lineOk := EmitLine(lines[i], ks[i..], total, old(out));
        if !lineOk {
          return false;
        }
        i := i + 1;
      }
      ok := true;
    }

    /** One line of the second pass: an A-instruction or an encodable
        C-instruction appends its word, a blank line or a label nothing; a
        C-instruction that cannot be encoded ends the pass with `ok` false. */
    method EmitLine(raw: string, ghost ks: seq<Pass2Line>, ghost total: Pass2Result, ghost out0: seq<string>)
      returns (ok: bool)
      requires ks != [] && ks[0] == Pass2Kind(raw)
      requires Resumes(EmitWords(symbolTable, varAddr, ks), out, total, out0)
      modifies this`symbolTable, this`varAddr, this`out
      ensures ok ==> Resumes(EmitWords(symbolTable, varAddr, ks[1..]), out, total, out0)
      ensures !ok ==> Resumes(Pass2Result(symbolTable, varAddr, [], false), out, total, out0)
    {
      ghost var before := EmitWords(symbolTable, varAddr, ks);
      var kind := Pass2Kind(raw);
      if kind.AInst? {
        ghost var st := ResolveA(symbolTable, varAddr, kind.symbol);
        EmitA(symbolTable, varAddr, ks, kind.symbol);
        var word := AInstruction("@" + kind.symbol);
        assert ("@" + kind.symbol)[1..] == kind.symbol;
        assert st == AStep(word, symbolTable, varAddr);
        ResumeStep(before, EmitWords(symbolTable, varAddr, ks[1..]), [word], out, total, out0);
        out := out + [word];
      } else if kind.CInst? {
        var encoded := CInstruction(kind.code);
        EmitC(symbolTable, varAddr, ks, encoded);
        if encoded.Fail? {
          return false;
        }
        ResumeStep(before, EmitWords(symbolTable, varAddr, ks[1..]), [encoded.bits], out, total, out0);
        out := out + [encoded.bits];
      } else {
        EmitSkip(symbolTable, varAddr, ks);
      }
      ok := true;
    }

    /** The two passes over the same lines. */
    method Run(lines: seq<string>) returns (ok: bool)
      modifies this`symbolTable, this`varAddr, this`out
      ensures var r := EmitWords(BindLabels(old(symbolTable), Pass1Kinds(lines), 0), old(varAddr), Pass2Kinds(lines));
        symbolTable == r.table && varAddr == r.next && out == old(out) + r.words && ok == r.ok
    {
      FirstPass(lines);
      ok := SecondPass(lines);
    }
  }

  /** Assembles a whole program: the words of every instruction, in order,
      and whether every C-instruction could be encoded. */
  method AssembleProgram(lines: seq<string>) returns (hack: seq<string>, ok: bool)
    ensures hack == Assembly(lines).words && ok == Assembly(lines).ok
    ensures ok ==> |hack| == ExecutableCount(Pass2Kinds(lines))
  {
    var assembler := new Assembler();
    ok := assembler.Run(lines);
    hack := assembler.out;
    if ok {
      OneWordPerInstruction(BindLabels(InitialTable(), Pass1Kinds(lines), 0), 16, Pass2Kinds(lines));
    }
  }
}
