/** The VM code writer: the Hack assembly emitted for each VM command.

    Every output line is one line of the `.asm` file, without its newline.
    Values on the stack live at RAM[SP-1], RAM[SP-2], ...; binary
    operations stage their operands in R13 (the top) and R14 (the one below),
    and each comparison mints three labels numbered by a running count. */
module VMCodeWriter {
  import opened Numerals
  import opened VMParser

  /** The base-pointer symbol of each memory segment reached through one. */
  const SegmentMapping: map<string, string> :=
    map["local" := "LCL", "argument" := "ARG", "this" := "THIS", "that" := "THAT", "temp" := "TEMP"]

  /** Pops the top of the stack into R13. */
  const PopOneCode: seq<string> := ["@SP", "M=M-1", "A=M", "D=M", "@R13", "M=D"]

  /** Pops the top of the stack into R13 and the value below it into R14. */
  const PopTwoCode: seq<string> := PopOneCode + ["@SP", "M=M-1", "A=M", "D=M", "@R14", "M=D"]

  /** Pushes D. */
  const PushDCode: seq<string> := ["@SP", "A=M", "M=D", "@SP", "M=M+1"]

  /** Pops the top of the stack into the address held in D. */
  const PopToDCode: seq<string> := ["@R13", "M=D", "@SP", "M=M-1", "A=M", "D=M", "@R13", "A=M", "M=D"]

  /** Written when the output file is closed: an endless loop at END. */
  const Trailer: seq<string> := ["// End of file", "(END)", "@END", "0;JMP"]

  /** The three labels of the comparison numbered `n`. */
  function ComparisonLabels(n: nat): seq<string> {
    var s := NatToDecimal(n);
    ["(TRUE" + s + ")", "(FALSE" + s + ")", "(NEXT" + s + ")"]
  }

  /** Sets D to -1 (true) at TRUEn or 0 (false) at FALSEn and joins at NEXTn. */
  function TrueFalseCode(n: nat): seq<string> {
    var s := NatToDecimal(n);
    ["(TRUE" + s + ")", "D=-1", "@NEXT" + s, "0;JMP",
     "(FALSE" + s + ")", "D=0", "@NEXT" + s, "0;JMP",
     "(NEXT" + s + ")"]
  }

  /** The jump condition of each comparison on x - y. */
  function JumpOf(op: Op): string
    requires IsComparison(op)
  {
    match op
    case Eq => "D;JEQ"
    case Gt => "D;JGT"
    case Lt => "D;JLT"
  }

  /** The instruction that combines the staged operands into D: x in R14,
      y in R13 (or the only operand in R13 for neg and not). */
  function Combine(op: Op): string {
    match op
    case Add => "D=D+M"
    case Sub => "D=M-D"
    case Neg => "D=-M"
    case And => "D=M&D"
    case Or => "D=M|D"
    case Not => "D=!M"
    case _ => "D=M-D"
  }

  predicate IsUnary(op: Op) {
    op == Neg || op == Not
  }

  /** The code of an arithmetic or logical command, given the comparison
      count `n`. */
  function ArithmeticCode(op: Op, n: nat): seq<string> {
    [ArithmeticComment(op)] + ArithmeticBody(op, n)
  }

  function ArithmeticComment(op: Op): string {
    "// C_ARITHMETIC " + OpName(op) + " "
  }

  function ArithmeticBody(op: Op, n: nat): seq<string> {
    if IsUnary(op) then UnaryCode(op)
    else if IsComparison(op) then ComparisonCode(op, n)
    else BinaryCode(op)
  }

  /** neg and not: one operand, staged in R13. */
  function UnaryCode(op: Op): seq<string> {
    PopOneCode + ["@R13", Combine(op)] + PushDCode
  }

  /** add, sub, and, or: x staged in R14, y in R13. */
  function BinaryCode(op: Op): seq<string> {
    PopTwoCode + ["@R13", "D=M", "@R14", Combine(op)] + PushDCode
  }

  /** eq, gt, lt: D := x - y, then a jump to TRUEn or FALSEn. */
  function ComparisonCode(op: Op, n: nat): seq<string>
    requires IsComparison(op)
  {
    var s := NatToDecimal(n);
    PopTwoCode + ["@R13", "D=M", "@R14", Combine(op)]
    + ["@TRUE" + s, JumpOf(op), "@FALSE" + s, "D;JMP"]
    + TrueFalseCode(n) + PushDCode
  }

  datatype StackOp = PushOp | PopOp

  function KindName(kind: StackOp): string {
    if kind == PushOp then "C_PUSH" else "C_POP"
  }

  /** The lines written for a push or pop and whether the writer got through
      them; `ok` is false where the writer raised an error part-way. */
  datatype Emission = Emission(lines: seq<string>, ok: bool)

  /** Python's `int` on a token: an optional sign and decimal digits. */
  function PythonInt(s: string): Option<int> {
    if |s| > 0 && (s[0] == '+' || s[0] == '-') then
      if IsDigits(s[1..]) then
        var m: int := DecimalValue(s[1..]);
        Some(if s[0] == '-' then -m else m)
      else None
    else if IsDigits(s) then Some(DecimalValue(s))
    else None
  }

  /** Python's `f"{v}"` on an integer. */
  function IntToDecimal(v: int): string {
    if v < 0 then "-" + NatToDecimal(-v) else NatToDecimal(v)
  }

  predicate IsDirect(segment: string) {
    segment == "constant" || segment == "pointer" || segment == "static"
  }

  /** The address part of a push or pop: it leaves in D the value to push
      (push) or the address to pop into (pop). */
  function AddressCode(kind: StackOp, segment: string, index: string): (e: Emission)
    ensures !e.ok <==> (!IsDirect(segment) && segment !in SegmentMapping) ||
                       (segment == "static" && PythonInt(index).None?)
  {
    var load := if kind == PushOp then "D=M" else "D=A";
    if !IsDirect(segment) then
      if segment in SegmentMapping then
        Emission(["@" + index, "D=A", "@" + SegmentMapping[segment]]
                 + (if kind == PushOp then ["A=M+D", "D=M"] else ["D=M+D"]), true)
      else
        Emission(["@" + index, "D=A"], false)
    else if segment == "pointer" then
      if index == "0" then Emission(["@THIS", load], true)
      else if index == "1" then Emission(["@THAT", load], true)
      else Emission([], true)
    else if segment == "static" then
      match PythonInt(index)
      case Some(v) => Emission(["@" + IntToDecimal(16 + v), load], true)
      case None => Emission([], false)
    else
      Emission(["@" + index, "D=A"], true)
  }

  /** The code of a push or pop command. */
  function PushPopCode(kind: StackOp, segment: string, index: string): Emission {
    var address := AddressCode(kind, segment, index);
    Emission([PushPopComment(kind, segment, index)] + address.lines
             + (if address.ok then StackCode(kind) else []), address.ok)
  }

  function PushPopComment(kind: StackOp, segment: string, index: string): string {
    "// " + KindName(kind) + " " + segment + " " + index
  }

  /** After the address part: push D, or pop into the address in D. */
  function StackCode(kind: StackOp): seq<string> {
    if kind == PushOp then PushDCode else PopToDCode
  }

  /** Reading back the rendering of an integer gives the integer. */
  lemma PythonIntRoundTrip(v: int)
    ensures PythonInt(IntToDecimal(v)) == Some(v)
  {
    var s := IntToDecimal(v);
    if v < 0 {
      assert s[1..] == NatToDecimal(-v);
    } else {
      assert IsDigit(s[0]);
    }
  }

  /** A static index `v` addresses RAM[16 + v]. */
  lemma StaticSlot(kind: StackOp, v: int)
    ensures AddressCode(kind, "static", IntToDecimal(v)).ok
    ensures AddressCode(kind, "static", IntToDecimal(v)).lines[0] == "@" + IntToDecimal(16 + v)
  {
    PythonIntRoundTrip(v);
  }

  // ------------------------------------------------------------ labels

  predicate IsLabelDef(line: string) {
    |line| > 0 && line[0] == '('
  }

  /** The label definitions among `code`, in order. */
  function LabelsOf(code: seq<string>): (labels: seq<string>)
    ensures |labels| <= |code|
  {
    if code == [] then []
    else (if IsLabelDef(code[0]) then [code[0]] else []) + LabelsOf(code[1..])
  }

  predicate NoLabels(code: seq<string>) {
    forall i :: 0 <= i < |code| ==> !IsLabelDef(code[i])
  }

  predicate Distinct(s: seq<string>) {
    forall i, j :: 0 <= i < j < |s| ==> s[i] != s[j]
  }

  lemma {:induction false} LabelsOfConcat(a: seq<string>, b: seq<string>)
    ensures LabelsOf(a + b) == LabelsOf(a) + LabelsOf(b)
  {
    if a == [] {
      assert a + b == b;
    } else {
      assert a + b == [a[0]] + (a[1..] + b);
      LabelsOfConcat(a[1..], b);
    }
  }

  lemma {:induction false} LabelsOfNone(code: seq<string>)
    requires NoLabels(code)
    ensures LabelsOf(code) == []
  {
    if code != [] {
      LabelsOfNone(code[1..]);
    }
  }

  lemma LabelsOfOne(line: string)
    requires IsLabelDef(line)
    ensures LabelsOf([line]) == [line]
  {
    assert [line][1..] == [];
  }

  /** The labels of the comparison `n` are its TRUE, FALSE and NEXT labels. */
  lemma TrueFalseLabels(n: nat)
    ensures LabelsOf(TrueFalseCode(n)) == ComparisonLabels(n)
  {
    var s := NatToDecimal(n);
    var code := TrueFalseCode(n);
    var gap := ["D=-1", "@NEXT" + s, "0;JMP"];
    var gap2 := ["D=0", "@NEXT" + s, "0;JMP"];
    assert code == [code[0]] + gap + [code[4]] + gap2 + [code[8]];
    LabelsOfConcat([code[0]] + gap + [code[4]] + gap2, [code[8]]);
    LabelsOfConcat([code[0]] + gap + [code[4]], gap2);
    LabelsOfConcat([code[0]] + gap, [code[4]]);
    LabelsOfConcat([code[0]], gap);
    LabelsOfNone(gap);
    LabelsOfNone(gap2);
    LabelsOfOne(code[0]);
    LabelsOfOne(code[4]);
    LabelsOfOne(code[8]);
  }

  /** Only comparisons define labels, three each, numbered by the count. */
  lemma ArithmeticLabels(op: Op, n: nat)
    ensures LabelsOf(ArithmeticCode(op, n)) == if IsComparison(op) then ComparisonLabels(n) else []
  {
    var head := [ArithmeticComment(op)];
    LabelsOfConcat(head, ArithmeticBody(op, n));
    LabelsOfNone(head);
    if IsUnary(op) {
      UnaryLabels(op);
    } else if IsComparison(op) {
      ComparisonCodeLabels(op, n);
    } else {
      BinaryLabels(op);
    }
  }

  lemma UnaryLabels(op: Op)
    ensures LabelsOf(UnaryCode(op)) == []
  {
    var mid := ["@R13", Combine(op)];
    LabelsOfConcat(PopOneCode + mid, PushDCode);
    LabelsOfConcat(PopOneCode, mid);
    LabelsOfNone(PopOneCode);
    LabelsOfNone(PushDCode);
    LabelsOfNone(mid);
  }

  lemma BinaryLabels(op: Op)
    ensures LabelsOf(BinaryCode(op)) == []
  {
    var mid := ["@R13", "D=M", "@R14", Combine(op)];
    LabelsOfConcat(PopTwoCode + mid, PushDCode);
    LabelsOfConcat(PopTwoCode, mid);
    LabelsOfNone(PopTwoCode);
    LabelsOfNone(PushDCode);
    LabelsOfNone(mid);
  }

  lemma ComparisonCodeLabels(op: Op, n: nat)
    requires IsComparison(op)
    ensures LabelsOf(ComparisonCode(op, n)) == ComparisonLabels(n)
  {
    var s := NatToDecimal(n);
    var stage := ["@R13", "D=M", "@R14", Combine(op)];
    var jump := ["@TRUE" + s, JumpOf(op), "@FALSE" + s, "D;JMP"];
    LabelsOfConcat(PopTwoCode + stage + jump + TrueFalseCode(n), PushDCode);
    LabelsOfConcat(PopTwoCode + stage + jump, TrueFalseCode(n));
    LabelsOfConcat(PopTwoCode + stage, jump);
    LabelsOfConcat(PopTwoCode, stage);
    LabelsOfNone(PopTwoCode);
    LabelsOfNone(PushDCode);
    LabelsOfNone(stage);
    LabelsOfNone(jump);
    TrueFalseLabels(n);
  }

  /** Push and pop define no labels, whatever their operands. */
  lemma PushPopLabels(kind: StackOp, segment: string, index: string)
    ensures LabelsOf(PushPopCode(kind, segment, index).lines) == []
  {
    var address := AddressCode(kind, segment, index);
    var tail := if address.ok then StackCode(kind) else [];
    assert NoLabels(address.lines);
    assert NoLabels(tail);
    assert NoLabels([PushPopComment(kind, segment, index)]);
    LabelsOfConcat([PushPopComment(kind, segment, index)] + address.lines, tail);
    LabelsOfConcat([PushPopComment(kind, segment, index)], address.lines);
    LabelsOfNone(address.lines);
    LabelsOfNone(tail);
    LabelsOfNone([PushPopComment(kind, segment, index)]);
  }

  /** Labels of different comparisons differ, and so do the three labels of
      one comparison. */
  lemma LabelOwner(x: string, a: nat, b: nat)
    requires x in ComparisonLabels(a) && x in ComparisonLabels(b)
    ensures a == b
  {
    var sa, sb := NatToDecimal(a), NatToDecimal(b);
    if x == "(TRUE" + sa + ")" {
      assert x[1] == 'T';
      assert x == "(TRUE" + sb + ")";
      assert sa == x[5..|x| - 1] == sb;
    } else if x == "(FALSE" + sa + ")" {
      assert x[1] == 'F';
      assert x == "(FALSE" + sb + ")";
      assert sa == x[6..|x| - 1] == sb;
    } else {
      assert x[1] == 'N';
      assert x == "(NEXT" + sb + ")";
      assert sa == x[5..|x| - 1] == sb;
    }
    NatToDecimalInjective(a, b);
  }

  // ------------------------------------------------------------- the writer

  lemma AppendAssoc<T>(a: seq<T>, b: seq<T>, c: seq<T>)
    ensures a + b + c == a + (b + c)
  {
  }

  /** The code writer: the lines written so far and the comparison count. */
  class CodeWriter {
    var count: nat
    var out: seq<string>

    constructor ()
      ensures count == 0 && out == []
    {
      count := 0;
      out := [];
    }

    method PopOne()
      modifies this`out
      ensures out == old(out) + PopOneCode
    {
      out := out + ["@SP", "M=M-1", "A=M", "D=M"];
      out := out + ["@R13", "M=D"];
    }

    method PopTwo()
      modifies this`out
      ensures out == old(out) + PopTwoCode
    {
      PopOne();
      out := out + ["@SP", "M=M-1", "A=M", "D=M"];
      out := out + ["@R14", "M=D"];
    }

    method PushD()
      modifies this`out
      ensures out == old(out) + PushDCode
    {
      out := out + ["@SP", "A=M", "M=D"];
      out := out + ["@SP", "M=M+1"];
    }

    method TrueFalseLogic()
      modifies this`out
      ensures out == old(out) + TrueFalseCode(count)
    {
      var s := NatToDecimal(count);
      out := out + ["(TRUE" + s + ")", "D=-1", "@NEXT" + s, "0;JMP"];
      out := out + ["(FALSE" + s + ")", "D=0", "@NEXT" + s, "0;JMP"];
      out := out + ["(NEXT" + s + ")"];
    }

    /** Writes an arithmetic or logical command; a comparison advances the
        count. */
    method WriteArithmetic(op: Op)
      modifies this`out, this`count
      ensures out == old(out) + ArithmeticCode(op, old(count))
      ensures count == old(count) + (if IsComparison(op) then 1 else 0)
    {
      ghost var start := out;
      out := out + [ArithmeticComment(op)];
      ghost var mid := out;
      if IsUnary(op) {
        WriteUnary(op);
      } else if IsComparison(op) {
        WriteComparison(op);
      } else {
        WriteBinary(op);
      }
      AppendAssoc(start, [ArithmeticComment(op)], ArithmeticBody(op, old(count)));
    }

    method WriteUnary(op: Op)
      modifies this`out
      ensures out == old(out) + UnaryCode(op)
    {
      PopOne();
      out := out + ["@R13", Combine(op)];
      PushD();
    }

    method WriteBinary(op: Op)
      modifies this`out
      ensures out == old(out) + BinaryCode(op)
    {
      PopTwo();
      out := out + ["@R13", "D=M", "@R14", Combine(op)];
      PushD();
    }

    method WriteComparison(op: Op)
      requires IsComparison(op)
      modifies this`out, this`count
      ensures out == old(out) + ComparisonCode(op, old(count))
      ensures count == old(count) + 1
    {
      PopTwo();
      out := out + ["@R13", "D=M", "@R14", Combine(op)];
      var s := NatToDecimal(count);
      out := out + ["@TRUE" + s, JumpOf(op), "@FALSE" + s, "D;JMP"];
      TrueFalseLogic();
      PushD();
      count := count + 1;
    }

    /** Writes a push or pop command; `ok` is false where the writer raises
        an error (an unknown segment, a static index that is no integer),
        after the lines it has already written. */
    method WritePushPop(kind: StackOp, segment: string, index: string) returns (ok: bool)
      modifies this`out
      ensures out == old(out) + PushPopCode(kind, segment, index).lines
      ensures ok == PushPopCode(kind, segment, index).ok
    {
      ghost var start := out;
      out := out + [PushPopComment(kind, segment, index)];
      ok := WriteAddress(kind, segment, index);
      ghost var address := out;
      if ok {
        if kind == PushOp {
          out := out + ["@SP", "A=M", "M=D"];
          out := out + ["@SP", "M=M+1"];
        } else {
          out := out + ["@R13", "M=D"];
          out := out + ["@SP", "M=M-1", "A=M", "D=M"];
          out := out + ["@R13", "A=M", "M=D"];
        }
      }
      assert out == address + (if ok then StackCode(kind) else []);
      AppendAssoc(start, [PushPopComment(kind, segment, index)], AddressCode(kind, segment, index).lines);
      AppendAssoc(start, [PushPopComment(kind, segment, index)] + AddressCode(kind, segment, index).lines,
                  if ok then StackCode(kind) else []);
    }

    /** The address part of a push or pop; stops early with `ok` false where
        the writer raises an error. */
    method WriteAddress(kind: StackOp, segment: string, index: string) returns (ok: bool)
      modifies this`out
      ensures out == old(out) + AddressCode(kind, segment, index).lines
      ensures ok == AddressCode(kind, segment, index).ok
    {
      var load := if kind == PushOp then "D=M" else "D=A";
      if !IsDirect(segment) {
        out := out + ["@" + index, "D=A"];
        if segment !in SegmentMapping {
          return false;
        }
        out := out + ["@" + SegmentMapping[segment]];
        if kind == PushOp {
          out := out + ["A=M+D", "D=M"];
        } else {
          out := out + ["D=M+D"];
        }
      } else if segment == "pointer" {
        if index == "0" {
          out := out + ["@THIS", load];
        } else if index == "1" {
          out := out + ["@THAT", load];
        }
      } else if segment == "static" {
        var v := PythonInt(index);
        if v.None? {
          return false;
        }
        out := out + ["@" + IntToDecimal(16 + v.value), load];
      } else {
        out := out + ["@" + index, "D=A"];
      }
      ok := true;
    }

    /** Closing the writer appends the trailer. */
    method Close()
      modifies this`out
      ensures out == old(out) + Trailer
    {
      out := out + ["// End of file", "(END)", "@END", "0;JMP"];
    }
  }
}
