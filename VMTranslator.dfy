/** The VM translator's driver: each line of the `.vm` file is parsed and
    dispatched to the code writer, and the trailer is written when the
    output is closed, also after an error. */
module VMTranslator {
  import opened VMParser
  import opened VMCodeWriter

  /** The code written so far, the comparison count, and whether no error
      has stopped the translation. */
  datatype Translation = Translation(code: seq<string>, count: nat, ok: bool)

  /** One command's effect on the translation: arithmetic and push/pop are
      written; a `push` or `pop` without operands raises; anything else is
      reported and skipped. */
  function Step(t: Translation, c: Command): Translation {
    match c
    case Arithmetic(op) =>
      Translation(t.code + ArithmeticCode(op, t.count), t.count + (if IsComparison(op) then 1 else 0), true)
    case Push(segment, index) =>
      var e := PushPopCode(PushOp, segment, index);
      Translation(t.code + e.lines, t.count, e.ok)
    case Pop(segment, index) =>
      var e := PushPopCode(PopOp, segment, index);
      Translation(t.code + e.lines, t.count, e.ok)
    case Truncated => Translation(t.code, t.count, false)
    case _ => t
  }

  /** The commands of the lines, one per line. */
  function ParseAll(lines: seq<string>): (cmds: seq<Command>)
    ensures |cmds| == |lines|
  {
    seq(|lines|, i requires 0 <= i < |lines| => Parse(lines[i]))
  }

  /** The translation of a sequence of commands, up to the first error. */
  function Translate(cmds: seq<Command>): Translation
    decreases |cmds|
  {
    if cmds == [] then Translation([], 0, true)
    else
      var t := Translate(cmds[..|cmds| - 1]);
      if !t.ok then t else Step(t, cmds[|cmds| - 1])
  }

  /** The translator's main loop over the lines of the input. */
  method Process(lines: seq<string>) returns (asm: seq<string>, ok: bool)
    ensures asm == Translate(ParseAll(lines)).code + Trailer
    ensures ok == Translate(ParseAll(lines)).ok
  {
    ghost var cmds := ParseAll(lines);
    var writer := new CodeWriter();
    var i := 0;
    ok := true;
    while i < |lines| && ok
      invariant 0 <= i <= |lines|
      invariant Translate(cmds[..i]) == Translation(writer.out, writer.count, ok)
    {
      var c := ParseLine(lines[i]);
      ok := Dispatch(writer, c);
      TranslateSnoc(cmds, i);
      assert c == cmds[i];
      i := i + 1;
    }
    if i < |lines| {
      TranslateStops(cmds, i);
    } else {
      assert cmds[..i] == cmds;
    }
    writer.Close();
    asm := writer.out;
  }

  /** Hands one parsed command to the code writer; `ok` is false where the
      translator raises an error. */
  method Dispatch(writer: CodeWriter, c: Command) returns (ok: bool)
    modifies writer`out, writer`count
    ensures Translation(writer.out, writer.count, ok) ==
            Step(Translation(old(writer.out), old(writer.count), true), c)
  {
    ok := true;
    if c.Arithmetic? {
      writer.WriteArithmetic(c.op);
    } else if c.Push? {
      ok := writer.WritePushPop(PushOp, c.segment, c.index);
    } else if c.Pop? {
      ok := writer.WritePushPop(PopOp, c.segment, c.index);
    } else if c.Truncated? {
      ok := false;
    }
  }

  // ------------------------------------------------------------------ lemmas

  /** Translating one more command. */
  lemma TranslateSnoc(cmds: seq<Command>, i: nat)
    requires i < |cmds|
    ensures Translate(cmds[..i + 1]) ==
            (var t := Translate(cmds[..i]); if !t.ok then t else Step(t, cmds[i]))
  {
    assert cmds[..i + 1][..i] == cmds[..i];
  }

  /** After an error nothing more is written. */
  lemma {:induction false} TranslateStops(cmds: seq<Command>, i: nat)
    requires i <= |cmds| && !Translate(cmds[..i]).ok
    ensures Translate(cmds) == Translate(cmds[..i])
    decreases |cmds|
  {
    if i < |cmds| {
      var init := cmds[..|cmds| - 1];
      assert init[..i] == cmds[..i];
      TranslateStops(init, i);
    } else {
      assert cmds[..i] == cmds;
    }
  }

  /** Whether a command raises an error in the translator. */
  predicate Fails(c: Command) {
    c.Truncated? ||
    (c.Push? && !PushPopCode(PushOp, c.segment, c.index).ok) ||
    (c.Pop? && !PushPopCode(PopOp, c.segment, c.index).ok)
  }

  /** The translation succeeds exactly when no line raises an error. */
  lemma {:induction false} TranslateOk(cmds: seq<Command>)
    ensures Translate(cmds).ok <==> forall i :: 0 <= i < |cmds| ==> !Fails(cmds[i])
    decreases |cmds|
  {
    if cmds != [] {
      var init := cmds[..|cmds| - 1];
      TranslateOk(init);
      assert forall i :: 0 <= i < |init| ==> init[i] == cmds[i];
      var t := Translate(init);
      if t.ok {
        StepOk(t, cmds[|cmds| - 1]);
      }
    }
  }

  lemma StepOk(t: Translation, c: Command)
    requires t.ok
    ensures Step(t, c).ok <==> !Fails(c)
  {
  }

  /** The number of comparison commands among the lines. */
  function Comparisons(cmds: seq<Command>): nat
    decreases |cmds|
  {
    if cmds == [] then 0
    else
      var c := cmds[|cmds| - 1];
      Comparisons(cmds[..|cmds| - 1]) + (if c.Arithmetic? && IsComparison(c.op) then 1 else 0)
  }

  /** The count is the number of comparisons translated. */
  lemma {:induction false} CountIsComparisons(cmds: seq<Command>)
    requires Translate(cmds).ok
    ensures Translate(cmds).count == Comparisons(cmds)
    decreases |cmds|
  {
    if cmds != [] {
      CountIsComparisons(cmds[..|cmds| - 1]);
    }
  }

  /** The labels of the comparisons 0 .. m-1, in order. */
  function AllLabels(m: nat): (labels: seq<string>)
    ensures |labels| == 3 * m
  {
    if m == 0 then [] else AllLabels(m - 1) + ComparisonLabels(m - 1)
  }

  /** The translation defines exactly the labels of its comparisons. */
  lemma {:induction false} TranslateLabels(cmds: seq<Command>)
    ensures LabelsOf(Translate(cmds).code) == AllLabels(Translate(cmds).count)
    decreases |cmds|
  {
    if cmds != [] {
      var init := cmds[..|cmds| - 1];
      TranslateLabels(init);
      var t := Translate(init);
      if t.ok {
        StepLabels(t, cmds[|cmds| - 1]);
      }
    } else {
      assert LabelsOf([]) == [];
    }
  }

  /** One command adds the labels of its comparison, if it is one. */
  lemma StepLabels(t: Translation, c: Command)
    requires t.ok
    ensures var t' := Step(t, c);
      t'.count == t.count + (if c.Arithmetic? && IsComparison(c.op) then 1 else 0) &&
      LabelsOf(t'.code) == LabelsOf(t.code) + (if c.Arithmetic? && IsComparison(c.op) then ComparisonLabels(t.count) else [])
  {
    match c
    case Arithmetic(op) =>
      LabelsOfConcat(t.code, ArithmeticCode(op, t.count));
      ArithmeticLabels(op, t.count);
    case Push(segment, index) =>
      LabelsOfConcat(t.code, PushPopCode(PushOp, segment, index).lines);
      PushPopLabels(PushOp, segment, index);
    case Pop(segment, index) =>
      LabelsOfConcat(t.code, PushPopCode(PopOp, segment, index).lines);
      PushPopLabels(PopOp, segment, index);
    case _ =>
      assert LabelsOf(t.code) + [] == LabelsOf(t.code);
  }

  /** Every label among the first `m` comparisons' labels belongs to one of
      them. */
  lemma {:induction false} AllLabelsOwner(m: nat, k: nat)
    requires k < |AllLabels(m)|
    ensures k / 3 < m && AllLabels(m)[k] in ComparisonLabels(k / 3)
  {
    if k < 3 * (m - 1) {
      AllLabelsOwner(m - 1, k);
    } else {
      assert AllLabels(m)[k] == ComparisonLabels(m - 1)[k - 3 * (m - 1)];
    }
  }

  /** No label is defined twice. */
  lemma AllLabelsDistinct(m: nat)
    ensures Distinct(AllLabels(m))
  {
    var labels := AllLabels(m);
    forall i, j | 0 <= i < j < |labels|
      ensures labels[i] != labels[j]
    {
      AllLabelsOwner(m, i);
      AllLabelsOwner(m, j);
      if i / 3 != j / 3 {
        if labels[i] == labels[j] {
          LabelOwner(labels[i], i / 3, j / 3);
        }
      } else {
        LabelsOfOneComparison(m, i, j);
      }
    }
  }

  /** The three labels of one comparison differ in their first letter. */
  lemma LabelsOfOneComparison(m: nat, i: nat, j: nat)
    requires i < j < |AllLabels(m)| && i / 3 == j / 3
    ensures AllLabels(m)[i] != AllLabels(m)[j]
  {
    LabelPosition(m, i);
    LabelPosition(m, j);
    assert i % 3 != j % 3 by {
      assert i == 3 * (i / 3) + i % 3 && j == 3 * (j / 3) + j % 3;
    }
    ComparisonLabelsDiffer(i / 3, i % 3, j % 3);
  }

  lemma ComparisonLabelsDiffer(n: nat, a: nat, b: nat)
    requires a < 3 && b < 3 && a != b
    ensures ComparisonLabels(n)[a] != ComparisonLabels(n)[b]
  {
    var labels := ComparisonLabels(n);
    assert labels[0][1] == 'T' && labels[1][1] == 'F' && labels[2][1] == 'N';
  }

  lemma {:induction false} LabelPosition(m: nat, k: nat)
    requires k < |AllLabels(m)|
    ensures AllLabels(m)[k] == ComparisonLabels(k / 3)[k % 3]
  {
    if k < 3 * (m - 1) {
      LabelPosition(m - 1, k);
    } else {
      var r := k - 3 * (m - 1);
      assert 0 <= r < 3 && k == 3 * (m - 1) + r;
      assert k / 3 == m - 1 && k % 3 == r;
    }
  }

  /** The whole output, trailer included, defines every label once: the
      labels of its comparisons and END. */
  lemma OutputLabels(cmds: seq<Command>)
    ensures var t := Translate(cmds);
      LabelsOf(t.code + Trailer) == AllLabels(t.count) + ["(END)"] &&
      Distinct(LabelsOf(t.code + Trailer))
  {
    var t := Translate(cmds);
    TranslateLabels(cmds);
    LabelsOfConcat(t.code, Trailer);
    TrailerLabels();
    AllLabelsDistinct(t.count);
    EndNotAComparisonLabel(t.count);
    var labels := AllLabels(t.count) + ["(END)"];
    assert forall i :: 0 <= i < |AllLabels(t.count)| ==> labels[i] == AllLabels(t.count)[i];
  }

  /** No comparison label is `(END)`. */
  lemma EndNotAComparisonLabel(count: nat)
    ensures forall i :: 0 <= i < |AllLabels(count)| ==> AllLabels(count)[i] != "(END)"
  {
    forall i | 0 <= i < |AllLabels(count)|
      ensures AllLabels(count)[i] != "(END)"
    {
      LabelPosition(count, i);
      var own := ComparisonLabels(i / 3);
      assert own[0][1] == 'T' && own[1][1] == 'F' && own[2][1] == 'N';
      assert "(END)"[1] == 'E';
    }
  }

  lemma TrailerLabels()
    ensures LabelsOf(Trailer) == ["(END)"]
  {
    var rest := ["@END", "0;JMP"];
    assert Trailer == ["// End of file"] + ["(END)"] + rest;
    LabelsOfConcat(["// End of file"] + ["(END)"], rest);
    LabelsOfConcat(["// End of file"], ["(END)"]);
    LabelsOfNone(["// End of file"]);
    LabelsOfNone(rest);
    LabelsOfOne("(END)");
  }
}
