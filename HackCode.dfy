/** The Hack C-instruction encoder: the three lookup tables (computation,
    destination, jump) and `CInstruction`, which renders one cleaned line
    `[dest=]comp[;jump]` as `111` + a + comp + dest + jump.

    The tables are keyed on the source's own mnemonics. In the computation
    table the operand `A` or `M` is written as the placeholder `X`; the a-bit
    records which one the line used. An absent dest or jump is the key "-1". */
module HackCode {
  import opened Text
  import opened Numerals

  const CompMap: map<string, string> := map[
    "0" := "101010", "1" := "111111", "-1" := "111010",
    "D" := "001100", "X" := "110000", "!X" := "110001",
    "-D" := "001111", "-X" := "110011",
    "D+1" := "011111", "X+1" := "110111", "D-1" := "001110", "X-1" := "110010",
    "D+X" := "000010", "X+D" := "000010",
    "D-X" := "010011", "X-D" := "000111",
    "D&X" := "000000", "X&D" := "000000",
    "D|X" := "010101", "X|D" := "010101"
  ]

  /** Every ordering of every non-empty subset of {A, D, M}, except `MAD` and
      `MDA`, plus the absent-dest key. */
  const DestMap: map<string, string> := map[
    "-1" := "000",
    "M" := "001", "D" := "010", "DM" := "011", "MD" := "011",
    "A" := "100", "AM" := "101", "MA" := "101", "AD" := "110", "DA" := "110",
    "ADM" := "111", "AMD" := "111", "DAM" := "111", "DMA" := "111"
  ]

  const JumpMap: map<string, string> := map[
    "-1" := "000",
    "JGT" := "001", "JEQ" := "010", "JGE" := "011", "JLT" := "100",
    "JNE" := "101", "JLE" := "110", "JMP" := "111"
  ]

  /** Why a line is not a C-instruction the encoder accepts. `BadSplit` is
      the source's failed two-way unpacking of `split(';')` or `split('=')`;
      the other three are failed table lookups. */
  datatype CError = BadSplit | UnknownComp | UnknownDest | UnknownJump

  datatype Encoded = Word(bits: string) | Fail(error: CError)

  /** The computation mnemonic with `M` and `A` both read as `X`. */
  function CompKey(comp: string): string {
    Replace(Replace(comp, 'M', 'X'), 'A', 'X')
  }

  /** The three fields of a C-instruction line, or `Unsplit` when the
      source's two-way unpacking of `split(';')` or `split('=')` fails. */
  datatype CFields = CFields(dest: string, comp: string, jump: string) | Unsplit

  /** Splits a cleaned line into dest, computation and jump: the jump is
      split off at `;` only when the line holds `;J`, the dest at `=` when the
      rest holds one, and a stray trailing `;` is dropped from the
      computation. A missing dest or jump is "-1". */
  function SplitC(line: string): CFields {
    var jumpSplit := Contains(line, ";J");
    if jumpSplit && Count(line, ';') != 1 then Unsplit
    else
      var body := if jumpSplit then Before(line, ";") else line;
      var jump := if jumpSplit then After(line, ';') else "-1";
      var destSplit := Contains(body, "=");
      if destSplit && Count(body, '=') != 1 then Unsplit
      else
        var dest := if destSplit then Before(body, "=") else "-1";
        var rest := if destSplit then After(body, '=') else body;
        CFields(dest, if ';' in rest then rest[..|rest| - 1] else rest, jump)
  }

  /** Encodes one cleaned line (no spaces, no comment) as a C-instruction:
      a 16-bit word `111` a comp dest jump, where a is 1 exactly when the
      computation mentions `M`. */
  function CInstruction(line: string): (r: Encoded)
    ensures r.Word? ==> |r.bits| == 16 && IsBits(r.bits) && StartsWith(r.bits, "111")
    ensures r.Word? ==> SplitC(line).CFields? && (r.bits[3] == '1' <==> 'M' in SplitC(line).comp)
    ensures SplitC(line).Unsplit? ==> r == Fail(BadSplit)
    ensures r.Word? <==>
      SplitC(line).CFields? && CompKey(SplitC(line).comp) in CompMap &&
      SplitC(line).dest in DestMap && SplitC(line).jump in JumpMap
    ensures r.Word? ==>
      r.bits == Fields(if 'M' in SplitC(line).comp then '1' else '0',
                       CompMap[CompKey(SplitC(line).comp)],
                       DestMap[SplitC(line).dest], JumpMap[SplitC(line).jump])
  {
    match SplitC(line)
    case Unsplit => Fail(BadSplit)
    case CFields(dest, comp, jump) =>
      var key := CompKey(comp);
      if key !in CompMap then Fail(UnknownComp)
      else if dest !in DestMap then Fail(UnknownDest)
      else if jump !in JumpMap then Fail(UnknownJump)
      else
        TableEntries(key, dest, jump);
        Word(Fields(if 'M' in comp then '1' else '0', CompMap[key], DestMap[dest], JumpMap[jump]))
  }

  /** A line `dest=comp` whose computation is in the table but whose
      destination is not is rejected with `UnknownDest`. */
  lemma DestRejected(dest: string, comp: string)
    requires ';' !in dest && '=' !in dest && ';' !in comp && '=' !in comp
    requires CompKey(comp) in CompMap && dest != "" && dest !in DestMap
    ensures CInstruction(dest + "=" + comp) == Fail(UnknownDest)
  {
    SplitRendered(dest, comp, "");
    assert RenderC(dest, comp, "") == dest + "=" + comp;
  }

  /** `DestRejected` with the computation `D`. */
  lemma DestDRejected(dest: string)
    requires ';' !in dest && '=' !in dest && dest != "" && dest !in DestMap
    ensures CInstruction(dest + "=D") == Fail(UnknownDest)
  {
    assert CompKey("D") == "D";
    DestRejected(dest, "D");
    assert dest + "=" + "D" == dest + "=D";
  }

  /** The destinations `MAD` and `MDA` are missing from the destination
      table, so a line using either is rejected although the other four
      orderings of A, M and D are accepted. */
  lemma MadRejected()
    ensures CInstruction("MAD=D") == Fail(UnknownDest)
  {
    DestDRejected("MAD");
    assert "MAD" + "=D" == "MAD=D";
  }

  lemma MdaRejected()
    ensures CInstruction("MDA=D") == Fail(UnknownDest)
  {
    DestDRejected("MDA");
    assert "MDA" + "=D" == "MDA=D";
  }

  /** The word `111` a comp dest jump; 16 bits when the fields have the
      widths 1, 6, 3 and 3. */
  function Fields(a: char, comp: string, dest: string, jump: string): (w: string)
    ensures IsBit(a) && IsBits(comp) && IsBits(dest) && IsBits(jump) ==> IsBits(w)
    ensures |comp| == 6 && |dest| == 3 && |jump| == 3 ==>
      |w| == 16 && StartsWith(w, "111") && w[3] == a &&
      w[4..10] == comp && w[10..13] == dest && w[13..] == jump
  {
    "111" + [a] + comp + dest + jump
  }

  /** Each table entry is a bit string of its field's width. */
  lemma TableEntries(k: string, d: string, j: string)
    requires k in CompMap && d in DestMap && j in JumpMap
    ensures |CompMap[k]| == 6 && IsBits(CompMap[k])
    ensures |DestMap[d]| == 3 && IsBits(DestMap[d])
    ensures |JumpMap[j]| == 3 && IsBits(JumpMap[j])
  {
    CompEntryWidth(k);
    DestEntryWidth(d);
    JumpEntryWidth(j);
  }

  lemma CompEntryWidth(k: string)
    requires k in CompMap
    ensures |CompMap[k]| == 6 && IsBits(CompMap[k])
  {
  }

  lemma DestEntryWidth(d: string)
    requires d in DestMap
    ensures |DestMap[d]| == 3 && IsBits(DestMap[d])
  {
  }

  lemma JumpEntryWidth(j: string)
    requires j in JumpMap
    ensures |JumpMap[j]| == 3 && IsBits(JumpMap[j])
  {
  }

  /** Mnemonic characters never clash with the separators `=` and `;`, and
      computation keys never name the operand register. */
  lemma KeyCharacters(k: string, d: string, j: string)
    requires k in CompMap && d in DestMap && j in JumpMap
    ensures ';' !in k && '=' !in k && 'A' !in k && 'M' !in k
    ensures ';' !in d && '=' !in d
    ensures ';' !in j && (j != "-1" ==> |j| > 0 && j[0] == 'J')
  {
    CompKeyCharacters(k);
    DestKeyCharacters(d);
    JumpKeyCharacters(j);
  }

  lemma CompKeyCharacters(k: string)
    requires k in CompMap
    ensures ';' !in k && '=' !in k && 'A' !in k && 'M' !in k
  {
  }

  lemma DestKeyCharacters(d: string)
    requires d in DestMap
    ensures ';' !in d && '=' !in d
  {
  }

  lemma JumpKeyCharacters(j: string)
    requires j in JumpMap
    ensures ';' !in j && (j != "-1" ==> |j| > 0 && j[0] == 'J')
  {
  }

  /** The text of a C-instruction with an optional dest (`""` for none), a
      computation and an optional jump (`""` for none). */
  function RenderC(dest: string, comp: string, jump: string): string {
    (if dest == "" then "" else dest + "=") + comp + (if jump == "" then "" else ";" + jump)
  }

  /** A computation key written with the register `A` or `M` in place of the
      placeholder `X`. */
  function WithOperand(k: string, operand: char): string {
    Replace(k, 'X', operand)
  }

  // ------------------------------------------------- reference definitions

  /** The destination bits A D M: which registers the result is stored in. */
  function DestBits(d: string): string {
    [if 'A' in d then '1' else '0', if 'D' in d then '1' else '0', if 'M' in d then '1' else '0']
  }

  /** Whether a jump mnemonic jumps when the computed value has sign `sign`
      (-1, 0 or 1). */
  predicate JumpTaken(j: string, sign: int) {
    match j
    case "JGT" => sign > 0
    case "JEQ" => sign == 0
    case "JGE" => sign >= 0
    case "JLT" => sign < 0
    case "JNE" => sign != 0
    case "JLE" => sign <= 0
    case "JMP" => true
    case _ => false
  }

  // ------------------------------------------------------------------ lemmas

  /** The destination code of a mnemonic sets exactly the bits of the
      registers it names, so every ordering of the same registers has the
      same code; a missing dest is `000`. */
  lemma DestTableByRegisters(d: string)
    requires d in DestMap
    ensures DestMap[d] == if d == "-1" then "000" else DestBits(d)
  {
  }

  /** Orderings of the same register set share one code. */
  lemma DestPermutationInvariant(d1: string, d2: string)
    requires d1 in DestMap && d2 in DestMap && d1 != "-1" && d2 != "-1"
    requires forall c :: c in d1 <==> c in d2
    ensures DestMap[d1] == DestMap[d2]
  {
    DestTableByRegisters(d1);
    DestTableByRegisters(d2);
    assert 'A' in d1 <==> 'A' in d2;
    assert 'D' in d1 <==> 'D' in d2;
    assert 'M' in d1 <==> 'M' in d2;
  }

  /** The jump code is the bits lt, eq, gt of the signs it jumps on; a
      missing jump never jumps and is `000`. */
  lemma JumpTableBySign(j: string)
    requires j in JumpMap
    ensures JumpMap[j][0] == (if JumpTaken(j, -1) then '1' else '0')
    ensures JumpMap[j][1] == (if JumpTaken(j, 0) then '1' else '0')
    ensures JumpMap[j][2] == (if JumpTaken(j, 1) then '1' else '0')
  {
  }

  /** Replacing `M` and then `A` by `X` undoes writing a key with either
      register. */
  lemma CompKeyOfOperand(k: string, operand: char)
    requires 'A' !in k && 'M' !in k && (operand == 'A' || operand == 'M')
    ensures CompKey(WithOperand(k, operand)) == k
    ensures 'M' in WithOperand(k, operand) <==> operand == 'M' && 'X' in k
    ensures forall ch :: ch != operand && ch in WithOperand(k, operand) ==> ch in k
  {
    var c := WithOperand(k, operand);
    forall ch | ch != operand && ch in c
      ensures ch in k
    {
      var i :| 0 <= i < |c| && c[i] == ch;
      assert k[i] == ch;
    }
    var r := CompKey(c);
    assert |r| == |k|;
    forall i | 0 <= i < |k|
      ensures r[i] == k[i]
    {
    }
    if operand == 'M' && 'X' in k {
      var i :| 0 <= i < |k| && k[i] == 'X';
      assert c[i] == 'M';
    }
  }

  /** The encoder splits a line written from table mnemonics back into its
      three fields: the word holds the codes of its dest, computation and
      jump (`000` for a missing one), and the a-bit is 1 exactly when the
      computation reads the memory word `M`. */
  lemma CInstructionFields(dest: string, k: string, operand: char, jump: string)
    requires dest == "" || dest in DestMap
    requires k in CompMap
    requires operand == 'A' || operand == 'M'
    requires jump == "" || (jump in JumpMap && jump != "-1")
    ensures CInstruction(RenderC(dest, WithOperand(k, operand), jump)) ==
      Word(Fields(if operand == 'M' && 'X' in k then '1' else '0', CompMap[k],
                  DestMap[if dest == "" then "-1" else dest],
                  JumpMap[if jump == "" then "-1" else jump]))
  {
    var d := if dest == "" then "-1" else dest;
    var j := if jump == "" then "-1" else jump;
    KeyCharacters(k, d, j);
    TableEntries(k, d, j);
    var c := WithOperand(k, operand);
    CompKeyOfOperand(k, operand);
    assert ';' !in c && '=' !in c;
    SplitRendered(dest, c, jump);
  }

  /** A rendered line splits back into the fields it was rendered from. */
  lemma SplitRendered(dest: string, comp: string, jump: string)
    requires ';' !in dest && '=' !in dest && ';' !in comp && '=' !in comp
    requires jump == "" || (|jump| > 0 && jump[0] == 'J' && ';' !in jump)
    ensures SplitC(RenderC(dest, comp, jump)) ==
      CFields(if dest == "" then "-1" else dest, comp, if jump == "" then "-1" else jump)
  {
    var body := if dest == "" then comp else dest + "=" + comp;
    assert ';' !in body;
    var line := RenderC(dest, comp, jump);
    assert line == body + (if jump == "" then "" else ";" + jump);
    JumpSplit(body, jump);
    DestSplit(dest, comp);
    if jump == "" {
      assert line == body;
      assert !Contains(line, ";J");
    } else {
      assert Contains(line, ";J") && Count(line, ';') == 1;
      assert Before(line, ";") == body && After(line, ';') == jump;
    }
    assert ';' !in comp;
  }

  /** How the encoder splits off an optional jump. */
  lemma JumpSplit(body: string, jump: string)
    requires ';' !in body
    requires jump == "" || (|jump| > 0 && jump[0] == 'J' && ';' !in jump)
    ensures var line := body + (if jump == "" then "" else ";" + jump);
      (Contains(line, ";J") <==> jump != "") &&
      (jump != "" ==> Count(line, ';') == 1 && Before(line, ";") == body && After(line, ';') == jump)
  {
    if jump == "" {
      assert body + "" == body;
      FindAbsent(body, ";J");
    } else {
      var line := body + (";" + jump);
      FindConcat(body, ";" + jump, ";J");
      FindHere(";" + jump, ";J");
      assert line == body + [';'] + jump;
      SplitOnce(body, jump, ';');
    }
  }

  /** How the encoder splits off an optional dest. */
  lemma DestSplit(dest: string, comp: string)
    requires '=' !in dest && '=' !in comp
    ensures var body := if dest == "" then comp else dest + "=" + comp;
      (Contains(body, "=") <==> dest != "") &&
      (dest != "" ==> Count(body, '=') == 1 && Before(body, "=") == dest && After(body, '=') == comp)
  {
    if dest == "" {
      FindAbsent(comp, "=");
    } else {
      SplitOnce(dest, comp, '=');
    }
  }
}
