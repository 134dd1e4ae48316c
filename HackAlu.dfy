/** A reference for the computation table: the Hack ALU on 16-bit words,
    represented as integers in [0, 2^16). The six control bits of a
    computation code (zx nx zy ny f no) are applied to x (the D register)
    and y (the A register or memory word M); `CompTableMatchesAlu` shows that
    every code in the table makes the ALU compute what its mnemonic says. */
module HackAlu {
  import opened Numerals
  import opened HackCode

  const Modulus: nat := 65536

  type Word = x: int | 0 <= x < 65536

  function Not16(x: Word): Word {
    65535 - x
  }

  /** Addition modulo 2^16. */
  function Add16(x: Word, y: Word): Word {
    if x + y < Modulus then x + y else x + y - Modulus
  }

  /** Subtraction modulo 2^16. */
  function Sub16(x: Word, y: Word): Word {
    if y <= x then x - y else x - y + Modulus
  }

  /** Bitwise and of the low `n` bits of `x` and `y`. */
  function BitAnd(x: nat, y: nat, n: nat): (r: nat)
    ensures r < Pow2(n)
  {
    if n == 0 then 0
    else 2 * BitAnd(x / 2, y / 2, n - 1) + (if x % 2 == 1 && y % 2 == 1 then 1 else 0)
  }

  /** Bitwise or of the low `n` bits of `x` and `y`. */
  function BitOr(x: nat, y: nat, n: nat): (r: nat)
    ensures r < Pow2(n)
  {
    if n == 0 then 0
    else 2 * BitOr(x / 2, y / 2, n - 1) + (if x % 2 == 1 || y % 2 == 1 then 1 else 0)
  }

  lemma Pow16()
    ensures Pow2(16) == Modulus
  {
    assert Pow2(4) == 16;
    assert Pow2(8) == 256 by { Pow2Add(4, 4); }
    Pow2Add(8, 8);
  }

  lemma {:induction false} Pow2Add(i: nat, j: nat)
    ensures Pow2(i + j) == Pow2(i) * Pow2(j)
  {
    if j > 0 {
      Pow2Add(i, j - 1);
    }
  }

  function And16(x: Word, y: Word): Word {
    Pow16();
    BitAnd(x, y, 16)
  }

  function Or16(x: Word, y: Word): Word {
    Pow16();
    BitOr(x, y, 16)
  }

  /** The ALU driven by a six-bit control string. */
  function Alu(c: string, x: Word, y: Word): Word
    requires |c| == 6
  {
    var x2 := Negated(c[1] == '1', Zeroed(c[0] == '1', x));
    var y2 := Negated(c[3] == '1', Zeroed(c[2] == '1', y));
    Negated(c[5] == '1', if c[4] == '1' then Add16(x2, y2) else And16(x2, y2))
  }

  /** The zx and zy stages. */
  function Zeroed(z: bool, v: Word): Word {
    if z then 0 else v
  }

  /** The nx, ny and no stages. */
  function Negated(n: bool, v: Word): Word {
    if n then Not16(v) else v
  }

  /** What each computation mnemonic means, with D as x and X as y. */
  function CompMeaning(k: string, x: Word, y: Word): Word {
    match k
    case "0" => 0
    case "1" => 1
    case "-1" => Sub16(0, 1)
    case "D" => x
    case "X" => y
    case "!X" => Not16(y)
    case "-D" => Sub16(0, x)
    case "-X" => Sub16(0, y)
    case "D+1" => Add16(x, 1)
    case "X+1" => Add16(y, 1)
    case "D-1" => Sub16(x, 1)
    case "X-1" => Sub16(y, 1)
    case "D+X" => Add16(x, y)
    case "X+D" => Add16(y, x)
    case "D-X" => Sub16(x, y)
    case "X-D" => Sub16(y, x)
    case "D&X" => And16(x, y)
    case "X&D" => And16(y, x)
    case "D|X" => Or16(x, y)
    case "X|D" => Or16(y, x)
    case _ => 0
  }

  // ------------------------------------------------------------------ lemmas

  /** All ones is the identity of bitwise and. */
  lemma {:induction false} AndOnes(x: nat, n: nat)
    requires x < Pow2(n)
    ensures BitAnd(x, Pow2(n) - 1, n) == x
    ensures BitAnd(Pow2(n) - 1, x, n) == x
  {
    if n > 0 {
      assert (Pow2(n) - 1) / 2 == Pow2(n - 1) - 1;
      assert (Pow2(n) - 1) % 2 == 1;
      AndOnes(x / 2, n - 1);
    }
  }

  lemma {:induction false} AndCommutes(x: nat, y: nat, n: nat)
    ensures BitAnd(x, y, n) == BitAnd(y, x, n)
  {
    if n > 0 {
      AndCommutes(x / 2, y / 2, n - 1);
    }
  }

  lemma {:induction false} OrCommutes(x: nat, y: nat, n: nat)
    ensures BitOr(x, y, n) == BitOr(y, x, n)
  {
    if n > 0 {
      OrCommutes(x / 2, y / 2, n - 1);
    }
  }

  /** De Morgan: or is the complement of the and of the complements. */
  lemma {:induction false} DeMorgan(x: nat, y: nat, n: nat)
    requires x < Pow2(n) && y < Pow2(n)
    ensures BitOr(x, y, n) == Pow2(n) - 1 - BitAnd(Pow2(n) - 1 - x, Pow2(n) - 1 - y, n)
  {
    if n > 0 {
      var m := Pow2(n - 1);
      assert (2 * m - 1 - x) / 2 == m - 1 - x / 2;
      assert (2 * m - 1 - y) / 2 == m - 1 - y / 2;
      assert (2 * m - 1 - x) % 2 == 1 - x % 2;
      assert (2 * m - 1 - y) % 2 == 1 - y % 2;
      DeMorgan(x / 2, y / 2, n - 1);
    }
  }

  // One lemma per entry of the computation table: the ALU driven by the
  // entry's control bits computes what the mnemonic says.

  /** The computation table as a case analysis on the key, for the proofs. */
  function TableCode(k: string): string {
    match k
    case "0" => "101010"
    case "1" => "111111"
    case "-1" => "111010"
    case "D" => "001100"
    case "X" => "110000"
    case "!X" => "110001"
    case "-D" => "001111"
    case "-X" => "110011"
    case "D+1" => "011111"
    case "X+1" => "110111"
    case "D-1" => "001110"
    case "X-1" => "110010"
    case "D+X" => "000010"
    case "X+D" => "000010"
    case "D-X" => "010011"
    case "X-D" => "000111"
    case "D&X" => "000000"
    case "X&D" => "000000"
    case "D|X" => "010101"
    case "X|D" => "010101"
    case _ => ""
  }

  lemma TableCodeIsTable(k: string)
    requires k in CompMap
    ensures CompMap[k] == TableCode(k) && |CompMap[k]| == 6
  {
  }

  lemma CodeZero(k: string, x: Word, y: Word)
    requires k == "0"
    ensures Alu(TableCode(k), x, y) == CompMeaning(k, x, y)
  {
    assert TableCode(k) == "101010";
    Pow16();
  }

  lemma CodeOne(k: string, x: Word, y: Word)
    requires k == "1"
    ensures Alu(TableCode(k), x, y) == CompMeaning(k, x, y)
  {
    assert TableCode(k) == "111111";
    Pow16();
  }

  lemma CodeMinusOne(k: string, x: Word, y: Word)
    requires k == "-1"
    ensures Alu(TableCode(k), x, y) == CompMeaning(k, x, y)
  {
    assert TableCode(k) == "111010";
    Pow16();
  }

  lemma CodeDReg(k: string, x: Word, y: Word)
    requires k == "D"
    ensures Alu(TableCode(k), x, y) == CompMeaning(k, x, y)
  {
    assert TableCode(k) == "001100";
    Pow16();
    AndOnes(x, 16);
  }

  /** The operand and its bitwise negation: the same zx/nx/zy settings,
      with the output negated or not. */
  lemma CodeOperand(k: string, x: Word, y: Word)
    requires k == "X" || k == "!X"
    ensures Alu(TableCode(k), x, y) == CompMeaning(k, x, y)
  {
    assert TableCode(k) == if k == "X" then "110000" else "110001";
    Pow16();
    AndOnes(y, 16);
  }

  lemma CodeNegD(k: string, x: Word, y: Word)
    requires k == "-D"
    ensures Alu(TableCode(k), x, y) == CompMeaning(k, x, y)
  {
    assert TableCode(k) == "001111";
    Pow16();
  }

  lemma CodeNegOperand(k: string, x: Word, y: Word)
    requires k == "-X"
    ensures Alu(TableCode(k), x, y) == CompMeaning(k, x, y)
  {
    assert TableCode(k) == "110011";
    Pow16();
  }

  lemma CodeDPlusOne(k: string, x: Word, y: Word)
    requires k == "D+1"
    ensures Alu(TableCode(k), x, y) == CompMeaning(k, x, y)
  {
    assert TableCode(k) == "011111";
    Pow16();
  }

  lemma CodeOperandPlusOne(k: string, x: Word, y: Word)
    requires k == "X+1"
    ensures Alu(TableCode(k), x, y) == CompMeaning(k, x, y)
  {
    assert TableCode(k) == "110111";
    Pow16();
  }

  lemma CodeDMinusOne(k: string, x: Word, y: Word)
    requires k == "D-1"
    ensures Alu(TableCode(k), x, y) == CompMeaning(k, x, y)
  {
    assert TableCode(k) == "001110";
    Pow16();
  }

  lemma CodeOperandMinusOne(k: string, x: Word, y: Word)
    requires k == "X-1"
    ensures Alu(TableCode(k), x, y) == CompMeaning(k, x, y)
  {
    assert TableCode(k) == "110010";
    Pow16();
  }

  lemma CodeDPlusOperand(k: string, x: Word, y: Word)
    requires k == "D+X"
    ensures Alu(TableCode(k), x, y) == CompMeaning(k, x, y)
  {
    assert TableCode(k) == "000010";
    Pow16();
  }

  lemma CodeOperandPlusD(k: string, x: Word, y: Word)
    requires k == "X+D"
    ensures Alu(TableCode(k), x, y) == CompMeaning(k, x, y)
  {
    assert TableCode(k) == "000010";
    Pow16();
  }

  lemma CodeDMinusOperand(k: string, x: Word, y: Word)
    requires k == "D-X"
    ensures Alu(TableCode(k), x, y) == CompMeaning(k, x, y)
  {
    assert TableCode(k) == "010011";
    Pow16();
  }

  lemma CodeOperandMinusD(k: string, x: Word, y: Word)
    requires k == "X-D"
    ensures Alu(TableCode(k), x, y) == CompMeaning(k, x, y)
  {
    assert TableCode(k) == "000111";
    Pow16();
  }

  lemma CodeDAndOperand(k: string, x: Word, y: Word)
    requires k == "D&X"
    ensures Alu(TableCode(k), x, y) == CompMeaning(k, x, y)
  {
    assert TableCode(k) == "000000";
    Pow16();
  }

  lemma CodeOperandAndD(k: string, x: Word, y: Word)
    requires k == "X&D"
    ensures Alu(TableCode(k), x, y) == CompMeaning(k, x, y)
  {
    assert TableCode(k) == "000000";
    Pow16();
    AndCommutes(x, y, 16);
  }

  lemma CodeDOrOperand(k: string, x: Word, y: Word)
    requires k == "D|X"
    ensures Alu(TableCode(k), x, y) == CompMeaning(k, x, y)
  {
    assert TableCode(k) == "010101";
    Pow16();
    OrByAnd(x, y);
  }

  lemma CodeOperandOrD(k: string, x: Word, y: Word)
    requires k == "X|D"
    ensures Alu(TableCode(k), x, y) == CompMeaning(k, x, y)
  {
    assert TableCode(k) == "010101";
    Pow16();
    OrByAnd(x, y); OrCommutes(x, y, 16);
  }

  /** The ALU computes or as the complement of the and of the complements. */
  lemma OrByAnd(x: Word, y: Word)
    ensures Or16(x, y) == Not16(And16(Not16(x), Not16(y)))
  {
    Pow16();
    DeMorgan(x, y, 16);
    assert Or16(x, y) == BitOr(x, y, 16);
    assert And16(Not16(x), Not16(y)) == BitAnd(65535 - x, 65535 - y, 16);
  }

  /** Every computation code drives the ALU to compute what its mnemonic says. */
  lemma CompTableMatchesAlu(k: string, x: Word, y: Word)
    requires k in CompMap
    ensures |CompMap[k]| == 6
    ensures Alu(CompMap[k], x, y) == CompMeaning(k, x, y)
  {
    TableCodeIsTable(k);
    if k == "0" {
      CodeZero(k, x, y);
    } else if k == "1" {
      CodeOne(k, x, y);
    } else if k == "-1" {
      CodeMinusOne(k, x, y);
    } else if k == "D" {
      CodeDReg(k, x, y);
    } else if k == "X" || k == "!X" {
      CodeOperand(k, x, y);
    } else if k == "-D" {
      CodeNegD(k, x, y);
    } else if k == "-X" {
      CodeNegOperand(k, x, y);
    } else if k == "D+1" {
      CodeDPlusOne(k, x, y);
    } else if k == "X+1" {
      CodeOperandPlusOne(k, x, y);
    } else if k == "D-1" {
      CodeDMinusOne(k, x, y);
    } else if k == "X-1" {
      CodeOperandMinusOne(k, x, y);
    } else if k == "D+X" {
      CodeDPlusOperand(k, x, y);
    } else if k == "X+D" {
      CodeOperandPlusD(k, x, y);
    } else if k == "D-X" {
      CodeDMinusOperand(k, x, y);
    } else if k == "X-D" {
      CodeOperandMinusD(k, x, y);
    } else if k == "D&X" {
      CodeDAndOperand(k, x, y);
    } else if k == "X&D" {
      CodeOperandAndD(k, x, y);
    } else if k == "D|X" {
      CodeDOrOperand(k, x, y);
    } else {
      CodeOperandOrD(k, x, y);
    }
  }
}
