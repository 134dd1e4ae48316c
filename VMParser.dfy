/** The VM command parser: one line of VM source becomes one command.

    Leading spaces are skipped; a line that is then empty, a lone newline or
    a `//` comment is ignored; otherwise an inline `//` comment and the
    newline are cut off and the rest is split at single spaces. `push` and
    `pop` take the next two tokens as segment and index (the index stays a
    string), and the nine operation names give arithmetic commands. */
module VMParser {
  import opened Text

  /** The nine stack operations. */
  datatype Op = Add | Sub | Neg | And | Or | Not | Eq | Gt | Lt

  function OpName(op: Op): string {
    match op
    case Add => "add"
    case Sub => "sub"
    case Neg => "neg"
    case And => "and"
    case Or => "or"
    case Not => "not"
    case Eq => "eq"
    case Gt => "gt"
    case Lt => "lt"
  }

  /** The operation a token names, if any. */
  function OpOf(token: string): (r: Option<Op>)
    ensures r.Some? ==> OpName(r.value) == token
  {
    match token
    case "add" => Some(Add)
    case "sub" => Some(Sub)
    case "neg" => Some(Neg)
    case "and" => Some(And)
    case "or" => Some(Or)
    case "not" => Some(Not)
    case "eq" => Some(Eq)
    case "gt" => Some(Gt)
    case "lt" => Some(Lt)
    case _ => None
  }

  datatype Option<T> = None | Some(value: T)

  /** The comparisons, which branch and mint labels. */
  predicate IsComparison(op: Op) {
    op == Eq || op == Gt || op == Lt
  }

  /** A parsed line. `Ignored` is a blank or comment line, `Unknown` a line
      whose first token is no command, and `Truncated` a `push` or `pop`
      with fewer than two operands, on which the parser fails. */
  datatype Command =
    | Ignored
    | Arithmetic(op: Op)
    | Push(segment: string, index: string)
    | Pop(segment: string, index: string)
    | Unknown
    | Truncated

  /** The line with its leading spaces removed. */
  function TrimLeadingSpaces(line: string): (r: string)
    ensures |r| <= |line| && r == line[|line| - |r|..]
    ensures r == [] || r[0] != ' '
    ensures forall j :: 0 <= j < |line| - |r| ==> line[j] == ' '
  {
    if line != [] && line[0] == ' ' then
      var r := TrimLeadingSpaces(line[1..]);
      assert forall j :: 1 <= j < |line| - |r| ==> line[j] == line[1..][j - 1];
      r
    else line
  }

  /** Whether a trimmed line carries no command. */
  predicate IsBlank(line: string) {
    line == "" || line == "\n" || StartsWith(line, "//")
  }

  /** The tokens of a trimmed, non-blank line. */
  function Tokens(line: string): (tokens: seq<string>)
    ensures |tokens| >= 1
  {
    Split(Before(Before(line, "//"), "\n"), ' ')
  }

  /** Classifies a line whose leading spaces are already removed. */
  function Classify(line: string): Command {
    if IsBlank(line) then Ignored
    else
      var tokens := Tokens(line);
      if tokens[0] == "push" then
        if |tokens| < 3 then Truncated else Push(tokens[1], tokens[2])
      else if tokens[0] == "pop" then
        if |tokens| < 3 then Truncated else Pop(tokens[1], tokens[2])
      else
        match OpOf(tokens[0])
        case Some(op) => Arithmetic(op)
        case None => Unknown
  }

  function Parse(line: string): Command {
    Classify(TrimLeadingSpaces(line))
  }

  /** The parser: skips the leading spaces with an index, then classifies. */
  method ParseLine(line: string) returns (c: Command)
    ensures c == Parse(line)
  {
    var i := 0;
    while i < |line| && line[i] == ' '
      invariant 0 <= i <= |line|
      invariant TrimLeadingSpaces(line[i..]) == TrimLeadingSpaces(line)
    {
      assert line[i..][1..] == line[i + 1..];
      i := i + 1;
    }
    var rest := if i == |line| then "" else line[i..];
    c := Classify(rest);
  }

  // ------------------------------------------------------------------ lemmas

  /** `k` spaces. */
  function Spaces(k: nat): (s: string)
    ensures |s| == k && forall j :: 0 <= j < k ==> s[j] == ' '
  {
    if k == 0 then [] else [' '] + Spaces(k - 1)
  }

  lemma {:induction false} TrimSpaces(k: nat, body: string)
    requires body == [] || body[0] != ' '
    ensures TrimLeadingSpaces(Spaces(k) + body) == body
  {
    if k > 0 {
      var t := Spaces(k - 1) + body;
      assert Spaces(k) + body == [' '] + t;
      assert ([' '] + t)[1..] == t;
      TrimSpaces(k - 1, body);
    } else {
      assert Spaces(k) + body == body;
    }
  }

  lemma OpOfName(op: Op)
    ensures OpOf(OpName(op)) == Some(op)
  {
  }

  /** Op names are read back as the same operation, and no other token names
      an operation. */
  lemma OpNameRoundTrip(op: Op, token: string)
    ensures OpOf(OpName(op)) == Some(op)
    ensures OpOf(token).Some? <==> exists o: Op :: OpName(o) == token
  {
    OpOfName(op);
    if exists o: Op :: OpName(o) == token {
      var o: Op :| OpName(o) == token;
      OpOfName(o);
    }
  }

  /** Blank lines, lone newlines and comment lines are ignored, whatever
      spaces precede them. */
  lemma ParseBlank(k: nat, rest: string)
    requires rest == "" || rest == "\n" || StartsWith(rest, "//")
    ensures Parse(Spaces(k) + rest) == Ignored
  {
    TrimSpaces(k, rest);
  }

  /** The canonical text of a command. */
  function Render(c: Command): string
    requires c.Arithmetic? || c.Push? || c.Pop?
  {
    match c
    case Arithmetic(op) => OpName(op)
    case Push(s, i) => "push" + " " + s + " " + i
    case Pop(s, i) => "pop" + " " + s + " " + i
  }

  /** A command whose operands hold no space, slash or newline. */
  predicate Renderable(c: Command) {
    c.Arithmetic? ||
    ((c.Push? || c.Pop?) &&
     ' ' !in c.segment && '/' !in c.segment && '\n' !in c.segment &&
     ' ' !in c.index && '/' !in c.index && '\n' !in c.index)
  }

  /** What may follow a command on its line: nothing, a newline, a comment,
      or a space and anything after it. */
  predicate Trailing(t: string) {
    t == [] || t[0] == ' ' || t[0] == '\n' || StartsWith(t, "//")
  }

  /** The text of a command holds no space, slash or newline of its own
      except the separating spaces, and begins with a letter. */
  lemma RenderShape(c: Command)
    requires Renderable(c)
    ensures var w := Render(c); w != [] && w[0] != ' ' && w[0] != '/' && w[0] != '\n'
    ensures '/' !in Render(c) && '\n' !in Render(c)
  {
    if c.Push? {
      assert Render(c) == "push" + [' '] + c.segment + [' '] + c.index;
    } else if c.Pop? {
      assert Render(c) == "pop" + [' '] + c.segment + [' '] + c.index;
    } else {
      OpNameShape(c.op);
    }
  }

  lemma OpNameShape(op: Op)
    ensures var w := OpName(op); w != [] && ' ' !in w && '/' !in w && '\n' !in w
    ensures OpName(op) != "push" && OpName(op) != "pop"
  {
  }

  /** The parser reads back every command from its text, whatever spaces
      precede it and whatever comment, newline or further tokens follow. */
  lemma ParseRender(k: nat, c: Command, tail: string)
    requires Renderable(c) && Trailing(tail)
    ensures Parse(Spaces(k) + Render(c) + tail) == c
  {
    var w := Render(c);
    RenderShape(c);
    var line := w + tail;
    assert Spaces(k) + w + tail == Spaces(k) + line;
    NotBlank(w, tail);
    TrimSpaces(k, line);
    var r := CutComment(w, tail);
    ClassifyCommand(c, line, r);
  }

  lemma NotBlank(w: string, tail: string)
    requires w != [] && w[0] != ' ' && w[0] != '/' && w[0] != '\n'
    ensures (w + tail)[0] == w[0] && !IsBlank(w + tail)
  {
    assert (w + tail)[0] == w[0];
  }

  lemma ClassifyCommand(c: Command, line: string, r: string)
    requires Renderable(c) && (r == [] || r[0] == ' ')
    requires !IsBlank(line) && Before(Before(line, "//"), "\n") == Render(c) + r
    ensures Classify(line) == c
  {
    TokensOf(c, r);
    if c.Arithmetic? {
      OpNameShape(c.op);
      OpOfName(c.op);
    }
  }

  /** Cutting the comment and the newline off a command text followed by
      `tail` leaves the text followed by nothing or by a space. */
  lemma CutComment(w: string, tail: string) returns (r: string)
    requires '/' !in w && '\n' !in w && Trailing(tail)
    ensures Before(Before(w + tail, "//"), "\n") == w + r
    ensures r == [] || r[0] == ' '
  {
    BeforeConcat(w, tail, "//");
    var u := Before(tail, "//");
    BeforeConcat(w, u, "\n");
    r := Before(u, "\n");
    if tail == [] {
    } else if StartsWith(tail, "//") {
      FindHere(tail, "//");
    } else {
      BeforeKeepsHead(tail, "//");
      if tail[0] == '\n' {
        FindHere(u, "\n");
      } else {
        BeforeKeepsHead(u, "\n");
      }
    }
  }

  /** The tokens of a command text followed by nothing or by a space. */
  lemma TokensOf(c: Command, r: string)
    requires Renderable(c) && (r == [] || r[0] == ' ')
    ensures var tokens := Split(Render(c) + r, ' ');
      (c.Arithmetic? ==> tokens[0] == OpName(c.op)) &&
      ((c.Push? || c.Pop?) ==> |tokens| >= 3 && tokens[1] == c.segment && tokens[2] == c.index) &&
      (c.Push? ==> tokens[0] == "push") &&
      (c.Pop? ==> tokens[0] == "pop")
  {
    if c.Arithmetic? {
      OpNameShape(c.op);
      FirstToken(OpName(c.op), r);
    } else {
      var kw := if c.Push? then "push" else "pop";
      assert Render(c) == kw + " " + c.segment + " " + c.index;
      Regroup(kw, " ", c.segment, " ", c.index, r);
      OperandTokens(kw, c.segment, c.index, r);
    }
  }

  lemma Regroup<T>(a: seq<T>, b: seq<T>, c: seq<T>, d: seq<T>, e: seq<T>, f: seq<T>)
    ensures a + b + c + d + e + f == a + b + (c + d + (e + f))
  {
  }

  lemma OperandTokens(kw: string, segment: string, index: string, r: string)
    requires ' ' !in kw && ' ' !in segment && ' ' !in index
    requires r == [] || r[0] == ' '
    ensures var tokens := Split(kw + [' '] + (segment + [' '] + (index + r)), ' ');
      |tokens| >= 3 && tokens[0] == kw && tokens[1] == segment && tokens[2] == index
  {
    SplitFirst(kw, segment + [' '] + (index + r), ' ');
    SplitFirst(segment, index + r, ' ');
    FirstToken(index, r);
  }

  /** The first token of `w` followed by nothing or by a space is `w`. */
  lemma FirstToken(w: string, r: string)
    requires ' ' !in w && (r == [] || r[0] == ' ')
    ensures Split(w + r, ' ')[0] == w
  {
    if r == [] {
      assert w + r == w;
      SplitNone(w, ' ');
    } else {
      BeforeConcat(w, r, " ");
      FindHere(r, " ");
    }
  }
}
