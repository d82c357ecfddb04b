/** The simplest code generator (evaluator/compiler.go): a recursive
    tree-to-text translation that appends to a shared buffer, wrapped in a
    fixed header and footer. */
module EvalCodegen {
  import opened Wrappers
  import opened Strings
  import opened Ast
  import opened Emit
  import opened Mips

  const Indent := "    "
  const Header: seq<string> := [".text", ".globl main", "main:"]
  const Footer: seq<string> := ["    li $v0, 10", "    syscall"]

  predicate Indented(line: string) {
    |line| >= 4 && line[..4] == Indent
  }

  /** The final line of an infix expression; nothing for other operators. */
  function OperatorLine(op: string): seq<string> {
    if IsArithmetic(op) then ["    " + Mnemonic(op) + " $t0, $t1, $t2"] else []
  }

  /** The lines `generateMIPSCode` writes for a node. */
  function Code(n: Node): seq<string>
    decreases n
  {
    match n
    case Program(ss) => CodeAll(ss)
    case ExpressionStatement(e) => Code(e)
    case IntegerLiteral(v) => ["    li $t0, " + IntToString(v)]
    case InfixExpression(op, l, r) =>
      Code(l) + ["    move $t1, $t0"] + Code(r) + ["    move $t2, $t0"] + OperatorLine(op)
    case PrefixExpression(op, r) => if op == "-" then Code(r) + ["    neg $t0, $t0"] else []
    case _ => ["    # Unsupported node type: " + TypeName(n)]
  }

  /** The statements' lines, in order. */
  function CodeAll(ss: seq<Node>): seq<string>
    decreases ss
  {
    if ss == [] then [] else Code(ss[0]) + CodeAll(ss[1..])
  }

  /** Every line `generateMIPSCode` writes is indented by four spaces. */
  lemma {:induction false} CodeIndented(n: Node)
    ensures AllIndented(Code(n))
    decreases n
  {
    match n
    case Program(ss) => CodeAllIndented(ss);
    case ExpressionStatement(e) => CodeIndented(e);
    case IntegerLiteral(v) =>
    case InfixExpression(op, l, r) =>
      CodeIndented(l);
      CodeIndented(r);
      InfixIndented(n);
    case PrefixExpression(op, r) =>
      CodeIndented(r);
      PrefixIndented(n);
    case _ =>
  }

  lemma {:induction false} CodeAllIndented(ss: seq<Node>)
    ensures AllIndented(CodeAll(ss))
    decreases ss
  {
    if ss != [] {
      CodeIndented(ss[0]);
      CodeAllIndented(ss[1..]);
      IndentedAppend(Code(ss[0]), CodeAll(ss[1..]));
    }
  }

  predicate AllIndented(lines: seq<string>) {
    forall i :: 0 <= i < |lines| ==> Indented(lines[i])
  }

  lemma IndentedAppend(a: seq<string>, b: seq<string>)
    requires AllIndented(a) && AllIndented(b)
    ensures AllIndented(a + b)
  {
  }

  lemma InfixIndented(n: Node)
    requires n.InfixExpression? && AllIndented(Code(n.left)) && AllIndented(Code(n.right))
    ensures AllIndented(Code(n))
  {
    var a := Code(n.left) + ["    move $t1, $t0"];
    IndentedAppend(Code(n.left), ["    move $t1, $t0"]);
    IndentedAppend(a, Code(n.right));
    IndentedAppend(a + Code(n.right), ["    move $t2, $t0"]);
    IndentedAppend(a + Code(n.right) + ["    move $t2, $t0"], OperatorLine(n.operator));
  }

  lemma PrefixIndented(n: Node)
    requires n.PrefixExpression? && AllIndented(Code(n.right))
    ensures AllIndented(Code(n))
  {
    if n.operator == "-" {
      IndentedAppend(Code(n.right), ["    neg $t0, $t0"]);
    }
  }

  /** A program's code is the in-order concatenation of its statements' code. */
  lemma {:induction false} CodeAllAppend(a: seq<Node>, b: seq<Node>)
    ensures CodeAll(a + b) == CodeAll(a) + CodeAll(b)
    decreases |a|
  {
    if a != [] {
      assert (a + b)[1..] == a[1..] + b;
      CodeAllAppend(a[1..], b);
    } else {
      assert a + b == b;
    }
  }

  /** `generateMIPSCode`. */
  method GenerateMIPSCode(node: Node, code: Builder)
    modifies code
    ensures code.lines == old(code.lines) + Code(node)
    decreases node, 1
  {
    match node
    case Program(ss) =>
      GenerateStatements(ss, code);
    case ExpressionStatement(e) =>
      GenerateMIPSCode(e, code);
    case IntegerLiteral(v) =>
      code.WriteLine("    li $t0, " + IntToString(v));
    case InfixExpression(_, _, _) =>
      GenerateInfixCode(node, code);
    case PrefixExpression(op, r) =>
      if op == "-" {
        GenerateMIPSCode(r, code);
        code.WriteLine("    neg $t0, $t0");
      }
    case _ =>
      code.WriteLine("    # Unsupported node type: " + TypeName(node));
  }

  /** The `*ast.InfixExpression` case of `generateMIPSCode`: the left
      operand's code, its save to $t1, the right operand's code, its save
      to $t2, then the operator's line. */
  method GenerateInfixCode(node: Node, code: Builder)
    requires node.InfixExpression?
    modifies code
    ensures code.lines == old(code.lines) + Code(node)
    decreases node, 0
  {
    var op, l, r := node.operator, node.left, node.right;
    AppendFive(code.lines, Code(l), ["    move $t1, $t0"], Code(r), ["    move $t2, $t0"], OperatorLine(op));
    GenerateMIPSCode(l, code);
    code.WriteLine("    move $t1, $t0");
    GenerateMIPSCode(r, code);
    code.WriteLine("    move $t2, $t0");
    code.WriteLines(OperatorLine(op));
  }

  /** The loop over a program's statements. */
  method GenerateStatements(ss: seq<Node>, code: Builder)
    modifies code
    ensures code.lines == old(code.lines) + CodeAll(ss)
    decreases ss
  {
    for i := 0 to |ss|
      invariant code.lines == old(code.lines) + CodeAll(ss[..i])
    {
      GenerateMIPSCode(ss[i], code);
      CodeAllAppend(ss[..i], [ss[i]]);
      assert ss[..i + 1] == ss[..i] + [ss[i]];
    }
    assert ss[..|ss|] == ss;
  }

  /** `GenerateMIPS`: the text it writes to its output file. */
  method GenerateMIPS(node: Node) returns (text: string)
    ensures text == Text(Header + Code(node) + Footer)
  {
    var code := new Builder();
    code.WriteLine(".text");
    code.WriteLine(".globl main");
    code.WriteLine("main:");
    GenerateMIPSCode(node, code);
    code.WriteLine("    li $v0, 10");
    code.WriteLine("    syscall");
    assert code.lines == Header + Code(node) + Footer;
    text := Text(code.lines);
  }

  /** The generated file: the three header lines, the node's code, then the
      exit system call. */
  lemma GeneratedTextLayout(node: Node)
    ensures Text(Header + Code(node) + Footer)
         == ".text\n.globl main\nmain:\n" + Text(Code(node)) + "    li $v0, 10\n    syscall\n"
  {
    TextAppend(Header + Code(node), Footer);
    TextAppend(Header, Code(node));
    HeaderText();
    FooterText();
  }

  lemma HeaderText()
    ensures Text(Header) == ".text\n.globl main\nmain:\n"
  {
    assert Header == [".text"] + [".globl main"] + ["main:"];
    TextAppend([".text"] + [".globl main"], ["main:"]);
    TextAppend([".text"], [".globl main"]);
    TextOne(".text");
    TextOne(".globl main");
    TextOne("main:");
  }

  lemma FooterText()
    ensures Text(Footer) == "    li $v0, 10\n    syscall\n"
  {
    assert Footer == ["    li $v0, 10"] + ["    syscall"];
    TextAppend(["    li $v0, 10"], ["    syscall"]);
    TextOne("    li $v0, 10");
    TextOne("    syscall");
  }

  /** The instructions `generateMIPSCode` emits, as written. */
  function Instrs(n: Node): seq<Instr>
    decreases n
  {
    match n
    case Program(ss) => InstrsAll(ss)
    case ExpressionStatement(e) => Instrs(e)
    case IntegerLiteral(v) => [Li(T0, v)]
    case InfixExpression(op, l, r) =>
      Instrs(l) + [Move(T1, T0)] + Instrs(r) + [Move(T2, T0)] + OpInstrs(op, ThreeOperand, T0, T1, T2)
    case PrefixExpression(op, r) => if op == "-" then Instrs(r) + [Neg(T0, T0)] else []
    case _ => [Comment("# Unsupported node type: " + TypeName(n))]
  }

  function InstrsAll(ss: seq<Node>): seq<Instr>
    decreases ss
  {
    if ss == [] then [] else Instrs(ss[0]) + InstrsAll(ss[1..])
  }

  lemma RenderOne(i: Instr)
    ensures RenderAll(Indent, [i]) == Render(Indent, i)
  {
    assert [i][1..] == [];
  }

  /** The fixed lines of `generateMIPSCode`, spelled as the instructions
      render. */
  lemma MoveSpelling()
    ensures RenderAll(Indent, [Move(T1, T0)]) == ["    move $t1, $t0"]
    ensures RenderAll(Indent, [Move(T2, T0)]) == ["    move $t2, $t0"]
  {
    RenderOne(Move(T1, T0));
    RenderOne(Move(T2, T0));
    assert RegName(T0) == "$t0" && RegName(T1) == "$t1" && RegName(T2) == "$t2";
    assert Indent + "move " + "$t1" + ", " + "$t0" == "    move $t1, $t0";
    assert Indent + "move " + "$t2" + ", " + "$t0" == "    move $t2, $t0";
  }

  lemma NegSpelling()
    ensures RenderAll(Indent, [Neg(T0, T0)]) == ["    neg $t0, $t0"]
  {
    RenderOne(Neg(T0, T0));
    assert RegName(T0) == "$t0";
    assert Indent + "neg " + "$t0" + ", " + "$t0" == "    neg $t0, $t0";
  }

  lemma ThreeSpelling(name: string)
    ensures Three(Indent, name, T0, T1, T2) == "    " + name + " $t0, $t1, $t2"
  {
    assert RegName(T0) == "$t0" && RegName(T1) == "$t1" && RegName(T2) == "$t2";
    assert ", " + "$t1" + ", " + "$t2" == ", $t1, $t2";
    assert " " + "$t0" + ", $t1, $t2" == " $t0, $t1, $t2";
  }

  lemma OperatorLineRendering(op: string)
    ensures OperatorLine(op) == RenderAll(Indent, OpInstrs(op, ThreeOperand, T0, T1, T2))
  {
    if IsArithmetic(op) {
      var code := OpInstrs(op, ThreeOperand, T0, T1, T2);
      assert |code| == 1;
      RenderOne(code[0]);
      assert Render(Indent, code[0]) == [Three(Indent, Mnemonic(op), T0, T1, T2)];
      ThreeSpelling(Mnemonic(op));
    }
  }

  lemma UnsupportedRendering(name: string)
    ensures RenderAll(Indent, [Comment("# Unsupported node type: " + name)])
         == ["    # Unsupported node type: " + name]
  {
    var c := "# Unsupported node type: " + name;
    RenderOne(Comment(c));
    var p := Indent + "# Unsupported node type: ";
    assert p == "    # Unsupported node type: ";
    assert Indent + c == p + name;
  }

  lemma InfixRendering(op: string, il: seq<Instr>, ir: seq<Instr>)
    ensures RenderAll(Indent, il) + ["    move $t1, $t0"] + RenderAll(Indent, ir) + ["    move $t2, $t0"] + OperatorLine(op)
         == RenderAll(Indent, il + [Move(T1, T0)] + ir + [Move(T2, T0)] + OpInstrs(op, ThreeOperand, T0, T1, T2))
  {
    var ops := OpInstrs(op, ThreeOperand, T0, T1, T2);
    var a := il + [Move(T1, T0)];
    var b := a + ir;
    var c := b + [Move(T2, T0)];
    MoveSpelling();
    OperatorLineRendering(op);
    RenderAllAppend(Indent, c, ops);
    RenderAllAppend(Indent, b, [Move(T2, T0)]);
    RenderAllAppend(Indent, a, ir);
    RenderAllAppend(Indent, il, [Move(T1, T0)]);
  }

  /** The text is exactly the rendering of the instruction list, so running
      the instruction list is running the text. */
  lemma {:induction false} CodeIsRendering(n: Node)
    ensures Code(n) == RenderAll(Indent, Instrs(n))
    decreases n
  {
    match n
    case Program(ss) => CodeAllIsRendering(ss);
    case ExpressionStatement(e) => CodeIsRendering(e);
    case IntegerLiteral(v) => LiteralIsRendering(v);
    case InfixExpression(op, l, r) =>
      CodeIsRendering(l);
      CodeIsRendering(r);
      InfixIsRendering(n);
    case PrefixExpression(op, r) =>
      CodeIsRendering(r);
      PrefixIsRendering(n);
    case _ => UnsupportedIsRendering(n);
  }

  lemma LiteralIsRendering(v: int)
    ensures Code(IntegerLiteral(v)) == RenderAll(Indent, Instrs(IntegerLiteral(v)))
  {
    RenderOne(Li(T0, v));
    var p := Indent + "li " + "$t0" + ", ";
    assert p == "    li $t0, ";
    assert Render(Indent, Li(T0, v)) == [p + IntToString(v)];
  }

  lemma InfixIsRendering(n: Node)
    requires n.InfixExpression?
    requires Code(n.left) == RenderAll(Indent, Instrs(n.left))
    requires Code(n.right) == RenderAll(Indent, Instrs(n.right))
    ensures Code(n) == RenderAll(Indent, Instrs(n))
  {
    InfixRendering(n.operator, Instrs(n.left), Instrs(n.right));
  }

  lemma PrefixIsRendering(n: Node)
    requires n.PrefixExpression?
    requires Code(n.right) == RenderAll(Indent, Instrs(n.right))
    ensures Code(n) == RenderAll(Indent, Instrs(n))
  {
    if n.operator == "-" {
      RenderAllAppend(Indent, Instrs(n.right), [Neg(T0, T0)]);
      NegSpelling();
    }
  }

  lemma UnsupportedIsRendering(n: Node)
    requires !n.Program? && !n.ExpressionStatement? && !n.IntegerLiteral?
    requires !n.InfixExpression? && !n.PrefixExpression?
    ensures Code(n) == RenderAll(Indent, Instrs(n))
  {
    UnsupportedRendering(TypeName(n));
  }

  lemma {:induction false} CodeAllIsRendering(ss: seq<Node>)
    ensures CodeAll(ss) == RenderAll(Indent, InstrsAll(ss))
    decreases ss
  {
    if ss != [] {
      CodeIsRendering(ss[0]);
      CodeAllIsRendering(ss[1..]);
      RenderAllAppend(Indent, Instrs(ss[0]), InstrsAll(ss[1..]));
    }
  }

  /** Expressions with a value whose code contains no infix operation:
      literals under any number of negations. */
  predicate NoInfix(e: Node) {
    match e
    case IntegerLiteral(_) => true
    case PrefixExpression(op, r) => NoInfix(r)
    case _ => false
  }

  /** Every right operand, at every level, is free of infix operations:
      left-leaning chains such as `5 + 5 + 5 + 5 - 10`. */
  predicate RightShallow(e: Node) {
    match e
    case InfixExpression(_, l, r) => RightShallow(l) && NoInfix(r)
    case PrefixExpression(_, r) => RightShallow(r)
    case _ => true
  }

  /** Code for an infix-free operand writes only $t0. */
  lemma {:induction false} NoInfixKeepsT1(e: Node, m: Machine)
    requires NoInfix(e) && Eval(e).Some?
    ensures Get(Exec(m, Instrs(e)), T0) == Eval(e).value
    ensures Get(Exec(m, Instrs(e)), T1) == Get(m, T1)
    ensures Exec(m, Instrs(e)).stack == m.stack
    decreases e
  {
    match e
    case IntegerLiteral(_) =>
    case PrefixExpression(op, r) =>
      NoInfixKeepsT1(r, m);
      ExecAppend(m, Instrs(r), [Neg(T0, T0)]);
  }

  /** As written, the code is right for left-leaning expressions: $t1 is only
      clobbered by an infix operation inside a right operand. */
  lemma {:induction false} AsWrittenCorrectWhenRightShallow(e: Node, m: Machine)
    requires Eval(e).Some? && RightShallow(e)
    ensures Get(Exec(m, Instrs(e)), T0) == Eval(e).value
    ensures Exec(m, Instrs(e)).stack == m.stack
    decreases e
  {
    match e
    case IntegerLiteral(_) =>
    case PrefixExpression(op, r) =>
      AsWrittenCorrectWhenRightShallow(r, m);
      ExecAppend(m, Instrs(r), [Neg(T0, T0)]);
    case InfixExpression(op, l, r) =>
      var ops := OpInstrs(op, ThreeOperand, T0, T1, T2);
      AsWrittenCorrectWhenRightShallow(l, m);
      var m1 := Step(Exec(m, Instrs(l)), Move(T1, T0));
      NoInfixKeepsT1(r, m1);
      var m2 := Step(Exec(m1, Instrs(r)), Move(T2, T0));
      InfixExec(Instrs(l), Instrs(r), T1, T2, ops, m);
      OpInstrsMeaning(op, ThreeOperand, T1, T2, m2);
  }

  /** After the code of an operation whose right operand is infix-free, $t1
      still holds the value of the operation's left operand. */
  lemma LeftValueStaysInT1(r: Node, m: Machine)
    requires r.InfixExpression? && Eval(r).Some? && RightShallow(r)
    ensures Get(Exec(m, Instrs(r)), T1) == Eval(r.left).value
  {
    var ops := OpInstrs(r.operator, ThreeOperand, T0, T1, T2);
    AsWrittenCorrectWhenRightShallow(r.left, m);
    var m1 := Step(Exec(m, Instrs(r.left)), Move(T1, T0));
    NoInfixKeepsT1(r.right, m1);
    var m2 := Step(Exec(m1, Instrs(r.right)), Move(T2, T0));
    InfixExec(Instrs(r.left), Instrs(r.right), T1, T2, ops, m);
    OpInstrsMeaning(r.operator, ThreeOperand, T1, T2, m2);
  }

  /** The discrepancy in general: when the right operand is itself an
      operation, its own `move $t1, $t0` overwrites the saved left operand,
      and the outer operation combines the right operand's left operand with
      the right operand's value. */
  lemma RightOperationClobbersLeft(op: string, l: Node, r: Node, m: Machine)
    requires IsArithmetic(op) && Eval(l).Some? && RightShallow(l)
    requires r.InfixExpression? && Eval(r).Some? && RightShallow(r)
    ensures Get(Exec(m, Instrs(InfixExpression(op, l, r))), T0)
         == Apply(op, Eval(r.left).value, Eval(r).value)
  {
    var ops := OpInstrs(op, ThreeOperand, T0, T1, T2);
    AsWrittenCorrectWhenRightShallow(l, m);
    var m1 := Step(Exec(m, Instrs(l)), Move(T1, T0));
    AsWrittenCorrectWhenRightShallow(r, m1);
    LeftValueStaysInT1(r, m1);
    var m2 := Step(Exec(m1, Instrs(r)), Move(T2, T0));
    InfixExec(Instrs(l), Instrs(r), T1, T2, ops, m);
    OpInstrsMeaning(op, ThreeOperand, T1, T2, m2);
  }

  /** The input that shows it: `1 + (2 + 3)` is 6, but the code leaves
      2 + 5 = 7 in $t0. */
  lemma RightNestedSumGivesSeven(m: Machine)
    ensures var e := InfixExpression("+", IntegerLiteral(1),
                       InfixExpression("+", IntegerLiteral(2), IntegerLiteral(3)));
      Eval(e) == Some(6) && Get(Exec(m, Instrs(e)), T0) == 7
  {
    RightOperationClobbersLeft("+", IntegerLiteral(1),
      InfixExpression("+", IntegerLiteral(2), IntegerLiteral(3)), m);
  }

  /** The corrected translation: the left operand is kept on the stack while
      the right one is computed. Everything else is as in `Instrs`. */
  function FixedInstrs(n: Node): seq<Instr>
    decreases n
  {
    match n
    case Program(ss) => FixedInstrsAll(ss)
    case ExpressionStatement(e) => FixedInstrs(e)
    case IntegerLiteral(v) => [Li(T0, v)]
    case InfixExpression(op, l, r) =>
      FixedInstrs(l) + [Push(T0)] + FixedInstrs(r) + [Move(T2, T0), Pop(T1)] + OpInstrs(op, ThreeOperand, T0, T1, T2)
    case PrefixExpression(op, r) => if op == "-" then FixedInstrs(r) + [Neg(T0, T0)] else []
    case _ => [Comment("# Unsupported node type: " + TypeName(n))]
  }

  function FixedInstrsAll(ss: seq<Node>): seq<Instr>
    decreases ss
  {
    if ss == [] then [] else FixedInstrs(ss[0]) + FixedInstrsAll(ss[1..])
  }

  /** The corrected text. */
  function FixedCode(n: Node): seq<string> {
    RenderAll(Indent, FixedInstrs(n))
  }

  /** The corrected code computes every expression's value into $t0 and
      leaves the stack as it found it. */
  lemma {:induction false} FixedCodeCorrect(e: Node, m: Machine)
    requires Eval(e).Some?
    ensures Get(Exec(m, FixedInstrs(e)), T0) == Eval(e).value
    ensures Exec(m, FixedInstrs(e)).stack == m.stack
    decreases e
  {
    match e
    case IntegerLiteral(v) =>
    case PrefixExpression(op, r) =>
      FixedCodeCorrect(r, m);
      ExecAppend(m, FixedInstrs(r), [Neg(T0, T0)]);
    case InfixExpression(op, l, r) =>
      FixedCodeCorrect(l, m);
      FixedCodeCorrect(r, Step(Exec(m, FixedInstrs(l)), Push(T0)));
      InfixStackCode(FixedInstrs(l), FixedInstrs(r), op, ThreeOperand, m, Eval(l).value, Eval(r).value);
  }
}
