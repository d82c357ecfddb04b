/** The precedence-aware generator (compiler/mips_gen.go): a `MIPSGenerator`
    object that walks the tree and appends one instruction per line to its
    buffer. It handles programs, expression statements, integer literals and
    infix operations; each expression statement prints its value. */
module MipsGen {
  import opened Wrappers
  import opened Strings
  import opened Ast
  import opened Emit
  import opened Mips

  const HeaderLines: seq<string> := [".data", "newline: .asciiz \"\\n\"", ".text", ".globl main", "main:"]
  const FooterLines: seq<string> := ["li $v0, 10", "syscall"]
  /** Print $t0 as an integer, then a newline. */
  const PrintIntLines: seq<string> :=
    ["move $a0, $t0", "li $v0, 1", "syscall", "la $a0, newline", "li $v0, 4", "syscall"]

  function LoadImmediate(register: string, value: int): string {
    "li " + register + ", " + IntToString(value)
  }

  /** `getOperatorPrecedence`: multiplicative operators bind tightest, then
      additive ones, then everything else. */
  function Precedence(op: string): (p: int)
    ensures 1 <= p <= 3
    ensures p == 3 <==> (op == "*" || op == "/")
    ensures p == 2 <==> (op == "+" || op == "-")
  {
    if op == "*" || op == "/" then 3
    else if op == "+" || op == "-" then 2
    else 1
  }

  /** `shouldParenthesize` for an infix node with these parts. */
  function ShouldParenthesize(op: string, left: Node, right: Node): bool {
    (left.InfixExpression? && Precedence(left.operator) < Precedence(op))
    || (right.InfixExpression? && Precedence(right.operator) <= Precedence(op))
  }

  /** The registers an infix operation saves its left and right operands
      in: $s0/$s1 when it is parenthesized, $t1/$t2 otherwise. */
  function SaveRegisters(op: string, left: Node, right: Node): (regs: (Reg, Reg))
    ensures regs.0 != regs.1 && regs.0 != T0 && regs.1 != T0
  {
    if ShouldParenthesize(op, left, right) then (S0, S1) else (T1, T2)
  }

  /** The lines of an infix operation after its operands: the two saves and
      the operation, over $s0/$s1 or $t1/$t2. */
  function SaveLeftLine(parenthesized: bool): string {
    if parenthesized then "move $s0, $t0" else "move $t1, $t0"
  }

  function SaveRightLine(parenthesized: bool): string {
    if parenthesized then "move $s1, $t0" else "move $t2, $t0"
  }

  /** The lines computing the operation into $t0; nothing for operators
      other than the four arithmetic ones. */
  function OperationLines(op: string, parenthesized: bool): seq<string> {
    if parenthesized then
      if op == "+" then ["add $t0, $s0, $s1"]
      else if op == "-" then ["sub $t0, $s0, $s1"]
      else if op == "*" then ["mul $t0, $s0, $s1"]
      else if op == "/" then ["div $s0, $s1", "mflo $t0"]
      else []
    else
      if op == "+" then ["add $t0, $t1, $t2"]
      else if op == "-" then ["sub $t0, $t1, $t2"]
      else if op == "*" then ["mul $t0, $t1, $t2"]
      else if op == "/" then ["div $t1, $t2", "mflo $t0"]
      else []
  }

  /** The lines `visitNode` appends for a node. */
  function Visit(n: Node): seq<string>
    decreases n
  {
    match n
    case Program(ss) => HeaderLines + VisitAll(ss) + FooterLines
    case ExpressionStatement(e) => Visit(e) + PrintIntLines
    case IntegerLiteral(v) => [LoadImmediate("$t0", v)]
    case InfixExpression(op, l, r) =>
      var p := ShouldParenthesize(op, l, r);
      Visit(l) + [SaveLeftLine(p)] + Visit(r) + [SaveRightLine(p)] + OperationLines(op, p)
    case _ => []
  }

  function VisitAll(ss: seq<Node>): seq<string>
    decreases ss
  {
    if ss == [] then [] else Visit(ss[0]) + VisitAll(ss[1..])
  }

  lemma {:induction false} VisitAllAppend(a: seq<Node>, b: seq<Node>)
    ensures VisitAll(a + b) == VisitAll(a) + VisitAll(b)
    decreases |a|
  {
    if a != [] {
      assert (a + b)[1..] == a[1..] + b;
      VisitAllAppend(a[1..], b);
    } else {
      assert a + b == b;
    }
  }

  /** Each argument of a `SpeakNow` call, evaluated and printed in turn. */
  function PrintEach(args: seq<Node>): seq<string> {
    if args == [] then [] else Visit(args[0]) + PrintIntLines + PrintEach(args[1..])
  }

  lemma {:induction false} PrintEachAppend(a: seq<Node>, b: seq<Node>)
    ensures PrintEach(a + b) == PrintEach(a) + PrintEach(b)
    decreases |a|
  {
    if a != [] {
      assert (a + b)[1..] == a[1..] + b;
      PrintEachAppend(a[1..], b);
    } else {
      assert a + b == b;
    }
  }

  lemma PrintEachSnoc(args: seq<Node>, i: int)
    requires 0 <= i < |args|
    ensures PrintEach(args[..i + 1]) == PrintEach(args[..i]) + Visit(args[i]) + PrintIntLines
  {
    assert args[..i + 1] == args[..i] + [args[i]];
    PrintEachAppend(args[..i], [args[i]]);
    assert PrintEach([args[i]]) == Visit(args[i]) + PrintIntLines + PrintEach([]);
  }

  /** The lines `visitCallExpression` appends: the printed arguments of a
      call to `SpeakNow`, nothing for any other callee. */
  function CallLines(callee: Node, args: seq<Node>): seq<string> {
    if callee.Variable? && callee.ident == "SpeakNow" then PrintEach(args) else []
  }

  class MIPSGenerator {
    var code: seq<string>
    var labelCount: int
    var stackOffset: int

    /** `NewMIPSGenerator`. */
    constructor ()
      ensures code == [] && labelCount == 0 && stackOffset == 0
    {
      code := [];
      labelCount := 0;
      stackOffset := 0;
    }

    /** Walks the node and returns the whole buffer, including whatever an
        earlier call left in it. */
    method Generate(node: Node) returns (text: string)
      modifies this
      ensures code == old(code) + Visit(node) && text == Text(code)
      ensures labelCount == old(labelCount) && stackOffset == old(stackOffset)
    {
      VisitNode(node);
      text := Text(code);
    }

    method Emit(instruction: string)
      modifies this
      ensures code == old(code) + [instruction]
      ensures labelCount == old(labelCount) && stackOffset == old(stackOffset)
    {
      code := code + [instruction];
    }

    method EmitLines(lines: seq<string>)
      modifies this
      ensures code == old(code) + lines
      ensures labelCount == old(labelCount) && stackOffset == old(stackOffset)
    {
      for i := 0 to |lines|
        invariant code == old(code) + lines[..i]
        invariant labelCount == old(labelCount) && stackOffset == old(stackOffset)
      {
        Emit(lines[i]);
        assert lines[..i + 1] == lines[..i] + [lines[i]];
      }
      assert lines[..|lines|] == lines;
    }

    method EmitLoadImmediate(register: string, value: int)
      modifies this
      ensures code == old(code) + [LoadImmediate(register, value)]
      ensures labelCount == old(labelCount) && stackOffset == old(stackOffset)
    {
      Emit("li " + register + ", " + IntToString(value));
    }

    method EmitHeader()
      modifies this
      ensures code == old(code) + HeaderLines
      ensures labelCount == old(labelCount) && stackOffset == old(stackOffset)
    {
      EmitLines(HeaderLines);
    }

    method EmitFooter()
      modifies this
      ensures code == old(code) + FooterLines
      ensures labelCount == old(labelCount) && stackOffset == old(stackOffset)
    {
      EmitLines(FooterLines);
    }

    method EmitPrintInt()
      modifies this
      ensures code == old(code) + PrintIntLines
      ensures labelCount == old(labelCount) && stackOffset == old(stackOffset)
    {
      EmitLines(PrintIntLines);
    }

    method VisitNode(node: Node)
      modifies this
      ensures code == old(code) + Visit(node)
      ensures labelCount == old(labelCount) && stackOffset == old(stackOffset)
      decreases node, 1
    {
      match node
      case Program(ss) =>
        EmitHeader();
        VisitStatements(ss);
        EmitFooter();
      case ExpressionStatement(e) =>
        VisitNode(e);
        EmitPrintInt();
      case IntegerLiteral(v) =>
        EmitLoadImmediate("$t0", v);
      case InfixExpression(_, _, _) =>
        VisitInfixExpression(node);
      case _ =>
    }

    /** The loop over a program's statements. */
    method VisitStatements(ss: seq<Node>)
      modifies this
      ensures code == old(code) + VisitAll(ss)
      ensures labelCount == old(labelCount) && stackOffset == old(stackOffset)
      decreases ss, 1
    {
      for i := 0 to |ss|
        invariant code == old(code) + VisitAll(ss[..i])
        invariant labelCount == old(labelCount) && stackOffset == old(stackOffset)
      {
        VisitNode(ss[i]);
        VisitAllAppend(ss[..i], [ss[i]]);
        assert ss[..i + 1] == ss[..i] + [ss[i]];
      }
      assert ss[..|ss|] == ss;
    }

    method VisitInfixExpression(node: Node)
      requires node.InfixExpression?
      modifies this
      ensures code == old(code) + Visit(node)
      ensures labelCount == old(labelCount) && stackOffset == old(stackOffset)
      decreases node, 0
    {
      var op, l, r := node.operator, node.left, node.right;
      ghost var p := ShouldParenthesize(op, l, r);
      AppendFive(code, Visit(l), [SaveLeftLine(p)], Visit(r), [SaveRightLine(p)], OperationLines(op, p));
      if ShouldParenthesize(op, l, r) {
        VisitNode(l);
        Emit("move $s0, $t0");
        VisitNode(r);
        Emit("move $s1, $t0");
        EmitOperation(op, true);
      } else {
        VisitNode(l);
        Emit("move $t1, $t0");
        VisitNode(r);
        Emit("move $t2, $t0");
        EmitOperation(op, false);
      }
    }

    /** The operator switch at the end of either branch of
        `visitInfixExpression`. */
    method EmitOperation(op: string, parenthesized: bool)
      modifies this
      ensures code == old(code) + OperationLines(op, parenthesized)
      ensures labelCount == old(labelCount) && stackOffset == old(stackOffset)
    {
      if parenthesized {
        if op == "+" {
          Emit("add $t0, $s0, $s1");
        } else if op == "-" {
          Emit("sub $t0, $s0, $s1");
        } else if op == "*" {
          Emit("mul $t0, $s0, $s1");
        } else if op == "/" {
          Emit("div $s0, $s1");
          Emit("mflo $t0");
        }
      } else {
        if op == "+" {
          Emit("add $t0, $t1, $t2");
        } else if op == "-" {
          Emit("sub $t0, $t1, $t2");
        } else if op == "*" {
          Emit("mul $t0, $t1, $t2");
        } else if op == "/" {
          Emit("div $t1, $t2");
          Emit("mflo $t0");
        }
      }
    }

    /** One `SpeakNow` argument: its value, then the syscall printing it. */
    method PrintArgument(arg: Node)
      modifies this
      ensures code == old(code) + Visit(arg) + PrintIntLines
      ensures labelCount == old(labelCount) && stackOffset == old(stackOffset)
    {
      VisitNode(arg);
      EmitPrintInt();
    }

    /** `visitCallExpression`: `SpeakNow(a, b, ...)` prints each argument. */
    method VisitCallExpression(node: Node)
      requires node.CallExpression?
      modifies this
      ensures code == old(code) + CallLines(node.callee, node.arguments)
      ensures labelCount == old(labelCount) && stackOffset == old(stackOffset)
    {
      if node.callee.Variable? && node.callee.ident == "SpeakNow" {
        var args := node.arguments;
        for i := 0 to |args|
          invariant code == old(code) + PrintEach(args[..i])
          invariant labelCount == old(labelCount) && stackOffset == old(stackOffset)
        {
          PrintArgument(args[i]);
          PrintEachSnoc(args, i);
          assert code == old(code) + (PrintEach(args[..i]) + Visit(args[i]) + PrintIntLines);
        }
        assert args[..|args|] == args;
      }
    }
  }
}

/** What the text of `MipsGen` computes: its instruction lists, run on the
    machine of `Mips`, compared with `Mips.Eval`. */
module MipsGenMeaning {
  import opened Wrappers
  import opened Ast
  import opened Emit
  import opened Mips
  import opened MipsGen

  /** Expressions `visitNode` translates: integer literals and the four
      arithmetic operators. */
  predicate Supported(e: Node) {
    match e
    case IntegerLiteral(_) => true
    case InfixExpression(op, l, r) => IsArithmetic(op) && Supported(l) && Supported(r)
    case _ => false
  }

  /** The instructions `visitNode` emits for an expression, as written. */
  function Instrs(e: Node): seq<Instr> {
    match e
    case IntegerLiteral(v) => [Li(T0, v)]
    case InfixExpression(op, l, r) =>
      var (a, b) := SaveRegisters(op, l, r);
      Instrs(l) + [Move(a, T0)] + Instrs(r) + [Move(b, T0)] + OpInstrs(op, ThroughLo, T0, a, b)
    case _ => []
  }

  lemma RenderOne(i: Instr)
    ensures RenderAll("", [i]) == Render("", i)
  {
    assert [i][1..] == [];
  }

  lemma LoadSpelling(v: int)
    ensures RenderAll("", [Li(T0, v)]) == [LoadImmediate("$t0", v)]
  {
    RenderOne(Li(T0, v));
    assert "" + "li " + "$t0" == "li " + "$t0";
  }

  lemma SaveSpelling(p: bool)
    ensures var (a, b) := if p then (S0, S1) else (T1, T2);
      && RenderAll("", [Move(a, T0)]) == [SaveLeftLine(p)]
      && RenderAll("", [Move(b, T0)]) == [SaveRightLine(p)]
  {
    var (a, b) := if p then (S0, S1) else (T1, T2);
    RenderOne(Move(a, T0));
    RenderOne(Move(b, T0));
    if p {
      assert "" + "move " + "$s0" + ", " + "$t0" == "move $s0, $t0";
      assert "" + "move " + "$s1" + ", " + "$t0" == "move $s1, $t0";
    } else {
      assert "" + "move " + "$t1" + ", " + "$t0" == "move $t1, $t0";
      assert "" + "move " + "$t2" + ", " + "$t0" == "move $t2, $t0";
    }
  }

  lemma ThreeSpelling(name: string, a: Reg, b: Reg)
    requires (a, b) == (S0, S1) || (a, b) == (T1, T2)
    ensures Three("", name, T0, a, b)
         == name + (if a == S0 then " $t0, $s0, $s1" else " $t0, $t1, $t2")
  {
    if a == S0 {
      assert "" + name + " " + "$t0" + ", " + "$s0" + ", " + "$s1" == name + " $t0, $s0, $s1";
    } else {
      assert "" + name + " " + "$t0" + ", " + "$t1" + ", " + "$t2" == name + " $t0, $t1, $t2";
    }
  }

  lemma DivSpelling(p: bool)
    ensures var (a, b) := if p then (S0, S1) else (T1, T2);
      RenderAll("", [Div(a, b), Mflo(T0)]) == OperationLines("/", p)
  {
    var (a, b) := if p then (S0, S1) else (T1, T2);
    assert [Div(a, b), Mflo(T0)][1..] == [Mflo(T0)];
    RenderOne(Mflo(T0));
    assert "" + "mflo " + "$t0" == "mflo $t0";
    if p {
      assert "" + "div " + "$s0" + ", " + "$s1" == "div $s0, $s1";
    } else {
      assert "" + "div " + "$t1" + ", " + "$t2" == "div $t1, $t2";
    }
  }

  lemma ArithmeticSpelling(op: string, a: Reg, b: Reg, line: string)
    requires op == "+" || op == "-" || op == "*"
    requires (a, b) == (S0, S1) || (a, b) == (T1, T2)
    requires line == Mnemonic(op) + (if a == S0 then " $t0, $s0, $s1" else " $t0, $t1, $t2")
    ensures RenderAll("", OpInstrs(op, ThroughLo, T0, a, b)) == [line]
  {
    var i := OpInstrs(op, ThroughLo, T0, a, b)[0];
    assert OpInstrs(op, ThroughLo, T0, a, b) == [i];
    RenderOne(i);
    assert Render("", i) == [Three("", Mnemonic(op), T0, a, b)];
    ThreeSpelling(Mnemonic(op), a, b);
  }

  lemma OperationSpelling(op: string, p: bool)
    ensures var (a, b) := if p then (S0, S1) else (T1, T2);
      RenderAll("", OpInstrs(op, ThroughLo, T0, a, b)) == OperationLines(op, p)
  {
    if op == "/" {
      DivSpelling(p);
    } else if op == "+" || op == "-" || op == "*" {
      ThreeOperandSpelling(op, p);
    }
  }

  lemma ThreeOperandSpelling(op: string, p: bool)
    requires op == "+" || op == "-" || op == "*"
    ensures var (a, b) := if p then (S0, S1) else (T1, T2);
      RenderAll("", OpInstrs(op, ThroughLo, T0, a, b)) == OperationLines(op, p)
  {
    var (a, b) := if p then (S0, S1) else (T1, T2);
    var tail := if p then " $t0, $s0, $s1" else " $t0, $t1, $t2";
    if op == "+" {
      assert "add" + tail == OperationLines(op, p)[0];
    } else if op == "-" {
      assert "sub" + tail == OperationLines(op, p)[0];
    } else {
      assert "mul" + tail == OperationLines(op, p)[0];
    }
    ArithmeticSpelling(op, a, b, OperationLines(op, p)[0]);
  }

  lemma InfixRendering(op: string, p: bool, il: seq<Instr>, ir: seq<Instr>)
    ensures var (a, b) := if p then (S0, S1) else (T1, T2);
      RenderAll("", il) + [SaveLeftLine(p)] + RenderAll("", ir) + [SaveRightLine(p)] + OperationLines(op, p)
      == RenderAll("", il + [Move(a, T0)] + ir + [Move(b, T0)] + OpInstrs(op, ThroughLo, T0, a, b))
  {
    var (a, b) := if p then (S0, S1) else (T1, T2);
    var ops := OpInstrs(op, ThroughLo, T0, a, b);
    var x := il + [Move(a, T0)];
    var y := x + ir;
    var z := y + [Move(b, T0)];
    SaveSpelling(p);
    OperationSpelling(op, p);
    RenderAllAppend("", z, ops);
    RenderAllAppend("", y, [Move(b, T0)]);
    RenderAllAppend("", x, ir);
    RenderAllAppend("", il, [Move(a, T0)]);
  }

  /** The text `visitNode` writes for a supported expression is the
      rendering of `Instrs`, so running `Instrs` is running the text. */
  lemma {:induction false} VisitIsRendering(e: Node)
    requires Supported(e)
    ensures Visit(e) == RenderAll("", Instrs(e))
  {
    match e
    case IntegerLiteral(v) => LoadSpelling(v);
    case InfixExpression(op, l, r) =>
      VisitIsRendering(l);
      VisitIsRendering(r);
      InfixRendering(op, ShouldParenthesize(op, l, r), Instrs(l), Instrs(r));
  }

  /** Some infix node inside `e` is parenthesized, and so writes $s0. */
  predicate WritesS0(e: Node) {
    match e
    case InfixExpression(op, l, r) => ShouldParenthesize(op, l, r) || WritesS0(l) || WritesS0(r)
    case _ => false
  }

  /** Some infix node inside `e` is not parenthesized, and so writes $t1. */
  predicate WritesT1(e: Node) {
    match e
    case InfixExpression(op, l, r) => !ShouldParenthesize(op, l, r) || WritesT1(l) || WritesT1(r)
    case _ => false
  }

  /** The code of an expression keeps the stack, keeps $s0 unless a
      parenthesized node inside writes it, and keeps $t1 unless an
      unparenthesized one does. */
  lemma {:induction false} Frame(e: Node, m: Machine)
    requires Supported(e)
    ensures Exec(m, Instrs(e)).stack == m.stack
    ensures !WritesS0(e) ==> Get(Exec(m, Instrs(e)), S0) == Get(m, S0)
    ensures !WritesT1(e) ==> Get(Exec(m, Instrs(e)), T1) == Get(m, T1)
  {
    match e
    case IntegerLiteral(_) =>
    case InfixExpression(op, l, r) =>
      var (a, b) := SaveRegisters(op, l, r);
      var m1 := Step(Exec(m, Instrs(l)), Move(a, T0));
      var m2 := Step(Exec(m1, Instrs(r)), Move(b, T0));
      Frame(l, m);
      Frame(r, m1);
      InfixExec(Instrs(l), Instrs(r), a, b, OpInstrs(op, ThroughLo, T0, a, b), m);
      OpInstrsMeaning(op, ThroughLo, a, b, m2);
  }

  /** No right operand, at any level, writes the register its parent saved
      the left operand in. */
  predicate Safe(e: Node) {
    match e
    case InfixExpression(op, l, r) =>
      && Safe(l) && Safe(r)
      && (if ShouldParenthesize(op, l, r) then !WritesS0(r) else !WritesT1(r))
    case _ => true
  }

  /** As written, the code computes the expression's value whenever no
      right operand clobbers its parent's saved left operand; the saved left
      operand is still in place at the end. */
  lemma {:induction false} AsWrittenCorrectWhenSafe(e: Node, m: Machine)
    requires Supported(e) && Safe(e) && Eval(e).Some?
    ensures Get(Exec(m, Instrs(e)), T0) == Eval(e).value
    ensures e.InfixExpression? ==>
      Get(Exec(m, Instrs(e)), SaveRegisters(e.operator, e.left, e.right).0) == Eval(e.left).value
  {
    match e
    case IntegerLiteral(_) =>
    case InfixExpression(op, l, r) =>
      var (a, b) := SaveRegisters(op, l, r);
      var m1 := Step(Exec(m, Instrs(l)), Move(a, T0));
      var m2 := Step(Exec(m1, Instrs(r)), Move(b, T0));
      AsWrittenCorrectWhenSafe(l, m);
      AsWrittenCorrectWhenSafe(r, m1);
      Frame(r, m1);
      assert Get(m2, a) == Eval(l).value && Get(m2, b) == Eval(r).value;
      InfixExec(Instrs(l), Instrs(r), a, b, OpInstrs(op, ThroughLo, T0, a, b), m);
      OpInstrsMeaning(op, ThroughLo, a, b, m2);
  }

  /** Right operands that are literals: the trees a left-associative parse
      of `5 + 5 + 5 + 5 - 10` or `2 * 3 - 4` produces. */
  predicate LiteralRightOperands(e: Node) {
    match e
    case InfixExpression(_, l, r) => LiteralRightOperands(l) && r.IntegerLiteral?
    case _ => true
  }

  lemma {:induction false} LiteralRightOperandsSafe(e: Node)
    requires LiteralRightOperands(e)
    ensures Safe(e)
  {
    match e
    case InfixExpression(_, l, r) => LiteralRightOperandsSafe(l);
    case _ =>
  }

  /** The discrepancy: in `1*2 + 3*4` no node is parenthesized, so the
      right product's own `move $t1, $t0` overwrites the saved 2, and the
      code leaves 15 in $t0 instead of 14. */
  lemma ProductSumGivesFifteen(m: Machine)
    ensures var e := InfixExpression("+",
                       InfixExpression("*", IntegerLiteral(1), IntegerLiteral(2)),
                       InfixExpression("*", IntegerLiteral(3), IntegerLiteral(4)));
      Eval(e) == Some(14) && !ShouldParenthesize(e.operator, e.left, e.right)
      && Get(Exec(m, Instrs(e)), T0) == 15
  {
    var l := InfixExpression("*", IntegerLiteral(1), IntegerLiteral(2));
    var r := InfixExpression("*", IntegerLiteral(3), IntegerLiteral(4));
    LiteralRightOperandsSafe(l);
    LiteralRightOperandsSafe(r);
    RightOperationClobbersLeft("+", l, r, m);
  }

  /** The general shape of the discrepancy: when neither a node nor its
      infix right operand is parenthesized, the right operand's own
      `move $t1, $t0` overwrites the saved left operand, and the node
      combines the right operand's left operand with its value. */
  lemma RightOperationClobbersLeft(op: string, l: Node, r: Node, m: Machine)
    requires IsArithmetic(op) && !ShouldParenthesize(op, l, r)
    requires Supported(l) && Safe(l) && Eval(l).Some?
    requires r.InfixExpression? && Supported(r) && Safe(r) && Eval(r).Some?
    requires !ShouldParenthesize(r.operator, r.left, r.right)
    ensures Get(Exec(m, Instrs(InfixExpression(op, l, r))), T0)
         == Apply(op, Eval(r.left).value, Eval(r).value)
  {
    AsWrittenCorrectWhenSafe(l, m);
    var m1 := Step(Exec(m, Instrs(l)), Move(T1, T0));
    AsWrittenCorrectWhenSafe(r, m1);
    var m2 := Step(Exec(m1, Instrs(r)), Move(T2, T0));
    InfixExec(Instrs(l), Instrs(r), T1, T2, OpInstrs(op, ThroughLo, T0, T1, T2), m);
    OpInstrsMeaning(op, ThroughLo, T1, T2, m2);
  }

  /** The corrected translation: the left operand is kept on the stack
      while the right one is computed, so no precedence analysis is needed. */
  function FixedInstrs(e: Node): seq<Instr> {
    match e
    case IntegerLiteral(v) => [Li(T0, v)]
    case InfixExpression(op, l, r) =>
      FixedInstrs(l) + [Push(T0)] + FixedInstrs(r) + [Move(T2, T0), Pop(T1)] + OpInstrs(op, ThroughLo, T0, T1, T2)
    case _ => []
  }

  /** The corrected text. */
  function FixedVisit(e: Node): seq<string> {
    RenderAll("", FixedInstrs(e))
  }

  /** The corrected code computes every supported expression's value into
      $t0 and leaves the stack as it found it. */
  lemma {:induction false} FixedCorrect(e: Node, m: Machine)
    requires Supported(e) && Eval(e).Some?
    ensures Get(Exec(m, FixedInstrs(e)), T0) == Eval(e).value
    ensures Exec(m, FixedInstrs(e)).stack == m.stack
  {
    match e
    case IntegerLiteral(_) =>
    case InfixExpression(op, l, r) =>
      FixedCorrect(l, m);
      FixedCorrect(r, Step(Exec(m, FixedInstrs(l)), Push(T0)));
      InfixStackCode(FixedInstrs(l), FixedInstrs(r), op, ThroughLo, m, Eval(l).value, Eval(r).value);
  }

  /** Every left operand binds at least as tightly as its parent. */
  predicate LeftBindsNoLooser(e: Node) {
    match e
    case InfixExpression(op, l, r) =>
      LeftBindsNoLooser(l) && (l.InfixExpression? ==> Precedence(l.operator) >= Precedence(op))
    case _ => true
  }

  /** For trees whose right operands are literals, the $s0/$s1 path is taken
      exactly when some left operand binds more loosely than its parent, as
      in `(1 + 2) * 3`. */
  lemma {:induction false} ParenthesizedIffLooserLeft(e: Node)
    requires LiteralRightOperands(e)
    ensures WritesS0(e) <==> !LeftBindsNoLooser(e)
  {
    match e
    case InfixExpression(op, l, r) => ParenthesizedIffLooserLeft(l);
    case _ =>
  }

  /** Unlike the simple generator, this one gets `1 + (2 + 3)` right: the
      right operand is parenthesized, so the left one is saved in $s0, which
      the right operand's code does not touch. */
  lemma RightNestedSumGivesSix(m: Machine)
    ensures var e := InfixExpression("+", IntegerLiteral(1),
                       InfixExpression("+", IntegerLiteral(2), IntegerLiteral(3)));
      Eval(e) == Some(6) && Get(Exec(m, Instrs(e)), T0) == 6
  {
    var r := InfixExpression("+", IntegerLiteral(2), IntegerLiteral(3));
    var e := InfixExpression("+", IntegerLiteral(1), r);
    assert ShouldParenthesize("+", IntegerLiteral(1), r);
    assert !WritesS0(r);
    AsWrittenCorrectWhenSafe(e, m);
  }

  /** The number of times `line` occurs in `lines`. */
  function Occurrences(lines: seq<string>, line: string): nat {
    if lines == [] then 0
    else (if lines[0] == line then 1 else 0) + Occurrences(lines[1..], line)
  }

  lemma {:induction false} OccurrencesAppend(a: seq<string>, b: seq<string>, line: string)
    ensures Occurrences(a + b, line) == Occurrences(a, line) + Occurrences(b, line)
    decreases |a|
  {
    if a != [] {
      assert (a + b)[1..] == a[1..] + b;
      OccurrencesAppend(a[1..], b, line);
    } else {
      assert a + b == b;
    }
  }

  const NewlineLoad := "la $a0, newline"

  /** An expression's code never loads the newline string. */
  lemma {:induction false} ExpressionPrintsNothing(e: Node)
    requires Supported(e)
    ensures Occurrences(Visit(e), NewlineLoad) == 0
  {
    match e
    case IntegerLiteral(v) =>
      assert Visit(e)[0][1] == 'i';
      assert [Visit(e)[0]][1..] == [];
    case InfixExpression(op, l, r) =>
      var p := ShouldParenthesize(op, l, r);
      ExpressionPrintsNothing(l);
      ExpressionPrintsNothing(r);
      var x := Visit(l) + [SaveLeftLine(p)];
      var y := x + Visit(r);
      var z := y + [SaveRightLine(p)];
      OccurrencesAppend(z, OperationLines(op, p), NewlineLoad);
      OccurrencesAppend(y, [SaveRightLine(p)], NewlineLoad);
      OccurrencesAppend(x, Visit(r), NewlineLoad);
      OccurrencesAppend(Visit(l), [SaveLeftLine(p)], NewlineLoad);
      OperationPrintsNothing(op, p);
  }

  lemma OperationPrintsNothing(op: string, p: bool)
    ensures Occurrences(OperationLines(op, p), NewlineLoad) == 0
    ensures Occurrences([SaveLeftLine(p)], NewlineLoad) == 0
    ensures Occurrences([SaveRightLine(p)], NewlineLoad) == 0
  {
    var ops := OperationLines(op, p);
    if |ops| == 2 {
      assert ops[1..][1..] == [];
    } else if |ops| == 1 {
      assert ops[1..] == [];
    }
  }

  /** A program of expression statements prints one value per statement:
      the newline is loaded once for each. */
  lemma {:induction false} OnePrintPerStatement(ss: seq<Node>)
    requires forall i :: 0 <= i < |ss| ==> ss[i].ExpressionStatement? && Supported(ss[i].expression)
    ensures Occurrences(VisitAll(ss), NewlineLoad) == |ss|
  {
    if ss != [] {
      var e := ss[0].expression;
      ExpressionPrintsNothing(e);
      OnePrintPerStatement(ss[1..]);
      OccurrencesAppend(Visit(e), PrintIntLines, NewlineLoad);
      OccurrencesAppend(Visit(ss[0]), VisitAll(ss[1..]), NewlineLoad);
      assert Occurrences(PrintIntLines, NewlineLoad) == 1 by {
        assert PrintIntLines[3] == NewlineLoad;
        assert PrintIntLines[1..][1..][1..][1..][1..][1..] == [];
      }
    }
  }
}
