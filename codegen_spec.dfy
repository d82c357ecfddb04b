/** The main code generator (compiler/compiler.go) as functions over its
    whole state: the current symbol table and the tables above it, the four
    counters, the current function's name and the lines written so far.
    Each function returns the new state and the register and type the Go
    function returns. The `Codegen` module runs the same steps on a
    `Generator` object and is proved equal to these functions. */
module CodegenSpec {
  import opened Wrappers
  import opened Strings
  import opened Ast
  import opened Symbols

  datatype GenState = GenState(
    table: Scope,
    parent: seq<Scope>,
    currentRegister: int,
    labelCount: int,
    functionName: string,
    intRegisterCount: int,
    floatRegisterCount: int,
    out: seq<string>)

  /** The tables a name is resolved in, innermost first. */
  function Scopes(s: GenState): seq<Scope> {
    [s.table] + s.parent
  }

  /** The state after a generator, the register holding its value and the
      value's type ("int", "bool", "float", "function" or ""). */
  datatype Result = Result(st: GenState, reg: int, typ: string)

  function T(r: int): string { "$t" + IntToString(r) }
  function F(r: int): string { "$f" + IntToString(r) }

  function Write(s: GenState, lines: seq<string>): GenState {
    s.(out := s.out + lines)
  }

  // ----- counters -----

  /** `getNextRegister`: the current register, and the counter moved on
      modulo 8. */
  function NextRegister(s: GenState): (r: (GenState, int))
    ensures 0 <= s.currentRegister < 8 ==> 0 <= r.1 < 8 && 0 <= r.0.currentRegister < 8
    ensures r.0 == s.(currentRegister := r.0.currentRegister)
  {
    (s.(currentRegister := (s.currentRegister + 1) % 8), s.currentRegister)
  }

  function NextIntRegister(s: GenState): (GenState, int) {
    (s.(intRegisterCount := s.intRegisterCount + 1), s.intRegisterCount)
  }

  function NextFloatRegister(s: GenState): (GenState, int) {
    (s.(floatRegisterCount := s.floatRegisterCount + 1), s.floatRegisterCount)
  }

  /** `getNextLabel`: the counter is incremented first, so the labels of a
      run are `label_1`, `label_2`, …. Function names `func_N` and float
      comparison labels `float_true_N` draw on the same counter, but take
      its value before incrementing it. */
  function NextLabel(s: GenState): (r: (GenState, string))
    ensures r.0 == s.(labelCount := s.labelCount + 1)
    ensures r.1 == "label_" + IntToString(r.0.labelCount)
  {
    var c := s.labelCount + 1;
    (s.(labelCount := c), "label_" + IntToString(c))
  }

  // ----- fixed texts -----

  const DataHeader: seq<string> := [
    ".data", "newline: .asciiz \"\\n\"", "true_str: .asciiz \"true\"",
    "false_str: .asciiz \"false\"", ".text", ".globl main"]
  const MainPrologue: seq<string> := ["main:", "move $fp, $sp", "sw $ra, 0($sp)", "addi $sp, $sp, -4"]
  const MainEpilogue: seq<string> := ["lw $ra, 4($sp)", "addi $sp, $sp, 4", "jr $ra"]
  const NewlinePrint: seq<string> := ["li $v0, 4", "la $a0, newline", "syscall"]

  function IntPrint(reg: int): seq<string> {
    ["move $a0, " + T(reg), "li $v0, 1", "syscall"]
  }

  function BoolPrint(reg: int, labelFalse: string, labelEnd: string): seq<string> {
    [ "beq " + T(reg) + ", $zero, " + labelFalse, "la $a0, true_str", "j " + labelEnd,
      labelFalse + ":", "la $a0, false_str", labelEnd + ":", "li $v0, 4", "syscall"]
  }

  /** `floatComparisonOp`. */
  function FloatComparisonOp(op: string): string {
    if op == "<" then "lt"
    else if op == ">" then "gt"
    else if op == "<=" then "le"
    else if op == ">=" then "ge"
    else if op == "==" then "eq"
    else if op == "!=" then "ne"
    else ""
  }

  /** The three-operand instructions of `generateIntInfixExpression`'s
      switch ("" for `/`, which takes two instructions, and for an
      unsupported operator). */
  function IntMnemonic(op: string): string {
    if op == "+" then "add"
    else if op == "-" then "sub"
    else if op == "*" then "mul"
    else if op == "==" then "seq"
    else if op == "!=" then "sne"
    else if op == "<" then "slt"
    else if op == ">" then "sgt"
    else if op == "<=" then "sle"
    else if op == ">=" then "sge"
    else ""
  }

  /** The arithmetic instructions of `generateFloatInfixExpression`'s switch. */
  function FloatMnemonic(op: string): string {
    if op == "+" then "add.s"
    else if op == "-" then "sub.s"
    else if op == "*" then "mul.s"
    else if op == "/" then "div.s"
    else ""
  }

  // ----- the generators -----

  /** `generateNode`. */
  function GenNode(s: GenState, n: Node): Result
    decreases n, 3
  {
    if n.Program? then Result(GenProgram(s, n.statements), 0, "")
    else if n.ExpressionStatement? then GenNode(s, n.expression)
    else if n.InfixExpression? then GenInfix(s, n)
    else if n.IntegerLiteral? then
      var (s1, reg) := NextRegister(s);
      Result(Write(s1, ["li " + T(reg) + ", " + IntToString(n.intValue)]), reg, "int")
    else if n.Boolean? then
      var (s1, reg) := NextRegister(s);
      Result(Write(s1, ["li " + T(reg) + (if n.boolValue then ", 1" else ", 0")]), reg, "bool")
    else if n.IfExpression? then GenIf(s, n)
    else if n.BlockStatement? then Result(GenStatements(s, n.statements), 0, "")
    else if n.CallExpression? then
      if n.callee.Variable? && n.callee.ident == "SpeakNow" then GenSpeakNow(s, n) else Result(s, 0, "")
    else if n.LetStatement? then GenLet(s, n)
    else if n.Variable? then GenVariable(s, n)
    else Result(s, 0, "")
  }

  /** `generateProgram`: the main prologue, every statement, the epilogue. */
  function GenProgram(s: GenState, ss: seq<Node>): GenState
    decreases ss, 2
  {
    Write(GenStatements(Write(s, MainPrologue), ss), MainEpilogue)
  }

  /** Every statement in order (`generateBlockStatement` and the loop of
      `generateProgram`). */
  function GenStatements(s: GenState, ss: seq<Node>): GenState
    decreases ss, 1
  {
    if ss == [] then s else GenStatements(GenNode(s, ss[0]).st, ss[1..])
  }

  /** `generateInfixExpression`: both operands, then the float path if
      either is a float, else the bool path if either is a bool, else the
      integer path. */
  function GenInfix(s: GenState, n: Node): Result
    requires n.InfixExpression?
    decreases n, 2
  {
    var left := GenNode(s, n.left);
    var right := GenNode(left.st, n.right);
    if left.typ == "float" || right.typ == "float" then
      GenFloatInfix(right.st, n.operator, left.reg, right.reg, left.typ, right.typ)
    else if left.typ == "bool" || right.typ == "bool" then
      GenBoolInfix(right.st, n.operator, left.reg, right.reg)
    else
      GenIntInfix(right.st, n.operator, left.reg, right.reg)
  }

  /** An operand of `generateFloatInfixExpression`: one that is not a float
      is moved into a fresh float register and converted there. */
  function FloatOperand(s: GenState, reg: int, typ: string): (GenState, int) {
    if typ != "float" then
      var (s1, f) := NextFloatRegister(s);
      (Write(s1, ["mtc1 " + T(reg) + ", " + F(f), "cvt.s.w " + F(f) + ", " + F(f)]), f)
    else (s, reg)
  }

  /** The operation of `generateFloatInfixExpression` on two float
      registers: arithmetic into a fresh float register, or a comparison
      whose flag is copied into a fresh integer register through a
      `float_true_N` label. */
  function FloatOperation(s: GenState, op: string, l: int, r: int): Result {
    var (s1, res) := NextFloatRegister(s);
    if FloatMnemonic(op) != "" then
      Result(Write(s1, [FloatMnemonic(op) + " " + F(res) + ", " + F(l) + ", " + F(r)]), res, "float")
    else if FloatComparisonOp(op) != "" then
      var (s2, ir) := NextIntRegister(s1);
      var k := IntToString(s2.labelCount);
      var s3 := Write(s2, [
        "c." + FloatComparisonOp(op) + ".s " + F(l) + ", " + F(r),
        "li " + T(ir) + ", 1",
        "bc1t float_true_" + k,
        "li " + T(ir) + ", 0",
        "float_true_" + k + ":"]);
      Result(s3.(labelCount := s3.labelCount + 1), ir, "bool")
    else
      Result(s1, res, "float")
  }

  /** `generateFloatInfixExpression`. */
  function GenFloatInfix(s: GenState, op: string, leftReg: int, rightReg: int, leftType: string, rightType: string): Result {
    var (s1, l) := FloatOperand(s, leftReg, leftType);
    var (s2, r) := FloatOperand(s1, rightReg, rightType);
    FloatOperation(s2, op, l, r)
  }

  /** `generateIntInfixExpression`. */
  function GenIntInfix(s: GenState, op: string, leftReg: int, rightReg: int): Result {
    var (s1, res) := NextRegister(s);
    if op == "/" then
      Result(Write(s1, ["div " + T(leftReg) + ", " + T(rightReg), "mflo " + T(res)]), res, "int")
    else if IntMnemonic(op) != "" then
      Result(Write(s1, [IntMnemonic(op) + " " + T(res) + ", " + T(leftReg) + ", " + T(rightReg)]), res, "int")
    else
      Result(s1, 0, "int")
  }

  /** `generateBoolInfixExpression`. */
  function GenBoolInfix(s: GenState, op: string, leftReg: int, rightReg: int): Result {
    var (s1, res) := NextIntRegister(s);
    var operands := T(res) + ", " + T(leftReg) + ", " + T(rightReg);
    if op == "&&" then Result(Write(s1, ["and " + operands]), res, "bool")
    else if op == "||" then Result(Write(s1, ["or " + operands]), res, "bool")
    else if op == "==" then
      Result(Write(s1, ["xor " + operands, "sltiu " + T(res) + ", " + T(res) + ", 1"]), res, "bool")
    else if op == "!=" then
      Result(Write(s1, ["xor " + operands, "sltu " + T(res) + ", $zero, " + T(res)]), res, "bool")
    else Result(s1, 0, "bool")
  }

  /** `generateSpeakNow`. */
  function GenSpeakNow(s: GenState, n: Node): Result
    requires n.CallExpression?
    decreases n, 2
  {
    if |n.arguments| != 1 then Result(s, 0, "")
    else
      var arg := GenNode(s, n.arguments[0]);
      if arg.typ == "int" then
        Result(Write(Write(arg.st, IntPrint(arg.reg)), NewlinePrint), arg.reg, "int")
      else if arg.typ == "bool" then
        var (s1, labelFalse) := NextLabel(arg.st);
        var (s2, labelEnd) := NextLabel(s1);
        Result(Write(Write(s2, BoolPrint(arg.reg, labelFalse, labelEnd)), NewlinePrint), arg.reg, "bool")
      else
        Result(arg.st, 0, "")
  }

  /** The lines of `generateLetStatement` outside any function. */
  function GlobalStore(reg: int, name: string): seq<string> {
    [".data", name + ": .word 0", ".text", "sw " + T(reg) + ", " + name]
  }

  /** The line of `generateLetStatement` inside a function. */
  function LocalStore(reg: int, address: int): string {
    "sw " + T(reg) + ", -" + IntToString(address) + "($fp)"
  }

  /** `generateLetStatement`: a global outside any function, a slot below
      the frame pointer inside one. */
  function GenLet(s: GenState, n: Node): Result
    requires n.LetStatement?
    decreases n, 2
  {
    var value := GenNode(s, n.value);
    var (table, sym) := DefineIn(value.st.table, n.name, value.typ);
    var s1 := value.st.(table := table);
    if s1.functionName == "" then
      Result(Write(s1, GlobalStore(value.reg, n.name)), value.reg, value.typ)
    else
      Result(Write(s1, [LocalStore(value.reg, sym.address)]), value.reg, value.typ)
  }

  /** The load `generateVariable` emits for a resolved symbol: by name
      outside any function, above the frame pointer for a positive address,
      below it otherwise. */
  function LoadLine(reg: int, name: string, functionName: string, sym: Symbol): string {
    if functionName == "" then "lw " + T(reg) + ", " + name
    else if sym.address > 0 then "lw " + T(reg) + ", " + IntToString(sym.address) + "($fp)"
    else "lw " + T(reg) + ", -" + IntToString(-sym.address) + "($fp)"
  }

  /** `generateVariable`. */
  function GenVariable(s: GenState, n: Node): Result
    requires n.Variable?
  {
    match Lookup(Scopes(s), n.ident)
    case None => Result(s, 0, "")
    case Some(sym) =>
      var (s1, reg) := NextRegister(s);
      Result(Write(s1, [LoadLine(reg, n.ident, s.functionName, sym)]), reg, sym.typ)
  }

  /** `generateIfExpression`. */
  function GenIf(s: GenState, n: Node): Result
    requires n.IfExpression?
    decreases n, 2
  {
    var cond := GenNode(s, n.condition);
    var (s1, labelElse) := NextLabel(cond.st);
    var (s2, labelEnd) := NextLabel(s1);
    var s3 := Write(s2, ["beq " + T(cond.reg) + ", $zero, " + labelElse]);
    var s4 := GenBranch(s3, n.consequence);
    var s5 := Write(s4, ["j " + labelEnd, labelElse + ":"]);
    var s6 := GenBranch(s5, n.alternative);
    Result(Write(s6, [labelEnd + ":"]), 0, "")
  }

  /** A block of an `if`, when it is present. */
  function GenBranch(s: GenState, branch: Block): GenState
    decreases branch, 2
  {
    match branch
    case Absent => s
    case Present(ss) => GenStatements(s, ss)
  }

  // ----- functions and calls -----

  /** The parameters defined in a fresh table, parameter `i` then moved to
      `4*(i+2)`, above the frame pointer. */
  function DefineParams(sc: Scope, params: seq<string>, i: nat): Scope
    requires i <= |params|
    decreases |params| - i
  {
    if i == |params| then sc
    else
      var (sc1, sym) := DefineIn(sc, params[i], "int");
      DefineParams(sc1.(symbols := sc1.symbols[params[i] := sym.(address := 4 * (i + 2))]), params, i + 1)
  }

  /** Register `$t<i>`'s slot below the frame pointer, saved (`op` is "sw")
      or restored (`op` is "lw"). */
  function FrameSlot(op: string, i: int): string {
    op + " " + T(i) + ", -" + IntToString(12 + i * 4) + "($fp)"
  }

  /** The slots of registers `0..k-1`, in order. */
  function FrameSlots(op: string, k: nat): (r: seq<string>)
    ensures |r| == k && forall i :: 0 <= i < k ==> r[i] == FrameSlot(op, i)
  {
    seq(k, i => FrameSlot(op, i))
  }

  /** A function's label, then the return address and frame pointer saved
      and room made for the parameters. */
  function FrameEntry(name: string, paramCount: nat): seq<string> {
    [name + ":", "sw $ra, 0($sp)", "sw $fp, -4($sp)", "move $fp, $sp",
     "addi $sp, $sp, -" + IntToString(8 + paramCount * 4)]
  }

  const FrameExit: seq<string> := ["move $sp, $fp", "lw $ra, 0($sp)", "lw $fp, -4($sp)", "jr $ra"]

  /** The first half of `generateFunction`: a `func_N` label and name, the
      frame, and a new innermost table holding the parameters. */
  function EnterFunction(s: GenState, n: Node): GenState
    requires n.FunctionLiteral?
  {
    var name := "func_" + IntToString(s.labelCount);
    Write(Write(Write(s, FrameEntry(name, |n.parameters|)), FrameSlots("sw", 8)), ["addi $sp, $sp, -32"])
      .(functionName := name, labelCount := s.labelCount + 1,
        table := DefineParams(EmptyScope, n.parameters, 0), parent := Scopes(s))
  }

  /** `generateFunction`: the body runs between `EnterFunction` and the
      epilogue; the previous table and function name are restored at the
      end. */
  function GenFunction(s: GenState, n: Node): Result
    requires n.FunctionLiteral?
  {
    var body := GenStatements(EnterFunction(s, n), n.body);
    var s1 := Write(Write(Write(body, ["addi $sp, $sp, 32"]), FrameSlots("lw", 8)), FrameExit);
    Result(s1.(table := s.table, parent := s.parent, functionName := s.functionName),
           0, "function")
  }

  /** One argument generated and its register stored on the stack. */
  function PushArg(s: GenState, arg: Node): GenState {
    var r := GenNode(s, arg);
    Write(r.st, ["sw " + T(r.reg) + ", 0($sp)", "addi $sp, $sp, -4"])
  }

  /** The arguments `0..k-1`, last first, each stored on the stack. */
  function PushArgs(s: GenState, args: seq<Node>, k: nat): GenState
    requires k <= |args|
    decreases k
  {
    if k == 0 then s else PushArgs(PushArg(s, args[k - 1]), args, k - 1)
  }

  /** How `generateFunctionCall` ends: it returns, or it panics with the
      state reached so far. */
  datatype CallOutcome = Returned(r: Result) | Panicked(st: GenState)

  /** `generateFunctionCall`. A callee that is not a name fails the type
      assertion on `node.Function` after the arguments are pushed. */
  function GenFunctionCall(s: GenState, n: Node): CallOutcome
    requires n.CallExpression?
  {
    if n.callee.Variable? && n.callee.ident == "SpeakNow" then Returned(GenSpeakNow(s, n))
    else
      var s1 := PushArgs(s, n.arguments, |n.arguments|);
      if !n.callee.Variable? then Panicked(s1)
      else
        var s2 := Write(s1, ["jal " + n.callee.ident, "addi $sp, $sp, " + IntToString(|n.arguments| * 4)]);
        var (s3, reg) := NextRegister(s2);
        Returned(Result(Write(s3, ["move " + T(reg) + ", $v0"]), reg, "int"))
  }

  /** A whole `GenerateMIPS` run: a fresh global table, register, label
      and function-name state, the data header, then the program (or the
      single node). The int and float register counts carry over from `s`. */
  function Run(s: GenState, node: Node): GenState {
    var s0 := GenState(EmptyScope, [], 0, 0, "", s.intRegisterCount, s.floatRegisterCount, DataHeader);
    if node.Program? then GenProgram(s0, node.statements) else GenNode(s0, node).st
  }
}
