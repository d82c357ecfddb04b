/** The main code generator (compiler/compiler.go) as the Go code runs it:
    the package-level variables are the fields of a `Generator`, the
    `*strings.Builder` every generator writes to is an `Emit.Builder`
    parameter, and each method is proved to leave exactly the state and
    return exactly the register and type of its `CodegenSpec` function. */
module Codegen {
  import opened Wrappers
  import opened Strings
  import opened Ast
  import opened Symbols
  import opened CodegenSpec
  import opened Emit

  class Generator {
    var symbolTable: SymbolTable
    var currentRegister: int
    var labelCount: int
    var functionName: string
    var intRegisterCount: int
    var floatRegisterCount: int

    /** The register counter stays in 0..7. */
    ghost predicate Valid()
      reads this
    {
      0 <= currentRegister < 8
    }

    /** The package variables as a `GenState` with no output. */
    ghost function Globals(): GenState
      reads this, symbolTable
    {
      GenState(Scope(symbolTable.symbols, symbolTable.nextAddress), symbolTable.parent,
               currentRegister, labelCount, functionName, intRegisterCount, floatRegisterCount, [])
    }

    /** The package variables together with the lines written to `output`. */
    ghost function State(output: Builder): GenState
      reads this, symbolTable, output
    {
      Globals().(out := output.lines)
    }

    /** The variables as `GenerateMIPS` leaves them before it writes
        anything. */
    constructor ()
      ensures Valid() && Globals() == GenState(EmptyScope, [], 0, 0, "", 0, 0, [])
    {
      symbolTable := new SymbolTable();
      currentRegister := 0;
      labelCount := 0;
      functionName := "";
      intRegisterCount := 0;
      floatRegisterCount := 0;
    }

    method GetNextRegister() returns (reg: int)
      requires Valid()
      modifies this
      ensures Valid() && symbolTable == old(symbolTable)
      ensures (Globals(), reg) == NextRegister(old(Globals()))
    {
      reg := currentRegister;
      currentRegister := (currentRegister + 1) % 8;
    }

    method GetNextIntRegister() returns (reg: int)
      requires Valid()
      modifies this
      ensures Valid() && symbolTable == old(symbolTable)
      ensures (Globals(), reg) == NextIntRegister(old(Globals()))
    {
      reg := intRegisterCount;
      intRegisterCount := intRegisterCount + 1;
    }

    method GetNextFloatRegister() returns (reg: int)
      requires Valid()
      modifies this
      ensures Valid() && symbolTable == old(symbolTable)
      ensures (Globals(), reg) == NextFloatRegister(old(Globals()))
    {
      reg := floatRegisterCount;
      floatRegisterCount := floatRegisterCount + 1;
    }

    method GetNextLabel() returns (name: string)
      requires Valid()
      modifies this
      ensures Valid() && symbolTable == old(symbolTable)
      ensures (Globals(), name) == NextLabel(old(Globals()))
    {
      labelCount := labelCount + 1;
      name := "label_" + IntToString(labelCount);
    }

    method ResetRegisterAllocation()
      requires Valid()
      modifies this
      ensures Valid() && symbolTable == old(symbolTable)
      ensures Globals() == old(Globals()).(currentRegister := 0)
    {
      currentRegister := 0;
    }

    /** `GenerateMIPS`: the text of a fresh output buffer. */
    method GenerateMIPS(node: Node) returns (text: string)
      requires Valid()
      modifies this
      ensures Valid()
      ensures text == Text(Run(old(Globals()), node).out)
      ensures Globals() == Run(old(Globals()), node).(out := [])
    {
      var output := new Builder();
      symbolTable := new SymbolTable();
      currentRegister := 0;
      labelCount := 0;
      functionName := "";
      output.WriteLines(DataHeader);
      assert State(output) == GenState(EmptyScope, [], 0, 0, "", old(intRegisterCount), old(floatRegisterCount), DataHeader);
      if node.Program? {
        GenerateProgram(output, node.statements);
      } else {
        var _, _ := GenerateNode(output, node);
      }
      text := Text(output.lines);
    }

    method GenerateProgram(output: Builder, statements: seq<Node>)
      requires Valid()
      modifies this, symbolTable, output
      ensures Valid() && symbolTable == old(symbolTable)
      ensures State(output) == GenProgram(old(State(output)), statements)
      decreases statements, 2
    {
      output.WriteLines(MainPrologue);
      ghost var s0 := State(output);
      var i := 0;
      while i < |statements|
        invariant 0 <= i <= |statements|
        invariant Valid() && symbolTable == old(symbolTable)
        invariant GenStatements(State(output), statements[i..]) == GenStatements(s0, statements)
      {
        ghost var before := State(output);
        var _, _ := GenerateNode(output, statements[i]);
        assert statements[i..][0] == statements[i] && statements[i..][1..] == statements[i + 1..];
        assert GenStatements(before, statements[i..]) == GenStatements(State(output), statements[i + 1..]);
        i := i + 1;
      }
      assert statements == statements[0..];
      output.WriteLines(MainEpilogue);
    }

    method GenerateNode(output: Builder, node: Node) returns (reg: int, typ: string)
      requires Valid()
      modifies this, symbolTable, output
      ensures Valid() && symbolTable == old(symbolTable)
      ensures Result(State(output), reg, typ) == GenNode(old(State(output)), node)
      decreases node, 3
    {
      if node.Program? {
        GenerateProgram(output, node.statements);
        reg, typ := 0, "";
      } else if node.ExpressionStatement? {
        reg, typ := GenerateNode(output, node.expression);
      } else if node.InfixExpression? {
        reg, typ := GenerateInfixExpression(output, node);
      } else if node.IntegerLiteral? {
        reg := GetNextRegister();
        output.WriteLine("li " + T(reg) + ", " + IntToString(node.intValue));
        typ := "int";
      } else if node.Boolean? {
        reg := GetNextRegister();
        if node.boolValue {
          output.WriteLine("li " + T(reg) + ", 1");
        } else {
          output.WriteLine("li " + T(reg) + ", 0");
        }
        typ := "bool";
      } else if node.IfExpression? {
        reg, typ := GenerateIfExpression(output, node);
      } else if node.BlockStatement? {
        GenerateBlockStatement(output, node.statements);
        reg, typ := 0, "";
      } else if node.CallExpression? {
        if node.callee.Variable? && node.callee.ident == "SpeakNow" {
          reg, typ := GenerateSpeakNow(output, node);
        } else {
          reg, typ := 0, "";
        }
      } else if node.LetStatement? {
        reg, typ := GenerateLetStatement(output, node);
      } else if node.Variable? {
        reg, typ := GenerateVariable(output, node);
      } else {
        reg, typ := 0, "";
      }
    }

    method GenerateBlockStatement(output: Builder, statements: seq<Node>)
      requires Valid()
      modifies this, symbolTable, output
      ensures Valid() && symbolTable == old(symbolTable)
      ensures State(output) == GenStatements(old(State(output)), statements)
      decreases statements, 1
    {
      ghost var s0 := State(output);
      var i := 0;
      while i < |statements|
        invariant 0 <= i <= |statements|
        invariant Valid() && symbolTable == old(symbolTable)
        invariant GenStatements(State(output), statements[i..]) == GenStatements(s0, statements)
      {
        ghost var before := State(output);
        var _, _ := GenerateNode(output, statements[i]);
        assert statements[i..][0] == statements[i] && statements[i..][1..] == statements[i + 1..];
        assert GenStatements(before, statements[i..]) == GenStatements(State(output), statements[i + 1..]);
        i := i + 1;
      }
      assert statements == statements[0..];
    }

    method GenerateLetStatement(output: Builder, node: Node) returns (reg: int, typ: string)
      requires Valid() && node.LetStatement?
      modifies this, symbolTable, output
      ensures Valid() && symbolTable == old(symbolTable)
      ensures Result(State(output), reg, typ) == GenLet(old(State(output)), node)
      decreases node, 2
    {
      var valueReg, valueType := GenerateNode(output, node.value);
      var symbol := symbolTable.Define(node.name, valueType);
      if functionName == "" {
        output.WriteLines(GlobalStore(valueReg, node.name));
      } else {
        output.WriteLine(LocalStore(valueReg, symbol.address));
      }
      reg, typ := valueReg, valueType;
    }

    method GenerateVariable(output: Builder, node: Node) returns (reg: int, typ: string)
      requires Valid() && node.Variable?
      modifies this, output
      ensures Valid() && symbolTable == old(symbolTable)
      ensures Result(State(output), reg, typ) == GenVariable(old(State(output)), node)
    {
      ghost var s := State(output);
      var symbol := symbolTable.Resolve(node.ident);
      assert symbol == Lookup(Scopes(s), node.ident);
      if symbol.None? {
        return 0, "";
      }
      var resultReg := GetNextRegister();
      assert (State(output), resultReg) == NextRegister(s);
      if functionName == "" {
        output.WriteLine("lw " + T(resultReg) + ", " + node.ident);
      } else if symbol.value.address > 0 {
        output.WriteLine("lw " + T(resultReg) + ", " + IntToString(symbol.value.address) + "($fp)");
      } else {
        output.WriteLine("lw " + T(resultReg) + ", -" + IntToString(-symbol.value.address) + "($fp)");
      }
      assert State(output) == Write(NextRegister(s).0, [LoadLine(resultReg, node.ident, s.functionName, symbol.value)]);
      reg, typ := resultReg, symbol.value.typ;
    }

    method GenerateInfixExpression(output: Builder, node: Node) returns (reg: int, typ: string)
      requires Valid() && node.InfixExpression?
      modifies this, symbolTable, output
      ensures Valid() && symbolTable == old(symbolTable)
      ensures Result(State(output), reg, typ) == GenInfix(old(State(output)), node)
      decreases node, 2
    {
      var leftReg, leftType := GenerateNode(output, node.left);
      var rightReg, rightType := GenerateNode(output, node.right);
      if leftType == "float" || rightType == "float" {
        reg, typ := GenerateFloatInfixExpression(output, node.operator, leftReg, rightReg, leftType, rightType);
      } else if leftType == "bool" || rightType == "bool" {
        reg, typ := GenerateBoolInfixExpression(output, node.operator, leftReg, rightReg);
      } else {
        reg, typ := GenerateIntInfixExpression(output, node.operator, leftReg, rightReg);
      }
    }

    method GenerateFloatInfixExpression(output: Builder, operator: string, leftReg: int, rightReg: int,
                                        leftType: string, rightType: string) returns (reg: int, typ: string)
      requires Valid()
      modifies this, output
      ensures Valid() && symbolTable == old(symbolTable)
      ensures Result(State(output), reg, typ) ==
              GenFloatInfix(old(State(output)), operator, leftReg, rightReg, leftType, rightType)
    {
      var left := ConvertOperand(output, leftReg, leftType);
      var right := ConvertOperand(output, rightReg, rightType);
      var resultReg := GetNextFloatRegister();
      var mnemonic := FloatMnemonic(operator);
      if mnemonic != "" {
        output.WriteLine(mnemonic + " " + F(resultReg) + ", " + F(left) + ", " + F(right));
      } else if FloatComparisonOp(operator) != "" {
        var intResultReg := GetNextIntRegister();
        var k := IntToString(labelCount);
        output.WriteLines([
          "c." + FloatComparisonOp(operator) + ".s " + F(left) + ", " + F(right),
          "li " + T(intResultReg) + ", 1",
          "bc1t float_true_" + k,
          "li " + T(intResultReg) + ", 0",
          "float_true_" + k + ":"]);
        labelCount := labelCount + 1;
        return intResultReg, "bool";
      }
      reg, typ := resultReg, "float";
    }

    /** The conversion of one operand of `generateFloatInfixExpression`:
        an operand that is not a float is moved into a fresh float register. */
    method ConvertOperand(output: Builder, reg: int, typ: string) returns (floatReg: int)
      requires Valid()
      modifies this, output
      ensures Valid() && symbolTable == old(symbolTable)
      ensures (State(output), floatReg) == FloatOperand(old(State(output)), reg, typ)
    {
      floatReg := reg;
      if typ != "float" {
        floatReg := GetNextFloatRegister();
        output.WriteLines(["mtc1 " + T(reg) + ", " + F(floatReg), "cvt.s.w " + F(floatReg) + ", " + F(floatReg)]);
      }
    }

    method GenerateIntInfixExpression(output: Builder, operator: string, leftReg: int, rightReg: int)
      returns (reg: int, typ: string)
      requires Valid()
      modifies this, output
      ensures Valid() && symbolTable == old(symbolTable)
      ensures Result(State(output), reg, typ) == GenIntInfix(old(State(output)), operator, leftReg, rightReg)
    {
      var resultReg := GetNextRegister();
      if operator == "/" {
        output.WriteLines(["div " + T(leftReg) + ", " + T(rightReg), "mflo " + T(resultReg)]);
      } else if IntMnemonic(operator) != "" {
        output.WriteLine(IntMnemonic(operator) + " " + T(resultReg) + ", " + T(leftReg) + ", " + T(rightReg));
      } else {
        return 0, "int";
      }
      reg, typ := resultReg, "int";
    }

    method GenerateBoolInfixExpression(output: Builder, operator: string, leftReg: int, rightReg: int)
      returns (reg: int, typ: string)
      requires Valid()
      modifies this, output
      ensures Valid() && symbolTable == old(symbolTable)
      ensures Result(State(output), reg, typ) == GenBoolInfix(old(State(output)), operator, leftReg, rightReg)
    {
      var resultReg := GetNextIntRegister();
      var operands := T(resultReg) + ", " + T(leftReg) + ", " + T(rightReg);
      if operator == "&&" {
        output.WriteLine("and " + operands);
      } else if operator == "||" {
        output.WriteLine("or " + operands);
      } else if operator == "==" {
        output.WriteLines(["xor " + operands, "sltiu " + T(resultReg) + ", " + T(resultReg) + ", 1"]);
      } else if operator == "!=" {
        output.WriteLines(["xor " + operands, "sltu " + T(resultReg) + ", $zero, " + T(resultReg)]);
      } else {
        return 0, "bool";
      }
      reg, typ := resultReg, "bool";
    }

    method GenerateSpeakNow(output: Builder, node: Node) returns (reg: int, typ: string)
      requires Valid() && node.CallExpression?
      modifies this, symbolTable, output
      ensures Valid() && symbolTable == old(symbolTable)
      ensures Result(State(output), reg, typ) == GenSpeakNow(old(State(output)), node)
      decreases node, 2
    {
      if |node.arguments| != 1 {
        return 0, "";
      }
      var argReg, argType := GenerateNode(output, node.arguments[0]);
      if argType == "int" {
        output.WriteLines(IntPrint(argReg));
      } else if argType == "bool" {
        var labelFalse := GetNextLabel();
        var labelEnd := GetNextLabel();
        output.WriteLines(BoolPrint(argReg, labelFalse, labelEnd));
      } else {
        return 0, "";
      }
      output.WriteLines(NewlinePrint);
      reg, typ := argReg, argType;
    }

    method GenerateIfExpression(output: Builder, node: Node) returns (reg: int, typ: string)
      requires Valid() && node.IfExpression?
      modifies this, symbolTable, output
      ensures Valid() && symbolTable == old(symbolTable)
      ensures Result(State(output), reg, typ) == GenIf(old(State(output)), node)
      decreases node, 2
    {
      ghost var cond := GenNode(State(output), node.condition);
      var condReg, _ := GenerateNode(output, node.condition);
      var labelElse := GetNextLabel();
      var labelEnd := GetNextLabel();
      ghost var (s1, _) := NextLabel(cond.st);
      ghost var (s2, _) := NextLabel(s1);
      assert State(output) == s2;
      output.WriteLine("beq " + T(condReg) + ", $zero, " + labelElse);
      ghost var s3 := State(output);
      GenerateBranch(output, node.consequence);
      assert State(output) == GenBranch(s3, node.consequence);
      output.WriteLines(["j " + labelEnd, labelElse + ":"]);
      ghost var s5 := State(output);
      GenerateBranch(output, node.alternative);
      assert State(output) == GenBranch(s5, node.alternative);
      output.WriteLine(labelEnd + ":");
      reg, typ := 0, "";
    }

    /** A block of an `if`, skipped when it is absent. */
    method GenerateBranch(output: Builder, block: Block)
      requires Valid()
      modifies this, symbolTable, output
      ensures Valid() && symbolTable == old(symbolTable)
      ensures State(output) == GenBranch(old(State(output)), block)
      decreases block, 2
    {
      if block.Present? {
        GenerateBlockStatement(output, block.statements);
      }
    }

    /** The eight `$t` registers saved to (`op` is "sw") or restored from
        (`op` is "lw") the frame. */
    static method WriteFrameSlots(output: Builder, op: string)
      modifies output
      ensures output.lines == old(output.lines) + FrameSlots(op, 8)
    {
      for i := 0 to 8
        invariant output.lines == old(output.lines) + FrameSlots(op, i)
      {
        output.WriteLine(op + " " + T(i) + ", -" + IntToString(12 + i * 4) + "($fp)");
        assert FrameSlots(op, i + 1) == FrameSlots(op, i) + [FrameSlot(op, i)];
      }
    }

    method GenerateFunction(output: Builder, node: Node) returns (reg: int, typ: string)
      requires Valid() && node.FunctionLiteral?
      modifies this, symbolTable, output
      ensures Valid() && symbolTable == old(symbolTable)
      ensures Result(State(output), reg, typ) == GenFunction(old(State(output)), node)
    {
      ghost var s := State(output);
      var prevFunctionName := functionName;
      functionName := "func_" + IntToString(labelCount);
      labelCount := labelCount + 1;
      output.WriteLines(FrameEntry(functionName, |node.parameters|));
      WriteFrameSlots(output, "sw");
      output.WriteLines(["addi $sp, $sp, -32"]);
      var enclosed := symbolTable.NewEnclosedSymbolTable();
      var prevSymbolTable := symbolTable;
      symbolTable := enclosed;
      DefineParameters(node.parameters);
      assert State(output) == EnterFunction(s, node);
      GenerateBlockStatement(output, node.body);
      output.WriteLines(["addi $sp, $sp, 32"]);
      WriteFrameSlots(output, "lw");
      output.WriteLines(FrameExit);
      symbolTable := prevSymbolTable;
      functionName := prevFunctionName;
      reg, typ := 0, "function";
    }

    /** Defines the parameters in the (fresh) current table and moves
        parameter `i` to `4*(i+2)`. */
    method DefineParameters(parameters: seq<string>)
      requires symbolTable.symbols == map[] && symbolTable.nextAddress == 0
      modifies symbolTable
      ensures Scope(symbolTable.symbols, symbolTable.nextAddress) == DefineParams(EmptyScope, parameters, 0)
    {
      for i := 0 to |parameters|
        invariant DefineParams(Scope(symbolTable.symbols, symbolTable.nextAddress), parameters, i)
                  == DefineParams(EmptyScope, parameters, 0)
      {
        var _ := symbolTable.Define(parameters[i], "int");
        symbolTable.SetAddress(parameters[i], 4 * (i + 2));
      }
    }

    /** `generateFunctionCall`; `panicked` is set where the Go code panics,
        and `output` then holds what was written before the panic. */
    method GenerateFunctionCall(output: Builder, node: Node) returns (reg: int, typ: string, panicked: bool)
      requires Valid() && node.CallExpression?
      modifies this, symbolTable, output
      ensures Valid() && symbolTable == old(symbolTable)
      ensures (if panicked then Panicked(State(output)) else Returned(Result(State(output), reg, typ)))
              == GenFunctionCall(old(State(output)), node)
    {
      panicked := false;
      if node.callee.Variable? && node.callee.ident == "SpeakNow" {
        reg, typ := GenerateSpeakNow(output, node);
        return;
      }
      PushArguments(output, node.arguments);
      if !node.callee.Variable? {
        reg, typ, panicked := 0, "", true;
        return;
      }
      output.WriteLines(["jal " + node.callee.ident, "addi $sp, $sp, " + IntToString(|node.arguments| * 4)]);
      var resultReg := GetNextRegister();
      output.WriteLine("move " + T(resultReg) + ", $v0");
      reg, typ := resultReg, "int";
    }

    /** The loop of `generateFunctionCall` that evaluates the arguments,
        last first, and pushes each one. */
    method PushArguments(output: Builder, arguments: seq<Node>)
      requires Valid()
      modifies this, symbolTable, output
      ensures Valid() && symbolTable == old(symbolTable)
      ensures State(output) == PushArgs(old(State(output)), arguments, |arguments|)
    {
      ghost var s0 := State(output);
      var i := |arguments|;
      while i > 0
        invariant 0 <= i <= |arguments|
        invariant Valid() && symbolTable == old(symbolTable)
        invariant PushArgs(State(output), arguments, i) == PushArgs(s0, arguments, |arguments|)
      {
        ghost var before := State(output);
        i := i - 1;
        PushArgument(output, arguments[i]);
        assert PushArgs(before, arguments, i + 1) == PushArgs(State(output), arguments, i);
      }
    }

    /** One turn of that loop. */
    method PushArgument(output: Builder, argument: Node)
      requires Valid()
      modifies this, symbolTable, output
      ensures Valid() && symbolTable == old(symbolTable)
      ensures State(output) == PushArg(old(State(output)), argument)
    {
      ghost var before := State(output);
      var argReg, _ := GenerateNode(output, argument);
      ghost var arg := GenNode(before, argument);
      assert State(output) == arg.st && argReg == arg.reg;
      output.WriteLines(["sw " + T(argReg) + ", 0($sp)", "addi $sp, $sp, -4"]);
    }
  }
}
