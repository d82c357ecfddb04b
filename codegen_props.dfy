/** What the main code generator (compiler/compiler.go) promises, proved
    about the functions of `CodegenSpec`: the counters, the output buffer
    only growing, the label discipline, the choice of instruction path by
    operand type, the `SpeakNow` print rules, where variables are stored and
    loaded, and the frame of a function. */
module CodegenProps {
  import opened Wrappers
  import opened Strings
  import opened Ast
  import opened Symbols
  import opened CodegenSpec

  // ----- what every generator keeps -----

  /** The round-robin register is one of $t0..$t7. */
  predicate RegisterValid(s: GenState) {
    0 <= s.currentRegister < 8
  }

  /** From `s` to `t` the buffer was only appended to, no counter went
      back, no name was dropped from the current table or slot handed back,
      and the function name and the outer tables are as they were. */
  predicate Grows(s: GenState, t: GenState) {
    && |s.out| <= |t.out| && t.out[..|s.out|] == s.out
    && s.labelCount <= t.labelCount
    && s.intRegisterCount <= t.intRegisterCount
    && s.floatRegisterCount <= t.floatRegisterCount
    && s.table.symbols.Keys <= t.table.symbols.Keys
    && s.table.nextAddress <= t.table.nextAddress
    && t.functionName == s.functionName
    && t.parent == s.parent
    && RegisterValid(t)
  }

  lemma GrowsTrans(a: GenState, b: GenState, c: GenState)
    requires Grows(a, b) && Grows(b, c)
    ensures Grows(a, c)
  {
    assert c.out[..|a.out|] == c.out[..|b.out|][..|a.out|];
  }

  lemma WriteGrows(s: GenState, lines: seq<string>)
    requires RegisterValid(s)
    ensures Grows(s, Write(s, lines))
  {
    assert Write(s, lines).out[..|s.out|] == s.out;
  }

  /** Every generator, run from a state whose round-robin register is in
      range, leaves a state that `Grows` from it. */
  lemma {:induction false} NodeGrows(s: GenState, n: Node)
    requires RegisterValid(s)
    ensures Grows(s, GenNode(s, n).st)
    decreases n, 3
  {
    if n.Program? {
      ProgramGrows(s, n.statements);
    } else if n.ExpressionStatement? {
      NodeGrows(s, n.expression);
    } else if n.InfixExpression? {
      InfixGrows(s, n);
    } else if n.IntegerLiteral? || n.Boolean? {
      assert GenNode(s, n).st.out[..|s.out|] == s.out;
    } else if n.IfExpression? {
      IfGrows(s, n);
    } else if n.BlockStatement? {
      StatementsGrow(s, n.statements);
    } else if n.CallExpression? {
      if n.callee.Variable? && n.callee.ident == "SpeakNow" {
        SpeakNowGrows(s, n);
      }
    } else if n.LetStatement? {
      LetGrows(s, n);
    } else if n.Variable? {
      match Lookup(Scopes(s), n.ident)
      case None =>
      case Some(sym) =>
        var (s1, reg) := NextRegister(s);
        WriteGrows(s1, [LoadLine(reg, n.ident, s.functionName, sym)]);
        GrowsTrans(s, s1, GenNode(s, n).st);
    }
  }

  lemma {:induction false} ProgramGrows(s: GenState, ss: seq<Node>)
    requires RegisterValid(s)
    ensures Grows(s, GenProgram(s, ss))
    decreases ss, 2
  {
    var s1 := Write(s, MainPrologue);
    WriteGrows(s, MainPrologue);
    StatementsGrow(s1, ss);
    var s2 := GenStatements(s1, ss);
    WriteGrows(s2, MainEpilogue);
    GrowsTrans(s, s1, s2);
    GrowsTrans(s, s2, Write(s2, MainEpilogue));
  }

  lemma {:induction false} StatementsGrow(s: GenState, ss: seq<Node>)
    requires RegisterValid(s)
    ensures Grows(s, GenStatements(s, ss))
    decreases ss, 1
  {
    if ss == [] {
      WriteGrows(s, []);
      assert Write(s, []) == s;
    } else {
      var s1 := GenNode(s, ss[0]).st;
      NodeGrows(s, ss[0]);
      StatementsGrow(s1, ss[1..]);
      GrowsTrans(s, s1, GenStatements(s1, ss[1..]));
    }
  }

  lemma {:induction false} BranchGrows(s: GenState, b: Block)
    requires RegisterValid(s)
    ensures Grows(s, GenBranch(s, b))
    decreases b, 2
  {
    match b
    case Absent =>
      WriteGrows(s, []);
      assert Write(s, []) == s;
    case Present(ss) => StatementsGrow(s, ss);
  }

  lemma {:induction false} InfixGrows(s: GenState, n: Node)
    requires RegisterValid(s) && n.InfixExpression?
    ensures Grows(s, GenInfix(s, n).st)
    decreases n, 2
  {
    var left := GenNode(s, n.left);
    NodeGrows(s, n.left);
    var right := GenNode(left.st, n.right);
    NodeGrows(left.st, n.right);
    GrowsTrans(s, left.st, right.st);
    OperationGrows(right.st, n.operator, left.reg, right.reg, left.typ, right.typ);
    GrowsTrans(s, right.st, GenInfix(s, n).st);
  }

  /** The three instruction paths of an infix operation only append. */
  lemma OperationGrows(s: GenState, op: string, l: int, r: int, lt: string, rt: string)
    requires RegisterValid(s)
    ensures Grows(s, GenFloatInfix(s, op, l, r, lt, rt).st)
    ensures Grows(s, GenBoolInfix(s, op, l, r).st)
    ensures Grows(s, GenIntInfix(s, op, l, r).st)
  {
    FloatInfixGrows(s, op, l, r, lt, rt);
    BoolInfixGrows(s, op, l, r);
    IntInfixGrows(s, op, l, r);
  }

  lemma FloatInfixGrows(s: GenState, op: string, l: int, r: int, lt: string, rt: string)
    requires RegisterValid(s)
    ensures Grows(s, GenFloatInfix(s, op, l, r, lt, rt).st)
  {
    var (s1, fl) := FloatOperand(s, l, lt);
    FloatOperandGrows(s, l, lt);
    var (s2, fr) := FloatOperand(s1, r, rt);
    FloatOperandGrows(s1, r, rt);
    FloatOperationGrows(s2, op, fl, fr);
    GrowsTrans(s, s1, s2);
    GrowsTrans(s, s2, FloatOperation(s2, op, fl, fr).st);
  }

  lemma BoolInfixGrows(s: GenState, op: string, l: int, r: int)
    requires RegisterValid(s)
    ensures Grows(s, GenBoolInfix(s, op, l, r).st)
  {
    var b := GenBoolInfix(s, op, l, r).st;
    assert b.out[..|s.out|] == s.out;
  }

  lemma IntInfixGrows(s: GenState, op: string, l: int, r: int)
    requires RegisterValid(s)
    ensures Grows(s, GenIntInfix(s, op, l, r).st)
  {
    var i := GenIntInfix(s, op, l, r).st;
    assert i.out[..|s.out|] == s.out;
  }

  lemma FloatOperandGrows(s: GenState, reg: int, typ: string)
    requires RegisterValid(s)
    ensures Grows(s, FloatOperand(s, reg, typ).0)
  {
    assert FloatOperand(s, reg, typ).0.out[..|s.out|] == s.out;
  }

  lemma FloatOperationGrows(s: GenState, op: string, l: int, r: int)
    requires RegisterValid(s)
    ensures Grows(s, FloatOperation(s, op, l, r).st)
  {
    assert FloatOperation(s, op, l, r).st.out[..|s.out|] == s.out;
  }

  lemma {:induction false} IfGrows(s: GenState, n: Node)
    requires RegisterValid(s) && n.IfExpression?
    decreases n, 2
    ensures Grows(s, GenIf(s, n).st)
  {
    var cond := GenNode(s, n.condition);
    NodeGrows(s, n.condition);
    var (s1, labelElse) := NextLabel(cond.st);
    var (s2, labelEnd) := NextLabel(s1);
    var s3 := Write(s2, ["beq " + T(cond.reg) + ", $zero, " + labelElse]);
    WriteGrows(s2, ["beq " + T(cond.reg) + ", $zero, " + labelElse]);
    GrowsTrans(s, cond.st, s3);
    var s4 := GenBranch(s3, n.consequence);
    BranchGrows(s3, n.consequence);
    GrowsTrans(s, s3, s4);
    var s5 := Write(s4, ["j " + labelEnd, labelElse + ":"]);
    WriteGrows(s4, ["j " + labelEnd, labelElse + ":"]);
    GrowsTrans(s, s4, s5);
    var s6 := GenBranch(s5, n.alternative);
    BranchGrows(s5, n.alternative);
    GrowsTrans(s, s5, s6);
    WriteGrows(s6, [labelEnd + ":"]);
    GrowsTrans(s, s6, Write(s6, [labelEnd + ":"]));
  }

  lemma {:induction false} SpeakNowGrows(s: GenState, n: Node)
    requires RegisterValid(s) && n.CallExpression?
    ensures Grows(s, GenSpeakNow(s, n).st)
    decreases n, 2
  {
    if |n.arguments| != 1 {
      WriteGrows(s, []);
      assert Write(s, []) == s;
    } else {
      var arg := GenNode(s, n.arguments[0]);
      NodeGrows(s, n.arguments[0]);
      var r := GenSpeakNow(s, n).st;
      assert r.out[..|arg.st.out|] == arg.st.out;
      GrowsTrans(s, arg.st, r);
    }
  }

  lemma {:induction false} LetGrows(s: GenState, n: Node)
    requires RegisterValid(s) && n.LetStatement?
    ensures Grows(s, GenLet(s, n).st)
    decreases n, 2
  {
    var value := GenNode(s, n.value);
    NodeGrows(s, n.value);
    var r := GenLet(s, n).st;
    assert r.out[..|value.st.out|] == value.st.out;
    GrowsTrans(s, value.st, r);
  }

  // ----- registers and labels -----

  /** `getNextRegister` hands out $t0..$t7 in turn; the integer and float
      counts hand out their old value and grow without bound. */
  lemma RegisterCounters(s: GenState)
    requires RegisterValid(s)
    ensures var (s1, r) := NextRegister(s);
      && 0 <= r < 8 && s1.currentRegister == (r + 1) % 8
      && (r == 7 ==> s1.currentRegister == 0)
    ensures var (s1, r) := NextIntRegister(s);
      r == s.intRegisterCount && s1.intRegisterCount == r + 1
    ensures var (s1, r) := NextFloatRegister(s);
      r == s.floatRegisterCount && s1.floatRegisterCount == r + 1
  {
  }

  /** Two `getNextLabel` calls at different counter values give different
      names. That the labels of a whole run are pairwise distinct is
      `CodegenLabels.RunLabels`. */
  lemma LabelsDistinct(s: GenState, t: GenState)
    requires s.labelCount != t.labelCount
    ensures NextLabel(s).1 != NextLabel(t).1
  {
    NumberedNamesDistinct("label_", s.labelCount + 1, t.labelCount + 1);
  }

  /** The name `getNextLabel` hands out is none of the names it could have
      handed out before: it differs from `label_<j>` for every j up to the
      counter it started from. */
  lemma NextLabelFresh(s: GenState)
    ensures forall j :: j <= s.labelCount ==> NextLabel(s).1 != "label_" + IntToString(j)
  {
    forall j | j <= s.labelCount
      ensures NextLabel(s).1 != "label_" + IntToString(j)
    {
      NumberedNamesDistinct("label_", s.labelCount + 1, j);
    }
  }

  /** Register `$t<i>` is restored from the very slot it was saved to: the
      i-th restore line is the i-th save line with `sw` replaced by `lw`. */
  lemma SlotsRestoreSaved(k: nat)
    ensures forall i :: 0 <= i < k ==>
      && FrameSlots("sw", k)[i][..2] == "sw"
      && FrameSlots("lw", k)[i][..2] == "lw"
      && FrameSlots("sw", k)[i][2..] == FrameSlots("lw", k)[i][2..]
  {
    forall i | 0 <= i < k
      ensures FrameSlots("sw", k)[i][..2] == "sw"
      ensures FrameSlots("lw", k)[i][..2] == "lw"
      ensures FrameSlots("sw", k)[i][2..] == FrameSlots("lw", k)[i][2..]
    {
      SlotLine("sw", "lw", T(i), IntToString(12 + i * 4));
    }
  }

  /** Two slot lines for the same register and offset differ only in their
      two-letter mnemonic. */
  lemma SlotLine(op: string, op': string, reg: string, offset: string)
    requires |op| == |op'| == 2
    ensures var line := op + " " + reg + ", -" + offset + "($fp)";
      var line' := op' + " " + reg + ", -" + offset + "($fp)";
      line[..2] == op && line'[..2] == op' && line[2..] == line'[2..]
  {
    var rest := " " + reg + ", -" + offset + "($fp)";
    assert op + " " + reg + ", -" + offset + "($fp)" == op + rest;
    assert op' + " " + reg + ", -" + offset + "($fp)" == op' + rest;
  }

  /** A fresh run's first label is `label_1`. */
  lemma FirstLabel(s: GenState)
    requires s.labelCount == 0
    ensures NextLabel(s).1 == "label_1"
  {
  }

  // ----- `if` -----

  /** A state that `Grows` from another holds the other's lines and then
      the lines written since. */
  lemma Written(a: GenState, b: GenState)
    requires Grows(a, b)
    ensures b.out == a.out + b.out[|a.out|..]
  {
  }

  /** The labels of an `if` are the next two `label_N` names, and differ. */
  lemma IfLabels(s: GenState, n: Node)
    requires RegisterValid(s) && n.IfExpression?
    ensures var c := GenNode(s, n.condition).st.labelCount;
      && NextLabel(GenNode(s, n.condition).st).1 == "label_" + IntToString(c + 1)
      && NextLabel(NextLabel(GenNode(s, n.condition).st).0).1 == "label_" + IntToString(c + 2)
      && "label_" + IntToString(c + 1) != "label_" + IntToString(c + 2)
      && GenIf(s, n).st.labelCount >= c + 2
      && GenIf(s, n).reg == 0 && GenIf(s, n).typ == ""
  {
    var cond := GenNode(s, n.condition);
    NodeGrows(s, n.condition);
    var c := cond.st.labelCount;
    NumberedNamesDistinct("label_", c + 1, c + 2);
    IfGrows(s, n);
    var (s1, _) := NextLabel(cond.st);
    var (s2, _) := NextLabel(s1);
    IfFromLabels(s, n, s2);
  }

  /** The part of `IfLabels` after the two labels are taken. */
  lemma IfFromLabels(s: GenState, n: Node, s2: GenState)
    requires RegisterValid(s) && n.IfExpression?
    requires s2 == NextLabel(NextLabel(GenNode(s, n.condition).st).0).0
    ensures GenIf(s, n).st.labelCount >= s2.labelCount
  {
    NodeGrows(s, n.condition);
    var cond := GenNode(s, n.condition);
    var (s1, labelElse) := NextLabel(cond.st);
    var (_, labelEnd) := NextLabel(s1);
    var s3 := Write(s2, ["beq " + T(cond.reg) + ", $zero, " + labelElse]);
    var s4 := GenBranch(s3, n.consequence);
    BranchGrows(s3, n.consequence);
    var s5 := Write(s4, ["j " + labelEnd, labelElse + ":"]);
    var s6 := GenBranch(s5, n.alternative);
    BranchGrows(s5, n.alternative);
  }

  /** `out` is `before`, the branch to the else label, some consequence
      lines, the jump to the end label, the else label, some alternative
      lines and the end label; a block that is absent has no lines. */
  ghost predicate IfShape(out: seq<string>, before: seq<string>, condReg: int, labelElse: string, labelEnd: string, n: Node)
    requires n.IfExpression?
  {
    exists consequence, alternative ::
      && out == before + ["beq " + T(condReg) + ", $zero, " + labelElse]
           + consequence + ["j " + labelEnd, labelElse + ":"] + alternative + [labelEnd + ":"]
      && (n.consequence.Absent? ==> consequence == [])
      && (n.alternative.Absent? ==> alternative == [])
  }

  /** The layout of an `if`: the condition's code; a branch on a zero
      condition to the else label; the consequence's code; a jump to the
      end label; the else label; the alternative's code (none when it is
      absent); the end label. */
  lemma IfLayout(s: GenState, n: Node)
    requires RegisterValid(s) && n.IfExpression?
    ensures var cond := GenNode(s, n.condition);
      var labelElse := NextLabel(cond.st).1;
      var labelEnd := NextLabel(NextLabel(cond.st).0).1;
      IfShape(GenIf(s, n).st.out, cond.st.out, cond.reg, labelElse, labelEnd, n)
  {
    var cond := GenNode(s, n.condition);
    NodeGrows(s, n.condition);
    var (s1, labelElse) := NextLabel(cond.st);
    var (s2, labelEnd) := NextLabel(s1);
    var beq := ["beq " + T(cond.reg) + ", $zero, " + labelElse];
    var s3 := Write(s2, beq);
    var s4 := GenBranch(s3, n.consequence);
    BranchGrows(s3, n.consequence);
    Written(s3, s4);
    var s5 := Write(s4, ["j " + labelEnd, labelElse + ":"]);
    var s6 := GenBranch(s5, n.alternative);
    BranchGrows(s5, n.alternative);
    Written(s5, s6);
    var consequence := s4.out[|s3.out|..];
    var alternative := s6.out[|s5.out|..];
    assert GenIf(s, n).st.out == s6.out + [labelEnd + ":"];
    assert GenIf(s, n).st.out == cond.st.out + beq + consequence + ["j " + labelEnd, labelElse + ":"] + alternative + [labelEnd + ":"];
    assert n.consequence.Absent? ==> consequence == [];
    assert n.alternative.Absent? ==> alternative == [];
    assert IfShape(GenIf(s, n).st.out, cond.st.out, cond.reg, labelElse, labelEnd, n);
  }

  // ----- infix operations -----

  /** The path of an infix operation is chosen by the operand types with
      priority float > bool > int, and both operands are generated, left
      first, before any operator instruction. */
  lemma InfixPath(s: GenState, n: Node)
    requires n.InfixExpression?
    ensures var left := GenNode(s, n.left);
      var right := GenNode(left.st, n.right);
      var r := GenInfix(s, n);
      && (left.typ == "float" || right.typ == "float" ==>
            r == GenFloatInfix(right.st, n.operator, left.reg, right.reg, left.typ, right.typ)
            && (r.typ == "float" || r.typ == "bool"))
      && (left.typ != "float" && right.typ != "float" && (left.typ == "bool" || right.typ == "bool") ==>
            r == GenBoolInfix(right.st, n.operator, left.reg, right.reg) && r.typ == "bool")
      && (left.typ != "float" && right.typ != "float" && left.typ != "bool" && right.typ != "bool" ==>
            r == GenIntInfix(right.st, n.operator, left.reg, right.reg) && r.typ == "int")
  {
  }

  /** On the float path an operand that is not a float is moved into a
      fresh float register and converted there (`mtc1`, `cvt.s.w`) before
      the operation; a float operand is used as it is. */
  lemma IntOperandConverted(s: GenState, op: string, l: int, r: int)
    ensures var f := s.floatRegisterCount;
      var result := GenFloatInfix(s, op, l, r, "int", "float");
      && result.st.out[..|s.out| + 2] == s.out + ["mtc1 " + T(l) + ", " + F(f), "cvt.s.w " + F(f) + ", " + F(f)]
      && result.st.floatRegisterCount == s.floatRegisterCount + 2
    ensures var f := s.floatRegisterCount;
      var result := GenFloatInfix(s, op, l, r, "float", "int");
      && result.st.out[..|s.out| + 2] == s.out + ["mtc1 " + T(r) + ", " + F(f), "cvt.s.w " + F(f) + ", " + F(f)]
    ensures GenFloatInfix(s, op, l, r, "float", "float").st.floatRegisterCount == s.floatRegisterCount + 1
  {
    var f := s.floatRegisterCount;
    var conv := ["mtc1 " + T(l) + ", " + F(f), "cvt.s.w " + F(f) + ", " + F(f)];
    var a := GenFloatInfix(s, op, l, r, "int", "float");
    assert a.st.out[..|s.out| + 2] == (s.out + conv)[..|s.out| + 2];
    var conv' := ["mtc1 " + T(r) + ", " + F(f), "cvt.s.w " + F(f) + ", " + F(f)];
    var b := GenFloatInfix(s, op, l, r, "float", "int");
    assert b.st.out[..|s.out| + 2] == (s.out + conv')[..|s.out| + 2];
  }

  /** Instruction selection on the float path: the four arithmetic
      operators give a float in a fresh float register; the six comparisons
      map to `c.lt.s` … `c.ne.s` and leave 1 or 0 in a fresh integer
      register typed bool; the label counter moves on only for comparisons. */
  lemma FloatOperationSelection(s: GenState, op: string, l: int, r: int)
    ensures var res := GenFloatInfix(s, op, l, r, "float", "float");
      op in {"+", "-", "*", "/"} ==>
        && res.typ == "float" && res.reg == s.floatRegisterCount
        && res.st.out == s.out + [FloatMnemonic(op) + " " + F(res.reg) + ", " + F(l) + ", " + F(r)]
        && res.st.labelCount == s.labelCount
    ensures var res := GenFloatInfix(s, op, l, r, "float", "float");
      var k := IntToString(s.labelCount);
      op in {"<", ">", "<=", ">=", "==", "!="} ==>
        && res.typ == "bool" && res.reg == s.intRegisterCount
        && res.st.out == s.out + [
             "c." + FloatComparisonOp(op) + ".s " + F(l) + ", " + F(r),
             "li " + T(res.reg) + ", 1", "bc1t float_true_" + k,
             "li " + T(res.reg) + ", 0", "float_true_" + k + ":"]
        && res.st.labelCount == s.labelCount + 1
    ensures FloatComparisonOp("<") == "lt" && FloatComparisonOp(">") == "gt"
         && FloatComparisonOp("<=") == "le" && FloatComparisonOp(">=") == "ge"
         && FloatComparisonOp("==") == "eq" && FloatComparisonOp("!=") == "ne"
    ensures var res := GenFloatInfix(s, op, l, r, "float", "float");
      !(op in {"+", "-", "*", "/", "<", ">", "<=", ">=", "==", "!="}) ==>
        res.typ == "float" && res.st.out == s.out
  {
  }

  /** Instruction selection on the integer path: `/` is `div` then `mflo`,
      the other supported operators are one three-operand instruction into
      the next round-robin register, and an unsupported operator emits
      nothing and reports register 0. */
  lemma IntOperationSelection(s: GenState, op: string, l: int, r: int)
    ensures var res := GenIntInfix(s, op, l, r);
      && res.typ == "int"
      && res.st.currentRegister == (s.currentRegister + 1) % 8
      && (op == "/" ==> res.st.out == s.out + ["div " + T(l) + ", " + T(r), "mflo " + T(s.currentRegister)])
      && (op in {"+", "-", "*", "==", "!=", "<", ">", "<=", ">="} ==>
            res.reg == s.currentRegister
            && res.st.out == s.out + [IntMnemonic(op) + " " + T(res.reg) + ", " + T(l) + ", " + T(r)])
      && (!(op in {"+", "-", "*", "/", "==", "!=", "<", ">", "<=", ">="}) ==>
            res.reg == 0 && res.st.out == s.out)
  {
  }

  /** Instruction selection on the bool path: the result goes to
      `$t<intRegisterCount>`, the unbounded integer count, not the
      round-robin register; `&&` and `||` are one `and`/`or`, `==` an `xor`
      and `sltiu …, 1`, `!=` an `xor` and `sltu $zero`; anything else emits
      nothing and reports register 0. */
  lemma BoolOperationSelection(s: GenState, op: string, l: int, r: int)
    ensures var res := GenBoolInfix(s, op, l, r);
      && res.typ == "bool"
      && res.st.intRegisterCount == s.intRegisterCount + 1
      && res.st.currentRegister == s.currentRegister
    ensures var res := GenBoolInfix(s, op, l, r);
      var R := s.intRegisterCount;
      && (op in {"&&", "||", "==", "!="} ==> res.reg == R)
      && (op == "&&" ==> res.st.out == s.out + ["and " + T(R) + ", " + T(l) + ", " + T(r)])
      && (op == "||" ==> res.st.out == s.out + ["or " + T(R) + ", " + T(l) + ", " + T(r)])
      && (op == "==" ==> res.st.out == s.out + ["xor " + T(R) + ", " + T(l) + ", " + T(r),
                                                "sltiu " + T(R) + ", " + T(R) + ", 1"])
      && (op == "!=" ==> res.st.out == s.out + ["xor " + T(R) + ", " + T(l) + ", " + T(r),
                                                "sltu " + T(R) + ", $zero, " + T(R)])
      && (!(op in {"&&", "||", "==", "!="}) ==> res.reg == 0 && res.st.out == s.out)
  {
    var R := s.intRegisterCount;
    if op == "&&" {
      OperandsJoined("and ", T(R), T(l), T(r));
    } else if op == "||" {
      OperandsJoined("or ", T(R), T(l), T(r));
    } else if op == "==" || op == "!=" {
      OperandsJoined("xor ", T(R), T(l), T(r));
    }
  }

  /** An instruction line reads the same whether the mnemonic is joined to
      the operand list as a whole or operand by operand. */
  lemma OperandsJoined(mnemonic: string, d: string, a: string, b: string)
    ensures mnemonic + (d + ", " + a + ", " + b) == mnemonic + d + ", " + a + ", " + b
  {
  }

  // ----- the float path is out of reach -----

  /** No symbol in any table of the chain is typed float. */
  predicate NoFloatSymbols(s: GenState) {
    forall i, x :: 0 <= i < |Scopes(s)| && x in Scopes(s)[i].symbols ==> Scopes(s)[i].symbols[x].typ != "float"
  }

  /** `generateNode` has no case for float literals, so starting from tables
      without float symbols (a fresh run), no node is ever typed float and
      no float symbol is ever defined: the float path is dead code. */
  lemma {:induction false} NoFloatNode(s: GenState, n: Node)
    requires NoFloatSymbols(s)
    ensures GenNode(s, n).typ != "float" && NoFloatSymbols(GenNode(s, n).st)
    decreases n, 3
  {
    if n.Program? {
      NoFloatProgram(s, n.statements);
    } else if n.ExpressionStatement? {
      NoFloatNode(s, n.expression);
    } else if n.InfixExpression? {
      NoFloatInfix(s, n);
    } else if n.IntegerLiteral? || n.Boolean? {
      assert Scopes(GenNode(s, n).st) == Scopes(s);
    } else if n.IfExpression? {
      NoFloatIf(s, n);
    } else if n.BlockStatement? {
      NoFloatStatements(s, n.statements);
    } else if n.CallExpression? {
      NoFloatCall(s, n);
    } else if n.LetStatement? {
      NoFloatLet(s, n);
    } else if n.Variable? {
      NoFloatVariable(s, n);
    }
  }

  lemma {:induction false} NoFloatInfix(s: GenState, n: Node)
    requires NoFloatSymbols(s) && n.InfixExpression?
    ensures GenNode(s, n).typ != "float" && NoFloatSymbols(GenNode(s, n).st)
    decreases n, 2
  {
    var left := GenNode(s, n.left);
    NoFloatNode(s, n.left);
    NoFloatNode(left.st, n.right);
    var right := GenNode(left.st, n.right);
    assert Scopes(GenInfix(s, n).st) == Scopes(right.st);
  }

  lemma {:induction false} NoFloatCall(s: GenState, n: Node)
    requires NoFloatSymbols(s) && n.CallExpression?
    ensures GenNode(s, n).typ != "float" && NoFloatSymbols(GenNode(s, n).st)
    decreases n, 2
  {
    if n.callee.Variable? && n.callee.ident == "SpeakNow" && |n.arguments| == 1 {
      var arg := GenNode(s, n.arguments[0]);
      NoFloatNode(s, n.arguments[0]);
      var (s1, _) := NextLabel(arg.st);
      var (s2, _) := NextLabel(s1);
      assert Scopes(s2) == Scopes(arg.st);
      assert Scopes(GenSpeakNow(s, n).st) == Scopes(arg.st);
    }
  }

  lemma {:induction false} NoFloatLet(s: GenState, n: Node)
    requires NoFloatSymbols(s) && n.LetStatement?
    ensures GenNode(s, n).typ != "float" && NoFloatSymbols(GenNode(s, n).st)
    decreases n, 2
  {
    var value := GenNode(s, n.value);
    NoFloatNode(s, n.value);
    var (table, sym) := DefineIn(value.st.table, n.name, value.typ);
    var t := GenLet(s, n).st;
    assert Scopes(t) == [table] + value.st.parent;
    forall i, x | 0 <= i < |Scopes(t)| && x in Scopes(t)[i].symbols
      ensures Scopes(t)[i].symbols[x].typ != "float"
    {
      if i > 0 {
        assert Scopes(t)[i] == Scopes(value.st)[i];
      } else if x != n.name {
        assert Scopes(value.st)[0] == value.st.table;
      }
    }
  }

  lemma NoFloatVariable(s: GenState, n: Node)
    requires NoFloatSymbols(s) && n.Variable?
    ensures GenNode(s, n).typ != "float" && NoFloatSymbols(GenNode(s, n).st)
  {
    LookupMeaning(Scopes(s), n.ident);
    if Lookup(Scopes(s), n.ident).Some? {
      assert Scopes(GenNode(s, n).st) == Scopes(s);
    }
  }

  lemma {:induction false} NoFloatProgram(s: GenState, ss: seq<Node>)
    requires NoFloatSymbols(s)
    ensures NoFloatSymbols(GenProgram(s, ss))
    decreases ss, 2
  {
    var s1 := Write(s, MainPrologue);
    assert Scopes(s1) == Scopes(s);
    NoFloatStatements(s1, ss);
    var s2 := GenStatements(s1, ss);
    assert Scopes(Write(s2, MainEpilogue)) == Scopes(s2);
  }

  lemma {:induction false} NoFloatStatements(s: GenState, ss: seq<Node>)
    requires NoFloatSymbols(s)
    ensures NoFloatSymbols(GenStatements(s, ss))
    decreases ss, 1
  {
    if ss != [] {
      NoFloatNode(s, ss[0]);
      NoFloatStatements(GenNode(s, ss[0]).st, ss[1..]);
    }
  }

  lemma {:induction false} NoFloatBranch(s: GenState, b: Block)
    requires NoFloatSymbols(s)
    ensures NoFloatSymbols(GenBranch(s, b))
    decreases b, 2
  {
    if b.Present? {
      NoFloatStatements(s, b.statements);
    }
  }

  lemma {:induction false} NoFloatIf(s: GenState, n: Node)
    requires NoFloatSymbols(s) && n.IfExpression?
    ensures NoFloatSymbols(GenIf(s, n).st)
    decreases n, 2
  {
    var cond := GenNode(s, n.condition);
    NoFloatNode(s, n.condition);
    var (s1, labelElse) := NextLabel(cond.st);
    var (s2, labelEnd) := NextLabel(s1);
    var s3 := Write(s2, ["beq " + T(cond.reg) + ", $zero, " + labelElse]);
    assert Scopes(s3) == Scopes(cond.st);
    var s4 := GenBranch(s3, n.consequence);
    NoFloatBranch(s3, n.consequence);
    var s5 := Write(s4, ["j " + labelEnd, labelElse + ":"]);
    assert Scopes(s5) == Scopes(s4);
    var s6 := GenBranch(s5, n.alternative);
    NoFloatBranch(s5, n.alternative);
    assert Scopes(Write(s6, [labelEnd + ":"])) == Scopes(s6);
  }

  /** A whole run starts from empty tables, so nothing in it is a float. */
  lemma RunHasNoFloats(s: GenState, node: Node)
    ensures NoFloatSymbols(Run(s, node))
  {
    var s0 := GenState(EmptyScope, [], 0, 0, "", s.intRegisterCount, s.floatRegisterCount, DataHeader);
    assert NoFloatSymbols(s0);
    if node.Program? {
      NoFloatProgram(s0, node.statements);
    } else {
      NoFloatNode(s0, node);
    }
  }

  // ----- SpeakNow -----

  /** The `SpeakNow` rules: any argument count but one emits nothing; an
      int is printed with system call 1; a bool through a branch between
      `true_str` and `false_str` and system call 4, never with system call
      1; both are followed by the newline print; any other type prints
      nothing at all. */
  lemma SpeakNowRules(s: GenState, n: Node)
    requires n.CallExpression?
    ensures |n.arguments| != 1 ==> GenSpeakNow(s, n) == Result(s, 0, "")
    ensures |n.arguments| == 1 ==>
      var arg := GenNode(s, n.arguments[0]);
      var r := GenSpeakNow(s, n);
      && (arg.typ == "int" ==>
            r == Result(arg.st.(out := arg.st.out + IntPrint(arg.reg) + NewlinePrint), arg.reg, "int")
            && IntPrint(arg.reg)[1] == "li $v0, 1")
      && (arg.typ == "bool" ==>
            var labelFalse := "label_" + IntToString(arg.st.labelCount + 1);
            var labelEnd := "label_" + IntToString(arg.st.labelCount + 2);
            && r.typ == "bool" && r.reg == arg.reg
            && r.st.out == arg.st.out + BoolPrint(arg.reg, labelFalse, labelEnd) + NewlinePrint
            && r.st.labelCount == arg.st.labelCount + 2
            && BoolPrint(arg.reg, labelFalse, labelEnd)[6] == "li $v0, 4"
            && "li $v0, 1" !in BoolPrint(arg.reg, labelFalse, labelEnd) + NewlinePrint)
      && (arg.typ != "int" && arg.typ != "bool" ==> r == Result(arg.st, 0, ""))
  {
    if |n.arguments| == 1 {
      var arg := GenNode(s, n.arguments[0]);
      if arg.typ == "bool" {
        var labelFalse := "label_" + IntToString(arg.st.labelCount + 1);
        var labelEnd := "label_" + IntToString(arg.st.labelCount + 2);
        var lines := BoolPrint(arg.reg, labelFalse, labelEnd) + NewlinePrint;
        forall k | 0 <= k < |lines| ensures lines[k] != "li $v0, 1" {
          if k == 0 {
            assert lines[k][0] == 'b';
          } else if k == 3 {
            assert lines[k][|lines[k]| - 1] == ':';
          } else if k == 5 {
            assert lines[k][|lines[k]| - 1] == ':';
          } else if k == 2 {
            assert lines[k][0] == 'j';
          }
        }
      }
    }
  }

  // ----- storage of variables -----

  /** A `let` outside any function declares a word named after the
      variable in the data section and stores into it; inside a function it
      stores into the slot the table just allocated, below the frame
      pointer. Either way the name then resolves, in the innermost table,
      to a symbol of the value's type at the old allocator position. */
  lemma LetStorage(s: GenState, n: Node)
    requires n.LetStatement?
    ensures var value := GenNode(s, n.value);
      var addr := value.st.table.nextAddress;
      var r := GenLet(s, n);
      && r.reg == value.reg && r.typ == value.typ
      && Lookup(Scopes(r.st), n.name) == Some(Symbol(n.name, value.typ, addr))
      && r.st.table.nextAddress == addr + 4
      && (value.st.functionName == "" ==>
            r.st.out == value.st.out + [".data", n.name + ": .word 0", ".text", "sw " + T(value.reg) + ", " + n.name])
      && (value.st.functionName != "" ==>
            r.st.out == value.st.out + ["sw " + T(value.reg) + ", -" + IntToString(addr) + "($fp)"])
  {
  }

  /** A variable reference: a name no table has emits nothing and reports
      register 0 and no type; otherwise one load into the next round-robin
      register, typed as the symbol. Outside a function the load is by
      name; inside one, a positive address is read above the frame pointer
      and any other below it. */
  lemma VariableLoad(s: GenState, n: Node)
    requires n.Variable?
    ensures (forall i :: 0 <= i < |Scopes(s)| ==> n.ident !in Scopes(s)[i].symbols) ==>
      GenVariable(s, n) == Result(s, 0, "")
    ensures Lookup(Scopes(s), n.ident).Some? ==>
      var sym := Lookup(Scopes(s), n.ident).value;
      var r := GenVariable(s, n);
      var reg := s.currentRegister;
      && r.reg == reg && r.typ == sym.typ
      && r.st.out == s.out + [
           if s.functionName == "" then "lw " + T(reg) + ", " + n.ident
           else if sym.address > 0 then "lw " + T(reg) + ", " + IntToString(sym.address) + "($fp)"
           else "lw " + T(reg) + ", -" + IntToString(-sym.address) + "($fp)"]
  {
    LookupMeaning(Scopes(s), n.ident);
  }

  /** A `let` inside a function stores at `-addr($fp)`, but a later read
      of the same name, whose address is positive once any slot of the
      table has been used, loads from `+addr($fp)`: a different word. */
  lemma LocalReadsOtherSlot(s: GenState, n: Node)
    requires RegisterValid(s) && n.LetStatement? && s.functionName != ""
    requires GenNode(s, n.value).st.table.nextAddress > 0
    ensures var addr := GenNode(s, n.value).st.table.nextAddress;
      var let := GenLet(s, n);
      var load := GenVariable(let.st, Variable(n.name));
      && let.st.out[|let.st.out| - 1] == "sw " + T(let.reg) + ", -" + IntToString(addr) + "($fp)"
      && load.st.out[|load.st.out| - 1] == "lw " + T(let.st.currentRegister) + ", " + IntToString(addr) + "($fp)"
  {
    var value := GenNode(s, n.value);
    NodeGrows(s, n.value);
    var let := GenLet(s, n);
    assert Lookup(Scopes(let.st), n.name) == Some(Symbol(n.name, value.typ, value.st.table.nextAddress));
  }

  // ----- functions -----

  /** Parameter `i` of a function is stored at `4*(i+2)`, above the frame
      pointer, typed int, and the new table's allocator has moved past one
      slot per parameter. */
  lemma {:induction false} ParameterAddresses(sc: Scope, params: seq<string>, i: nat)
    requires i <= |params|
    requires forall a, b :: 0 <= a < b < |params| ==> params[a] != params[b]
    requires sc.nextAddress == 4 * i
    requires forall j :: 0 <= j < i ==> params[j] in sc.symbols && sc.symbols[params[j]] == Symbol(params[j], "int", 4 * (j + 2))
    ensures var r := DefineParams(sc, params, i);
      && r.nextAddress == 4 * |params|
      && forall j :: 0 <= j < |params| ==> params[j] in r.symbols && r.symbols[params[j]] == Symbol(params[j], "int", 4 * (j + 2))
    decreases |params| - i
  {
    if i < |params| {
      var (sc1, sym) := DefineIn(sc, params[i], "int");
      var sc2 := sc1.(symbols := sc1.symbols[params[i] := sym.(address := 4 * (i + 2))]);
      forall j | 0 <= j < i + 1 ensures params[j] in sc2.symbols && sc2.symbols[params[j]] == Symbol(params[j], "int", 4 * (j + 2)) {
        if j < i {
          assert params[j] != params[i];
        }
      }
      ParameterAddresses(sc2, params, i + 1);
    }
  }

  /** `generateFunction`: inside the body the current table is a new one
      below the caller's chain, holding each parameter at `4*(i+2)`, and the
      name is `func_N` for the label count on entry; at the end the caller's
      table, chain and function name are back, and the function reports no
      register and the type "function". */
  lemma FunctionScope(s: GenState, n: Node)
    requires n.FunctionLiteral?
    requires forall a, b :: 0 <= a < b < |n.parameters| ==> n.parameters[a] != n.parameters[b]
    ensures var inside := EnterFunction(s, n);
      && inside.parent == Scopes(s)
      && inside.functionName == "func_" + IntToString(s.labelCount)
      && inside.labelCount == s.labelCount + 1
      && (forall i :: 0 <= i < |n.parameters| ==>
            Lookup(Scopes(inside), n.parameters[i]) == Some(Symbol(n.parameters[i], "int", 4 * (i + 2))))
    ensures var r := GenFunction(s, n);
      && r.st.table == s.table && r.st.parent == s.parent && r.st.functionName == s.functionName
      && r.reg == 0 && r.typ == "function"
  {
    ParameterAddresses(EmptyScope, n.parameters, 0);
  }

  // ----- calls -----

  /** `t` grows from `s` by at least `n` lines. */
  predicate GrowsBy(s: GenState, t: GenState, n: nat) {
    Grows(s, t) && |t.out| >= |s.out| + n
  }

  /** Pushing the arguments only appends, at least two lines (the store and
      the stack move) per argument. */
  lemma {:induction false} PushArgsGrows(s: GenState, args: seq<Node>, k: nat)
    requires RegisterValid(s) && k <= |args|
    ensures GrowsBy(s, PushArgs(s, args, k), 2 * k)
    decreases k
  {
    if k == 0 {
      WriteGrows(s, []);
      assert Write(s, []) == s;
    } else {
      var s1 := PushArg(s, args[k - 1]);
      PushArgGrows(s, args[k - 1]);
      PushArgsGrows(s1, args, k - 1);
      GrowsByTrans(s, s1, PushArgs(s1, args, k - 1), 2, 2 * (k - 1));
    }
  }

  /** Two growth steps of at least `m` and `n` lines make one of at least
      `m + n`. */
  lemma GrowsByTrans(a: GenState, b: GenState, c: GenState, m: nat, n: nat)
    ensures GrowsBy(a, b, m) && GrowsBy(b, c, n) ==> GrowsBy(a, c, m + n)
  {
    if GrowsBy(a, b, m) && GrowsBy(b, c, n) {
      GrowsTrans(a, b, c);
    }
  }

  lemma PushArgGrows(s: GenState, arg: Node)
    requires RegisterValid(s)
    ensures GrowsBy(s, PushArg(s, arg), 2)
  {
    var r := GenNode(s, arg);
    NodeGrows(s, arg);
    WriteGrows(r.st, ["sw " + T(r.reg) + ", 0($sp)", "addi $sp, $sp, -4"]);
    GrowsTrans(s, r.st, PushArg(s, arg));
  }

  /** `generateFunctionCall`: a call of `SpeakNow` is `generateSpeakNow`;
      any other call pushes its arguments and then, when the callee is a
      name, jumps to it with `jal`, pops four bytes per argument and moves
      `$v0` into the next round-robin register, typed "int"; when the
      callee is not a name it panics with the pushes already written. */
  lemma FunctionCallLayout(s: GenState, n: Node)
    requires RegisterValid(s) && n.CallExpression?
    ensures n.callee.Variable? && n.callee.ident == "SpeakNow" ==> GenFunctionCall(s, n) == Returned(GenSpeakNow(s, n))
    ensures var pushed := PushArgs(s, n.arguments, |n.arguments|);
      !(n.callee.Variable? && n.callee.ident == "SpeakNow") ==>
        && Grows(s, pushed)
        && (!n.callee.Variable? ==> GenFunctionCall(s, n) == Panicked(pushed))
        && (n.callee.Variable? ==>
              && GenFunctionCall(s, n).Returned?
              && var r := GenFunctionCall(s, n).r;
              && r.st.out == pushed.out + ["jal " + n.callee.ident,
                                           "addi $sp, $sp, " + IntToString(4 * |n.arguments|),
                                           "move " + T(pushed.currentRegister) + ", $v0"]
              && r.reg == pushed.currentRegister && 0 <= r.reg < 8 && r.typ == "int"
              && r.st.currentRegister == (r.reg + 1) % 8
              && Grows(s, r.st))
  {
    if !(n.callee.Variable? && n.callee.ident == "SpeakNow") {
      var pushed := PushArgs(s, n.arguments, |n.arguments|);
      PushArgsGrows(s, n.arguments, |n.arguments|);
      if n.callee.Variable? {
        var r := GenFunctionCall(s, n).r;
        assert r.st.out[..|s.out|] == pushed.out[..|s.out|];
      }
    }
  }

  // ----- a whole run -----

  /** The bool path writes its result to `$t<intRegisterCount>`, and a
      run starts from the count left by earlier runs: with a count of 8 or
      more, `true && false` computes into a register that is none of
      `$t0..$t7`. */
  lemma BoolResultRegisterUnbounded(s: GenState)
    ensures var t := Run(s, InfixExpression("&&", Boolean(true), Boolean(false)));
      && t.out == DataHeader + ["li $t0, 1", "li $t1, 0", "and " + T(s.intRegisterCount) + ", $t0, $t1"]
      && t.intRegisterCount == s.intRegisterCount + 1
    ensures s.intRegisterCount >= 8 ==> forall i :: 0 <= i < 8 ==> T(s.intRegisterCount) != T(i)
  {
    var k := s.intRegisterCount;
    var n := InfixExpression("&&", Boolean(true), Boolean(false));
    var s0 := GenState(EmptyScope, [], 0, 0, "", k, s.floatRegisterCount, DataHeader);
    assert T(0) == "$t0" && T(1) == "$t1";
    assert "li " + T(0) + ", 1" == "li $t0, 1" && "li " + T(1) + ", 0" == "li $t1, 0";
    assert "and " + T(k) + ", " + T(0) + ", " + T(1) == "and " + T(k) + ", $t0, $t1";
    var left := GenNode(s0, n.left);
    assert left.reg == 0 && left.typ == "bool" && left.st.out == DataHeader + ["li $t0, 1"];
    var right := GenNode(left.st, n.right);
    assert right.reg == 1 && right.typ == "bool" && right.st.out == DataHeader + ["li $t0, 1", "li $t1, 0"];
    assert right.st.intRegisterCount == k;
    BoolOperationSelection(right.st, "&&", 0, 1);
    assert Run(s, n) == GenBoolInfix(right.st, "&&", 0, 1).st;
    forall i | 0 <= i < 8 && k >= 8 ensures T(k) != T(i) {
      NumberedNamesDistinct("$t", k, i);
    }
  }

  /** `GenerateMIPS` resets the tables, the round-robin register, the
      label counter and the function name, but not the integer and float
      register counts: two runs of the same node differ only if those two
      counts differ, and the output starts with the fixed data header. */
  lemma RunResets(s: GenState, t: GenState, node: Node)
    requires s.intRegisterCount == t.intRegisterCount && s.floatRegisterCount == t.floatRegisterCount
    ensures Run(s, node) == Run(t, node)
    ensures |Run(s, node).out| >= |DataHeader| && Run(s, node).out[..|DataHeader|] == DataHeader
    ensures Run(s, node).intRegisterCount >= s.intRegisterCount
    ensures Run(s, node).floatRegisterCount >= s.floatRegisterCount
  {
    var s0 := GenState(EmptyScope, [], 0, 0, "", s.intRegisterCount, s.floatRegisterCount, DataHeader);
    if node.Program? {
      ProgramGrows(s0, node.statements);
    } else {
      NodeGrows(s0, node);
    }
  }
}
