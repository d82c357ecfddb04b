/** The label discipline of the main code generator (compiler/compiler.go):
    every `label_N:` line a generator writes defines a label that
    `getNextLabel` handed out while that generator ran, and no label is
    defined twice, so a whole run defines `label_1` … `label_N` at most
    once each. */
module CodegenLabels {
  import opened Wrappers
  import opened Strings
  import opened Ast
  import opened Symbols
  import opened CodegenSpec
  import opened CodegenProps

  /** The line that defines label number `k`. */
  function LabelLine(k: int): string {
    "label_" + IntToString(k) + ":"
  }

  /** The number of the `label_N` a line defines, or `None` when it
      defines none. */
  function LabelNumber(line: string): Option<int> {
    if && |line| >= 8
       && line[0] == 'l' && line[1] == 'a' && line[2] == 'b'
       && line[3] == 'e' && line[4] == 'l' && line[5] == '_'
       && line[|line| - 1] == ':' && IsDecimalText(line[6..|line| - 1])
    then Some(ParseInt(line[6..|line| - 1]))
    else None
  }

  /** The line for label `k` is read back as label `k`. */
  lemma LabelLineNumber(k: int)
    ensures LabelNumber(LabelLine(k)) == Some(k)
  {
    var line := LabelLine(k);
    IntRoundTrip(k);
    assert line[6..|line| - 1] == IntToString(k);
  }

  /** A line that does not start `lab` or does not end in `:` defines no
      label. */
  lemma Unlabelled(line: string)
    requires |line| < 3 || line[0] != 'l' || line[1] != 'a' || line[2] != 'b' || line[|line| - 1] != ':'
    ensures LabelNumber(line).None?
  {
  }

  // ----- labels in a run of lines -----

  /** Every label `lines` define lies in `(lo, hi]`. */
  predicate LabelsWithin(lines: seq<string>, lo: int, hi: int) {
    forall i :: 0 <= i < |lines| && LabelNumber(lines[i]).Some? ==> lo < LabelNumber(lines[i]).value <= hi
  }

  /** No label is defined twice in `lines`. */
  predicate LabelsOnce(lines: seq<string>) {
    forall i, j :: 0 <= i < j < |lines| && LabelNumber(lines[i]).Some? ==> LabelNumber(lines[i]) != LabelNumber(lines[j])
  }

  predicate Labelled(lines: seq<string>, lo: int, hi: int) {
    LabelsWithin(lines, lo, hi) && LabelsOnce(lines)
  }

  predicate NoLabels(lines: seq<string>) {
    forall i :: 0 <= i < |lines| ==> LabelNumber(lines[i]).None?
  }

  /** No label defined in `a` is defined in `b`. */
  predicate Apart(a: seq<string>, b: seq<string>) {
    forall i, j :: 0 <= i < |a| && 0 <= j < |b| && LabelNumber(a[i]).Some? ==> LabelNumber(a[i]) != LabelNumber(b[j])
  }

  lemma Join(a: seq<string>, b: seq<string>, lo: int, hi: int)
    requires Labelled(a, lo, hi) && Labelled(b, lo, hi) && Apart(a, b)
    ensures Labelled(a + b, lo, hi)
  {
    var c := a + b;
    forall i, j | 0 <= i < j < |c| && LabelNumber(c[i]).Some?
      ensures LabelNumber(c[i]) != LabelNumber(c[j])
    {
      if j < |a| {
        assert c[i] == a[i] && c[j] == a[j];
      } else if i < |a| {
        assert c[i] == a[i] && c[j] == b[j - |a|];
      } else {
        assert c[i] == b[i - |a|] && c[j] == b[j - |a|];
      }
    }
  }

  lemma Widen(a: seq<string>, lo: int, hi: int, lo': int, hi': int)
    requires Labelled(a, lo, hi) && lo' <= lo && hi <= hi'
    ensures Labelled(a, lo', hi')
  {
  }

  lemma ApartByRange(a: seq<string>, b: seq<string>, la: int, ha: int, lb: int, hb: int)
    requires LabelsWithin(a, la, ha) && LabelsWithin(b, lb, hb) && (ha <= lb || hb <= la)
    ensures Apart(a, b)
  {
  }

  lemma ApartAppend(a1: seq<string>, a2: seq<string>, b: seq<string>)
    requires Apart(a1, b) && Apart(a2, b)
    ensures Apart(a1 + a2, b)
  {
    var a := a1 + a2;
    forall i, j | 0 <= i < |a| && 0 <= j < |b| && LabelNumber(a[i]).Some?
      ensures LabelNumber(a[i]) != LabelNumber(b[j])
    {
      if i < |a1| {
        assert a[i] == a1[i];
      } else {
        assert a[i] == a2[i - |a1|];
      }
    }
  }

  /** Lines that define no label fit any range and share no label. */
  lemma Plain(a: seq<string>, b: seq<string>, lo: int, hi: int)
    requires NoLabels(a)
    ensures Labelled(a, lo, hi) && Apart(a, b) && Apart(b, a)
  {
  }

  /** A single label line. */
  lemma OneLabel(k: int)
    ensures Labelled([LabelLine(k)], k - 1, k)
  {
    LabelLineNumber(k);
  }

  // ----- generator steps -----

  /** From `s` to `t` the buffer only grew, and the lines written define
      only labels handed out in between, each once. */
  ghost predicate Step(s: GenState, t: GenState) {
    Grows(s, t) && Labelled(t.out[|s.out|..], s.labelCount, t.labelCount)
  }

  lemma StepTrans(a: GenState, b: GenState, c: GenState)
    requires Step(a, b) && Step(b, c)
    ensures Step(a, c)
  {
    var x := b.out[|a.out|..];
    var y := c.out[|b.out|..];
    GrowsTrans(a, b, c);
    assert c.out[|a.out|..] == x + y;
    ApartByRange(x, y, a.labelCount, b.labelCount, b.labelCount, c.labelCount);
    Widen(x, a.labelCount, b.labelCount, a.labelCount, c.labelCount);
    Widen(y, b.labelCount, c.labelCount, a.labelCount, c.labelCount);
    Join(x, y, a.labelCount, c.labelCount);
  }

  /** A step whose new lines define no label. */
  lemma PlainStep(s: GenState, t: GenState)
    requires Grows(s, t) && NoLabels(t.out[|s.out|..])
    ensures Step(s, t)
  {
    Plain(t.out[|s.out|..], [], s.labelCount, t.labelCount);
  }

  lemma WriteStep(s: GenState, lines: seq<string>)
    requires RegisterValid(s) && NoLabels(lines)
    ensures Step(s, Write(s, lines))
  {
    WriteGrows(s, lines);
    assert Write(s, lines).out[|s.out|..] == lines;
  }

  /** A step `s` to `m`, then lines `x` whose labels were handed out after
      `m`. */
  lemma Extend(s: GenState, m: GenState, t: GenState, x: seq<string>)
    requires Step(s, m) && Grows(s, t) && t.out == m.out + x
    requires m.labelCount <= t.labelCount && Labelled(x, m.labelCount, t.labelCount)
    ensures Step(s, t)
  {
    var w := m.out[|s.out|..];
    assert t.out[|s.out|..] == w + x;
    ApartByRange(w, x, s.labelCount, m.labelCount, m.labelCount, t.labelCount);
    Widen(w, s.labelCount, m.labelCount, s.labelCount, t.labelCount);
    Widen(x, m.labelCount, t.labelCount, s.labelCount, t.labelCount);
    Join(w, x, s.labelCount, t.labelCount);
  }

  // ----- every generator -----

  /** The lines any generator writes define only labels it took, each
      once. */
  lemma {:induction false} NodeLabels(s: GenState, n: Node)
    requires RegisterValid(s)
    ensures Step(s, GenNode(s, n).st)
    decreases n, 3
  {
    NodeGrows(s, n);
    var t := GenNode(s, n).st;
    if n.Program? {
      ProgramLabels(s, n.statements);
    } else if n.ExpressionStatement? {
      NodeLabels(s, n.expression);
    } else if n.InfixExpression? {
      InfixLabels(s, n);
    } else if n.IntegerLiteral? || n.Boolean? {
      assert LabelNumber(t.out[|s.out|]).None?;
      PlainStep(s, t);
    } else if n.IfExpression? {
      IfLabelLines(s, n);
    } else if n.BlockStatement? {
      StatementsLabels(s, n.statements);
    } else if n.CallExpression? && n.callee.Variable? && n.callee.ident == "SpeakNow" {
      SpeakNowLabels(s, n);
    } else if n.LetStatement? {
      LetLabels(s, n);
    } else if n.Variable? {
      VariableLabels(s, n);
    } else {
      PlainStep(s, t);
    }
  }

  lemma {:induction false} ProgramLabels(s: GenState, ss: seq<Node>)
    requires RegisterValid(s)
    ensures Step(s, GenProgram(s, ss))
    decreases ss, 2
  {
    var s1 := Write(s, MainPrologue);
    WriteStep(s, MainPrologue);
    StatementsLabels(s1, ss);
    var s2 := GenStatements(s1, ss);
    WriteStep(s2, MainEpilogue);
    StepTrans(s, s1, s2);
    StepTrans(s, s2, Write(s2, MainEpilogue));
  }

  lemma {:induction false} StatementsLabels(s: GenState, ss: seq<Node>)
    requires RegisterValid(s)
    ensures Step(s, GenStatements(s, ss))
    decreases ss, 1
  {
    if ss == [] {
      PlainStep(s, s);
    } else {
      var s1 := GenNode(s, ss[0]).st;
      NodeLabels(s, ss[0]);
      StatementsLabels(s1, ss[1..]);
      StepTrans(s, s1, GenStatements(s1, ss[1..]));
    }
  }

  lemma {:induction false} BranchLabels(s: GenState, b: Block)
    requires RegisterValid(s)
    ensures Step(s, GenBranch(s, b))
    decreases b, 2
  {
    match b
    case Absent => PlainStep(s, s);
    case Present(ss) => StatementsLabels(s, ss);
  }

  lemma {:induction false} InfixLabels(s: GenState, n: Node)
    requires RegisterValid(s) && n.InfixExpression?
    ensures Step(s, GenInfix(s, n).st)
    decreases n, 2
  {
    var left := GenNode(s, n.left);
    NodeLabels(s, n.left);
    var right := GenNode(left.st, n.right);
    NodeLabels(left.st, n.right);
    StepTrans(s, left.st, right.st);
    OperationLabels(right.st, n.operator, left.reg, right.reg, left.typ, right.typ);
    StepTrans(s, right.st, GenInfix(s, n).st);
  }

  /** The instructions of the three infix paths define no `label_N` (the
      float comparison's own label is `float_true_N`). */
  lemma OperationLabels(s: GenState, op: string, l: int, r: int, lt: string, rt: string)
    requires RegisterValid(s)
    ensures Step(s, GenFloatInfix(s, op, l, r, lt, rt).st)
    ensures Step(s, GenBoolInfix(s, op, l, r).st)
    ensures Step(s, GenIntInfix(s, op, l, r).st)
  {
    var (s1, fl) := FloatOperand(s, l, lt);
    FloatOperandLabels(s, l, lt);
    var (s2, fr) := FloatOperand(s1, r, rt);
    FloatOperandLabels(s1, r, rt);
    FloatOperationLabels(s2, op, fl, fr);
    StepTrans(s, s1, s2);
    StepTrans(s, s2, FloatOperation(s2, op, fl, fr).st);
    BoolInfixLabels(s, op, l, r);
    IntInfixLabels(s, op, l, r);
  }

  lemma FloatOperandLabels(s: GenState, reg: int, typ: string)
    requires RegisterValid(s)
    ensures Step(s, FloatOperand(s, reg, typ).0)
  {
    FloatOperandGrows(s, reg, typ);
    var t := FloatOperand(s, reg, typ).0;
    if typ != "float" {
      assert LabelNumber(t.out[|s.out|]).None? && LabelNumber(t.out[|s.out| + 1]).None?;
    }
    PlainStep(s, t);
  }

  lemma FloatOperationLabels(s: GenState, op: string, l: int, r: int)
    requires RegisterValid(s)
    ensures Step(s, FloatOperation(s, op, l, r).st)
  {
    FloatOperationGrows(s, op, l, r);
    var t := FloatOperation(s, op, l, r).st;
    var (s1, res) := NextFloatRegister(s);
    if FloatMnemonic(op) != "" {
      FloatArithmeticPlain(op, res, l, r);
      assert t.out[|s.out|..] == [FloatMnemonic(op) + " " + F(res) + ", " + F(l) + ", " + F(r)];
    } else if FloatComparisonOp(op) != "" {
      var (s2, ir) := NextIntRegister(s1);
      FloatComparisonPlain(op, l, r, ir, IntToString(s2.labelCount));
    } else {
      assert t.out[|s.out|..] == [];
    }
    PlainStep(s, t);
  }

  lemma FloatArithmeticPlain(op: string, res: int, l: int, r: int)
    requires FloatMnemonic(op) != ""
    ensures NoLabels([FloatMnemonic(op) + " " + F(res) + ", " + F(l) + ", " + F(r)])
  {
    var line := FloatMnemonic(op) + " " + F(res) + ", " + F(l) + ", " + F(r);
    assert line[0] == FloatMnemonic(op)[0] != 'l';
  }

  /** The float comparison's lines; its label is `float_true_N`. */
  lemma FloatComparisonPlain(op: string, l: int, r: int, ir: int, k: string)
    ensures NoLabels([
        "c." + FloatComparisonOp(op) + ".s " + F(l) + ", " + F(r),
        "li " + T(ir) + ", 1",
        "bc1t float_true_" + k,
        "li " + T(ir) + ", 0",
        "float_true_" + k + ":"])
  {
    var x := [
        "c." + FloatComparisonOp(op) + ".s " + F(l) + ", " + F(r),
        "li " + T(ir) + ", 1",
        "bc1t float_true_" + k,
        "li " + T(ir) + ", 0",
        "float_true_" + k + ":"];
    assert x[0][0] == 'c' && x[1][2] == ' ' && x[2][0] == 'b' && x[3][2] == ' ' && x[4][0] == 'f';
  }

  lemma BoolInfixLabels(s: GenState, op: string, l: int, r: int)
    requires RegisterValid(s)
    ensures Step(s, GenBoolInfix(s, op, l, r).st)
  {
    BoolInfixGrows(s, op, l, r);
    var t := GenBoolInfix(s, op, l, r).st;
    var x := t.out[|s.out|..];
    if op == "&&" || op == "||" {
      assert LabelNumber(x[0]).None?;
    } else if op == "==" || op == "!=" {
      assert LabelNumber(x[0]).None? && LabelNumber(x[1]).None?;
    }
    PlainStep(s, t);
  }

  lemma IntInfixLabels(s: GenState, op: string, l: int, r: int)
    requires RegisterValid(s)
    ensures Step(s, GenIntInfix(s, op, l, r).st)
  {
    IntInfixGrows(s, op, l, r);
    var t := GenIntInfix(s, op, l, r).st;
    var x := t.out[|s.out|..];
    if op == "/" {
      assert LabelNumber(x[0]).None? && LabelNumber(x[1]).None?;
    } else if IntMnemonic(op) != "" {
      assert IntMnemonic(op)[0] != 'l';
      assert LabelNumber(x[0]).None?;
    }
    PlainStep(s, t);
  }

  /** `SpeakNow` of a bool defines its two labels, taken after the
      argument's code, once each. */
  lemma {:induction false} SpeakNowLabels(s: GenState, n: Node)
    requires RegisterValid(s) && n.CallExpression?
    ensures Step(s, GenSpeakNow(s, n).st)
    decreases n, 2
  {
    SpeakNowGrows(s, n);
    if |n.arguments| != 1 {
      PlainStep(s, s);
    } else {
      var arg := GenNode(s, n.arguments[0]);
      NodeLabels(s, n.arguments[0]);
      var t := GenSpeakNow(s, n).st;
      PrintPlain(arg.reg);
      if arg.typ == "int" {
        var t1 := Write(arg.st, IntPrint(arg.reg));
        WriteStep(arg.st, IntPrint(arg.reg));
        WriteStep(t1, NewlinePrint);
        StepTrans(s, arg.st, t1);
        StepTrans(s, t1, t);
      } else if arg.typ == "bool" {
        var a := arg.st.labelCount;
        var (s1, labelFalse) := NextLabel(arg.st);
        var (s2, labelEnd) := NextLabel(s1);
        var x := BoolPrint(arg.reg, labelFalse, labelEnd);
        var u := Write(s2, x);
        assert labelFalse == "label_" + IntToString(a + 1) && labelEnd == "label_" + IntToString(a + 2);
        BoolPrintLabels(arg.reg, a);
        assert Grows(arg.st, s2);
        WriteGrows(s2, x);
        GrowsTrans(arg.st, s2, u);
        GrowsTrans(s, arg.st, u);
        assert u.labelCount == a + 2 && u.out == arg.st.out + x;
        Extend(s, arg.st, u, x);
        WriteStep(u, NewlinePrint);
        StepTrans(s, u, t);
      } else {
        PlainStep(arg.st, t);
        StepTrans(s, arg.st, t);
      }
    }
  }

  /** The integer print and the newline define no label. */
  lemma PrintPlain(reg: int)
    ensures NoLabels(IntPrint(reg)) && NoLabels(NewlinePrint)
  {
    var p := IntPrint(reg);
    assert p[0][0] == 'm' && p[1][2] == ' ' && p[2][0] == 's';
    forall i | 0 <= i < 3 ensures LabelNumber(p[i]).None? && LabelNumber(NewlinePrint[i]).None? {
      Unlabelled(p[i]);
      Unlabelled(NewlinePrint[i]);
    }
  }

  /** The bool print defines the two labels it is given, once each. */
  lemma BoolPrintLabels(reg: int, a: int)
    ensures Labelled(BoolPrint(reg, "label_" + IntToString(a + 1), "label_" + IntToString(a + 2)), a, a + 2)
  {
    var x := BoolPrint(reg, "label_" + IntToString(a + 1), "label_" + IntToString(a + 2));
    assert x[0][0] == 'b' && x[2][0] == 'j' && x[7][0] == 's';
    assert x[1][2] == ' ' && x[4][2] == ' ' && x[6][2] == ' ';
    forall i | 0 <= i < |x|
      ensures LabelNumber(x[i]) == if i == 3 then Some(a + 1) else if i == 5 then Some(a + 2) else None
    {
      if i == 3 {
        LabelLineNumber(a + 1);
      } else if i == 5 {
        LabelLineNumber(a + 2);
      } else {
        Unlabelled(x[i]);
      }
    }
  }

  lemma {:induction false} LetLabels(s: GenState, n: Node)
    requires RegisterValid(s) && n.LetStatement?
    ensures Step(s, GenLet(s, n).st)
    decreases n, 2
  {
    LetGrows(s, n);
    var value := GenNode(s, n.value);
    NodeLabels(s, n.value);
    var t := GenLet(s, n).st;
    var (table, sym) := DefineIn(value.st.table, n.name, value.typ);
    var x := if value.st.functionName == "" then GlobalStore(value.reg, n.name) else [LocalStore(value.reg, sym.address)];
    assert t.out == value.st.out + x;
    StorePlain(value.reg, n.name, sym.address);
    Plain(x, [], value.st.labelCount, t.labelCount);
    Extend(s, value.st, t, x);
  }

  lemma StorePlain(reg: int, name: string, address: int)
    ensures NoLabels(GlobalStore(reg, name)) && NoLabels([LocalStore(reg, address)])
  {
    var g := GlobalStore(reg, name);
    assert g[1][|g[1]| - 1] == '0';
    Unlabelled(g[0]);
    Unlabelled(g[1]);
    Unlabelled(g[2]);
    assert g[3][0] == 's';
    Unlabelled(g[3]);
    assert LocalStore(reg, address)[0] == 's';
    Unlabelled(LocalStore(reg, address));
  }

  lemma VariableLabels(s: GenState, n: Node)
    requires RegisterValid(s) && n.Variable?
    ensures Step(s, GenVariable(s, n).st)
  {
    var t := GenVariable(s, n).st;
    match Lookup(Scopes(s), n.ident)
    case None => PlainStep(s, s);
    case Some(sym) =>
      var (s1, reg) := NextRegister(s);
      var line := LoadLine(reg, n.ident, s.functionName, sym);
      assert line[1] == 'w';
      WriteStep(s1, [line]);
      PlainStep(s, s1);
      StepTrans(s, s1, t);
  }

  /** `if` writes its two labels after the condition's code and around
      the consequence's; neither is taken by the branches, which take
      theirs afterwards. */
  lemma {:induction false} IfLabelLines(s: GenState, n: Node)
    requires RegisterValid(s) && n.IfExpression?
    ensures Step(s, GenIf(s, n).st)
    decreases n, 2
  {
    var cond := GenNode(s, n.condition);
    NodeLabels(s, n.condition);
    IfGrows(s, n);
    var c := cond.st.labelCount;
    var (s1, labelElse) := NextLabel(cond.st);
    var (s2, labelEnd) := NextLabel(s1);
    var beq := ["beq " + T(cond.reg) + ", $zero, " + labelElse];
    var s3 := Write(s2, beq);
    assert LabelNumber(beq[0]).None?;
    WriteStep(s2, beq);
    var s4 := GenBranch(s3, n.consequence);
    BranchLabels(s3, n.consequence);
    StepTrans(s2, s3, s4);
    var jump := ["j " + labelEnd, labelElse + ":"];
    var s5 := Write(s4, jump);
    var s6 := GenBranch(s5, n.alternative);
    BranchLabels(s5, n.alternative);
    var t := Write(s6, [labelEnd + ":"]);
    assert LabelNumber(jump[0]).None?;
    var consequence := s4.out[|s2.out|..];
    var alternative := s6.out[|s5.out|..];
    Written(s2, s4);
    Written(s5, s6);
    IfTail(consequence, jump, alternative, [labelEnd + ":"], c, s4.labelCount, s6.labelCount);
    Appended(cond.st.out, consequence, jump, alternative, [labelEnd + ":"], s4.out, s5.out, s6.out, t.out);
    Extend(s, cond.st, t, consequence + jump + alternative + [labelEnd + ":"]);
  }

  lemma Appended(p: seq<string>, b: seq<string>, j: seq<string>, e: seq<string>, f: seq<string>,
                 o4: seq<string>, o5: seq<string>, o6: seq<string>, o7: seq<string>)
    requires o4 == p + b && o5 == o4 + j && o6 == o5 + e && o7 == o6 + f
    ensures o7 == p + (b + j + e + f)
  {
  }

  /** The labels of an `if` after its condition: the consequence's (above
      `c + 2`), then the else label `c + 1`, the alternative's (above the
      consequence's), then the end label `c + 2`. */
  lemma IfTail(consequence: seq<string>, jump: seq<string>, alternative: seq<string>, end: seq<string>, c: int, m: int, h: int)
    requires c + 2 <= m <= h
    requires Labelled(consequence, c + 2, m) && Labelled(alternative, m, h)
    requires |jump| == 2 && LabelNumber(jump[0]).None? && jump[1] == LabelLine(c + 1)
    requires end == [LabelLine(c + 2)]
    ensures Labelled(consequence + jump + alternative + end, c, h)
  {
    LabelLineNumber(c + 1);
    assert Labelled(jump, c, c + 1);
    OneLabel(c + 2);
    ApartByRange(consequence, jump, c + 2, m, c, c + 1);
    Widen(consequence, c + 2, m, c, m);
    Widen(jump, c, c + 1, c, m);
    Join(consequence, jump, c, m);
    var cj := consequence + jump;
    ApartByRange(cj, alternative, c, m, m, h);
    Widen(cj, c, m, c, h);
    Widen(alternative, m, h, c, h);
    Join(cj, alternative, c, h);
    ApartByRange(consequence, end, c + 2, m, c + 1, c + 2);
    ApartByRange(jump, end, c, c + 1, c + 1, c + 2);
    ApartByRange(alternative, end, m, h, c + 1, c + 2);
    ApartAppend(consequence, jump, end);
    ApartAppend(cj, alternative, end);
    Widen(end, c + 1, c + 2, c, h);
    Join(cj + alternative, end, c, h);
  }

  // ----- a whole run -----

  /** The data header defines no label. */
  lemma HeaderPlain()
    ensures NoLabels(DataHeader)
  {
    forall i | 0 <= i < |DataHeader| ensures LabelNumber(DataHeader[i]).None? {
      Unlabelled(DataHeader[i]);
    }
  }

  /** A whole `GenerateMIPS` run defines each label at most once, and only
      `label_1` … `label_N`, where N is the number of labels it took. */
  lemma RunLabels(s: GenState, node: Node)
    ensures var t := Run(s, node);
      forall i, j, k :: 0 <= i < |t.out| && 0 <= j < |t.out| && t.out[i] == LabelLine(k) && t.out[j] == LabelLine(k) ==> i == j
    ensures var t := Run(s, node);
      forall i, k :: 0 <= i < |t.out| && t.out[i] == LabelLine(k) ==> 1 <= k <= t.labelCount
  {
    var s0 := GenState(EmptyScope, [], 0, 0, "", s.intRegisterCount, s.floatRegisterCount, DataHeader);
    var t := Run(s, node);
    if node.Program? {
      ProgramLabels(s0, node.statements);
    } else {
      NodeLabels(s0, node);
    }
    var x := t.out[|DataHeader|..];
    assert t.out == DataHeader + x;
    HeaderPlain();
    Plain(DataHeader, x, 0, t.labelCount);
    Join(DataHeader, x, 0, t.labelCount);
    forall i, j, k | 0 <= i < |t.out| && 0 <= j < |t.out| && t.out[i] == LabelLine(k) && t.out[j] == LabelLine(k)
      ensures i == j
    {
      LabelLineNumber(k);
      assert LabelNumber(t.out[i]) == LabelNumber(t.out[j]) == Some(k);
    }
    forall i, k | 0 <= i < |t.out| && t.out[i] == LabelLine(k)
      ensures 1 <= k <= t.labelCount
    {
      LabelLineNumber(k);
    }
  }
}
