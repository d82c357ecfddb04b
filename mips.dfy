/** A small semantics for the MIPS instructions the expression generators
    emit, and a reference meaning for integer expressions. It is the yardstick
    the generated code is measured against: the generators' text is shown to
    be the rendering of instruction lists, and running those lists is compared
    with `Eval`. */
module Mips {
  import opened Wrappers
  import opened Strings
  import opened Ast

  datatype Reg = T0 | T1 | T2 | S0 | S1

  function RegName(r: Reg): string {
    match r
    case T0 => "$t0"
    case T1 => "$t1"
    case T2 => "$t2"
    case S0 => "$s0"
    case S1 => "$s1"
  }

  datatype Instr =
    | Li(rd: Reg, imm: int)
    | Move(rd: Reg, rs: Reg)
    | Add(rd: Reg, rs: Reg, rt: Reg)
    | Sub(rd: Reg, rs: Reg, rt: Reg)
    | Mul(rd: Reg, rs: Reg, rt: Reg)
      /** The assembler's three-operand `div`: the quotient into `rd`. */
    | DivQuotient(rd: Reg, rs: Reg, rt: Reg)
      /** The machine `div`: the quotient into LO. */
    | Div(rs: Reg, rt: Reg)
    | Mflo(rd: Reg)
    | Neg(rd: Reg, rs: Reg)
      /** Two instructions: grow the stack by one word and store `rs` there. */
    | Push(rs: Reg)
      /** Two instructions: load the top word into `rd` and shrink the stack. */
    | Pop(rd: Reg)
    | Comment(text: string)

  function Three(indent: string, name: string, rd: Reg, rs: Reg, rt: Reg): string {
    indent + name + " " + RegName(rd) + ", " + RegName(rs) + ", " + RegName(rt)
  }

  /** The assembly lines of one instruction, each prefixed by `indent`. */
  function Render(indent: string, i: Instr): seq<string> {
    match i
    case Li(rd, imm) => [indent + "li " + RegName(rd) + ", " + IntToString(imm)]
    case Move(rd, rs) => [indent + "move " + RegName(rd) + ", " + RegName(rs)]
    case Add(rd, rs, rt) => [Three(indent, "add", rd, rs, rt)]
    case Sub(rd, rs, rt) => [Three(indent, "sub", rd, rs, rt)]
    case Mul(rd, rs, rt) => [Three(indent, "mul", rd, rs, rt)]
    case DivQuotient(rd, rs, rt) => [Three(indent, "div", rd, rs, rt)]
    case Div(rs, rt) => [indent + "div " + RegName(rs) + ", " + RegName(rt)]
    case Mflo(rd) => [indent + "mflo " + RegName(rd)]
    case Neg(rd, rs) => [indent + "neg " + RegName(rd) + ", " + RegName(rs)]
    case Push(rs) => [indent + "addi $sp, $sp, -4", indent + "sw " + RegName(rs) + ", 0($sp)"]
    case Pop(rd) => [indent + "lw " + RegName(rd) + ", 0($sp)", indent + "addi $sp, $sp, 4"]
    case Comment(text) => [indent + text]
  }

  function RenderAll(indent: string, code: seq<Instr>): seq<string> {
    if code == [] then [] else Render(indent, code[0]) + RenderAll(indent, code[1..])
  }

  lemma {:induction false} RenderAllAppend(indent: string, a: seq<Instr>, b: seq<Instr>)
    ensures RenderAll(indent, a + b) == RenderAll(indent, a) + RenderAll(indent, b)
    decreases |a|
  {
    if a != [] {
      assert (a + b)[1..] == a[1..] + b;
      RenderAllAppend(indent, a[1..], b);
    } else {
      assert a + b == b;
    }
  }

  /** The registers the generators use, LO, and the words on the stack
      (top first). Values are mathematical integers. */
  datatype Machine = Machine(t0: int, t1: int, t2: int, s0: int, s1: int, lo: int, stack: seq<int>)

  function Get(m: Machine, r: Reg): int {
    match r
    case T0 => m.t0
    case T1 => m.t1
    case T2 => m.t2
    case S0 => m.s0
    case S1 => m.s1
  }

  function Set(m: Machine, r: Reg, v: int): (m': Machine)
    ensures Get(m', r) == v && m'.stack == m.stack
    ensures forall q :: q != r ==> Get(m', q) == Get(m, q)
  {
    match r
    case T0 => m.(t0 := v)
    case T1 => m.(t1 := v)
    case T2 => m.(t2 := v)
    case S0 => m.(s0 := v)
    case S1 => m.(s1 := v)
  }

  /** Integer division truncating toward zero, as MIPS `div` and Go's `/`
      compute it; a zero divisor leaves the result unspecified (0 here). */
  function Quot(a: int, b: int): int {
    if b == 0 then 0
    else if (a >= 0) == (b > 0) then Abs(a) / Abs(b)
    else -(Abs(a) / Abs(b))
  }

  function Abs(x: int): nat {
    if x < 0 then -x else x
  }

  function Step(m: Machine, i: Instr): Machine {
    match i
    case Li(rd, imm) => Set(m, rd, imm)
    case Move(rd, rs) => Set(m, rd, Get(m, rs))
    case Add(rd, rs, rt) => Set(m, rd, Get(m, rs) + Get(m, rt))
    case Sub(rd, rs, rt) => Set(m, rd, Get(m, rs) - Get(m, rt))
    case Mul(rd, rs, rt) => Set(m, rd, Get(m, rs) * Get(m, rt))
    case DivQuotient(rd, rs, rt) => Set(m, rd, Quot(Get(m, rs), Get(m, rt)))
    case Div(rs, rt) => m.(lo := Quot(Get(m, rs), Get(m, rt)))
    case Mflo(rd) => Set(m, rd, m.lo)
    case Neg(rd, rs) => Set(m, rd, -Get(m, rs))
    case Push(rs) => m.(stack := [Get(m, rs)] + m.stack)
    case Pop(rd) => if m.stack == [] then Set(m, rd, 0) else Set(m, rd, m.stack[0]).(stack := m.stack[1..])
    case Comment(_) => m
  }

  function Exec(m: Machine, code: seq<Instr>): Machine
    decreases |code|
  {
    if code == [] then m else Exec(Step(m, code[0]), code[1..])
  }

  lemma {:induction false} ExecAppend(m: Machine, a: seq<Instr>, b: seq<Instr>)
    ensures Exec(m, a + b) == Exec(Exec(m, a), b)
    decreases |a|
  {
    if a != [] {
      assert (a + b)[1..] == a[1..] + b;
      ExecAppend(Step(m, a[0]), a[1..], b);
    } else {
      assert a + b == b;
    }
  }

  /** Running an infix operation's code: the left operand, the save of $t0
      into `a`, the right operand, the save into `b`, then the operator. */
  lemma InfixExec(il: seq<Instr>, ir: seq<Instr>, a: Reg, b: Reg, ops: seq<Instr>, m: Machine)
    ensures var m1 := Step(Exec(m, il), Move(a, T0));
      var m2 := Step(Exec(m1, ir), Move(b, T0));
      Exec(m, il + [Move(a, T0)] + ir + [Move(b, T0)] + ops) == Exec(m2, ops)
  {
    var m1 := Step(Exec(m, il), Move(a, T0));
    var m2 := Step(Exec(m1, ir), Move(b, T0));
    var rest2 := [Move(b, T0)] + ops;
    var rest1 := ir + rest2;
    var rest0 := [Move(a, T0)] + rest1;
    assert il + [Move(a, T0)] + ir + [Move(b, T0)] + ops == il + rest0;
    ExecAppend(m, il, rest0);
    assert rest0[0] == Move(a, T0) && rest0[1..] == rest1;
    assert Exec(Exec(m, il), rest0) == Exec(m1, rest1);
    ExecAppend(m1, ir, rest2);
    assert rest2[0] == Move(b, T0) && rest2[1..] == ops;
    assert Exec(Exec(m1, ir), rest2) == Exec(m2, ops);
  }

  /** Running one instruction. */
  lemma ExecOne(m: Machine, i: Instr)
    ensures Exec(m, [i]) == Step(m, i)
  {
    assert [i][1..] == [];
  }

  predicate IsArithmetic(op: string) {
    op == "+" || op == "-" || op == "*" || op == "/"
  }

  /** The mnemonic of each arithmetic operator. */
  function Mnemonic(op: string): string {
    if op == "+" then "add" else if op == "-" then "sub" else if op == "*" then "mul" else "div"
  }

  /** The arithmetic operators on integers; division truncates. */
  function Apply(op: string, a: int, b: int): int {
    if op == "+" then a + b
    else if op == "-" then a - b
    else if op == "*" then a * b
    else Quot(a, b)
  }

  /** The intended value of an integer expression built from literals,
      negation and the four arithmetic operators; `None` for division by zero
      and for every other node. */
  function Eval(e: Node): Option<int> {
    match e
    case IntegerLiteral(v) => Some(v)
    case PrefixExpression(op, r) =>
      if op == "-" && Eval(r).Some? then Some(-Eval(r).value) else None
    case InfixExpression(op, l, r) =>
      if IsArithmetic(op) && Eval(l).Some? && Eval(r).Some? then
        var a, b := Eval(l).value, Eval(r).value;
        if op == "/" && b == 0 then None else Some(Apply(op, a, b))
      else None
    case _ => None
  }

  /** How a generator emits a quotient. */
  datatype DivStyle = ThreeOperand | ThroughLo

  /** The instructions for `rd := rs op rt`; nothing for other operators. */
  function OpInstrs(op: string, style: DivStyle, rd: Reg, rs: Reg, rt: Reg): seq<Instr> {
    if op == "+" then [Add(rd, rs, rt)]
    else if op == "-" then [Sub(rd, rs, rt)]
    else if op == "*" then [Mul(rd, rs, rt)]
    else if op == "/" then
      (if style == ThreeOperand then [DivQuotient(rd, rs, rt)] else [Div(rs, rt), Mflo(rd)])
    else []
  }

  /** The operator's instructions compute `rs op rt` into $t0 and write no
      other register (LO aside). */
  lemma OpInstrsMeaning(op: string, style: DivStyle, rs: Reg, rt: Reg, m: Machine)
    requires IsArithmetic(op)
    ensures var m' := Exec(m, OpInstrs(op, style, T0, rs, rt));
      && m'.stack == m.stack
      && Get(m', T0) == Apply(op, Get(m, rs), Get(m, rt))
      && forall q :: q != T0 ==> Get(m', q) == Get(m, q)
  {
    var code := OpInstrs(op, style, T0, rs, rt);
    if |code| == 2 {
      assert Exec(m, code) == Exec(Step(m, code[0]), [code[1]]);
      ExecOne(Step(m, code[0]), code[1]);
    } else {
      ExecOne(m, code[0]);
    }
  }

  /** Code that keeps the left operand on the stack while the right one is
      computed: given operand code that computes `a` and `b` and restores the
      stack, the whole computes `Apply(op, a, b)` into $t0 and restores the
      stack, whatever registers the operand code overwrites. */
  lemma InfixStackCode(cl: seq<Instr>, cr: seq<Instr>, op: string, style: DivStyle, m: Machine, a: int, b: int)
    requires IsArithmetic(op)
    requires Get(Exec(m, cl), T0) == a && Exec(m, cl).stack == m.stack
    requires var m2 := Step(Exec(m, cl), Push(T0));
      Get(Exec(m2, cr), T0) == b && Exec(m2, cr).stack == m2.stack
    ensures var m' := Exec(m, cl + [Push(T0)] + cr + [Move(T2, T0), Pop(T1)] + OpInstrs(op, style, T0, T1, T2));
      Get(m', T0) == Apply(op, a, b) && m'.stack == m.stack
  {
    var ops := OpInstrs(op, style, T0, T1, T2);
    var z := cl + [Push(T0)];
    var y := z + cr;
    var x := y + [Move(T2, T0), Pop(T1)];
    var m1 := Exec(m, cl);
    var m2 := Step(m1, Push(T0));
    var m3 := Exec(m2, cr);
    ExecAppend(m, cl, [Push(T0)]);
    ExecOne(m1, Push(T0));
    ExecAppend(m, z, cr);
    ExecAppend(m, y, [Move(T2, T0), Pop(T1)]);
    ExecAppend(m, x, ops);
    var m4 := Exec(m3, [Move(T2, T0), Pop(T1)]);
    assert m4 == Step(Step(m3, Move(T2, T0)), Pop(T1)) by {
      assert Exec(m3, [Move(T2, T0), Pop(T1)]) == Exec(Step(m3, Move(T2, T0)), [Pop(T1)]);
      ExecOne(Step(m3, Move(T2, T0)), Pop(T1));
    }
    assert m3.stack == [a] + m.stack;
    assert Get(m4, T1) == a && Get(m4, T2) == b && m4.stack == m.stack;
    OpInstrsMeaning(op, style, T1, T2, m4);
  }
}
