/** Compiled expressions, run on the plain machine, compute what they mean.

    The stack is split into the cells of the locals and the operands above them;
    running an expression may update cells, and adds one operand. */
module Simulation {
  import opened Wrappers
  import opened Values
  import opened Bytecode
  import opened Source
  import opened CodeGen
  import opened Relation
  import opened TypedCode
  import opened Machine
  import opened Runs

  /** What stays fixed while an expression runs: the program and the local table. */
  datatype Layout = Layout(fp: Arith, prog: Program, bases: seq<nat>, L: seq<string>)

  /** From `s`, the machine gets to `q` with the value of `r` on top of the operands,
      or halts as `r` does; `cells` are the locals after that. */
  ghost predicate Computes(c: Layout, s: State, q: nat, r: EvalResult, n: nat, cells: seq<Value>, ops: seq<Value>) {
    match r
    case Val(v, env) =>
      |cells| == n && Rel(env, c.bases, c.L, cells) && Reaches(c.fp, c.prog, s, Running(q, cells + (ops + [v])), 0)
    case Crash(f) => Reaches(c.fp, c.prog, s, Halted(f), 0)
    case Unspecified => true
  }

  /** A run that begins at `s0` and passes through `s`. */
  lemma ComputesFrom(c: Layout, s0: State, s: State, q: nat, r: EvalResult, n: nat, cells: seq<Value>, ops: seq<Value>)
    requires Reaches(c.fp, c.prog, s0, s, 0) && Computes(c, s, q, r, n, cells, ops)
    ensures Computes(c, s0, q, r, n, cells, ops)
  {
    hide Rel, Reaches;
    match r
    case Val(v, _) => ReachesTrans(c.fp, c.prog, s0, s, Running(q, cells + (ops + [v])), 0, 0);
    case Crash(f) => ReachesTrans(c.fp, c.prog, s0, s, Halted(f), 0, 0);
    case Unspecified =>
  }

  /** First a value is computed, then something is computed from it. */
  lemma ComputesThen(c: Layout, s: State, q0: nat, a: Value, env: Env, mid: seq<Value>, ops0: seq<Value>,
                     q: nat, r: EvalResult, n: nat, cells: seq<Value>, ops: seq<Value>)
    requires Computes(c, s, q0, Val(a, env), n, mid, ops0)
    requires Computes(c, Running(q0, mid + (ops0 + [a])), q, r, n, cells, ops)
    ensures Computes(c, s, q, r, n, cells, ops)
  {
    ComputesFrom(c, s, Running(q0, mid + (ops0 + [a])), q, r, n, cells, ops);
  }

  /** Code `f` stands ready at `p`, and the cells represent the environment. */
  ghost predicate Ready(c: Layout, p: nat, k: nat, f: Frag, env: Env, cells: seq<Value>) {
    Has(c.prog, p, k, f) && Fit(c, env, cells)
  }

  ghost predicate Fit(c: Layout, env: Env, cells: seq<Value>) {
    |c.prog.consts| <= 0x100 && |c.L| <= 0x100 && Rel(env, c.bases, c.L, cells)
  }

  // ----- single instructions on known operands -----

  /** What an instruction makes of the two operands on top of the stack. */
  function TwoResult(fp: Arith, i: Instr, a: Value, b: Value): Result
    requires i.Binary? || i.ArrayGet? || i.ObjectGet?
  {
    if i.Binary? then ApplyBinary(fp, i.bop, a, b)
    else if i.ArrayGet? then Index(fp, a, b)
    else GetProperty(fp, a, b)
  }

  function OneResult(fp: Arith, i: Instr, a: Value): Result
    requires i.Unary? || i.ToString?
  {
    if i.Unary? then ApplyUnary(fp, i.uop, a) else Ok(Str(ToText(fp, a)))
  }

  lemma TwoEffect(fp: Arith, consts: seq<Value>, i: Instr, st: seq<Value>, ops: seq<Value>, a: Value, b: Value)
    requires i.Binary? || i.ArrayGet? || i.ObjectGet?
    ensures var e := PushResult(st + ops, TwoResult(fp, i, a, b));
            Straight(fp, consts, i, st + (ops + [a] + [b])) == if e.Next? then
              Next(st + (ops + [TwoResult(fp, i, a, b).v])) else e
  {
    hide ApplyBinary, Index, GetProperty;
    var stack := st + (ops + [a] + [b]);
    assert Drop(stack, 2) == st + ops;
    assert stack[|stack| - 2] == a && stack[|stack| - 1] == b;
    var r := TwoResult(fp, i, a, b);
    if r.Ok? { assert st + ops + [r.v] == st + (ops + [r.v]); }
  }

  lemma OneEffect(fp: Arith, consts: seq<Value>, i: Instr, st: seq<Value>, ops: seq<Value>, a: Value)
    requires i.Unary? || i.ToString?
    ensures var e := PushResult(st + ops, OneResult(fp, i, a));
            Straight(fp, consts, i, st + (ops + [a])) == if e.Next? then Next(st + (ops + [OneResult(fp, i, a).v]))
              else e
  {
    hide ApplyUnary, ToText;
    var stack := st + (ops + [a]);
    assert Drop(stack, 1) == st + ops;
    assert Top(stack) == a;
    var r := OneResult(fp, i, a);
    if r.Ok? { assert st + ops + [r.v] == st + (ops + [r.v]); }
  }

  /** An operator whose operands are on top of the stack. */
  lemma SimTwo(c: Layout, p: nat, k: nat, i: Instr, h: nat, a: Value, b: Value, env: Env, cells: seq<Value>,
               ops: seq<Value>)
    requires i.Binary? || i.ArrayGet? || i.ObjectGet?
    requires Ready(c, p, k, One(i, h), env, cells)
    ensures Computes(c, Running(p, cells + (ops + [a] + [b])), p + 1, Lift(TwoResult(c.fp, i, a, b), env), |cells|,
      cells, ops)
  {
    hide Straight, Encode, Rel, TwoResult, One;
    StraightStep(c.fp, c.prog, p, k, i, h, cells + (ops + [a] + [b]));
    TwoEffect(c.fp, c.prog.consts, i, cells, ops, a, b);
  }

  lemma SimOne(c: Layout, p: nat, k: nat, i: Instr, h: nat, a: Value, env: Env, cells: seq<Value>, ops: seq<Value>)
    requires i.Unary? || i.ToString?
    requires Ready(c, p, k, One(i, h), env, cells)
    ensures Computes(c, Running(p, cells + (ops + [a])), p + 1, Lift(OneResult(c.fp, i, a), env), |cells|, cells, ops)
  {
    hide Straight, Encode, Rel, OneResult, One;
    StraightStep(c.fp, c.prog, p, k, i, h, cells + (ops + [a]));
    OneEffect(c.fp, c.prog.consts, i, cells, ops, a);
  }

  lemma SimPush(c: Layout, p: nat, k: nat, v: Value, h: nat, env: Env, cells: seq<Value>, ops: seq<Value>)
    requires Ready(c, p, k, Push(v, k, h), env, cells)
    ensures Computes(c, Running(p, cells + ops), p + |Push(v, k, h).code|, Val(v, env), |cells|, cells, ops)
  {
    hide Push, Rel, Reaches;
    PushStep(c.fp, c.prog, p, k, v, h, cells + ops);
    assert cells + ops + [v] == cells + (ops + [v]);
  }

  /** Reading the slot the compiler picked. */
  lemma SimLoad(c: Layout, p: nat, k: nat, x: string, h: nat, env: Env, cells: seq<Value>, ops: seq<Value>)
    requires Ready(c, p, k, Load(c.L, x, k, h), env, cells)
    ensures Computes(c, Running(p, cells + ops), p + |Load(c.L, x, k, h).code|, Read(env, x), |cells|, cells, ops)
  {
    hide Encode, Rel, One;
    RelSize(env, c.bases, c.L, cells);
    RelLookup(env, c.bases, c.L, cells, x);
    var r := Resolve(c.L, x);
    if r >= 0 {
      StraightStep(c.fp, c.prog, p, k, GetLocal(r), h, cells + ops);
      assert cells + ops + [cells[r]] == cells + (ops + [cells[r]]);
    }
  }

  /** Writing it; the value stays on the stack. */
  lemma SimStore(c: Layout, p: nat, k: nat, x: string, h: nat, v: Value, env: Env, cells: seq<Value>, ops: seq<Value>)
    returns (cells': seq<Value>)
    requires Ready(c, p, k, Store(c.L, x, k, h), env, cells)
    ensures Computes(c, Running(p, cells + (ops + [v])), p + |Store(c.L, x, k, h).code|, Write(env, x, v), |cells|,
      cells', ops)
  {
    hide Encode, Rel, One;
    RelSize(env, c.bases, c.L, cells);
    RelLookup(env, c.bases, c.L, cells, x);
    var r := Resolve(c.L, x);
    cells' := cells;
    if r >= 0 {
      cells' := cells[r := v];
      assert (cells + (ops + [v]))[r := v] == cells' + (ops + [v]);
      StraightStep(c.fp, c.prog, p, k, SetLocal(r), h, cells + (ops + [v]));
      RelUpdate(env, c.bases, c.L, cells, x, v);
    }
  }

  // ----- expressions -----

  /** Code for an expression computes its value, whatever operands lie below. */
  lemma {:induction false} SimExpr(c: Layout, p: nat, k: nat, e: Expr, h: nat, env: Env, cells: seq<Value>,
                                   ops: seq<Value>)
    returns (cells': seq<Value>)
    requires Ready(c, p, k, GenExpr(c.fp, e, c.L, k, h), env, cells) && Small(e)
    ensures Computes(c, Running(p, cells + ops), p + |GenExpr(c.fp, e, c.L, k, h).code|, Eval(c.fp, e, env), |cells|,
      cells', ops)
    decreases e, 2
  {
    hide Computes, Ready, Small;
    if e.Lit? {
      cells' := SimLiteral(c, p, k, e, h, env, cells, ops);
    } else if e.Var? {
      cells' := SimVar(c, p, k, e, h, env, cells, ops);
    } else if e.BinaryExpr? || e.IndexExpr? {
      cells' := SimOperands(c, p, k, e, h, env, cells, ops);
    } else if e.UnaryExpr? {
      cells' := SimUnary(c, p, k, e, h, env, cells, ops);
    } else if e.Interp? {
      cells' := SimInterp(c, p, k, e, h, env, cells, ops);
    } else if e.ArrayLit? {
      cells' := SimArray(c, p, k, e, h, env, cells, ops);
    } else if e.Member? {
      cells' := SimMember(c, p, k, e, h, env, cells, ops);
    } else if e.Assign? {
      if e.aop.Set? {
        cells' := SimAssign(c, p, k, e, h, env, cells, ops);
      } else {
        cells' := SimCompound(c, p, k, e, h, env, cells, ops);
      }
    } else {
      cells' := SimDestructure(c, p, k, e, h, env, cells, ops);
    }
  }

  lemma {:induction false} SimLiteral(c: Layout, p: nat, k: nat, e: Expr, h: nat, env: Env, cells: seq<Value>,
                                      ops: seq<Value>)
    returns (cells': seq<Value>)
    requires e.Lit? && Ready(c, p, k, GenExpr(c.fp, e, c.L, k, h), env, cells)
    ensures Computes(c, Running(p, cells + ops), p + |GenExpr(c.fp, e, c.L, k, h).code|, Eval(c.fp, e, env), |cells|,
      cells', ops)
  {
    hide Push, Encode, One, Rel, Straight;
    cells' := cells;
    var v := e.v;
    if v.Num? || v.Str? {
      SimPush(c, p, k, v, h, env, cells, ops);
    } else {
      var i := if v.Bool? then (if v.b then PushTrue else PushFalse) else PushNil;
      StraightStep(c.fp, c.prog, p, k, i, h, cells + ops);
      LiteralEffect(c.fp, c.prog.consts, v, cells, ops);
    }
  }

  lemma LiteralEffect(fp: Arith, consts: seq<Value>, v: Value, cells: seq<Value>, ops: seq<Value>)
    requires !v.Num? && !v.Str?
    ensures var i := if v.Bool? then (if v.b then PushTrue else PushFalse) else PushNil;
            Straight(fp, consts, i, cells + ops) == Next(cells + (ops + [LiteralValue(v)]))
  {
    assert cells + ops + [LiteralValue(v)] == cells + (ops + [LiteralValue(v)]);
  }

  lemma {:induction false} SimVar(c: Layout, p: nat, k: nat, e: Expr, h: nat, env: Env, cells: seq<Value>,
                                  ops: seq<Value>)
    returns (cells': seq<Value>)
    requires e.Var? && Ready(c, p, k, GenExpr(c.fp, e, c.L, k, h), env, cells)
    ensures Computes(c, Running(p, cells + ops), p + |GenExpr(c.fp, e, c.L, k, h).code|, Eval(c.fp, e, env), |cells|,
      cells', ops)
  {
    hide Computes, Ready, Load;
    cells' := cells;
    SimLoad(c, p, k, e.name, h, env, cells, ops);
  }

  // ----- two operands -----

  function Left(e: Expr): Expr
    requires e.BinaryExpr? || e.IndexExpr?
  {
    if e.BinaryExpr? then e.left else e.container
  }

  function Right(e: Expr): Expr
    requires e.BinaryExpr? || e.IndexExpr?
  {
    if e.BinaryExpr? then e.right else e.index
  }

  function Operator(e: Expr): Instr
    requires e.BinaryExpr? || e.IndexExpr?
  {
    if e.BinaryExpr? then Binary(e.op) else ArrayGet
  }

  /** The right operand, then the operator, when the left operand is `a`. */
  function EvalRight(fp: Arith, r: Expr, i: Instr, a: Value, env: Env): EvalResult
    requires i.Binary? || i.ArrayGet?
  {
    var b := Eval(fp, r, env);
    if b.Val? then Lift(TwoResult(fp, i, a, b.v), b.env) else b
  }

  lemma OperandsShape(fp: Arith, e: Expr, L: seq<string>, k: nat, h: nat)
    requires e.BinaryExpr? || e.IndexExpr?
    ensures var x := GenExpr(fp, Left(e), L, k, h);
            var y := GenExpr(fp, Right(e), L, k + |x.consts|, h + 1);
            GenExpr(fp, e, L, k, h) == Cat(x, Cat(y, One(Operator(e), h + 2)))
    ensures Small(e) ==> Small(Left(e)) && Small(Right(e))
  {
    hide GenExpr, One, Cat, Encode;
    if e.BinaryExpr? { BinaryCode(fp, e, L, k, h); } else { IndexCode(fp, e, L, k, h); }
  }

  lemma OperandsMeaning(fp: Arith, e: Expr, env: Env)
    requires e.BinaryExpr? || e.IndexExpr?
    ensures var a := Eval(fp, Left(e), env);
            Eval(fp, e, env) == if a.Val? then EvalRight(fp, Right(e), Operator(e), a.v, a.env) else a
  {
    hide ApplyBinary, Index, GetProperty, EvalAll, EvalPieces, EvalTargets, Lift, Write, Read;
  }

  /** The right operand and the operator, once the left operand is on the stack. */
  lemma {:induction false} SimRight(c: Layout, p: nat, k: nat, r: Expr, h: nat, i: Instr, a: Value, env: Env,
                                    cells: seq<Value>, ops: seq<Value>) returns (cells': seq<Value>)
    requires i.Binary? || i.ArrayGet?
    requires var f := GenExpr(c.fp, r, c.L, k, h);
             Ready(c, p, k, f, env, cells) && Has(c.prog, p + |f.code|, k + |f.consts|, One(i, h + 1)) && Small(r)
    ensures Computes(c, Running(p, cells + (ops + [a])), p + |GenExpr(c.fp, r, c.L, k, h).code| + 1,
              EvalRight(c.fp, r, i, a, env), |cells|, cells', ops)
    decreases r, 3
  {
    hide GenExpr, Eval, TwoResult, Rel, One, Has, Reaches;
    var f := GenExpr(c.fp, r, c.L, k, h);
    var q := p + |f.code|;
    var b := Eval(c.fp, r, env);
    cells' := SimExpr(c, p, k, r, h, env, cells, ops + [a]);
    if b.Val? {
      SimTwo(c, q, k + |f.consts|, i, h + 1, a, b.v, b.env, cells', ops);
      ComputesThen(c, Running(p, cells + (ops + [a])), q, b.v, b.env, cells', ops + [a],
        q + 1, Lift(TwoResult(c.fp, i, a, b.v), b.env), |cells|, cells', ops);
    }
  }

  lemma {:induction false} SimOperands(c: Layout, p: nat, k: nat, e: Expr, h: nat, env: Env, cells: seq<Value>,
                                       ops: seq<Value>)
    returns (cells': seq<Value>)
    requires e.BinaryExpr? || e.IndexExpr?
    requires Ready(c, p, k, GenExpr(c.fp, e, c.L, k, h), env, cells) && Small(e)
    ensures Computes(c, Running(p, cells + ops), p + |GenExpr(c.fp, e, c.L, k, h).code|, Eval(c.fp, e, env), |cells|,
      cells', ops)
    decreases e, 1
  {
    hide GenExpr, Eval, EvalRight, Rel, One, Has, Reaches, Small, Cat;
    OperandsShape(c.fp, e, c.L, k, h);
    OperandsMeaning(c.fp, e, env);
    var x := GenExpr(c.fp, Left(e), c.L, k, h);
    var q, k' := p + |x.code|, k + |x.consts|;
    var y := GenExpr(c.fp, Right(e), c.L, k', h + 1);
    HasCat(c.prog, p, k, x, Cat(y, One(Operator(e), h + 2)));
    HasCat(c.prog, q, k', y, One(Operator(e), h + 2));
    var a := Eval(c.fp, Left(e), env);
    cells' := SimExpr(c, p, k, Left(e), h, env, cells, ops);
    if a.Val? {
      var mid := cells';
      cells' := SimRight(c, q, k', Right(e), h + 1, Operator(e), a.v, a.env, mid, ops);
      ComputesThen(c, Running(p, cells + ops), q, a.v, a.env, mid, ops,
        q + |y.code| + 1, EvalRight(c.fp, Right(e), Operator(e), a.v, a.env), |cells|, cells', ops);
    }
  }

  // ----- one operand -----

  lemma UnaryShape(fp: Arith, e: Expr, L: seq<string>, k: nat, h: nat, env: Env)
    requires e.UnaryExpr?
    ensures GenExpr(fp, e, L, k, h) == Cat(GenExpr(fp, e.operand, L, k, h), One(Unary(e.uop), h + 1))
    ensures var a := Eval(fp, e.operand, env);
            Eval(fp, e, env) == if a.Val? then Lift(OneResult(fp, Unary(e.uop), a.v), a.env) else a
    ensures Small(e) ==> Small(e.operand)
  {
    hide GenExpr, One, Cat, Encode, ApplyUnary, Lift;
    UnaryCode(fp, e, L, k, h);
  }

  lemma {:induction false} SimUnary(c: Layout, p: nat, k: nat, e: Expr, h: nat, env: Env, cells: seq<Value>,
                                    ops: seq<Value>)
    returns (cells': seq<Value>)
    requires e.UnaryExpr? && Ready(c, p, k, GenExpr(c.fp, e, c.L, k, h), env, cells) && Small(e)
    ensures Computes(c, Running(p, cells + ops), p + |GenExpr(c.fp, e, c.L, k, h).code|, Eval(c.fp, e, env), |cells|,
      cells', ops)
    decreases e, 1
  {
    hide GenExpr, Eval, Small, Rel, One, Has, Reaches, Cat, OneResult, Encode;
    UnaryShape(c.fp, e, c.L, k, h, env);
    var x := GenExpr(c.fp, e.operand, c.L, k, h);
    var q := p + |x.code|;
    HasCat(c.prog, p, k, x, One(Unary(e.uop), h + 1));
    var a := Eval(c.fp, e.operand, env);
    cells' := SimExpr(c, p, k, e.operand, h, env, cells, ops);
    if a.Val? {
      SimOne(c, q, k + |x.consts|, Unary(e.uop), h + 1, a.v, a.env, cells', ops);
      ComputesThen(c, Running(p, cells + ops), q, a.v, a.env, cells', ops,
        q + 1, Lift(OneResult(c.fp, Unary(e.uop), a.v), a.env), |cells|, cells', ops);
    }
  }

  lemma MemberShape(fp: Arith, e: Expr, L: seq<string>, k: nat, h: nat, env: Env)
    requires e.Member?
    ensures var x := GenExpr(fp, e.subject, L, k, h);
            GenExpr(fp, e, L, k, h) == Cat(x, Cat(Push(Str(e.property), k + |x.consts|, h + 1), One(ObjectGet, h + 2)))
    ensures var a := Eval(fp, e.subject, env);
            Eval(fp, e, env) == if a.Val? then Lift(TwoResult(fp, ObjectGet, a.v, Str(e.property)), a.env) else a
    ensures Small(e) ==> Small(e.subject)
  {
    hide GenExpr, One, Cat, Encode, Push, GetProperty, Lift;
    MemberCode(fp, e, L, k, h);
  }

  lemma {:induction false} SimMember(c: Layout, p: nat, k: nat, e: Expr, h: nat, env: Env, cells: seq<Value>,
                                     ops: seq<Value>)
    returns (cells': seq<Value>)
    requires e.Member? && Ready(c, p, k, GenExpr(c.fp, e, c.L, k, h), env, cells) && Small(e)
    ensures Computes(c, Running(p, cells + ops), p + |GenExpr(c.fp, e, c.L, k, h).code|, Eval(c.fp, e, env), |cells|,
      cells', ops)
    decreases e, 1
  {
    hide GenExpr, Eval, Rel, One, Has, Reaches, Small, Cat, Push, TwoResult;
    MemberShape(c.fp, e, c.L, k, h, env);
    var x := GenExpr(c.fp, e.subject, c.L, k, h);
    var q, k' := p + |x.code|, k + |x.consts|;
    var key := Push(Str(e.property), k', h + 1);
    HasCat(c.prog, p, k, x, Cat(key, One(ObjectGet, h + 2)));
    HasCat(c.prog, q, k', key, One(ObjectGet, h + 2));
    var a := Eval(c.fp, e.subject, env);
    cells' := SimExpr(c, p, k, e.subject, h, env, cells, ops);
    if a.Val? {
      SimPush(c, q, k', Str(e.property), h + 1, a.env, cells', ops + [a.v]);
      SimTwo(c, q + |key.code|, k' + 1, ObjectGet, h + 2, a.v, Str(e.property), a.env, cells', ops);
      var r := Lift(TwoResult(c.fp, ObjectGet, a.v, Str(e.property)), a.env);
      ComputesThen(c, Running(q, cells' + (ops + [a.v])), q + |key.code|, Str(e.property), a.env, cells', ops + [a.v],
        q + |key.code| + 1, r, |cells|, cells', ops);
      ComputesThen(c, Running(p, cells + ops), q, a.v, a.env, cells', ops, q + |key.code| + 1, r, |cells|, cells', ops);
    }
  }

  // ----- assignments -----

  lemma AssignShape(fp: Arith, e: Expr, L: seq<string>, k: nat, h: nat, env: Env)
    requires e.Assign? && e.aop.Set?
    ensures var v := GenExpr(fp, e.value, L, k, h);
            GenExpr(fp, e, L, k, h) == Cat(v, Store(L, e.target, k + |v.consts|, h + 1))
    ensures var b := Eval(fp, e.value, env);
            Eval(fp, e, env) == if b.Val? then Write(b.env, e.target, b.v) else b
    ensures Small(e) ==> Small(e.value)
  {
    hide GenExpr, One, Cat, Encode, Store, Write;
    AssignCode(fp, e, L, k, h);
  }

  lemma {:induction false} SimAssign(c: Layout, p: nat, k: nat, e: Expr, h: nat, env: Env, cells: seq<Value>,
                                     ops: seq<Value>)
    returns (cells': seq<Value>)
    requires e.Assign? && e.aop.Set? && Ready(c, p, k, GenExpr(c.fp, e, c.L, k, h), env, cells) && Small(e)
    ensures Computes(c, Running(p, cells + ops), p + |GenExpr(c.fp, e, c.L, k, h).code|, Eval(c.fp, e, env), |cells|,
      cells', ops)
    decreases e, 1
  {
    hide GenExpr, Eval, Rel, One, Has, Reaches, Small, Cat, Store, Write;
    AssignShape(c.fp, e, c.L, k, h, env);
    var v := GenExpr(c.fp, e.value, c.L, k, h);
    var q, k' := p + |v.code|, k + |v.consts|;
    var st := Store(c.L, e.target, k', h + 1);
    HasCat(c.prog, p, k, v, st);
    var b := Eval(c.fp, e.value, env);
    cells' := SimExpr(c, p, k, e.value, h, env, cells, ops);
    if b.Val? {
      var mid := cells';
      cells' := SimStore(c, q, k', e.target, h + 1, b.v, b.env, mid, ops);
      ComputesThen(c, Running(p, cells + ops), q, b.v, b.env, mid, ops,
        q + |st.code|, Write(b.env, e.target, b.v), |cells|, cells', ops);
    }
  }

  lemma CompoundShape(fp: Arith, e: Expr, L: seq<string>, k: nat, h: nat, env: Env)
    requires e.Assign? && !e.aop.Set?
    ensures var a := Load(L, e.target, k, h);
            var v := GenExpr(fp, e.value, L, k + |a.consts|, h + 1);
            var st := Store(L, e.target, k + |a.consts| + |v.consts|, h + 1);
            GenExpr(fp, e, L, k, h) == Cat(a, Cat(v, Cat(One(Binary(CompoundOp(e.aop)), h + 2), st)))
    ensures var a := Read(env, e.target);
            Eval(fp, e, env) ==
              if !a.Val? then a
              else
                var b := EvalRight(fp, e.value, Binary(CompoundOp(e.aop)), a.v, a.env);
                if b.Val? then Write(b.env, e.target, b.v) else b
    ensures Small(e) ==> Small(e.value)
  {
    hide GenExpr, One, Cat, Encode, Store, Load, Write, ApplyBinary;
    CompoundCode(fp, e, L, k, h);
  }

  lemma {:induction false} SimCompound(c: Layout, p: nat, k: nat, e: Expr, h: nat, env: Env, cells: seq<Value>,
                                       ops: seq<Value>)
    returns (cells': seq<Value>)
    requires e.Assign? && !e.aop.Set? && Ready(c, p, k, GenExpr(c.fp, e, c.L, k, h), env, cells) && Small(e)
    ensures Computes(c, Running(p, cells + ops), p + |GenExpr(c.fp, e, c.L, k, h).code|, Eval(c.fp, e, env), |cells|,
      cells', ops)
    decreases e, 1
  {
    hide GenExpr, Eval, EvalRight, Rel, One, Has, Reaches, Small, Cat, Load, Store, Write, Read;
    CompoundShape(c.fp, e, c.L, k, h, env);
    var x := Load(c.L, e.target, k, h);
    var q, k1 := p + |x.code|, k + |x.consts|;
    var v := GenExpr(c.fp, e.value, c.L, k1, h + 1);
    var q', k2 := q + |v.code| + 1, k1 + |v.consts|;
    var i := Binary(CompoundOp(e.aop));
    var st := Store(c.L, e.target, k2, h + 1);
    HasCat(c.prog, p, k, x, Cat(v, Cat(One(i, h + 2), st)));
    HasCat(c.prog, q, k1, v, Cat(One(i, h + 2), st));
    HasCat(c.prog, q' - 1, k2, One(i, h + 2), st);
    var a := Read(env, e.target);
    SimLoad(c, p, k, e.target, h, env, cells, ops);
    cells' := cells;
    if a.Val? {
      var b := EvalRight(c.fp, e.value, i, a.v, a.env);
      var mid := SimRight(c, q, k1, e.value, h + 1, i, a.v, a.env, cells, ops);
      ComputesThen(c, Running(p, cells + ops), q, a.v, a.env, cells, ops, q', b, |cells|, mid, ops);
      cells' := mid;
      if b.Val? {
        cells' := SimStore(c, q', k2, e.target, h + 1, b.v, b.env, mid, ops);
        ComputesThen(c, Running(p, cells + ops), q', b.v, b.env, mid, ops,
          q' + |st.code|, Write(b.env, e.target, b.v), |cells|, cells', ops);
      }
    }
  }

  // ----- interpolation -----

  /** Converts `v` to text and appends it, and then `text`, to `acc`. */
  function Join(fp: Arith, acc: Value, v: Value, text: string): Result {
    var one := AddValues(fp, acc, Str(ToText(fp, v)));
    if one.Bad? then one else AddValues(fp, one.v, Str(text))
  }

  lemma PieceArmHas(c: Layout, p: nat, k: nat, x: Frag, t: Frag, rest: Frag, h: nat)
    requires Has(c.prog, p, k, PieceArm(x, t, rest, h))
    ensures var q0, k' := p + |x.code|, k + |x.consts|;
            var q, join := q0 + |t.code| + 3, One(Binary(Add), h + 1);
            && Has(c.prog, p, k, x) && Has(c.prog, q0, k', One(ToString, h + 1)) && Has(c.prog, q0 + 1, k', join)
            && Has(c.prog, q0 + 2, k', t) && Has(c.prog, q - 1, k' + |t.consts|, join)
            && Has(c.prog, q, k' + |t.consts|, rest)
            && |PieceArm(x, t, rest, h).code| == q - p + |rest.code|
  {
    hide Has, Cat, One, Encode;
    var q0, k' := p + |x.code|, k + |x.consts|;
    var conv, join := One(ToString, h + 1), One(Binary(Add), h + 1);
    HasFive(c.prog, p, k, x, conv, join, t, Cat(join, rest));
    HasCat(c.prog, q0 + 2 + |t.code|, k' + |t.consts|, join, rest);
  }

  /** TO_STRING; ADD; text; ADD on the value `v` of a piece. */
  lemma SimJoin(c: Layout, p: nat, k: nat, x: Frag, text: string, rest: Frag, h: nat, acc: Value, v: Value,
                env: Env, cells: seq<Value>, ops: seq<Value>)
    requires var t := Push(Str(text), k + |x.consts|, h);
             Has(c.prog, p, k, PieceArm(x, t, rest, h)) && Fit(c, env, cells)
    ensures var t := Push(Str(text), k + |x.consts|, h);
            var q0 := p + |x.code|;
            Computes(c, Running(q0, cells + (ops + [acc] + [v])), q0 + |t.code| + 3,
              Lift(Join(c.fp, acc, v, text), env), |cells|, cells, ops)
  {
    hide Fit, One, Has, Reaches, Cat, Push, PieceArm, Computes, AddValues, ToText, Encode, ApplyNumeric;
    var q0, k' := p + |x.code|, k + |x.consts|;
    var s, w := Str(ToText(c.fp, v)), Str(text);
    var t := Push(w, k', h);
    var q := q0 + |t.code| + 3;
    var start := Running(q0, cells + (ops + [acc] + [v]));
    PieceArmHas(c, p, k, x, t, rest, h);
    var one := AddValues(c.fp, acc, s);
    SimOne(c, q0, k', ToString, h + 1, v, env, cells, ops + [acc]);
    SimTwo(c, q0 + 1, k', Binary(Add), h + 1, acc, s, env, cells, ops);
    ComputesThen(c, start, q0 + 1, s, env, cells, ops + [acc], q0 + 2, Lift(one, env), |cells|, cells, ops);
    if one.Ok? {
      SimPush(c, q0 + 2, k', w, h, env, cells, ops + [one.v]);
      SimTwo(c, q - 1, k' + 1, Binary(Add), h + 1, one.v, w, env, cells, ops);
      var two := Lift(AddValues(c.fp, one.v, w), env);
      ComputesThen(c, Running(q0 + 2, cells + (ops + [one.v])), q - 1, w, env, cells, ops + [one.v],
        q, two, |cells|, cells, ops);
      ComputesThen(c, start, q0 + 2, one.v, env, cells, ops, q, two, |cells|, cells, ops);
    } else {
      HaltComputes(c, start, q0 + 2, q, one.fault, |cells|, cells, ops);
    }
  }

  /** Where a failing run would have gone does not matter. */
  lemma HaltComputes(c: Layout, s: State, q0: nat, q: nat, f: Fault, n: nat, cells: seq<Value>, ops: seq<Value>)
    requires Computes(c, s, q0, Crash(f), n, cells, ops)
    ensures Computes(c, s, q, Crash(f), n, cells, ops)
  {
  }

  lemma PiecesShape(fp: Arith, acc: Value, ps: seq<Piece>, L: seq<string>, k: nat, h: nat, env: Env)
    requires ps != []
    ensures var x := GenExpr(fp, ps[0].e, L, k, h);
            var rest := GenPieces(fp, ps[1..], L, k + |x.consts| + 1, h);
            GenPieces(fp, ps, L, k, h) == PieceArm(x, Push(Str(ps[0].text), k + |x.consts|, h), rest, h)
    ensures var a := Eval(fp, ps[0].e, env);
            EvalPieces(fp, acc, ps, env) ==
              if !a.Val? then a
              else
                var two := Join(fp, acc, a.v, ps[0].text);
                if two.Ok? then EvalPieces(fp, two.v, ps[1..], a.env) else Crash(two.fault)
  {
    hide GenExpr, GenPieces, Eval, Push, PieceArm, AddValues, ToText;
    PiecesCode(fp, ps, L, k, h);
  }

  lemma {:induction false} SimPieces(c: Layout, p: nat, k: nat, ps: seq<Piece>, h: nat, acc: Value, env: Env,
                                     cells: seq<Value>, ops: seq<Value>) returns (cells': seq<Value>)
    requires Ready(c, p, k, GenPieces(c.fp, ps, c.L, k, h), env, cells) && forall x | x in ps :: Small(x.e)
    ensures Computes(c, Running(p, cells + (ops + [acc])), p + |GenPieces(c.fp, ps, c.L, k, h).code|,
              EvalPieces(c.fp, acc, ps, env), |cells|, cells', ops)
    decreases ps, 1
  {
    hide GenExpr, Eval, Rel, Has, Reaches, Push, PieceArm, Small, Join;
    cells' := cells;
    if ps == [] {
      ReachesNow(c.fp, c.prog, Running(p, cells + (ops + [acc])));
    } else {
      PiecesShape(c.fp, acc, ps, c.L, k, h, env);
      cells' := SimPiece(c, p, k, ps, h, acc, env, cells, ops);
    }
  }

  lemma {:induction false} SimPiece(c: Layout, p: nat, k: nat, ps: seq<Piece>, h: nat, acc: Value, env: Env,
                                    cells: seq<Value>, ops: seq<Value>) returns (cells': seq<Value>)
    requires ps != [] && Ready(c, p, k, GenPieces(c.fp, ps, c.L, k, h), env, cells) && forall x | x in ps :: Small(x.e)
    ensures Computes(c, Running(p, cells + (ops + [acc])), p + |GenPieces(c.fp, ps, c.L, k, h).code|,
              EvalPieces(c.fp, acc, ps, env), |cells|, cells', ops)
    decreases ps, 0
  {
    hide GenExpr, GenPieces, EvalPieces, Eval, Rel, Has, Reaches, Push, PieceArm, Small, Join;
    PiecesShape(c.fp, acc, ps, c.L, k, h, env);
    var x := GenExpr(c.fp, ps[0].e, c.L, k, h);
    var k' := k + |x.consts|;
    var t := Push(Str(ps[0].text), k', h);
    var rest := GenPieces(c.fp, ps[1..], c.L, k' + 1, h);
    var q0, q := p + |x.code|, p + |x.code| + |t.code| + 3;
    var start := Running(p, cells + (ops + [acc]));
    PieceArmHas(c, p, k, x, t, rest, h);
    var a := Eval(c.fp, ps[0].e, env);
    cells' := SimExpr(c, p, k, ps[0].e, h, env, cells, ops + [acc]);
    if a.Val? {
      var mid := cells';
      var two := Join(c.fp, acc, a.v, ps[0].text);
      SimJoin(c, p, k, x, ps[0].text, rest, h, acc, a.v, a.env, mid, ops);
      ComputesThen(c, start, q0, a.v, a.env, mid, ops + [acc], q, Lift(two, a.env), |cells|, mid, ops);
      if two.Ok? {
        cells' := SimPieces(c, q, k' + 1, ps[1..], h, two.v, a.env, mid, ops);
        ComputesThen(c, start, q, two.v, a.env, mid, ops, q + |rest.code|,
          EvalPieces(c.fp, two.v, ps[1..], a.env), |cells|, cells', ops);
      }
    }
  }

  lemma {:induction false} SimInterp(c: Layout, p: nat, k: nat, e: Expr, h: nat, env: Env, cells: seq<Value>,
                                     ops: seq<Value>)
    returns (cells': seq<Value>)
    requires e.Interp? && Ready(c, p, k, GenExpr(c.fp, e, c.L, k, h), env, cells) && Small(e)
    ensures Computes(c, Running(p, cells + ops), p + |GenExpr(c.fp, e, c.L, k, h).code|, Eval(c.fp, e, env), |cells|,
      cells', ops)
    decreases e, 1
  {
    hide Rel, Has, Reaches, Cat, Push, GenPieces, EvalPieces;
    var head := Push(Str(e.head), k, h);
    HasCat(c.prog, p, k, head, GenPieces(c.fp, e.pieces, c.L, k + 1, h + 1));
    SimPush(c, p, k, Str(e.head), h, env, cells, ops);
    cells' := SimPieces(c, p + |head.code|, k + 1, e.pieces, h + 1, Str(e.head), env, cells, ops);
    ComputesThen(c, Running(p, cells + ops), p + |head.code|, Str(e.head), env, cells, ops,
      p + |GenExpr(c.fp, e, c.L, k, h).code|, EvalPieces(c.fp, Str(e.head), e.pieces, env), |cells|, cells', ops);
  }

  // ----- array literals -----

  /** Like `Computes`, for a list of values. */
  ghost predicate ComputesAll(c: Layout, s: State, q: nat, r: EvalsResult, n: nat, cells: seq<Value>, ops: seq<Value>) {
    match r
    case Vals(vs, env) =>
      |cells| == n && Rel(env, c.bases, c.L, cells) && Reaches(c.fp, c.prog, s, Running(q, cells + (ops + vs)), 0)
    case Crashes(f) => Reaches(c.fp, c.prog, s, Halted(f), 0)
    case Unspecifieds => true
  }

  function Cons(v: Value, r: EvalsResult): EvalsResult {
    if r.Vals? then Vals([v] + r.vs, r.env) else r
  }

  function Fails(r: EvalResult): EvalsResult
    requires !r.Val?
  {
    if r.Crash? then Crashes(r.fault) else Unspecifieds
  }

  lemma AllShape(fp: Arith, es: seq<Expr>, L: seq<string>, k: nat, h: nat, env: Env)
    requires es != []
    ensures var x := GenExpr(fp, es[0], L, k, h);
            GenAll(fp, es, L, k, h) == Cat(x, GenAll(fp, es[1..], L, k + |x.consts|, h + 1))
    ensures var a := Eval(fp, es[0], env);
            EvalAll(fp, es, env) == if a.Val? then Cons(a.v, EvalAll(fp, es[1..], a.env)) else Fails(a)
  {
    hide Cat, GenExpr, GenAll, Eval;
    AllCode(fp, es, L, k, h);
  }

  lemma ComputesCons(c: Layout, s: State, q0: nat, a: Value, env: Env, mid: seq<Value>,
                     q: nat, r: EvalsResult, n: nat, cells: seq<Value>, ops: seq<Value>)
    requires Computes(c, s, q0, Val(a, env), n, mid, ops)
    requires ComputesAll(c, Running(q0, mid + (ops + [a])), q, r, n, cells, ops + [a])
    ensures ComputesAll(c, s, q, Cons(a, r), n, cells, ops)
  {
    hide Reaches, Rel;
    var via := Running(q0, mid + (ops + [a]));
    match r
    case Vals(vs, _) =>
      assert ops + [a] + vs == ops + ([a] + vs);
      ReachesTrans(c.fp, c.prog, s, via, Running(q, cells + (ops + ([a] + vs))), 0, 0);
    case Crashes(f) => ReachesTrans(c.fp, c.prog, s, via, Halted(f), 0, 0);
    case Unspecifieds =>
  }

  lemma {:induction false} SimAll(c: Layout, p: nat, k: nat, es: seq<Expr>, h: nat, env: Env,
                                  cells: seq<Value>, ops: seq<Value>) returns (cells': seq<Value>)
    requires Ready(c, p, k, GenAll(c.fp, es, c.L, k, h), env, cells) && forall x | x in es :: Small(x)
    ensures ComputesAll(c, Running(p, cells + ops), p + |GenAll(c.fp, es, c.L, k, h).code|,
              EvalAll(c.fp, es, env), |cells|, cells', ops)
    decreases es, 0
  {
    hide GenExpr, Eval, Rel, Has, Reaches, Small, Cat, EvalAll, GenAll, Cons, Fails;
    cells' := cells;
    if es == [] {
      AllEmpty(c.fp, c.L, k, h, env);
      assert ops + [] == ops;
      ReachesNow(c.fp, c.prog, Running(p, cells + ops));
    } else {
      AllShape(c.fp, es, c.L, k, h, env);
      var x := GenExpr(c.fp, es[0], c.L, k, h);
      var q, k' := p + |x.code|, k + |x.consts|;
      var rest := GenAll(c.fp, es[1..], c.L, k', h + 1);
      HasCat(c.prog, p, k, x, rest);
      var a := Eval(c.fp, es[0], env);
      cells' := SimExpr(c, p, k, es[0], h, env, cells, ops);
      if a.Val? {
        var mid := cells';
        cells' := SimAll(c, q, k', es[1..], h + 1, a.env, mid, ops + [a.v]);
        ComputesCons(c, Running(p, cells + ops), q, a.v, a.env, mid, q + |rest.code|,
          EvalAll(c.fp, es[1..], a.env), |cells|, cells', ops);
      } else {
        ComputesFails(c, Running(p, cells + ops), q, q + |rest.code|, a, |cells|, cells', ops);
      }
    }
  }

  lemma AllEmpty(fp: Arith, L: seq<string>, k: nat, h: nat, env: Env)
    ensures GenAll(fp, [], L, k, h) == Empty && EvalAll(fp, [], env) == Vals([], env)
  {
  }

  lemma ComputesFails(c: Layout, s: State, q0: nat, q: nat, r: EvalResult, n: nat, cells: seq<Value>, ops: seq<Value>)
    requires Computes(c, s, q0, r, n, cells, ops) && !r.Val?
    ensures ComputesAll(c, s, q, Fails(r), n, cells, ops)
  {
  }

  lemma ArrayShape(fp: Arith, e: Expr, L: seq<string>, k: nat, h: nat, env: Env)
    requires e.ArrayLit? && Small(e)
    ensures |e.elems| <= 255 && forall x | x in e.elems :: Small(x)
    ensures GenExpr(fp, e, L, k, h) == Cat(GenAll(fp, e.elems, L, k, h), One(Array(|e.elems|), h + |e.elems|))
    ensures var r := EvalAll(fp, e.elems, env);
            Eval(fp, e, env) == if r.Vals? then Val(Arr(r.vs), r.env) else if r.Crashes? then Crash(r.fault)
              else Unspecified
  {
    hide GenExpr, Cat, One, GenAll;
    ArrayCode(fp, e, L, k, h);
  }

  lemma ArrayEffect(fp: Arith, consts: seq<Value>, cells: seq<Value>, ops: seq<Value>, vs: seq<Value>)
    requires |vs| <= 255
    ensures Straight(fp, consts, Array(|vs|), cells + (ops + vs)) == Next(cells + (ops + [Arr(vs)]))
  {
    var stack := cells + (ops + vs);
    assert Drop(stack, |vs|) == cells + ops;
    assert stack[|stack| - |vs|..] == vs;
    assert cells + ops + [Arr(vs)] == cells + (ops + [Arr(vs)]);
  }

  lemma {:induction false} SimArray(c: Layout, p: nat, k: nat, e: Expr, h: nat, env: Env, cells: seq<Value>,
                                    ops: seq<Value>)
    returns (cells': seq<Value>)
    requires e.ArrayLit? && Ready(c, p, k, GenExpr(c.fp, e, c.L, k, h), env, cells) && Small(e)
    ensures Computes(c, Running(p, cells + ops), p + |GenExpr(c.fp, e, c.L, k, h).code|, Eval(c.fp, e, env), |cells|,
      cells', ops)
    decreases e, 1
  {
    hide GenExpr, Eval, Rel, Has, Reaches, Small, Cat, EvalAll, GenAll, Straight, One;
    ArrayShape(c.fp, e, c.L, k, h, env);
    var f := GenAll(c.fp, e.elems, c.L, k, h);
    var i := Array(|e.elems|);
    var q := p + |f.code|;
    HasCat(c.prog, p, k, f, One(i, h + |e.elems|));
    cells' := SimAll(c, p, k, e.elems, h, env, cells, ops);
    var r := EvalAll(c.fp, e.elems, env);
    if r.Vals? {
      var via := Running(q, cells' + (ops + r.vs));
      StraightStep(c.fp, c.prog, q, k + |f.consts|, i, h + |e.elems|, cells' + (ops + r.vs));
      ArrayEffect(c.fp, c.prog.consts, cells', ops, r.vs);
      ReachesTrans(c.fp, c.prog, Running(p, cells + ops), via, Running(q + 2, cells' + (ops + [Arr(r.vs)])), 0, 0);
    }
  }

  // ----- destructuring -----

  /** `xs[0]` receives element `i` of `v`. */
  function TakeOne(fp: Arith, v: Value, x: string, i: nat, env: Env): EvalResult {
    var elem := Index(fp, v, Num(fp.ofInt(i)));
    if elem.Ok? then Write(env, x, elem.v) else Crash(elem.fault)
  }

  lemma TargetsShape(fp: Arith, v: Value, xs: seq<string>, i: nat, L: seq<string>, k: nat, h: nat, env: Env)
    requires xs != []
    ensures var st := Store(L, xs[0], k + 1, h + 1);
            var rest := GenTargets(fp, xs[1..], i + 1, L, k + 1 + |st.consts|, h);
            GenTargets(fp, xs, i, L, k, h) == TargetArm(Push(Num(fp.ofInt(i)), k, h + 1), st, rest, h)
    ensures var w := TakeOne(fp, v, xs[0], i, env);
            EvalTargets(fp, v, xs, i, env) == if w.Val? then EvalTargets(fp, v, xs[1..], i + 1, w.env) else w
  {
    hide GenTargets, TargetArm, Store, Push, Index, Write;
    TargetsCode(fp, xs, i, L, k, h);
  }

  lemma TargetArmHas(c: Layout, p: nat, k: nat, index: Frag, st: Frag, rest: Frag, h: nat)
    requires Has(c.prog, p, k, TargetArm(index, st, rest, h))
    ensures var q, k' := p + 1 + |index.code|, k + |index.consts|;
            && Has(c.prog, p, k, One(Dup, h)) && Has(c.prog, p + 1, k, index)
            && Has(c.prog, q, k', One(ArrayGet, h + 2)) && Has(c.prog, q + 1, k', st)
            && Has(c.prog, q + 1 + |st.code|, k' + |st.consts|, One(Pop, h + 1))
            && Has(c.prog, q + 2 + |st.code|, k' + |st.consts|, rest)
            && |TargetArm(index, st, rest, h).code| == q + 2 + |st.code| - p + |rest.code|
  {
    hide Has, Cat, One, Encode;
    var q, k' := p + 1 + |index.code|, k + |index.consts|;
    var dup, get, pop := One(Dup, h), One(ArrayGet, h + 2), One(Pop, h + 1);
    HasFive(c.prog, p, k, dup, index, get, st, Cat(pop, rest));
    HasCat(c.prog, q + 1 + |st.code|, k' + |st.consts|, pop, rest);
  }

  lemma SimDup(c: Layout, p: nat, k: nat, h: nat, v: Value, env: Env, cells: seq<Value>, ops: seq<Value>)
    requires Ready(c, p, k, One(Dup, h), env, cells)
    ensures Computes(c, Running(p, cells + (ops + [v])), p + 1, Val(v, env), |cells|, cells, ops + [v])
  {
    hide Rel, Encode;
    var stack := cells + (ops + [v]);
    assert Top(stack) == v && stack + [v] == cells + (ops + [v] + [v]);
    StraightStep(c.fp, c.prog, p, k, Dup, h, stack);
  }

  /** DUP; index; ARRAY_GET; store: the array stays, the element is above it. */
  lemma SimTake(c: Layout, p: nat, k: nat, x: string, i: nat, rest: Frag, h: nat, v: Value, env: Env,
                cells: seq<Value>, ops: seq<Value>) returns (cells': seq<Value>)
    requires var index, st := Push(Num(c.fp.ofInt(i)), k, h + 1), Store(c.L, x, k + 1, h + 1);
             Ready(c, p, k, TargetArm(index, st, rest, h), env, cells)
    ensures var index, st := Push(Num(c.fp.ofInt(i)), k, h + 1), Store(c.L, x, k + 1, h + 1);
            Computes(c, Running(p, cells + (ops + [v])), p + 2 + |index.code| + |st.code|,
              TakeOne(c.fp, v, x, i, env), |cells|, cells', ops + [v])
  {
    hide Rel, One, Has, Reaches, Push, Store, Index, Write, Computes, Encode, TargetArm;
    var n := Num(c.fp.ofInt(i));
    var index, st := Push(n, k, h + 1), Store(c.L, x, k + 1, h + 1);
    var q := p + 1 + |index.code|;
    var start, ops1 := Running(p, cells + (ops + [v])), ops + [v];
    TargetArmHas(c, p, k, index, st, rest, h);
    SimDup(c, p, k, h, v, env, cells, ops);
    SimPush(c, p + 1, k, n, h + 1, env, cells, ops1 + [v]);
    ComputesThen(c, start, p + 1, v, env, cells, ops1, q, Val(n, env), |cells|, cells, ops1 + [v]);
    SimTwo(c, q, k + 1, ArrayGet, h + 2, v, n, env, cells, ops1);
    var elem := Index(c.fp, v, n);
    ComputesThen(c, start, q, n, env, cells, ops1 + [v], q + 1, Lift(elem, env), |cells|, cells, ops1);
    cells' := cells;
    if elem.Ok? {
      cells' := SimStore(c, q + 1, k + 1, x, h + 1, elem.v, env, cells, ops1);
      ComputesThen(c, start, q + 1, elem.v, env, cells, ops1, q + 1 + |st.code|, Write(env, x, elem.v), |cells|,
        cells', ops1);
    } else {
      HaltComputes(c, start, q + 1, q + 1 + |st.code|, elem.fault, |cells|, cells, ops1);
    }
  }

  lemma {:induction false} SimTargets(c: Layout, p: nat, k: nat, xs: seq<string>, i: nat, h: nat, v: Value, env: Env,
                                      cells: seq<Value>, ops: seq<Value>) returns (cells': seq<Value>)
    requires Ready(c, p, k, GenTargets(c.fp, xs, i, c.L, k, h), env, cells)
    ensures Computes(c, Running(p, cells + (ops + [v])), p + |GenTargets(c.fp, xs, i, c.L, k, h).code|,
              EvalTargets(c.fp, v, xs, i, env), |cells|, cells', ops)
    decreases xs
  {
    hide Rel, One, Has, Reaches, Push, Store, TakeOne, Write, TargetArm, GenTargets, EvalTargets;
    cells' := cells;
    var start := Running(p, cells + (ops + [v]));
    if xs == [] {
      TargetsEmpty(c.fp, v, i, c.L, k, h, env);
      ReachesNow(c.fp, c.prog, start);
    } else {
      TargetsShape(c.fp, v, xs, i, c.L, k, h, env);
      var index, st := Push(Num(c.fp.ofInt(i)), k, h + 1), Store(c.L, xs[0], k + 1, h + 1);
      var rest := GenTargets(c.fp, xs[1..], i + 1, c.L, k + 1 + |st.consts|, h);
      var q := p + 2 + |index.code| + |st.code|;
      TargetArmHas(c, p, k, index, st, rest, h);
      cells' := SimTake(c, p, k, xs[0], i, rest, h, v, env, cells, ops);
      var w := TakeOne(c.fp, v, xs[0], i, env);
      if w.Val? {
        var mid := cells';
        var stack := mid + (ops + [v]);
        assert mid + (ops + [v] + [w.v]) == stack + [w.v];
        PopStep(c.fp, c.prog, q, k + 1 + |st.consts|, h + 1, stack, w.v);
        ReachesTrans(c.fp, c.prog, start, Running(q, stack + [w.v]), Running(q + 1, stack), 0, 1);
        ReachesWeaken(c.fp, c.prog, start, Running(q + 1, stack), 1);
        cells' := SimTargets(c, q + 1, k + 1 + |st.consts|, xs[1..], i + 1, h, v, w.env, mid, ops);
        ComputesFrom(c, start, Running(q + 1, stack), q + 1 + |rest.code|,
          EvalTargets(c.fp, v, xs[1..], i + 1, w.env), |cells|, cells', ops);
      }
    }
  }

  lemma TargetsEmpty(fp: Arith, v: Value, i: nat, L: seq<string>, k: nat, h: nat, env: Env)
    ensures GenTargets(fp, [], i, L, k, h) == Empty && EvalTargets(fp, v, [], i, env) == Val(v, env)
  {
  }

  lemma DestructureShape(fp: Arith, e: Expr, L: seq<string>, k: nat, h: nat, env: Env)
    requires e.Destructure?
    ensures var x := GenExpr(fp, e.source, L, k, h);
            GenExpr(fp, e, L, k, h) == Cat(x, GenTargets(fp, e.targets, 0, L, k + |x.consts|, h + 1))
    ensures var a := Eval(fp, e.source, env);
            Eval(fp, e, env) == if a.Val? then EvalTargets(fp, a.v, e.targets, 0, a.env) else a
    ensures Small(e) ==> Small(e.source)
  {
    hide GenExpr, Cat, GenTargets, EvalTargets;
    DestructureCode(fp, e, L, k, h);
  }

  lemma {:induction false} SimDestructure(c: Layout, p: nat, k: nat, e: Expr, h: nat, env: Env,
                                          cells: seq<Value>, ops: seq<Value>) returns (cells': seq<Value>)
    requires e.Destructure? && Ready(c, p, k, GenExpr(c.fp, e, c.L, k, h), env, cells) && Small(e)
    ensures Computes(c, Running(p, cells + ops), p + |GenExpr(c.fp, e, c.L, k, h).code|, Eval(c.fp, e, env), |cells|,
      cells', ops)
    decreases e, 1
  {
    hide GenExpr, Eval, Rel, Has, Reaches, Small, Cat, GenTargets, EvalTargets;
    DestructureShape(c.fp, e, c.L, k, h, env);
    var x := GenExpr(c.fp, e.source, c.L, k, h);
    var q, k' := p + |x.code|, k + |x.consts|;
    var rest := GenTargets(c.fp, e.targets, 0, c.L, k', h + 1);
    HasCat(c.prog, p, k, x, rest);
    var a := Eval(c.fp, e.source, env);
    cells' := SimExpr(c, p, k, e.source, h, env, cells, ops);
    if a.Val? {
      var mid := cells';
      cells' := SimTargets(c, q, k', e.targets, 0, h + 1, a.v, a.env, mid, ops);
      ComputesThen(c, Running(p, cells + ops), q, a.v, a.env, mid, ops, q + |rest.code|,
        EvalTargets(c.fp, a.v, e.targets, 0, a.env), |cells|, cells', ops);
    }
  }
}
