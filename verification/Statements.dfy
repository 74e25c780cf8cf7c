/** Compiled statements, run on the plain machine, do what they mean. */
module Statements {
  import opened Wrappers
  import opened Values
  import opened Bytecode
  import opened Source
  import opened CodeGen
  import opened Relation
  import opened TypedCode
  import T = Typing
  import opened Machine
  import opened Runs
  import opened Simulation

  /** From `s` the machine does what `r` says.  `c` is the layout the statement leaves;
      a statement that runs out of fuel keeps the machine running for as many steps. */
  ghost predicate Performs(c: Layout, s: State, q: nat, r: ExecResult, n: nat, cells: seq<Value>, fuel: nat) {
    match r
    case Normal(env) =>
      |cells| == n && Rel(env, c.bases, c.L, cells) && Reaches(c.fp, c.prog, s, Running(q, cells), 0)
    case Returned(v) => Reaches(c.fp, c.prog, s, Done(v), 0)
    case Failed(f) => Reaches(c.fp, c.prog, s, Halted(f), 0)
    case Stuck => true
    case OutOfFuel => Alive(c.fp, c.prog, s, fuel)
  }

  lemma PerformsFrom(c: Layout, s0: State, s: State, q: nat, r: ExecResult, n: nat, cells: seq<Value>, fuel: nat)
    requires Reaches(c.fp, c.prog, s0, s, 0) && Performs(c, s, q, r, n, cells, fuel)
    ensures Performs(c, s0, q, r, n, cells, fuel)
  {
    PerformsAfter(c, s0, s, q, r, n, cells, 0, fuel);
  }

  /** Steps made before `s` count. */
  lemma PerformsAfter(c: Layout, s0: State, s: State, q: nat, r: ExecResult, n: nat, cells: seq<Value>, m: nat,
                      fuel: nat)
    requires Reaches(c.fp, c.prog, s0, s, m) && Performs(c, s, q, r, n, cells, fuel)
    ensures Performs(c, s0, q, r, n, cells, m + fuel)
  {
    hide Rel, Reaches, Alive;
    ReachesWeaken(c.fp, c.prog, s0, s, m);
    match r
    case Normal(_) => ReachesTrans(c.fp, c.prog, s0, s, Running(q, cells), 0, 0);
    case Returned(v) => ReachesTrans(c.fp, c.prog, s0, s, Done(v), 0, 0);
    case Failed(f) => ReachesTrans(c.fp, c.prog, s0, s, Halted(f), 0, 0);
    case Stuck =>
    case OutOfFuel => ReachesAlive(c.fp, c.prog, s0, s, m, fuel);
  }

  /** A normal end at `q0` is followed by a run to `q`. */
  lemma PerformsOn(c: Layout, s: State, q0: nat, q: nat, r: ExecResult, n: nat, cells: seq<Value>, fuel: nat)
    requires Performs(c, s, q0, r, n, cells, fuel)
    requires r.Normal? ==> Reaches(c.fp, c.prog, Running(q0, cells), Running(q, cells), 0)
    ensures Performs(c, s, q, r, n, cells, fuel)
  {
    hide Rel, Reaches, Alive;
    if r.Normal? {
      ReachesTrans(c.fp, c.prog, s, Running(q0, cells), Running(q, cells), 0, 0);
    }
  }

  /** A statement that does not end normally may be followed by anything. */
  lemma PerformsElsewhere(c: Layout, c': Layout, s: State, q: nat, q': nat, r: ExecResult, n: nat, cells: seq<Value>,
                          fuel: nat)
    requires Performs(c, s, q, r, n, cells, fuel) && !r.Normal? && c'.fp == c.fp && c'.prog == c.prog
    ensures Performs(c', s, q', r, n, cells, fuel)
  {
  }

  // ----- values and conditions -----

  /** Like `Computes`, above no operands. */
  ghost predicate Evaluates(c: Layout, s: State, q: nat, r: EvalResult, n: nat, cells: seq<Value>) {
    match r
    case Val(v, env) =>
      |cells| == n && Rel(env, c.bases, c.L, cells) && Reaches(c.fp, c.prog, s, Running(q, cells + [v]), 0)
    case Crash(f) => Reaches(c.fp, c.prog, s, Halted(f), 0)
    case Unspecified => true
  }

  lemma SimTop(c: Layout, p: nat, k: nat, e: Expr, env: Env, cells: seq<Value>) returns (cells': seq<Value>)
    requires Ready(c, p, k, GenExpr(c.fp, e, c.L, k, 0), env, cells) && Small(e)
    ensures Evaluates(c, Running(p, cells), p + |GenExpr(c.fp, e, c.L, k, 0).code|, Eval(c.fp, e, env), |cells|, cells')
  {
    hide Rel, Reaches, GenExpr, Eval, Small, Ready;
    cells' := SimExpr(c, p, k, e, 0, env, cells, []);
    assert cells + [] == cells;
    var r := Eval(c.fp, e, env);
    if r.Val? { assert [] + [r.v] == [r.v]; }
  }

  /** What comes before a value that was not computed does not matter. */
  lemma EvaluatesFails(c: Layout, c': Layout, s: State, q: nat, q': nat, r: EvalResult, n: nat, cells: seq<Value>,
                       fuel: nat)
    requires Evaluates(c, s, q, r, n, cells) && !r.Val? && c'.fp == c.fp && c'.prog == c.prog
    ensures Performs(c', s, q', FromEval(r), n, cells, fuel)
  {
  }

  /** The value is on top of the stack; what happens next happens from there. */
  lemma EvaluatesThen(c: Layout, c': Layout, s: State, q0: nat, a: EvalResult, mid: seq<Value>,
                      q: nat, r: ExecResult, n: nat, cells: seq<Value>, fuel: nat)
    requires Evaluates(c, s, q0, a, n, mid) && a.Val? && c'.fp == c.fp && c'.prog == c.prog
    requires Performs(c', Running(q0, mid + [a.v]), q, r, n, cells, fuel)
    ensures Performs(c', s, q, r, n, cells, fuel)
  {
    PerformsFrom(c', s, Running(q0, mid + [a.v]), q, r, n, cells, fuel);
  }

  lemma SimDiscard(c: Layout, p: nat, k: nat, e: Expr, env: Env, cells: seq<Value>, fuel: nat)
    returns (cells': seq<Value>)
    requires Ready(c, p, k, Cat(GenExpr(c.fp, e, c.L, k, 0), One(Pop, 1)), env, cells) && Small(e)
    ensures Performs(c, Running(p, cells), p + |GenExpr(c.fp, e, c.L, k, 0).code| + 1,
              FromEval(Eval(c.fp, e, env)), |cells|, cells', fuel)
  {
    hide Rel, Reaches, GenExpr, Eval, Small, Has, Cat, One;
    var f := GenExpr(c.fp, e, c.L, k, 0);
    var q := p + |f.code|;
    HasCat(c.prog, p, k, f, One(Pop, 1));
    cells' := SimTop(c, p, k, e, env, cells);
    var a := Eval(c.fp, e, env);
    if a.Val? {
      PopStep(c.fp, c.prog, q, k + |f.consts|, 1, cells', a.v);
      ReachesTrans(c.fp, c.prog, Running(p, cells), Running(q, cells' + [a.v]), Running(q + 1, cells'), 0, 1);
      ReachesWeaken(c.fp, c.prog, Running(p, cells), Running(q + 1, cells'), 1);
    }
  }

  lemma BranchHas(prog: Program, p: nat, k: nat, test: Frag, yes: Frag, no: Frag, h: nat)
    requires Has(prog, p, k, Branch(test, yes, no, h))
    ensures var q, k1, k2 := p + |test.code|, k + |test.consts|, k + |test.consts| + |yes.consts|;
            && Has(prog, p, k, test) && Has(prog, q, k1, One(JumpIfFalse(Dist(|yes.code| + 3)), h))
            && Has(prog, q + 3, k1, yes) && Has(prog, q + 3 + |yes.code|, k2, One(Jump(Dist(|no.code|)), 0))
            && Has(prog, q + 6 + |yes.code|, k2, no)
  {
    hide Has, Cat, One, Encode;
    var q, k1, k2 := p + |test.code|, k + |test.consts|, k + |test.consts| + |yes.consts|;
    var jif, jump := One(JumpIfFalse(Dist(|yes.code| + 3)), h), One(Jump(Dist(|no.code|)), 0);
    HasFive(prog, p, k, test, jif, yes, jump, no);
  }

  /** The conditional jump picks a side and leaves the condition on the stack. */
  lemma TakeBranch(fp: Arith, prog: Program, q: nat, k: nat, d: nat, h: nat, stack: seq<Value>, v: Value)
    requires Has(prog, q, k, One(JumpIfFalse(Dist(d)), h)) && d < 0x1_0000
    ensures Reaches(fp, prog, Running(q, stack + [v]),
              Running(if BranchFalsy(fp, v) then q + 3 + d else q + 3, stack + [v]), 1)
  {
    hide One, Has, BranchFalsy, Reaches, Straight, Encode;
    assert Top(stack + [v]) == v;
    ControlStep(fp, prog, q, k, JumpIfFalse(d), h, stack + [v],
      Running(if BranchFalsy(fp, v) then q + 3 + d else q + 3, stack + [v]));
  }

  /** Either side of a branch starts by popping the condition. */
  lemma EnterSide(fp: Arith, prog: Program, q: nat, k: nat, d: nat, h: nat, q': nat, k': nat, stack: seq<Value>,
                  v: Value)
    requires Has(prog, q, k, One(JumpIfFalse(Dist(d)), h)) && d < 0x1_0000
    requires q' == (if BranchFalsy(fp, v) then q + 3 + d else q + 3) && Has(prog, q', k', One(Pop, h))
    ensures Reaches(fp, prog, Running(q, stack + [v]), Running(q' + 1, stack), 2)
  {
    hide One, Has, BranchFalsy, Reaches;
    TakeBranch(fp, prog, q, k, d, h, stack, v);
    PopStep(fp, prog, q', k', h, stack, v);
    ReachesTrans(fp, prog, Running(q, stack + [v]), Running(q', stack + [v]), Running(q' + 1, stack), 1, 1);
  }

  lemma TakeJump(fp: Arith, prog: Program, q: nat, k: nat, d: nat, h: nat, stack: seq<Value>)
    requires Has(prog, q, k, One(Jump(Dist(d)), h)) && d < 0x1_0000
    ensures Reaches(fp, prog, Running(q, stack), Running(q + 3 + d, stack), 0)
  {
    hide One, Has, Reaches, Straight, Encode;
    ControlStep(fp, prog, q, k, Jump(d), h, stack, Running(q + 3 + d, stack));
    ReachesWeaken(fp, prog, Running(q, stack), Running(q + 3 + d, stack), 1);
  }

  lemma TakeLoop(fp: Arith, prog: Program, q: nat, k: nat, d: nat, h: nat, stack: seq<Value>)
    requires Has(prog, q, k, One(Loop(Dist(d)), h)) && d < 0x1_0000 && d <= q + 3
    ensures Reaches(fp, prog, Running(q, stack), Running(q + 3 - d, stack), 1)
  {
    hide One, Has, Reaches, Straight, Encode;
    ControlStep(fp, prog, q, k, Loop(d), h, stack, Running(q + 3 - d, stack));
  }

  // ----- statements -----

  /** The slots a statement needs exist and are addressable. */
  predicate Room(peak: nat, cells: seq<Value>) {
    peak <= |cells| && peak <= 0x100
  }

  ghost predicate StmtReady(c: Layout, p: nat, k: nat, s: Stmt, env: Env, cells: seq<Value>) {
    && env != [] && Ready(c, p, k, GenStmt(c.fp, s, c.L, k), env, cells) && Room(Peak(s, |c.L|), cells)
    && SmallStmt(s, T.Any) && JumpsFit(c.fp, s, c.L, k)
  }

  /** The layout once `names` have been declared. */
  function After(c: Layout, names: seq<string>): (r: Layout)
    ensures r == Layout(c.fp, c.prog, c.bases, c.L + names)
  {
    c.(L := c.L + names)
  }

  lemma AfterNothing(c: Layout)
    ensures After(c, []) == c
  {
    assert c.L + [] == c.L;
  }

  lemma AfterAfter(c: Layout, a: seq<string>, b: seq<string>)
    ensures After(After(c, a), b) == After(c, a + b)
  {
    assert c.L + a + b == c.L + (a + b);
  }

  /** Code for a statement does what the statement means. */
  lemma {:induction false} SimStmt(c: Layout, p: nat, k: nat, s: Stmt, env: Env, cells: seq<Value>, fuel: nat)
    returns (cells': seq<Value>)
    requires StmtReady(c, p, k, s, env, cells)
    ensures Performs(After(c, Declared(s)), Running(p, cells), p + |GenStmt(c.fp, s, c.L, k).code|,
              Exec(c.fp, s, env, fuel), |cells|, cells', fuel)
    decreases fuel, s, 2
  {
    hide Performs, StmtReady;
    if s.Block? {
      cells' := SimBlock(c, p, k, s, env, cells, fuel);
    } else if s.Let? {
      cells' := SimLetStmt(c, p, k, s, env, cells, fuel);
    } else if s.If? {
      cells' := SimIf(c, p, k, s, env, cells, fuel);
    } else if s.While? {
      cells' := SimWhile(c, p, k, s, env, cells, fuel);
    } else if s.For? {
      cells' := SimFor(c, p, k, s, env, cells, fuel);
    } else if s.Switch? {
      cells' := SimSwitch(c, p, k, s, env, cells, fuel);
    } else if s.ExprStmt? {
      cells' := SimExprStmt(c, p, k, s, env, cells, fuel);
    } else {
      cells' := SimReturn(c, p, k, s, env, cells, fuel);
    }
  }

  lemma ExprStmtShape(c: Layout, p: nat, k: nat, s: Stmt, env: Env, cells: seq<Value>, fuel: nat)
    requires s.ExprStmt? && StmtReady(c, p, k, s, env, cells)
    ensures GenStmt(c.fp, s, c.L, k) == Cat(GenExpr(c.fp, s.e, c.L, k, 0), One(Pop, 1))
    ensures Small(s.e) && Declared(s) == []
    ensures Exec(c.fp, s, env, fuel) == FromEval(Eval(c.fp, s.e, env))
  {
    hide GenExpr, Eval, Cat, One, Small, Rel, Has;
  }

  lemma SimExprStmt(c: Layout, p: nat, k: nat, s: Stmt, env: Env, cells: seq<Value>, fuel: nat)
    returns (cells': seq<Value>)
    requires s.ExprStmt? && StmtReady(c, p, k, s, env, cells)
    ensures Performs(After(c, Declared(s)), Running(p, cells), p + |GenStmt(c.fp, s, c.L, k).code|,
              Exec(c.fp, s, env, fuel), |cells|, cells', fuel)
  {
    hide GenStmt, GenExpr, Eval, Exec, Cat, One, Small, Rel, Has, Performs, SmallStmt, JumpsFit, Peak;
    ExprStmtShape(c, p, k, s, env, cells, fuel);
    AfterNothing(c);
    cells' := SimDiscard(c, p, k, s.e, env, cells, fuel);
  }

  /** The value a `return` or a `let` takes. */
  function OptEval(fp: Arith, e: Option<Expr>, env: Env): EvalResult {
    if e.Some? then Eval(fp, e.value, env) else Val(Nil, env)
  }

  lemma SimOpt(c: Layout, p: nat, k: nat, e: Option<Expr>, env: Env, cells: seq<Value>) returns (cells': seq<Value>)
    requires Ready(c, p, k, GenValue(c.fp, e, c.L, k), env, cells) && SmallOpt(e)
    ensures Evaluates(c, Running(p, cells), p + |GenValue(c.fp, e, c.L, k).code|, OptEval(c.fp, e, env), |cells|,
      cells')
  {
    hide Rel, Reaches, GenExpr, Eval, Small, Has;
    if e.Some? {
      cells' := SimTop(c, p, k, e.value, env, cells);
    } else {
      cells' := cells;
      StraightStep(c.fp, c.prog, p, k, PushNil, 0, cells);
    }
  }

  lemma ReturnShape(c: Layout, p: nat, k: nat, s: Stmt, env: Env, cells: seq<Value>, fuel: nat)
    requires s.ReturnStmt? && StmtReady(c, p, k, s, env, cells)
    ensures GenStmt(c.fp, s, c.L, k) == Cat(GenValue(c.fp, s.result, c.L, k), One(Return, 1))
    ensures SmallOpt(s.result) && Declared(s) == []
    ensures var a := OptEval(c.fp, s.result, env);
            Exec(c.fp, s, env, fuel) == if a.Val? then Returned(a.v) else FromEval(a)
  {
    hide GenExpr, Eval, Cat, One, Small, Rel, Has;
  }

  lemma SimReturn(c: Layout, p: nat, k: nat, s: Stmt, env: Env, cells: seq<Value>, fuel: nat)
    returns (cells': seq<Value>)
    requires s.ReturnStmt? && StmtReady(c, p, k, s, env, cells)
    ensures Performs(After(c, Declared(s)), Running(p, cells), p + |GenStmt(c.fp, s, c.L, k).code|,
              Exec(c.fp, s, env, fuel), |cells|, cells', fuel)
  {
    hide GenStmt, GenValue, OptEval, Exec, Cat, One, SmallOpt, Rel, Has, Reaches, SmallStmt, JumpsFit, Peak;
    ReturnShape(c, p, k, s, env, cells, fuel);
    AfterNothing(c);
    var f := GenValue(c.fp, s.result, c.L, k);
    var q := p + |f.code|;
    HasCat(c.prog, p, k, f, One(Return, 1));
    cells' := SimOpt(c, p, k, s.result, env, cells);
    var a := OptEval(c.fp, s.result, env);
    if a.Val? {
      ReturnStep(c.fp, c.prog, q, k + |f.consts|, cells', a.v);
      ReachesTrans(c.fp, c.prog, Running(p, cells), Running(q, cells' + [a.v]), Done(a.v), 0, 0);
    }
  }

  lemma ReturnStep(fp: Arith, prog: Program, q: nat, k: nat, stack: seq<Value>, v: Value)
    requires Has(prog, q, k, One(Return, 1))
    ensures Reaches(fp, prog, Running(q, stack + [v]), Done(v), 0)
  {
    hide One, Has, Reaches, Straight, Encode;
    assert Top(stack + [v]) == v;
    ControlStep(fp, prog, q, k, Return, 1, stack + [v], Done(v));
    ReachesWeaken(fp, prog, Running(q, stack + [v]), Done(v), 1);
  }

  // ----- blocks -----

  ghost predicate StmtsReady(c: Layout, p: nat, k: nat, ss: seq<Stmt>, env: Env, cells: seq<Value>) {
    && env != [] && Ready(c, p, k, GenStmts(c.fp, ss, c.L, k), env, cells) && Room(PeakAll(ss, |c.L|), cells)
    && (forall x | x in ss :: SmallStmt(x, T.Any)) && AllJumpsFit(c.fp, ss, c.L, k)
  }

  lemma StmtsShape(c: Layout, p: nat, k: nat, ss: seq<Stmt>, env: Env, cells: seq<Value>, fuel: nat)
    requires ss != [] && StmtsReady(c, p, k, ss, env, cells)
    ensures var f := GenStmt(c.fp, ss[0], c.L, k);
            var L', k' := c.L + Declared(ss[0]), k + |f.consts|;
            && GenStmts(c.fp, ss, c.L, k) == Cat(f, GenStmts(c.fp, ss[1..], L', k'))
            && SmallStmt(ss[0], T.Any) && JumpsFit(c.fp, ss[0], c.L, k) && Room(Peak(ss[0], |c.L|), cells)
            && (forall x | x in ss[1..] :: SmallStmt(x, T.Any)) && AllJumpsFit(c.fp, ss[1..], L', k')
            && Room(PeakAll(ss[1..], |L'|), cells)
    ensures var r := Exec(c.fp, ss[0], env, fuel);
            ExecAll(c.fp, ss, env, fuel) == if r.Normal? then ExecAll(c.fp, ss[1..], r.env, fuel) else r
  {
    hide GenStmt, SmallStmt, JumpsFit, Peak, Exec, Rel, Cat, Has, Declared;
  }

  /** Statements in a row; returns the names they leave in scope. */
  lemma {:induction false} SimStmts(c: Layout, p: nat, k: nat, ss: seq<Stmt>, env: Env, cells: seq<Value>, fuel: nat)
    returns (cells': seq<Value>, names: seq<string>)
    requires StmtsReady(c, p, k, ss, env, cells)
    ensures Performs(After(c, names), Running(p, cells), p + |GenStmts(c.fp, ss, c.L, k).code|,
              ExecAll(c.fp, ss, env, fuel), |cells|, cells', fuel)
    decreases fuel, ss, 1
  {
    hide GenStmts, GenStmt, SmallStmt, AllJumpsFit, JumpsFit, Peak, PeakAll, Exec, ExecAll, Rel, Cat, Has, Declared,
      Reaches;
    cells', names := cells, [];
    var start := Running(p, cells);
    if ss == [] {
      StmtsEmpty(c.fp, c.L, k, env, fuel);
      AfterNothing(c);
      ReachesNow(c.fp, c.prog, start);
    } else {
      StmtsShape(c, p, k, ss, env, cells, fuel);
      var f := GenStmt(c.fp, ss[0], c.L, k);
      var c1, k1, q := After(c, Declared(ss[0])), k + |f.consts|, p + |f.code|;
      var g := GenStmts(c.fp, ss[1..], c1.L, k1);
      HasCat(c.prog, p, k, f, g);
      cells' := SimStmt(c, p, k, ss[0], env, cells, fuel);
      var r := Exec(c.fp, ss[0], env, fuel);
      if r.Normal? {
        var mid := cells';
        cells', names := SimStmts(c1, q, k1, ss[1..], r.env, mid, fuel);
        names := Declared(ss[0]) + names;
        assert c.L + names == c1.L + names[|Declared(ss[0])|..];
        PerformsFrom(After(c, names), start, Running(q, mid), q + |g.code|,
          ExecAll(c.fp, ss[1..], r.env, fuel), |cells|, cells', fuel);
      } else {
        PerformsElsewhere(c1, After(c, []), start, q, q + |g.code|, r, |cells|, cells', fuel);
      }
    }
  }

  lemma StmtsEmpty(fp: Arith, L: seq<string>, k: nat, env: Env, fuel: nat)
    requires env != []
    ensures GenStmts(fp, [], L, k) == Empty && ExecAll(fp, [], env, fuel) == Normal(env)
  {
  }

  lemma EnterFit(c: Layout, env: Env, cells: seq<Value>)
    requires Fit(c, env, cells)
    ensures Fit(c.(bases := c.bases + [|c.L|]), Enter(env), cells)
  {
    RelEnter(env, c.bases, c.L, cells);
  }

  /** Leaving a scope restores the layout of the enclosing one. */
  lemma PerformsLeave(c: Layout, names: seq<string>, s: State, q: nat, r: ExecResult, n: nat, cells: seq<Value>,
                      fuel: nat)
    requires Performs(After(c.(bases := c.bases + [|c.L|]), names), s, q, r, n, cells, fuel)
    requires r.Normal? ==> r.env != []
    ensures Performs(c, s, q, if r.Normal? then Normal(Leave(r.env)) else r, n, cells, fuel)
  {
    hide Reaches;
    if r.Normal? {
      RelLeave(r.env, c.bases + [|c.L|], c.L + names, cells);
      assert (c.bases + [|c.L|])[..|c.bases|] == c.bases;
      assert (c.L + names)[..|c.L|] == c.L;
    }
  }

  lemma BlockShape(c: Layout, p: nat, k: nat, s: Stmt, env: Env, cells: seq<Value>, fuel: nat)
    requires s.Block? && StmtReady(c, p, k, s, env, cells)
    ensures GenStmt(c.fp, s, c.L, k) == GenStmts(c.fp, s.body, c.L, k) && Declared(s) == []
    ensures (forall x | x in s.body :: SmallStmt(x, T.Any)) && AllJumpsFit(c.fp, s.body, c.L, k)
    ensures Room(PeakAll(s.body, |c.L|), cells)
    ensures var r := ExecAll(c.fp, s.body, Enter(env), fuel);
            Exec(c.fp, s, env, fuel) == if r.Normal? then Normal(Leave(r.env)) else r
  {
    hide GenStmts, AllJumpsFit, PeakAll, ExecAll, Rel, Has, Enter, Leave;
  }

  lemma {:induction false} SimBlock(c: Layout, p: nat, k: nat, s: Stmt, env: Env, cells: seq<Value>, fuel: nat)
    returns (cells': seq<Value>)
    requires s.Block? && StmtReady(c, p, k, s, env, cells)
    ensures Performs(After(c, Declared(s)), Running(p, cells), p + |GenStmt(c.fp, s, c.L, k).code|,
              Exec(c.fp, s, env, fuel), |cells|, cells', fuel)
    decreases fuel, s, 1
  {
    hide GenStmts, GenStmt, SmallStmt, AllJumpsFit, JumpsFit, PeakAll, Peak, ExecAll, Exec, Rel, Has, Performs, Leave;
    BlockShape(c, p, k, s, env, cells, fuel);
    AfterNothing(c);
    EnterFit(c, env, cells);
    var c1 := c.(bases := c.bases + [|c.L|]);
    var names;
    cells', names := SimStmts(c1, p, k, s.body, Enter(env), cells, fuel);
    PerformsLeave(c, names, Running(p, cells), p + |GenStmt(c.fp, s, c.L, k).code|,
      ExecAll(c.fp, s.body, Enter(env), fuel), |cells|, cells', fuel);
  }

  // ----- let -----

  lemma DeclareFit(c: Layout, env: Env, cells: seq<Value>, names: seq<string>)
    requires env != [] && Fit(c, env, cells) && Room(|c.L| + |names|, cells)
    ensures Fit(After(c, names), Declare(env, names), cells)
  {
    hide Rel;
    RelDeclare(env, c.bases, c.L, cells, names);
  }

  lemma LetMeaning(fp: Arith, x: string, init: Option<Expr>, env: Env)
    requires env != []
    ensures var a := OptEval(fp, init, Declare(env, [x]));
            ExecLet(fp, x, init, env) == if a.Val? then Normal(Update(a.env, x, a.v)) else FromEval(a)
  {
    hide Eval, Declare, Update;
  }

  lemma {:induction false} SimLet(c: Layout, p: nat, k: nat, x: string, init: Option<Expr>, env: Env,
                                  cells: seq<Value>, fuel: nat) returns (cells': seq<Value>)
    requires env != [] && Ready(c, p, k, GenLet(c.fp, x, init, c.L, k), env, cells)
    requires Room(|c.L| + 1, cells) && SmallOpt(init)
    ensures Performs(After(c, [x]), Running(p, cells), p + |GenLet(c.fp, x, init, c.L, k).code|,
              ExecLet(c.fp, x, init, env), |cells|, cells', fuel)
  {
    hide GenValue, GenLet, OptEval, ExecLet, Has, Declare, Update, SmallOpt, Rel, Evaluates, Performs, Ready, Fit,
      One, After;
    var c1, env1 := After(c, [x]), Declare(env, [x]);
    LetMeaning(c.fp, x, init, env);
    LetStands(c, p, k, x, init, env, cells);
    var f := GenValue(c.fp, init, c1.L, k);
    var q, k' := p + |f.code|, k + |f.consts|;
    cells' := SimOpt(c1, p, k, init, env1, cells);
    var a := OptEval(c.fp, init, env1);
    if a.Val? {
      LetTail(c1, Running(p, cells), q, k', x, a, |cells|, cells', fuel);
      cells' := cells'[|c.L| := a.v];
    } else {
      EvaluatesFails(c1, c1, Running(p, cells), q, q + 3, a, |cells|, cells', fuel);
    }
  }

  /** Where the parts of a declaration stand. */
  lemma LetStands(c: Layout, p: nat, k: nat, x: string, init: Option<Expr>, env: Env, cells: seq<Value>)
    requires env != [] && Ready(c, p, k, GenLet(c.fp, x, init, c.L, k), env, cells) && Room(|c.L| + 1, cells)
    ensures var c1 := After(c, [x]);
            var f := GenValue(c.fp, init, c1.L, k);
            var q, k', slot := p + |f.code|, k + |f.consts|, |c1.L| - 1;
            && slot == |c.L| < 0x100 && c1.L[slot] == x && |c.prog.consts| <= 0x100
            && Ready(c1, p, k, f, Declare(env, [x]), cells)
            && Has(c.prog, q, k', One(SetLocal(slot), 1)) && Has(c.prog, q + 2, k', One(Pop, 1))
            && |GenLet(c.fp, x, init, c.L, k).code| == |f.code| + 3
  {
    hide GenValue, GenLet, Has, Declare, Rel, Encode, InstrMarks, Cat, One;
    LetShape(c.fp, x, init, c.L, k);
    DeclareFit(c, env, cells, [x]);
    HasThree(c.prog, p, k, GenValue(c.fp, init, c.L + [x], k), One(SetLocal(|c.L|), 1), One(Pop, 1));
  }

  lemma LetShape(fp: Arith, x: string, init: Option<Expr>, L: seq<string>, k: nat)
    requires |L| < 0x100
    ensures GenLet(fp, x, init, L, k) == Cat(GenValue(fp, init, L + [x], k), Cat(One(SetLocal(|L|), 1), One(Pop, 1)))
  {
    hide GenExpr, Cat, One;
  }

  /** SET_LOCAL; POP of the newest local. */
  lemma StoreNew(c: Layout, q: nat, k: nat, x: string, cells: seq<Value>, v: Value, env: Env)
    requires |c.L| > 0 && c.L[|c.L| - 1] == x && Fit(c, env, cells)
    requires var slot := |c.L| - 1;
             Has(c.prog, q, k, One(SetLocal(slot), 1)) && Has(c.prog, q + 2, k, One(Pop, 1))
    ensures var slot := |c.L| - 1;
            && slot < |cells|
            && Reaches(c.fp, c.prog, Running(q, cells + [v]), Running(q + 3, cells[slot := v]), 0)
            && Rel(Update(env, x, v), c.bases, c.L, cells[slot := v])
  {
    hide Rel, Has, One, Reaches, Update;
    var slot := |c.L| - 1;
    RelSize(env, c.bases, c.L, cells);
    assert Resolve(c.L, x) == slot;
    RelUpdate(env, c.bases, c.L, cells, x, v);
    var stack := cells[slot := v];
    assert (cells + [v])[slot := v] == stack + [v];
    assert Top(cells + [v]) == v;
    StraightStep(c.fp, c.prog, q, k, SetLocal(slot), 1, cells + [v]);
    PopStep(c.fp, c.prog, q + 2, k, 1, stack, v);
    ReachesTrans(c.fp, c.prog, Running(q, cells + [v]), Running(q + 2, stack + [v]), Running(q + 3, stack), 0, 1);
    ReachesWeaken(c.fp, c.prog, Running(q, cells + [v]), Running(q + 3, stack), 1);
  }

  lemma LetTail(c: Layout, s: State, q: nat, k: nat, x: string, a: EvalResult, n: nat, mid: seq<Value>, fuel: nat)
    requires |c.L| > 0 && c.L[|c.L| - 1] == x && |c.prog.consts| <= 0x100 && |c.L| <= 0x100
    requires Has(c.prog, q, k, One(SetLocal(|c.L| - 1), 1)) && Has(c.prog, q + 2, k, One(Pop, 1))
    requires a.Val? && Evaluates(c, s, q, a, n, mid)
    ensures |c.L| <= |mid|
    ensures Performs(c, s, q + 3, Normal(Update(a.env, x, a.v)), n, mid[|c.L| - 1 := a.v], fuel)
  {
    hide Has, One, Update, Reaches, Rel;
    StoreNew(c, q, k, x, mid, a.v, a.env);
    ReachesTrans(c.fp, c.prog, s, Running(q, mid + [a.v]), Running(q + 3, mid[|c.L| - 1 := a.v]), 0, 0);
  }

  lemma SimLetStmt(c: Layout, p: nat, k: nat, s: Stmt, env: Env, cells: seq<Value>, fuel: nat)
    returns (cells': seq<Value>)
    requires s.Let? && StmtReady(c, p, k, s, env, cells)
    ensures Performs(After(c, Declared(s)), Running(p, cells), p + |GenStmt(c.fp, s, c.L, k).code|,
              Exec(c.fp, s, env, fuel), |cells|, cells', fuel)
  {
    hide GenLet, ExecLet, Rel, Has, Performs, SmallOpt;
    cells' := SimLet(c, p, k, s.name, s.init, env, cells, fuel);
  }

  // ----- if -----

  lemma IfShape(c: Layout, p: nat, k: nat, s: Stmt, env: Env, cells: seq<Value>)
    requires s.If? && StmtReady(c, p, k, s, env, cells)
    ensures var L1 := c.L + Declared(s.thn);
            && Small(s.cond) && SmallStmt(s.thn, T.Any) && (s.els.Some? ==> SmallStmt(s.els.value, T.Any))
            && Room(Peak(s.thn, |c.L|), cells) && (s.els.Some? ==> Room(Peak(s.els.value, |L1|), cells))
            && Declared(s) == Declared(s.thn) + (if s.els.Some? then Declared(s.els.value) else [])
            && Room(|c.L| + |Declared(s)|, cells)
  {
    hide GenStmt, Rel, Has, JumpsFit, Small;
  }

  function IfTail(fp: Arith, s: Stmt, v: Value, env: Env, fuel: nat): ExecResult
    requires s.If? && env != []
  {
    if BranchFalsy(fp, v) then
      var env' := Declare(env, Declared(s.thn));
      if s.els.Some? then Exec(fp, s.els.value, env', fuel) else Normal(env')
    else
      var r := Exec(fp, s.thn, env, fuel);
      if r.Normal? && s.els.Some? then Normal(Declare(r.env, Declared(s.els.value))) else r
  }

  lemma IfMeaning(fp: Arith, s: Stmt, env: Env, fuel: nat)
    requires s.If? && env != []
    ensures var a := Eval(fp, s.cond, env);
            Exec(fp, s, env, fuel) == if a.Val? then IfTail(fp, s, a.v, a.env, fuel) else FromEval(a)
  {
    hide Eval, Declare, BranchFalsy;
  }

  lemma {:induction false} SimIf(c: Layout, p: nat, k: nat, s: Stmt, env: Env, cells: seq<Value>, fuel: nat)
    returns (cells': seq<Value>)
    requires s.If? && StmtReady(c, p, k, s, env, cells)
    ensures Performs(After(c, Declared(s)), Running(p, cells), p + |GenStmt(c.fp, s, c.L, k).code|,
              Exec(c.fp, s, env, fuel), |cells|, cells', fuel)
    decreases fuel, s, 1
  {
    hide GenStmt, SmallStmt, Small, JumpsFit, Peak, Exec, Eval, IfTail, Rel, Has, Performs, Declared, GenExpr,
      Evaluates;
    IfShape(c, p, k, s, env, cells);
    IfFits(c.fp, s, c.L, k);
    IfMeaning(c.fp, s, env, fuel);
    var cc := GenExpr(c.fp, s.cond, c.L, k, 0);
    var a := Eval(c.fp, s.cond, env);
    var end := p + |GenStmt(c.fp, s, c.L, k).code|;
    var c2 := After(c, Declared(s));
    IfHas(c, p, k, s);
    cells' := SimTop(c, p, k, s.cond, env, cells);
    if a.Val? {
      var mid := cells';
      EvaluatesFit(c, Running(p, cells), p + |cc.code|, a, |cells|, mid);
      cells' := SimIfTail(c, p, k, s, a.v, a.env, mid, fuel);
      EvaluatesThen(c, c2, Running(p, cells), p + |cc.code|, a, mid, end, IfTail(c.fp, s, a.v, a.env, fuel), |cells|,
        cells', fuel);
    } else {
      EvaluatesFails(c, c2, Running(p, cells), p + |cc.code|, end, a, |cells|, cells', fuel);
    }
  }

  lemma EvaluatesFit(c: Layout, s: State, q: nat, a: EvalResult, n: nat, cells: seq<Value>)
    requires Evaluates(c, s, q, a, n, cells) && a.Val? && |c.prog.consts| <= 0x100 && |c.L| <= 0x100
    ensures Fit(c, a.env, cells) && |cells| == n
  {
  }

  /** Where the parts of an `if` stand. */
  ghost predicate IfAt(c: Layout, p: nat, k: nat, s: Stmt)
    requires s.If?
  {
    var cc := GenExpr(c.fp, s.cond, c.L, k, 0);
    var k1 := k + |cc.consts|;
    var tt := GenStmt(c.fp, s.thn, c.L, k1);
    var L', k2 := c.L + Declared(s.thn), k1 + |tt.consts|;
    var ee := if s.els.Some? then GenStmt(c.fp, s.els.value, L', k2) else Empty;
    var q := p + |cc.code|;
    && |tt.code| + 4 < 0x1_0000 && |ee.code| + 1 < 0x1_0000
    && Has(c.prog, p, k, cc) && Has(c.prog, q, k1, One(JumpIfFalse(Dist(|tt.code| + 4)), 1))
    && Has(c.prog, q + 3, k1, One(Pop, 1)) && Has(c.prog, q + 4, k1, tt)
    && Has(c.prog, q + 4 + |tt.code|, k2, One(Jump(Dist(|ee.code| + 1)), 0))
    && Has(c.prog, q + 7 + |tt.code|, k2, One(Pop, 1)) && Has(c.prog, q + 8 + |tt.code|, k2, ee)
    && |GenStmt(c.fp, s, c.L, k).code| == |cc.code| + |tt.code| + |ee.code| + 8
  }

  lemma IfHas(c: Layout, p: nat, k: nat, s: Stmt)
    requires s.If? && Has(c.prog, p, k, GenStmt(c.fp, s, c.L, k)) && JumpsFit(c.fp, s, c.L, k)
    ensures IfAt(c, p, k, s)
  {
    hide Has, GenStmt, GenExpr, One, Cat, Declared, JumpsFit, Encode;
    IfFits(c.fp, s, c.L, k);
    var cc := GenExpr(c.fp, s.cond, c.L, k, 0);
    var k1 := k + |cc.consts|;
    var tt := GenStmt(c.fp, s.thn, c.L, k1);
    var L', k2 := c.L + Declared(s.thn), k1 + |tt.consts|;
    var ee := if s.els.Some? then GenStmt(c.fp, s.els.value, L', k2) else Empty;
    var q := p + |cc.code|;
    BranchHas(c.prog, p, k, cc, Cat(One(Pop, 1), tt), Cat(One(Pop, 1), ee), 1);
    HasCat(c.prog, q + 3, k1, One(Pop, 1), tt);
    HasCat(c.prog, q + 7 + |tt.code|, k2, One(Pop, 1), ee);
  }

  /** From the conditional jump to the branch that is taken. */
  lemma IfEnters(c: Layout, p: nat, k: nat, s: Stmt, cells: seq<Value>, v: Value)
    requires s.If? && IfAt(c, p, k, s)
    ensures var cc := GenExpr(c.fp, s.cond, c.L, k, 0);
            var k1, q := k + |cc.consts|, p + |cc.code|;
            var tt := GenStmt(c.fp, s.thn, c.L, k1);
            var L', k2 := c.L + Declared(s.thn), k1 + |tt.consts|;
            && Has(c.prog, q + 4, k1, tt)
            && (s.els.Some? ==> Has(c.prog, q + 8 + |tt.code|, k2, GenStmt(c.fp, s.els.value, L', k2)))
            && Reaches(c.fp, c.prog, Running(q, cells + [v]),
                 Running(if BranchFalsy(c.fp, v) then q + 8 + |tt.code| else q + 4, cells), 0)
  {
    hide GenExpr, GenStmt, Declared, Has, Reaches, BranchFalsy, One;
    var cc := GenExpr(c.fp, s.cond, c.L, k, 0);
    var k1, q := k + |cc.consts|, p + |cc.code|;
    var tt := GenStmt(c.fp, s.thn, c.L, k1);
    var q' := if BranchFalsy(c.fp, v) then q + 7 + |tt.code| else q + 3;
    EnterSide(c.fp, c.prog, q, k1, |tt.code| + 4, 1, q', if BranchFalsy(c.fp, v) then k1 + |tt.consts|
      else k1, cells, v);
    ReachesWeaken(c.fp, c.prog, Running(q, cells + [v]), Running(q' + 1, cells), 2);
  }

  /** From the end of the first branch past the second one. */
  lemma IfSkips(c: Layout, p: nat, k: nat, s: Stmt, cells: seq<Value>)
    requires s.If? && IfAt(c, p, k, s)
    ensures var cc := GenExpr(c.fp, s.cond, c.L, k, 0);
            var tt := GenStmt(c.fp, s.thn, c.L, k + |cc.consts|);
            Reaches(c.fp, c.prog, Running(p + |cc.code| + 4 + |tt.code|, cells),
              Running(p + |GenStmt(c.fp, s, c.L, k).code|, cells), 0)
  {
    hide GenExpr, GenStmt, Declared, Has, Reaches, BranchFalsy, One;
    var cc := GenExpr(c.fp, s.cond, c.L, k, 0);
    var k1 := k + |cc.consts|;
    var tt := GenStmt(c.fp, s.thn, c.L, k1);
    var k2 := k1 + |tt.consts|;
    var ee := if s.els.Some? then GenStmt(c.fp, s.els.value, c.L + Declared(s.thn), k2) else Empty;
    TakeJump(c.fp, c.prog, p + |cc.code| + 4 + |tt.code|, k2, |ee.code| + 1, 0, cells);
  }

  lemma IfLength(c: Layout, p: nat, k: nat, s: Stmt)
    requires s.If? && IfAt(c, p, k, s)
    ensures var cc := GenExpr(c.fp, s.cond, c.L, k, 0);
            var k1 := k + |cc.consts|;
            var tt := GenStmt(c.fp, s.thn, c.L, k1);
            |GenStmt(c.fp, s, c.L, k).code| == |cc.code| + |tt.code| + 8
              + if s.els.Some? then |GenStmt(c.fp, s.els.value, c.L + Declared(s.thn), k1 + |tt.consts|).code| else 0
  {
    hide GenExpr, GenStmt, Declared, Has, One;
  }

  /** From the conditional jump on, when the condition is `v`. */
  lemma {:induction false} SimIfTail(c: Layout, p: nat, k: nat, s: Stmt, v: Value, env: Env, cells: seq<Value>,
                                     fuel: nat)
    returns (cells': seq<Value>)
    requires s.If? && env != [] && IfAt(c, p, k, s) && Fit(c, env, cells)
    requires SmallStmt(s.thn, T.Any) && (s.els.Some? ==> SmallStmt(s.els.value, T.Any)) && JumpsFit(c.fp, s, c.L, k)
    requires var L1 := c.L + Declared(s.thn);
             && Room(Peak(s.thn, |c.L|), cells) && (s.els.Some? ==> Room(Peak(s.els.value, |L1|), cells))
             && Declared(s) == Declared(s.thn) + (if s.els.Some? then Declared(s.els.value) else [])
             && Room(|c.L| + |Declared(s)|, cells)
    ensures Performs(After(c, Declared(s)), Running(p + |GenExpr(c.fp, s.cond, c.L, k, 0).code|, cells + [v]),
              p + |GenStmt(c.fp, s, c.L, k).code|, IfTail(c.fp, s, v, env, fuel), |cells|, cells', fuel)
    decreases fuel, s, 0, 1
  {
    hide *;
    if BranchFalsy(c.fp, v) {
      cells' := cells;
      assert Declared(s.thn) + [] == Declared(s.thn);
      if s.els.Some? {
        cells' := SimElse(c, p, k, s, v, env, cells, fuel);
      } else {
        SimNoElse(c, p, k, s, v, env, cells, fuel);
      }
    } else {
      cells' := SimThen(c, p, k, s, v, env, cells, fuel);
    }
  }

  /** Names of branches that did not run are declared all the same. */
  lemma PerformsDeclare(c: Layout, names: seq<string>, s: State, q: nat, r: ExecResult, n: nat, cells: seq<Value>,
                        fuel: nat)
    requires Performs(c, s, q, r, n, cells, fuel) && |c.L| + |names| <= n
    requires r.Normal? ==> r.env != []
    ensures Performs(After(c, names), s, q, if r.Normal? then Normal(Declare(r.env, names)) else r, n, cells, fuel)
  {
    hide Rel, Declare, Reaches;
    if r.Normal? { RelDeclare(r.env, c.bases, c.L, cells, names); }
  }

  lemma {:induction false} SimThen(c: Layout, p: nat, k: nat, s: Stmt, v: Value, env: Env, cells: seq<Value>, fuel: nat)
    returns (cells': seq<Value>)
    requires s.If? && env != [] && IfAt(c, p, k, s) && Fit(c, env, cells) && !BranchFalsy(c.fp, v)
    requires SmallStmt(s.thn, T.Any) && JumpsFit(c.fp, s, c.L, k) && Room(Peak(s.thn, |c.L|), cells)
    requires Declared(s) == Declared(s.thn) + (if s.els.Some? then Declared(s.els.value) else [])
    requires Room(|c.L| + |Declared(s)|, cells)
    ensures Performs(After(c, Declared(s)), Running(p + |GenExpr(c.fp, s.cond, c.L, k, 0).code|, cells + [v]),
              p + |GenStmt(c.fp, s, c.L, k).code|, IfTail(c.fp, s, v, env, fuel), |cells|, cells', fuel)
    decreases fuel, s, 0, 0
  {
    hide GenStmt, SmallStmt, JumpsFit, Peak, Exec, Rel, Has, Performs, Declared, GenExpr, BranchFalsy, Reaches,
      Declare, IfAt,
      IfTail, Fit, After, StmtReady;
    ThenMeaning(c.fp, s, v, env, fuel);
    ThenReady(c, p, k, s, env, cells);
    IfEnters(c, p, k, s, cells, v);
    var cc := GenExpr(c.fp, s.cond, c.L, k, 0);
    var k1, q := k + |cc.consts|, p + |cc.code|;
    var tt := GenStmt(c.fp, s.thn, c.L, k1);
    var names := if s.els.Some? then Declared(s.els.value) else [];
    cells' := SimStmt(c, q + 4, k1, s.thn, env, cells, fuel);
    IfSkips(c, p, k, s, cells');
    ThenLeaves(c, Declared(s.thn), names, Running(q, cells + [v]), Running(q + 4, cells), q + 4 + |tt.code|,
      p + |GenStmt(c.fp, s, c.L, k).code|, Exec(c.fp, s.thn, env, fuel), |cells|, cells', fuel);
  }

  lemma ThenReady(c: Layout, p: nat, k: nat, s: Stmt, env: Env, cells: seq<Value>)
    requires s.If? && env != [] && IfAt(c, p, k, s) && Fit(c, env, cells)
    requires SmallStmt(s.thn, T.Any) && JumpsFit(c.fp, s, c.L, k) && Room(Peak(s.thn, |c.L|), cells)
    ensures var cc := GenExpr(c.fp, s.cond, c.L, k, 0);
            StmtReady(c, p + |cc.code| + 4, k + |cc.consts|, s.thn, env, cells)
  {
    hide GenStmt, SmallStmt, JumpsFit, Peak, Rel, Declared, GenExpr, IfAt, Has;
    IfFits(c.fp, s, c.L, k);
    IfEnters(c, p, k, s, cells, Nil);
  }

  /** After the first side: past the second one, whose names are declared. */
  lemma ThenLeaves(c: Layout, own: seq<string>, names: seq<string>, s0: State, s: State, q: nat, end: nat,
                   r: ExecResult,
                   n: nat, cells: seq<Value>, fuel: nat)
    requires Reaches(c.fp, c.prog, s0, s, 0) && Reaches(c.fp, c.prog, Running(q, cells), Running(end, cells), 0)
    requires Performs(After(c, own), s, q, r, n, cells, fuel) && |c.L| + |own| + |names| <= n
    requires r.Normal? ==> r.env != []
    ensures Performs(After(c, own + names), s0, end, if r.Normal? then Normal(Declare(r.env, names))
      else r, n, cells, fuel)
  {
    hide Performs, Reaches, Declare;
    var c1 := After(c, own);
    PerformsOn(c1, s, q, end, r, n, cells, fuel);
    PerformsFrom(c1, s0, s, end, r, n, cells, fuel);
    PerformsDeclare(c1, names, s0, end, r, n, cells, fuel);
    AfterAfter(c, own, names);
  }

  lemma ThenMeaning(fp: Arith, s: Stmt, v: Value, env: Env, fuel: nat)
    requires s.If? && env != [] && !BranchFalsy(fp, v)
    ensures var r := Exec(fp, s.thn, env, fuel);
            var names := if s.els.Some? then Declared(s.els.value) else [];
            IfTail(fp, s, v, env, fuel) == if r.Normal? then Normal(Declare(r.env, names)) else r
  {
    hide Exec, Declared, BranchFalsy;
  }

  lemma ElseMeaning(fp: Arith, s: Stmt, v: Value, env: Env, fuel: nat)
    requires s.If? && env != [] && BranchFalsy(fp, v)
    ensures var env' := Declare(env, Declared(s.thn));
            IfTail(fp, s, v, env, fuel) == if s.els.Some? then Exec(fp, s.els.value, env', fuel) else Normal(env')
  {
    hide Declare, Exec, Declared, BranchFalsy;
  }

  lemma {:induction false} SimElse(c: Layout, p: nat, k: nat, s: Stmt, v: Value, env: Env, cells: seq<Value>, fuel: nat)
    returns (cells': seq<Value>)
    requires s.If? && s.els.Some? && env != [] && IfAt(c, p, k, s) && Fit(c, env, cells) && BranchFalsy(c.fp, v)
    requires SmallStmt(s.els.value, T.Any) && Room(Peak(s.els.value, |c.L + Declared(s.thn)|), cells)
    requires JumpsFit(c.fp, s, c.L, k)
    requires Declared(s) == Declared(s.thn) + Declared(s.els.value)
    requires Room(|c.L| + |Declared(s)|, cells)
    ensures Performs(After(c, Declared(s)), Running(p + |GenExpr(c.fp, s.cond, c.L, k, 0).code|, cells + [v]),
              p + |GenStmt(c.fp, s, c.L, k).code|, IfTail(c.fp, s, v, env, fuel), |cells|, cells', fuel)
    decreases fuel, s, 0, 0
  {
    hide GenStmt, SmallStmt, JumpsFit, Peak, Exec, Rel, Has, Declared, GenExpr, BranchFalsy, Reaches, Declare, IfAt,
      IfTail,
      Fit, Performs, After;
    ElseMeaning(c.fp, s, v, env, fuel);
    IfFits(c.fp, s, c.L, k);
    IfEnters(c, p, k, s, cells, v);
    IfLength(c, p, k, s);
    AfterAfter(c, Declared(s.thn), Declared(s.els.value));
    var cc := GenExpr(c.fp, s.cond, c.L, k, 0);
    var k1, q := k + |cc.consts|, p + |cc.code|;
    var tt := GenStmt(c.fp, s.thn, c.L, k1);
    var c1, q1 := After(c, Declared(s.thn)), q + 8 + |tt.code|;
    var env1 := Declare(env, Declared(s.thn));
    DeclareFit(c, env, cells, Declared(s.thn));
    cells' := SimStmt(c1, q1, k1 + |tt.consts|, s.els.value, env1, cells, fuel);
    PerformsFrom(After(c, Declared(s)), Running(q, cells + [v]), Running(q1, cells),
      p + |GenStmt(c.fp, s, c.L, k).code|,
      Exec(c.fp, s.els.value, env1, fuel), |cells|, cells', fuel);
  }

  lemma SimNoElse(c: Layout, p: nat, k: nat, s: Stmt, v: Value, env: Env, cells: seq<Value>, fuel: nat)
    requires s.If? && s.els.None? && env != [] && IfAt(c, p, k, s) && Fit(c, env, cells) && BranchFalsy(c.fp, v)
    requires Declared(s) == Declared(s.thn) && Room(|c.L| + |Declared(s)|, cells)
    ensures Performs(After(c, Declared(s)), Running(p + |GenExpr(c.fp, s.cond, c.L, k, 0).code|, cells + [v]),
              p + |GenStmt(c.fp, s, c.L, k).code|, IfTail(c.fp, s, v, env, fuel), |cells|, cells, fuel)
  {
    hide GenStmt, Exec, Rel, Has, Declared, GenExpr, BranchFalsy, Reaches, Declare, IfAt, IfTail, Fit, Performs, After;
    ElseMeaning(c.fp, s, v, env, fuel);
    IfEnters(c, p, k, s, cells, v);
    IfLength(c, p, k, s);
    DeclareFit(c, env, cells, Declared(s.thn));
    var c1, env1 := After(c, Declared(s.thn)), Declare(env, Declared(s.thn));
    FitRel(c1, env1, cells);
    PerformsNormal(c1, Running(p + |GenExpr(c.fp, s.cond, c.L, k, 0).code|, cells + [v]),
      p + |GenStmt(c.fp, s, c.L, k).code|, env1, cells, 0, fuel);
  }

  lemma FitRel(c: Layout, env: Env, cells: seq<Value>)
    requires Fit(c, env, cells)
    ensures Rel(env, c.bases, c.L, cells)
  {
  }

  // ----- loops -----

  ghost predicate LoopReady(c: Layout, p: nat, k: nat, cond: Option<Expr>, u: Option<Expr>, body: Stmt, env: Env,
                            cells: seq<Value>) {
    && env != [] && Ready(c, p, k, GenLoop(c.fp, cond, u, body, c.L, k), env, cells) && Room(Peak(body, |c.L|), cells)
    && SmallOpt(cond) && SmallOpt(u) && SmallStmt(body, T.Any) && LoopFits(c.fp, cond, u, body, c.L, k)
  }

  ghost predicate IterReady(c: Layout, p: nat, k: nat, u: Option<Expr>, body: Stmt, env: Env, cells: seq<Value>) {
    && env != [] && Ready(c, p, k, GenIteration(c.fp, u, body, c.L, k), env, cells) && Room(Peak(body, |c.L|), cells)
    && SmallOpt(u) && SmallStmt(body, T.Any) && JumpsFit(c.fp, body, c.L, k)
  }

  /** One turn of a loop after its condition: the body and the update. */
  function ExecOnce(fp: Arith, u: Option<Expr>, body: Stmt, env: Env, fuel: nat): (r: ExecResult)
    requires env != []
    ensures r.Normal? ==> |r.env| == |env|
  {
    var b := ExecBody(fp, body, env, fuel);
    if !b.Normal? || u.None? then b else FromEval(Eval(fp, u.value, b.env))
  }

  lemma IterationMeaning(fp: Arith, cond: Option<Expr>, u: Option<Expr>, body: Stmt, env: Env, fuel: nat)
    requires env != [] && fuel > 0
    ensures var r := ExecOnce(fp, u, body, env, fuel);
            ExecIteration(fp, cond, u, body, env, fuel)
              == if r.Normal? then ExecLoop(fp, cond, u, body, r.env, fuel - 1) else r
  {
    hide ExecBody, Eval, ExecLoop;
  }

  lemma {:induction false} SimBody(c: Layout, p: nat, k: nat, body: Stmt, env: Env, cells: seq<Value>, fuel: nat)
    returns (cells': seq<Value>)
    requires StmtReady(c, p, k, body, env, cells)
    ensures Performs(c, Running(p, cells), p + |GenStmt(c.fp, body, c.L, k).code|,
              ExecBody(c.fp, body, env, fuel), |cells|, cells', fuel)
    decreases fuel, body, 3
  {
    hide Performs, GenStmt, SmallStmt, JumpsFit, Peak, Exec, Rel, Has, Declared, Enter, Leave;
    if body.Block? {
      DeclaredBlock(body);
      AfterNothing(c);
      cells' := SimStmt(c, p, k, body, env, cells, fuel);
    } else {
      EnterFit(c, env, cells);
      EnterSize(env);
      cells' := SimStmt(c.(bases := c.bases + [|c.L|]), p, k, body, Enter(env), cells, fuel);
      PerformsLeave(c, Declared(body), Running(p, cells), p + |GenStmt(c.fp, body, c.L, k).code|,
        Exec(c.fp, body, Enter(env), fuel), |cells|, cells', fuel);
    }
  }

  lemma EnterSize(env: Env)
    ensures Enter(env) != []
  {
  }

  lemma DeclaredBlock(s: Stmt)
    requires s.Block?
    ensures Declared(s) == []
  {
  }

  lemma {:induction false} SimOnce(c: Layout, p: nat, k: nat, u: Option<Expr>, body: Stmt, env: Env,
                                   cells: seq<Value>, fuel: nat)
    returns (cells': seq<Value>)
    requires IterReady(c, p, k, u, body, env, cells)
    ensures Performs(c, Running(p, cells), p + |GenIteration(c.fp, u, body, c.L, k).code|,
              ExecOnce(c.fp, u, body, env, fuel), |cells|, cells', fuel)
    decreases fuel, body, 4
  {
    hide GenStmt, SmallStmt, JumpsFit, Peak, ExecBody, Rel, Has, GenExpr, Eval, Cat, One, Small, Reaches, Alive;
    var bb := GenStmt(c.fp, body, c.L, k);
    if u.Some? {
      var uu := Cat(GenExpr(c.fp, u.value, c.L, k + |bb.consts|, 0), One(Pop, 1));
      HasCat(c.prog, p, k, bb, uu);
      cells' := SimBody(c, p, k, body, env, cells, fuel);
      var b := ExecBody(c.fp, body, env, fuel);
      var q := p + |bb.code|;
      if b.Normal? {
        var mid := cells';
        cells' := SimDiscard(c, q, k + |bb.consts|, u.value, b.env, mid, fuel);
        PerformsFrom(c, Running(p, cells), Running(q, mid), q + |uu.code|,
          FromEval(Eval(c.fp, u.value, b.env)), |cells|, cells', fuel);
      }
    } else {
      cells' := SimBody(c, p, k, body, env, cells, fuel);
    }
  }

  lemma ForeverShape(c: Layout, p: nat, k: nat, u: Option<Expr>, body: Stmt, env: Env, cells: seq<Value>)
    requires LoopReady(c, p, k, None, u, body, env, cells)
    ensures var bb := GenIteration(c.fp, u, body, c.L, k);
            && IterReady(c, p, k, u, body, env, cells) && |bb.code| + 3 < 0x1_0000
            && |GenLoop(c.fp, None, u, body, c.L, k).code| == |bb.code| + 3
            && Has(c.prog, p + |bb.code|, k + |bb.consts|, One(Loop(Dist(|bb.code| + 3)), 0))
  {
    hide GenIteration, SmallStmt, Peak, Rel, Has, Cat, One, Small, JumpsFit, Encode;
    var bb := GenIteration(c.fp, u, body, c.L, k);
    HasCat(c.prog, p, k, bb, One(Loop(Dist(|bb.code| + 3)), 0));
  }

  lemma WhileShape(c: Layout, p: nat, k: nat, cond: Expr, u: Option<Expr>, body: Stmt, env: Env, cells: seq<Value>)
    requires LoopReady(c, p, k, Some(cond), u, body, env, cells)
    ensures var cc := GenExpr(c.fp, cond, c.L, k, 0);
            var k1, q := k + |cc.consts|, p + |cc.code|;
            var bb := GenIteration(c.fp, u, body, c.L, k1);
            var q1, k2 := q + 4 + |bb.code|, k1 + |bb.consts|;
            && Small(cond) && Has(c.prog, p, k, cc) && |cc.code| + |bb.code| + 7 < 0x1_0000
            && Has(c.prog, q, k1, One(JumpIfFalse(Dist(|bb.code| + 4)), 1)) && Has(c.prog, q + 3, k1, One(Pop, 1))
            && (forall env1, mid :: env1 != [] && |mid| == |cells| && Fit(c, env1, mid) ==>
              IterReady(c, q + 4, k1, u, body, env1, mid))
            && Has(c.prog, q1, k2, One(Loop(Dist(|cc.code| + |bb.code| + 7)), 0))
              && Has(c.prog, q1 + 3, k2, One(Pop, 1))
            && |GenLoop(c.fp, Some(cond), u, body, c.L, k).code| == |cc.code| + |bb.code| + 8
  {
    hide GenIteration, GenExpr, SmallStmt, Peak, Rel, Has, Cat, One, Small, JumpsFit, Encode;
    var cc := GenExpr(c.fp, cond, c.L, k, 0);
    var k1, q := k + |cc.consts|, p + |cc.code|;
    var bb := GenIteration(c.fp, u, body, c.L, k1);
    var q1, k2 := q + 4 + |bb.code|, k1 + |bb.consts|;
    LoopWhileHas(c.prog, p, k, cc, bb);
  }

  lemma LoopWhileHas(prog: Program, p: nat, k: nat, cc: Frag, bb: Frag)
    requires Has(prog, p, k, LoopWhile(cc, bb))
    ensures var k1, q := k + |cc.consts|, p + |cc.code|;
            var q1, k2 := q + 4 + |bb.code|, k1 + |bb.consts|;
            && Has(prog, p, k, cc) && Has(prog, q, k1, One(JumpIfFalse(Dist(|bb.code| + 4)), 1))
            && Has(prog, q + 3, k1, One(Pop, 1)) && Has(prog, q + 4, k1, bb)
            && Has(prog, q1, k2, One(Loop(Dist(|cc.code| + |bb.code| + 7)), 0)) && Has(prog, q1 + 3, k2, One(Pop, 1))
  {
    hide Has, Cat, One, Encode, Dist, InstrMarks;
    var k1, q := k + |cc.consts|, p + |cc.code|;
    var q1, k2 := q + 4 + |bb.code|, k1 + |bb.consts|;
    var body := Cat(One(Pop, 1), bb);
    var jif, back, pop := One(JumpIfFalse(Dist(|bb.code| + 4)), 1), One(Loop(Dist(|cc.code| + |bb.code| + 7)), 0),
      One(Pop, 1);
    HasFive(prog, p, k, cc, jif, body, back, pop);
    HasCat(prog, q + 3, k1, pop, bb);
  }

  /** A loop, however many turns it makes. */
  lemma {:induction false} SimLoop(c: Layout, p: nat, k: nat, cond: Option<Expr>, u: Option<Expr>, body: Stmt,
                                   env: Env, cells: seq<Value>, fuel: nat) returns (cells': seq<Value>)
    requires LoopReady(c, p, k, cond, u, body, env, cells)
    ensures Performs(c, Running(p, cells), p + |GenLoop(c.fp, cond, u, body, c.L, k).code|,
              ExecLoop(c.fp, cond, u, body, env, fuel), |cells|, cells', fuel)
    decreases fuel, body, 6
  {
    hide LoopReady, GenLoop, Performs, Eval, ExecIteration;
    cells' := cells;
    if fuel == 0 {
      StillRunning(c, Running(p, cells), p + |GenLoop(c.fp, cond, u, body, c.L, k).code|, |cells|, cells);
    } else if cond.Some? {
      cells' := SimWhileTurn(c, p, k, cond.value, u, body, env, cells, fuel);
    } else {
      cells' := SimForeverTurn(c, p, k, u, body, env, cells, fuel);
    }
  }

  lemma StillRunning(c: Layout, s: State, q: nat, n: nat, cells: seq<Value>)
    requires s.Running?
    ensures Performs(c, s, q, OutOfFuel, n, cells, 0)
  {
  }

  /** Body, update, jump back (to `p`), and the rest of the loop. */
  lemma {:induction false} SimTurn(c: Layout, p: nat, k: nat, cond: Option<Expr>, u: Option<Expr>, body: Stmt,
                                   p0: nat, k0: nat,
                                   env0: Env, env: Env, cells: seq<Value>, fuel: nat) returns (cells': seq<Value>)
    requires fuel > 0 && IterReady(c, p0, k0, u, body, env, cells) && LoopReady(c, p, k, cond, u, body, env0, cells)
    requires var bb := GenIteration(c.fp, u, body, c.L, k0);
             var q := p0 + |bb.code|;
             p <= q && q + 3 - p < 0x1_0000 && Has(c.prog, q, k0 + |bb.consts|, One(Loop(Dist(q + 3 - p)), 0))
    ensures Performs(c, Running(p0, cells), p + |GenLoop(c.fp, cond, u, body, c.L, k).code|,
              ExecIteration(c.fp, cond, u, body, env, fuel), |cells|, cells', fuel)
    decreases fuel, body, 5, 0
  {
    hide GenLoop, GenIteration, SmallStmt, LoopFits, JumpsFit, Peak, ExecOnce, ExecLoop, ExecIteration, Rel, Has,
      Small, One, Reaches, Alive;
    IterationMeaning(c.fp, cond, u, body, env, fuel);
    var bb := GenIteration(c.fp, u, body, c.L, k0);
    var q, end := p0 + |bb.code|, p + |GenLoop(c.fp, cond, u, body, c.L, k).code|;
    cells' := SimOnce(c, p0, k0, u, body, env, cells, fuel);
    var r := ExecOnce(c.fp, u, body, env, fuel);
    if r.Normal? {
      var mid := cells';
      TakeLoop(c.fp, c.prog, q, k0 + |bb.consts|, q + 3 - p, 0, mid);
      ReachesTrans(c.fp, c.prog, Running(p0, cells), Running(q, mid), Running(p, mid), 0, 1);
      cells' := SimLoop(c, p, k, cond, u, body, r.env, mid, fuel - 1);
      PerformsAfter(c, Running(p0, cells), Running(p, mid), end,
        ExecLoop(c.fp, cond, u, body, r.env, fuel - 1), |cells|, cells', 1, fuel - 1);
    }
  }

  lemma {:induction false} SimForeverTurn(c: Layout, p: nat, k: nat, u: Option<Expr>, body: Stmt,
                                          env: Env, cells: seq<Value>, fuel: nat) returns (cells': seq<Value>)
    requires fuel > 0 && LoopReady(c, p, k, None, u, body, env, cells)
    ensures Performs(c, Running(p, cells), p + |GenLoop(c.fp, None, u, body, c.L, k).code|,
              ExecLoop(c.fp, None, u, body, env, fuel), |cells|, cells', fuel)
    decreases fuel, body, 5, 1
  {
    hide GenLoop, GenIteration, LoopReady, IterReady, ExecIteration, Has, One, Performs;
    ForeverShape(c, p, k, u, body, env, cells);
    cells' := SimTurn(c, p, k, None, u, body, p, k, env, env, cells, fuel);
  }

  lemma {:induction false} SimWhileTurn(c: Layout, p: nat, k: nat, cond: Expr, u: Option<Expr>, body: Stmt,
                                        env: Env, cells: seq<Value>, fuel: nat) returns (cells': seq<Value>)
    requires fuel > 0 && LoopReady(c, p, k, Some(cond), u, body, env, cells)
    ensures Performs(c, Running(p, cells), p + |GenLoop(c.fp, Some(cond), u, body, c.L, k).code|,
              ExecLoop(c.fp, Some(cond), u, body, env, fuel), |cells|, cells', fuel)
    decreases fuel, body, 5, 1
  {
    hide GenLoop, GenIteration, GenExpr, Eval, IterReady, ExecIteration, Has, One, Rel, Small, SmallStmt, Peak,
      LoopFits, Evaluates, Performs, BranchFalsy, Reaches;
    WhileShape(c, p, k, cond, u, body, env, cells);
    var cc := GenExpr(c.fp, cond, c.L, k, 0);
    var k1, q := k + |cc.consts|, p + |cc.code|;
    var bb := GenIteration(c.fp, u, body, c.L, k1);
    var end := p + |cc.code| + |bb.code| + 8;
    var a := Eval(c.fp, cond, env);
    cells' := SimTop(c, p, k, cond, env, cells);
    if a.Val? {
      var mid := cells';
      EvaluatesFit(c, Running(p, cells), q, a, |cells|, mid);
      if BranchFalsy(c.fp, a.v) {
        EnterSide(c.fp, c.prog, q, k1, |bb.code| + 4, 1, end - 1, k1 + |bb.consts|, mid, a.v);
        PerformsNormal(c, Running(q, mid + [a.v]), end, a.env, mid, 2, fuel);
        EvaluatesThen(c, c, Running(p, cells), q, a, mid, end, Normal(a.env), |cells|, mid, fuel);
      } else {
        EnterSide(c.fp, c.prog, q, k1, |bb.code| + 4, 1, q + 3, k1, mid, a.v);
        ReachesWeaken(c.fp, c.prog, Running(q, mid + [a.v]), Running(q + 4, mid), 2);
        cells' := SimTurn(c, p, k, Some(cond), u, body, q + 4, k1, a.env, a.env, mid, fuel);
        var r := ExecIteration(c.fp, Some(cond), u, body, a.env, fuel);
        PerformsFrom(c, Running(q, mid + [a.v]), Running(q + 4, mid), end, r, |cells|, cells', fuel);
        EvaluatesThen(c, c, Running(p, cells), q, a, mid, end, r, |cells|, cells', fuel);
      }
    } else {
      EvaluatesFails(c, c, Running(p, cells), q, end, a, |cells|, cells', fuel);
    }
  }

  lemma PerformsNormal(c: Layout, s: State, q: nat, env: Env, cells: seq<Value>, m: nat, fuel: nat)
    requires Reaches(c.fp, c.prog, s, Running(q, cells), m) && Rel(env, c.bases, c.L, cells)
    ensures Performs(c, s, q, Normal(env), |cells|, cells, fuel)
  {
  }

  lemma WhileStmtShape(c: Layout, p: nat, k: nat, s: Stmt, env: Env, cells: seq<Value>, fuel: nat)
    requires s.While? && StmtReady(c, p, k, s, env, cells)
    ensures GenStmt(c.fp, s, c.L, k) == GenLoop(c.fp, Some(s.wcond), None, s.wbody, c.L, k) && Declared(s) == []
    ensures LoopReady(c, p, k, Some(s.wcond), None, s.wbody, env, cells)
    ensures Exec(c.fp, s, env, fuel) == ExecLoop(c.fp, Some(s.wcond), None, s.wbody, env, fuel)
  {
    hide GenLoop, ExecLoop, Rel, Has, LoopFits, Small;
  }

  lemma {:induction false} SimWhile(c: Layout, p: nat, k: nat, s: Stmt, env: Env, cells: seq<Value>, fuel: nat)
    returns (cells': seq<Value>)
    requires s.While? && StmtReady(c, p, k, s, env, cells)
    ensures Performs(After(c, Declared(s)), Running(p, cells), p + |GenStmt(c.fp, s, c.L, k).code|,
              Exec(c.fp, s, env, fuel), |cells|, cells', fuel)
    decreases fuel, s, 1
  {
    hide GenLoop, GenStmt, Exec, ExecLoop, Rel, Has, LoopReady, StmtReady, Declared, Performs;
    WhileStmtShape(c, p, k, s, env, cells, fuel);
    AfterNothing(c);
    cells' := SimLoop(c, p, k, Some(s.wcond), None, s.wbody, env, cells, fuel);
  }

  predicate InitSmall(init: ForInit) {
    (init.LetInit? ==> SmallOpt(init.init)) && (init.ExprInit? ==> Small(init.e))
  }

  lemma {:induction false} SimInit(c: Layout, p: nat, k: nat, init: ForInit, env: Env, cells: seq<Value>, fuel: nat)
    returns (cells': seq<Value>)
    requires env != [] && Ready(c, p, k, GenInit(c.fp, init, c.L, k), env, cells) && InitSmall(init)
    requires Room(|c.L| + |InitNames(init)|, cells)
    ensures Performs(After(c, InitNames(init)), Running(p, cells), p + |GenInit(c.fp, init, c.L, k).code|,
              ExecInit(c.fp, init, env), |cells|, cells', fuel)
  {
    hide GenLet, GenExpr, ExecLet, Eval, Rel, Has, Small, SmallOpt, Reaches, Cat, One;
    if init.LetInit? {
      cells' := SimLet(c, p, k, init.x, init.init, env, cells, fuel);
    } else {
      AfterNothing(c);
      if init.ExprInit? {
        cells' := SimDiscard(c, p, k, init.e, env, cells, fuel);
      } else {
        cells' := cells;
        ReachesNow(c.fp, c.prog, Running(p, cells));
      }
    }
  }

  lemma ForShape(c: Layout, p: nat, k: nat, s: Stmt, env: Env, cells: seq<Value>, fuel: nat)
    requires s.For? && StmtReady(c, p, k, s, env, cells)
    ensures var ii := GenInit(c.fp, s.finit, c.L, k);
            var L', k' := c.L + InitNames(s.finit), k + |ii.consts|;
            && GenStmt(c.fp, s, c.L, k) == Cat(ii, GenLoop(c.fp, s.fcond, s.update, s.fbody, L', k'))
            && LoopFits(c.fp, s.fcond, s.update, s.fbody, L', k')
            && Declared(s) == [] && InitSmall(s.finit) && SmallOpt(s.fcond) && SmallOpt(s.update)
              && SmallStmt(s.fbody, T.Any)
            && Room(|L'|, cells) && Room(Peak(s.fbody, |L'|), cells)
  {
    hide GenLoop, GenInit, Rel, Has, LoopFits, Small, Cat;
  }

  lemma ForMeaning(fp: Arith, s: Stmt, env: Env, fuel: nat)
    requires s.For? && env != []
    ensures var a := ExecInit(fp, s.finit, Enter(env));
            var r := if a.Normal? then ExecLoop(fp, s.fcond, s.update, s.fbody, a.env, fuel) else a;
            Exec(fp, s, env, fuel) == if r.Normal? then Normal(Leave(r.env)) else r
  {
    hide ExecInit, ExecLoop;
  }

  lemma {:induction false} SimFor(c: Layout, p: nat, k: nat, s: Stmt, env: Env, cells: seq<Value>, fuel: nat)
    returns (cells': seq<Value>)
    requires s.For? && StmtReady(c, p, k, s, env, cells)
    ensures Performs(After(c, Declared(s)), Running(p, cells), p + |GenStmt(c.fp, s, c.L, k).code|,
              Exec(c.fp, s, env, fuel), |cells|, cells', fuel)
    decreases fuel, s, 1
  {
    hide GenLoop, GenInit, GenStmt, SmallStmt, SmallOpt, InitSmall, LoopFits, JumpsFit, Peak, Exec, ExecInit, ExecLoop,
      Rel, Has, Declared, Reaches, Cat, Enter, Leave, InitNames, Alive;
    ForShape(c, p, k, s, env, cells, fuel);
    ForMeaning(c.fp, s, env, fuel);
    var names, start := InitNames(s.finit), Running(p, cells);
    var ii := GenInit(c.fp, s.finit, c.L, k);
    var c1, k1, q := c.(bases := c.bases + [|c.L|]), k + |ii.consts|, p + |ii.code|;
    var c2 := After(c1, names);
    var loop := GenLoop(c.fp, s.fcond, s.update, s.fbody, c2.L, k1);
    HasCat(c.prog, p, k, ii, loop);
    EnterFit(c, env, cells);
    EnterSize(env);
    cells' := SimInit(c1, p, k, s.finit, Enter(env), cells, fuel);
    var a := ExecInit(c.fp, s.finit, Enter(env));
    var r := if a.Normal? then ExecLoop(c.fp, s.fcond, s.update, s.fbody, a.env, fuel) else a;
    if a.Normal? {
      var mid := cells';
      cells' := SimLoop(c2, q, k1, s.fcond, s.update, s.fbody, a.env, mid, fuel);
      PerformsFrom(c2, start, Running(q, mid), q + |loop.code|, r, |cells|, cells', fuel);
    }
    PerformsLeave(c, names, start, q + |loop.code|, r, |cells|, cells', fuel);
    AfterNothing(c);
  }

  // ----- switch -----

  ghost predicate CasesReady(c: Layout, p: nat, k: nat, s: Stmt, i: nat, env: Env, cells: seq<Value>) {
    && s.Switch? && i <= |s.cases| && env != []
    && Ready(c, p, k, GenCases(c.fp, s, i, c.L, k), env, cells) && Room(PeakCases(s, i, |c.L|), cells)
    && SmallStmt(s, T.Any) && CasesFit(c.fp, s, i, c.L, k)
  }

  /** Where the parts of the `i`th case stand. */
  ghost predicate CaseAt(c: Layout, p: nat, k: nat, s: Stmt, i: nat)
    requires s.Switch? && i < |s.cases|
  {
    var vv := GenExpr(c.fp, s.cases[i].value, c.L, k, 2);
    var k1 := k + |vv.consts|;
    var bb := GenStmt(c.fp, s.cases[i].body, c.L, k1);
    var L', k2 := c.L + Declared(s.cases[i].body), k1 + |bb.consts|;
    var rest := GenCases(c.fp, s, i + 1, L', k2);
    var q := p + 2 + |vv.code|;
    && |bb.code| + 5 < 0x1_0000 && |rest.code| + 1 < 0x1_0000
    && Has(c.prog, p, k, One(Dup, 1)) && Has(c.prog, p + 1, k, vv) && Has(c.prog, q - 1, k1, One(Binary(Eq), 3))
    && Has(c.prog, q, k1, One(JumpIfFalse(Dist(|bb.code| + 5)), 2))
    && Has(c.prog, q + 3, k1, One(Pop, 2)) && Has(c.prog, q + 4, k1, One(Pop, 1)) && Has(c.prog, q + 5, k1, bb)
    && Has(c.prog, q + 5 + |bb.code|, k2, One(Jump(Dist(|rest.code| + 1)), 0))
    && Has(c.prog, q + 8 + |bb.code|, k2, One(Pop, 2)) && Has(c.prog, q + 9 + |bb.code|, k2, rest)
    && |GenCases(c.fp, s, i, c.L, k).code| == q - p + 9 + |bb.code| + |rest.code|
  }

  lemma CaseArmHas(prog: Program, p: nat, k: nat, vv: Frag, bb: Frag, rest: Frag)
    requires Has(prog, p, k, CaseArm(vv, bb, rest))
    ensures var k1, k2, q := k + |vv.consts|, k + |vv.consts| + |bb.consts|, p + 2 + |vv.code|;
            && Has(prog, p, k, One(Dup, 1)) && Has(prog, p + 1, k, vv) && Has(prog, q - 1, k1, One(Binary(Eq), 3))
            && Has(prog, q, k1, One(JumpIfFalse(Dist(|bb.code| + 5)), 2))
            && Has(prog, q + 3, k1, One(Pop, 2)) && Has(prog, q + 4, k1, One(Pop, 1)) && Has(prog, q + 5, k1, bb)
            && Has(prog, q + 5 + |bb.code|, k2, One(Jump(Dist(|rest.code| + 1)), 0))
            && Has(prog, q + 8 + |bb.code|, k2, One(Pop, 2)) && Has(prog, q + 9 + |bb.code|, k2, rest)
            && |CaseArm(vv, bb, rest).code| == q - p + 9 + |bb.code| + |rest.code|
  {
    hide Has, Cat, One, Encode, Dist, InstrMarks, Branch;
    var k1, k2, q := k + |vv.consts|, k + |vv.consts| + |bb.consts|, p + 2 + |vv.code|;
    var dup, eq, pop1, pop2 := One(Dup, 1), One(Binary(Eq), 3), One(Pop, 1), One(Pop, 2);
    BranchHas(prog, p, k, Cat(dup, Cat(vv, eq)), Cat(pop2, Cat(pop1, bb)), Cat(pop2, rest), 2);
    HasThree(prog, p, k, dup, vv, eq);
    HasThree(prog, q + 3, k1, pop2, pop1, bb);
    HasCat(prog, q + 8 + |bb.code|, k2, pop2, rest);
  }

  lemma CaseStands(c: Layout, p: nat, k: nat, s: Stmt, i: nat, env: Env, cells: seq<Value>)
    requires CasesReady(c, p, k, s, i, env, cells) && i < |s.cases|
    ensures CaseAt(c, p, k, s, i)
  {
    hide GenExpr, GenStmt, Rel, Has, JumpsFit, Small, SmallStmt, CaseArm, Cat, One, PeakCases, Declared;
    var vv := GenExpr(c.fp, s.cases[i].value, c.L, k, 2);
    var k1 := k + |vv.consts|;
    var bb := GenStmt(c.fp, s.cases[i].body, c.L, k1);
    CaseArmHas(c.prog, p, k, vv, bb, GenCases(c.fp, s, i + 1, c.L + Declared(s.cases[i].body), k1 + |bb.consts|));
  }

  /** What a case needs for its body and for the cases after it. */
  ghost predicate CaseRoom(c: Layout, k: nat, s: Stmt, i: nat, cells: seq<Value>)
    requires s.Switch? && i < |s.cases|
  {
    var k1 := k + |GenExpr(c.fp, s.cases[i].value, c.L, k, 2).consts|;
    var L' := c.L + Declared(s.cases[i].body);
    var k2 := k1 + |GenStmt(c.fp, s.cases[i].body, c.L, k1).consts|;
    && SmallStmt(s, T.Any) && Small(s.cases[i].value) && SmallStmt(s.cases[i].body, T.Any)
    && JumpsFit(c.fp, s.cases[i].body, c.L, k1) && CasesFit(c.fp, s, i + 1, L', k2)
    && Room(Peak(s.cases[i].body, |c.L|), cells) && Room(PeakCases(s, i + 1, |L'|), cells)
    && DeclaredCases(s, i) == Declared(s.cases[i].body) + DeclaredCases(s, i + 1)
  }

  lemma CaseShape(c: Layout, p: nat, k: nat, s: Stmt, i: nat, env: Env, cells: seq<Value>)
    requires CasesReady(c, p, k, s, i, env, cells) && i < |s.cases|
    ensures CaseRoom(c, k, s, i, cells)
  {
    hide GenExpr, GenStmt, GenCases, Rel, Has, JumpsFit, Small, SmallStmt, Peak, Declared;
    SmallCase(s, i, T.Any);
  }

  /** DUP; value; EQUAL: the scrutinee stays, the verdict is above it. */
  lemma SimCaseTest(c: Layout, p: nat, k: nat, s: Stmt, i: nat, v: Value, env: Env, cells: seq<Value>)
    returns (cells': seq<Value>)
    requires s.Switch? && i < |s.cases| && CaseAt(c, p, k, s, i) && Fit(c, env, cells) && Small(s.cases[i].value)
    ensures Computes(c, Running(p, cells + [v]), p + 2 + |GenExpr(c.fp, s.cases[i].value, c.L, k, 2).code|,
              EvalRight(c.fp, s.cases[i].value, Binary(Eq), v, env), |cells|, cells', [v])
  {
    hide GenExpr, GenStmt, GenCases, EvalRight, Rel, Has, Small, Reaches, One;
    var f := GenExpr(c.fp, s.cases[i].value, c.L, k, 2);
    SimDup(c, p, k, 1, v, env, cells, []);
    assert [] + [v] == [v];
    cells' := SimRight(c, p + 1, k, s.cases[i].value, 2, Binary(Eq), v, env, cells, [v]);
    ComputesThen(c, Running(p, cells + [v]), p + 1, v, env, cells, [v],
      p + 2 + |f.code|, EvalRight(c.fp, s.cases[i].value, Binary(Eq), v, env), |cells|, cells', [v]);
  }

  function CaseTail(fp: Arith, v: Value, hit: Value, s: Stmt, i: nat, env: Env, fuel: nat): ExecResult
    requires s.Switch? && i < |s.cases| && env != []
  {
    if BranchFalsy(fp, hit) then ExecCases(fp, v, s, i + 1, Declare(env, Declared(s.cases[i].body)), fuel)
    else
      var r := Exec(fp, s.cases[i].body, env, fuel);
      if r.Normal? then Normal(Declare(r.env, DeclaredCases(s, i + 1))) else r
  }

  lemma CaseMeaning(fp: Arith, v: Value, s: Stmt, i: nat, env: Env, fuel: nat)
    requires s.Switch? && i < |s.cases| && env != []
    ensures var b := EvalRight(fp, s.cases[i].value, Binary(Eq), v, env);
            && (b.Val? ==> |b.env| == |env|)
            && ExecCases(fp, v, s, i, env, fuel) == if b.Val? then CaseTail(fp, v, b.v, s, i, b.env, fuel)
              else FromEval(b)
  {
    hide Eval, Exec, Declare, ValuesEqual, Declared, DeclaredCases;
  }

  lemma {:induction false} SimCases(c: Layout, p: nat, k: nat, s: Stmt, i: nat, v: Value, env: Env, cells: seq<Value>,
                                    fuel: nat)
    returns (cells': seq<Value>)
    requires s.Switch? && i <= |s.cases| && CasesReady(c, p, k, s, i, env, cells)
    ensures Performs(After(c, DeclaredCases(s, i)), Running(p, cells + [v]), p + |GenCases(c.fp, s, i, c.L, k).code|,
              ExecCases(c.fp, v, s, i, env, fuel), |cells|, cells', fuel)
    decreases fuel, s, 0, |s.cases| - i, 2
  {
    hide CasesReady, GenCases, Performs, DeclaredCases, ExecCases;
    if i == |s.cases| {
      cells' := SimDefault(c, p, k, s, v, env, cells, fuel);
    } else {
      cells' := SimCase(c, p, k, s, i, v, env, cells, fuel);
    }
  }

  lemma DefaultShape(c: Layout, p: nat, k: nat, s: Stmt, v: Value, env: Env, cells: seq<Value>, fuel: nat)
    requires s.Switch? && CasesReady(c, p, k, s, |s.cases|, env, cells)
    ensures Has(c.prog, p, k, One(Pop, 1))
    ensures |GenCases(c.fp, s, |s.cases|, c.L, k).code|
              == 1 + if s.default.Some? then |GenStmt(c.fp, s.default.value, c.L, k).code| else 0
    ensures DeclaredCases(s, |s.cases|) == if s.default.Some? then Declared(s.default.value) else []
    ensures s.default.Some? ==> StmtReady(c, p + 1, k, s.default.value, env, cells)
    ensures ExecCases(c.fp, v, s, |s.cases|, env, fuel)
              == if s.default.Some? then Exec(c.fp, s.default.value, env, fuel) else Normal(env)
  {
    hide GenStmt, Rel, Has, JumpsFit, Small, Cat, One, Encode, Peak, Declared, Exec;
    HasCat(c.prog, p, k, One(Pop, 1), if s.default.Some? then GenStmt(c.fp, s.default.value, c.L, k) else Empty);
  }

  lemma {:induction false} SimDefault(c: Layout, p: nat, k: nat, s: Stmt, v: Value, env: Env, cells: seq<Value>,
                                      fuel: nat)
    returns (cells': seq<Value>)
    requires s.Switch? && CasesReady(c, p, k, s, |s.cases|, env, cells)
    ensures Performs(After(c, DeclaredCases(s, |s.cases|)), Running(p, cells + [v]),
              p + |GenCases(c.fp, s, |s.cases|, c.L, k).code|,
              ExecCases(c.fp, v, s, |s.cases|, env, fuel), |cells|, cells', fuel)
    decreases fuel, s, 0, 0, 1
  {
    hide GenCases, GenStmt, Rel, Has, CasesFit, PeakCases, Declared, DeclaredCases, Exec, ExecCases, StmtReady, One,
      SmallStmt, Reaches;
    DefaultShape(c, p, k, s, v, env, cells, fuel);
    PopStep(c.fp, c.prog, p, k, 1, cells, v);
    ReachesWeaken(c.fp, c.prog, Running(p, cells + [v]), Running(p + 1, cells), 1);
    if s.default.Some? {
      var d := s.default.value;
      cells' := SimStmt(c, p + 1, k, d, env, cells, fuel);
      PerformsFrom(After(c, Declared(d)), Running(p, cells + [v]), Running(p + 1, cells),
        p + 1 + |GenStmt(c.fp, d, c.L, k).code|, Exec(c.fp, d, env, fuel), |cells|, cells', fuel);
    } else {
      cells' := cells;
      AfterNothing(c);
    }
  }

  lemma {:induction false} SimCase(c: Layout, p: nat, k: nat, s: Stmt, i: nat, v: Value, env: Env, cells: seq<Value>,
                                   fuel: nat)
    returns (cells': seq<Value>)
    requires CasesReady(c, p, k, s, i, env, cells) && i < |s.cases|
    ensures Performs(After(c, DeclaredCases(s, i)), Running(p, cells + [v]), p + |GenCases(c.fp, s, i, c.L, k).code|,
              ExecCases(c.fp, v, s, i, env, fuel), |cells|, cells', fuel)
    decreases fuel, s, 0, |s.cases| - i, 1
  {
    hide GenExpr, GenStmt, GenCases, EvalRight, ExecCases, CaseTail, Rel, Has, Small, SmallStmt, CasesFit, JumpsFit,
      Peak,
      PeakCases, Declared, DeclaredCases, Reaches, Performs, CaseAt;
    CaseStands(c, p, k, s, i, env, cells);
    CaseShape(c, p, k, s, i, env, cells);
    CaseMeaning(c.fp, v, s, i, env, fuel);
    var start, end := Running(p, cells + [v]), p + |GenCases(c.fp, s, i, c.L, k).code|;
    var q := p + 2 + |GenExpr(c.fp, s.cases[i].value, c.L, k, 2).code|;
    var b := EvalRight(c.fp, s.cases[i].value, Binary(Eq), v, env);
    var c2 := After(c, DeclaredCases(s, i));
    cells' := SimCaseTest(c, p, k, s, i, v, env, cells);
    if b.Val? {
      var mid := cells';
      var r := CaseTail(c.fp, v, b.v, s, i, b.env, fuel);
      assert mid + ([v] + [b.v]) == mid + [v] + [b.v];
      if BranchFalsy(c.fp, b.v) {
        cells' := SimMiss(c, p, k, s, i, v, b.v, b.env, mid, fuel);
      } else {
        cells' := SimHit(c, p, k, s, i, v, b.v, b.env, mid, fuel);
      }
      PerformsFrom(c2, start, Running(q, mid + [v] + [b.v]), end, r, |cells|, cells', fuel);
    } else {
      CrashPerforms(c, c2, start, q, end, b, |cells|, cells', [v], fuel);
    }
  }

  lemma CrashPerforms(c: Layout, c': Layout, s: State, q: nat, q': nat, r: EvalResult, n: nat, cells: seq<Value>,
                      ops: seq<Value>, fuel: nat)
    requires Computes(c, s, q, r, n, cells, ops) && !r.Val? && c'.fp == c.fp && c'.prog == c.prog
    ensures Performs(c', s, q', FromEval(r), n, cells, fuel)
  {
  }

  lemma {:induction false} SimHit(c: Layout, p: nat, k: nat, s: Stmt, i: nat, v: Value, hit: Value, env: Env,
                                  cells: seq<Value>, fuel: nat) returns (cells': seq<Value>)
    requires s.Switch? && i < |s.cases| && CaseAt(c, p, k, s, i) && CaseRoom(c, k, s, i, cells)
    requires env != [] && Fit(c, env, cells) && !BranchFalsy(c.fp, hit)
    ensures Performs(After(c, DeclaredCases(s, i)),
              Running(p + 2 + |GenExpr(c.fp, s.cases[i].value, c.L, k, 2).code|, cells + [v] + [hit]),
              p + |GenCases(c.fp, s, i, c.L, k).code|, CaseTail(c.fp, v, hit, s, i, env, fuel), |cells|, cells', fuel)
    decreases fuel, s, 0, |s.cases| - i, 0
  {
    hide GenExpr, GenStmt, GenCases, Exec, Rel, Has, SmallStmt, CasesFit, JumpsFit, Peak, BranchFalsy,
      PeakCases, Declared, DeclaredCases, Reaches, Performs, One, Declare;
    var body, names := s.cases[i].body, DeclaredCases(s, i + 1);
    var vv := GenExpr(c.fp, s.cases[i].value, c.L, k, 2);
    var k1, q := k + |vv.consts|, p + 2 + |vv.code|;
    var bb := GenStmt(c.fp, body, c.L, k1);
    var c1, k2 := After(c, Declared(body)), k1 + |bb.consts|;
    var rest := GenCases(c.fp, s, i + 1, c1.L, k2);
    var q1, end := q + 5 + |bb.code|, p + |GenCases(c.fp, s, i, c.L, k).code|;
    var start, r := Running(q, cells + [v] + [hit]), Exec(c.fp, body, env, fuel);
    EnterSide(c.fp, c.prog, q, k1, |bb.code| + 5, 2, q + 3, k1, cells + [v], hit);
    PopStep(c.fp, c.prog, q + 4, k1, 1, cells, v);
    ReachesTrans(c.fp, c.prog, start, Running(q + 4, cells + [v]), Running(q + 5, cells), 2, 1);
    ReachesWeaken(c.fp, c.prog, start, Running(q + 5, cells), 3);
    cells' := SimStmt(c, q + 5, k1, body, env, cells, fuel);
    TakeJump(c.fp, c.prog, q1, k2, |rest.code| + 1, 0, cells');
    PerformsOn(c1, Running(q + 5, cells), q1, end, r, |cells|, cells', fuel);
    PerformsFrom(c1, start, Running(q + 5, cells), end, r, |cells|, cells', fuel);
    PerformsDeclare(c1, names, start, end, r, |cells|, cells', fuel);
    AfterAfter(c, Declared(body), names);
  }

  lemma {:induction false} SimMiss(c: Layout, p: nat, k: nat, s: Stmt, i: nat, v: Value, hit: Value, env: Env,
                                   cells: seq<Value>, fuel: nat) returns (cells': seq<Value>)
    requires s.Switch? && i < |s.cases| && CaseAt(c, p, k, s, i) && CaseRoom(c, k, s, i, cells)
    requires env != [] && Fit(c, env, cells) && BranchFalsy(c.fp, hit)
    ensures Performs(After(c, DeclaredCases(s, i)),
              Running(p + 2 + |GenExpr(c.fp, s.cases[i].value, c.L, k, 2).code|, cells + [v] + [hit]),
              p + |GenCases(c.fp, s, i, c.L, k).code|, CaseTail(c.fp, v, hit, s, i, env, fuel), |cells|, cells', fuel)
    decreases fuel, s, 0, |s.cases| - i, 0
  {
    hide GenExpr, GenStmt, GenCases, Exec, ExecCases, Rel, Has, SmallStmt, CasesFit, JumpsFit, Peak, BranchFalsy,
      PeakCases, Declared, DeclaredCases, Reaches, Performs, One, Declare;
    var body, names := s.cases[i].body, DeclaredCases(s, i + 1);
    var vv := GenExpr(c.fp, s.cases[i].value, c.L, k, 2);
    var k1, q := k + |vv.consts|, p + 2 + |vv.code|;
    var bb := GenStmt(c.fp, body, c.L, k1);
    var c1, k2 := After(c, Declared(body)), k1 + |bb.consts|;
    var q1, end := q + 9 + |bb.code|, p + |GenCases(c.fp, s, i, c.L, k).code|;
    var start, env1 := Running(q, cells + [v] + [hit]), Declare(env, Declared(body));
    EnterSide(c.fp, c.prog, q, k1, |bb.code| + 5, 2, q1 - 1, k2, cells + [v], hit);
    ReachesWeaken(c.fp, c.prog, start, Running(q1, cells + [v]), 2);
    DeclareFit(c, env, cells, Declared(body));
    cells' := SimCases(c1, q1, k2, s, i + 1, v, env1, cells, fuel);
    AfterAfter(c, Declared(body), names);
    PerformsFrom(After(c, DeclaredCases(s, i)), start, Running(q1, cells + [v]), end,
      ExecCases(c.fp, v, s, i + 1, env1, fuel), |cells|, cells', fuel);
  }

  lemma SwitchShape(c: Layout, p: nat, k: nat, s: Stmt, env: Env, cells: seq<Value>, fuel: nat)
    requires s.Switch? && StmtReady(c, p, k, s, env, cells)
    ensures var vv := GenExpr(c.fp, s.scrutinee, c.L, k, 0);
            && GenStmt(c.fp, s, c.L, k) == Cat(vv, GenCases(c.fp, s, 0, c.L, k + |vv.consts|))
            && Small(s.scrutinee) && SmallStmt(s, T.Any) && CasesFit(c.fp, s, 0, c.L, k + |vv.consts|)
            && Room(PeakCases(s, 0, |c.L|), cells) && Declared(s) == DeclaredCases(s, 0)
    ensures var a := Eval(c.fp, s.scrutinee, env);
            Exec(c.fp, s, env, fuel) == if a.Val? then ExecCases(c.fp, a.v, s, 0, a.env, fuel) else FromEval(a)
  {
    hide GenExpr, GenCases, Rel, Has, CasesFit, PeakCases, DeclaredCases, Eval, ExecCases, Small, Cat;
  }

  lemma {:induction false} SimSwitch(c: Layout, p: nat, k: nat, s: Stmt, env: Env, cells: seq<Value>, fuel: nat)
    returns (cells': seq<Value>)
    requires s.Switch? && StmtReady(c, p, k, s, env, cells)
    ensures Performs(After(c, Declared(s)), Running(p, cells), p + |GenStmt(c.fp, s, c.L, k).code|,
              Exec(c.fp, s, env, fuel), |cells|, cells', fuel)
    decreases fuel, s, 1
  {
    hide GenExpr, GenStmt, GenCases, Exec, ExecCases, Eval, Rel, Has, SmallStmt, Small, CasesFit, JumpsFit, Peak,
      PeakCases, Declared, DeclaredCases, Reaches, Performs, Cat, Evaluates;
    SwitchShape(c, p, k, s, env, cells, fuel);
    var vv := GenExpr(c.fp, s.scrutinee, c.L, k, 0);
    var q, k', end := p + |vv.code|, k + |vv.consts|, p + |GenStmt(c.fp, s, c.L, k).code|;
    var rest := GenCases(c.fp, s, 0, c.L, k');
    HasCat(c.prog, p, k, vv, rest);
    var a := Eval(c.fp, s.scrutinee, env);
    var c2 := After(c, Declared(s));
    cells' := SimTop(c, p, k, s.scrutinee, env, cells);
    if a.Val? {
      var mid := cells';
      EvaluatesFit(c, Running(p, cells), q, a, |cells|, mid);
      cells' := SimCases(c, q, k', s, 0, a.v, a.env, mid, fuel);
      EvaluatesThen(c, c2, Running(p, cells), q, a, mid, end, ExecCases(c.fp, a.v, s, 0, a.env, fuel), |cells|,
        cells', fuel);
    } else {
      EvaluatesFails(c, c2, Running(p, cells), q, end, a, |cells|, cells', fuel);
    }
  }

  // ----- whole functions -----

  lemma FunctionHas(c: Layout, f: Function)
    requires Has(c.prog, 0, 0, GenFunction(c.fp, f))
    ensures var body := GenStmts(c.fp, f.body, f.params, 0);
            var q, k := |body.code|, |body.consts|;
            && Has(c.prog, 0, 0, body) && Has(c.prog, q, k, One(PushNil, 0)) && Has(c.prog, q + 1, k, One(Return, 1))
  {
    hide GenStmts, Has, Cat, One, Encode;
    HasThree(c.prog, 0, 0, GenStmts(c.fp, f.body, f.params, 0), One(PushNil, 0), One(Return, 1));
  }

  lemma NilStep(fp: Arith, prog: Program, p: nat, k: nat, stack: seq<Value>)
    requires Has(prog, p, k, One(PushNil, 0))
    ensures Reaches(fp, prog, Running(p, stack), Running(p + 1, stack + [Nil]), 0)
  {
    hide One, Has, Reaches, Encode;
    StraightStep(fp, prog, p, k, PushNil, 0, stack);
  }

  /** The body and the `return nil` the compiler adds to it. */
  lemma {:induction false} SimFunction(c: Layout, f: Function, env: Env, cells: seq<Value>, fuel: nat)
    requires c.L == f.params && env != [] && Ready(c, 0, 0, GenFunction(c.fp, f), env, cells)
    requires Room(PeakAll(f.body, |c.L|), cells)
    requires (forall x | x in f.body :: SmallStmt(x, T.Any)) && AllJumpsFit(c.fp, f.body, c.L, 0)
    ensures var r := ExecAll(c.fp, f.body, env, fuel);
            Performs(c, Running(0, cells), 0, if r.Normal? then Returned(Nil) else r, |cells|, cells, fuel)
  {
    hide GenStmts, AllJumpsFit, PeakAll, ExecAll, Rel, Has, Reaches, Cat, One, SmallStmt, Encode, Alive;
    FunctionHas(c, f);
    var body := GenStmts(c.fp, f.body, c.L, 0);
    var q, k := |body.code|, |body.consts|;
    var cells', names := SimStmts(c, 0, 0, f.body, env, cells, fuel);
    var r := ExecAll(c.fp, f.body, env, fuel);
    if r.Normal? {
      NilStep(c.fp, c.prog, q, k, cells');
      ReturnStep(c.fp, c.prog, q + 1, k, cells', Nil);
      ReachesTrans(c.fp, c.prog, Running(0, cells), Running(q, cells'), Running(q + 1, cells' + [Nil]), 0, 0);
      ReachesTrans(c.fp, c.prog, Running(0, cells), Running(q + 1, cells' + [Nil]), Done(Nil), 0, 0);
    } else {
      PerformsElsewhere(After(c, names), c, Running(0, cells), q, 0, r, |cells|, cells', fuel);
    }
  }
}
