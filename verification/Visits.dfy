/** Slots and scopes at every statement a run comes to, also of runs that later return, fail or
    never end.

    A visit is a statement about to run: with the names in scope and their values in the source,
    and with its place in the code.  `Opens` says which statements a statement starts while it
    runs; it follows the source only, except for the places, which it adds up. */
module Visits {
  import opened Wrappers
  import opened Values
  import opened Bytecode
  import opened Source
  import opened CodeGen
  import opened Relation
  import opened TypedCode
  import T = Typing
  import opened Machine
  import opened Lockstep
  import opened Runs
  import opened Simulation
  import opened Statements

  datatype Visit = Visit(c: Layout, p: nat, k: nat, s: Stmt, env: Env, fuel: nat)

  function Inside(c: Layout): Layout { c.(bases := c.bases + [|c.L|]) }

  // ----- which statements a statement starts -----

  ghost predicate OpensAll(c: Layout, p: nat, k: nat, ss: seq<Stmt>, env: Env, fuel: nat, w: Visit)
    requires env != []
    decreases |ss|
  {
    ss != [] &&
    (w == Visit(c, p, k, ss[0], env, fuel) ||
     (var f, r := GenStmt(c.fp, ss[0], c.L, k), Exec(c.fp, ss[0], env, fuel);
      r.Normal? &&
      OpensAll(After(c, Declared(ss[0])), p + |f.code|, k + |f.consts|, ss[1..], r.env, fuel, w)))
  }

  /** The branch that is taken. */
  ghost predicate OpensIf(c: Layout, p: nat, k: nat, s: Stmt, env: Env, fuel: nat, w: Visit)
    requires s.If? && env != []
  {
    var cc, a := GenExpr(c.fp, s.cond, c.L, k, 0), Eval(c.fp, s.cond, env);
    var q, k1 := p + |cc.code|, k + |cc.consts|;
    var tt := GenStmt(c.fp, s.thn, c.L, k1);
    a.Val? &&
    if BranchFalsy(c.fp, a.v) then
      && s.els.Some?
      && w == Visit(After(c, Declared(s.thn)), q + 8 + |tt.code|, k1 + |tt.consts|, s.els.value,
                Declare(a.env, Declared(s.thn)), fuel)
    else w == Visit(c, q + 4, k1, s.thn, a.env, fuel)
  }

  /** The body of a loop has a scope of its own. */
  function BodyVisit(c: Layout, p: nat, k: nat, body: Stmt, env: Env, fuel: nat): Visit {
    if body.Block? then Visit(c, p, k, body, env, fuel) else Visit(Inside(c), p, k, body, Enter(env), fuel)
  }

  /** The body in any turn the loop makes. */
  ghost predicate OpensLoop(c: Layout, p: nat, k: nat, cond: Option<Expr>, u: Option<Expr>, body: Stmt, env: Env,
                            fuel: nat, w: Visit)
    requires env != []
    decreases fuel, 1
  {
    fuel > 0 &&
    if cond.Some? then
      var cc, a := GenExpr(c.fp, cond.value, c.L, k, 0), Eval(c.fp, cond.value, env);
      && a.Val? && !BranchFalsy(c.fp, a.v)
      && OpensTurn(c, p, k, cond, u, body, p + |cc.code| + 4, k + |cc.consts|, a.env, fuel, w)
    else OpensTurn(c, p, k, cond, u, body, p, k, env, fuel, w)
  }

  ghost predicate OpensTurn(c: Layout, p: nat, k: nat, cond: Option<Expr>, u: Option<Expr>, body: Stmt, p0: nat,
                            k0: nat,
                      env: Env, fuel: nat, w: Visit)
    requires env != [] && fuel > 0
    decreases fuel, 0
  {
    w == BodyVisit(c, p0, k0, body, env, fuel) ||
    (var r := ExecOnce(c.fp, u, body, env, fuel);
     r.Normal? && OpensLoop(c, p, k, cond, u, body, r.env, fuel - 1, w))
  }

  /** The body of the first case that matches, or the default. */
  ghost predicate OpensCases(c: Layout, p: nat, k: nat, s: Stmt, i: nat, v: Value, env: Env, fuel: nat, w: Visit)
    requires s.Switch? && i <= |s.cases| && env != []
    decreases |s.cases| - i
  {
    if i == |s.cases| then s.default.Some? && w == Visit(c, p + 1, k, s.default.value, env, fuel)
    else
      var vv, a := GenExpr(c.fp, s.cases[i].value, c.L, k, 2), Eval(c.fp, s.cases[i].value, env);
      var body, k1, q := s.cases[i].body, k + |vv.consts|, p + 2 + |vv.code|;
      var bb := GenStmt(c.fp, body, c.L, k1);
      a.Val? &&
      if ValuesEqual(c.fp, v, a.v) then w == Visit(c, q + 5, k1, body, a.env, fuel)
      else
        OpensCases(After(c, Declared(body)), q + 9 + |bb.code|, k1 + |bb.consts|, s, i + 1, v,
          Declare(a.env, Declared(body)), fuel, w)
  }

  ghost predicate OpensFor(c: Layout, p: nat, k: nat, s: Stmt, env: Env, fuel: nat, w: Visit)
    requires s.For? && env != []
  {
    var ii, a := GenInit(c.fp, s.finit, c.L, k), ExecInit(c.fp, s.finit, Enter(env));
    a.Normal? &&
    OpensLoop(After(Inside(c), InitNames(s.finit)), p + |ii.code|, k + |ii.consts|, s.fcond, s.update, s.fbody, a.env,
      fuel, w)
  }

  ghost predicate OpensSwitch(c: Layout, p: nat, k: nat, s: Stmt, env: Env, fuel: nat, w: Visit)
    requires s.Switch? && env != []
  {
    var vv, a := GenExpr(c.fp, s.scrutinee, c.L, k, 0), Eval(c.fp, s.scrutinee, env);
    a.Val? && OpensCases(c, p + |vv.code|, k + |vv.consts|, s, 0, a.v, a.env, fuel, w)
  }

  /** While `v` runs, `w` is started, directly inside it. */
  ghost predicate Opens(v: Visit, w: Visit)
    requires v.env != []
  {
    match v.s
    case Block(ss) => OpensAll(Inside(v.c), v.p, v.k, ss, Enter(v.env), v.fuel, w)
    case If(_, _, _) => OpensIf(v.c, v.p, v.k, v.s, v.env, v.fuel, w)
    case While(cond, body) => OpensLoop(v.c, v.p, v.k, Some(cond), None, body, v.env, v.fuel, w)
    case For(_, _, _, _) => OpensFor(v.c, v.p, v.k, v.s, v.env, v.fuel, w)
    case Switch(_, _, _) => OpensSwitch(v.c, v.p, v.k, v.s, v.env, v.fuel, w)
    case _ => false
  }

  // ----- the machine comes there -----

  /** From `st` the machine comes to the code of `w`, with the variables of the source in their slots. */
  ghost predicate Arrives(c: Layout, st: State, w: Visit, n: nat, cells: seq<Value>) {
    && |cells| == n && w.c.fp == c.fp && w.c.prog == c.prog
    && StmtReady(w.c, w.p, w.k, w.s, w.env, cells)
    && Reaches(c.fp, c.prog, st, Running(w.p, cells), 0)
  }

  lemma ArrivesFrom(c: Layout, c': Layout, s0: State, s: State, w: Visit, n: nat, cells: seq<Value>)
    requires Reaches(c.fp, c.prog, s0, s, 0) && Arrives(c', s, w, n, cells) && c'.fp == c.fp && c'.prog == c.prog
    ensures Arrives(c, s0, w, n, cells)
  {
    hide StmtReady, Reaches;
    ReachesTrans(c.fp, c.prog, s0, s, Running(w.p, cells), 0, 0);
  }

  lemma ArrivesNow(w: Visit, cells: seq<Value>)
    requires StmtReady(w.c, w.p, w.k, w.s, w.env, cells)
    ensures Arrives(w.c, Running(w.p, cells), w, |cells|, cells)
  {
    hide StmtReady, Reaches;
    ReachesNow(w.c.fp, w.c.prog, Running(w.p, cells));
  }

  /** What a statement in a row needs, and what is left for the others. */
  lemma RowReady(c: Layout, p: nat, k: nat, ss: seq<Stmt>, env: Env, cells: seq<Value>)
    requires ss != [] && StmtsReady(c, p, k, ss, env, cells)
    ensures StmtReady(c, p, k, ss[0], env, cells)
    ensures var f, c1 := GenStmt(c.fp, ss[0], c.L, k), After(c, Declared(ss[0]));
            forall env1, mid | env1 != [] && |mid| == |cells| && Rel(env1, c1.bases, c1.L, mid) ::
              StmtsReady(c1, p + |f.code|, k + |f.consts|, ss[1..], env1, mid)
  {
    hide GenStmts, GenStmt, SmallStmt, AllJumpsFit, JumpsFit, Peak, PeakAll, Exec, ExecAll, Rel, Cat, Has, Declared;
    StmtsShape(c, p, k, ss, env, cells, 0);
    var f := GenStmt(c.fp, ss[0], c.L, k);
    var c1, k1 := After(c, Declared(ss[0])), k + |f.consts|;
    HasCat(c.prog, p, k, f, GenStmts(c.fp, ss[1..], c1.L, k1));
    RoomAfter(ss[1..], |c1.L|, cells);
  }

  lemma RoomAfter(ss: seq<Stmt>, n: nat, cells: seq<Value>)
    requires Room(PeakAll(ss, n), cells)
    ensures n <= 0x100
  {
    hide Peak, Declared;
  }

  lemma {:induction false} ArriveAll(c: Layout, p: nat, k: nat, ss: seq<Stmt>, env: Env, cells: seq<Value>, fuel: nat,
                                     w: Visit)
    returns (cells': seq<Value>)
    requires env != [] && StmtsReady(c, p, k, ss, env, cells) && OpensAll(c, p, k, ss, env, fuel, w)
    ensures Arrives(c, Running(p, cells), w, |cells|, cells')
    decreases |ss|
  {
    hide StmtReady, StmtsReady, GenStmt, Exec, Declared, Rel, Reaches, Arrives;
    RowReady(c, p, k, ss, env, cells);
    if w == Visit(c, p, k, ss[0], env, fuel) {
      ArrivesNow(w, cells);
      cells' := cells;
    } else {
      var mid := SimStmt(c, p, k, ss[0], env, cells, fuel);
      var f, r := GenStmt(c.fp, ss[0], c.L, k), Exec(c.fp, ss[0], env, fuel);
      var c1 := After(c, Declared(ss[0]));
      cells' := ArriveAll(c1, p + |f.code|, k + |f.consts|, ss[1..], r.env, mid, fuel, w);
      ArrivesFrom(c, c1, Running(p, cells), Running(p + |f.code|, mid), w, |cells|, cells');
    }
  }

  /** A value on top of the stack, and a run on from there. */
  lemma ArrivesAfter(c: Layout, c': Layout, st: State, q: nat, a: EvalResult, mid: seq<Value>, t: State, w: Visit,
                     n: nat, cells: seq<Value>)
    requires Evaluates(c, st, q, a, n, mid) && a.Val? && c'.fp == c.fp && c'.prog == c.prog
    requires Reaches(c.fp, c.prog, Running(q, mid + [a.v]), t, 0) && Arrives(c', t, w, n, cells)
    ensures Arrives(c, st, w, n, cells)
  {
    hide StmtReady, Reaches, Rel;
    ReachesTrans(c.fp, c.prog, st, Running(q, mid + [a.v]), t, 0, 0);
    ArrivesFrom(c, c', st, t, w, n, cells);
  }

  lemma IfReady(c: Layout, p: nat, k: nat, s: Stmt, env: Env, cells: seq<Value>)
    requires s.If? && StmtReady(c, p, k, s, env, cells)
    ensures IfAt(c, p, k, s) && Ready(c, p, k, GenExpr(c.fp, s.cond, c.L, k, 0), env, cells) && Small(s.cond)
  {
    hide GenStmt, GenExpr, Rel, Has, JumpsFit, SmallStmt, Small, Peak, IfAt;
    IfShape(c, p, k, s, env, cells);
    IfHas(c, p, k, s);
    IfAtTest(c, p, k, s);
  }

  lemma IfAtTest(c: Layout, p: nat, k: nat, s: Stmt)
    requires s.If? && IfAt(c, p, k, s)
    ensures Has(c.prog, p, k, GenExpr(c.fp, s.cond, c.L, k, 0))
  {
    hide GenStmt, GenExpr, Has, One;
  }

  /** The branch that is taken, once the condition is known. */
  lemma SideReady(c: Layout, p: nat, k: nat, s: Stmt, v: Value, env0: Env, cells0: seq<Value>, env: Env,
                  cells: seq<Value>)
    requires s.If? && StmtReady(c, p, k, s, env0, cells0) && |cells| == |cells0| && env != [] && Fit(c, env, cells)
    ensures var cc := GenExpr(c.fp, s.cond, c.L, k, 0);
            var q, k1 := p + |cc.code|, k + |cc.consts|;
            var tt := GenStmt(c.fp, s.thn, c.L, k1);
            if BranchFalsy(c.fp, v) then
              s.els.Some? ==>
                StmtReady(After(c, Declared(s.thn)), q + 8 + |tt.code|, k1 + |tt.consts|, s.els.value,
                  Declare(env, Declared(s.thn)), cells)
            else StmtReady(c, q + 4, k1, s.thn, env, cells)
  {
    hide GenStmt, GenExpr, Rel, Has, SmallStmt, Small, Peak, IfAt, Declared, Declare, JumpsFit, BranchFalsy;
    IfShape(c, p, k, s, env0, cells0);
    IfHas(c, p, k, s);
    IfFits(c.fp, s, c.L, k);
    IfEnters(c, p, k, s, cells, v);
    if BranchFalsy(c.fp, v) {
      if s.els.Some? { DeclareFit(c, env, cells, Declared(s.thn)); }
    } else {
      ThenReady(c, p, k, s, env, cells);
    }
  }

  lemma ArriveIf(c: Layout, p: nat, k: nat, s: Stmt, env: Env, cells: seq<Value>, fuel: nat, w: Visit)
    returns (cells': seq<Value>)
    requires env != [] && s.If? && StmtReady(c, p, k, s, env, cells) && OpensIf(c, p, k, s, env, fuel, w)
    ensures Arrives(c, Running(p, cells), w, |cells|, cells')
  {
    hide StmtReady, GenStmt, GenExpr, Eval, Declared, Declare, Rel, Reaches, Arrives, IfAt, Evaluates, Small, Ready,
      BranchFalsy, Fit;
    IfReady(c, p, k, s, env, cells);
    var q, a := p + |GenExpr(c.fp, s.cond, c.L, k, 0).code|, Eval(c.fp, s.cond, env);
    cells' := SimTop(c, p, k, s.cond, env, cells);
    Limits(c, p, k, s, env, cells);
    EvaluatesFit(c, Running(p, cells), q, a, |cells|, cells');
    SideReady(c, p, k, s, a.v, env, cells, a.env, cells');
    IfEnters(c, p, k, s, cells', a.v);
    ArrivesNow(w, cells');
    ArrivesAfter(c, w.c, Running(p, cells), q, a, cells', Running(w.p, cells'), w, |cells|, cells');
  }

  lemma Limits(c: Layout, p: nat, k: nat, s: Stmt, env: Env, cells: seq<Value>)
    requires StmtReady(c, p, k, s, env, cells)
    ensures |c.prog.consts| <= 0x100 && |c.L| <= 0x100 && env != []
  {
  }

  // ----- loops -----

  lemma BodyReady(c: Layout, p: nat, k: nat, u: Option<Expr>, body: Stmt, env: Env, cells: seq<Value>, fuel: nat)
    requires IterReady(c, p, k, u, body, env, cells)
    ensures var w := BodyVisit(c, p, k, body, env, fuel);
            StmtReady(w.c, w.p, w.k, w.s, w.env, cells)
  {
    hide GenExpr, Rel, Has, SmallStmt, Small, Peak, JumpsFit, Enter;
    BodyHas(c, p, k, u, body, env, cells);
    if !body.Block? {
      EnterFit(c, env, cells);
      EnterSize(env);
    }
  }

  lemma BodyHas(c: Layout, p: nat, k: nat, u: Option<Expr>, body: Stmt, env: Env, cells: seq<Value>)
    requires IterReady(c, p, k, u, body, env, cells)
    ensures StmtReady(c, p, k, body, env, cells)
  {
    hide GenExpr, GenStmt, Rel, Has, SmallStmt, Small, Peak, JumpsFit, Cat, One;
    if u.Some? {
      var bb := GenStmt(c.fp, body, c.L, k);
      HasCat(c.prog, p, k, bb, Cat(GenExpr(c.fp, u.value, c.L, k + |bb.consts|, 0), One(Pop, 1)));
    }
  }

  lemma {:induction false} ArriveTurn(c: Layout, p: nat, k: nat, cond: Option<Expr>, u: Option<Expr>, body: Stmt,
                                      p0: nat, k0: nat,
                                      env0: Env, env: Env, cells: seq<Value>, fuel: nat, w: Visit)
                                        returns (cells': seq<Value>)
    requires env != [] && fuel > 0 && IterReady(c, p0, k0, u, body, env, cells)
      && LoopReady(c, p, k, cond, u, body, env0, cells)
    requires var bb := GenIteration(c.fp, u, body, c.L, k0);
             var q := p0 + |bb.code|;
             p <= q && q + 3 - p < 0x1_0000 && Has(c.prog, q, k0 + |bb.consts|, One(Loop(Dist(q + 3 - p)), 0))
    requires OpensTurn(c, p, k, cond, u, body, p0, k0, env, fuel, w)
    ensures Arrives(c, Running(p0, cells), w, |cells|, cells')
    decreases fuel, 0
  {
    hide GenLoop, GenIteration, ExecOnce, Rel, Has, One, Reaches, Arrives, StmtReady, BodyVisit, LoopReady, IterReady,
      Performs, OpensLoop;
    BodyReady(c, p0, k0, u, body, env, cells, fuel);
    if w == BodyVisit(c, p0, k0, body, env, fuel) {
      ArrivesBody(c, p0, k0, body, env, cells, fuel);
      cells' := cells;
    } else {
      var bb := GenIteration(c.fp, u, body, c.L, k0);
      var q := p0 + |bb.code|;
      var mid := SimOnce(c, p0, k0, u, body, env, cells, fuel);
      var r := ExecOnce(c.fp, u, body, env, fuel);
      NormalEnd(c, Running(p0, cells), q, r, |cells|, mid, fuel);
      TakeLoop(c.fp, c.prog, q, k0 + |bb.consts|, q + 3 - p, 0, mid);
      ReachesTrans(c.fp, c.prog, Running(p0, cells), Running(q, mid), Running(p, mid), 0, 1);
      ReachesWeaken(c.fp, c.prog, Running(p0, cells), Running(p, mid), 1);
      LoopAgain(c, p, k, cond, u, body, env0, cells, r.env, mid);
      cells' := ArriveLoop(c, p, k, cond, u, body, r.env, mid, fuel - 1, w);
      ArrivesFrom(c, c, Running(p0, cells), Running(p, mid), w, |cells|, cells');
    }
  }

  lemma NormalEnd(c: Layout, st: State, q: nat, r: ExecResult, n: nat, cells: seq<Value>, fuel: nat)
    requires Performs(c, st, q, r, n, cells, fuel) && r.Normal?
    ensures |cells| == n && Rel(r.env, c.bases, c.L, cells) && Reaches(c.fp, c.prog, st, Running(q, cells), 0)
  {
  }

  lemma LoopAgain(c: Layout, p: nat, k: nat, cond: Option<Expr>, u: Option<Expr>, body: Stmt,
                  env0: Env, cells0: seq<Value>, env: Env, cells: seq<Value>)
    requires LoopReady(c, p, k, cond, u, body, env0, cells0)
    requires env != [] && |cells| == |cells0| && Rel(env, c.bases, c.L, cells)
    ensures LoopReady(c, p, k, cond, u, body, env, cells)
  {
    hide GenLoop, SmallStmt, LoopFits, Peak, Rel, Has, Small;
  }

  lemma ArrivesBody(c: Layout, p: nat, k: nat, body: Stmt, env: Env, cells: seq<Value>, fuel: nat)
    requires var w := BodyVisit(c, p, k, body, env, fuel);
             StmtReady(w.c, w.p, w.k, w.s, w.env, cells)
    ensures Arrives(c, Running(p, cells), BodyVisit(c, p, k, body, env, fuel), |cells|, cells)
  {
    hide StmtReady, Reaches, Arrives;
    var w := BodyVisit(c, p, k, body, env, fuel);
    ArrivesNow(w, cells);
    SameMachine(w.c, c, Running(p, cells), w, |cells|, cells);
  }

  lemma SameMachine(c: Layout, c': Layout, st: State, w: Visit, n: nat, cells: seq<Value>)
    requires Arrives(c, st, w, n, cells) && c'.fp == c.fp && c'.prog == c.prog
    ensures Arrives(c', st, w, n, cells)
  {
    hide StmtReady, Reaches;
  }

  lemma {:induction false} ArriveLoop(c: Layout, p: nat, k: nat, cond: Option<Expr>, u: Option<Expr>, body: Stmt,
                                      env: Env, cells: seq<Value>, fuel: nat, w: Visit) returns (cells': seq<Value>)
    requires env != [] && LoopReady(c, p, k, cond, u, body, env, cells)
      && OpensLoop(c, p, k, cond, u, body, env, fuel, w)
    ensures Arrives(c, Running(p, cells), w, |cells|, cells')
    decreases fuel, 2
  {
    hide GenLoop, GenIteration, GenExpr, LoopReady, IterReady, Has, One, Reaches, Arrives, Eval, OpensTurn, Evaluates,
      BranchFalsy;
    if cond.Some? {
      cells' := ArriveWhile(c, p, k, cond.value, u, body, env, cells, fuel, w);
    } else {
      ForeverShape(c, p, k, u, body, env, cells);
      cells' := ArriveTurn(c, p, k, None, u, body, p, k, env, env, cells, fuel, w);
    }
  }

  lemma {:induction false} ArriveWhile(c: Layout, p: nat, k: nat, cond: Expr, u: Option<Expr>, body: Stmt,
                                       env: Env, cells: seq<Value>, fuel: nat, w: Visit) returns (cells': seq<Value>)
    requires env != [] && LoopReady(c, p, k, Some(cond), u, body, env, cells)
    requires OpensLoop(c, p, k, Some(cond), u, body, env, fuel, w)
    ensures Arrives(c, Running(p, cells), w, |cells|, cells')
    decreases fuel, 1
  {
    hide GenLoop, GenIteration, GenExpr, Eval, IterReady, Has, One, Rel, Small, SmallStmt, Peak, LoopFits, Evaluates,
      BranchFalsy, Reaches, Arrives, OpensTurn;
    WhileShape(c, p, k, cond, u, body, env, cells);
    var cc, a := GenExpr(c.fp, cond, c.L, k, 0), Eval(c.fp, cond, env);
    var k1, q := k + |cc.consts|, p + |cc.code|;
    var mid := SimTop(c, p, k, cond, env, cells);
    EvaluatesFit(c, Running(p, cells), q, a, |cells|, mid);
    var bb := GenIteration(c.fp, u, body, c.L, k1);
    EnterSide(c.fp, c.prog, q, k1, |bb.code| + 4, 1, q + 3, k1, mid, a.v);
    ReachesWeaken(c.fp, c.prog, Running(q, mid + [a.v]), Running(q + 4, mid), 2);
    cells' := ArriveTurn(c, p, k, Some(cond), u, body, q + 4, k1, a.env, a.env, mid, fuel, w);
    ArrivesAfter(c, c, Running(p, cells), q, a, mid, Running(q + 4, mid), w, |cells|, cells');
  }

  lemma {:induction false} ArriveFor(c: Layout, p: nat, k: nat, s: Stmt, env: Env, cells: seq<Value>, fuel: nat,
                                     w: Visit)
    returns (cells': seq<Value>)
    requires env != [] && s.For? && StmtReady(c, p, k, s, env, cells) && OpensFor(c, p, k, s, env, fuel, w)
    ensures Arrives(c, Running(p, cells), w, |cells|, cells')
  {
    hide GenLoop, GenInit, GenStmt, SmallStmt, SmallOpt, InitSmall, LoopFits, JumpsFit, Peak, ExecInit, OpensLoop,
      Rel, Has, Declared, Reaches, Cat, Enter, InitNames, Arrives;
    ForShape(c, p, k, s, env, cells, fuel);
    var names := InitNames(s.finit);
    var ii := GenInit(c.fp, s.finit, c.L, k);
    var c1, k1, q := Inside(c), k + |ii.consts|, p + |ii.code|;
    var c2 := After(c1, names);
    HasCat(c.prog, p, k, ii, GenLoop(c.fp, s.fcond, s.update, s.fbody, c2.L, k1));
    EnterFit(c, env, cells);
    EnterSize(env);
    var mid := SimInit(c1, p, k, s.finit, Enter(env), cells, fuel);
    var a := ExecInit(c.fp, s.finit, Enter(env));
    cells' := ArriveLoop(c2, q, k1, s.fcond, s.update, s.fbody, a.env, mid, fuel, w);
    ArrivesFrom(c, c2, Running(p, cells), Running(q, mid), w, |cells|, cells');
  }

  // ----- switch -----

  lemma CaseVerdict(fp: Arith, e: Expr, v: Value, env: Env)
    ensures var a, b := Eval(fp, e, env), EvalRight(fp, e, Binary(Eq), v, env);
            && (a.Val? <==> b.Val?)
            && (a.Val? ==> b.env == a.env && b.v == Bool(ValuesEqual(fp, v, a.v)))
            && (a.Val? ==> (BranchFalsy(fp, b.v) <==> !ValuesEqual(fp, v, a.v)))
  {
    hide Eval, ValuesEqual;
  }

  /** The body of a case that matches, and the cases after one that does not. */
  lemma CaseReady(c: Layout, p: nat, k: nat, s: Stmt, i: nat, env0: Env, cells0: seq<Value>, env: Env,
                  cells: seq<Value>)
    requires CasesReady(c, p, k, s, i, env0, cells0) && i < |s.cases| && |cells| == |cells0| && env != []
      && Fit(c, env, cells)
    ensures var vv, body := GenExpr(c.fp, s.cases[i].value, c.L, k, 2), s.cases[i].body;
            var k1, q := k + |vv.consts|, p + 2 + |vv.code|;
            var bb := GenStmt(c.fp, body, c.L, k1);
            && StmtReady(c, q + 5, k1, body, env, cells)
            && CasesReady(After(c, Declared(body)), q + 9 + |bb.code|, k1 + |bb.consts|, s, i + 1,
              Declare(env, Declared(body)), cells)
  {
    hide GenStmt, GenExpr, GenCases, Rel, Has, SmallStmt, Small, Peak, PeakCases, JumpsFit, CasesFit, Declared,
      Declare, One,
      DeclaredCases;
    CaseStands(c, p, k, s, i, env0, cells0);
    CaseShape(c, p, k, s, i, env0, cells0);
    DeclareFit(c, env, cells, Declared(s.cases[i].body)) by { CaseRoomNames(s, i, |c.L|); }
  }

  lemma CaseRoomNames(s: Stmt, i: nat, n: nat)
    requires s.Switch? && i < |s.cases|
    ensures n + |Declared(s.cases[i].body)| <= PeakCases(s, i, n)
  {
    hide Peak, Declared;
    var m := n + |Declared(s.cases[i].body)|;
    assert PeakCases(s, i + 1, m) >= m;
  }

  lemma {:induction false} ArriveCases(c: Layout, p: nat, k: nat, s: Stmt, i: nat, v: Value, env: Env,
                                       cells: seq<Value>,
                                       fuel: nat, w: Visit) returns (cells': seq<Value>)
    requires s.Switch? && i <= |s.cases| && env != [] && CasesReady(c, p, k, s, i, env, cells)
    requires OpensCases(c, p, k, s, i, v, env, fuel, w)
    ensures Arrives(c, Running(p, cells + [v]), w, |cells|, cells')
    decreases |s.cases| - i
  {
    hide StmtReady, CasesReady, GenStmt, GenExpr, GenCases, Declared, Declare, Rel, Reaches, Arrives, CaseAt, One;
    if i == |s.cases| {
      DefaultShape(c, p, k, s, v, env, cells, fuel);
      PopStep(c.fp, c.prog, p, k, 1, cells, v);
      ReachesWeaken(c.fp, c.prog, Running(p, cells + [v]), Running(p + 1, cells), 1);
      cells' := cells;
      ArrivesNow(w, cells);
      ArrivesFrom(c, c, Running(p, cells + [v]), Running(p + 1, cells), w, |cells|, cells);
    } else {
      cells' := ArriveCase(c, p, k, s, i, v, env, cells, fuel, w);
    }
  }

  lemma {:induction false} ArriveCase(c: Layout, p: nat, k: nat, s: Stmt, i: nat, v: Value, env: Env, cells: seq<Value>,
                                      fuel: nat, w: Visit) returns (cells': seq<Value>)
    requires s.Switch? && i < |s.cases| && env != [] && CasesReady(c, p, k, s, i, env, cells)
    requires OpensCases(c, p, k, s, i, v, env, fuel, w)
    ensures Arrives(c, Running(p, cells + [v]), w, |cells|, cells')
    decreases |s.cases| - i, 0
  {
    hide StmtReady, CasesReady, GenStmt, GenExpr, GenCases, Eval, EvalRight, Declared, Declare, Rel, Reaches, Arrives,
      CaseAt, One, Has, BranchFalsy, ValuesEqual, Small, SmallStmt, JumpsFit, CasesFit, Peak, PeakCases,
        DeclaredCases, Fit;
    CaseStands(c, p, k, s, i, env, cells);
    CaseShape(c, p, k, s, i, env, cells);
    CasesFitHere(c, p, k, s, i, env, cells);
    CaseVerdict(c.fp, s.cases[i].value, v, env);
    var vv, body := GenExpr(c.fp, s.cases[i].value, c.L, k, 2), s.cases[i].body;
    var k1, q := k + |vv.consts|, p + 2 + |vv.code|;
    var bb := GenStmt(c.fp, body, c.L, k1);
    var b := EvalRight(c.fp, s.cases[i].value, Binary(Eq), v, env);
    var mid := SimCaseTest(c, p, k, s, i, v, env, cells);
    CaseEnv(c, Running(p, cells + [v]), q, b, |cells|, mid, v, p, k, s, i, env, cells);
    CaseReady(c, p, k, s, i, env, cells, b.env, mid);
    CaseGoes(c, p, k, s, i, mid, v, b.v);
    assert mid + ([v] + [b.v]) == mid + [v] + [b.v];
    if BranchFalsy(c.fp, b.v) {
      var c1, q1 := After(c, Declared(body)), q + 9 + |bb.code|;
      ReachesTrans(c.fp, c.prog, Running(p, cells + [v]), Running(q, mid + [v] + [b.v]), Running(q1, mid + [v]), 0, 0);
      cells' := ArriveCases(c1, q1, k1 + |bb.consts|, s, i + 1, v, Declare(b.env, Declared(body)), mid, fuel, w);
      ArrivesFrom(c, c1, Running(p, cells + [v]), Running(q1, mid + [v]), w, |cells|, cells');
    } else {
      cells' := mid;
      ReachesTrans(c.fp, c.prog, Running(p, cells + [v]), Running(q, mid + [v] + [b.v]), Running(q + 5, mid), 0, 0);
      ArrivesNow(w, mid);
      ArrivesFrom(c, c, Running(p, cells + [v]), Running(q + 5, mid), w, |cells|, mid);
    }
  }

  lemma CasesFitHere(c: Layout, p: nat, k: nat, s: Stmt, i: nat, env: Env, cells: seq<Value>)
    requires CasesReady(c, p, k, s, i, env, cells)
    ensures Fit(c, env, cells)
  {
  }

  lemma CaseEnv(c: Layout, st: State, q: nat, b: EvalResult, n: nat, mid: seq<Value>, v: Value,
                p: nat, k: nat, s: Stmt, i: nat, env: Env, cells: seq<Value>)
    requires Computes(c, st, q, b, n, mid, [v]) && b.Val? && CasesReady(c, p, k, s, i, env, cells)
    ensures |mid| == n && Fit(c, b.env, mid) && Reaches(c.fp, c.prog, st, Running(q, mid + ([v] + [b.v])), 0)
  {
    hide Reaches, Rel;
  }

  /** From the verdict to the body, or past the case with the scrutinee still on the stack. */
  lemma CaseGoes(c: Layout, p: nat, k: nat, s: Stmt, i: nat, cells: seq<Value>, v: Value, hit: Value)
    requires s.Switch? && i < |s.cases| && CaseAt(c, p, k, s, i)
    ensures var vv := GenExpr(c.fp, s.cases[i].value, c.L, k, 2);
            var q := p + 2 + |vv.code|;
            var bb := GenStmt(c.fp, s.cases[i].body, c.L, k + |vv.consts|);
            Reaches(c.fp, c.prog, Running(q, cells + [v] + [hit]),
              if BranchFalsy(c.fp, hit) then Running(q + 9 + |bb.code|, cells + [v]) else Running(q + 5, cells), 0)
  {
    hide GenExpr, GenStmt, GenCases, Has, BranchFalsy, Declared, Reaches, One;
    var vv := GenExpr(c.fp, s.cases[i].value, c.L, k, 2);
    var k1, q := k + |vv.consts|, p + 2 + |vv.code|;
    var bb := GenStmt(c.fp, s.cases[i].body, c.L, k1);
    var start := Running(q, cells + [v] + [hit]);
    if BranchFalsy(c.fp, hit) {
      EnterSide(c.fp, c.prog, q, k1, |bb.code| + 5, 2, q + 8 + |bb.code|, k1 + |bb.consts|, cells + [v], hit);
      ReachesWeaken(c.fp, c.prog, start, Running(q + 9 + |bb.code|, cells + [v]), 2);
    } else {
      EnterSide(c.fp, c.prog, q, k1, |bb.code| + 5, 2, q + 3, k1, cells + [v], hit);
      PopStep(c.fp, c.prog, q + 4, k1, 1, cells, v);
      ReachesTrans(c.fp, c.prog, start, Running(q + 4, cells + [v]), Running(q + 5, cells), 2, 1);
      ReachesWeaken(c.fp, c.prog, start, Running(q + 5, cells), 3);
    }
  }

  lemma ArriveSwitch(c: Layout, p: nat, k: nat, s: Stmt, env: Env, cells: seq<Value>, fuel: nat, w: Visit)
    returns (cells': seq<Value>)
    requires env != [] && s.Switch? && StmtReady(c, p, k, s, env, cells) && OpensSwitch(c, p, k, s, env, fuel, w)
    ensures Arrives(c, Running(p, cells), w, |cells|, cells')
  {
    hide GenExpr, GenStmt, GenCases, Eval, Rel, Has, SmallStmt, Small, CasesFit, JumpsFit, Peak, PeakCases, Declared,
      DeclaredCases, Reaches, Cat, Evaluates, OpensCases, Arrives;
    SwitchShape(c, p, k, s, env, cells, fuel);
    var vv, a := GenExpr(c.fp, s.scrutinee, c.L, k, 0), Eval(c.fp, s.scrutinee, env);
    var q, k' := p + |vv.code|, k + |vv.consts|;
    HasCat(c.prog, p, k, vv, GenCases(c.fp, s, 0, c.L, k'));
    var mid := SimTop(c, p, k, s.scrutinee, env, cells);
    EvaluatesFit(c, Running(p, cells), q, a, |cells|, mid);
    cells' := ArriveCases(c, q, k', s, 0, a.v, a.env, mid, fuel, w);
    ReachesNow(c.fp, c.prog, Running(q, mid + [a.v]));
    ArrivesAfter(c, c, Running(p, cells), q, a, mid, Running(q, mid + [a.v]), w, |cells|, cells');
  }

  // ----- every visit -----

  /** The machine comes from a statement to each one it starts. */
  lemma ArriveOpened(v: Visit, w: Visit, cells: seq<Value>) returns (cells': seq<Value>)
    requires v.env != [] && StmtReady(v.c, v.p, v.k, v.s, v.env, cells) && Opens(v, w)
    ensures Arrives(v.c, Running(v.p, cells), w, |cells|, cells')
  {
    hide StmtReady, Arrives, OpensAll, OpensIf, OpensLoop, OpensFor, OpensCases, OpensSwitch;
    match v.s {
      case Block(_) => cells' := ArriveBlock(v.c, v.p, v.k, v.s, v.env, cells, v.fuel, w);
      case If(_, _, _) => cells' := ArriveIf(v.c, v.p, v.k, v.s, v.env, cells, v.fuel, w);
      case While(cond, body) =>
        WhileStmtShape(v.c, v.p, v.k, v.s, v.env, cells, v.fuel);
        cells' := ArriveLoop(v.c, v.p, v.k, Some(cond), None, body, v.env, cells, v.fuel, w);
      case For(_, _, _, _) => cells' := ArriveFor(v.c, v.p, v.k, v.s, v.env, cells, v.fuel, w);
      case Switch(_, _, _) => cells' := ArriveSwitch(v.c, v.p, v.k, v.s, v.env, cells, v.fuel, w);
    }
  }

  lemma ArriveBlock(c: Layout, p: nat, k: nat, s: Stmt, env: Env, cells: seq<Value>, fuel: nat, w: Visit)
    returns (cells': seq<Value>)
    requires env != [] && s.Block? && StmtReady(c, p, k, s, env, cells)
    requires OpensAll(Inside(c), p, k, s.body, Enter(env), fuel, w)
    ensures Arrives(c, Running(p, cells), w, |cells|, cells')
  {
    hide GenStmts, SmallStmt, AllJumpsFit, JumpsFit, PeakAll, Peak, Rel, Has, OpensAll, Arrives, Enter;
    BlockShape(c, p, k, s, env, cells, fuel);
    EnterFit(c, env, cells);
    EnterSize(env);
    cells' := ArriveAll(Inside(c), p, k, s.body, Enter(env), cells, fuel, w);
    SameMachine(Inside(c), c, Running(p, cells), w, |cells|, cells');
  }

  /** Each visit is started directly inside the one before it. */
  ghost predicate Nested(path: seq<Visit>) {
    forall i :: 0 <= i < |path| - 1 ==> path[i].env != [] && Opens(path[i], path[i + 1])
  }

  lemma {:induction false} ArriveNested(path: seq<Visit>, cells: seq<Value>) returns (cells': seq<Value>)
    requires path != [] && Nested(path)
    requires var v := path[0];
             StmtReady(v.c, v.p, v.k, v.s, v.env, cells)
    ensures var v := path[0];
            Arrives(v.c, Running(v.p, cells), path[|path| - 1], |cells|, cells')
    decreases |path|
  {
    hide StmtReady, Arrives, Opens, Reaches;
    var v := path[0];
    if |path| == 1 {
      ArrivesNow(v, cells);
      cells' := cells;
    } else {
      var w, rest := path[1], path[1..];
      assert Opens(v, w);
      var mid := ArriveOpened(v, w, cells);
      ArrivesParts(v.c, Running(v.p, cells), w, |cells|, mid);
      forall i | 0 <= i < |rest| - 1
        ensures rest[i].env != [] && Opens(rest[i], rest[i + 1])
      {
        assert rest[i] == path[i + 1] && rest[i + 1] == path[i + 2];
      }
      cells' := ArriveNested(rest, mid);
      ArrivesFrom(v.c, w.c, Running(v.p, cells), Running(w.p, mid), path[|path| - 1], |cells|, cells');
    }
  }

  lemma ArrivesParts(c: Layout, st: State, w: Visit, n: nat, cells: seq<Value>)
    requires Arrives(c, st, w, n, cells)
    ensures |cells| == n && w.c.fp == c.fp && w.c.prog == c.prog && StmtReady(w.c, w.p, w.k, w.s, w.env, cells)
    ensures Reaches(c.fp, c.prog, st, Running(w.p, cells), 0)
    ensures Has(w.c.prog, w.p, w.k, GenStmt(w.c.fp, w.s, w.c.L, w.k)) && Rel(w.env, w.c.bases, w.c.L, cells)
  {
  }

  lemma FunctionStands(fp: Arith, f: Function)
    ensures Has(Compile(fp, f), 0, 0, GenFunction(fp, f))
  {
    hide GenFunction, PeakAll;
  }

  /** Slots refine lexical scoping at every statement of every run, whatever becomes of the run:
      when the source comes to a statement, however deeply nested and in whatever turn of a loop,
      the machine comes to its code; and for every name, the slot the compiler would pick there
      exists exactly if the name is in scope, and holds the value of its innermost declaration. */
  lemma SlotsAtEveryStatement(fp: Arith, f: Function, args: seq<Value>, fuel: nat, path: seq<Visit>)
    returns (cells: seq<Value>)
    requires WithinLimits(fp, f, T.Any) && path != [] && Nested(path)
    requires OpensAll(Layout(fp, Compile(fp, f), [0], f.params), 0, 0, f.body, Bind(f.params, args), fuel, path[0])
    ensures var prog, w := Compile(fp, f), path[|path| - 1];
            && Reaches(fp, prog, Running(0, Frame(prog.localCount, args)), Running(w.p, cells), 0)
            && Has(prog, w.p, w.k, GenStmt(fp, w.s, w.c.L, w.k)) && |w.c.L| <= |cells|
            && forall x ::
                 var d := Lookup(w.env, x);
                 && (d.Some? <==> Resolve(w.c.L, x) >= 0)
                 && (d.Some? && d.value.Some? ==> cells[Resolve(w.c.L, x)] == d.value.value)
  {
    hide GenFunction, GenStmts, GenStmt, PeakAll, AllJumpsFit, SmallStmt, Frame, Bind, Rel, Has, OpensAll, Nested,
      Arrives,
      StmtReady, Reaches, Lookup, Resolve;
    var prog, v, w := Compile(fp, f), path[0], path[|path| - 1];
    var cells0, env := Frame(prog.localCount, args), Bind(f.params, args);
    var c := Layout(fp, prog, [0], f.params);
    RelBind(f.params, args, cells0);
    FunctionStands(fp, f);
    FunctionHas(c, f);
    var mid := ArriveAll(c, 0, 0, f.body, env, cells0, fuel, v);
    ArrivesParts(c, Running(0, cells0), v, |cells0|, mid);
    cells := ArriveNested(path, mid);
    ArrivesFrom(c, v.c, Running(0, cells0), Running(v.p, mid), w, |cells0|, cells);
    ArrivesParts(c, Running(0, cells0), w, |cells0|, cells);
    RelSize(w.env, w.c.bases, w.c.L, cells);
    forall x
      ensures var d := Lookup(w.env, x);
              && (d.Some? <==> Resolve(w.c.L, x) >= 0)
              && (d.Some? && d.value.Some? ==> cells[Resolve(w.c.L, x)] == d.value.value)
    {
      RelLookup(w.env, w.c.bases, w.c.L, cells, x);
    }
  }
}
