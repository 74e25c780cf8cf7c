/** Functions of two parameters that return one expression.

    They are short and free of loops, so their code in an avatar ends exactly as their source
    says, for all arguments. */
module SmallPrograms {
  import opened Wrappers
  import opened Values
  import opened Bytecode
  import opened Source
  import opened CodeGen
  import opened Typing
  import opened TypedCode
  import opened Machine
  import opened Lockstep
  import opened Boundaries
  import opened Correctness
  import opened LoopFrees

  function Run(fp: Arith, f: Function, args: seq<Value>): Outcome {
    AvatarRun(fp, Compile(fp, f), AvatarStart(Compile(fp, f), args))
  }

  /** Source and avatar both return `v`. */
  ghost predicate Gives(fp: Arith, f: Function, args: seq<Value>, v: Value) {
    Run(fp, f, args) == Result(v) && forall fuel: nat :: Call(fp, f, args, fuel) == Returned(v)
  }

  /** Source and avatar both end with the error `e`. */
  ghost predicate Fails(fp: Arith, f: Function, args: seq<Value>, e: Fault) {
    Run(fp, f, args) == Error(e) && forall fuel: nat :: Call(fp, f, args, fuel) == Failed(e)
  }

  // ----- functions that return one expression -----

  const PARAMS: seq<string> := ["a", "b"]

  const A: Expr := Var("a")
  const B: Expr := Var("b")

  /** `return e` */
  function Returns(e: Expr): Function { Function(PARAMS, [ReturnStmt(Some(e))]) }

  /** `return a op b` */
  function Two(op: BinOp): Function { Returns(BinaryExpr(op, A, B)) }

  predicate Little(fp: Arith, e: Expr) {
    var g := GenExpr(fp, e, PARAMS, 0, 0);
    Small(e) && Need(e) <= 2000 && |g.consts| <= 0x100 && |g.code| <= 0x1000
  }

  /** `return e` alone: its code, its limits and what it needs. */
  lemma ReturnsParts(fp: Arith, e: Expr)
    ensures var ss := Returns(e).body;
            && GenStmts(fp, ss, PARAMS, 0) == Cat(Cat(GenExpr(fp, e, PARAMS, 0, 0), One(Return, 1)), Empty)
            && PeakAll(ss, 2) == 2 && AllJumpsFit(fp, ss, PARAMS, 0) && NeedStmts(ss) == Need(e)
  {
    hide GenExpr, Need, Cat, One;
    var ss := Returns(e).body;
    assert ss[1..] == [];
    assert GenStmts(fp, [], PARAMS + Declared(ss[0]), 0 + |GenStmt(fp, ss[0], PARAMS, 0).consts|) == Empty;
  }

  lemma ReturnsRunnable(fp: Arith, e: Expr, args: seq<Value>)
    requires Little(fp, e) && |args| == 2
    ensures Runnable(fp, Returns(e), args) && |Compile(fp, Returns(e)).code| <= 100000
    ensures NoLoops(Returns(e))
  {
    hide GenExpr, Need, Small, GenStmts, PeakAll, AllJumpsFit, NeedStmts;
    ReturnsParts(fp, e);
    assert SmallStmt(ReturnStmt(Some(e)), Single);
  }

  lemma ReturnsCall(fp: Arith, e: Expr, args: seq<Value>, fuel: nat)
    requires |args| == 2
    ensures Call(fp, Returns(e), args, fuel)
         == var r := Eval(fp, e, Bind(PARAMS, args));
            if r.Val? then Returned(r.v) else FromEval(r)
  {
    hide Eval, Bind;
    var s, env := ReturnStmt(Some(e)), Bind(PARAMS, args);
    assert ExecAll(fp, Returns(e).body, env, fuel) == Exec(fp, s, env, fuel);
  }

  function Both(v: Value, w: Value): Env { [map["a" := Some(v), "b" := Some(w)]] }

  /** The variables of the two parameters. */
  lemma Reads(v: Value, w: Value)
    ensures Bind(PARAMS, [v, w]) == Both(v, w)
  {
    hide Bind;
    var none: Scope, one: Scope := map[], map["a" := Some(v)];
    NoneBound([v, w]);
    assert [] + ["a"] == ["a"] && ["a"] + ["b"] == PARAMS;
    assert none["a" := Some(v)] == one && one["b" := Some(w)] == Both(v, w)[0];
    Bound([], "a", [v, w], none, v);
    Bound(["a"], "b", [v, w], one, w);
  }

  lemma NoneBound(args: seq<Value>)
    ensures Bind([], args) == [map[]]
  {
  }

  /** One parameter more. */
  lemma Bound(xs: seq<string>, x: string, args: seq<Value>, m: Scope, v: Value)
    requires Bind(xs, args) == [m] && v == if |xs| < |args| then args[|xs|] else Nil
    ensures Bind(xs + [x], args) == [m[x := Some(v)]]
  {
    hide *;
    BindLast(xs, x, args);
    DeclareOne(m, x);
    UpdateOne(m[x := None], x, v);
    SetTwice(m, x, v);
  }

  lemma SetTwice(m: Scope, x: string, v: Value)
    ensures m[x := None][x := Some(v)] == m[x := Some(v)]
  {
  }

  lemma DeclareOne(m: Scope, x: string)
    ensures Declare([m], [x]) == [m[x := None]]
  {
    var env: Env := [m];
    assert env[..0] + [env[0][x := None]] == [m[x := None]] && [x][1..] == [];
    assert Declare([m[x := None]], []) == [m[x := None]];
  }

  lemma UpdateOne(m: Scope, x: string, v: Value)
    requires x in m
    ensures Update([m], x, v) == [m[x := Some(v)]]
  {
    var env: Env := [m];
    assert env[..0] + [env[0][x := Some(v)]] == [m[x := Some(v)]];
  }

  lemma BindLast(xs: seq<string>, x: string, args: seq<Value>)
    ensures Bind(xs + [x], args)
         == Update(Declare(Bind(xs, args), [x]), x, if |xs| < |args| then args[|xs|] else Nil)
  {
    hide Update, Declare;
    assert (xs + [x])[..|xs|] == xs;
  }

  lemma ReturnsExact(fp: Arith, e: Expr, v: Value, w: Value)
    requires Little(fp, e)
    ensures var r := Eval(fp, e, Both(v, w));
            && (r.Val? ==> Gives(fp, Returns(e), [v, w], r.v))
            && (r.Crash? ==> Fails(fp, Returns(e), [v, w], r.fault))
  {
    hide Eval, Little, Bind, Compile, Call, Runnable, AvatarRun, AvatarStart, NoLoops;
    Reads(v, w);
    ReturnsRunnable(fp, e, [v, w]);
    forall fuel: nat
      ensures Call(fp, Returns(e), [v, w], fuel)
           == var r := Eval(fp, e, Both(v, w)); if r.Val? then Returned(r.v) else FromEval(r)
    {
      ReturnsCall(fp, e, [v, w], fuel);
    }
    LoopFreeExact(fp, Returns(e), [v, w], 0);
  }

  // ----- expressions that are small enough -----

  /** With the two parameters as locals, `e` needs at most `n` of everything, wherever it stands. */
  ghost predicate Fits(fp: Arith, e: Expr, n: nat) {
    && Small(e) && Need(e) <= n
    && forall k: nat, h: nat :: |GenExpr(fp, e, PARAMS, k, h).code| <= n && |GenExpr(fp, e, PARAMS, k, h).consts| <= n
  }

  lemma FitsLittle(fp: Arith, e: Expr, n: nat)
    requires Fits(fp, e, n) && n <= 0x100
    ensures Little(fp, e)
  {
  }

  lemma ParamFits(fp: Arith, e: Expr)
    requires e == A || e == B
    ensures Fits(fp, e, 2)
  {
    hide Opcode, Operand;
    assert Resolve(PARAMS, "b") == 1;
    assert PARAMS[..1] == ["a"];
    assert Resolve(["a"], "a") == 0 && Resolve(PARAMS, "a") == 0;
  }

  lemma LiteralFits(fp: Arith, v: Value)
    ensures Fits(fp, Lit(v), 3)
  {
    hide Opcode, Operand;
  }

  lemma BinaryFits(fp: Arith, op: BinOp, l: Expr, r: Expr, m: nat, n: nat)
    requires Fits(fp, l, m) && Fits(fp, r, n)
    ensures Fits(fp, BinaryExpr(op, l, r), m + n + 1)
  {
    hide Small, Need, One, Cat, GenExpr;
    var e := BinaryExpr(op, l, r);
    BinaryFacts(op, l, r);
    forall k: nat, h: nat
      ensures |GenExpr(fp, e, PARAMS, k, h).code| <= m + n + 1 && |GenExpr(fp, e, PARAMS, k, h).consts| <= m + n + 1
    {
      BinaryCode(fp, e, PARAMS, k, h);
    }
  }

  lemma BinaryFacts(op: BinOp, l: Expr, r: Expr)
    ensures Small(BinaryExpr(op, l, r)) <==> Small(l) && Small(r)
    ensures Need(BinaryExpr(op, l, r)) == Max(Need(l), 1 + Need(r))
  {
  }


  lemma UnaryFits(fp: Arith, op: UnOp, x: Expr, n: nat)
    requires Fits(fp, x, n)
    ensures Fits(fp, UnaryExpr(op, x), n + 1)
  {
    hide One, Cat, GenExpr;
    var e := UnaryExpr(op, x);
    forall k: nat, h: nat
      ensures |GenExpr(fp, e, PARAMS, k, h).code| <= n + 1 && |GenExpr(fp, e, PARAMS, k, h).consts| <= n + 1
    {
      UnaryCode(fp, e, PARAMS, k, h);
    }
  }

  lemma IndexFits(fp: Arith, x: Expr, i: Expr, m: nat, n: nat)
    requires Fits(fp, x, m) && Fits(fp, i, n)
    ensures Fits(fp, IndexExpr(x, i), m + n + 1)
  {
    hide One, Cat, GenExpr;
    var e := IndexExpr(x, i);
    forall k: nat, h: nat
      ensures |GenExpr(fp, e, PARAMS, k, h).code| <= m + n + 1 && |GenExpr(fp, e, PARAMS, k, h).consts| <= m + n + 1
    {
      IndexCode(fp, e, PARAMS, k, h);
    }
  }

  lemma MemberFits(fp: Arith, x: Expr, p: string, n: nat)
    requires Fits(fp, x, n)
    ensures Fits(fp, Member(x, p), n + 4)
  {
    hide One, Cat, GenExpr, Opcode, Operand, InstrMarks;
    var e := Member(x, p);
    forall k: nat, h: nat
      ensures |GenExpr(fp, e, PARAMS, k, h).code| <= n + 4 && |GenExpr(fp, e, PARAMS, k, h).consts| <= n + 4
    {
      MemberCode(fp, e, PARAMS, k, h);
    }
  }

  /** An assignment to the first parameter. */
  lemma AssignFits(fp: Arith, op: AssignOp, r: Expr, n: nat)
    requires Fits(fp, r, n)
    ensures Fits(fp, Assign("a", op, r), n + 5)
  {
    hide Cat, GenExpr, Opcode, Operand, InstrMarks, Resolve;
    var e := Assign("a", op, r);
    forall k: nat, h: nat
      ensures |GenExpr(fp, e, PARAMS, k, h).code| <= n + 5 && |GenExpr(fp, e, PARAMS, k, h).consts| <= n + 5
    {
      FirstLocal();
      if op.Set? { AssignCode(fp, e, PARAMS, k, h); } else { CompoundCode(fp, e, PARAMS, k, h); }
    }
  }

  lemma FirstLocal()
    ensures Resolve(PARAMS, "a") == 0
  {
    assert PARAMS[..1] == ["a"];
    assert Resolve(["a"], "a") == 0;
  }

  lemma PairFits(fp: Arith, x: Expr, y: Expr, m: nat, n: nat)
    requires Fits(fp, x, m) && Fits(fp, y, n)
    ensures Fits(fp, ArrayLit([x, y]), m + n + 2)
  {
    hide One, Cat, GenExpr, GenAll, Small, Need;
    var e := ArrayLit([x, y]);
    PairFacts(x, y);
    forall k: nat, h: nat
      ensures |GenExpr(fp, e, PARAMS, k, h).code| <= m + n + 2 && |GenExpr(fp, e, PARAMS, k, h).consts| <= m + n + 2
    {
      ArrayCode(fp, e, PARAMS, k, h);
      AllCode(fp, [x, y], PARAMS, k, h);
      var k' := k + |GenExpr(fp, x, PARAMS, k, h).consts|;
      assert [x, y][1..] == [y] && [y][1..] == [];
      AllCode(fp, [y], PARAMS, k', h + 1);
      NoneCode(fp, k' + |GenExpr(fp, y, PARAMS, k', h + 1).consts|, h + 2);
    }
  }

  lemma NoneCode(fp: Arith, k: nat, h: nat)
    ensures GenAll(fp, [], PARAMS, k, h) == Empty && GenPieces(fp, [], PARAMS, k, h) == Empty
  {
  }

  lemma PairFacts(x: Expr, y: Expr)
    requires Small(x) && Small(y)
    ensures Small(ArrayLit([x, y])) && Need(ArrayLit([x, y])) <= Need(x) + Need(y) + 2
  {
    assert [x, y][1..] == [y] && [y][1..] == [];
    assert NeedAll([]) == 0 && NeedAll([y]) <= Need(y) + 1 && NeedAll([x, y]) <= Need(x) + Need(y) + 2;
  }

  /** Text with two expressions in it. */
  lemma TextFits(fp: Arith, head: string, x: Expr, mid: string, y: Expr, tail: string, m: nat, n: nat)
    requires Fits(fp, x, m) && Fits(fp, y, n)
    ensures Fits(fp, Interp(head, [Piece(x, mid), Piece(y, tail)]), m + n + 20)
  {
    hide One, Cat, GenExpr, GenPieces, Small, Need, Push, PieceArm, Resolve;
    var ps := [Piece(x, mid), Piece(y, tail)];
    var e := Interp(head, ps);
    TextFacts(head, Piece(x, mid), Piece(y, tail));
    forall k: nat, h: nat
      ensures |GenExpr(fp, e, PARAMS, k, h).code| <= m + n + 20 && |GenExpr(fp, e, PARAMS, k, h).consts| <= m + n + 20
    {
      InterpCode(fp, e, PARAMS, k, h);
      PushSize(Str(head), k, h);
      assert ps[1..] == [ps[1]] && [ps[1]][1..] == [];
      var k' := k + 2 + |GenExpr(fp, x, PARAMS, k + 1, h + 1).consts|;
      PieceSize(fp, ps, k + 1, h + 1);
      PieceSize(fp, [ps[1]], k', h + 1);
      NoneCode(fp, k' + |GenExpr(fp, y, PARAMS, k', h + 1).consts| + 1, h + 1);
    }
  }

  lemma PushSize(v: Value, k: nat, h: nat)
    ensures |Push(v, k, h).code| <= 3 && |Push(v, k, h).consts| == 1
  {
    hide Opcode, Operand, InstrMarks;
  }

  lemma PieceSize(fp: Arith, ps: seq<Piece>, k: nat, h: nat)
    requires ps != []
    ensures var x := GenExpr(fp, ps[0].e, PARAMS, k, h);
            var rest := GenPieces(fp, ps[1..], PARAMS, k + |x.consts| + 1, h);
            var g := GenPieces(fp, ps, PARAMS, k, h);
            |g.code| <= |x.code| + |rest.code| + 6 && |g.consts| <= |x.consts| + |rest.consts| + 1
  {
    hide GenExpr, GenPieces, Push, Opcode, Operand, InstrMarks;
    PiecesCode(fp, ps, PARAMS, k, h);
    PushSize(Str(ps[0].text), k + |GenExpr(fp, ps[0].e, PARAMS, k, h).consts|, h);
  }

  lemma TextFacts(head: string, p: Piece, q: Piece)
    requires Small(p.e) && Small(q.e)
    ensures Small(Interp(head, [p, q])) && Need(Interp(head, [p, q])) <= Need(p.e) + Need(q.e) + 1
  {
    assert [p, q][1..] == [q] && [q][1..] == [];
    assert NeedPieces([]) == 0 && NeedPieces([q]) <= Need(q.e) && NeedPieces([p, q]) <= Need(p.e) + Need(q.e);
  }

  lemma TwoLittle(fp: Arith, op: BinOp)
    ensures Little(fp, BinaryExpr(op, A, B))
  {
    hide Fits, Little;
    ParamFits(fp, A);
    ParamFits(fp, B);
    BinaryFits(fp, op, A, B, 2, 2);
    FitsLittle(fp, BinaryExpr(op, A, B), 5);
  }

  /** `return a op b` ends as the operator says. */
  lemma TwoExact(fp: Arith, op: BinOp, v: Value, w: Value)
    ensures match ApplyBinary(fp, op, v, w) {
              case Ok(r) => Gives(fp, Two(op), [v, w], r)
              case Bad(e) => Fails(fp, Two(op), [v, w], e)
            }
  {
    hide Gives, Fails, Little, ApplyBinary;
    TwoLittle(fp, op);
    ReturnsExact(fp, BinaryExpr(op, A, B), v, w);
    ReadsTwo(fp, v, w);
  }

  /** Reading a parameter. */
  lemma ReadsTwo(fp: Arith, v: Value, w: Value)
    ensures Eval(fp, A, Both(v, w)) == Val(v, Both(v, w)) && Eval(fp, B, Both(v, w)) == Val(w, Both(v, w))
  {
  }
}
