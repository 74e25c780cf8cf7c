/** What conditions, switches, loops and scopes mean to a program. */
module Conditions {
  import opened Wrappers
  import opened Values
  import opened Bytecode
  import opened Source
  import opened CodeGen
  import opened Typing
  import opened TypedCode
  import opened Machine
  import opened Lockstep
  import opened Boundaries
  import opened Correctness
  import opened LoopFrees
  import opened SmallPrograms
  import opened Operators

  const YES: Stmt := ReturnStmt(Some(Lit(Bool(true))))
  const NO: Stmt := ReturnStmt(Some(Lit(Bool(false))))
  const CHOICE: Stmt := If(A, YES, Some(NO))

  /** `if (a) return true else return false` */
  const CHOOSE: Function := Function(PARAMS, [CHOICE])

  lemma ArmCode(fp: Arith, k: nat)
    ensures GenStmt(fp, YES, PARAMS, k) == Cat(One(PushTrue, 0), One(Return, 1))
    ensures GenStmt(fp, NO, PARAMS, k) == Cat(One(PushFalse, 0), One(Return, 1))
    ensures |GenExpr(fp, A, PARAMS, k, 0).code| == 2 && GenExpr(fp, A, PARAMS, k, 0).consts == []
  {
    hide Opcode, Operand, InstrMarks;
    FirstLocal();
  }

  lemma ConditionalSize(cc: Frag, tt: Frag, ee: Frag)
    ensures |Conditional(cc, tt, ee).code| == |cc.code| + |tt.code| + |ee.code| + 8
  {
    hide Encode, InstrMarks;
  }

  lemma ChoiceShape(fp: Arith)
    ensures GenStmt(fp, CHOICE, PARAMS, 0)
         == Conditional(GenExpr(fp, A, PARAMS, 0, 0), GenStmt(fp, YES, PARAMS, 0), GenStmt(fp, NO, PARAMS, 0))
    ensures JumpsFit(fp, CHOICE, PARAMS, 0)
  {
    hide GenExpr, One, Cat, GenValue, Conditional;
    ArmCode(fp, 0);
    ArmSizes();
    assert PARAMS + Declared(YES) == PARAMS;
  }

  lemma ArmSizes()
    ensures |Cat(One(PushTrue, 0), One(Return, 1)).code| == 2 && |Cat(One(PushFalse, 0), One(Return, 1)).code| == 2
    ensures Cat(One(PushTrue, 0), One(Return, 1)).consts == [] && Cat(One(PushFalse, 0), One(Return, 1)).consts == []
  {
  }

  lemma ChoiceCode(fp: Arith)
    ensures |GenStmt(fp, CHOICE, PARAMS, 0).code| == 14 && GenStmt(fp, CHOICE, PARAMS, 0).consts == []
  {
    hide *;
    ArmCode(fp, 0);
    ArmSizes();
    ChoiceShape(fp);
    ConditionalSize(GenExpr(fp, A, PARAMS, 0, 0), GenStmt(fp, YES, PARAMS, 0), GenStmt(fp, NO, PARAMS, 0));
  }

  lemma ChoiceParts(fp: Arith)
    ensures |GenStmts(fp, CHOOSE.body, PARAMS, 0).code| == 14 && GenStmts(fp, CHOOSE.body, PARAMS, 0).consts == []
    ensures PeakAll(CHOOSE.body, 2) == 2 && AllJumpsFit(fp, CHOOSE.body, PARAMS, 0) && NeedStmts(CHOOSE.body) == 1
  {
    hide GenStmt;
    var ss := CHOOSE.body;
    assert ss[1..] == [];
    ChoiceCode(fp);
    ChoiceShape(fp);
    assert AllJumpsFit(fp, [], PARAMS + Declared(CHOICE), 0 + |GenStmt(fp, CHOICE, PARAMS, 0).consts|);
    assert GenStmts(fp, [], PARAMS + Declared(CHOICE), 0) == Empty;
  }

  lemma ChooseRunnable(fp: Arith, v: Value, w: Value)
    ensures Runnable(fp, CHOOSE, [v, w]) && |Compile(fp, CHOOSE).code| <= 100000 && NoLoops(CHOOSE)
  {
    hide GenStmts, PeakAll, AllJumpsFit, NeedStmts;
    ChoiceParts(fp);
    assert SmallStmt(CHOICE, Single);
    assert LoopFree(CHOICE);
  }

  lemma ChooseCall(fp: Arith, v: Value, w: Value, fuel: nat)
    ensures Call(fp, CHOOSE, [v, w], fuel) == Returned(Bool(!BranchFalsy(fp, v)))
  {
    hide Bind, Declare, BranchFalsy;
    var env := Both(v, w);
    Reads(v, w);
    ReadsTwo(fp, v, w);
    assert Exec(fp, CHOICE, env, fuel) == Returned(Bool(!BranchFalsy(fp, v)));
    assert ExecAll(fp, CHOOSE.body, env, fuel) == Exec(fp, CHOICE, env, fuel);
  }

  /** A condition is false for nil, for false and, unlike for the logical operators, for the number
      zero; it is true for all else, the empty string and the empty array included. */
  lemma ConditionsDecide(fp: Arith, v: Value, w: Value)
    ensures var no := v == Nil || v == Bool(false) || (v.Num? && fp.eq(v.n, fp.zero));
            Gives(fp, CHOOSE, [v, w], Bool(!no))
  {
    hide Compile, Call, Runnable, AvatarRun, AvatarStart, NoLoops;
    ChooseRunnable(fp, v, w);
    forall fuel: nat
      ensures Call(fp, CHOOSE, [v, w], fuel) == Returned(Bool(!BranchFalsy(fp, v)))
    {
      ChooseCall(fp, v, w, fuel);
    }
    LoopFreeExact(fp, CHOOSE, [v, w], 0);
  }

  // ----- switch -----

  const FIRST: Stmt := ReturnStmt(Some(Lit(Str("first"))))
  const SECOND: Stmt := ReturnStmt(Some(Lit(Str("second"))))
  const THIRD: Stmt := ReturnStmt(Some(Lit(Str("third"))))
  const PICKING: Stmt := Switch(A, [Case(B, FIRST), Case(A, SECOND)], Some(THIRD))

  /** `switch (a) { case b: return "first" case a: return "second" default: return "third" }` */
  const PICK: Function := Function(PARAMS, [PICKING])

  /** The first case whose value is the same runs, and the default if there is none. */
  lemma SwitchPicks(fp: Arith, v: Value, w: Value, fuel: nat)
    ensures Call(fp, PICK, [v, w], fuel)
         == Returned(Str(if Same(fp, v, w) then "first" else if Same(fp, v, v) then "second" else "third"))
  {
    hide Bind, Eval;
    var env := Both(v, w);
    Reads(v, w);
    ReadsTwo(fp, v, w);
    TextMeaning(fp, env);
    assert Declare(env, []) == env && Declared(FIRST) == [] && Declared(SECOND) == [];
    assert ExecCases(fp, v, PICKING, 2, env, fuel) == Returned(Str("third"));
    assert ExecCases(fp, v, PICKING, 1, env, fuel)
        == Returned(Str(if Same(fp, v, v) then "second" else "third"));
    assert ExecCases(fp, v, PICKING, 0, env, fuel)
        == Returned(Str(if Same(fp, v, w) then "first" else if Same(fp, v, v) then "second" else "third"));
    assert Exec(fp, PICKING, env, fuel) == ExecCases(fp, v, PICKING, 0, env, fuel);
    assert ExecAll(fp, PICK.body, env, fuel) == Exec(fp, PICKING, env, fuel);
  }

  lemma TextMeaning(fp: Arith, env: Env)
    ensures Eval(fp, Lit(Str("first")), env) == Val(Str("first"), env)
    ensures Eval(fp, Lit(Str("second")), env) == Val(Str("second"), env)
    ensures Eval(fp, Lit(Str("third")), env) == Val(Str("third"), env)
  {
  }

  // ----- loops -----

  const TEST: Expr := BinaryExpr(Le, Var("i"), Var("n"))
  const STEP: Expr := Assign("i", PlusSet, Lit(Num(1)))
  const GROW: Stmt := ExprStmt(Assign("s", PlusSet, Var("i")))

  /** `let s = 0; for (let i = 1; i <= n; i += 1) s += i; return s` */
  const SUM: Function := Function(["n"],
    [Let("s", Some(Lit(Num(0)))), For(LetInit("i", Some(Lit(Num(1)))), Some(TEST), Some(STEP), GROW),
     ReturnStmt(Some(Var("s")))])

  /** The variables inside the loop. */
  function Inside(n: int, s: int, i: int): Env {
    [map["n" := Some(Num(n)), "s" := Some(Num(s))], map["i" := Some(Num(i))]]
  }

  lemma TestMeaning(n: int, s: int, i: int)
    ensures Eval(INTS, TEST, Inside(n, s, i)) == Val(Bool(i <= n), Inside(n, s, i))
  {
    var env := Inside(n, s, i);
    assert Read(env, "i") == Val(Num(i), env);
    assert env[..1] == [env[0]];
    assert Lookup([env[0]], "n") == Some(Some(Num(n)));
    assert Read(env, "n") == Val(Num(n), env);
  }

  lemma UpdateHere(env: Env, m: Scope, x: string, v: Value)
    requires x in m
    ensures Update(env + [m], x, v) == env + [m[x := Some(v)]] && Lookup(env + [m], x) == Some(m[x])
  {
    assert (env + [m])[..|env|] == env;
  }

  lemma UpdateBelow(env: Env, m: Scope, x: string, v: Value)
    requires x !in m
    ensures Update(env + [m], x, v) == Update(env, x, v) + [m] && Lookup(env + [m], x) == Lookup(env, x)
  {
    assert (env + [m])[..|env|] == env;
  }

  lemma StepMeaning(n: int, s: int, i: int)
    ensures FromEval(Eval(INTS, STEP, Inside(n, s, i))) == Normal(Inside(n, s, i + 1))
  {
    var env := Inside(n, s, i);
    assert env == [env[0]] + [env[1]];
    UpdateHere([env[0]], env[1], "i", Num(i + 1));
    assert env[1]["i" := Some(Num(i + 1))] == Inside(n, s, i + 1)[1];
    assert Update(env, "i", Num(i + 1)) == Inside(n, s, i + 1);
    assert Read(env, "i") == Val(Num(i), env);
  }

  lemma GrowMeaning(n: int, s: int, i: int, fuel: nat)
    ensures ExecBody(INTS, GROW, Inside(n, s, i), fuel) == Normal(Inside(n, s + i, i))
  {
    hide Lookup, Update;
    var env, after := Inside(n, s, i), Inside(n, s + i, i);
    assert env == [] + [env[0]] + [env[1]];
    UpdateHere([], env[0], "s", Num(s + i));
    UpdateBelow([env[0]], env[1], "s", Num(s + i));
    UpdateBelow(env, map[], "s", Num(s + i));
    UpdateHere([env[0]], env[1], "i", Num(0));
    UpdateBelow(env, map[], "i", Num(0));
    assert [] + [env[0]] == [env[0]];
    assert env[0]["s" := Some(Num(s + i))] == after[0];
    assert Read(Enter(env), "s") == Val(Num(s), Enter(env)) && Read(Enter(env), "i") == Val(Num(i), Enter(env));
    assert Update(Enter(env), "s", Num(s + i)) == Enter(after);
    assert Leave(Enter(after)) == after;
  }

  lemma {:induction false} SumLoop(n: nat, s: int, i: int, fuel: nat)
    requires 1 <= i <= n + 1 && fuel > n + 1 - i && 2 * s == i * (i - 1)
    ensures exists t :: 2 * t == n * (n + 1)
              && ExecLoop(INTS, Some(TEST), Some(STEP), GROW, Inside(n, s, i), fuel) == Normal(Inside(n, t, n + 1))
    decreases fuel
  {
    hide Eval, ExecBody;
    TestMeaning(n, s, i);
    if i <= n {
      GrowMeaning(n, s, i, fuel);
      StepMeaning(n, s + i, i);
      SumLoop(n, s + i, i + 1, fuel - 1);
      var rest := ExecLoop(INTS, Some(TEST), Some(STEP), GROW, Inside(n, s + i, i + 1), fuel - 1);
      var t :| 2 * t == n * (n + 1) && rest == Normal(Inside(n, t, n + 1));
      assert ExecLoop(INTS, Some(TEST), Some(STEP), GROW, Inside(n, s, i), fuel) == Normal(Inside(n, t, n + 1));
    } else {
      assert ExecLoop(INTS, Some(TEST), Some(STEP), GROW, Inside(n, s, i), fuel) == Normal(Inside(n, s, n + 1));
    }
  }

  const LOOP: Stmt := For(LetInit("i", Some(Lit(Num(1)))), Some(TEST), Some(STEP), GROW)

  lemma LoopMeaning(n: nat, fuel: nat)
    requires fuel > n
    ensures exists t :: 2 * t == n * (n + 1)
              && Exec(INTS, LOOP, [Inside(n, 0, 0)[0]], fuel) == Normal([Inside(n, t, 0)[0]])
  {
    hide Eval, ExecBody, ExecLoop, ExecLet;
    var outer := Inside(n, 0, 0)[0];
    LetMeaning([outer], map[], "i", 1);
    SumLoop(n, 0, 1, fuel);
    assert [outer] + [map["i" := Some(Num(1))]] == Inside(n, 0, 1);
    var t :| 2 * t == n * (n + 1)
      && ExecLoop(INTS, Some(TEST), Some(STEP), GROW, Inside(n, 0, 1), fuel) == Normal(Inside(n, t, n + 1));
    assert Leave(Inside(n, t, n + 1)) == [Inside(n, t, 0)[0]];
    assert Exec(INTS, LOOP, [outer], fuel) == Normal([Inside(n, t, 0)[0]]);
  }

  lemma LetMeaning(env: Env, m: Scope, x: string, c: int)
    ensures ExecLet(INTS, x, Some(Lit(Num(c))), env + [m]) == Normal(env + [m[x := Some(Num(c))]])
  {
    hide Update;
    assert (env + [m])[..|env|] == env && [x][1..] == [];
    assert Declare(env + [m], [x]) == Declare(env + [m[x := None]], []) == env + [m[x := None]];
    UpdateHere(env, m[x := None], x, Num(c));
    assert m[x := None][x := Some(Num(c))] == m[x := Some(Num(c))];
  }

  lemma OneParam(x: string, v: Value)
    ensures Bind([x], [v]) == [map[x := Some(v)]]
  {
    Bound([], x, [v], map[], v);
    assert [] + [x] == [x];
  }

  /** The first n whole numbers add up to n(n + 1)/2: the test comes before the body, the update
      after it, and what the body assigns outlives the loop. */
  lemma SumOfFirst(n: nat, fuel: nat)
    requires fuel > n
    ensures Call(INTS, SUM, [Num(n)], fuel) == Returned(Num(n * (n + 1) / 2))
  {
    hide Eval, Exec, ExecLet, Bind;
    var first: Scope := map["n" := Some(Num(n))];
    OneParam("n", Num(n));
    LetMeaning([], first, "s", 0);
    assert [] + [first] == [first] && [] + [Inside(n, 0, 0)[0]] == [Inside(n, 0, 0)[0]];
    LoopMeaning(n, fuel);
    var t :| 2 * t == n * (n + 1)
      && Exec(INTS, LOOP, [Inside(n, 0, 0)[0]], fuel) == Normal([Inside(n, t, 0)[0]]);
    assert SUM.body[1..][1..][1..] == [];
    StatementMeanings(n, t, fuel);
    var rest := SUM.body[1..];
    assert rest[0] == LOOP && rest[1..][0] == ReturnStmt(Some(Var("s")));
    assert ExecAll(INTS, rest[1..], [Inside(n, t, 0)[0]], fuel) == Returned(Num(t));
    assert ExecAll(INTS, rest, [Inside(n, 0, 0)[0]], fuel) == Returned(Num(t));
  }

  lemma StatementMeanings(n: int, t: int, fuel: nat)
    ensures Exec(INTS, ReturnStmt(Some(Var("s"))), [Inside(n, t, 0)[0]], fuel) == Returned(Num(t))
    ensures Exec(INTS, SUM.body[0], [map["n" := Some(Num(n))]], fuel)
         == ExecLet(INTS, "s", Some(Lit(Num(0))), [map["n" := Some(Num(n))]])
  {
    hide ExecLet;
  }

  // ----- scopes and assignments -----

  /** `{ let a = b } return a` and `let a = b return a` */
  const SHADOW: Function := Function(PARAMS, [Block([Let("a", Some(B))]), ReturnStmt(Some(A))])
  const REDECLARE: Function := Function(PARAMS, [Let("a", Some(B)), ReturnStmt(Some(A))])

  /** A variable of a block hides the outer one only inside the block; one of the same scope replaces it. */
  lemma ScopesHide(fp: Arith, v: Value, w: Value, fuel: nat)
    ensures Call(fp, SHADOW, [v, w], fuel) == Returned(v)
    ensures Call(fp, REDECLARE, [v, w], fuel) == Returned(w)
  {
    hide Bind, Eval, ExecLet, Enter, Leave;
    var env := Both(v, w);
    Reads(v, w);
    ReadsTwo(fp, v, w);
    ReadsTwo(fp, w, w);
    InnerLet(fp, v, w, fuel);
    LeaveAdded(env, map["a" := Some(w)]);
    var inner := [Let("a", Some(B))];
    assert inner[1..] == [];
    assert Exec(fp, inner[0], Enter(env), fuel) == Normal(env + [map["a" := Some(w)]]);
    assert ExecAll(fp, inner, Enter(env), fuel) == Normal(env + [map["a" := Some(w)]]);
    assert Exec(fp, SHADOW.body[0], env, fuel) == Normal(env);
    assert Exec(fp, REDECLARE.body[0], env, fuel) == Normal(Both(w, w));
    var back := [ReturnStmt(Some(A))];
    assert SHADOW.body[1..] == back && REDECLARE.body[1..] == back;
    assert ExecAll(fp, back, env, fuel) == Returned(v) && ExecAll(fp, back, Both(w, w), fuel) == Returned(w);
  }

  lemma LeaveAdded(env: Env, m: Scope)
    ensures Enter(env) == env + [map[]] && Leave(env + [m]) == env
  {
  }

  lemma InnerLet(fp: Arith, v: Value, w: Value, fuel: nat)
    ensures ExecLet(fp, "a", Some(B), Both(v, w) + [map[]]) == Normal(Both(v, w) + [map["a" := Some(w)]])
    ensures ExecLet(fp, "a", Some(B), Both(v, w)) == Normal(Both(w, w))
  {
    hide Update, Lookup, Declare;
    var m: Scope, empty: Scope, unset: Scope := Both(v, w)[0], map[], map["a" := None];
    assert empty["a" := None] == unset && unset["a" := Some(w)] == map["a" := Some(w)];
    assert m["a" := None]["a" := Some(w)] == Both(w, w)[0];
    assert Both(v, w) == [] + [m] && Both(w, w) == [] + [m["a" := None]["a" := Some(w)]];
    DeclareHere([], m, "a");
    DeclareHere(Both(v, w), empty, "a");
    UpdateHere([], m["a" := None], "a", w);
    UpdateHere([], m["a" := None], "b", w);
    UpdateHere([], m, "b", w);
    UpdateHere(Both(v, w), unset, "a", w);
    UpdateBelow(Both(v, w), unset, "b", w);
  }

  lemma DeclareHere(env: Env, m: Scope, x: string)
    ensures Declare(env + [m], [x]) == env + [m[x := None]]
  {
    assert (env + [m])[..|env|] == env && [x][1..] == [];
    assert Declare(env + [m[x := None]], []) == env + [m[x := None]];
  }

  /** `return`, and `let a return a` */
  const BARE: Function := Function([], [ReturnStmt(None)])
  const UNSET: Function := Function([], [Let("a", None), ReturnStmt(Some(A))])

  /** What is not given is nil: the result of a bare return, of a body without one, a variable
      without an initializer, and a parameter without an argument. */
  lemma NilByDefault(fp: Arith, v: Value, fuel: nat)
    ensures Call(fp, BARE, [], fuel) == Returned(Nil) && Call(fp, Function([], []), [], fuel) == Returned(Nil)
    ensures Call(fp, UNSET, [], fuel) == Returned(Nil)
    ensures Call(fp, Returns(A), [], fuel) == Returned(Nil) && Call(fp, Returns(B), [v], fuel) == Returned(Nil)
  {
    var empty: Env, here: Env := [map[]], [map["a" := Some(Nil)]];
    NilParts(v);
    assert Bind([], []) == empty && UNSET.body[1..] == [ReturnStmt(Some(A))];
    assert ExecAll(fp, UNSET.body[1..], here, fuel) == Returned(Nil);
    assert Exec(fp, UNSET.body[0], empty, fuel) == Normal(here);
    assert ExecAll(fp, BARE.body, empty, fuel) == Returned(Nil);
    assert ExecAll(fp, Returns(A).body, Both(Nil, Nil), fuel) == Returned(Nil);
    assert ExecAll(fp, Returns(B).body, Both(v, Nil), fuel) == Returned(Nil);
  }

  lemma NilParts(v: Value)
    ensures Declare([map[]], ["a"]) == [map["a" := None]]
    ensures Update([map["a" := None]], "a", Nil) == [map["a" := Some(Nil)]]
    ensures Bind(PARAMS, []) == Both(Nil, Nil) && Bind(PARAMS, [v]) == Both(v, Nil)
  {
    hide *;
    var none: Scope, unset: Scope := map[], map["a" := None];
    DeclareOne(none, "a");
    UpdateOne(unset, "a", Nil);
    assert none["a" := None] == unset && unset["a" := Some(Nil)] == map["a" := Some(Nil)];
    FewArguments([], Nil);
    FewArguments([v], v);
  }

  /** Binding fewer arguments than parameters. */
  lemma FewArguments(args: seq<Value>, v: Value)
    requires |args| <= 1 && v == if args == [] then Nil else args[0]
    ensures Bind(PARAMS, args) == Both(v, Nil)
  {
    hide Bind;
    var one: Scope := map["a" := Some(v)];
    NoneBound(args);
    assert [] + ["a"] == ["a"] && ["a"] + ["b"] == PARAMS;
    Bound([], "a", args, map[], v);
    Bound(["a"], "b", args, one, Nil);
  }

  const SWAPPED: Expr := ArrayLit([B, A])

  /** `[a, b] = [b, a] return [a, b]` */
  const SWAP: Function :=
    Function(PARAMS, [ExprStmt(Destructure(["a", "b"], SWAPPED)), ReturnStmt(Some(ArrayLit([A, B])))])

  /** The elements are taken before any of them is assigned, and each target gets the one of its
      position. */
  lemma SwapsBoth(v: Value, w: Value, fuel: nat)
    ensures Call(INTS, SWAP, [v, w], fuel) == Returned(Arr([w, v]))
  {
    hide Bind, Eval, EvalTargets, Update;
    var env, after := Both(v, w), Both(w, v);
    Reads(v, w);
    ReadsTwo(INTS, v, w);
    ReadsTwo(INTS, w, v);
    PairEval(INTS, B, A, env);
    PairEval(INTS, A, B, after);
    TargetsTake(v, w);
    DestructureEval(env, ["a", "b"], SWAPPED);
    var back := [ReturnStmt(Some(ArrayLit([A, B])))];
    assert SWAP.body[1..] == back;
    assert ExecAll(INTS, back, after, fuel) == Returned(Arr([w, v]));
    assert Exec(INTS, SWAP.body[0], env, fuel) == Normal(after);
  }

  lemma DestructureEval(env: Env, xs: seq<string>, r: Expr)
    requires Eval(INTS, r, env).Val?
    ensures var a := Eval(INTS, r, env);
            Eval(INTS, Destructure(xs, r), env) == EvalTargets(INTS, a.v, xs, 0, a.env)
  {
  }

  lemma TargetsTake(v: Value, w: Value)
    ensures var pair := Arr([w, v]);
            EvalTargets(INTS, pair, ["a", "b"], 0, Both(v, w)) == Val(pair, Both(w, v))
  {
    hide Update;
    var pair := Arr([w, v]);
    SetFirst(v, w, w);
    SetSecond(w, w, v);
    assert ["a", "b"][1..] == ["b"] && ["b"][1..] == [];
    assert EvalTargets(INTS, pair, [], 2, Both(w, v)) == Val(pair, Both(w, v));
    assert EvalTargets(INTS, pair, ["b"], 1, Both(w, w)) == Val(pair, Both(w, v));
  }

  lemma SetSecond(v: Value, w: Value, r: Value)
    ensures Update(Both(v, w), "b", r) == Both(v, r)
  {
    var env := Both(v, w);
    assert env[..0] + [env[0]["b" := Some(r)]] == [env[0]["b" := Some(r)]];
    assert env[0]["b" := Some(r)] == Both(v, r)[0];
  }
}
