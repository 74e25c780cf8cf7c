/** The source fragment and its meaning.

    Names are resolved lexically: an environment is a chain of scopes, each a map
    from names to their values.  Slots, jumps and the operand stack do not occur
    here. */
module Source {
  import opened Wrappers
  import opened Values

  /** A switch with more cases than this is not compiled beyond its scrutinee. */
  const MAX_CASES := 10000

  datatype AssignOp = Set | PlusSet | MinusSet

  function CompoundOp(op: AssignOp): BinOp { if op.PlusSet? then Add else Sub }

  datatype Expr =
    | Lit(v: Value)
    | Var(name: string)
    | BinaryExpr(op: BinOp, left: Expr, right: Expr)
    | UnaryExpr(uop: UnOp, operand: Expr)
    | Interp(head: string, pieces: seq<Piece>)
    | ArrayLit(elems: seq<Expr>)
    | IndexExpr(container: Expr, index: Expr)
    | Member(subject: Expr, property: string)
    | Assign(target: string, aop: AssignOp, value: Expr)
    | Destructure(targets: seq<string>, source: Expr)

  /** `${e}` and the literal text that follows it. */
  datatype Piece = Piece(e: Expr, text: string)

  datatype Stmt =
    | Block(body: seq<Stmt>)
    | Let(name: string, init: Option<Expr>)
    | If(cond: Expr, thn: Stmt, els: Option<Stmt>)
    | While(wcond: Expr, wbody: Stmt)
    | For(finit: ForInit, fcond: Option<Expr>, update: Option<Expr>, fbody: Stmt)
    | Switch(scrutinee: Expr, cases: seq<Case>, default: Option<Stmt>)
    | ExprStmt(e: Expr)
    | ReturnStmt(result: Option<Expr>)

  datatype ForInit = NoInit | LetInit(x: string, init: Option<Expr>) | ExprInit(e: Expr)

  datatype Case = Case(value: Expr, body: Stmt)

  /** `None` is a variable that is in scope but has not been given a value. */
  type Scope = map<string, Option<Value>>
  type Env = seq<Scope>

  // ----- environments -----

  /** The innermost declaration of `x`, if there is one. */
  function Lookup(env: Env, x: string): Option<Option<Value>> {
    if env == [] then None
    else
      var top := env[|env| - 1];
      if x in top then Some(top[x]) else Lookup(env[..|env| - 1], x)
  }

  /** Gives the innermost `x` the value `v`. */
  function Update(env: Env, x: string, v: Value): (r: Env)
    ensures |r| == |env|
  {
    if env == [] then []
    else
      var n := |env| - 1;
      if x in env[n] then env[..n] + [env[n][x := Some(v)]] else Update(env[..n], x, v) + [env[n]]
  }

  /** Brings fresh variables into the innermost scope, without values. */
  function Declare(env: Env, names: seq<string>): (r: Env)
    requires env != []
    ensures |r| == |env|
    decreases names
  {
    if names == [] then env
    else
      var n := |env| - 1;
      Declare(env[..n] + [env[n][names[0] := None]], names[1..])
  }

  function Enter(env: Env): Env { env + [map[]] }

  function Leave(env: Env): Env
    requires env != []
  {
    env[..|env| - 1]
  }

  /** Names a statement leaves in the scope it stands in, in textual order. */
  function Declared(s: Stmt): seq<string>
    decreases s, 1
  {
    match s
    case Let(x, _) => [x]
    case If(_, t, e) => Declared(t) + (if e.Some? then Declared(e.value) else [])
    case Switch(_, cases, _) => if |cases| > MAX_CASES then [] else DeclaredCases(s, 0)
    case _ => []
  }

  function DeclaredCases(s: Stmt, i: nat): seq<string>
    requires s.Switch? && i <= |s.cases|
    decreases s, 0, |s.cases| - i
  {
    if i < |s.cases| then Declared(s.cases[i].body) + DeclaredCases(s, i + 1)
    else if s.default.Some? then Declared(s.default.value)
    else []
  }

  // ----- expressions -----

  /** `Unspecified`: the program reads a variable that has no value, or a global. */
  datatype EvalResult =
    | Val(v: Value, env: Env)
    | Crash(fault: Fault)
    | Unspecified

  datatype EvalsResult =
    | Vals(vs: seq<Value>, env: Env)
    | Crashes(fault: Fault)
    | Unspecifieds

  function Lift(r: Result, env: Env): EvalResult {
    match r
    case Ok(v) => Val(v, env)
    case Bad(f) => Crash(f)
  }

  function Read(env: Env, x: string): EvalResult {
    var b := Lookup(env, x);
    if b.Some? && b.value.Some? then Val(b.value.value, env) else Unspecified
  }

  function Write(env: Env, x: string, v: Value): EvalResult {
    if Lookup(env, x).Some? then Val(v, Update(env, x, v)) else Unspecified
  }

  function LiteralValue(v: Value): Value {
    if v.Bool? || v.Num? || v.Str? then v else Nil
  }

  function Eval(fp: Arith, e: Expr, env: Env): (r: EvalResult)
    ensures r.Val? ==> |r.env| == |env|
    decreases e, 1
  {
    match e
    case Lit(v) => Val(LiteralValue(v), env)
    case Var(x) => Read(env, x)
    case BinaryExpr(op, l, r) =>
      var a := Eval(fp, l, env);
      if !a.Val? then a else
      var b := Eval(fp, r, a.env);
      if !b.Val? then b else Lift(ApplyBinary(fp, op, a.v, b.v), b.env)
    case UnaryExpr(op, x) =>
      var a := Eval(fp, x, env);
      if !a.Val? then a else Lift(ApplyUnary(fp, op, a.v), a.env)
    case Interp(head, pieces) => EvalPieces(fp, Str(head), pieces, env)
    case ArrayLit(es) =>
      match EvalAll(fp, es, env) {
        case Vals(vs, env') => Val(Arr(vs), env')
        case Crashes(f) => Crash(f)
        case Unspecifieds => Unspecified
      }
    case IndexExpr(x, i) =>
      var a := Eval(fp, x, env);
      if !a.Val? then a else
      var b := Eval(fp, i, a.env);
      if !b.Val? then b else Lift(Index(fp, a.v, b.v), b.env)
    case Member(x, p) =>
      var a := Eval(fp, x, env);
      if !a.Val? then a else Lift(GetProperty(fp, a.v, Str(p)), a.env)
    case Assign(x, op, r) =>
      if op.Set? then
        var b := Eval(fp, r, env);
        if !b.Val? then b else Write(b.env, x, b.v)
      else
        var a := Read(env, x);
        if !a.Val? then a else
        var b := Eval(fp, r, env);
        if !b.Val? then b else
        match ApplyBinary(fp, CompoundOp(op), a.v, b.v) {
          case Ok(v) => Write(b.env, x, v)
          case Bad(f) => Crash(f)
        }
    case Destructure(xs, r) =>
      var a := Eval(fp, r, env);
      if !a.Val? then a else EvalTargets(fp, a.v, xs, 0, a.env)
  }

  function EvalAll(fp: Arith, es: seq<Expr>, env: Env): (r: EvalsResult)
    ensures r.Vals? ==> |r.vs| == |es| && |r.env| == |env|
    decreases es, 0
  {
    if es == [] then Vals([], env)
    else
      match Eval(fp, es[0], env)
      case Crash(f) => Crashes(f)
      case Unspecified => Unspecifieds
      case Val(v, env') =>
        match EvalAll(fp, es[1..], env')
        case Vals(vs, env'') => Vals([v] + vs, env'')
        case other => other
  }

  /** Appends the interpolated pieces to the text `acc`. */
  function EvalPieces(fp: Arith, acc: Value, ps: seq<Piece>, env: Env): (r: EvalResult)
    ensures r.Val? ==> |r.env| == |env|
    decreases ps, 0
  {
    if ps == [] then Val(acc, env)
    else
      var a := Eval(fp, ps[0].e, env);
      if !a.Val? then a else
      var one := AddValues(fp, acc, Str(ToText(fp, a.v)));
      if one.Bad? then Crash(one.fault) else
      var two := AddValues(fp, one.v, Str(ps[0].text));
      if two.Bad? then Crash(two.fault) else
      EvalPieces(fp, two.v, ps[1..], a.env)
  }

  /** Assigns element `i`, `i + 1`, ... of `v` to the targets in turn. */
  function EvalTargets(fp: Arith, v: Value, xs: seq<string>, i: nat, env: Env): (r: EvalResult)
    ensures r.Val? ==> |r.env| == |env|
  {
    if xs == [] then Val(v, env)
    else
      match Index(fp, v, Num(fp.ofInt(i)))
      case Bad(f) => Crash(f)
      case Ok(elem) =>
        var w := Write(env, xs[0], elem);
        if !w.Val? then w else EvalTargets(fp, v, xs[1..], i + 1, w.env)
  }

  // ----- statements -----

  datatype ExecResult =
    | Normal(env: Env)
    | Returned(v: Value)
    | Failed(fault: Fault)
    | Stuck         // unspecified behaviour
    | OutOfFuel     // some loop has made `fuel` iterations

  function FromEval(r: EvalResult): ExecResult {
    match r
    case Val(_, env) => Normal(env)
    case Crash(f) => Failed(f)
    case Unspecified => Stuck
  }

  function Exec(fp: Arith, s: Stmt, env: Env, fuel: nat): (r: ExecResult)
    requires env != []
    ensures r.Normal? ==> |r.env| == |env|
    decreases fuel, s, 1
  {
    match s
    case Block(ss) =>
      var r := ExecAll(fp, ss, Enter(env), fuel);
      if r.Normal? then Normal(Leave(r.env)) else r
    case Let(x, init) => ExecLet(fp, x, init, env)
    case If(c, t, e) =>
      var a := Eval(fp, c, env);
      if !a.Val? then FromEval(a)
      else if BranchFalsy(fp, a.v) then
        var env' := Declare(a.env, Declared(t));
        if e.Some? then Exec(fp, e.value, env', fuel) else Normal(env')
      else
        var r := Exec(fp, t, a.env, fuel);
        if r.Normal? && e.Some? then Normal(Declare(r.env, Declared(e.value))) else r
    case While(c, body) => ExecLoop(fp, Some(c), None, body, env, fuel)
    case For(init, c, u, body) =>
      var a := ExecInit(fp, init, Enter(env));
      if !a.Normal? then a else
      var r := ExecLoop(fp, c, u, body, a.env, fuel);
      if r.Normal? then Normal(Leave(r.env)) else r
    case Switch(v, _, _) =>
      var a := Eval(fp, v, env);
      if !a.Val? then FromEval(a) else ExecCases(fp, a.v, s, 0, a.env, fuel)
    case ExprStmt(e) =>
      FromEval(Eval(fp, e, env))
    case ReturnStmt(r) =>
      if r.None? then Returned(Nil) else
      var a := Eval(fp, r.value, env);
      if a.Val? then Returned(a.v) else FromEval(a)
  }

  function ExecAll(fp: Arith, ss: seq<Stmt>, env: Env, fuel: nat): (r: ExecResult)
    requires env != []
    ensures r.Normal? ==> |r.env| == |env|
    decreases fuel, ss, 1
  {
    if ss == [] then Normal(env)
    else
      var r := Exec(fp, ss[0], env, fuel);
      if r.Normal? then ExecAll(fp, ss[1..], r.env, fuel) else r
  }

  /** The new name is already in scope while its initializer runs. */
  function ExecLet(fp: Arith, x: string, init: Option<Expr>, env: Env): (r: ExecResult)
    requires env != []
    ensures r.Normal? ==> |r.env| == |env|
  {
    var env' := Declare(env, [x]);
    if init.None? then Normal(Update(env', x, Nil))
    else
      var a := Eval(fp, init.value, env');
      if a.Val? then Normal(Update(a.env, x, a.v)) else FromEval(a)
  }

  function ExecInit(fp: Arith, init: ForInit, env: Env): (r: ExecResult)
    requires env != []
    ensures r.Normal? ==> |r.env| == |env|
  {
    match init
    case NoInit => Normal(env)
    case LetInit(x, e) => ExecLet(fp, x, e, env)
    case ExprInit(e) => FromEval(Eval(fp, e, env))
  }

  /** A loop body that is not a block gets a scope of its own all the same. */
  function ExecBody(fp: Arith, body: Stmt, env: Env, fuel: nat): (r: ExecResult)
    requires env != []
    ensures r.Normal? ==> |r.env| == |env|
    decreases fuel, body, 2
  {
    if body.Block? then Exec(fp, body, env, fuel)
    else
      var r := Exec(fp, body, Enter(env), fuel);
      if r.Normal? then Normal(Leave(r.env)) else r
  }

  function ExecLoop(fp: Arith, c: Option<Expr>, u: Option<Expr>, body: Stmt, env: Env, fuel: nat): (r: ExecResult)
    requires env != []
    ensures r.Normal? ==> |r.env| == |env|
    decreases fuel, body, 4
  {
    if fuel == 0 then OutOfFuel else
    if c.Some? then
      var a := Eval(fp, c.value, env);
      if !a.Val? then FromEval(a)
      else if BranchFalsy(fp, a.v) then Normal(a.env)
      else ExecIteration(fp, c, u, body, a.env, fuel)
    else ExecIteration(fp, c, u, body, env, fuel)
  }

  /** Body, update, and the rest of the loop. */
  function ExecIteration(fp: Arith, c: Option<Expr>, u: Option<Expr>, body: Stmt, env: Env, fuel: nat): (r: ExecResult)
    requires env != [] && fuel > 0
    ensures r.Normal? ==> |r.env| == |env|
    decreases fuel, body, 3
  {
    var b := ExecBody(fp, body, env, fuel);
    if !b.Normal? then b
    else if u.None? then ExecLoop(fp, c, u, body, b.env, fuel - 1)
    else
      var d := FromEval(Eval(fp, u.value, b.env));
      if !d.Normal? then d else ExecLoop(fp, c, u, body, d.env, fuel - 1)
  }

  /** Cases from `i` on, tried in order against the value `v`. */
  function ExecCases(fp: Arith, v: Value, s: Stmt, i: nat, env: Env, fuel: nat): (r: ExecResult)
    requires env != [] && s.Switch? && i <= |s.cases|
    ensures r.Normal? ==> |r.env| == |env|
    decreases fuel, s, 0, |s.cases| - i
  {
    if i == |s.cases| then
      if s.default.Some? then Exec(fp, s.default.value, env, fuel) else Normal(env)
    else
      var a := Eval(fp, s.cases[i].value, env);
      if !a.Val? then FromEval(a)
      else if ValuesEqual(fp, v, a.v) then
        var r := Exec(fp, s.cases[i].body, a.env, fuel);
        if r.Normal? then Normal(Declare(r.env, DeclaredCases(s, i + 1))) else r
      else ExecCases(fp, v, s, i + 1, Declare(a.env, Declared(s.cases[i].body)), fuel)
  }

  // ----- functions -----

  datatype Function = Function(params: seq<string>, body: seq<Stmt>)

  /** Parameters take the arguments in order; missing ones are nil. */
  function Bind(params: seq<string>, args: seq<Value>): (r: Env)
    ensures |r| == 1
  {
    if params == [] then [map[]]
    else
      var n := |params| - 1;
      Update(Declare(Bind(params[..n], args), [params[n]]), params[n], if n < |args| then args[n] else Nil)
  }

  /** Runs a whole function; falling off the end returns nil. */
  function Call(fp: Arith, f: Function, args: seq<Value>, fuel: nat): ExecResult {
    var r := ExecAll(fp, f.body, Bind(f.params, args), fuel);
    if r.Normal? then Returned(Nil) else r
  }
}
