/** The compiler's output is typed: balanced stack, sound jumps, slots in range. */
module TypedCode {
  import opened Wrappers
  import opened Values
  import opened Bytecode
  import opened Source
  import opened CodeGen
  import opened Typing

  // ----- how much operand stack a construct needs -----

  function Need(e: Expr): (r: nat)
    ensures r >= 1
    decreases e, 1
  {
    match e
    case Lit(_) => 1
    case Var(_) => 1
    case BinaryExpr(_, l, r) => Max(Need(l), 1 + Need(r))
    case UnaryExpr(_, x) => Need(x)
    case Interp(_, ps) => Max(1, 1 + NeedPieces(ps))
    case ArrayLit(es) => Max(1, NeedAll(es))
    case IndexExpr(x, i) => Max(Need(x), 1 + Need(i))
    case Member(x, _) => Max(Need(x), 2)
    case Assign(_, op, r) => if op.Set? then Need(r) else 1 + Need(r)
    case Destructure(_, r) => Max(Need(r), 3)
  }

  function NeedAll(es: seq<Expr>): nat
    decreases es, 0
  {
    if es == [] then 0 else Max(Need(es[0]), 1 + NeedAll(es[1..]))
  }

  function NeedPieces(ps: seq<Piece>): nat
    decreases ps, 0
  {
    if ps == [] then 0 else Max(Need(ps[0].e), NeedPieces(ps[1..]))
  }

  function NeedOpt(e: Option<Expr>): (r: nat)
    ensures r >= 1
  {
    if e.Some? then Need(e.value) else 1
  }

  function NeedStmt(s: Stmt): nat
    decreases s, 1
  {
    match s
    case Block(ss) => NeedStmts(ss)
    case Let(_, init) => NeedOpt(init)
    case If(c, t, e) => Max(Need(c), Max(NeedStmt(t), if e.Some? then NeedStmt(e.value) else 0))
    case While(c, body) => Max(Need(c), NeedStmt(body))
    case For(init, c, u, body) => Max(NeedInit(init), Max(NeedOpt(c), Max(NeedOpt(u), NeedStmt(body))))
    case Switch(v, _, _) => Max(Need(v), NeedCases(s, 0))
    case ExprStmt(e) => Need(e)
    case ReturnStmt(r) => NeedOpt(r)
  }

  function NeedInit(init: ForInit): nat {
    match init
    case NoInit => 0
    case LetInit(_, e) => NeedOpt(e)
    case ExprInit(e) => Need(e)
  }

  function NeedStmts(ss: seq<Stmt>): nat
    decreases ss, 1
  {
    if ss == [] then 0 else Max(NeedStmt(ss[0]), NeedStmts(ss[1..]))
  }

  function NeedCases(s: Stmt, i: nat): (r: nat)
    requires s.Switch? && i <= |s.cases|
    ensures r >= 1
    decreases s, 0, |s.cases| - i
  {
    if i < |s.cases| then Max(Max(2 + Need(s.cases[i].value), NeedStmt(s.cases[i].body)), NeedCases(s, i + 1))
    else Max(1, if s.default.Some? then NeedStmt(s.default.value) else 0)
  }

  /** Operand stack needed by a whole function. */
  function NeedFunction(f: Function): nat { Max(1, NeedStmts(f.body)) }

  // ----- limits the compiler does not check -----

  /** Element counts fit the one-byte operand of ARRAY. */
  predicate Small(e: Expr)
    decreases e, 1
  {
    match e
    case Lit(_) => true
    case Var(_) => true
    case BinaryExpr(_, l, r) => Small(l) && Small(r)
    case UnaryExpr(_, x) => Small(x)
    case Interp(_, ps) => forall p | p in ps :: Small(p.e)
    case ArrayLit(es) => |es| <= 255 && forall x | x in es :: Small(x)
    case IndexExpr(x, i) => Small(x) && Small(i)
    case Member(x, _) => Small(x)
    case Assign(_, _, r) => Small(r)
    case Destructure(_, r) => Small(r)
  }

  predicate SmallOpt(e: Option<Expr>) { e.Some? ==> Small(e.value) }

  predicate Admits(limit: CaseLimit, cases: nat) {
    match limit
    case Any => cases <= MAX_CASES
    case Single => cases <= 1
    case NoCase => cases == 0
  }

  /** Small expressions, and no switch with more cases than `limit` admits. */
  predicate SmallStmt(s: Stmt, limit: CaseLimit)
    decreases s
  {
    match s
    case Block(ss) => forall x | x in ss :: SmallStmt(x, limit)
    case Let(_, init) => SmallOpt(init)
    case If(c, t, e) => Small(c) && SmallStmt(t, limit) && (e.Some? ==> SmallStmt(e.value, limit))
    case While(c, body) => Small(c) && SmallStmt(body, limit)
    case For(init, c, u, body) =>
      && (init.LetInit? ==> SmallOpt(init.init)) && (init.ExprInit? ==> Small(init.e))
      && SmallOpt(c) && SmallOpt(u) && SmallStmt(body, limit)
    case Switch(v, cases, d) =>
      && Admits(limit, |cases|) && Small(v)
      && (forall c | c in cases :: Small(c.value) && SmallStmt(c.body, limit))
      && (d.Some? ==> SmallStmt(d.value, limit))
    case ExprStmt(e) => Small(e)
    case ReturnStmt(r) => SmallOpt(r)
  }

  // ----- expressions -----

  /** Room for `f` under `b`: its constants and the height `top`. */
  predicate Fits(b: Bounds, f: Frag, k: nat, top: nat) {
    k + |f.consts| <= b.consts && top <= b.height
  }

  predicate Sane(b: Bounds, L: seq<string>) {
    b.consts <= 0x100 && |L| <= b.locals <= 0x100
  }

  lemma SpansPush(b: Bounds, v: Value, k: nat, h: nat)
    requires b.consts <= 0x100 && k < b.consts && h <= b.height
    ensures Spans(b, Push(v, k, h), h, h + 1)
  {
    hide Spans;
    SpansOne(b, Constant(k), h, h + 1);
    SpansConsts(b, One(Constant(k), h), [v], h, h + 1);
  }

  lemma SpansLoad(b: Bounds, L: seq<string>, x: string, k: nat, h: nat)
    requires Sane(b, L) && Fits(b, Load(L, x, k, h), k, h)
    ensures Spans(b, Load(L, x, k, h), h, h + 1)
  {
    hide Spans, One, Encode;
    if Resolve(L, x) >= 0 {
      SpansOne(b, GetLocal(Resolve(L, x)), h, h + 1);
    } else {
      SpansOne(b, GetGlobal(k), h, h + 1);
      SpansConsts(b, One(GetGlobal(k), h), [Str(x)], h, h + 1);
    }
  }

  lemma SpansStore(b: Bounds, L: seq<string>, x: string, k: nat, h: nat)
    requires Sane(b, L) && Fits(b, Store(L, x, k, h), k, h) && h >= 1
    ensures Spans(b, Store(L, x, k, h), h, h)
  {
    hide Spans, One, Encode;
    if Resolve(L, x) >= 0 {
      SpansOne(b, SetLocal(Resolve(L, x)), h, h);
    } else {
      SpansOne(b, SetGlobal(k), h, h);
      SpansConsts(b, One(SetGlobal(k), h), [Str(x)], h, h);
    }
  }

  lemma SpansLiteral(b: Bounds, v: Value, k: nat, h: nat)
    requires b.consts <= 0x100 && Fits(b, GenLiteral(v, k, h), k, h)
    ensures Spans(b, GenLiteral(v, k, h), h, h + 1)
  {
    hide Spans, One, Push, Encode;
    if v.Num? || v.Str? {
      SpansPush(b, v, k, h);
    } else {
      SpansOne(b, if v.Bool? then (if v.b then PushTrue else PushFalse) else PushNil, h, h + 1);
    }
  }

  /** `f`, then one instruction. */
  lemma SpansThen(b: Bounds, f: Frag, i: Instr, h0: nat, h: nat, h1: nat)
    requires Spans(b, f, h0, h) && h <= b.height
    requires i.Unary? || i.ToString? || i.Array? || i.Binary? || i.ArrayGet? || i.ObjectGet?
    requires Pops(i) <= h && h1 == h - Pops(i) + 1
    ensures Spans(b, Cat(f, One(i, h)), h0, h1)
  {
    hide Spans, One, Encode;
    SpansOne(b, i, h, h1);
    SpansCat(b, f, One(i, h), h0, h, h1);
  }

  // ----- expressions -----

  predicate ExprPre(b: Bounds, fp: Arith, e: Expr, L: seq<string>, k: nat, h: nat) {
    Sane(b, L) && Small(e) && Fits(b, GenExpr(fp, e, L, k, h), k, h + Need(e))
  }

  /** Code for an expression started at height `h` ends at height `h + 1`. */
  lemma {:induction false} SpansExpr(b: Bounds, fp: Arith, e: Expr, L: seq<string>, k: nat, h: nat)
    requires ExprPre(b, fp, e, L, k, h)
    ensures Spans(b, GenExpr(fp, e, L, k, h), h, h + 1)
    decreases e, 2
  {
    if e.Lit? { SpansLiteral(b, e.v, k, h); }
    else if e.Var? { SpansLoad(b, L, e.name, k, h); }
    else if e.BinaryExpr? { SpansBinary(b, fp, e, L, k, h); }
    else if e.UnaryExpr? { SpansUnary(b, fp, e, L, k, h); }
    else if e.Interp? { SpansInterp(b, fp, e, L, k, h); }
    else if e.ArrayLit? { SpansArray(b, fp, e, L, k, h); }
    else if e.IndexExpr? { SpansIndex(b, fp, e, L, k, h); }
    else if e.Member? { SpansMember(b, fp, e, L, k, h); }
    else if e.Assign? { SpansAssign(b, fp, e, L, k, h); }
    else { SpansDestructure(b, fp, e, L, k, h); }
  }

  lemma BinaryParts(b: Bounds, fp: Arith, e: Expr, L: seq<string>, k: nat, h: nat)
    requires e.BinaryExpr? && ExprPre(b, fp, e, L, k, h)
    ensures var x := GenExpr(fp, e.left, L, k, h);
            var y := GenExpr(fp, e.right, L, k + |x.consts|, h + 1);
            && GenExpr(fp, e, L, k, h) == Cat(x, Cat(y, One(Binary(e.op), h + 2)))
            && ExprPre(b, fp, e.left, L, k, h)
            && ExprPre(b, fp, e.right, L, k + |x.consts|, h + 1)
            && h + 2 <= b.height
  {
    hide GenExpr, GenPieces, GenAll, GenTargets, One, Cat, Encode, Push, Load, Store, Resolve;
    BinaryCode(fp, e, L, k, h);
  }

  lemma {:induction false} SpansBinary(b: Bounds, fp: Arith, e: Expr, L: seq<string>, k: nat, h: nat)
    requires e.BinaryExpr? && ExprPre(b, fp, e, L, k, h)
    ensures Spans(b, GenExpr(fp, e, L, k, h), h, h + 1)
    decreases e, 1
  {
    hide Spans, One, Encode, Cat, GenExpr, ExprPre;
    BinaryParts(b, fp, e, L, k, h);
    var x := GenExpr(fp, e.left, L, k, h);
    var y := GenExpr(fp, e.right, L, k + |x.consts|, h + 1);
    SpansExpr(b, fp, e.left, L, k, h);
    SpansExpr(b, fp, e.right, L, k + |x.consts|, h + 1);
    SpansThen(b, y, Binary(e.op), h + 1, h + 2, h + 1);
    SpansCat(b, x, Cat(y, One(Binary(e.op), h + 2)), h, h + 1, h + 1);
  }

  lemma {:induction false} SpansUnary(b: Bounds, fp: Arith, e: Expr, L: seq<string>, k: nat, h: nat)
    requires e.UnaryExpr? && ExprPre(b, fp, e, L, k, h)
    ensures Spans(b, GenExpr(fp, e, L, k, h), h, h + 1)
    decreases e, 1
  {
    hide GenExpr, Spans, One, Encode, Cat;
    UnaryCode(fp, e, L, k, h);
    SpansExpr(b, fp, e.operand, L, k, h);
    SpansThen(b, GenExpr(fp, e.operand, L, k, h), Unary(e.uop), h, h + 1, h + 1);
  }

  lemma InterpParts(b: Bounds, fp: Arith, e: Expr, L: seq<string>, k: nat, h: nat)
    requires e.Interp? && ExprPre(b, fp, e, L, k, h)
    ensures GenExpr(fp, e, L, k, h) == Cat(Push(Str(e.head), k, h), GenPieces(fp, e.pieces, L, k + 1, h + 1))
    ensures Sane(b, L) && (forall p | p in e.pieces :: Small(p.e))
    ensures k < b.consts && Fits(b, GenPieces(fp, e.pieces, L, k + 1, h + 1), k + 1, h + 1 + NeedPieces(e.pieces))
  {
    hide GenExpr, GenPieces, GenAll, GenTargets, One, Cat, Encode, Push, Load, Store, Resolve;
    InterpCode(fp, e, L, k, h);
  }

  lemma {:induction false} SpansInterp(b: Bounds, fp: Arith, e: Expr, L: seq<string>, k: nat, h: nat)
    requires e.Interp? && ExprPre(b, fp, e, L, k, h)
    ensures Spans(b, GenExpr(fp, e, L, k, h), h, h + 1)
    decreases e, 1
  {
    hide Spans, One, Encode, Cat, Push, Load, Store, GenExpr, ExprPre, GenPieces, NeedPieces, Small;
    InterpParts(b, fp, e, L, k, h);
    SpansPush(b, Str(e.head), k, h);
    SpansPieces(b, fp, e.pieces, L, k + 1, h + 1);
    SpansCat(b, Push(Str(e.head), k, h), GenPieces(fp, e.pieces, L, k + 1, h + 1), h, h + 1, h + 1);
  }

  lemma ArrayParts(b: Bounds, fp: Arith, e: Expr, L: seq<string>, k: nat, h: nat)
    requires e.ArrayLit? && ExprPre(b, fp, e, L, k, h)
    ensures var f := GenAll(fp, e.elems, L, k, h);
            && |e.elems| <= 255
            && GenExpr(fp, e, L, k, h) == Cat(f, One(Array(|e.elems|), h + |e.elems|))
            && Fits(b, f, k, h + NeedAll(e.elems))
    ensures Sane(b, L) && (forall x | x in e.elems :: Small(x))
  {
    hide GenExpr, GenPieces, GenAll, GenTargets, One, Cat, Encode, Push, Load, Store, Resolve;
    ArrayCode(fp, e, L, k, h);
  }

  lemma {:induction false} SpansArray(b: Bounds, fp: Arith, e: Expr, L: seq<string>, k: nat, h: nat)
    requires e.ArrayLit? && ExprPre(b, fp, e, L, k, h)
    ensures Spans(b, GenExpr(fp, e, L, k, h), h, h + 1)
    decreases e, 1
  {
    hide Spans, One, Encode, Cat, Push, Load, Store, GenExpr, ExprPre, GenAll, Small;
    ArrayParts(b, fp, e, L, k, h);
    NeedAllElements(e.elems);
    SpansAll(b, fp, e.elems, L, k, h);
    SpansThen(b, GenAll(fp, e.elems, L, k, h), Array(|e.elems|), h, h + |e.elems|, h + 1);
  }

  lemma NeedAllElements(es: seq<Expr>)
    ensures NeedAll(es) >= |es|
  {
  }

  lemma IndexParts(b: Bounds, fp: Arith, e: Expr, L: seq<string>, k: nat, h: nat)
    requires e.IndexExpr? && ExprPre(b, fp, e, L, k, h)
    ensures var x := GenExpr(fp, e.container, L, k, h);
            var y := GenExpr(fp, e.index, L, k + |x.consts|, h + 1);
            && GenExpr(fp, e, L, k, h) == Cat(x, Cat(y, One(ArrayGet, h + 2)))
            && ExprPre(b, fp, e.container, L, k, h)
            && ExprPre(b, fp, e.index, L, k + |x.consts|, h + 1)
            && h + 2 <= b.height
  {
    hide GenExpr, GenPieces, GenAll, GenTargets, One, Cat, Encode, Push, Load, Store, Resolve;
    IndexCode(fp, e, L, k, h);
  }

  lemma {:induction false} SpansIndex(b: Bounds, fp: Arith, e: Expr, L: seq<string>, k: nat, h: nat)
    requires e.IndexExpr? && ExprPre(b, fp, e, L, k, h)
    ensures Spans(b, GenExpr(fp, e, L, k, h), h, h + 1)
    decreases e, 1
  {
    hide Spans, One, Encode, Cat, Push, Load, Store, GenExpr, ExprPre, GenPieces, GenAll, GenTargets, Need, Small,
      Resolve;
    IndexParts(b, fp, e, L, k, h);
    var x := GenExpr(fp, e.container, L, k, h);
    var y := GenExpr(fp, e.index, L, k + |x.consts|, h + 1);
    SpansExpr(b, fp, e.container, L, k, h);
    SpansExpr(b, fp, e.index, L, k + |x.consts|, h + 1);
    SpansThen(b, y, ArrayGet, h + 1, h + 2, h + 1);
    SpansCat(b, x, Cat(y, One(ArrayGet, h + 2)), h, h + 1, h + 1);
  }

  lemma MemberParts(b: Bounds, fp: Arith, e: Expr, L: seq<string>, k: nat, h: nat)
    requires e.Member? && ExprPre(b, fp, e, L, k, h)
    ensures var x := GenExpr(fp, e.subject, L, k, h);
            var key := Push(Str(e.property), k + |x.consts|, h + 1);
            && GenExpr(fp, e, L, k, h) == Cat(x, Cat(key, One(ObjectGet, h + 2)))
            && ExprPre(b, fp, e.subject, L, k, h)
            && k + |x.consts| < b.consts <= 0x100 && h + 2 <= b.height
  {
    hide GenExpr, GenPieces, GenAll, GenTargets, One, Cat, Encode, Push, Load, Store, Resolve;
    MemberCode(fp, e, L, k, h);
  }

  lemma {:induction false} SpansMember(b: Bounds, fp: Arith, e: Expr, L: seq<string>, k: nat, h: nat)
    requires e.Member? && ExprPre(b, fp, e, L, k, h)
    ensures Spans(b, GenExpr(fp, e, L, k, h), h, h + 1)
    decreases e, 1
  {
    hide Spans, One, Encode, Cat, Push, Load, Store, GenExpr, ExprPre, GenPieces, GenAll, GenTargets, Need, Small,
      Resolve;
    MemberParts(b, fp, e, L, k, h);
    var x := GenExpr(fp, e.subject, L, k, h);
    var key := Push(Str(e.property), k + |x.consts|, h + 1);
    SpansExpr(b, fp, e.subject, L, k, h);
    SpansPush(b, Str(e.property), k + |x.consts|, h + 1);
    SpansThen(b, key, ObjectGet, h + 1, h + 2, h + 1);
    SpansCat(b, x, Cat(key, One(ObjectGet, h + 2)), h, h + 1, h + 1);
  }

  lemma AssignParts(b: Bounds, fp: Arith, e: Expr, L: seq<string>, k: nat, h: nat)
    requires e.Assign? && ExprPre(b, fp, e, L, k, h)
    requires e.aop.Set?
    ensures var v := GenExpr(fp, e.value, L, k, h);
            var st := Store(L, e.target, k + |v.consts|, h + 1);
            && GenExpr(fp, e, L, k, h) == Cat(v, st)
            && ExprPre(b, fp, e.value, L, k, h)
            && Sane(b, L) && Fits(b, st, k + |v.consts|, h + 1)
  {
    hide GenExpr, GenPieces, GenAll, GenTargets, One, Cat, Encode, Push, Load, Store, Resolve;
    AssignCode(fp, e, L, k, h);
  }

  lemma CompoundParts(b: Bounds, fp: Arith, e: Expr, L: seq<string>, k: nat, h: nat)
    requires e.Assign? && ExprPre(b, fp, e, L, k, h)
    requires !e.aop.Set?
    ensures var a := Load(L, e.target, k, h);
            var v := GenExpr(fp, e.value, L, k + |a.consts|, h + 1);
            var st := Store(L, e.target, k + |a.consts| + |v.consts|, h + 1);
            && GenExpr(fp, e, L, k, h) == Cat(a, Cat(v, Cat(One(Binary(CompoundOp(e.aop)), h + 2), st)))
            && ExprPre(b, fp, e.value, L, k + |a.consts|, h + 1)
            && Sane(b, L) && Fits(b, a, k, h + 2) && Fits(b, st, k + |a.consts| + |v.consts|, h + 2)
  {
    hide GenExpr, GenPieces, GenAll, GenTargets, One, Cat, Encode, Push, Load, Store, Resolve;
    CompoundCode(fp, e, L, k, h);
  }

  lemma {:induction false} SpansAssign(b: Bounds, fp: Arith, e: Expr, L: seq<string>, k: nat, h: nat)
    requires e.Assign? && ExprPre(b, fp, e, L, k, h)
    ensures Spans(b, GenExpr(fp, e, L, k, h), h, h + 1)
    decreases e, 1
  {
    hide Spans, One, Encode, Cat, Push, Load, Store, GenExpr, ExprPre, GenPieces, GenAll, GenTargets, Need, Small,
      Resolve;
    if e.aop.Set? {
      AssignParts(b, fp, e, L, k, h);
      var v := GenExpr(fp, e.value, L, k, h);
      SpansExpr(b, fp, e.value, L, k, h);
      SpansStore(b, L, e.target, k + |v.consts|, h + 1);
      SpansCat(b, v, Store(L, e.target, k + |v.consts|, h + 1), h, h + 1, h + 1);
    } else {
      CompoundParts(b, fp, e, L, k, h);
      var a := Load(L, e.target, k, h);
      var v := GenExpr(fp, e.value, L, k + |a.consts|, h + 1);
      var op := One(Binary(CompoundOp(e.aop)), h + 2);
      var st := Store(L, e.target, k + |a.consts| + |v.consts|, h + 1);
      SpansLoad(b, L, e.target, k, h);
      SpansExpr(b, fp, e.value, L, k + |a.consts|, h + 1);
      SpansOne(b, Binary(CompoundOp(e.aop)), h + 2, h + 1);
      SpansStore(b, L, e.target, k + |a.consts| + |v.consts|, h + 1);
      SpansThree(b, v, op, st, h + 1, h + 2, h + 1, h + 1);
      SpansCat(b, a, Cat(v, Cat(op, st)), h, h + 1, h + 1);
    }
  }

  lemma DestructureParts(b: Bounds, fp: Arith, e: Expr, L: seq<string>, k: nat, h: nat)
    requires e.Destructure? && ExprPre(b, fp, e, L, k, h)
    ensures var a := GenExpr(fp, e.source, L, k, h);
            var t := GenTargets(fp, e.targets, 0, L, k + |a.consts|, h + 1);
            && GenExpr(fp, e, L, k, h) == Cat(a, t)
            && ExprPre(b, fp, e.source, L, k, h)
            && Sane(b, L) && Fits(b, t, k + |a.consts|, h + 3)
  {
    hide GenExpr, GenPieces, GenAll, GenTargets, One, Cat, Encode, Push, Load, Store, Resolve;
    DestructureCode(fp, e, L, k, h);
  }

  lemma {:induction false} SpansDestructure(b: Bounds, fp: Arith, e: Expr, L: seq<string>, k: nat, h: nat)
    requires e.Destructure? && ExprPre(b, fp, e, L, k, h)
    ensures Spans(b, GenExpr(fp, e, L, k, h), h, h + 1)
    decreases e, 1
  {
    hide Spans, One, Encode, Cat, Push, Load, Store, GenExpr, ExprPre, GenTargets, Small;
    DestructureParts(b, fp, e, L, k, h);
    var a := GenExpr(fp, e.source, L, k, h);
    SpansExpr(b, fp, e.source, L, k, h);
    SpansTargets(b, fp, e.targets, 0, L, k + |a.consts|, h + 1);
    SpansCat(b, a, GenTargets(fp, e.targets, 0, L, k + |a.consts|, h + 1), h, h + 1, h + 1);
  }

  lemma {:induction false} SpansAll(b: Bounds, fp: Arith, es: seq<Expr>, L: seq<string>, k: nat, h: nat)
    requires Sane(b, L) && (forall x | x in es :: Small(x))
    requires Fits(b, GenAll(fp, es, L, k, h), k, h + NeedAll(es))
    ensures Spans(b, GenAll(fp, es, L, k, h), h, h + |es|)
    decreases es, 0
  {
    hide Spans, GenExpr, Need, Small, Cat;
    if es == [] {
      SpansEmpty(b, h);
    } else {
      var a := GenExpr(fp, es[0], L, k, h);
      SpansExpr(b, fp, es[0], L, k, h);
      SpansAll(b, fp, es[1..], L, k + |a.consts|, h + 1);
      SpansCat(b, a, GenAll(fp, es[1..], L, k + |a.consts|, h + 1), h, h + 1, h + |es|);
    }
  }

  lemma {:induction false} SpansPieces(b: Bounds, fp: Arith, ps: seq<Piece>, L: seq<string>, k: nat, h: nat)
    requires Sane(b, L) && (forall p | p in ps :: Small(p.e)) && h >= 1
    requires Fits(b, GenPieces(fp, ps, L, k, h), k, h + NeedPieces(ps))
    ensures Spans(b, GenPieces(fp, ps, L, k, h), h, h)
    decreases ps, 0
  {
    hide Spans, Push, GenExpr, Need, Small, Cat, PieceArm;
    if ps == [] {
      SpansEmpty(b, h);
    } else {
      var a := GenExpr(fp, ps[0].e, L, k, h);
      var rest := GenPieces(fp, ps[1..], L, k + |a.consts| + 1, h);
      SpansExpr(b, fp, ps[0].e, L, k, h);
      SpansPieces(b, fp, ps[1..], L, k + |a.consts| + 1, h);
      SpansPush(b, Str(ps[0].text), k + |a.consts|, h);
      SpansPieceArm(b, a, Push(Str(ps[0].text), k + |a.consts|, h), rest, h);
    }
  }

  lemma SpansPieceArm(b: Bounds, a: Frag, text: Frag, rest: Frag, h: nat)
    requires Spans(b, a, h, h + 1) && Spans(b, text, h, h + 1) && Spans(b, rest, h, h) && 1 <= h < b.height
    ensures Spans(b, PieceArm(a, text, rest, h), h, h)
  {
    hide Spans, One, Cat, Encode;
    var join := One(Binary(Add), h + 1);
    var conv := One(ToString, h + 1);
    SpansOne(b, Binary(Add), h + 1, h);
    SpansOne(b, ToString, h + 1, h + 1);
    SpansThree(b, text, join, rest, h, h + 1, h, h);
    SpansThree(b, conv, join, Cat(text, Cat(join, rest)), h + 1, h + 1, h, h);
    SpansCat(b, a, Cat(conv, Cat(join, Cat(text, Cat(join, rest)))), h, h + 1, h);
  }

  lemma {:induction false} SpansTargets(b: Bounds, fp: Arith, xs: seq<string>, i: nat, L: seq<string>, k: nat, h: nat)
    requires Sane(b, L) && h >= 1
    requires Fits(b, GenTargets(fp, xs, i, L, k, h), k, h + 2)
    ensures Spans(b, GenTargets(fp, xs, i, L, k, h), h, h)
    decreases xs
  {
    hide Spans, Push, Store, Cat, TargetArm;
    if xs == [] {
      SpansEmpty(b, h);
    } else {
      var st := Store(L, xs[0], k + 1, h + 1);
      var rest := GenTargets(fp, xs[1..], i + 1, L, k + 1 + |st.consts|, h);
      SpansTargets(b, fp, xs[1..], i + 1, L, k + 1 + |st.consts|, h);
      SpansStore(b, L, xs[0], k + 1, h + 1);
      SpansPush(b, Num(fp.ofInt(i)), k, h + 1);
      SpansTargetArm(b, Push(Num(fp.ofInt(i)), k, h + 1), st, rest, h);
    }
  }

  lemma SpansTargetArm(b: Bounds, index: Frag, st: Frag, rest: Frag, h: nat)
    requires Spans(b, index, h + 1, h + 2) && Spans(b, st, h + 1, h + 1) && Spans(b, rest, h, h)
    requires 1 <= h && h + 2 <= b.height
    ensures Spans(b, TargetArm(index, st, rest, h), h, h)
  {
    hide Spans, One, Cat, Encode;
    var dup, get, pop := One(Dup, h), One(ArrayGet, h + 2), One(Pop, h + 1);
    SpansOne(b, Pop, h + 1, h);
    SpansOne(b, ArrayGet, h + 2, h + 1);
    SpansOne(b, Dup, h, h + 1);
    SpansThree(b, st, pop, rest, h + 1, h + 1, h, h);
    SpansThree(b, index, get, Cat(st, Cat(pop, rest)), h + 1, h + 2, h + 1, h);
    SpansCat(b, dup, Cat(index, Cat(get, Cat(st, Cat(pop, rest)))), h, h + 1, h);
  }

  // ----- jumps -----

  /** A jump that stands at `off` in `t` and lands well. */
  lemma JumpOkAt(b: Bounds, i: Instr, t: Frag, end: int, off: nat, h: nat)
    requires i.Jump? || i.Loop? || i.JumpIfFalse?
    requires Occurs(One(i, h), t, off) && h <= b.height
    requires InstrOk(b, i, t.code, t.marks + [end], off + 3, h)
    ensures RangeOk(b, t, end, off, off + 3)
  {
    hide InstrOk, Encode, One, Decode;
    var one := One(i, h);
    OccursAt(one, t, off, 0);
    OccursAt(one, t, off, 1);
    OccursAt(one, t, off, 2);
    DecodeEncode(t.code, off, i);
  }

  lemma JumpIfFalseOkAt(b: Bounds, d: word, t: Frag, end: int, off: nat, h: nat)
    requires Occurs(One(JumpIfFalse(d), h), t, off) && 1 <= h <= b.height
      && JumpAllowed(b.limit, t.code, off + 3 + d, h)
    requires Lands(t.marks + [end], off + 3, h) && Lands(t.marks + [end], off + 3 + d, h)
    requires off + 3 + d < |t.code| && t.code[off + 3 + d] == Opcode(Pop)
    ensures RangeOk(b, t, end, off, off + 3)
  {
    hide Lands, One, Occurs, RangeOk;
    JumpOkAt(b, JumpIfFalse(d), t, end, off, h);
  }

  lemma JumpBackOkAt(b: Bounds, d: word, t: Frag, end: int, off: nat, h: nat)
    requires Occurs(One(Loop(d), h), t, off) && h <= b.height
    requires Lands(t.marks + [end], off + 3 - d, h)
    ensures RangeOk(b, t, end, off, off + 3)
  {
    hide Lands, One, Occurs, RangeOk;
    JumpOkAt(b, Loop(d), t, end, off, h);
  }

  lemma JumpAheadOkAt(b: Bounds, d: word, t: Frag, end: int, off: nat, h: nat)
    requires Occurs(One(Jump(d), h), t, off) && h <= b.height
    requires Lands(t.marks + [end], off + 3 + d, h)
    ensures RangeOk(b, t, end, off, off + 3)
  {
    hide Lands, One, Occurs, RangeOk;
    JumpOkAt(b, Jump(d), t, end, off, h);
  }

  /** The first instruction of a part runs at the height the part starts from. */
  lemma MarkAt(b: Bounds, f: Frag, t: Frag, end: int, off: nat, h0: int, h1: int)
    requires Occurs(f, t, off) && f.code != [] && Spans(b, f, h0, h1)
    ensures Lands(t.marks + [end], off, h0)
  {
    OccursAt(f, t, off, 0);
  }

  lemma OneMarkAt(i: Instr, h: nat, t: Frag, end: int, off: nat)
    requires Occurs(One(i, h), t, off)
    ensures Lands(t.marks + [end], off, h) && t.code[off] == Opcode(i)
  {
    OccursAt(One(i, h), t, off, 0);
  }

  lemma SpansBranch(b: Bounds, test: Frag, yes: Frag, no: Frag, h0: int, h: nat)
    requires Spans(b, test, h0, h) && Spans(b, yes, h, 0) && Spans(b, no, h, 0)
    requires 1 <= h <= b.height && JumpAllowed(b.limit, no.code, 0, h)
    requires yes.code != [] && no.code != [] && no.code[0] == Opcode(Pop)
    requires |yes.code| + 3 < 0x1_0000 && |no.code| < 0x1_0000
    ensures Spans(b, Branch(test, yes, no, h), h0, 0)
  {
    hide One, Encode, Typed, Occurs, Head, RangeOk, InstrOk, Cat, Lands;
    var jif, jump := JumpIfFalse(|yes.code| + 3), Jump(|no.code|);
    var t := Cat(test, Cat(One(jif, h), Cat(yes, Cat(One(jump, 0), no))));
    var p0, p1 := |test.code|, |test.code| + 3;
    var p2, p3 := p1 + |yes.code|, p1 + |yes.code| + 3;
    BranchLayout(test, One(jif, h), yes, One(jump, 0), no);
    OneMarkAt(jif, h, t, 0, p0);
    OneMarkAt(jump, 0, t, 0, p2);
    MarkAt(b, yes, t, 0, p1, h, 0);
    MarkAt(b, no, t, 0, p3, h, 0);
    OccursAt(no, t, p3, 0);
    if |no.code| > 1 { OccursAt(no, t, p3, 1); }
    EndMark(t, 0);
    JumpIfFalseOkAt(b, jif.off, t, 0, p0, h);
    JumpAheadOkAt(b, jump.off, t, 0, p2, 0);
    PartTyped(b, test, h, t, 0, 0);
    PartTyped(b, yes, 0, t, 0, p1);
    PartTyped(b, no, 0, t, 0, p3);
    FromRanges(b, t, 0, p0, p1, p2, p3);
    SpansWhole(b, test, Cat(One(jif, h), Cat(yes, Cat(One(jump, 0), no))), 0, h0, h);
  }

  lemma EndMark(t: Frag, end: int)
    ensures Lands(t.marks + [end], |t.code|, end)
  {
  }

  lemma FromRanges(b: Bounds, t: Frag, end: int, p0: nat, p1: nat, p2: nat, p3: nat)
    requires p0 <= p1 <= p2 <= p3 <= |t.code|
    requires RangeOk(b, t, end, 0, p0) && RangeOk(b, t, end, p0, p1) && RangeOk(b, t, end, p1, p2)
    requires RangeOk(b, t, end, p2, p3) && RangeOk(b, t, end, p3, |t.code|)
    ensures Typed(b, t, end)
  {
    hide OkAt;
  }

  lemma SpansWhole(b: Bounds, f: Frag, g: Frag, end: int, h0: int, h1: int)
    requires Spans(b, f, h0, h1) && Lands(Cat(f, g).marks + [end], |f.code|, h1)
    requires Typed(b, Cat(f, g), end)
    ensures Spans(b, Cat(f, g), h0, end)
  {
  }

  lemma CatOccursIn(a: Frag, c: Frag, t: Frag, off: nat)
    requires Occurs(Cat(a, c), t, off)
    ensures Occurs(a, t, off) && Occurs(c, t, off + |a.code|)
  {
    hide *;
    CatOccurs(a, c);
    OccursTrans(a, Cat(a, c), t, 0, off);
    OccursTrans(c, Cat(a, c), t, |a.code|, off);
  }

  /** Where the five parts of a branch stand. */
  lemma BranchLayout(a: Frag, j: Frag, c: Frag, k: Frag, d: Frag)
    ensures var t := Cat(a, Cat(j, Cat(c, Cat(k, d))));
            var p1, p2, p3 := |a.code| + |j.code|, |a.code| + |j.code| + |c.code|,
              |a.code| + |j.code| + |c.code| + |k.code|;
            && Occurs(a, t, 0) && Occurs(j, t, |a.code|) && Occurs(c, t, p1) && Occurs(k, t, p2) && Occurs(d, t, p3)
  {
    hide *;
    var t3 := Cat(k, d);
    var t2 := Cat(c, t3);
    var t1 := Cat(j, t2);
    var t := Cat(a, t1);
    CatOccurs(a, t1);
    CatOccursIn(j, t2, t, |a.code|);
    CatOccursIn(c, t3, t, |a.code| + |j.code|);
    CatOccursIn(k, d, t, |a.code| + |j.code| + |c.code|);
  }

  lemma SpansLoopWhile(b: Bounds, cc: Frag, bb: Frag)
    requires Spans(b, cc, 0, 1) && Spans(b, bb, 0, 0) && 1 <= b.height
    requires |cc.code| + |bb.code| + 7 < 0x1_0000
    ensures Spans(b, LoopWhile(cc, bb), 0, 0)
  {
    hide Spans, Encode, One;
    SpansOne(b, Pop, 1, 0);
    SpansCat(b, One(Pop, 1), bb, 1, 0, 0);
    SpansNonEmpty(b, cc, 0, 1);
    SpansCycle(b, cc, Cat(One(Pop, 1), bb), One(Pop, 1));
  }

  lemma SpansCycle(b: Bounds, cc: Frag, body: Frag, exit: Frag)
    requires Spans(b, cc, 0, 1) && Spans(b, body, 1, 0) && Spans(b, exit, 1, 0) && 1 <= b.height
    requires cc.code != [] && body.code != [] && exit.code != [] && exit.code[0] == Opcode(Pop)
    requires |cc.code| + |body.code| + 6 < 0x1_0000
    ensures Spans(b, Cat(cc, Cat(One(JumpIfFalse(|body.code| + 3), 1),
                      Cat(body, Cat(One(Loop(|cc.code| + |body.code| + 6), 0), exit)))), 0, 0)
  {
    hide One, Encode, Typed, Occurs, Head, RangeOk, InstrOk, Cat, Lands;
    var jif, back := JumpIfFalse(|body.code| + 3), Loop(|cc.code| + |body.code| + 6);
    var rest := Cat(One(jif, 1), Cat(body, Cat(One(back, 0), exit)));
    var t := Cat(cc, rest);
    var p0, p1 := |cc.code|, |cc.code| + 3;
    var p2, p3 := p1 + |body.code|, p1 + |body.code| + 3;
    BranchLayout(cc, One(jif, 1), body, One(back, 0), exit);
    OneMarkAt(jif, 1, t, 0, p0);
    OneMarkAt(back, 0, t, 0, p2);
    MarkAt(b, cc, t, 0, 0, 0, 1);
    MarkAt(b, body, t, 0, p1, 1, 0);
    MarkAt(b, exit, t, 0, p3, 1, 0);
    OccursAt(exit, t, p3, 0);
    EndMark(t, 0);
    JumpIfFalseOkAt(b, jif.off, t, 0, p0, 1);
    JumpBackOkAt(b, back.off, t, 0, p2, 0);
    PartTyped(b, cc, 1, t, 0, 0);
    PartTyped(b, body, 0, t, 0, p1);
    PartTyped(b, exit, 0, t, 0, p3);
    FromRanges(b, t, 0, p0, p1, p2, p3);
    SpansWhole(b, cc, rest, 0, 0, 1);
  }

  lemma SpansNonEmpty(b: Bounds, f: Frag, h0: int, h1: int)
    requires Spans(b, f, h0, h1) && h0 != h1
    ensures f.code != []
  {
  }

  lemma SpansLoopForever(b: Bounds, bb: Frag)
    requires Spans(b, bb, 0, 0) && |bb.code| + 3 < 0x1_0000
    ensures Spans(b, LoopForever(bb), 0, 0)
  {
    hide One, Encode, Occurs;
    var back := Loop(|bb.code| + 3);
    var t := Cat(bb, One(back, 0));
    CatOccurs(bb, One(back, 0));
    OneMarkAt(back, 0, t, 0, |bb.code|);
    if bb.code != [] { MarkAt(b, bb, t, 0, 0, 0, 0); }
    JumpBackOkAt(b, back.off, t, 0, |bb.code|, 0);
    PartTyped(b, bb, 0, t, 0, 0);
    FromRanges(b, t, 0, |bb.code|, |bb.code|, |bb.code|, |bb.code|);
  }

  lemma SpansConditional(b: Bounds, cc: Frag, tt: Frag, ee: Frag)
    requires Spans(b, cc, 0, 1) && Spans(b, tt, 0, 0) && Spans(b, ee, 0, 0) && 1 <= b.height
    requires |tt.code| + 4 < 0x1_0000 && |ee.code| + 1 < 0x1_0000
    ensures Spans(b, Conditional(cc, tt, ee), 0, 0)
  {
    hide Spans, Branch;
    SpansOne(b, Pop, 1, 0);
    SpansCat(b, One(Pop, 1), tt, 1, 0, 0);
    SpansCat(b, One(Pop, 1), ee, 1, 0, 0);
    SpansBranch(b, cc, Cat(One(Pop, 1), tt), Cat(One(Pop, 1), ee), 0, 1);
  }

  /** What follows a case starts by popping the scrutinee, unless any number of cases may follow. */
  predicate LastOrAny(b: Bounds, rest: Frag) {
    b.limit.Any? || (b.limit.Single? && rest.code != [] && rest.code[0] == Opcode(Pop))
  }

  lemma TwoPops(b: Bounds, rest: Frag)
    requires LastOrAny(b, rest)
    ensures JumpAllowed(b.limit, Cat(One(Pop, 2), rest).code, 0, 2)
  {
    assert One(Pop, 2).code == [Opcode(Pop)];
  }

  lemma SpansCaseArm(b: Bounds, vv: Frag, bb: Frag, rest: Frag)
    requires Spans(b, vv, 2, 3) && Spans(b, bb, 0, 0) && Spans(b, rest, 1, 0)
    requires LastOrAny(b, rest) && 3 <= b.height
    requires |bb.code| + 5 < 0x1_0000 && |rest.code| + 1 < 0x1_0000
    ensures Spans(b, CaseArm(vv, bb, rest), 1, 0)
  {
    hide Spans, Branch;
    var test := Cat(One(Dup, 1), Cat(vv, One(Binary(Eq), 3)));
    SpansOne(b, Dup, 1, 2);
    SpansThen(b, vv, Binary(Eq), 2, 3, 2);
    SpansCat(b, One(Dup, 1), Cat(vv, One(Binary(Eq), 3)), 1, 2, 2);
    SpansOne(b, Pop, 1, 0);
    SpansOne(b, Pop, 2, 1);
    SpansCat(b, One(Pop, 1), bb, 1, 0, 0);
    SpansCat(b, One(Pop, 2), Cat(One(Pop, 1), bb), 2, 1, 0);
    SpansCat(b, One(Pop, 2), rest, 2, 1, 0);
    TwoPops(b, rest);
    SpansBranch(b, test, Cat(One(Pop, 2), Cat(One(Pop, 1), bb)), Cat(One(Pop, 2), rest), 1, 2);
  }

  // ----- statements -----

  predicate StmtPre(b: Bounds, fp: Arith, s: Stmt, L: seq<string>, k: nat) {
    && SmallStmt(s, b.limit) && JumpsFit(fp, s, L, k)
    && b.consts <= 0x100 && Peak(s, |L|) <= b.locals <= 0x100
    && Fits(b, GenStmt(fp, s, L, k), k, NeedStmt(s)) && b.height >= 1
  }

  /** A statement leaves the operand stack as high as it found it. */
  lemma {:induction false} SpansStmt(b: Bounds, fp: Arith, s: Stmt, L: seq<string>, k: nat)
    requires StmtPre(b, fp, s, L, k)
    ensures Spans(b, GenStmt(fp, s, L, k), 0, 0)
    decreases s, 3
  {
    hide Spans, One, Cat, Encode;
    if s.Block? {
      SpansStmts(b, fp, s.body, L, k);
    } else if s.Let? {
      SpansLet(b, fp, s.name, s.init, L, k);
    } else if s.If? {
      SpansIf(b, fp, s, L, k);
    } else if s.While? {
      SpansLoop(b, fp, Some(s.wcond), None, s.wbody, L, k);
    } else if s.For? {
      SpansFor(b, fp, s, L, k);
    } else if s.Switch? {
      SpansSwitch(b, fp, s, L, k);
    } else if s.ExprStmt? {
      SpansDiscard(b, fp, s.e, L, k);
    } else {
      SpansReturn(b, fp, s.result, L, k);
    }
  }

  lemma SpansDiscard(b: Bounds, fp: Arith, e: Expr, L: seq<string>, k: nat)
    requires ExprPre(b, fp, e, L, k, 0)
    ensures Spans(b, Cat(GenExpr(fp, e, L, k, 0), One(Pop, 1)), 0, 0)
  {
    hide Spans, One, Cat, Encode, GenExpr;
    SpansExpr(b, fp, e, L, k, 0);
    SpansOne(b, Pop, 1, 0);
    SpansCat(b, GenExpr(fp, e, L, k, 0), One(Pop, 1), 0, 1, 0);
  }

  /** A value: the expression, or nil if there is none. */
  lemma SpansValue(b: Bounds, fp: Arith, e: Option<Expr>, L: seq<string>, k: nat)
    requires e.Some? ==> ExprPre(b, fp, e.value, L, k, 0)
    requires b.height >= 1
    ensures Spans(b, GenValue(fp, e, L, k), 0, 1)
  {
    hide Spans, One, Encode, GenExpr;
    if e.Some? { SpansExpr(b, fp, e.value, L, k, 0); } else { SpansOne(b, PushNil, 0, 1); }
  }

  lemma SpansReturn(b: Bounds, fp: Arith, e: Option<Expr>, L: seq<string>, k: nat)
    requires e.Some? ==> ExprPre(b, fp, e.value, L, k, 0)
    requires b.height >= 1
    ensures Spans(b, Cat(GenValue(fp, e, L, k), One(Return, 1)), 0, 0)
  {
    hide Spans, One, Cat, Encode, GenExpr;
    SpansValue(b, fp, e, L, k);
    SpansOne(b, Return, 1, 0);
    SpansCat(b, GenValue(fp, e, L, k), One(Return, 1), 0, 1, 0);
  }

  lemma SpansLet(b: Bounds, fp: Arith, x: string, init: Option<Expr>, L: seq<string>, k: nat)
    requires init.Some? ==> ExprPre(b, fp, init.value, L + [x], k, 0)
    requires |L| < b.locals <= 0x100 && b.height >= 1
    ensures Spans(b, GenLet(fp, x, init, L, k), 0, 0)
  {
    hide Spans, One, Cat, Encode, GenExpr;
    var v := GenValue(fp, init, L + [x], k);
    var st, pop := One(SetLocal(|L|), 1), One(Pop, 1);
    SpansValue(b, fp, init, L + [x], k);
    SpansOne(b, SetLocal(|L|), 1, 1);
    SpansOne(b, Pop, 1, 0);
    SpansCat(b, st, pop, 1, 1, 0);
    SpansCat(b, v, Cat(st, pop), 0, 1, 0);
  }

  lemma {:induction false} SpansStmts(b: Bounds, fp: Arith, ss: seq<Stmt>, L: seq<string>, k: nat)
    requires (forall x | x in ss :: SmallStmt(x, b.limit)) && AllJumpsFit(fp, ss, L, k)
    requires b.consts <= 0x100 && PeakAll(ss, |L|) <= b.locals <= 0x100
    requires Fits(b, GenStmts(fp, ss, L, k), k, NeedStmts(ss)) && b.height >= 1
    ensures Spans(b, GenStmts(fp, ss, L, k), 0, 0)
    decreases ss, 2
  {
    hide Spans, Cat, GenStmt, SmallStmt, JumpsFit, NeedStmt;
    if ss == [] {
      SpansEmpty(b, 0);
    } else {
      var a := GenStmt(fp, ss[0], L, k);
      SpansStmt(b, fp, ss[0], L, k);
      SpansStmts(b, fp, ss[1..], L + Declared(ss[0]), k + |a.consts|);
      SpansCat(b, a, GenStmts(fp, ss[1..], L + Declared(ss[0]), k + |a.consts|), 0, 0, 0);
    }
  }

  lemma IfFits(fp: Arith, s: Stmt, L: seq<string>, k: nat)
    requires s.If? && JumpsFit(fp, s, L, k)
    ensures var cc := GenExpr(fp, s.cond, L, k, 0);
            var tt := GenStmt(fp, s.thn, L, k + |cc.consts|);
            var L', k' := L + Declared(s.thn), k + |cc.consts| + |tt.consts|;
            var ee := if s.els.Some? then GenStmt(fp, s.els.value, L', k') else Empty;
            && GenStmt(fp, s, L, k) == Conditional(cc, tt, ee)
            && JumpsFit(fp, s.thn, L, k + |cc.consts|)
            && (s.els.Some? ==> JumpsFit(fp, s.els.value, L', k'))
            && |tt.code| + 4 < 0x1_0000 && |ee.code| + 1 < 0x1_0000
  {
    hide Conditional, GenExpr, Declared, GenStmts, GenLet, GenLoop, GenCases, GenInit, One, Cat, LoopFits, CasesFit,
      AllJumpsFit;
  }

  lemma IfParts(b: Bounds, fp: Arith, s: Stmt, L: seq<string>, k: nat)
    requires s.If? && StmtPre(b, fp, s, L, k)
    ensures var cc := GenExpr(fp, s.cond, L, k, 0);
            var tt := GenStmt(fp, s.thn, L, k + |cc.consts|);
            var L', k' := L + Declared(s.thn), k + |cc.consts| + |tt.consts|;
            var ee := if s.els.Some? then GenStmt(fp, s.els.value, L', k') else Empty;
            && GenStmt(fp, s, L, k) == Conditional(cc, tt, ee)
            && ExprPre(b, fp, s.cond, L, k, 0)
            && StmtPre(b, fp, s.thn, L, k + |cc.consts|)
            && (s.els.Some? ==> StmtPre(b, fp, s.els.value, L', k'))
            && |tt.code| + 4 < 0x1_0000 && |ee.code| + 1 < 0x1_0000
  {
    hide Conditional, GenStmt, JumpsFit, GenExpr, Need, Small;
    IfFits(fp, s, L, k);
  }

  lemma {:induction false} SpansIf(b: Bounds, fp: Arith, s: Stmt, L: seq<string>, k: nat)
    requires s.If? && StmtPre(b, fp, s, L, k)
    ensures Spans(b, GenStmt(fp, s, L, k), 0, 0)
    decreases s, 2
  {
    hide Spans, GenExpr, GenStmt, ExprPre, Conditional;
    IfParts(b, fp, s, L, k);
    var cc := GenExpr(fp, s.cond, L, k, 0);
    var tt := GenStmt(fp, s.thn, L, k + |cc.consts|);
    var L', k' := L + Declared(s.thn), k + |cc.consts| + |tt.consts|;
    SpansExpr(b, fp, s.cond, L, k, 0);
    SpansStmt(b, fp, s.thn, L, k + |cc.consts|);
    if s.els.Some? {
      SpansStmt(b, fp, s.els.value, L', k');
      SpansConditional(b, cc, tt, GenStmt(fp, s.els.value, L', k'));
    } else {
      SpansEmpty(b, 0);
      SpansConditional(b, cc, tt, Empty);
    }
  }

  predicate LoopPre(b: Bounds, fp: Arith, c: Option<Expr>, u: Option<Expr>, body: Stmt, L: seq<string>, k: nat) {
    && SmallOpt(c) && SmallOpt(u) && SmallStmt(body, b.limit) && LoopFits(fp, c, u, body, L, k)
    && b.consts <= 0x100 && Peak(body, |L|) <= b.locals <= 0x100
    && Fits(b, GenLoop(fp, c, u, body, L, k), k, Max(NeedOpt(c), Max(NeedOpt(u), NeedStmt(body)))) && b.height >= 1
  }

  predicate IterPre(b: Bounds, fp: Arith, u: Option<Expr>, body: Stmt, L: seq<string>, k: nat) {
    StmtPre(b, fp, body, L, k)
    && (u.Some? ==> ExprPre(b, fp, u.value, L, k + |GenStmt(fp, body, L, k).consts|, 0))
  }

  lemma LoopHeight(b: Bounds, fp: Arith, c: Option<Expr>, u: Option<Expr>, body: Stmt, L: seq<string>, k: nat)
    requires LoopPre(b, fp, c, u, body, L, k)
    ensures b.height >= 1
  {
    hide GenLoop, SmallStmt, LoopFits;
  }

  lemma ForeverParts(b: Bounds, fp: Arith, u: Option<Expr>, body: Stmt, L: seq<string>, k: nat)
    requires LoopPre(b, fp, None, u, body, L, k)
    ensures var bb := GenIteration(fp, u, body, L, k);
            GenLoop(fp, None, u, body, L, k) == LoopForever(bb) && IterPre(b, fp, u, body, L, k)
            && |bb.code| + 3 < 0x1_0000
  {
    hide GenExpr, GenStmt, Small, SmallStmt, Need, NeedStmt, LoopForever, Cat, One, Encode, JumpsFit, Peak, InstrMarks;
  }

  lemma WhileParts(b: Bounds, fp: Arith, c: Expr, u: Option<Expr>, body: Stmt, L: seq<string>, k: nat)
    requires LoopPre(b, fp, Some(c), u, body, L, k)
    ensures var cc := GenExpr(fp, c, L, k, 0);
            var bb := GenIteration(fp, u, body, L, k + |cc.consts|);
            && GenLoop(fp, Some(c), u, body, L, k) == LoopWhile(cc, bb)
            && ExprPre(b, fp, c, L, k, 0) && IterPre(b, fp, u, body, L, k + |cc.consts|)
            && |cc.code| + |bb.code| + 7 < 0x1_0000
  {
    hide GenExpr, GenStmt, Small, SmallStmt, Need, NeedStmt, LoopWhile, Cat, One, Encode, JumpsFit, Peak, InstrMarks;
  }

  lemma {:induction false} SpansLoop(b: Bounds, fp: Arith, c: Option<Expr>, u: Option<Expr>, body: Stmt,
                                     L: seq<string>, k: nat)
    requires LoopPre(b, fp, c, u, body, L, k)
    ensures Spans(b, GenLoop(fp, c, u, body, L, k), 0, 0)
    decreases body, 5
  {
    hide Spans, GenExpr, GenStmt, ExprPre, LoopWhile, LoopForever, LoopPre, IterPre, GenIteration, GenLoop;
    LoopHeight(b, fp, c, u, body, L, k);
    if c.Some? {
      WhileParts(b, fp, c.value, u, body, L, k);
      var cc := GenExpr(fp, c.value, L, k, 0);
      SpansExpr(b, fp, c.value, L, k, 0);
      SpansIteration(b, fp, u, body, L, k + |cc.consts|);
      SpansLoopWhile(b, cc, GenIteration(fp, u, body, L, k + |cc.consts|));
    } else {
      ForeverParts(b, fp, u, body, L, k);
      SpansIteration(b, fp, u, body, L, k);
      SpansLoopForever(b, GenIteration(fp, u, body, L, k));
    }
  }

  lemma {:induction false} SpansIteration(b: Bounds, fp: Arith, u: Option<Expr>, body: Stmt, L: seq<string>, k: nat)
    requires IterPre(b, fp, u, body, L, k)
    ensures Spans(b, GenIteration(fp, u, body, L, k), 0, 0)
    decreases body, 4
  {
    hide Spans, GenExpr, GenStmt, ExprPre, StmtPre, Cat, One;
    SpansStmt(b, fp, body, L, k);
    if u.Some? {
      var bb := GenStmt(fp, body, L, k);
      SpansDiscard(b, fp, u.value, L, k + |bb.consts|);
      SpansCat(b, bb, Cat(GenExpr(fp, u.value, L, k + |bb.consts|, 0), One(Pop, 1)), 0, 0, 0);
    }
  }

  lemma ForParts(b: Bounds, fp: Arith, s: Stmt, L: seq<string>, k: nat)
    requires s.For? && StmtPre(b, fp, s, L, k)
    ensures var ii := GenInit(fp, s.finit, L, k);
            var L', k' := L + InitNames(s.finit), k + |ii.consts|;
            && GenStmt(fp, s, L, k) == Cat(ii, GenLoop(fp, s.fcond, s.update, s.fbody, L', k'))
            && LoopPre(b, fp, s.fcond, s.update, s.fbody, L', k')
            && (s.finit.LetInit? ==> |L| < b.locals)
            && (s.finit.LetInit? && s.finit.init.Some? ==> ExprPre(b, fp, s.finit.init.value, L + [s.finit.x], k, 0))
            && (s.finit.ExprInit? ==> ExprPre(b, fp, s.finit.e, L, k, 0))
  {
    hide GenExpr, GenLoop, LoopFits, Small, Need, Cat, One, Encode;
  }

  lemma {:induction false} SpansFor(b: Bounds, fp: Arith, s: Stmt, L: seq<string>, k: nat)
    requires s.For? && StmtPre(b, fp, s, L, k)
    ensures Spans(b, GenStmt(fp, s, L, k), 0, 0)
    decreases s, 2
  {
    hide Spans, GenExpr, GenStmt, ExprPre, GenLoop, LoopPre, Cat, One, GenLet;
    ForParts(b, fp, s, L, k);
    var ii := GenInit(fp, s.finit, L, k);
    var L', k' := L + InitNames(s.finit), k + |ii.consts|;
    if s.finit.LetInit? {
      SpansLet(b, fp, s.finit.x, s.finit.init, L, k);
    } else if s.finit.ExprInit? {
      SpansDiscard(b, fp, s.finit.e, L, k);
    } else {
      SpansEmpty(b, 0);
    }
    SpansLoop(b, fp, s.fcond, s.update, s.fbody, L', k');
    SpansCat(b, ii, GenLoop(fp, s.fcond, s.update, s.fbody, L', k'), 0, 0, 0);
  }

  predicate CasesPre(b: Bounds, fp: Arith, s: Stmt, i: nat, L: seq<string>, k: nat)
    requires s.Switch? && i <= |s.cases|
  {
    && SmallStmt(s, b.limit) && CasesFit(fp, s, i, L, k)
    && b.consts <= 0x100 && PeakCases(s, i, |L|) <= b.locals <= 0x100
    && Fits(b, GenCases(fp, s, i, L, k), k, NeedCases(s, i))
  }

  lemma SwitchParts(b: Bounds, fp: Arith, s: Stmt, L: seq<string>, k: nat)
    requires s.Switch? && StmtPre(b, fp, s, L, k)
    ensures var vv := GenExpr(fp, s.scrutinee, L, k, 0);
            && GenStmt(fp, s, L, k) == Cat(vv, GenCases(fp, s, 0, L, k + |vv.consts|))
            && ExprPre(b, fp, s.scrutinee, L, k, 0)
            && CasesPre(b, fp, s, 0, L, k + |vv.consts|)
  {
    hide GenExpr, GenCases, CasesFit, Small, Need, NeedCases, Cat;
  }

  lemma {:induction false} SpansSwitch(b: Bounds, fp: Arith, s: Stmt, L: seq<string>, k: nat)
    requires s.Switch? && StmtPre(b, fp, s, L, k)
    ensures Spans(b, GenStmt(fp, s, L, k), 0, 0)
    decreases s, 2
  {
    hide Spans, GenExpr, GenStmt, ExprPre, GenCases, CasesPre, Cat;
    SwitchParts(b, fp, s, L, k);
    var vv := GenExpr(fp, s.scrutinee, L, k, 0);
    SpansExpr(b, fp, s.scrutinee, L, k, 0);
    SpansCases(b, fp, s, 0, L, k + |vv.consts|);
    SpansCat(b, vv, GenCases(fp, s, 0, L, k + |vv.consts|), 0, 1, 0);
  }

  lemma CaseParts(b: Bounds, fp: Arith, s: Stmt, i: nat, L: seq<string>, k: nat)
    requires s.Switch? && i < |s.cases| && CasesPre(b, fp, s, i, L, k)
    ensures var vv := GenExpr(fp, s.cases[i].value, L, k, 2);
            var bb := GenStmt(fp, s.cases[i].body, L, k + |vv.consts|);
            var L', k' := L + Declared(s.cases[i].body), k + |vv.consts| + |bb.consts|;
            var rest := GenCases(fp, s, i + 1, L', k');
            && GenCases(fp, s, i, L, k) == CaseArm(vv, bb, rest)
            && ExprPre(b, fp, s.cases[i].value, L, k, 2)
            && StmtPre(b, fp, s.cases[i].body, L, k + |vv.consts|)
            && CasesPre(b, fp, s, i + 1, L', k')
            && |bb.code| + 5 < 0x1_0000 && |rest.code| + 1 < 0x1_0000
            && LastOrAny(b, rest) && 3 <= b.height
  {
    hide GenExpr, GenStmt, Small, SmallStmt, Need, NeedStmt, JumpsFit, CaseArm, Peak, Declared, DeclaredCases, One,
      Cat, Encode;
    SmallCase(s, i, b.limit);
    if b.limit.Single? { LastCaseStart(fp, s, L + Declared(s.cases[i].body),
      k + |GenExpr(fp, s.cases[i].value, L, k, 2).consts|
      + |GenStmt(fp, s.cases[i].body, L, k + |GenExpr(fp, s.cases[i].value, L, k, 2).consts|).consts|); }
  }

  lemma LastCaseParts(b: Bounds, fp: Arith, s: Stmt, L: seq<string>, k: nat)
    requires s.Switch? && CasesPre(b, fp, s, |s.cases|, L, k)
    ensures var dd := if s.default.Some? then GenStmt(fp, s.default.value, L, k) else Empty;
            GenCases(fp, s, |s.cases|, L, k) == Cat(One(Pop, 1), dd)
    ensures s.default.Some? ==> StmtPre(b, fp, s.default.value, L, k)
    ensures b.height >= 1
  {
    hide GenStmt, JumpsFit, Peak, NeedStmt, One, Cat, Encode;
  }

  lemma LastCaseStart(fp: Arith, s: Stmt, L: seq<string>, k: nat)
    requires s.Switch?
    ensures var f := GenCases(fp, s, |s.cases|, L, k);
            f.code != [] && f.code[0] == Opcode(Pop)
  {
    hide GenStmt;
    assert One(Pop, 1).code == [Opcode(Pop)];
  }

  lemma SmallCase(s: Stmt, i: nat, limit: CaseLimit)
    requires s.Switch? && SmallStmt(s, limit) && i < |s.cases|
    ensures Small(s.cases[i].value) && SmallStmt(s.cases[i].body, limit) && Admits(limit, |s.cases|)
  {
    assert s.cases[i] in s.cases;
  }

  lemma {:induction false} SpansCases(b: Bounds, fp: Arith, s: Stmt, i: nat, L: seq<string>, k: nat)
    requires s.Switch? && i <= |s.cases| && CasesPre(b, fp, s, i, L, k)
    ensures Spans(b, GenCases(fp, s, i, L, k), 1, 0)
    decreases s, 1, |s.cases| - i
  {
    hide Spans, GenExpr, GenStmt, ExprPre, StmtPre, CaseArm, GenCases, CasesPre, Cat, One, Encode;
    if i < |s.cases| {
      CaseParts(b, fp, s, i, L, k);
      var vv := GenExpr(fp, s.cases[i].value, L, k, 2);
      var bb := GenStmt(fp, s.cases[i].body, L, k + |vv.consts|);
      var L', k' := L + Declared(s.cases[i].body), k + |vv.consts| + |bb.consts|;
      SpansExpr(b, fp, s.cases[i].value, L, k, 2);
      SpansStmt(b, fp, s.cases[i].body, L, k + |vv.consts|);
      SpansCases(b, fp, s, i + 1, L', k');
      SpansCaseArm(b, vv, bb, GenCases(fp, s, i + 1, L', k'));
    } else {
      LastCaseParts(b, fp, s, L, k);
      SpansOne(b, Pop, 1, 0);
      if s.default.Some? {
        SpansStmt(b, fp, s.default.value, L, k);
        SpansCat(b, One(Pop, 1), GenStmt(fp, s.default.value, L, k), 1, 0, 0);
      } else {
        SpansEmpty(b, 0);
        SpansCat(b, One(Pop, 1), Empty, 1, 0, 0);
      }
    }
  }
}
