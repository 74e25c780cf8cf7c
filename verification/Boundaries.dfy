/** Jump targets, judged by decoding alone: in every compiled function, reading one instruction
    after another from the first byte, each jump leads to the start of an instruction. */
module Boundaries {
  import opened Wrappers
  import opened Values
  import opened Bytecode
  import opened Source
  import opened CodeGen
  import opened Typing
  import opened TypedCode
  import opened Lockstep

  /** Decoding from `from` on, one instruction after another, comes to `p`. */
  predicate Comes(code: seq<byte>, from: nat, p: nat)
    decreases p - from
  {
    || from == p
    || (from < p && from < |code| && Decode(code, from).Some?
        && Comes(code, from + Width(Decode(code, from).value), p))
  }

  predicate Starts(code: seq<byte>, p: nat) { Comes(code, 0, p) }

  // ----- marks follow the instructions -----

  /** Statements without `while` and `for`. */
  predicate LoopFree(s: Stmt) {
    match s
    case Block(ss) => forall x | x in ss :: LoopFree(x)
    case If(_, t, e) => LoopFree(t) && (e.Some? ==> LoopFree(e.value))
    case While(_, _) => false
    case For(_, _, _, _) => false
    case Switch(_, cases, d) => (forall c | c in cases :: LoopFree(c.body)) && (d.Some? ==> LoopFree(d.value))
    case _ => true
  }

  /** Marks of instructions are heights, marks of operand bytes are -1; without `loops`, no
      instruction is a LOOP. */
  predicate Parses(loops: bool, code: seq<byte>, marks: seq<int>)
    requires |code| == |marks|
    decreases |code|
  {
    code == [] ||
    (FirstMarked(loops, code, marks) &&
     var w := Width(Decode(code, 0).value);
     Parses(loops, code[w..], marks[w..]))
  }

  predicate Well(loops: bool, f: Frag) { Parses(loops, f.code, f.marks) }

  lemma WellOne(loops: bool, i: Instr, h: nat)
    requires !i.Other? && (loops || !i.Loop?)
    ensures Well(loops, One(i, h))
  {
    var f := One(i, h);
    DecodeEncode(f.code, 0, i);
    assert f.code[Width(i)..] == [];
  }

  /** Bytes appended behind an instruction do not change how it decodes. */
  lemma DecodeAppended(a: seq<byte>, c: seq<byte>)
    requires a != [] && Decode(a, 0).Some?
    ensures Decode(a + c, 0) == Decode(a, 0)
  {
  }

  /** The first instruction of a marked text. */
  predicate FirstMarked(loops: bool, code: seq<byte>, marks: seq<int>)
    requires |code| == |marks| && code != []
  {
    var d := Decode(code, 0);
    d.Some? && (loops || !d.value.Loop?) && marks[0] >= 0 && forall q :: 1 <= q < Width(d.value) ==> marks[q] == -1
  }

  lemma FirstAppended(loops: bool, a: seq<byte>, m: seq<int>, c: seq<byte>, n: seq<int>)
    requires |a| == |m| && |c| == |n| && a != [] && FirstMarked(loops, a, m)
    ensures FirstMarked(loops, a + c, m + n) && Decode(a + c, 0) == Decode(a, 0)
  {
    hide Decode, Width;
    DecodeAppended(a, c);
  }

  lemma ParsesRest(loops: bool, code: seq<byte>, marks: seq<int>)
    requires |code| == |marks| && code != []
    ensures Parses(loops, code, marks) <==>
              && FirstMarked(loops, code, marks)
              && var w := Width(Decode(code, 0).value);
                 1 <= w <= |code| && Parses(loops, code[w..], marks[w..])
  {
    hide Decode;
  }

  lemma AppendedRest<T>(a: seq<T>, c: seq<T>, w: nat)
    requires w <= |a|
    ensures (a + c)[w..] == a[w..] + c
  {
  }

  lemma {:induction false} ParsesAppended(loops: bool, a: seq<byte>, m: seq<int>, c: seq<byte>, n: seq<int>)
    requires |a| == |m| && |c| == |n| && Parses(loops, a, m) && Parses(loops, c, n)
    ensures Parses(loops, a + c, m + n)
    decreases |a|
  {
    if a == [] {
      assert a + c == c && m + n == n;
    } else {
      hide Decode, FirstMarked, Parses, Width;
      ParsesRest(loops, a, m);
      FirstAppended(loops, a, m, c, n);
      var w := Width(Decode(a, 0).value);
      ParsesAppended(loops, a[w..], m[w..], c, n);
      AppendedRest(a, c, w);
      AppendedRest(m, n, w);
      ParsesRest(loops, a + c, m + n);
    }
  }

  lemma WellCat(loops: bool, a: Frag, c: Frag)
    requires Well(loops, a) && Well(loops, c)
    ensures Well(loops, Cat(a, c))
  {
    ParsesAppended(loops, a.code, a.marks, c.code, c.marks);
  }

  lemma WellThree(loops: bool, a: Frag, b: Frag, c: Frag)
    requires Well(loops, a) && Well(loops, b) && Well(loops, c)
    ensures Well(loops, Cat(a, Cat(b, c)))
  {
    hide *;
    WellCat(loops, b, c);
    WellCat(loops, a, Cat(b, c));
  }

  lemma WellFive(loops: bool, a: Frag, b: Frag, c: Frag, d: Frag, e: Frag)
    requires Well(loops, a) && Well(loops, b) && Well(loops, c) && Well(loops, d) && Well(loops, e)
    ensures Well(loops, Cat(a, Cat(b, Cat(c, Cat(d, e)))))
  {
    hide *;
    WellThree(loops, c, d, e);
    WellThree(loops, a, b, Cat(c, Cat(d, e)));
  }

  lemma WellPush(loops: bool, v: Value, k: nat, h: nat)
    ensures Well(loops, Push(v, k, h))
  {
    hide Well, One, Cat;
    WellOne(loops, PushInstr(k), h);
    WellCat(loops, One(PushInstr(k), h), Frag([], [], [v])) by { NoCode(loops, [v]); }
  }

  lemma NoCode(loops: bool, cs: seq<Value>)
    ensures Well(loops, Frag([], [], cs)) && Well(loops, Empty)
  {
  }

  lemma WellLoad(loops: bool, L: seq<string>, x: string, k: nat, h: nat)
    ensures Well(loops, Load(L, x, k, h)) && Well(loops, Store(L, x, k, h))
  {
    hide Well, One, Cat, Resolve;
    var r := Resolve(L, x);
    NoCode(loops, [Str(x)]);
    if r >= 0 {
      WellOne(loops, GetLocal(r % 0x100), h);
      WellOne(loops, SetLocal(r % 0x100), h);
    } else {
      WellOne(loops, LoadGlobal(k), h);
      WellOne(loops, StoreGlobal(k), h);
      WellCat(loops, One(LoadGlobal(k), h), Frag([], [], [Str(x)]));
      WellCat(loops, One(StoreGlobal(k), h), Frag([], [], [Str(x)]));
    }
  }

  lemma WellLiteral(loops: bool, v: Value, k: nat, h: nat)
    ensures Well(loops, GenLiteral(v, k, h))
  {
    hide Well, One, Push;
    WellPush(loops, v, k, h);
    WellOne(loops, PushTrue, h);
    WellOne(loops, PushFalse, h);
    WellOne(loops, PushNil, h);
  }

  // ----- expressions -----

  lemma {:induction false} WellExpr(loops: bool, fp: Arith, e: Expr, L: seq<string>, k: nat, h: nat)
    ensures Well(loops, GenExpr(fp, e, L, k, h))
    decreases e, 1
  {
    hide *;
    match e
    case Lit(v) =>
      LeafCode(fp, e, L, k, h);
      WellLiteral(loops, v, k, h);
    case Var(x) =>
      LeafCode(fp, e, L, k, h);
      WellLoad(loops, L, x, k, h);
    case BinaryExpr(op, l, r) =>
      BinaryCode(fp, e, L, k, h);
      var a := GenExpr(fp, l, L, k, h);
      WellExpr(loops, fp, l, L, k, h);
      WellExpr(loops, fp, r, L, k + |a.consts|, h + 1);
      WellOne(loops, Binary(op), h + 2);
      WellThree(loops, a, GenExpr(fp, r, L, k + |a.consts|, h + 1), One(Binary(op), h + 2));
    case UnaryExpr(op, x) =>
      UnaryCode(fp, e, L, k, h);
      WellExpr(loops, fp, x, L, k, h);
      WellOne(loops, Unary(op), h + 1);
      WellCat(loops, GenExpr(fp, x, L, k, h), One(Unary(op), h + 1));
    case Interp(head, ps) =>
      InterpCode(fp, e, L, k, h);
      WellPush(loops, Str(head), k, h);
      WellPieces(loops, fp, ps, L, k + 1, h + 1);
      WellCat(loops, Push(Str(head), k, h), GenPieces(fp, ps, L, k + 1, h + 1));
    case ArrayLit(es) =>
      ArrayCode(fp, e, L, k, h);
      WellAll(loops, fp, es, L, k, h);
      WellOne(loops, Array(|es| % 0x100), h + |es|);
      WellCat(loops, GenAll(fp, es, L, k, h), One(Array(|es| % 0x100), h + |es|));
    case IndexExpr(x, i) =>
      IndexCode(fp, e, L, k, h);
      var a := GenExpr(fp, x, L, k, h);
      WellExpr(loops, fp, x, L, k, h);
      WellExpr(loops, fp, i, L, k + |a.consts|, h + 1);
      WellOne(loops, ArrayGet, h + 2);
      WellThree(loops, a, GenExpr(fp, i, L, k + |a.consts|, h + 1), One(ArrayGet, h + 2));
    case Member(x, p) =>
      MemberCode(fp, e, L, k, h);
      var a := GenExpr(fp, x, L, k, h);
      WellExpr(loops, fp, x, L, k, h);
      WellPush(loops, Str(p), k + |a.consts|, h + 1);
      WellOne(loops, ObjectGet, h + 2);
      WellThree(loops, a, Push(Str(p), k + |a.consts|, h + 1), One(ObjectGet, h + 2));
    case Assign(_, _, _) => WellAssign(loops, fp, e, L, k, h);
    case Destructure(xs, r) =>
      DestructureCode(fp, e, L, k, h);
      var a := GenExpr(fp, r, L, k, h);
      WellExpr(loops, fp, r, L, k, h);
      WellTargets(loops, fp, xs, 0, L, k + |a.consts|, h + 1);
      WellCat(loops, a, GenTargets(fp, xs, 0, L, k + |a.consts|, h + 1));
  }

  lemma LeafCode(fp: Arith, e: Expr, L: seq<string>, k: nat, h: nat)
    ensures e.Lit? ==> GenExpr(fp, e, L, k, h) == GenLiteral(e.v, k, h)
    ensures e.Var? ==> GenExpr(fp, e, L, k, h) == Load(L, e.name, k, h)
  {
    hide GenLiteral, Load;
  }

  lemma {:induction false} WellAssign(loops: bool, fp: Arith, e: Expr, L: seq<string>, k: nat, h: nat)
    requires e.Assign?
    ensures Well(loops, GenExpr(fp, e, L, k, h))
    decreases e, 0
  {
    hide *;
    if e.aop.Set? {
      AssignCode(fp, e, L, k, h);
      var a := GenExpr(fp, e.value, L, k, h);
      WellExpr(loops, fp, e.value, L, k, h);
      WellLoad(loops, L, e.target, k + |a.consts|, h + 1);
      WellCat(loops, a, Store(L, e.target, k + |a.consts|, h + 1));
    } else {
      CompoundCode(fp, e, L, k, h);
      var a, op := Load(L, e.target, k, h), Binary(CompoundOp(e.aop));
      var v := GenExpr(fp, e.value, L, k + |a.consts|, h + 1);
      var st := Store(L, e.target, k + |a.consts| + |v.consts|, h + 1);
      WellLoad(loops, L, e.target, k, h);
      WellLoad(loops, L, e.target, k + |a.consts| + |v.consts|, h + 1);
      WellExpr(loops, fp, e.value, L, k + |a.consts|, h + 1);
      WellOne(loops, op, h + 2);
      WellCat(loops, One(op, h + 2), st);
      WellThree(loops, a, v, Cat(One(op, h + 2), st));
    }
  }

  lemma {:induction false} WellAll(loops: bool, fp: Arith, es: seq<Expr>, L: seq<string>, k: nat, h: nat)
    ensures Well(loops, GenAll(fp, es, L, k, h))
    decreases es, 0
  {
    hide Well, Cat, GenExpr;
    if es == [] {
      NoCode(loops, []);
    } else {
      var a := GenExpr(fp, es[0], L, k, h);
      WellExpr(loops, fp, es[0], L, k, h);
      WellAll(loops, fp, es[1..], L, k + |a.consts|, h + 1);
      WellCat(loops, a, GenAll(fp, es[1..], L, k + |a.consts|, h + 1));
    }
  }

  lemma {:induction false} WellPieces(loops: bool, fp: Arith, ps: seq<Piece>, L: seq<string>, k: nat, h: nat)
    ensures Well(loops, GenPieces(fp, ps, L, k, h))
    decreases ps, 0
  {
    hide Well, Cat, GenExpr, One, Push;
    if ps == [] {
      NoCode(loops, []);
    } else {
      var a := GenExpr(fp, ps[0].e, L, k, h);
      var text := Push(Str(ps[0].text), k + |a.consts|, h);
      var rest := GenPieces(fp, ps[1..], L, k + |a.consts| + 1, h);
      WellExpr(loops, fp, ps[0].e, L, k, h);
      WellPush(loops, Str(ps[0].text), k + |a.consts|, h);
      WellPieces(loops, fp, ps[1..], L, k + |a.consts| + 1, h);
      WellOne(loops, ToString, h + 1);
      WellOne(loops, Binary(Add), h + 1);
      WellThree(loops, text, One(Binary(Add), h + 1), rest);
      var joined := Cat(text, Cat(One(Binary(Add), h + 1), rest));
      WellCat(loops, One(Binary(Add), h + 1), joined);
      WellThree(loops, a, One(ToString, h + 1), Cat(One(Binary(Add), h + 1), joined));
    }
  }

  lemma {:induction false} WellTargets(loops: bool, fp: Arith, xs: seq<string>, i: nat, L: seq<string>, k: nat, h: nat)
    ensures Well(loops, GenTargets(fp, xs, i, L, k, h))
    decreases |xs|
  {
    hide *;
    if xs == [] {
      NoTargets(loops, fp, i, L, k, h);
    } else {
      var st := Store(L, xs[0], k + 1, h + 1);
      var rest := GenTargets(fp, xs[1..], i + 1, L, k + 1 + |st.consts|, h);
      TargetsCode(fp, xs, i, L, k, h);
      WellPush(loops, Num(fp.ofInt(i)), k, h + 1);
      WellLoad(loops, L, xs[0], k + 1, h + 1);
      WellTargets(loops, fp, xs[1..], i + 1, L, k + 1 + |st.consts|, h);
      WellTargetArm(loops, Push(Num(fp.ofInt(i)), k, h + 1), st, rest, h);
    }
  }

  lemma NoTargets(loops: bool, fp: Arith, i: nat, L: seq<string>, k: nat, h: nat)
    ensures Well(loops, GenTargets(fp, [], i, L, k, h))
  {
  }

  lemma WellTargetArm(loops: bool, index: Frag, st: Frag, rest: Frag, h: nat)
    requires Well(loops, index) && Well(loops, st) && Well(loops, rest)
    ensures Well(loops, TargetArm(index, st, rest, h))
  {
    hide Well, Cat, One;
    var tail := Cat(st, Cat(One(Pop, h + 1), rest));
    WellOne(loops, Dup, h);
    WellOne(loops, ArrayGet, h + 2);
    WellOne(loops, Pop, h + 1);
    WellThree(loops, st, One(Pop, h + 1), rest);
    WellCat(loops, One(ArrayGet, h + 2), tail);
    WellThree(loops, One(Dup, h), index, Cat(One(ArrayGet, h + 2), tail));
  }

  // ----- statements -----

  lemma WellBranch(loops: bool, test: Frag, yes: Frag, no: Frag, h: nat)
    requires Well(loops, test) && Well(loops, yes) && Well(loops, no)
    ensures Well(loops, Branch(test, yes, no, h))
  {
    hide Well, Cat, One;
    WellOne(loops, JumpIfFalse(Dist(|yes.code| + 3)), h);
    WellOne(loops, Jump(Dist(|no.code|)), 0);
    WellFive(loops, test, One(JumpIfFalse(Dist(|yes.code| + 3)), h), yes, One(Jump(Dist(|no.code|)), 0), no);
  }

  lemma WellPopped(loops: bool, f: Frag, h: nat)
    requires Well(loops, f)
    ensures Well(loops, Cat(One(Pop, h), f)) && Well(loops, Cat(f, One(Pop, h)))
  {
    hide Well, Cat, One;
    WellOne(loops, Pop, h);
    WellCat(loops, One(Pop, h), f);
    WellCat(loops, f, One(Pop, h));
  }

  lemma WellCaseArm(loops: bool, vv: Frag, bb: Frag, rest: Frag)
    requires Well(loops, vv) && Well(loops, bb) && Well(loops, rest)
    ensures Well(loops, CaseArm(vv, bb, rest))
  {
    hide Well, Cat, One, Branch;
    WellOne(loops, Dup, 1);
    WellOne(loops, Binary(Eq), 3);
    WellThree(loops, One(Dup, 1), vv, One(Binary(Eq), 3));
    WellPopped(loops, bb, 1);
    WellPopped(loops, Cat(One(Pop, 1), bb), 2);
    WellPopped(loops, rest, 2);
    WellBranch(loops, Cat(One(Dup, 1), Cat(vv, One(Binary(Eq), 3))), Cat(One(Pop, 2), Cat(One(Pop, 1), bb)),
      Cat(One(Pop, 2), rest), 2);
  }

  lemma WellLoopWhile(loops: bool, cc: Frag, bb: Frag)
    requires loops && Well(loops, cc) && Well(loops, bb)
    ensures Well(loops, LoopWhile(cc, bb))
  {
    hide Well, Cat, One;
    var body := Cat(One(Pop, 1), bb);
    var out, back := One(JumpIfFalse(Dist(|body.code| + 3)), 1), One(Loop(Dist(|cc.code| + |body.code| + 6)), 0);
    WellPopped(loops, bb, 1);
    WellOne(loops, JumpIfFalse(Dist(|body.code| + 3)), 1);
    WellOne(loops, Loop(Dist(|cc.code| + |body.code| + 6)), 0);
    WellOne(loops, Pop, 1);
    WellFive(loops, cc, out, body, back, One(Pop, 1));
  }

  lemma WellLoopForever(loops: bool, bb: Frag)
    requires loops && Well(loops, bb)
    ensures Well(loops, LoopForever(bb))
  {
    hide Well, Cat, One;
    WellOne(loops, Loop(Dist(|bb.code| + 3)), 0);
    WellCat(loops, bb, One(Loop(Dist(|bb.code| + 3)), 0));
  }

  lemma WellValue(loops: bool, fp: Arith, e: Option<Expr>, L: seq<string>, k: nat)
    ensures Well(loops, GenValue(fp, e, L, k))
  {
    hide Well, GenExpr, One;
    if e.Some? { WellExpr(loops, fp, e.value, L, k, 0); } else { WellOne(loops, PushNil, 0); }
  }

  lemma WellLet(loops: bool, fp: Arith, x: string, init: Option<Expr>, L: seq<string>, k: nat)
    ensures Well(loops, GenLet(fp, x, init, L, k))
  {
    hide Well, GenValue, One, Cat;
    WellValue(loops, fp, init, L + [x], k);
    WellOne(loops, SetLocal(|L| % 0x100), 1);
    WellOne(loops, Pop, 1);
    WellThree(loops, GenValue(fp, init, L + [x], k), One(SetLocal(|L| % 0x100), 1), One(Pop, 1));
  }

  lemma WellInit(loops: bool, fp: Arith, init: ForInit, L: seq<string>, k: nat)
    ensures Well(loops, GenInit(fp, init, L, k))
  {
    hide Well, GenExpr, GenLet, One, Cat;
    match init
    case NoInit => NoCode(loops, []);
    case LetInit(x, e) => WellLet(loops, fp, x, e, L, k);
    case ExprInit(e) =>
      WellExpr(loops, fp, e, L, k, 0);
      WellPopped(loops, GenExpr(fp, e, L, k, 0), 1);
  }

  lemma {:induction false} WellStmt(loops: bool, fp: Arith, s: Stmt, L: seq<string>, k: nat)
    requires loops || LoopFree(s)
    ensures Well(loops, GenStmt(fp, s, L, k))
    decreases s, 1
  {
    hide Well, GenExpr, GenStmts, GenLet, GenLoop, GenInit, GenCases, GenValue, Conditional, Declared, One, Cat;
    match s
    case Block(ss) => WellStmts(loops, fp, ss, L, k);
    case Let(x, init) => WellLet(loops, fp, x, init, L, k);
    case If(_, _, _) => WellIf(loops, fp, s, L, k);
    case While(c, body) => WellLoop(loops, fp, Some(c), None, body, L, k);
    case For(init, c, u, body) =>
      var ii := GenInit(fp, init, L, k);
      WellInit(loops, fp, init, L, k);
      WellLoop(loops, fp, c, u, body, L + InitNames(init), k + |ii.consts|);
      WellCat(loops, ii, GenLoop(fp, c, u, body, L + InitNames(init), k + |ii.consts|));
    case Switch(v, cases, _) =>
      var vv := GenExpr(fp, v, L, k, 0);
      WellExpr(loops, fp, v, L, k, 0);
      if |cases| <= MAX_CASES {
        WellCases(loops, fp, s, 0, L, k + |vv.consts|);
        WellCat(loops, vv, GenCases(fp, s, 0, L, k + |vv.consts|));
      }
    case ExprStmt(e) =>
      WellExpr(loops, fp, e, L, k, 0);
      WellPopped(loops, GenExpr(fp, e, L, k, 0), 1);
    case ReturnStmt(r) =>
      WellValue(loops, fp, r, L, k);
      WellOne(loops, Return, 1);
      WellCat(loops, GenValue(fp, r, L, k), One(Return, 1));
  }

  lemma {:induction false} WellIf(loops: bool, fp: Arith, s: Stmt, L: seq<string>, k: nat)
    requires s.If? && (loops || LoopFree(s))
    ensures Well(loops, GenStmt(fp, s, L, k))
    decreases s, 0
  {
    hide Well, GenExpr, Branch, Declared, One, Cat;
    var cc := GenExpr(fp, s.cond, L, k, 0);
    var tt := GenStmt(fp, s.thn, L, k + |cc.consts|);
    WellExpr(loops, fp, s.cond, L, k, 0);
    WellStmt(loops, fp, s.thn, L, k + |cc.consts|);
    WellPopped(loops, tt, 1);
    var L', k' := L + Declared(s.thn), k + |cc.consts| + |tt.consts|;
    if s.els.Some? { WellStmt(loops, fp, s.els.value, L', k'); } else { NoCode(loops, []); }
    var ee := if s.els.Some? then GenStmt(fp, s.els.value, L', k') else Empty;
    WellPopped(loops, ee, 1);
    WellBranch(loops, cc, Cat(One(Pop, 1), tt), Cat(One(Pop, 1), ee), 1);
  }

  lemma {:induction false} WellStmts(loops: bool, fp: Arith, ss: seq<Stmt>, L: seq<string>, k: nat)
    requires loops || forall s | s in ss :: LoopFree(s)
    ensures Well(loops, GenStmts(fp, ss, L, k))
    decreases ss, 1
  {
    hide Well, GenStmt, Declared, Cat;
    if ss == [] {
      NoCode(loops, []);
    } else {
      var a := GenStmt(fp, ss[0], L, k);
      WellStmt(loops, fp, ss[0], L, k);
      WellStmts(loops, fp, ss[1..], L + Declared(ss[0]), k + |a.consts|);
      WellCat(loops, a, GenStmts(fp, ss[1..], L + Declared(ss[0]), k + |a.consts|));
    }
  }

  lemma {:induction false} WellLoop(loops: bool, fp: Arith, c: Option<Expr>, u: Option<Expr>, body: Stmt,
                                    L: seq<string>, k: nat)
    requires loops
    ensures Well(loops, GenLoop(fp, c, u, body, L, k))
    decreases body, 3
  {
    hide Well, GenExpr, GenIteration, LoopWhile, LoopForever;
    if c.None? {
      WellIteration(loops, fp, u, body, L, k);
      WellLoopForever(loops, GenIteration(fp, u, body, L, k));
    } else {
      var cc := GenExpr(fp, c.value, L, k, 0);
      WellExpr(loops, fp, c.value, L, k, 0);
      WellIteration(loops, fp, u, body, L, k + |cc.consts|);
      WellLoopWhile(loops, cc, GenIteration(fp, u, body, L, k + |cc.consts|));
    }
  }

  lemma {:induction false} WellIteration(loops: bool, fp: Arith, u: Option<Expr>, body: Stmt, L: seq<string>, k: nat)
    requires loops
    ensures Well(loops, GenIteration(fp, u, body, L, k))
    decreases body, 2
  {
    hide Well, GenExpr, GenStmt, One, Cat;
    var bb := GenStmt(fp, body, L, k);
    WellStmt(loops, fp, body, L, k);
    if u.Some? {
      var uu := GenExpr(fp, u.value, L, k + |bb.consts|, 0);
      WellExpr(loops, fp, u.value, L, k + |bb.consts|, 0);
      WellOne(loops, Pop, 1);
      WellThree(loops, bb, uu, One(Pop, 1));
    }
  }

  lemma {:induction false} WellCases(loops: bool, fp: Arith, s: Stmt, i: nat, L: seq<string>, k: nat)
    requires s.Switch? && i <= |s.cases| && (loops || LoopFree(s))
    ensures Well(loops, GenCases(fp, s, i, L, k))
    decreases s, 0, |s.cases| - i
  {
    hide Well, GenExpr, GenStmt, CaseArm, Declared, One, Cat;
    if i == |s.cases| {
      if s.default.Some? { WellStmt(loops, fp, s.default.value, L, k); } else { NoCode(loops, []); }
      WellPopped(loops, if s.default.Some? then GenStmt(fp, s.default.value, L, k) else Empty, 1);
    } else {
      var vv := GenExpr(fp, s.cases[i].value, L, k, 2);
      var bb := GenStmt(fp, s.cases[i].body, L, k + |vv.consts|);
      var L', k' := L + Declared(s.cases[i].body), k + |vv.consts| + |bb.consts|;
      WellExpr(loops, fp, s.cases[i].value, L, k, 2);
      WellStmt(loops, fp, s.cases[i].body, L, k + |vv.consts|);
      WellCases(loops, fp, s, i + 1, L', k');
      WellCaseArm(loops, vv, bb, GenCases(fp, s, i + 1, L', k'));
    }
  }

  lemma WellFunction(loops: bool, fp: Arith, f: Function)
    requires loops || forall s | s in f.body :: LoopFree(s)
    ensures Well(loops, GenFunction(fp, f))
  {
    hide Well, GenStmts, One, Cat;
    WellStmts(loops, fp, f.body, f.params, 0);
    WellOne(loops, PushNil, 0);
    WellOne(loops, Return, 1);
    WellThree(loops, GenStmts(fp, f.body, f.params, 0), One(PushNil, 0), One(Return, 1));
  }

  // ----- the result -----

  lemma DecodeSuffix(code: seq<byte>, o: nat)
    requires o < |code|
    ensures Decode(code[o..], 0) == Decode(code, o)
  {
  }

  /** The bytes decoding comes to are exactly those that carry a height. */
  lemma {:induction false} MarkedStarts(loops: bool, code: seq<byte>, marks: seq<int>, o: nat, p: nat)
    requires |code| == |marks| && o <= p < |code| && Parses(loops, code[o..], marks[o..])
    ensures Comes(code, o, p) <==> marks[p] >= 0
    ensures marks[p] >= 0 ==> Decode(code, p).Some? && (loops || !Decode(code, p).value.Loop?)
    decreases p - o
  {
    hide Decode;
    DecodeSuffix(code, o);
    assert marks[o..][0] == marks[o];
    if o < p {
      var w := Width(Decode(code, o).value);
      if p < o + w {
        assert marks[o..][p - o] == marks[p];
        PastIt(code, o + w, p);
      } else {
        assert code[o..][w..] == code[o + w..] && marks[o..][w..] == marks[o + w..];
        MarkedStarts(loops, code, marks, o + w, p);
      }
    }
  }

  lemma PastIt(code: seq<byte>, from: nat, p: nat)
    requires p < from
    ensures !Comes(code, from, p)
  {
  }

  /** Back-patching is sound: in a compiled function decoding never fails, and every jump,
      forward or back, leads to the start of an instruction inside the code. */
  lemma JumpsLandOnStarts(fp: Arith, f: Function, limit: CaseLimit, p: nat)
    requires WithinLimits(fp, f, limit) && p < |Compile(fp, f).code| && Starts(Compile(fp, f).code, p)
    ensures var code := Compile(fp, f).code;
            var d := Decode(code, p);
            && d.Some?
            && var next := p + Width(d.value);
            && (d.value.Jump? || d.value.JumpIfFalse? ==>
                  next + d.value.off < |code| && Starts(code, next + d.value.off))
            && (d.value.Loop? ==> 0 <= next - d.value.off < |code| && Starts(code, next - d.value.off))
  {
    hide Decode, Width, GenFunction, PeakAll, AllJumpsFit, SmallStmt, Typed, Parses, Comes;
    var g, b := GenFunction(fp, f), BoundsOf(fp, f, limit);
    WellFunction(true, fp, f);
    FunctionTyped(fp, f, limit);
    assert g.code[0..] == g.code && g.marks[0..] == g.marks;
    MarkedStarts(true, g.code, g.marks, 0, p);
    var i := DecodeTyped(b, g, p);
    var next := p + Width(i);
    if i.Jump? || i.JumpIfFalse? {
      LandsInside(g, next + i.off, g.marks[p]);
      MarkedStarts(true, g.code, g.marks, 0, next + i.off);
    } else if i.Loop? {
      LandsInside(g, next - i.off, g.marks[p]);
      MarkedStarts(true, g.code, g.marks, 0, next - i.off);
    }
  }

  /** Every slot a compiled function names is below the local count recorded for it, every
      constant is in its pool, and no instruction is one the avatar lacks. */
  lemma OperandsInBounds(fp: Arith, f: Function, limit: CaseLimit, p: nat)
    requires WithinLimits(fp, f, limit) && p < |Compile(fp, f).code| && Starts(Compile(fp, f).code, p)
    ensures var prog := Compile(fp, f);
            var d := Decode(prog.code, p);
            && d.Some?
            && (d.value.GetLocal? || d.value.SetLocal? ==> d.value.slot < prog.localCount)
            && (d.value.Constant? ==> d.value.k < |prog.consts|)
            && !d.value.Other? && !d.value.ConstantLong?
  {
    hide Decode, Width, GenFunction, PeakAll, AllJumpsFit, SmallStmt, Typed, Parses, Comes;
    var g, b := GenFunction(fp, f), BoundsOf(fp, f, limit);
    WellFunction(true, fp, f);
    FunctionTyped(fp, f, limit);
    assert g.code[0..] == g.code && g.marks[0..] == g.marks;
    MarkedStarts(true, g.code, g.marks, 0, p);
    var i := DecodeTyped(b, g, p);
  }
}
