/** What the compiler emits, as a function of the syntax tree.

    Jumps are relative, so the bytes of a construct depend only on the local table
    and on how many constants precede it.  Every byte carries a mark: the operand
    stack height (above the locals) at which its instruction runs, or -1 for an
    operand byte. */
module CodeGen {
  import opened Wrappers
  import opened Values
  import opened Bytecode
  import opened Source

  datatype RawFrag = Frag(code: seq<byte>, marks: seq<int>, consts: seq<Value>)

  type Frag = f: RawFrag | |f.code| == |f.marks| witness Frag([], [], [])

  const Empty: Frag := Frag([], [], [])

  function Cat(a: Frag, b: Frag): (f: Frag)
    ensures f.consts == a.consts + b.consts && |f.code| == |a.code| + |b.code|
  {
    Frag(a.code + b.code, a.marks + b.marks, a.consts + b.consts)
  }

  function InstrMarks(width: nat, h: int): seq<int> {
    if width == 1 then [h] else if width == 2 then [h, -1] else [h, -1, -1]
  }

  /** One instruction at height `h`. */
  function One(i: Instr, h: nat): (f: Frag)
    ensures f.consts == [] && f.code == Encode(i) && f.marks == InstrMarks(Width(i), h) && |f.code| == Width(i)
  {
    Frag(Encode(i), InstrMarks(Width(i), h), [])
  }

  /** Slot of the innermost local called `x`, or -1. */
  function Resolve(locals: seq<string>, x: string): (r: int)
    ensures -1 <= r < |locals|
    ensures r >= 0 ==> locals[r] == x
    ensures forall i :: r < i < |locals| ==> locals[i] != x
  {
    if locals == [] then -1
    else if locals[|locals| - 1] == x then |locals| - 1
    else Resolve(locals[..|locals| - 1], x)
  }

  // ----- expressions -----

  /** Instructions whose operand is a pool index: one byte if it fits, else two. */
  function PushInstr(k: nat): Instr {
    if k < 0x100 then Constant(k) else ConstantLong(k % 0x1_0000)
  }

  function LoadGlobal(k: nat): Instr {
    if k < 0x100 then GetGlobal(k) else GetGlobalLong(k % 0x1_0000)
  }

  function StoreGlobal(k: nat): Instr {
    if k < 0x100 then SetGlobal(k) else SetGlobalLong(k % 0x1_0000)
  }

  /** Adds `v` to the pool, where it gets index `k`, and pushes it. */
  function Push(v: Value, k: nat, h: nat): (f: Frag)
    ensures f.consts == [v] && f.code == Encode(PushInstr(k))
  {
    Cat(One(PushInstr(k), h), Frag([], [], [v]))
  }

  function Load(locals: seq<string>, x: string, k: nat, h: nat): Frag {
    var r := Resolve(locals, x);
    if r >= 0 then One(GetLocal(r % 0x100), h)
    else Cat(One(LoadGlobal(k), h), Frag([], [], [Str(x)]))
  }

  function Store(locals: seq<string>, x: string, k: nat, h: nat): Frag {
    var r := Resolve(locals, x);
    if r >= 0 then One(SetLocal(r % 0x100), h)
    else Cat(One(StoreGlobal(k), h), Frag([], [], [Str(x)]))
  }

  function GenLiteral(v: Value, k: nat, h: nat): Frag {
    match v
    case Bool(b) => One(if b then PushTrue else PushFalse, h)
    case Num(_) => Push(v, k, h)
    case Str(_) => Push(v, k, h)
    case _ => One(PushNil, h)
  }

  function GenExpr(fp: Arith, e: Expr, L: seq<string>, k: nat, h: nat): Frag
    decreases e, 1
  {
    match e
    case Lit(v) => GenLiteral(v, k, h)
    case Var(x) => Load(L, x, k, h)
    case BinaryExpr(op, l, r) =>
      var a := GenExpr(fp, l, L, k, h);
      var b := GenExpr(fp, r, L, k + |a.consts|, h + 1);
      Cat(a, Cat(b, One(Binary(op), h + 2)))
    case UnaryExpr(op, x) => Cat(GenExpr(fp, x, L, k, h), One(Unary(op), h + 1))
    case Interp(head, ps) => Cat(Push(Str(head), k, h), GenPieces(fp, ps, L, k + 1, h + 1))
    case ArrayLit(es) => Cat(GenAll(fp, es, L, k, h), One(Array(|es| % 0x100), h + |es|))
    case IndexExpr(x, i) =>
      var a := GenExpr(fp, x, L, k, h);
      var b := GenExpr(fp, i, L, k + |a.consts|, h + 1);
      Cat(a, Cat(b, One(ArrayGet, h + 2)))
    case Member(x, p) =>
      var a := GenExpr(fp, x, L, k, h);
      Cat(a, Cat(Push(Str(p), k + |a.consts|, h + 1), One(ObjectGet, h + 2)))
    case Assign(x, op, r) =>
      if op.Set? then
        var b := GenExpr(fp, r, L, k, h);
        Cat(b, Store(L, x, k + |b.consts|, h + 1))
      else
        var a := Load(L, x, k, h);
        var b := GenExpr(fp, r, L, k + |a.consts|, h + 1);
        Cat(a, Cat(b, Cat(One(Binary(CompoundOp(op)), h + 2),
          Store(L, x, k + |a.consts| + |b.consts|, h + 1))))
    case Destructure(xs, r) =>
      var a := GenExpr(fp, r, L, k, h);
      Cat(a, GenTargets(fp, xs, 0, L, k + |a.consts|, h + 1))
  }

  function GenAll(fp: Arith, es: seq<Expr>, L: seq<string>, k: nat, h: nat): Frag
    decreases es, 0
  {
    if es == [] then Empty
    else
      var a := GenExpr(fp, es[0], L, k, h);
      Cat(a, GenAll(fp, es[1..], L, k + |a.consts|, h + 1))
  }

  /** `h` counts the text built so far, which is on top of the stack. */
  function GenPieces(fp: Arith, ps: seq<Piece>, L: seq<string>, k: nat, h: nat): Frag
    decreases ps, 0
  {
    if ps == [] then Empty
    else
      var a := GenExpr(fp, ps[0].e, L, k, h);
      var rest := GenPieces(fp, ps[1..], L, k + |a.consts| + 1, h);
      PieceArm(a, Push(Str(ps[0].text), k + |a.consts|, h), rest, h)
  }

  /** value; TO_STRING; ADD; text; ADD; rest */
  function PieceArm(a: Frag, text: Frag, rest: Frag, h: nat): (f: Frag)
    ensures f.consts == a.consts + text.consts + rest.consts
  {
    hide Encode, InstrMarks;
    Cat(a, Cat(One(ToString, h + 1), Cat(One(Binary(Add), h + 1), Cat(text, Cat(One(Binary(Add), h + 1), rest)))))
  }

  /** `h` counts the array being taken apart, which is on top of the stack. */
  function GenTargets(fp: Arith, xs: seq<string>, i: nat, L: seq<string>, k: nat, h: nat): Frag {
    if xs == [] then Empty
    else
      var st := Store(L, xs[0], k + 1, h + 1);
      var rest := GenTargets(fp, xs[1..], i + 1, L, k + 1 + |st.consts|, h);
      TargetArm(Push(Num(fp.ofInt(i)), k, h + 1), st, rest, h)
  }

  /** DUP; index; ARRAY_GET; store; POP; rest */
  function TargetArm(index: Frag, st: Frag, rest: Frag, h: nat): (f: Frag)
    ensures f.consts == index.consts + st.consts + rest.consts
  {
    hide Encode, InstrMarks;
    Cat(One(Dup, h), Cat(index, Cat(One(ArrayGet, h + 2), Cat(st, Cat(One(Pop, h + 1), rest)))))
  }

  // ----- the shape of the code, one construct at a time -----

  lemma BinaryCode(fp: Arith, e: Expr, L: seq<string>, k: nat, h: nat)
    requires e.BinaryExpr?
    ensures var x := GenExpr(fp, e.left, L, k, h);
            var y := GenExpr(fp, e.right, L, k + |x.consts|, h + 1);
            GenExpr(fp, e, L, k, h) == Cat(x, Cat(y, One(Binary(e.op), h + 2)))
  {
    hide GenLiteral, Load, Store, Push, One, Cat, GenPieces, GenAll, GenTargets, Resolve;
  }

  lemma UnaryCode(fp: Arith, e: Expr, L: seq<string>, k: nat, h: nat)
    requires e.UnaryExpr?
    ensures GenExpr(fp, e, L, k, h) == Cat(GenExpr(fp, e.operand, L, k, h), One(Unary(e.uop), h + 1))
  {
    hide GenLiteral, Load, Store, Push, One, Cat, GenPieces, GenAll, GenTargets, Resolve;
  }

  lemma InterpCode(fp: Arith, e: Expr, L: seq<string>, k: nat, h: nat)
    requires e.Interp?
    ensures GenExpr(fp, e, L, k, h) == Cat(Push(Str(e.head), k, h), GenPieces(fp, e.pieces, L, k + 1, h + 1))
  {
    hide GenLiteral, Load, Store, Push, One, Cat, GenPieces, GenAll, GenTargets, Resolve;
  }

  lemma ArrayCode(fp: Arith, e: Expr, L: seq<string>, k: nat, h: nat)
    requires e.ArrayLit?
    ensures GenExpr(fp, e, L, k, h) == Cat(GenAll(fp, e.elems, L, k, h), One(Array(|e.elems| % 0x100), h + |e.elems|))
  {
    hide GenLiteral, Load, Store, Push, One, Cat, GenPieces, GenAll, GenTargets, Resolve;
  }

  lemma IndexCode(fp: Arith, e: Expr, L: seq<string>, k: nat, h: nat)
    requires e.IndexExpr?
    ensures var x := GenExpr(fp, e.container, L, k, h);
            var y := GenExpr(fp, e.index, L, k + |x.consts|, h + 1);
            GenExpr(fp, e, L, k, h) == Cat(x, Cat(y, One(ArrayGet, h + 2)))
  {
    hide GenLiteral, Load, Store, Push, One, Cat, GenPieces, GenAll, GenTargets, Resolve;
  }

  lemma MemberCode(fp: Arith, e: Expr, L: seq<string>, k: nat, h: nat)
    requires e.Member?
    ensures var x := GenExpr(fp, e.subject, L, k, h);
            GenExpr(fp, e, L, k, h) == Cat(x, Cat(Push(Str(e.property), k + |x.consts|, h + 1), One(ObjectGet, h + 2)))
  {
    hide GenLiteral, Load, Store, Push, One, Cat, GenPieces, GenAll, GenTargets, Resolve;
  }

  lemma AssignCode(fp: Arith, e: Expr, L: seq<string>, k: nat, h: nat)
    requires e.Assign? && e.aop.Set?
    ensures var v := GenExpr(fp, e.value, L, k, h);
            GenExpr(fp, e, L, k, h) == Cat(v, Store(L, e.target, k + |v.consts|, h + 1))
  {
    hide GenLiteral, Load, Store, Push, One, Cat, GenPieces, GenAll, GenTargets, Resolve;
  }

  lemma CompoundCode(fp: Arith, e: Expr, L: seq<string>, k: nat, h: nat)
    requires e.Assign? && !e.aop.Set?
    ensures var a := Load(L, e.target, k, h);
            var v := GenExpr(fp, e.value, L, k + |a.consts|, h + 1);
            var st := Store(L, e.target, k + |a.consts| + |v.consts|, h + 1);
            GenExpr(fp, e, L, k, h) == Cat(a, Cat(v, Cat(One(Binary(CompoundOp(e.aop)), h + 2), st)))
  {
    hide GenLiteral, Load, Store, Push, One, Cat, GenPieces, GenAll, GenTargets, Resolve;
  }

  lemma DestructureCode(fp: Arith, e: Expr, L: seq<string>, k: nat, h: nat)
    requires e.Destructure?
    ensures var x := GenExpr(fp, e.source, L, k, h);
            GenExpr(fp, e, L, k, h) == Cat(x, GenTargets(fp, e.targets, 0, L, k + |x.consts|, h + 1))
  {
    hide GenLiteral, Load, Store, Push, One, Cat, GenPieces, GenAll, GenTargets, Resolve;
  }

  lemma AllCode(fp: Arith, es: seq<Expr>, L: seq<string>, k: nat, h: nat)
    requires es != []
    ensures var x := GenExpr(fp, es[0], L, k, h);
            GenAll(fp, es, L, k, h) == Cat(x, GenAll(fp, es[1..], L, k + |x.consts|, h + 1))
  {
    hide GenExpr, Cat;
  }

  lemma PiecesCode(fp: Arith, ps: seq<Piece>, L: seq<string>, k: nat, h: nat)
    requires ps != []
    ensures var x := GenExpr(fp, ps[0].e, L, k, h);
            var rest := GenPieces(fp, ps[1..], L, k + |x.consts| + 1, h);
            GenPieces(fp, ps, L, k, h) == PieceArm(x, Push(Str(ps[0].text), k + |x.consts|, h), rest, h)
  {
    hide GenExpr, Push, PieceArm;
  }

  lemma TargetsCode(fp: Arith, xs: seq<string>, i: nat, L: seq<string>, k: nat, h: nat)
    requires xs != []
    ensures var st := Store(L, xs[0], k + 1, h + 1);
            var rest := GenTargets(fp, xs[1..], i + 1, L, k + 1 + |st.consts|, h);
            GenTargets(fp, xs, i, L, k, h) == TargetArm(Push(Num(fp.ofInt(i)), k, h + 1), st, rest, h)
  {
    hide TargetArm, Store, Push;
  }

  // ----- statements -----

  /** A 16-bit jump distance. */
  function Dist(d: nat): word { d % 0x1_0000 }

  function GenStmt(fp: Arith, s: Stmt, L: seq<string>, k: nat): Frag
    decreases s, 1
  {
    match s
    case Block(ss) => GenStmts(fp, ss, L, k)
    case Let(x, init) => GenLet(fp, x, init, L, k)
    case If(c, t, e) =>
      var cc := GenExpr(fp, c, L, k, 0);
      var tt := GenStmt(fp, t, L, k + |cc.consts|);
      var ee := if e.Some? then GenStmt(fp, e.value, L + Declared(t), k + |cc.consts| + |tt.consts|) else Empty;
      Conditional(cc, tt, ee)
    case While(c, body) => GenLoop(fp, Some(c), None, body, L, k)
    case For(init, c, u, body) =>
      var ii := GenInit(fp, init, L, k);
      Cat(ii, GenLoop(fp, c, u, body, L + InitNames(init), k + |ii.consts|))
    case Switch(v, cases, _) =>
      var vv := GenExpr(fp, v, L, k, 0);
      if |cases| > MAX_CASES then vv else Cat(vv, GenCases(fp, s, 0, L, k + |vv.consts|))
    case ExprStmt(e) => Cat(GenExpr(fp, e, L, k, 0), One(Pop, 1))
    case ReturnStmt(r) =>
      Cat(GenValue(fp, r, L, k), One(Return, 1))
  }

  function GenStmts(fp: Arith, ss: seq<Stmt>, L: seq<string>, k: nat): Frag
    decreases ss, 1
  {
    if ss == [] then Empty
    else
      var a := GenStmt(fp, ss[0], L, k);
      Cat(a, GenStmts(fp, ss[1..], L + Declared(ss[0]), k + |a.consts|))
  }

  /** An optional expression; nil if there is none. */
  function GenValue(fp: Arith, e: Option<Expr>, L: seq<string>, k: nat): Frag {
    if e.Some? then GenExpr(fp, e.value, L, k, 0) else One(PushNil, 0)
  }

  function GenLet(fp: Arith, x: string, init: Option<Expr>, L: seq<string>, k: nat): Frag {
    Cat(GenValue(fp, init, L + [x], k), Cat(One(SetLocal(|L| % 0x100), 1), One(Pop, 1)))
  }

  lemma LetCode(fp: Arith, x: string, init: Option<Expr>, L: seq<string>, k: nat)
    ensures var a := GenValue(fp, init, L + [x], k);
            var f := GenLet(fp, x, init, L, k);
            && f.consts == a.consts
            && (|L| < 0x100 ==> f == Cat(a, Cat(One(SetLocal(|L|), 1), One(Pop, 1))))
  {
    hide GenValue;
  }

  function GenInit(fp: Arith, init: ForInit, L: seq<string>, k: nat): Frag {
    match init
    case NoInit => Empty
    case LetInit(x, e) => GenLet(fp, x, e, L, k)
    case ExprInit(e) => Cat(GenExpr(fp, e, L, k, 0), One(Pop, 1))
  }

  function InitNames(init: ForInit): seq<string> {
    if init.LetInit? then [init.x] else []
  }

  /** `test` leaves a condition at height `h`; `yes` and `no` both start by popping it.
      test; JUMP_IF_FALSE to `no`; yes; JUMP past `no`; no */
  function Branch(test: Frag, yes: Frag, no: Frag, h: nat): (f: Frag)
    ensures f.consts == test.consts + yes.consts + no.consts
    ensures |f.code| == |test.code| + |yes.code| + |no.code| + 6
  {
    hide Encode, InstrMarks;
    Cat(test, Cat(One(JumpIfFalse(Dist(|yes.code| + 3)), h),
      Cat(yes, Cat(One(Jump(Dist(|no.code|)), 0), no))))
  }

  function Conditional(cc: Frag, tt: Frag, ee: Frag): (f: Frag)
    ensures f.consts == cc.consts + tt.consts + ee.consts
  {
    hide Encode, InstrMarks;
    Branch(cc, Cat(One(Pop, 1), tt), Cat(One(Pop, 1), ee), 1)
  }

  /** The case value `vv` is compared with a copy of the scrutinee. */
  function CaseArm(vv: Frag, bb: Frag, rest: Frag): (f: Frag)
    ensures f.consts == vv.consts + bb.consts + rest.consts
  {
    hide Encode, InstrMarks;
    Branch(Cat(One(Dup, 1), Cat(vv, One(Binary(Eq), 3))),
      Cat(One(Pop, 2), Cat(One(Pop, 1), bb)), Cat(One(Pop, 2), rest), 2)
  }

  /** cond; JUMP_IF_FALSE to the last POP; POP; body; LOOP to cond; POP */
  function LoopWhile(cc: Frag, bb: Frag): (f: Frag)
    ensures f.consts == cc.consts + bb.consts && |f.code| == |cc.code| + |bb.code| + 8
  {
    hide Encode, InstrMarks;
    var body := Cat(One(Pop, 1), bb);
    Cat(cc, Cat(One(JumpIfFalse(Dist(|body.code| + 3)), 1),
      Cat(body, Cat(One(Loop(Dist(|cc.code| + |body.code| + 6)), 0), One(Pop, 1)))))
  }

  function LoopForever(bb: Frag): (f: Frag)
    ensures f.consts == bb.consts && |f.code| == |bb.code| + 3
  {
    hide Encode, InstrMarks;
    Cat(bb, One(Loop(Dist(|bb.code| + 3)), 0))
  }

  /** Body and update of a loop, in that order. */
  function GenIteration(fp: Arith, u: Option<Expr>, body: Stmt, L: seq<string>, k: nat): Frag
    decreases body, 2
  {
    var bb := GenStmt(fp, body, L, k);
    if u.None? then bb
    else Cat(bb, Cat(GenExpr(fp, u.value, L, k + |bb.consts|, 0), One(Pop, 1)))
  }

  function GenLoop(fp: Arith, c: Option<Expr>, u: Option<Expr>, body: Stmt, L: seq<string>, k: nat): Frag
    decreases body, 3
  {
    if c.None? then LoopForever(GenIteration(fp, u, body, L, k))
    else
      var cc := GenExpr(fp, c.value, L, k, 0);
      LoopWhile(cc, GenIteration(fp, u, body, L, k + |cc.consts|))
  }

  /** Cases from `i` on, then the default; the scrutinee is on the stack. */
  function GenCases(fp: Arith, s: Stmt, i: nat, L: seq<string>, k: nat): Frag
    requires s.Switch? && i <= |s.cases|
    decreases s, 0, |s.cases| - i
  {
    if i == |s.cases| then
      Cat(One(Pop, 1), if s.default.Some? then GenStmt(fp, s.default.value, L, k) else Empty)
    else
      var vv := GenExpr(fp, s.cases[i].value, L, k, 2);
      var bb := GenStmt(fp, s.cases[i].body, L, k + |vv.consts|);
      var rest := GenCases(fp, s, i + 1, L + Declared(s.cases[i].body), k + |vv.consts| + |bb.consts|);
      CaseArm(vv, bb, rest)
  }

  /** A whole function: its body, then `return nil`. */
  function GenFunction(fp: Arith, f: Function): Frag {
    Cat(GenStmts(fp, f.body, f.params, 0), Cat(One(PushNil, 0), One(Return, 1)))
  }

  // ----- limits -----

  /** Largest number of locals alive at once, starting from `n`. */
  function Peak(s: Stmt, n: nat): (r: nat)
    ensures r >= n + |Declared(s)|
    decreases s, 1
  {
    match s
    case Block(ss) => PeakAll(ss, n)
    case Let(_, _) => n + 1
    case If(_, t, e) =>
      var p := Peak(t, n);
      if e.Some? then Max(p, Peak(e.value, n + |Declared(t)|)) else p
    case While(_, body) => Peak(body, n)
    case For(init, _, _, body) => Peak(body, n + |InitNames(init)|)
    case Switch(_, cases, _) => if |cases| > MAX_CASES then n else PeakCases(s, 0, n)
    case _ => n
  }

  function PeakAll(ss: seq<Stmt>, n: nat): (r: nat)
    ensures r >= n
    decreases ss, 1
  {
    if ss == [] then n else Max(Peak(ss[0], n), PeakAll(ss[1..], n + |Declared(ss[0])|))
  }

  function PeakCases(s: Stmt, i: nat, n: nat): (r: nat)
    requires s.Switch? && i <= |s.cases|
    ensures r >= n + |DeclaredCases(s, i)|
    decreases s, 0, |s.cases| - i
  {
    if i < |s.cases| then
      Max(Peak(s.cases[i].body, n), PeakCases(s, i + 1, n + |Declared(s.cases[i].body)|))
    else if s.default.Some? then Peak(s.default.value, n)
    else n
  }

  function Max(a: nat, b: nat): nat { if a < b then b else a }

  /** Every jump the statement needs spans at most 0xFFFF bytes. */
  predicate JumpsFit(fp: Arith, s: Stmt, L: seq<string>, k: nat)
    decreases s, 1
  {
    match s
    case Block(ss) => AllJumpsFit(fp, ss, L, k)
    case If(c, t, e) =>
      var cc := GenExpr(fp, c, L, k, 0);
      var tt := GenStmt(fp, t, L, k + |cc.consts|);
      && JumpsFit(fp, t, L, k + |cc.consts|)
      && |tt.code| + 4 < 0x1_0000
      && if e.None? then true
         else
           && JumpsFit(fp, e.value, L + Declared(t), k + |cc.consts| + |tt.consts|)
           && |GenStmt(fp, e.value, L + Declared(t), k + |cc.consts| + |tt.consts|).code| + 1 < 0x1_0000
    case While(c, body) => LoopFits(fp, Some(c), None, body, L, k)
    case For(init, c, u, body) =>
      LoopFits(fp, c, u, body, L + InitNames(init), k + |GenInit(fp, init, L, k).consts|)
    case Switch(v, cases, _) =>
      |cases| <= MAX_CASES ==> CasesFit(fp, s, 0, L, k + |GenExpr(fp, v, L, k, 0).consts|)
    case _ => true
  }

  predicate AllJumpsFit(fp: Arith, ss: seq<Stmt>, L: seq<string>, k: nat)
    decreases ss, 1
  {
    ss != [] ==>
      && JumpsFit(fp, ss[0], L, k)
      && AllJumpsFit(fp, ss[1..], L + Declared(ss[0]), k + |GenStmt(fp, ss[0], L, k).consts|)
  }

  predicate LoopFits(fp: Arith, c: Option<Expr>, u: Option<Expr>, body: Stmt, L: seq<string>, k: nat)
    decreases body, 3
  {
    var k' := if c.Some? then k + |GenExpr(fp, c.value, L, k, 0).consts| else k;
    && JumpsFit(fp, body, L, k')
    && |GenLoop(fp, c, u, body, L, k).code| < 0x1_0000 + (if c.Some? then 1 else 0)
  }

  predicate CasesFit(fp: Arith, s: Stmt, i: nat, L: seq<string>, k: nat)
    requires s.Switch? && i <= |s.cases|
    decreases s, 0, |s.cases| - i
  {
    if i == |s.cases| then s.default.Some? ==> JumpsFit(fp, s.default.value, L, k)
    else
      var vv := GenExpr(fp, s.cases[i].value, L, k, 2);
      var bb := GenStmt(fp, s.cases[i].body, L, k + |vv.consts|);
      var L' := L + Declared(s.cases[i].body);
      var k' := k + |vv.consts| + |bb.consts|;
      && JumpsFit(fp, s.cases[i].body, L, k + |vv.consts|)
      && |bb.code| + 5 < 0x1_0000
      && CasesFit(fp, s, i + 1, L', k')
      && |GenCases(fp, s, i + 1, L', k').code| + 1 < 0x1_0000
  }
}
