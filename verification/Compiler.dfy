/** The compiler itself: one pass over the tree that appends bytes to a chunk, keeps a
    table of locals, and patches forward jumps once their targets are known.  Every
    routine is proved to emit what `CodeGen` says, and to give up exactly when a limit
    of the format is exceeded. */
module Compiling {
  import opened Wrappers
  import opened Values
  import opened Bytecode
  import opened Source
  import opened CodeGen
  import opened Chunks
  import opened Machine
  import opened Lockstep

  const MAX_LOCALS := 256
  const MAX_CONSTANTS := 0x1_0000

  datatype Local = Local(name: string, depth: nat)

  function NamesOf(ls: seq<Local>): (r: seq<string>)
    ensures |r| == |ls|
  {
    seq(|ls|, i requires 0 <= i < |ls| => ls[i].name)
  }

  /** The constants of `f` fit a pool that holds `k` already. */
  predicate Holds(k: nat, f: Frag) {
    f.consts == [] || k + |f.consts| <= MAX_CONSTANTS
  }

  lemma AppendTwo(s: seq<byte>, a: seq<byte>, b: seq<byte>)
    ensures s + a + b == s + (a + b)
  {
  }

  function Plus(c: Contents, f: Frag): Contents {
    Contents(c.bytes + f.code, c.pool + f.consts)
  }

  lemma PlusCat(c: Contents, a: Frag, b: Frag)
    ensures Plus(Plus(c, a), b) == Plus(c, Cat(a, b))
  {
    assert c.bytes + a.code + b.code == c.bytes + (a.code + b.code);
    assert c.pool + a.consts + b.consts == c.pool + (a.consts + b.consts);
  }

  /** An instruction together with the constant its operand names. */
  lemma PlusNamed(c: Contents, i: Instr, h: nat, v: Value)
    ensures Plus(c, Cat(One(i, h), Frag([], [], [v]))) == Contents(c.bytes + Encode(i), c.pool + [v])
  {
    assert Encode(i) + [] == Encode(i);
    assert [] + [v] == [v];
  }

  lemma IndexedBytes(k: nat)
    requires k < MAX_CONSTANTS
    ensures var rest := if k < 0x100 then [k] else [k / 0x100, k % 0x100];
            && Encode(PushInstr(k)) == [if k < 0x100 then 0 else 1] + rest
            && Encode(LoadGlobal(k)) == [if k < 0x100 then 24 else 27] + rest
            && Encode(StoreGlobal(k)) == [if k < 0x100 then 25 else 28] + rest
  {
  }

  lemma PlusSize(c: Contents, f: Frag)
    ensures |Plus(c, f).pool| == |c.pool| + |f.consts|
  {
  }

  lemma PlusThree(c: Contents, x: Frag, y: Frag, z: Frag)
    ensures Plus(Plus(Plus(c, x), y), z) == Plus(c, Cat(x, Cat(y, z)))
  {
    hide *;
    PlusCat(Plus(c, x), y, z);
    PlusCat(c, x, Cat(y, z));
  }

  lemma PlusFive(c: Contents, x: Frag, y: Frag, z: Frag, u: Frag, v: Frag)
    ensures Plus(Plus(Plus(Plus(Plus(c, x), y), z), u), v) == Plus(c, Cat(x, Cat(y, Cat(z, Cat(u, v)))))
  {
    hide *;
    PlusThree(Plus(Plus(c, x), y), z, u, v);
    PlusThree(c, x, y, Cat(z, Cat(u, v)));
  }

  lemma PlusPiece(c: Contents, x: Frag, text: Frag, rest: Frag, h: nat)
    ensures var conv, join := One(ToString, h + 1), One(Binary(Add), h + 1);
            Plus(Plus(Plus(Plus(Plus(Plus(c, x), conv), join), text), join), rest)
              == Plus(c, PieceArm(x, text, rest, h))
  {
    hide Plus, Cat, One;
    var conv, join := One(ToString, h + 1), One(Binary(Add), h + 1);
    PlusFive(Plus(c, x), conv, join, text, join, rest);
    PlusCat(c, x, Cat(conv, Cat(join, Cat(text, Cat(join, rest)))));
  }

  lemma PlusTarget(c: Contents, index: Frag, st: Frag, rest: Frag, h: nat)
    ensures var dup, get, pop := One(Dup, h), One(ArrayGet, h + 2), One(Pop, h + 1);
            Plus(Plus(Plus(Plus(Plus(Plus(c, dup), index), get), st), pop), rest)
              == Plus(c, TargetArm(index, st, rest, h))
  {
    hide Plus, Cat, One;
    var dup, get, pop := One(Dup, h), One(ArrayGet, h + 2), One(Pop, h + 1);
    PlusFive(Plus(c, dup), index, get, st, pop, rest);
    PlusCat(c, dup, Cat(index, Cat(get, Cat(st, Cat(pop, rest)))));
  }

  /** What follows one piece, or one target, is appended to it. */
  lemma PlusPieceRest(c: Contents, x: Frag, text: Frag, rest: Frag, h: nat)
    ensures Plus(Plus(c, PieceArm(x, text, Empty, h)), rest) == Plus(c, PieceArm(x, text, rest, h))
  {
    hide Plus, Cat, One, PieceArm;
    PlusPiece(c, x, text, Empty, h);
    PlusPiece(c, x, text, rest, h);
    PlusEmpty(Plus(Plus(Plus(Plus(Plus(c, x), One(ToString, h + 1)), One(Binary(Add), h + 1)), text),
      One(Binary(Add), h + 1)));
  }

  lemma PlusTargetRest(c: Contents, index: Frag, st: Frag, rest: Frag, h: nat)
    ensures Plus(Plus(c, TargetArm(index, st, Empty, h)), rest) == Plus(c, TargetArm(index, st, rest, h))
  {
    hide Plus, Cat, One, TargetArm;
    PlusTarget(c, index, st, Empty, h);
    PlusTarget(c, index, st, rest, h);
    PlusEmpty(Plus(Plus(Plus(Plus(Plus(c, One(Dup, h)), index), One(ArrayGet, h + 2)), st), One(Pop, h + 1)));
  }

  lemma PlusEmpty(c: Contents)
    ensures Plus(c, Empty) == c
  {
    assert c.bytes + [] == c.bytes && c.pool + [] == c.pool;
  }

  lemma PlusOne(c: Contents, i: Instr, h: nat)
    ensures Plus(c, One(i, h)) == Contents(c.bytes + Encode(i), c.pool)
  {
    assert c.pool + [] == c.pool;
  }

  /** The limits a statement has to respect. */
  predicate StmtFits(fp: Arith, s: Stmt, L: seq<string>, k: nat) {
    Holds(k, GenStmt(fp, s, L, k)) && JumpsFit(fp, s, L, k) && Peak(s, |L|) <= MAX_LOCALS
  }

  predicate StmtsFit(fp: Arith, ss: seq<Stmt>, L: seq<string>, k: nat) {
    Holds(k, GenStmts(fp, ss, L, k)) && AllJumpsFit(fp, ss, L, k) && PeakAll(ss, |L|) <= MAX_LOCALS
  }

  function DeclaredAll(ss: seq<Stmt>): seq<string> {
    if ss == [] then [] else Declared(ss[0]) + DeclaredAll(ss[1..])
  }

  lemma HoldsCat(k: nat, a: Frag, b: Frag)
    ensures Holds(k, Cat(a, b)) <==> Holds(k, a) && Holds(k + |a.consts|, b)
  {
  }

  lemma StmtsFitParts(fp: Arith, ss: seq<Stmt>, L: seq<string>, k: nat)
    requires ss != []
    ensures var a := GenStmt(fp, ss[0], L, k);
            var L', k' := L + Declared(ss[0]), k + |a.consts|;
            && GenStmts(fp, ss, L, k) == Cat(a, GenStmts(fp, ss[1..], L', k'))
            && (StmtsFit(fp, ss, L, k) <==> StmtFits(fp, ss[0], L, k) && StmtsFit(fp, ss[1..], L', k'))
            && PeakAll(ss, |L|) == Max(Peak(ss[0], |L|), PeakAll(ss[1..], |L'|))
            && DeclaredAll(ss) == Declared(ss[0]) + DeclaredAll(ss[1..])
  {
    hide GenStmt, JumpsFit, Peak, Declared, Cat, Holds;
    var a := GenStmt(fp, ss[0], L, k);
    HoldsCat(k, a, GenStmts(fp, ss[1..], L + Declared(ss[0]), k + |a.consts|));
  }

  lemma NoStmts(fp: Arith, L: seq<string>, k: nat)
    ensures GenStmts(fp, [], L, k) == Empty && DeclaredAll([]) == [] && PeakAll([], |L|) == |L|
    ensures StmtsFit(fp, [], L, k) <==> |L| <= MAX_LOCALS
  {
  }

  lemma IfFitsParts(fp: Arith, s: Stmt, L: seq<string>, k: nat)
    requires s.If?
    ensures var cc := GenExpr(fp, s.cond, L, k, 0);
            var k1 := k + |cc.consts|;
            var tt := GenStmt(fp, s.thn, L, k1);
            var L', k2 := L + Declared(s.thn), k1 + |tt.consts|;
            var ee := if s.els.Some? then GenStmt(fp, s.els.value, L', k2) else Empty;
            && GenStmt(fp, s, L, k) == Conditional(cc, tt, ee)
            && (StmtFits(fp, s, L, k) <==>
                  && Holds(k, cc) && StmtFits(fp, s.thn, L, k1) && |tt.code| + 4 < 0x1_0000
                  && (s.els.Some? ==> StmtFits(fp, s.els.value, L', k2)) && |ee.code| + 1 < 0x1_0000)
  {
    hide GenExpr, Peak, Declared, Conditional, GenStmts, GenLet, GenLoop, GenCases, GenInit, One, Cat, LoopFits,
      CasesFit, AllJumpsFit;
    IfPeak(s, |L|);
  }

  lemma IfPeak(s: Stmt, n: nat)
    requires s.If?
    ensures var m := n + |Declared(s.thn)|;
            && Declared(s) == Declared(s.thn) + (if s.els.Some? then Declared(s.els.value) else [])
            && Peak(s, n) == if s.els.Some? then Max(Peak(s.thn, n), Peak(s.els.value, m)) else Peak(s.thn, n)
  {
  }

  // ----- limits of loops -----

  predicate LoopAllowed(fp: Arith, c: Option<Expr>, u: Option<Expr>, body: Stmt, L: seq<string>, k: nat) {
    Holds(k, GenLoop(fp, c, u, body, L, k)) && LoopFits(fp, c, u, body, L, k) && Peak(body, |L|) <= MAX_LOCALS
  }

  predicate IterationAllowed(fp: Arith, u: Option<Expr>, body: Stmt, L: seq<string>, k: nat) {
    StmtFits(fp, body, L, k) && (u.Some? ==> Holds(k + |GenStmt(fp, body, L, k).consts|,
      GenExpr(fp, u.value, L, k + |GenStmt(fp, body, L, k).consts|, 0)))
  }

  lemma IterationConsts(fp: Arith, u: Option<Expr>, body: Stmt, L: seq<string>, k: nat)
    ensures var all := Holds(k, GenIteration(fp, u, body, L, k)) && JumpsFit(fp, body, L, k)
      && Peak(body, |L|) <= MAX_LOCALS;
            all <==> IterationAllowed(fp, u, body, L, k)
  {
    hide GenExpr, GenStmt, JumpsFit, Peak, One, Encode;
  }

  lemma ForeverAllowed(fp: Arith, u: Option<Expr>, body: Stmt, L: seq<string>, k: nat)
    ensures var bb := GenIteration(fp, u, body, L, k);
            && GenLoop(fp, None, u, body, L, k) == LoopForever(bb)
            && (LoopAllowed(fp, None, u, body, L, k) <==>
                IterationAllowed(fp, u, body, L, k) && |bb.code| + 3 < 0x1_0000)
  {
    hide GenIteration, JumpsFit, Peak, LoopForever, IterationAllowed;
    IterationConsts(fp, u, body, L, k);
  }

  lemma WhileAllowed(fp: Arith, c: Expr, u: Option<Expr>, body: Stmt, L: seq<string>, k: nat)
    ensures var cc := GenExpr(fp, c, L, k, 0);
            var bb := GenIteration(fp, u, body, L, k + |cc.consts|);
            && GenLoop(fp, Some(c), u, body, L, k) == LoopWhile(cc, bb)
            && (LoopAllowed(fp, Some(c), u, body, L, k) <==>
                  && Holds(k, cc) && IterationAllowed(fp, u, body, L, k + |cc.consts|)
                  && |cc.code| + |bb.code| + 7 < 0x1_0000)
  {
    hide GenExpr, GenIteration, JumpsFit, Peak, LoopWhile, IterationAllowed;
    IterationConsts(fp, u, body, L, k + |GenExpr(fp, c, L, k, 0).consts|);
  }

  // ----- switch -----

  function CaseTest(vv: Frag): (f: Frag)
    ensures f.consts == vv.consts
  {
    Cat(One(Dup, 1), Cat(vv, One(Binary(Eq), 3)))
  }

  function CaseBody(bb: Frag): (f: Frag)
    ensures f.consts == bb.consts && |f.code| == |bb.code| + 2
  {
    Cat(One(Pop, 2), Cat(One(Pop, 1), bb))
  }

  /** A case whose jump to the end is still open. */
  function OpenArm(vv: Frag, bb: Frag, rest: Frag): (f: Frag)
    ensures f.consts == vv.consts + bb.consts + rest.consts
  {
    Cat(CaseTest(vv), Cat(One(JumpOver(true, Cat(CaseBody(bb), Hole(37))), 2),
      Cat(CaseBody(bb), Cat(Hole(37), Cat(One(Pop, 2), rest)))))
  }

  /** Like `GenCases`, with every jump to the end still open. */
  function OpenCases(fp: Arith, s: Stmt, i: nat, L: seq<string>, k: nat): (f: Frag)
    requires s.Switch? && i <= |s.cases|
    decreases |s.cases| - i
  {
    if i == |s.cases| then GenCases(fp, s, i, L, k)
    else
      var vv := GenExpr(fp, s.cases[i].value, L, k, 2);
      var bb := GenStmt(fp, s.cases[i].body, L, k + |vv.consts|);
      OpenArm(vv, bb, OpenCases(fp, s, i + 1, L + Declared(s.cases[i].body), k + |vv.consts| + |bb.consts|))
  }

  /** Where the operands of the jumps to the end stand, if the cases start at `at`. */
  function Ends(fp: Arith, s: Stmt, i: nat, L: seq<string>, k: nat, at: nat): (r: seq<nat>)
    requires s.Switch? && i <= |s.cases|
    ensures |r| == |s.cases| - i
    decreases |s.cases| - i
  {
    if i == |s.cases| then []
    else
      var vv := GenExpr(fp, s.cases[i].value, L, k, 2);
      var bb := GenStmt(fp, s.cases[i].body, L, k + |vv.consts|);
      var p := at + |CaseTest(vv).code| + 3 + |CaseBody(bb).code|;
      [p + 1] + Ends(fp, s, i + 1, L + Declared(s.cases[i].body), k + |vv.consts| + |bb.consts|, p + 4)
  }

  predicate CasesAllowed(fp: Arith, s: Stmt, i: nat, L: seq<string>, k: nat)
    requires s.Switch? && i <= |s.cases|
  {
    Holds(k, GenCases(fp, s, i, L, k)) && CasesFit(fp, s, i, L, k) && PeakCases(s, i, |L|) <= MAX_LOCALS
  }

  /** What is checked while the cases are compiled. */
  predicate OpenAllowed(fp: Arith, s: Stmt, i: nat, L: seq<string>, k: nat)
    requires s.Switch? && i <= |s.cases|
    decreases |s.cases| - i
  {
    if i == |s.cases| then s.default.Some? ==> StmtFits(fp, s.default.value, L, k)
    else
      var vv := GenExpr(fp, s.cases[i].value, L, k, 2);
      var bb := GenStmt(fp, s.cases[i].body, L, k + |vv.consts|);
      && Holds(k, vv) && StmtFits(fp, s.cases[i].body, L, k + |vv.consts|) && |bb.code| + 5 < 0x1_0000
      && OpenAllowed(fp, s, i + 1, L + Declared(s.cases[i].body), k + |vv.consts| + |bb.consts|)
  }

  /** What is checked when the jumps to the end are patched. */
  predicate EndsAllowed(fp: Arith, s: Stmt, i: nat, L: seq<string>, k: nat)
    requires s.Switch? && i <= |s.cases|
    decreases |s.cases| - i
  {
    i < |s.cases| ==>
      var vv := GenExpr(fp, s.cases[i].value, L, k, 2);
      var bb := GenStmt(fp, s.cases[i].body, L, k + |vv.consts|);
      var L', k' := L + Declared(s.cases[i].body), k + |vv.consts| + |bb.consts|;
      |GenCases(fp, s, i + 1, L', k').code| + 1 < 0x1_0000 && EndsAllowed(fp, s, i + 1, L', k')
  }

  /** Once a case is compiled, the open code of the others remains. */
  lemma OpenStep(c: Contents, fp: Arith, s: Stmt, i: nat, L: seq<string>, k: nat)
    requires s.Switch? && i < |s.cases|
    ensures var vv := GenExpr(fp, s.cases[i].value, L, k, 2);
            var bb := GenStmt(fp, s.cases[i].body, L, k + |vv.consts|);
            var L', k' := L + Declared(s.cases[i].body), k + |vv.consts| + |bb.consts|;
            var next := CaseOpened(c, vv, bb);
            && Plus(next, OpenCases(fp, s, i + 1, L', k')) == Plus(c, OpenCases(fp, s, i, L, k))
            && |next.pool| == |c.pool| + |vv.consts| + |bb.consts|
            && |next.bytes| == |FirstSide(c, CaseTest(vv), CaseBody(bb), 2).bytes| + 4
            && |FirstSide(c, CaseTest(vv), CaseBody(bb), 2).bytes|
              == |c.bytes| + |CaseTest(vv).code| + 3 + |CaseBody(bb).code|
  {
    hide GenExpr, GenStmt, Declared, Cat, One, Hole, CaseTest, CaseBody, Plus, JumpOver, Encode;
    var vv := GenExpr(fp, s.cases[i].value, L, k, 2);
    var bb := GenStmt(fp, s.cases[i].body, L, k + |vv.consts|);
    var rest := OpenCases(fp, s, i + 1, L + Declared(s.cases[i].body), k + |vv.consts| + |bb.consts|);
    var test, yes := CaseTest(vv), CaseBody(bb);
    var jif := One(JumpOver(true, Cat(yes, Hole(37))), 2);
    var done := FirstSide(c, test, yes, 2);
    FirstSidePatched(c, test, yes, 2);
    PlusFive(c, test, jif, yes, Hole(37), Cat(One(Pop, 2), rest));
    PlusCat(Plus(done, Hole(37)), One(Pop, 2), rest);
    PlusSize(Plus(done, Hole(37)), One(Pop, 2));
    PlusLength(done, Hole(37));
    PlusLength(Plus(done, Hole(37)), One(Pop, 2));
  }

  lemma OpenAllowedStep(fp: Arith, s: Stmt, i: nat, L: seq<string>, k: nat, at: nat)
    requires s.Switch? && i < |s.cases|
    ensures var vv := GenExpr(fp, s.cases[i].value, L, k, 2);
            var bb := GenStmt(fp, s.cases[i].body, L, k + |vv.consts|);
            var L', k' := L + Declared(s.cases[i].body), k + |vv.consts| + |bb.consts|;
            var p := at + |CaseTest(vv).code| + 3 + |CaseBody(bb).code|;
            && (OpenAllowed(fp, s, i, L, k) <==>
                  && Holds(k, vv) && StmtFits(fp, s.cases[i].body, L, k + |vv.consts|) && |bb.code| + 5 < 0x1_0000
                  && OpenAllowed(fp, s, i + 1, L', k'))
            && (EndsAllowed(fp, s, i, L, k) <==>
                  |GenCases(fp, s, i + 1, L', k').code| + 1 < 0x1_0000 && EndsAllowed(fp, s, i + 1, L', k'))
            && Ends(fp, s, i, L, k, at) == [p + 1] + Ends(fp, s, i + 1, L', k', p + 4)
  {
    hide GenExpr, GenStmt, GenCases, StmtFits, Declared, CaseTest, CaseBody;
  }

  /** The code up to the start of the next case, with the jump to the end open. */
  function CaseOpened(c: Contents, vv: Frag, bb: Frag): Contents {
    Plus(Plus(FirstSide(c, CaseTest(vv), CaseBody(bb), 2), Hole(37)), One(Pop, 2))
  }

  lemma ArmSize(vv: Frag, bb: Frag, open: Frag, rest: Frag)
    requires |open.code| == |rest.code|
    ensures |OpenArm(vv, bb, open).code| == |CaseArm(vv, bb, rest).code|
  {
    hide Cat, Encode, InstrMarks, JumpOver, CaseBody, Branch;
  }

  lemma CasesCode(fp: Arith, s: Stmt, i: nat, L: seq<string>, k: nat)
    requires s.Switch? && i < |s.cases|
    ensures var vv := GenExpr(fp, s.cases[i].value, L, k, 2);
            var bb := GenStmt(fp, s.cases[i].body, L, k + |vv.consts|);
            var L', k' := L + Declared(s.cases[i].body), k + |vv.consts| + |bb.consts|;
            && GenCases(fp, s, i, L, k) == CaseArm(vv, bb, GenCases(fp, s, i + 1, L', k'))
            && OpenCases(fp, s, i, L, k) == OpenArm(vv, bb, OpenCases(fp, s, i + 1, L', k'))
  {
    hide GenExpr, GenStmt, Declared, OpenArm, CaseArm;
  }

  /** Open and finished code have the same size. */
  lemma {:induction false} OpenSize(fp: Arith, s: Stmt, i: nat, L: seq<string>, k: nat)
    requires s.Switch? && i <= |s.cases|
    ensures |OpenCases(fp, s, i, L, k).code| == |GenCases(fp, s, i, L, k).code|
    decreases |s.cases| - i
  {
    hide GenExpr, GenStmt, Declared, OpenArm, CaseArm;
    if i < |s.cases| {
      var vv := GenExpr(fp, s.cases[i].value, L, k, 2);
      var bb := GenStmt(fp, s.cases[i].body, L, k + |vv.consts|);
      var L', k' := L + Declared(s.cases[i].body), k + |vv.consts| + |bb.consts|;
      CasesCode(fp, s, i, L, k);
      OpenSize(fp, s, i + 1, L', k');
      ArmSize(vv, bb, OpenCases(fp, s, i + 1, L', k'), GenCases(fp, s, i + 1, L', k'));
    }
  }

  /** Filling the first open jump: the hole of case `i` becomes a jump over the rest. */
  lemma CloseStep(c: Contents, vv: Frag, bb: Frag, open: Frag)
    ensures var done := FirstSide(c, CaseTest(vv), CaseBody(bb), 2);
            var tail := Cat(One(Pop, 2), open);
            var next := Plus(Plus(done, One(JumpOver(false, tail), 0)), One(Pop, 2));
            && Plus(Plus(done, Hole(37)), tail) == Plus(CaseOpened(c, vv, bb), open)
            && Plus(Plus(done, One(JumpOver(false, tail), 0)), tail) == Plus(next, open)
            && |tail.code| == |open.code| + 1 && |next.bytes| == |done.bytes| + 4
  {
    hide Cat, One, Hole, CaseTest, CaseBody, Plus, JumpOver, Encode, FirstSide;
    var done := FirstSide(c, CaseTest(vv), CaseBody(bb), 2);
    var jump := One(JumpOver(false, Cat(One(Pop, 2), open)), 0);
    PlusCat(Plus(done, Hole(37)), One(Pop, 2), open);
    PlusCat(Plus(done, jump), One(Pop, 2), open);
    PlusLength(done, jump);
    PlusLength(Plus(done, jump), One(Pop, 2));
  }

  /** Only the length of the code jumped over matters. */
  lemma JumpOverSame(conditional: bool, a: Frag, b: Frag)
    requires |a.code| == |b.code|
    ensures JumpOver(conditional, a) == JumpOver(conditional, b)
  {
  }

  lemma ArmAssembled(c: Contents, vv: Frag, bb: Frag, rest: Frag)
    requires |bb.code| + 5 < 0x1_0000
    ensures var jump := One(JumpOver(false, Cat(One(Pop, 2), rest)), 0);
            Plus(Plus(Plus(FirstSide(c, CaseTest(vv), CaseBody(bb), 2), jump), One(Pop, 2)), rest)
              == Plus(c, CaseArm(vv, bb, rest))
  {
    hide Cat, One, Hole, Plus, Encode, Dist;
    var test, yes, no := CaseTest(vv), CaseBody(bb), Cat(One(Pop, 2), rest);
    var jif, jump := One(JumpOver(true, Cat(yes, Hole(37))), 2), One(JumpOver(false, no), 0);
    PlusFive(c, test, jif, yes, jump, no);
    PlusCat(Plus(FirstSide(c, test, yes, 2), jump), One(Pop, 2), rest);
  }

  lemma {:induction false} CasesAllowedParts(fp: Arith, s: Stmt, i: nat, L: seq<string>, k: nat)
    requires s.Switch? && i <= |s.cases| && |L| <= MAX_LOCALS
    ensures CasesAllowed(fp, s, i, L, k) <==> OpenAllowed(fp, s, i, L, k) && EndsAllowed(fp, s, i, L, k)
    decreases |s.cases| - i
  {
    hide GenExpr, GenStmt, JumpsFit, Peak, CaseArm, Cat, One, Encode;
    if i < |s.cases| {
      var vv := GenExpr(fp, s.cases[i].value, L, k, 2);
      var bb := GenStmt(fp, s.cases[i].body, L, k + |vv.consts|);
      var L' := L + Declared(s.cases[i].body);
      if |L'| <= MAX_LOCALS {
        CasesAllowedParts(fp, s, i + 1, L', k + |vv.consts| + |bb.consts|);
      }
    }
  }

  // ----- jumps whose distance is not known yet -----

  /** A jump with a placeholder for its distance. */
  function Hole(op: byte): (f: Frag)
    ensures |f.code| == 3 && f.consts == []
  {
    Frag([op, 0xFF, 0xFF], [0, -1, -1], [])
  }

  /** Patching fills the hole and changes nothing else. */
  lemma PatchHole(c: Contents, i: Instr, h: nat, tail: Frag)
    requires (i.Jump? || i.JumpIfFalse?) && i.off == |tail.code|
    ensures var open := Plus(Plus(c, Hole(Opcode(i))), tail);
            && |open.bytes| == |c.bytes| + 3 + |tail.code|
            && Contents(Patched(open.bytes, |c.bytes| + 1, |tail.code|), open.pool) == Plus(Plus(c, One(i, h)), tail)
  {
    var open := Plus(Plus(c, Hole(Opcode(i))), tail);
    var d := |tail.code|;
    assert open.bytes == c.bytes + [Opcode(i), 0xFF, 0xFF] + tail.code;
    assert Patched(open.bytes, |c.bytes| + 1, d) == c.bytes + [Opcode(i), d / 0x100, d % 0x100] + tail.code;
    assert One(i, h).code == [Opcode(i), d / 0x100, d % 0x100];
  }

  /** A jump past `tail`. */
  function JumpOver(conditional: bool, tail: Frag): (i: Instr)
    ensures (i.Jump? || i.JumpIfFalse?) && Width(i) == 3
    ensures |tail.code| < 0x1_0000 ==> i.off == |tail.code|
  {
    if conditional then JumpIfFalse(Dist(|tail.code|)) else Jump(Dist(|tail.code|))
  }

  /** The code of a branch up to the end of its first side. */
  function FirstSide(c: Contents, test: Frag, yes: Frag, h: nat): Contents {
    Plus(Plus(Plus(c, test), One(JumpOver(true, Cat(yes, Hole(37))), h)), yes)
  }

  /** Patching the jump at the end of the test yields the first side and an open jump. */
  lemma FirstSidePatched(c: Contents, test: Frag, yes: Frag, h: nat)
    ensures var done := FirstSide(c, test, yes, h);
            var tail := Cat(yes, Hole(37));
            && Plus(Plus(Plus(c, test), One(JumpOver(true, tail), h)), tail) == Plus(done, Hole(37))
            && |done.bytes| == |c.bytes| + |test.code| + 3 + |yes.code|
            && |done.pool| == |c.pool| + |test.consts| + |yes.consts|
            && |Plus(done, Hole(37)).pool| == |done.pool|
  {
    hide Cat, Hole;
    PlusCat(Plus(Plus(c, test), One(JumpOver(true, Cat(yes, Hole(37))), h)), yes, Hole(37));
  }

  lemma PlusLength(c: Contents, f: Frag)
    ensures |Plus(c, f).bytes| == |c.bytes| + |f.code|
  {
  }

  /** The two bytes at `offset` replaced by a distance. */
  function Patched(bytes: seq<byte>, offset: nat, distance: nat): seq<byte>
    requires offset + 2 <= |bytes| && distance < 0x1_0000
  {
    bytes[offset := distance / 0x100][offset + 1 := distance % 0x100]
  }

  class Compiler {
    const fp: Arith
    const chunk: Chunk
    const locals: array<Local>
    /** The local table, outermost name first. */
    ghost var names: seq<string>
    var localCount: nat
    var maxLocalCount: nat
    var scopeDepth: nat

    ghost predicate Valid()
      reads this, chunk, chunk.code, chunk.constants, locals
    {
      && chunk.Valid() && locals.Length == MAX_LOCALS && localCount <= MAX_LOCALS && localCount <= maxLocalCount
      && names == NamesOf(locals[..localCount])
      && (forall i :: 0 <= i < localCount ==> locals[i].depth <= scopeDepth)
      && (forall i, j :: 0 <= i < j < localCount ==> locals[i].depth <= locals[j].depth)
    }

    /** What the chunk holds, and the most locals alive at once. */
    method Finished() returns (prog: Program)
      requires Valid()
      ensures prog == Program(chunk.contents.bytes, chunk.contents.pool, maxLocalCount)
    {
      prog := Program(chunk.code[..chunk.count], chunk.constants[..chunk.constantCount], maxLocalCount);
    }

    lemma CountIs()
      requires Valid()
      ensures chunk.count == |chunk.contents.bytes|
    {
    }

    lemma ValidTable()
      requires Valid()
      ensures |names| == localCount <= MAX_LOCALS == locals.Length && localCount <= maxLocalCount
    {
    }

    lemma ValidDepths()
      requires Valid()
      ensures localCount <= locals.Length && forall i :: 0 <= i < localCount ==> locals[i].depth <= scopeDepth
    {
    }

    constructor (fp: Arith)
      ensures Valid() && fresh(chunk) && fresh(chunk.code) && fresh(chunk.constants) && fresh(locals)
      ensures this.fp == fp && names == [] && maxLocalCount == 0 && scopeDepth == 0
      ensures chunk.contents == Contents([], [])
    {
      this.fp := fp;
      chunk := new Chunk();
      locals := new Local[MAX_LOCALS](_ => Local("", 0));
      names, localCount, maxLocalCount, scopeDepth := [], 0, 0, 0;
    }

    /** The chunk may have moved to larger buffers. */
    twostate predicate Grew()
      reads this, chunk
    {
      && (chunk.code == old(chunk.code) || fresh(chunk.code))
      && (chunk.constants == old(chunk.constants) || fresh(chunk.constants))
    }

    /** `f` has been appended, or there was no room for its constants. */
    twostate predicate Emitted(f: Frag, ok: Status)
      reads this, chunk
    {
      && (ok.Pass? <==> Holds(|old(chunk.contents.pool)|, f))
      && (ok.Pass? ==> chunk.contents == Plus(old(chunk.contents), f))
    }

    /** The names `declared` have joined the table at the current depth; `peak` locals
        were alive at once. */
    twostate predicate Extended(declared: seq<string>, peak: nat)
      reads this, locals
    {
      && names == old(names) + declared && (declared == [] ==> names == old(names))
      && localCount == old(localCount) + |declared| <= locals.Length
      && scopeDepth == old(scopeDepth) && maxLocalCount == Max(old(maxLocalCount), peak)
      && locals[..old(localCount)] == old(locals[..localCount])
      && forall i :: old(localCount) <= i < localCount ==> locals[i].depth == scopeDepth
    }

    /** Moreover `f` has been appended. */
    twostate predicate Laid(f: Frag, declared: seq<string>, peak: nat)
      reads this, locals, chunk
    {
      chunk.contents == Plus(old(chunk.contents), f) && Extended(declared, peak)
    }

    // ----- emission -----

    method EmitByte(b: byte)
      requires Valid()
      modifies chunk, chunk.code
      ensures Valid() && Grew() && chunk.constants == old(chunk.constants)
      ensures chunk.contents == Contents(old(chunk.contents.bytes) + [b], old(chunk.contents.pool))
    {
      chunk.Write(b);
    }

    method EmitBytes(a: byte, b: byte)
      requires Valid()
      modifies chunk, chunk.code
      ensures Valid() && Grew() && chunk.constants == old(chunk.constants)
      ensures chunk.contents == Contents(old(chunk.contents.bytes) + [a, b], old(chunk.contents.pool))
    {
      EmitByte(a);
      EmitByte(b);
      AppendTwo(old(chunk.contents.bytes), [a], [b]);
    }

    /** A pool index as an operand: one byte if it fits, two otherwise. */
    method EmitIndexed(op: byte, longOp: byte, index: nat)
      requires Valid() && index < MAX_CONSTANTS
      modifies chunk, chunk.code
      ensures Valid() && Grew() && chunk.constants == old(chunk.constants)
      ensures var operand := if index < 0x100 then [op, index] else [longOp, index / 0x100, index % 0x100];
              chunk.contents == Contents(old(chunk.contents.bytes) + operand, old(chunk.contents.pool))
    {
      if index <= 0xFF {
        EmitBytes(op, index);
      } else {
        EmitByte(longOp);
        EmitBytes(index / 0x100, index % 0x100);
        AppendTwo(old(chunk.contents.bytes), [longOp], [index / 0x100, index % 0x100]);
      }
    }

    method MakeConstant(v: Value) returns (ok: Status, index: nat)
      requires Valid()
      modifies chunk, chunk.constants
      ensures Valid() && Grew() && chunk.code == old(chunk.code)
      ensures chunk.contents == Contents(old(chunk.contents.bytes), old(chunk.contents.pool) + [v])
      ensures index == |old(chunk.contents.pool)| && (ok.Pass? <==> index < 65536)
    {
      index := chunk.AddConstant(v);
      ok := if index > 0xFFFF then Fail else Pass;
    }

    method EmitConstant(v: Value, ghost h: nat) returns (ok: Status)
      requires Valid()
      modifies chunk, chunk.code, chunk.constants
      ensures Valid() && Grew() && Emitted(Push(v, |old(chunk.contents.pool)|, h), ok)
    {
      hide Encode, One, Cat;
      var index;
      ok, index := MakeConstant(v);
      if ok.Pass? {
        EmitIndexed(0, 1, index);
        IndexedBytes(index);
        PlusNamed(old(chunk.contents), PushInstr(index), h, v);
      }
    }

    /** A single instruction with at most one operand byte. */
    method EmitInstr(i: Instr, ghost h: nat)
      requires Valid() && Width(i) <= 2
      modifies chunk, chunk.code
      ensures Valid() && Grew() && chunk.constants == old(chunk.constants)
      ensures chunk.contents == Plus(old(chunk.contents), One(i, h))
    {
      if Width(i) == 1 {
        EmitByte(Opcode(i));
      } else {
        EmitBytes(Opcode(i), Operand(i)[0]);
      }
      PlusOne(old(chunk.contents), i, h);
    }

    /** Placeholders stand where the distance will be patched in. */
    method EmitJump(op: byte) returns (offset: nat)
      requires Valid()
      modifies chunk, chunk.code
      ensures Valid() && Grew() && chunk.constants == old(chunk.constants)
      ensures chunk.contents == Plus(old(chunk.contents), Hole(op)) && offset == |old(chunk.contents.bytes)| + 1
    {
      EmitByte(op);
      EmitBytes(0xFF, 0xFF);
      CountIs();
      offset := chunk.count - 2;
      AppendTwo(old(chunk.contents.bytes), [op], [0xFF, 0xFF]);
      assert old(chunk.contents.pool) + [] == old(chunk.contents.pool);
    }

    /** Makes the jump whose operand is at `offset` land just past the code so far: the
        hole after `c` is filled with the length of what follows it, `tail`. */
    method PatchJump(offset: nat, ghost c: Contents, ghost conditional: bool, ghost h: nat, ghost tail: Frag)
      returns (ok: Status)
      requires Valid() && offset == |c.bytes| + 1
      requires chunk.contents == Plus(Plus(c, Hole(if conditional then 38 else 37)), tail)
      modifies chunk`contents, chunk.code
      ensures Valid() && (ok.Pass? <==> |tail.code| < 0x1_0000)
      ensures ok.Pass? ==> chunk.contents == Plus(Plus(c, One(JumpOver(conditional, tail), h)), tail)
    {
      PlusLength(c, Hole(if conditional then 38 else 37));
      PlusLength(Plus(c, Hole(if conditional then 38 else 37)), tail);
      assert chunk.count == |chunk.contents.bytes|;
      var jump := chunk.count - offset - 2;
      if jump > 0xFFFF { return Fail; }
      PatchHole(c, JumpOver(conditional, tail), h, tail);
      chunk.Patch(offset, jump / 0x100, jump % 0x100);
      ok := Pass;
    }

    /** Jumps back to `start`, the end of `c`, over the code `f` emitted since. */
    method EmitLoop(start: nat, ghost c: Contents, ghost f: Frag) returns (ok: Status)
      requires Valid() && chunk.contents == Plus(c, f) && start == |c.bytes|
      modifies chunk, chunk.code
      ensures Valid() && Grew() && (ok.Pass? <==> |f.code| + 3 < 0x1_0000)
      ensures ok.Pass? ==> chunk.contents == Plus(Plus(c, f), One(Loop(Dist(|f.code| + 3)), 0))
    {
      hide Valid, Plus;
      PlusLength(c, f);
      EmitByte(39);
      CountIs();
      var offset := chunk.count - start + 2;
      if offset > 0xFFFF { return Fail; }
      EmitBytes(offset / 0x100, offset % 0x100);
      AppendTwo(old(chunk.contents.bytes), [39], [offset / 0x100, offset % 0x100]);
      PlusOne(old(chunk.contents), Loop(offset), 0);
      ok := Pass;
    }

    // ----- locals -----

    method BeginScope()
      requires Valid()
      modifies this`scopeDepth
      ensures Valid() && scopeDepth == old(scopeDepth) + 1
    {
      scopeDepth := scopeDepth + 1;
    }

    /** Forgets the locals of the innermost scope, which are those from the `n`th on;
        their slots are free again. */
    method EndScope(ghost n: nat)
      requires Valid() && scopeDepth > 0 && n <= localCount
      requires forall i :: 0 <= i < localCount ==> (i < n <==> locals[i].depth < scopeDepth)
      modifies this`scopeDepth, this`localCount, this`names
      ensures Valid() && scopeDepth == old(scopeDepth) - 1 && localCount == n && names == old(names)[..n]
    {
      scopeDepth := scopeDepth - 1;
      while localCount > 0 && locals[localCount - 1].depth > scopeDepth
        invariant n <= localCount <= old(localCount)
        invariant scopeDepth == old(scopeDepth) - 1 && names == old(names)
      {
        localCount := localCount - 1;
      }
      assert localCount == n;
      names := names[..localCount];
    }

    method AddLocal(name: string) returns (ok: Status)
      requires Valid()
      modifies this`localCount, this`maxLocalCount, this`names, locals
      ensures Valid() && (ok.Pass? <==> old(localCount) < 256)
      ensures ok.Pass? ==>
                && names == old(names) + [name] && localCount == old(localCount) + 1
                && locals[..old(localCount)] == old(locals[..localCount])
                && locals[old(localCount)].depth == scopeDepth
                && maxLocalCount == Max(old(maxLocalCount), localCount)
    {
      if localCount == 256 { return Fail; }
      locals[localCount] := Local(name, scopeDepth);
      localCount, names := localCount + 1, names + [name];
      if localCount > maxLocalCount {
        maxLocalCount := localCount;
      }
      ok := Pass;
      assert locals[..localCount] == old(locals[..localCount]) + [Local(name, scopeDepth)];
    }

    /** The slot of the innermost local of that name, or -1. */
    method ResolveLocal(name: string) returns (slot: int)
      requires Valid()
      ensures slot == Resolve(names, name) && slot < MAX_LOCALS
    {
      slot := localCount - 1;
      while slot >= 0
        invariant -1 <= slot < localCount
        invariant Resolve(names, name) == Resolve(names[..slot + 1], name)
      {
        assert names[..slot + 1][slot] == locals[slot].name;
        if locals[slot].name == name { return; }
        assert names[..slot + 1][..slot] == names[..slot];
        slot := slot - 1;
      }
    }

    // ----- expressions -----

    /** Appends the code of `e`; gives up exactly when the pool overflows. */
    method CompileExpression(e: Expr, ghost h: nat) returns (ok: Status)
      requires Valid()
      modifies chunk, chunk.code, chunk.constants
      ensures Valid() && Grew() && Emitted(GenExpr(fp, e, names, |old(chunk.contents.pool)|, h), ok)
      decreases e, 2
    {
      match e
      case Lit(v) => ok := CompileLiteral(v, h);
      case Var(x) => ok := CompileIdentifier(x, h);
      case BinaryExpr(_, _, _) => ok := CompileBinary(e, h);
      case UnaryExpr(_, _) => ok := CompileUnary(e, h);
      case Interp(_, _) => ok := CompileInterpolatedString(e, h);
      case ArrayLit(_) => ok := CompileArrayLiteral(e, h);
      case IndexExpr(_, _) => ok := CompileArrayAccess(e, h);
      case Member(_, _) => ok := CompileMemberAccess(e, h);
      case Assign(_, _, _) => ok := CompileAssignment(e, h);
      case Destructure(_, _) => ok := CompileDestructuring(e, h);
    }

    method CompileLiteral(v: Value, ghost h: nat) returns (ok: Status)
      requires Valid()
      modifies chunk, chunk.code, chunk.constants
      ensures Valid() && Grew() && Emitted(GenLiteral(v, |old(chunk.contents.pool)|, h), ok)
    {
      hide Push, One, Encode, Plus;
      ok := Pass;
      if v.Num? || v.Str? {
        ok := EmitConstant(v, h);
      } else if v.Bool? {
        EmitInstr(if v.b then PushTrue else PushFalse, h);
      } else {
        EmitInstr(PushNil, h);
      }
    }

    /** GET_GLOBAL or SET_GLOBAL of a name that is no local. */
    method EmitGlobal(store: bool, x: string, ghost h: nat) returns (ok: Status)
      requires Valid()
      modifies chunk, chunk.code, chunk.constants
      ensures Valid() && Grew()
      ensures var k := |old(chunk.contents.pool)|;
              Emitted(Cat(One(if store then StoreGlobal(k) else LoadGlobal(k), h), Frag([], [], [Str(x)])), ok)
    {
      hide Valid, One, Encode, Cat, StoreGlobal, LoadGlobal, NamesOf;
      var name;
      ok, name := MakeConstant(Str(x));
      if ok.Pass? {
        IndexedBytes(name);
        PlusNamed(old(chunk.contents), if store then StoreGlobal(name) else LoadGlobal(name), h, Str(x));
        if store {
          EmitIndexed(25, 28, name);
        } else {
          EmitIndexed(24, 27, name);
        }
      }
    }

    /** GET_LOCAL of a local, or GET_GLOBAL of any other name. */
    method CompileIdentifier(x: string, ghost h: nat) returns (ok: Status)
      requires Valid()
      modifies chunk, chunk.code, chunk.constants
      ensures Valid() && Grew() && Emitted(Load(names, x, |old(chunk.contents.pool)|, h), ok)
    {
      hide Valid, One, Encode, Cat, Plus, StoreGlobal, LoadGlobal, Resolve, NamesOf;
      var local := ResolveLocal(x);
      ok := Pass;
      if local != -1 {
        EmitInstr(GetLocal(local), h);
      } else {
        ok := EmitGlobal(false, x, h);
      }
    }

    /** SET_LOCAL of a local, or SET_GLOBAL of any other name. */
    method StoreVariable(x: string, ghost h: nat) returns (ok: Status)
      requires Valid()
      modifies chunk, chunk.code, chunk.constants
      ensures Valid() && Grew() && Emitted(Store(names, x, |old(chunk.contents.pool)|, h), ok)
    {
      hide Valid, One, Encode, Cat, Plus, StoreGlobal, LoadGlobal, Resolve, NamesOf;
      var local := ResolveLocal(x);
      ok := Pass;
      if local != -1 {
        EmitInstr(SetLocal(local), h);
      } else {
        ok := EmitGlobal(true, x, h);
      }
    }

    method CompileBinary(e: Expr, ghost h: nat) returns (ok: Status)
      requires Valid() && e.BinaryExpr?
      modifies chunk, chunk.code, chunk.constants
      ensures Valid() && Grew() && Emitted(GenExpr(fp, e, names, |old(chunk.contents.pool)|, h), ok)
      decreases e, 1
    {
      hide Valid, GenExpr, Cat, One, Plus, Opcode, Encode, NamesOf;
      ghost var L, c0 := names, chunk.contents;
      ghost var x := GenExpr(fp, e.left, L, |c0.pool|, h);
      ghost var y := GenExpr(fp, e.right, L, |c0.pool| + |x.consts|, h + 1);
      BinaryCode(fp, e, L, |c0.pool|, h);
      :- CompileExpression(e.left, h);
      PlusSize(c0, x);
      :- CompileExpression(e.right, h + 1);
      EmitInstr(Binary(e.op), h + 2);
      PlusThree(c0, x, y, One(Binary(e.op), h + 2));
      ok := Pass;
    }

    method CompileArrayAccess(e: Expr, ghost h: nat) returns (ok: Status)
      requires Valid() && e.IndexExpr?
      modifies chunk, chunk.code, chunk.constants
      ensures Valid() && Grew() && Emitted(GenExpr(fp, e, names, |old(chunk.contents.pool)|, h), ok)
      decreases e, 1
    {
      hide Valid, GenExpr, Cat, One, Plus, Opcode, Encode, NamesOf;
      ghost var L, c0 := names, chunk.contents;
      ghost var x := GenExpr(fp, e.container, L, |c0.pool|, h);
      ghost var y := GenExpr(fp, e.index, L, |c0.pool| + |x.consts|, h + 1);
      IndexCode(fp, e, L, |c0.pool|, h);
      :- CompileExpression(e.container, h);
      PlusSize(c0, x);
      :- CompileExpression(e.index, h + 1);
      EmitInstr(ArrayGet, h + 2);
      PlusThree(c0, x, y, One(ArrayGet, h + 2));
      ok := Pass;
    }

    method CompileMemberAccess(e: Expr, ghost h: nat) returns (ok: Status)
      requires Valid() && e.Member?
      modifies chunk, chunk.code, chunk.constants
      ensures Valid() && Grew() && Emitted(GenExpr(fp, e, names, |old(chunk.contents.pool)|, h), ok)
      decreases e, 1
    {
      hide Valid, GenExpr, Cat, One, Plus, Opcode, Encode, NamesOf, Push;
      ghost var L, c0 := names, chunk.contents;
      ghost var x := GenExpr(fp, e.subject, L, |c0.pool|, h);
      ghost var key := Push(Str(e.property), |c0.pool| + |x.consts|, h + 1);
      ghost var all := GenExpr(fp, e, L, |c0.pool|, h);
      MemberCode(fp, e, L, |c0.pool|, h);
      assert |all.consts| == |x.consts| + 1;
      :- CompileExpression(e.subject, h);
      PlusSize(c0, x);
      ghost var c1 := chunk.contents;
      assert c1 == Plus(c0, x);
      :- EmitConstant(Str(e.property), h + 1);
      ghost var c2 := chunk.contents;
      assert c2 == Plus(c1, key);
      EmitInstr(ObjectGet, h + 2);
      PlusThree(c0, x, key, One(ObjectGet, h + 2));
      assert chunk.contents == Plus(c0, all);
      ok := Pass;
    }

    method CompileUnary(e: Expr, ghost h: nat) returns (ok: Status)
      requires Valid() && e.UnaryExpr?
      modifies chunk, chunk.code, chunk.constants
      ensures Valid() && Grew() && Emitted(GenExpr(fp, e, names, |old(chunk.contents.pool)|, h), ok)
      decreases e, 1
    {
      hide Valid, GenExpr, Cat, One, Plus, Opcode, Encode, NamesOf;
      ghost var L, c0 := names, chunk.contents;
      UnaryCode(fp, e, L, |c0.pool|, h);
      :- CompileExpression(e.operand, h);
      EmitInstr(Unary(e.uop), h + 1);
      PlusCat(c0, GenExpr(fp, e.operand, L, |c0.pool|, h), One(Unary(e.uop), h + 1));
      ok := Pass;
    }

    method CompileAssignment(e: Expr, ghost h: nat) returns (ok: Status)
      requires Valid() && e.Assign?
      modifies chunk, chunk.code, chunk.constants
      ensures Valid() && Grew() && Emitted(GenExpr(fp, e, names, |old(chunk.contents.pool)|, h), ok)
      decreases e, 1
    {
      if e.aop.Set? {
        ok := CompilePlainAssignment(e, h);
      } else {
        ok := CompileCompoundAssignment(e, h);
      }
    }

    method CompilePlainAssignment(e: Expr, ghost h: nat) returns (ok: Status)
      requires Valid() && e.Assign? && e.aop.Set?
      modifies chunk, chunk.code, chunk.constants
      ensures Valid() && Grew() && Emitted(GenExpr(fp, e, names, |old(chunk.contents.pool)|, h), ok)
      decreases e, 0
    {
      hide Valid, GenExpr, Cat, One, Plus, Opcode, Encode, NamesOf, Store;
      ghost var L, c0 := names, chunk.contents;
      ghost var x := GenExpr(fp, e.value, L, |c0.pool|, h);
      AssignCode(fp, e, L, |c0.pool|, h);
      :- CompileExpression(e.value, h);
      PlusSize(c0, x);
      :- StoreVariable(e.target, h + 1);
      PlusCat(c0, x, Store(L, e.target, |c0.pool| + |x.consts|, h + 1));
      ok := Pass;
    }

    method CompileCompoundAssignment(e: Expr, ghost h: nat) returns (ok: Status)
      requires Valid() && e.Assign? && !e.aop.Set?
      modifies chunk, chunk.code, chunk.constants
      ensures Valid() && Grew() && Emitted(GenExpr(fp, e, names, |old(chunk.contents.pool)|, h), ok)
      decreases e, 0
    {
      hide Valid, GenExpr, Cat, One, Plus, Opcode, Encode, NamesOf, Store, Load;
      ghost var L, c0 := names, chunk.contents;
      ghost var x := Load(L, e.target, |c0.pool|, h);
      ghost var y := GenExpr(fp, e.value, L, |c0.pool| + |x.consts|, h + 1);
      ghost var op := One(Binary(CompoundOp(e.aop)), h + 2);
      CompoundCode(fp, e, L, |c0.pool|, h);
      :- CompileIdentifier(e.target, h);
      PlusSize(c0, x);
      :- CompileExpression(e.value, h + 1);
      PlusSize(Plus(c0, x), y);
      EmitInstr(Binary(if e.aop.PlusSet? then Add else Sub), h + 2);
      PlusSize(Plus(Plus(c0, x), y), op);
      :- StoreVariable(e.target, h + 1);
      ghost var st := Store(L, e.target, |c0.pool| + |x.consts| + |y.consts|, h + 1);
      PlusThree(Plus(c0, x), y, op, st);
      PlusCat(c0, x, Cat(y, Cat(op, st)));
      ok := Pass;
    }

    method CompileArrayLiteral(e: Expr, ghost h: nat) returns (ok: Status)
      requires Valid() && e.ArrayLit?
      modifies chunk, chunk.code, chunk.constants
      ensures Valid() && Grew() && Emitted(GenExpr(fp, e, names, |old(chunk.contents.pool)|, h), ok)
      decreases e, 1
    {
      hide GenExpr, GenAll, Cat, One, Plus, Opcode;
      ghost var L, c0 := names, chunk.contents;
      ArrayCode(fp, e, L, |c0.pool|, h);
      :- CompileElements(e.elems, h);
      EmitInstr(Array(|e.elems| % 0x100), h + |e.elems|);
      PlusCat(c0, GenAll(fp, e.elems, L, |c0.pool|, h), One(Array(|e.elems| % 0x100), h + |e.elems|));
      ok := Pass;
    }

    /** The elements of an array literal, in order. */
    method CompileElements(es: seq<Expr>, ghost h: nat) returns (ok: Status)
      requires Valid()
      modifies chunk, chunk.code, chunk.constants
      ensures Valid() && Grew() && Emitted(GenAll(fp, es, names, |old(chunk.contents.pool)|, h), ok)
      decreases es, 0
    {
      hide Valid, GenExpr, GenAll, Cat, Plus;
      ghost var L := names;
      ghost var all := GenAll(fp, es, L, |chunk.contents.pool|, h);
      assert es[0..] == es;
      var i := 0;
      while i < |es|
        invariant i <= |es| && Valid() && Grew()
        invariant var rest := GenAll(fp, es[i..], L, |chunk.contents.pool|, h + i);
                  && Plus(chunk.contents, rest) == Plus(old(chunk.contents), all)
                  && (Holds(|old(chunk.contents.pool)|, all) <==> Holds(|chunk.contents.pool|, rest))
      {
        ghost var c, rest := chunk.contents, es[i..];
        ghost var x := GenExpr(fp, es[i], L, |c.pool|, h + i);
        AllCode(fp, rest, L, |c.pool|, h + i);
        assert rest[0] == es[i] && rest[1..] == es[i + 1..];
        :- CompileExpression(es[i], h + i);
        PlusSize(c, x);
        PlusCat(c, x, GenAll(fp, es[i + 1..], L, |c.pool| + |x.consts|, h + i + 1));
        i := i + 1;
      }
      assert es[i..] == [];
      AllNone(L, |chunk.contents.pool|, h + i);
      PlusEmpty(chunk.contents);
      ok := Pass;
    }

    lemma AllNone(L: seq<string>, k: nat, h: nat)
      ensures GenAll(fp, [], L, k, h) == Empty
    {
    }

    method CompileInterpolatedString(e: Expr, ghost h: nat) returns (ok: Status)
      requires Valid() && e.Interp?
      modifies chunk, chunk.code, chunk.constants
      ensures Valid() && Grew() && Emitted(GenExpr(fp, e, names, |old(chunk.contents.pool)|, h), ok)
      decreases e, 1
    {
      hide GenExpr, GenPieces, Cat, Push, Plus;
      ghost var L, c0 := names, chunk.contents;
      InterpCode(fp, e, L, |c0.pool|, h);
      :- EmitConstant(Str(e.head), h);
      PlusSize(c0, Push(Str(e.head), |c0.pool|, h));
      :- CompilePieces(e.pieces, h + 1);
      PlusCat(c0, Push(Str(e.head), |c0.pool|, h), GenPieces(fp, e.pieces, L, |c0.pool| + 1, h + 1));
      ok := Pass;
    }

    /** Expressions and texts that follow the head of an interpolated string. */
    method CompilePieces(ps: seq<Piece>, ghost h: nat) returns (ok: Status)
      requires Valid()
      modifies chunk, chunk.code, chunk.constants
      ensures Valid() && Grew() && Emitted(GenPieces(fp, ps, names, |old(chunk.contents.pool)|, h), ok)
      decreases ps, 1
    {
      hide Valid, GenExpr, GenPieces, Plus, Push, PieceArm;
      ghost var L := names;
      ghost var all := GenPieces(fp, ps, L, |chunk.contents.pool|, h);
      assert ps[0..] == ps;
      var i := 0;
      while i < |ps|
        invariant i <= |ps| && Valid() && Grew()
        invariant var rest := GenPieces(fp, ps[i..], L, |chunk.contents.pool|, h);
                  && Plus(chunk.contents, rest) == Plus(old(chunk.contents), all)
                  && (Holds(|old(chunk.contents.pool)|, all) <==> Holds(|chunk.contents.pool|, rest))
      {
        ghost var c, now := chunk.contents, ps[i..];
        ghost var x := GenExpr(fp, ps[i].e, L, |c.pool|, h);
        ghost var text := Push(Str(ps[i].text), |c.pool| + |x.consts|, h);
        assert now[0] == ps[i] && now[1..] == ps[i + 1..];
        PiecesCode(fp, now, L, |c.pool|, h);
        :- CompilePiece(ps[i], h);
        PlusSize(c, PieceArm(x, text, Empty, h));
        PlusPieceRest(c, x, text, GenPieces(fp, ps[i + 1..], L, |c.pool| + |x.consts| + 1, h), h);
        i := i + 1;
      }
      assert ps[i..] == [];
      PiecesNone(L, |chunk.contents.pool|, h);
      PlusEmpty(chunk.contents);
      ok := Pass;
    }

    lemma PiecesNone(L: seq<string>, k: nat, h: nat)
      ensures GenPieces(fp, [], L, k, h) == Empty
    {
    }

    /** The expression of one piece and the text after it. */
    method CompilePiece(piece: Piece, ghost h: nat) returns (ok: Status)
      requires Valid()
      modifies chunk, chunk.code, chunk.constants
      ensures Valid() && Grew()
      ensures var k := |old(chunk.contents.pool)|;
              var x := GenExpr(fp, piece.e, names, k, h);
              Emitted(PieceArm(x, Push(Str(piece.text), k + |x.consts|, h), Empty, h), ok)
      decreases piece, 0
    {
      hide Valid, GenExpr, Cat, One, Encode, Push, Plus, PieceArm, Opcode;
      ghost var c0 := chunk.contents;
      ghost var x := GenExpr(fp, piece.e, names, |c0.pool|, h);
      ghost var text := Push(Str(piece.text), |c0.pool| + |x.consts|, h);
      ghost var conv, join := One(ToString, h + 1), One(Binary(Add), h + 1);
      :- CompileExpression(piece.e, h);
      PlusSize(c0, x);
      EmitInstr(ToString, h + 1);
      PlusSize(Plus(c0, x), conv);
      EmitInstr(Binary(Add), h + 1);
      ghost var c1 := chunk.contents;
      PlusSize(Plus(Plus(c0, x), conv), join);
      :- EmitConstant(Str(piece.text), h);
      EmitInstr(Binary(Add), h + 1);
      PlusPiece(c0, x, text, Empty, h);
      PlusEmpty(chunk.contents);
      ok := Pass;
    }

    method CompileDestructuring(e: Expr, ghost h: nat) returns (ok: Status)
      requires Valid() && e.Destructure?
      modifies chunk, chunk.code, chunk.constants
      ensures Valid() && Grew() && Emitted(GenExpr(fp, e, names, |old(chunk.contents.pool)|, h), ok)
      decreases e, 1
    {
      hide Valid, GenExpr, GenTargets, Cat, Plus;
      ghost var L, c0 := names, chunk.contents;
      ghost var x := GenExpr(fp, e.source, L, |c0.pool|, h);
      DestructureCode(fp, e, L, |c0.pool|, h);
      :- CompileExpression(e.source, h);
      PlusSize(c0, x);
      :- CompileTargets(e.targets, h + 1);
      PlusCat(c0, x, GenTargets(fp, e.targets, 0, L, |c0.pool| + |x.consts|, h + 1));
      ok := Pass;
    }

    /** Each target takes its element of the array on top of the stack. */
    method CompileTargets(xs: seq<string>, ghost h: nat) returns (ok: Status)
      requires Valid()
      modifies chunk, chunk.code, chunk.constants
      ensures Valid() && Grew() && Emitted(GenTargets(fp, xs, 0, names, |old(chunk.contents.pool)|, h), ok)
    {
      hide Valid, GenTargets, Plus, Push, Store, TargetArm;
      ghost var L := names;
      ghost var all := GenTargets(fp, xs, 0, L, |chunk.contents.pool|, h);
      assert xs[0..] == xs;
      var i := 0;
      while i < |xs|
        invariant i <= |xs| && Valid() && Grew()
        invariant var rest := GenTargets(fp, xs[i..], i, L, |chunk.contents.pool|, h);
                  && Plus(chunk.contents, rest) == Plus(old(chunk.contents), all)
                  && (Holds(|old(chunk.contents.pool)|, all) <==> Holds(|chunk.contents.pool|, rest))
      {
        ghost var c, now := chunk.contents, xs[i..];
        ghost var k := |c.pool|;
        ghost var index, st := Push(Num(fp.ofInt(i)), k, h + 1), Store(L, xs[i], k + 1, h + 1);
        assert now[0] == xs[i] && now[1..] == xs[i + 1..];
        TargetsCode(fp, now, i, L, k, h);
        :- CompileTarget(xs[i], i, h);
        PlusSize(c, TargetArm(index, st, Empty, h));
        PlusTargetRest(c, index, st, GenTargets(fp, xs[i + 1..], i + 1, L, k + 1 + |st.consts|, h), h);
        i := i + 1;
      }
      assert xs[i..] == [];
      TargetsNone(i, L, |chunk.contents.pool|, h);
      PlusEmpty(chunk.contents);
      ok := Pass;
    }

    lemma TargetsNone(i: nat, L: seq<string>, k: nat, h: nat)
      ensures GenTargets(fp, [], i, L, k, h) == Empty
    {
    }

    method CompileTarget(x: string, i: nat, ghost h: nat) returns (ok: Status)
      requires Valid()
      modifies chunk, chunk.code, chunk.constants
      ensures Valid() && Grew()
      ensures var k := |old(chunk.contents.pool)|;
              Emitted(TargetArm(Push(Num(fp.ofInt(i)), k, h + 1), Store(names, x, k + 1, h + 1), Empty, h), ok)
    {
      hide Valid, Cat, One, Encode, Push, Store, Plus, TargetArm, Opcode;
      ghost var c0 := chunk.contents;
      ghost var k := |c0.pool|;
      ghost var index, st := Push(Num(fp.ofInt(i)), k, h + 1), Store(names, x, k + 1, h + 1);
      :- PushElement(i, h);
      PlusThree(c0, One(Dup, h), index, One(ArrayGet, h + 2));
      PlusSize(c0, Cat(One(Dup, h), Cat(index, One(ArrayGet, h + 2))));
      :- StoreVariable(x, h + 1);
      EmitInstr(Pop, h + 1);
      PlusTarget(c0, index, st, Empty, h);
      PlusEmpty(chunk.contents);
      ok := Pass;
    }

    /** DUP; index; ARRAY_GET. */
    method PushElement(i: nat, ghost h: nat) returns (ok: Status)
      requires Valid()
      modifies chunk, chunk.code, chunk.constants
      ensures Valid() && Grew()
      ensures var index := Push(Num(fp.ofInt(i)), |old(chunk.contents.pool)|, h + 1);
              Emitted(Cat(One(Dup, h), Cat(index, One(ArrayGet, h + 2))), ok)
    {
      hide Valid, Cat, One, Encode, Push, Plus, Opcode;
      ghost var c0 := chunk.contents;
      EmitInstr(Dup, h);
      PlusSize(c0, One(Dup, h));
      :- EmitConstant(Num(fp.ofInt(i)), h + 1);
      EmitInstr(ArrayGet, h + 2);
      PlusThree(c0, One(Dup, h), Push(Num(fp.ofInt(i)), |c0.pool|, h + 1), One(ArrayGet, h + 2));
      ok := Pass;
    }

    // ----- statements -----

    /** Appends the code of `s`; gives up exactly when a limit is exceeded. */
    method CompileStatement(s: Stmt) returns (ok: Status)
      requires Valid() && scopeDepth > 0
      modifies this, locals, chunk, chunk.code, chunk.constants
      ensures ok.Pass? <==> StmtFits(fp, s, old(names), |old(chunk.contents.pool)|)
      ensures ok.Pass? ==> Valid() && Grew()
      ensures ok.Pass? ==> Laid(GenStmt(fp, s, old(names), |old(chunk.contents.pool)|), Declared(s),
        Peak(s, old(localCount)))
      decreases s, 2
    {
      match s
      case ExprStmt(_) => ok := CompileExpressionStatement(s);
      case ReturnStmt(_) => ok := CompileReturn(s);
      case Let(_, _) => ok := CompileVarDecl(s);
      case Block(_) => ok := CompileBlock(s);
      case If(_, _, _) => ok := CompileIf(s);
      case While(_, _) => ok := CompileWhile(s);
      case For(_, _, _, _) => ok := CompileFor(s);
      case Switch(_, _, _) => ok := CompileSwitch(s);
    }

    method CompileExpressionStatement(s: Stmt) returns (ok: Status)
      requires Valid() && s.ExprStmt?
      modifies this, locals, chunk, chunk.code, chunk.constants
      ensures ok.Pass? <==> StmtFits(fp, s, old(names), |old(chunk.contents.pool)|)
      ensures ok.Pass? ==> Valid() && Grew()
      ensures ok.Pass? ==> Laid(GenStmt(fp, s, old(names), |old(chunk.contents.pool)|), Declared(s),
        Peak(s, old(localCount)))
    {
      hide GenExpr, Cat, One, Plus, Encode;
      ghost var c0 := chunk.contents;
      :- CompileExpression(s.e, 0);
      EmitInstr(Pop, 1);
      PlusCat(c0, GenExpr(fp, s.e, names, |c0.pool|, 0), One(Pop, 1));
      ok := Pass;
    }

    method CompileReturn(s: Stmt) returns (ok: Status)
      requires Valid() && s.ReturnStmt?
      modifies this, locals, chunk, chunk.code, chunk.constants
      ensures ok.Pass? <==> StmtFits(fp, s, old(names), |old(chunk.contents.pool)|)
      ensures ok.Pass? ==> Valid() && Grew()
      ensures ok.Pass? ==> Laid(GenStmt(fp, s, old(names), |old(chunk.contents.pool)|), Declared(s),
        Peak(s, old(localCount)))
    {
      hide GenExpr, Cat, One, Plus, Encode;
      ghost var c0 := chunk.contents;
      :- CompileValue(s.result);
      EmitInstr(Return, 1);
      PlusCat(c0, GenValue(fp, s.result, names, |c0.pool|), One(Return, 1));
      ok := Pass;
    }

    /** An optional expression; nil if there is none. */
    method CompileValue(e: Option<Expr>) returns (ok: Status)
      requires Valid()
      modifies chunk, chunk.code, chunk.constants
      ensures Valid() && Grew() && Emitted(GenValue(fp, e, names, |old(chunk.contents.pool)|), ok)
    {
      hide GenExpr, One, Encode;
      ok := Pass;
      if e.Some? {
        ok := CompileExpression(e.value, 0);
      } else {
        EmitInstr(PushNil, 0);
      }
    }

    method CompileVarDecl(s: Stmt) returns (ok: Status)
      requires Valid() && s.Let?
      modifies this, locals, chunk, chunk.code, chunk.constants
      ensures ok.Pass? <==> StmtFits(fp, s, old(names), |old(chunk.contents.pool)|)
      ensures ok.Pass? ==> Valid() && Grew()
      ensures ok.Pass? ==> Laid(GenStmt(fp, s, old(names), |old(chunk.contents.pool)|), Declared(s),
        Peak(s, old(localCount)))
    {
      hide GenLet;
      ok := DeclareVariable(s.name, s.init);
    }

    /** The new local is in scope while its initializer is compiled. */
    method DeclareVariable(x: string, init: Option<Expr>) returns (ok: Status)
      requires Valid()
      modifies this, locals, chunk, chunk.code, chunk.constants
      ensures var k := |old(chunk.contents.pool)|;
              ok.Pass? <==> Holds(k, GenLet(fp, x, init, old(names), k)) && old(localCount) < MAX_LOCALS
      ensures ok.Pass? ==> Valid() && Grew()
      ensures ok.Pass? ==> Laid(GenLet(fp, x, init, old(names), |old(chunk.contents.pool)|), [x], old(localCount) + 1)
    {
      hide GenExpr, Cat, One, Plus, Encode, GenValue;
      ghost var c0, L := chunk.contents, names;
      var slot := localCount;
      LetCode(fp, x, init, L, |c0.pool|);
      :- AddLocal(x);
      :- CompileValue(init);
      EmitInstr(SetLocal(slot), 1);
      EmitInstr(Pop, 1);
      PlusThree(c0, GenValue(fp, init, L + [x], |c0.pool|), One(SetLocal(slot), 1), One(Pop, 1));
      ok := Pass;
    }

    // ----- blocks -----

    method CompileStatements(ss: seq<Stmt>) returns (ok: Status)
      requires Valid() && scopeDepth > 0
      modifies this, locals, chunk, chunk.code, chunk.constants
      ensures ok.Pass? <==> StmtsFit(fp, ss, old(names), |old(chunk.contents.pool)|)
      ensures ok.Pass? ==> Valid() && Grew()
      ensures ok.Pass? ==> Laid(GenStmts(fp, ss, old(names), |old(chunk.contents.pool)|), DeclaredAll(ss),
        PeakAll(ss, old(localCount)))
      decreases ss, 1
    {
      hide Valid, GenStmts, GenStmt, StmtsFit, StmtFits, PeakAll, Peak, Declared, DeclaredAll, Plus, Cat;
      ghost var L0, k0, n := names, |chunk.contents.pool|, localCount;
      assert ss[0..] == ss;
      var i := 0;
      ValidTable();
      while i < |ss|
        invariant i <= |ss| && Valid() && Grew() && scopeDepth == old(scopeDepth)
        invariant var rest, k := ss[i..], |chunk.contents.pool|;
                  && Plus(chunk.contents, GenStmts(fp, rest, names, k))
                    == Plus(old(chunk.contents), GenStmts(fp, ss, L0, k0))
                  && (StmtsFit(fp, ss, L0, k0) <==> StmtsFit(fp, rest, names, k))
                  && names + DeclaredAll(rest) == L0 + DeclaredAll(ss)
                  && Max(maxLocalCount, PeakAll(rest, localCount)) == Max(old(maxLocalCount), PeakAll(ss, n))
        invariant n <= |names| == localCount <= locals.Length && locals[..n] == old(locals[..localCount])
        invariant forall j :: n <= j < localCount ==> locals[j].depth == scopeDepth
      {
        ghost var c, L, rest := chunk.contents, names, ss[i..];
        ValidTable();
        ghost var a := GenStmt(fp, ss[i], L, |c.pool|);
        assert rest[0] == ss[i] && rest[1..] == ss[i + 1..];
        StmtsFitParts(fp, rest, L, |c.pool|);
        :- CompileStatement(ss[i]);
        PlusSize(c, a);
        PlusCat(c, a, GenStmts(fp, ss[i + 1..], names, |c.pool| + |a.consts|));
        assert L + Declared(ss[i]) + DeclaredAll(ss[i + 1..]) == L + DeclaredAll(rest);
        i := i + 1;
      }
      assert ss[i..] == [];
      NoStmts(fp, names, |chunk.contents.pool|);
      PlusEmpty(chunk.contents);
      assert names + [] == names;
      ValidTable();
      ok := Pass;
    }

    method CompileBlock(s: Stmt) returns (ok: Status)
      requires Valid() && scopeDepth > 0 && s.Block?
      modifies this, locals, chunk, chunk.code, chunk.constants
      ensures ok.Pass? <==> StmtFits(fp, s, old(names), |old(chunk.contents.pool)|)
      ensures ok.Pass? ==> Valid() && Grew()
      ensures ok.Pass? ==> Laid(GenStmt(fp, s, old(names), |old(chunk.contents.pool)|), Declared(s),
        Peak(s, old(localCount)))
      decreases s, 1
    {
      hide GenStmts, AllJumpsFit, PeakAll, DeclaredAll, Plus;
      ghost var n := localCount;
      BeginScope();
      :- CompileStatements(s.body);
      EndScope(n);
      ok := Pass;
    }

    method CompileIf(s: Stmt) returns (ok: Status)
      requires Valid() && scopeDepth > 0 && s.If?
      modifies this, locals, chunk, chunk.code, chunk.constants
      ensures ok.Pass? <==> StmtFits(fp, s, old(names), |old(chunk.contents.pool)|)
      ensures ok.Pass? ==> Valid() && Grew()
      ensures ok.Pass? ==> Laid(GenStmt(fp, s, old(names), |old(chunk.contents.pool)|), Declared(s),
        Peak(s, old(localCount)))
      decreases s, 1
    {
      hide Valid, GenExpr, GenStmt, StmtFits, Plus, Cat, One, Hole, Declared, Peak, NamesOf, JumpOver, Encode, Opcode,
        Branch;
      ghost var c0, L, n := chunk.contents, names, localCount;
      ghost var cc := GenExpr(fp, s.cond, L, |c0.pool|, 0);
      ghost var k1 := |c0.pool| + |cc.consts|;
      ghost var tt := GenStmt(fp, s.thn, L, k1);
      ghost var k2 := k1 + |tt.consts|;
      ghost var ee := if s.els.Some? then GenStmt(fp, s.els.value, L + Declared(s.thn), k2) else Empty;
      IfFitsParts(fp, s, L, |c0.pool|);
      IfPeak(s, n);
      var elseJump;
      ok, elseJump := CompileThen(s, cc, tt);
      if ok.Fail? { return; }
      ThenDonePool(c0, cc, tt);
      PlusSize(ThenDone(c0, cc, tt), Hole(37));
      :- CompileElse(s, elseJump, ThenDone(c0, cc, tt), ee, k2);
      IfAssembled(c0, cc, tt, ee);
      ok := Pass;
    }

    lemma IfAssembled(c0: Contents, cc: Frag, tt: Frag, ee: Frag)
      requires |tt.code| + 4 < 0x1_0000 && |ee.code| + 1 < 0x1_0000
      ensures var no := Cat(One(Pop, 1), ee);
              Plus(Plus(ThenDone(c0, cc, tt), One(JumpOver(false, no), 0)), no) == Plus(c0, Conditional(cc, tt, ee))
    {
      hide Plus, Cat, One, Hole, Encode;
      var yes, no := Cat(One(Pop, 1), tt), Cat(One(Pop, 1), ee);
      PlusFive(c0, cc, One(JumpOver(true, Cat(yes, Hole(37))), 1), yes, One(JumpOver(false, no), 0), no);
    }

    /** A condition, the jump that is taken when it fails, and the POP when it holds. */
    method CompileTest(cond: Expr, ghost cc: Frag) returns (ok: Status, exit: nat)
      requires Valid() && cc == GenExpr(fp, cond, names, |chunk.contents.pool|, 0)
      modifies chunk, chunk.code, chunk.constants
      ensures ok.Pass? <==> Holds(|old(chunk.contents.pool)|, cc)
      ensures ok.Pass? ==> Valid() && Grew()
      ensures ok.Pass? ==>
                var c := Plus(old(chunk.contents), cc);
                && chunk.contents == Plus(Plus(c, Hole(38)), One(Pop, 1)) && exit == |c.bytes| + 1
                && |chunk.contents.pool| == |old(chunk.contents.pool)| + |cc.consts|
      decreases cond, 3
    {
      hide Valid, GenExpr, Plus, One, Hole, NamesOf, Encode, Opcode, InstrMarks;
      exit := 0;
      ghost var c0 := chunk.contents;
      ok := CompileExpression(cond, 0);
      if ok.Fail? { return; }
      PlusSize(c0, cc);
      exit := EmitJump(38);
      PlusSize(Plus(c0, cc), Hole(38));
      ghost var c := chunk.contents;
      EmitInstr(Pop, 1);
      PlusSize(c, One(Pop, 1));
    }

    /** Condition and first side of a branch, with the jump to the second side patched. */
    method CompileThen(s: Stmt, ghost cc: Frag, ghost tt: Frag) returns (ok: Status, elseJump: nat)
      requires Valid() && scopeDepth > 0 && s.If?
      requires cc == GenExpr(fp, s.cond, names, |chunk.contents.pool|, 0)
      requires tt == GenStmt(fp, s.thn, names, |chunk.contents.pool| + |cc.consts|)
      modifies this, locals, chunk, chunk.code, chunk.constants
      ensures var k := |old(chunk.contents.pool)|;
              ok.Pass? <==> Holds(k, cc) && StmtFits(fp, s.thn, old(names), k + |cc.consts|) && |tt.code| + 4 < 0x1_0000
      ensures ok.Pass? ==> chunk.contents == Plus(ThenDone(old(chunk.contents), cc, tt), Hole(37))
      ensures ok.Pass? ==> elseJump == |ThenDone(old(chunk.contents), cc, tt).bytes| + 1
      ensures ok.Pass? ==> Valid() && Grew() && Extended(Declared(s.thn), Peak(s.thn, old(localCount)))
      decreases s, 0
    {
      hide Valid, GenExpr, GenStmt, StmtFits, Plus, Cat, One, Hole, Declared, Peak, NamesOf, JumpOver, Encode, Opcode,
        InstrMarks;
      elseJump := 0;
      ghost var c0, yes := chunk.contents, Cat(One(Pop, 1), tt);
      var thenJump;
      ok, thenJump := CompileTest(s.cond, cc);
      if ok.Fail? { return; }
      ghost var c1, c2 := Plus(c0, cc), Plus(Plus(c0, cc), Hole(38));
      ok := CompileStatement(s.thn);
      if ok.Fail? { return; }
      PlusCat(c2, One(Pop, 1), tt);
      PlusLength(c1, Hole(38));
      PlusLength(c2, yes);
      elseJump := EmitJump(37);
      PlusCat(c2, yes, Hole(37));
      ok := PatchJump(thenJump, c1, true, 1, Cat(yes, Hole(37)));
      PlusLength(c0, cc);
      FirstSidePatched(c0, cc, yes, 1);
    }

    ghost function ThenDone(c0: Contents, cc: Frag, tt: Frag): Contents {
      FirstSide(c0, cc, Cat(One(Pop, 1), tt), 1)
    }

    lemma ThenDonePool(c0: Contents, cc: Frag, tt: Frag)
      ensures |ThenDone(c0, cc, tt).pool| == |c0.pool| + |cc.consts| + |tt.consts|
    {
    }

    /** The second side of a branch; the jump over it is patched when it is there. */
    method CompileElse(s: Stmt, elseJump: nat, ghost c: Contents, ghost ee: Frag, ghost k: nat) returns (ok: Status)
      requires Valid() && scopeDepth > 0 && s.If?
      requires chunk.contents == Plus(c, Hole(37)) && elseJump == |c.bytes| + 1 && |chunk.contents.pool| == k
      requires ee == if s.els.Some? then GenStmt(fp, s.els.value, names, k) else Empty
      modifies this, locals, chunk, chunk.code, chunk.constants
      ensures ok.Pass? <==> (s.els.Some? ==> StmtFits(fp, s.els.value, old(names), k)) && |ee.code| + 1 < 0x1_0000
      ensures ok.Pass? ==> Valid() && Grew()
      ensures ok.Pass? ==>
                var no := Cat(One(Pop, 1), ee);
                && chunk.contents == Plus(Plus(c, One(JumpOver(false, no), 0)), no)
                && Extended(if s.els.Some? then Declared(s.els.value) else [],
                     if s.els.Some? then Peak(s.els.value, old(localCount)) else old(localCount))
      decreases s, 0
    {
      hide Valid, GenStmt, StmtFits, Plus, Cat, One, Hole, Declared, Peak, NamesOf, JumpOver, Encode, Opcode;
      ghost var c1, no := chunk.contents, Cat(One(Pop, 1), ee);
      EmitInstr(Pop, 1);
      PlusSize(c1, One(Pop, 1));
      if s.els.Some? {
        :- CompileStatement(s.els.value);
      } else {
        PlusEmpty(chunk.contents);
      }
      PlusCat(c1, One(Pop, 1), ee);
      :- PatchJump(elseJump, c, false, 0, no);
      ok := Pass;
    }

    // ----- loops -----

    /** A loop body that is not a block gets a scope of its own. */
    method CompileBody(body: Stmt) returns (ok: Status)
      requires Valid() && scopeDepth > 0
      modifies this, locals, chunk, chunk.code, chunk.constants
      ensures ok.Pass? <==> StmtFits(fp, body, old(names), |old(chunk.contents.pool)|)
      ensures ok.Pass? ==> Valid() && Grew()
      ensures ok.Pass? ==> Laid(GenStmt(fp, body, old(names), |old(chunk.contents.pool)|), [],
        Peak(body, old(localCount)))
      decreases body, 3
    {
      hide GenStmt, StmtFits, Peak, Declared, Plus;
      if body.Block? {
        BlockDeclares(body);
        ok := CompileStatement(body);
      } else {
        ghost var n := localCount;
        BeginScope();
        :- CompileStatement(body);
        EndScope(n);
        ok := Pass;
      }
    }

    lemma BlockDeclares(s: Stmt)
      requires s.Block?
      ensures Declared(s) == []
    {
    }

    /** Body and update. */
    method CompileIteration(u: Option<Expr>, body: Stmt) returns (ok: Status)
      requires Valid() && scopeDepth > 0
      modifies this, locals, chunk, chunk.code, chunk.constants
      ensures ok.Pass? <==> IterationAllowed(fp, u, body, old(names), |old(chunk.contents.pool)|)
      ensures ok.Pass? ==> Valid() && Grew()
      ensures ok.Pass? ==> Laid(GenIteration(fp, u, body, old(names), |old(chunk.contents.pool)|), [],
        Peak(body, old(localCount)))
      decreases body, 4
    {
      hide Valid, GenStmt, GenExpr, StmtFits, Peak, Plus, Cat, One;
      ghost var c0, k := chunk.contents, |chunk.contents.pool|;
      ghost var bb := GenStmt(fp, body, names, k);
      :- CompileBody(body);
      PlusSize(c0, bb);
      if u.Some? {
        ghost var uu := GenExpr(fp, u.value, names, k + |bb.consts|, 0);
        :- CompileExpression(u.value, 0);
        EmitInstr(Pop, 1);
        PlusThree(c0, bb, uu, One(Pop, 1));
      }
      ok := Pass;
    }

    method CompileLoop(c: Option<Expr>, u: Option<Expr>, body: Stmt) returns (ok: Status)
      requires Valid() && scopeDepth > 0
      modifies this, locals, chunk, chunk.code, chunk.constants
      ensures ok.Pass? <==> LoopAllowed(fp, c, u, body, old(names), |old(chunk.contents.pool)|)
      ensures ok.Pass? ==> Valid() && Grew()
      ensures ok.Pass? ==> Laid(GenLoop(fp, c, u, body, old(names), |old(chunk.contents.pool)|), [],
        Peak(body, old(localCount)))
      decreases body, 6
    {
      hide Valid, GenLoop, LoopAllowed, Peak, Plus;
      if c.Some? {
        ok := CompileGuardedLoop(c.value, u, body);
      } else {
        ok := CompileEndlessLoop(u, body);
      }
    }

    method CompileEndlessLoop(u: Option<Expr>, body: Stmt) returns (ok: Status)
      requires Valid() && scopeDepth > 0
      modifies this, locals, chunk, chunk.code, chunk.constants
      ensures ok.Pass? <==> LoopAllowed(fp, None, u, body, old(names), |old(chunk.contents.pool)|)
      ensures ok.Pass? ==> Valid() && Grew()
      ensures ok.Pass? ==> Laid(GenLoop(fp, None, u, body, old(names), |old(chunk.contents.pool)|), [],
        Peak(body, old(localCount)))
      decreases body, 5
    {
      hide Valid, GenIteration, GenLoop, IterationAllowed, LoopAllowed, Peak, Plus, Cat, One;
      ghost var c0, L := chunk.contents, names;
      ghost var bb := GenIteration(fp, u, body, L, |c0.pool|);
      ForeverAllowed(fp, u, body, L, |c0.pool|);
      var start := Here();
      :- CompileIteration(u, body);
      :- EmitLoop(start, c0, bb);
      PlusCat(c0, bb, One(Loop(Dist(|bb.code| + 3)), 0));
      ok := Pass;
    }

    method CompileGuardedLoop(cond: Expr, u: Option<Expr>, body: Stmt) returns (ok: Status)
      requires Valid() && scopeDepth > 0
      modifies this, locals, chunk, chunk.code, chunk.constants
      ensures ok.Pass? <==> LoopAllowed(fp, Some(cond), u, body, old(names), |old(chunk.contents.pool)|)
      ensures ok.Pass? ==> Valid() && Grew()
      ensures ok.Pass? ==> Laid(GenLoop(fp, Some(cond), u, body, old(names), |old(chunk.contents.pool)|), [],
        Peak(body, old(localCount)))
      decreases body, 5
    {
      hide Valid, GenIteration, GenExpr, GenLoop, IterationAllowed, LoopAllowed, Peak, Plus, Cat, One, LoopWhile,
        Hole, JumpOver;
      ghost var c0, L := chunk.contents, names;
      ghost var cc := GenExpr(fp, cond, L, |c0.pool|, 0);
      ghost var bb := GenIteration(fp, u, body, L, |c0.pool| + |cc.consts|);
      ghost var yes := Cat(One(Pop, 1), bb);
      ghost var back := One(Loop(Dist(|cc.code| + |yes.code| + 6)), 0);
      WhileAllowed(fp, cond, u, body, L, |c0.pool|);
      var start := Here();
      var exit;
      ok, exit := CompileTest(cond, cc);
      if ok.Fail? { return; }
      :- CompileIteration(u, body);
      WhileSoFar(c0, cc, bb);
      :- EmitLoop(start, c0, Cat(cc, Cat(Hole(38), yes)));
      PlusCat(Plus(Plus(c0, cc), Hole(38)), yes, back);
      ok := PatchJump(exit, Plus(c0, cc), true, 1, Cat(yes, back));
      EmitInstr(Pop, 1);
      WhileAssembled(c0, cc, bb);
    }

    /** The position the next byte will have. */
    method Here() returns (p: nat)
      requires Valid()
      ensures p == |chunk.contents.bytes|
    {
      p := chunk.count;
    }

    lemma WhileSoFar(c0: Contents, cc: Frag, bb: Frag)
      ensures var yes := Cat(One(Pop, 1), bb);
              && Plus(Plus(Plus(Plus(c0, cc), Hole(38)), One(Pop, 1)), bb) == Plus(c0, Cat(cc, Cat(Hole(38), yes)))
              && Plus(c0, Cat(cc, Cat(Hole(38), yes))) == Plus(Plus(Plus(c0, cc), Hole(38)), yes)
    {
      hide Plus, Cat, One, Hole;
      PlusCat(Plus(Plus(c0, cc), Hole(38)), One(Pop, 1), bb);
      PlusThree(c0, cc, Hole(38), Cat(One(Pop, 1), bb));
    }

    lemma WhileAssembled(c0: Contents, cc: Frag, bb: Frag)
      requires |cc.code| + |bb.code| + 7 < 0x1_0000
      ensures var yes := Cat(One(Pop, 1), bb);
              var back := One(Loop(Dist(|cc.code| + |yes.code| + 6)), 0);
              Plus(Plus(Plus(Plus(c0, cc), One(JumpOver(true, Cat(yes, back)), 1)), Cat(yes, back)), One(Pop, 1))
                == Plus(c0, LoopWhile(cc, bb))
    {
      hide Plus, Cat, One, Encode;
      var yes := Cat(One(Pop, 1), bb);
      var back := One(Loop(Dist(|cc.code| + |yes.code| + 6)), 0);
      var jif := One(JumpOver(true, Cat(yes, back)), 1);
      PlusCat(Plus(Plus(c0, cc), jif), yes, back);
      PlusFive(c0, cc, jif, yes, back, One(Pop, 1));
    }

    method CompileWhile(s: Stmt) returns (ok: Status)
      requires Valid() && scopeDepth > 0 && s.While?
      modifies this, locals, chunk, chunk.code, chunk.constants
      ensures ok.Pass? <==> StmtFits(fp, s, old(names), |old(chunk.contents.pool)|)
      ensures ok.Pass? ==> Valid() && Grew()
      ensures ok.Pass? ==> Laid(GenStmt(fp, s, old(names), |old(chunk.contents.pool)|), Declared(s),
        Peak(s, old(localCount)))
      decreases s, 1
    {
      hide Valid, GenLoop, LoopFits, Plus;
      ok := CompileLoop(Some(s.wcond), None, s.wbody);
    }

    /** Initializer, loop and a scope around both. */
    method CompileFor(s: Stmt) returns (ok: Status)
      requires Valid() && scopeDepth > 0 && s.For?
      modifies this, locals, chunk, chunk.code, chunk.constants
      ensures ok.Pass? <==> StmtFits(fp, s, old(names), |old(chunk.contents.pool)|)
      ensures ok.Pass? ==> Valid() && Grew()
      ensures ok.Pass? ==> Laid(GenStmt(fp, s, old(names), |old(chunk.contents.pool)|), Declared(s),
        Peak(s, old(localCount)))
      decreases s, 1
    {
      hide Valid, GenLoop, GenInit, LoopAllowed, Plus, Cat, Peak, GenStmt, StmtFits, Declared, Holds, NamesOf,
        InitNames;
      ghost var c0, L, n := chunk.contents, names, localCount;
      ValidTable();
      ValidDepths();
      ghost var ii := GenInit(fp, s.finit, L, |c0.pool|);
      ForAllowedParts(fp, s, L, |c0.pool|);
      BeginScope();
      :- CompileInit(s.finit);
      PlusSize(c0, ii);
      :- CompileLoop(s.fcond, s.update, s.fbody);
      PlusCat(c0, ii, GenLoop(fp, s.fcond, s.update, s.fbody, L + InitNames(s.finit), |c0.pool| + |ii.consts|));
      assert locals[..n] == old(locals[..localCount]);
      EndScope(n);
      ok := Pass;
    }

    lemma ForAllowedParts(fp: Arith, s: Stmt, L: seq<string>, k: nat)
      requires s.For?
      ensures var ii := GenInit(fp, s.finit, L, k);
              var L', k' := L + InitNames(s.finit), k + |ii.consts|;
              && GenStmt(fp, s, L, k) == Cat(ii, GenLoop(fp, s.fcond, s.update, s.fbody, L', k'))
              && Declared(s) == [] && Peak(s, |L|) == Peak(s.fbody, |L'|) && Peak(s.fbody, |L'|) >= |L'|
              && (StmtFits(fp, s, L, k) <==> Holds(k, ii) && LoopAllowed(fp, s.fcond, s.update, s.fbody, L', k'))
              && (LoopAllowed(fp, s.fcond, s.update, s.fbody, L', k') ==> |L'| <= MAX_LOCALS)
    {
      hide GenLoop, GenInit, LoopFits, Cat;
    }

    method CompileInit(init: ForInit) returns (ok: Status)
      requires Valid() && scopeDepth > 0
      modifies this, locals, chunk, chunk.code, chunk.constants
      ensures var k := |old(chunk.contents.pool)|;
              ok.Pass? <==>
                Holds(k, GenInit(fp, init, old(names), k)) && old(localCount) + |InitNames(init)| <= MAX_LOCALS
      ensures ok.Pass? ==> Valid() && Grew()
      ensures ok.Pass? ==>
                Laid(GenInit(fp, init, old(names), |old(chunk.contents.pool)|), InitNames(init),
                  old(localCount) + |InitNames(init)|)
    {
      hide GenExpr, GenLet, Cat, One, Plus, Encode;
      ghost var c0 := chunk.contents;
      ok := Pass;
      if init.LetInit? {
        ok := DeclareVariable(init.x, init.init);
      } else if init.ExprInit? {
        :- CompileExpression(init.e, 0);
        EmitInstr(Pop, 1);
        PlusCat(c0, GenExpr(fp, init.e, names, |c0.pool|, 0), One(Pop, 1));
      } else {
        PlusEmpty(c0);
      }
    }

    // ----- switch -----

    /** DUP; case value; EQUAL. */
    method CompileCaseTest(value: Expr, ghost vv: Frag) returns (ok: Status)
      requires Valid() && vv == GenExpr(fp, value, names, |chunk.contents.pool|, 2)
      modifies chunk, chunk.code, chunk.constants
      ensures Valid() && Grew() && Emitted(CaseTest(vv), ok)
      decreases value, 3
    {
      hide Valid, GenExpr, Plus, Cat, One, NamesOf, Encode;
      ghost var c0 := chunk.contents;
      EmitInstr(Dup, 1);
      PlusSize(c0, One(Dup, 1));
      :- CompileExpression(value, 2);
      EmitInstr(Binary(Eq), 3);
      PlusThree(c0, One(Dup, 1), vv, One(Binary(Eq), 3));
      ok := Pass;
    }

    /** One case up to the start of the next one; its jump to the end stays open. */
    method CompileCase(s: Stmt, i: nat, ghost vv: Frag, ghost bb: Frag) returns (ok: Status, endJump: nat)
      requires Valid() && scopeDepth > 0 && s.Switch? && i < |s.cases|
      requires vv == GenExpr(fp, s.cases[i].value, names, |chunk.contents.pool|, 2)
      requires bb == GenStmt(fp, s.cases[i].body, names, |chunk.contents.pool| + |vv.consts|)
      modifies this, locals, chunk, chunk.code, chunk.constants
      ensures var k := |old(chunk.contents.pool)|;
              ok.Pass? <==>
                Holds(k, vv) && StmtFits(fp, s.cases[i].body, old(names), k + |vv.consts|) && |bb.code| + 5 < 0x1_0000
      ensures ok.Pass? ==> chunk.contents == CaseOpened(old(chunk.contents), vv, bb)
      ensures ok.Pass? ==> endJump == |FirstSide(old(chunk.contents), CaseTest(vv), CaseBody(bb), 2).bytes| + 1
      ensures ok.Pass? ==> Valid() && Grew() && Extended(Declared(s.cases[i].body),
        Peak(s.cases[i].body, old(localCount)))
      decreases s, 0, 0
    {
      hide Valid, GenExpr, GenStmt, StmtFits, Plus, Cat, One, Hole, Declared, Peak, NamesOf, JumpOver, Encode, Opcode,
        InstrMarks, CaseTest;
      endJump := 0;
      ghost var c0, test, yes := chunk.contents, CaseTest(vv), CaseBody(bb);
      ok := CompileCaseTest(s.cases[i].value, vv);
      if ok.Fail? { return; }
      ghost var c1 := chunk.contents;
      PlusSize(c0, test);
      PlusLength(c0, test);
      var skipJump := EmitJump(38);
      ghost var c2 := chunk.contents;
      PlusSize(c1, Hole(38));
      PlusLength(c1, Hole(38));
      ok := CompileCaseBody(s, i, bb);
      if ok.Fail? { return; }
      PlusLength(c2, yes);
      endJump := EmitJump(37);
      PlusCat(c2, yes, Hole(37));
      ok := PatchJump(skipJump, c1, true, 2, Cat(yes, Hole(37)));
      if ok.Fail? { return; }
      FirstSidePatched(c0, test, yes, 2);
      EmitInstr(Pop, 2);
    }

    /** POP of the verdict, POP of the scrutinee, and the body. */
    method CompileCaseBody(s: Stmt, i: nat, ghost bb: Frag) returns (ok: Status)
      requires Valid() && scopeDepth > 0 && s.Switch? && i < |s.cases|
      requires bb == GenStmt(fp, s.cases[i].body, names, |chunk.contents.pool|)
      modifies this, locals, chunk, chunk.code, chunk.constants
      ensures ok.Pass? <==> StmtFits(fp, s.cases[i].body, old(names), |old(chunk.contents.pool)|)
      ensures ok.Pass? ==> Valid() && Grew()
      ensures ok.Pass? ==> Laid(CaseBody(bb), Declared(s.cases[i].body), Peak(s.cases[i].body, old(localCount)))
      decreases s.cases[i].body, 3
    {
      hide Valid, GenStmt, StmtFits, Plus, Cat, One, Declared, Peak, NamesOf, Encode;
      ghost var c0 := chunk.contents;
      EmitInstr(Pop, 2);
      PlusSize(c0, One(Pop, 2));
      EmitInstr(Pop, 1);
      PlusSize(Plus(c0, One(Pop, 2)), One(Pop, 1));
      :- CompileStatement(s.cases[i].body);
      PlusThree(c0, One(Pop, 2), One(Pop, 1), bb);
      ok := Pass;
    }

    /** All cases in order; returns the jumps to the end, still open. */
    method CompileCaseList(s: Stmt) returns (ok: Status, ends: seq<nat>)
      requires Valid() && scopeDepth > 0 && s.Switch?
      modifies this, locals, chunk, chunk.code, chunk.constants
      ensures ok.Fail? ==> !OpenAllowed(fp, s, 0, old(names), |old(chunk.contents.pool)|)
      ensures ok.Pass? ==> Valid() && Grew()
      ensures var m, k0, k := |s.cases|, |old(chunk.contents.pool)|, |chunk.contents.pool|;
              ok.Pass? ==>
                && Plus(chunk.contents, OpenCases(fp, s, m, names, k))
                  == Plus(old(chunk.contents), OpenCases(fp, s, 0, old(names), k0))
                && (OpenAllowed(fp, s, 0, old(names), k0) <==> OpenAllowed(fp, s, m, names, k))
                && ends == Ends(fp, s, 0, old(names), k0, |old(chunk.contents.bytes)|)
      ensures ok.Pass? ==> CasesExtended(s, |s.cases|)
      decreases s, 0, 1
    {
      hide Valid, GenExpr, GenStmt, GenCases, StmtFits, OpenCases, OpenAllowed, Ends, Plus, Declared, DeclaredCases,
        Peak, PeakCases,
        NamesOf, CaseTest, CaseBody, CaseOpened, FirstSide;
      ok, ends := Pass, [];
      ghost var L0, k0, all := names, |chunk.contents.pool|, OpenCases(fp, s, 0, names, |chunk.contents.pool|);
      ValidTable();
      var i := 0;
      while i < |s.cases|
        invariant ok.Pass? && i <= |s.cases| && Valid() && Grew() && CasesExtended(s, i)
        invariant var k := |chunk.contents.pool|;
                  && Plus(chunk.contents, OpenCases(fp, s, i, names, k)) == Plus(old(chunk.contents), all)
                  && (OpenAllowed(fp, s, 0, L0, k0) <==> OpenAllowed(fp, s, i, names, k))
                  && ends + Ends(fp, s, i, names, k, |chunk.contents.bytes|)
                    == Ends(fp, s, 0, L0, k0, |old(chunk.contents.bytes)|)
      {
        ghost var c, L := chunk.contents, names;
        ghost var vv := GenExpr(fp, s.cases[i].value, L, |c.pool|, 2);
        ghost var bb := GenStmt(fp, s.cases[i].body, L, |c.pool| + |vv.consts|);
        OpenStep(c, fp, s, i, L, |c.pool|);
        OpenAllowedStep(fp, s, i, L, |c.pool|, |c.bytes|);
        CasesDeclared(s, i, localCount);
        var endJump;
        ok, endJump := CompileCase(s, i, vv, bb);
        if ok.Fail? { return; }
        ends := ends + [endJump];
        i := i + 1;
      }
      assert Ends(fp, s, i, names, |chunk.contents.pool|, |chunk.contents.bytes|) == [] && ends + [] == ends;
    }

    /** The table after the first `i` cases of a switch. */
    twostate predicate CasesExtended(s: Stmt, i: nat)
      requires s.Switch? && i <= |s.cases|
      reads this, locals
    {
      && names + DeclaredCases(s, i) == old(names) + DeclaredCases(s, 0)
      && old(localCount) <= |names| == localCount <= locals.Length && scopeDepth == old(scopeDepth)
      && Max(maxLocalCount, PeakCases(s, i, localCount)) == Max(old(maxLocalCount), PeakCases(s, 0, old(localCount)))
      && locals[..old(localCount)] == old(locals[..localCount])
      && forall j :: old(localCount) <= j < localCount ==> locals[j].depth == scopeDepth
    }

    lemma CasesDeclared(s: Stmt, i: nat, n: nat)
      requires s.Switch? && i < |s.cases|
      ensures DeclaredCases(s, i) == Declared(s.cases[i].body) + DeclaredCases(s, i + 1)
      ensures PeakCases(s, i, n) == Max(Peak(s.cases[i].body, n), PeakCases(s, i + 1, n + |Declared(s.cases[i].body)|))
    {
    }

    /** POP of the scrutinee, and the default if there is one. */
    method CompileDefault(s: Stmt) returns (ok: Status)
      requires Valid() && scopeDepth > 0 && s.Switch?
      modifies this, locals, chunk, chunk.code, chunk.constants
      ensures ok.Pass? <==> OpenAllowed(fp, s, |s.cases|, old(names), |old(chunk.contents.pool)|)
      ensures ok.Pass? ==> Valid() && Grew()
      ensures ok.Pass? ==>
                Laid(GenCases(fp, s, |s.cases|, old(names), |old(chunk.contents.pool)|), DeclaredCases(s, |s.cases|),
                  PeakCases(s, |s.cases|, old(localCount)))
      decreases s, 0, 0
    {
      hide GenStmt, StmtFits, Plus, Cat, One, Declared, Peak, NamesOf, Encode;
      ghost var c0 := chunk.contents;
      EmitInstr(Pop, 1);
      PlusSize(c0, One(Pop, 1));
      if s.default.Some? {
        :- CompileStatement(s.default.value);
        PlusCat(c0, One(Pop, 1), GenStmt(fp, s.default.value, old(names), |c0.pool|));
      } else {
        PlusCat(c0, One(Pop, 1), Empty);
        PlusEmpty(chunk.contents);
      }
      ok := Pass;
    }

    /** Patches every jump to the end, in order. */
    method CloseCases(s: Stmt, ends: seq<nat>, ghost c0: Contents, ghost L0: seq<string>, ghost k0: nat)
      returns (ok: Status)
      requires Valid() && s.Switch? && OpenAllowed(fp, s, 0, L0, k0)
      requires chunk.contents == Plus(c0, OpenCases(fp, s, 0, L0, k0)) && ends == Ends(fp, s, 0, L0, k0, |c0.bytes|)
      modifies chunk`contents, chunk.code
      ensures Valid() && (ok.Pass? <==> EndsAllowed(fp, s, 0, L0, k0))
      ensures ok.Pass? ==> chunk.contents == Plus(c0, GenCases(fp, s, 0, L0, k0))
    {
      hide Valid, GenExpr, GenStmt, GenCases, StmtFits, OpenCases, OpenAllowed, EndsAllowed, Ends, Plus, Declared,
        NamesOf,
        CaseTest, CaseBody, CaseOpened, FirstSide, OpenArm, CaseArm, Cat, One, JumpOver, Hole;
      ghost var c, L := c0, L0;
      ghost var k: nat := k0;
      var j := 0;
      while j < |s.cases|
        invariant j <= |s.cases| && Valid() && chunk.contents == Plus(c, OpenCases(fp, s, j, L, k))
        invariant Plus(c, GenCases(fp, s, j, L, k)) == Plus(c0, GenCases(fp, s, 0, L0, k0))
        invariant OpenAllowed(fp, s, j, L, k) && (EndsAllowed(fp, s, 0, L0, k0) <==> EndsAllowed(fp, s, j, L, k))
        invariant ends[j..] == Ends(fp, s, j, L, k, |c.bytes|)
      {
        ghost var vv := GenExpr(fp, s.cases[j].value, L, k, 2);
        ghost var bb := GenStmt(fp, s.cases[j].body, L, k + |vv.consts|);
        ghost var L', k' := L + Declared(s.cases[j].body), k + |vv.consts| + |bb.consts|;
        ghost var open, rest := OpenCases(fp, s, j + 1, L', k'), GenCases(fp, s, j + 1, L', k');
        ghost var done, tail := FirstSide(c, CaseTest(vv), CaseBody(bb), 2), Cat(One(Pop, 2), open);
        OpenAllowedStep(fp, s, j, L, k, |c.bytes|);
        OpenStep(c, fp, s, j, L, k);
        CloseStep(c, vv, bb, open);
        OpenSize(fp, s, j + 1, L', k');
        CasesCode(fp, s, j, L, k);
        ArmAssembled(c, vv, bb, rest);
        JumpOverSame(false, tail, Cat(One(Pop, 2), rest));
        :- PatchJump(ends[j], done, false, 0, tail);
        c, L, k := Plus(Plus(done, One(JumpOver(false, tail), 0)), One(Pop, 2)), L', k';
        j := j + 1;
      }
      LastCases(fp, s, L, k);
      ok := Pass;
    }

    lemma LastCases(fp: Arith, s: Stmt, L: seq<string>, k: nat)
      requires s.Switch?
      ensures OpenCases(fp, s, |s.cases|, L, k) == GenCases(fp, s, |s.cases|, L, k)
        && EndsAllowed(fp, s, |s.cases|, L, k)
    {
    }

    method CompileCases(s: Stmt) returns (ok: Status)
      requires Valid() && scopeDepth > 0 && s.Switch?
      modifies this, locals, chunk, chunk.code, chunk.constants
      ensures ok.Pass? <==> CasesAllowed(fp, s, 0, old(names), |old(chunk.contents.pool)|)
      ensures ok.Pass? ==> Valid() && Grew()
      ensures ok.Pass? ==>
                Laid(GenCases(fp, s, 0, old(names), |old(chunk.contents.pool)|), DeclaredCases(s, 0),
                  PeakCases(s, 0, old(localCount)))
      decreases s, 0, 2
    {
      hide Valid, GenCases, CasesAllowed, OpenCases, OpenAllowed, EndsAllowed, Ends, Plus, DeclaredCases, PeakCases,
        NamesOf;
      ghost var c0, L0, k0 := chunk.contents, names, |chunk.contents.pool|;
      ValidTable();
      CasesAllowedParts(fp, s, 0, L0, k0);
      var ends;
      ok, ends := CompileCaseList(s);
      if ok.Fail? { return; }
      LastCases(fp, s, names, |chunk.contents.pool|);
      :- CompileDefault(s);
      :- CloseCases(s, ends, c0, L0, k0);
      ok := Pass;
    }

    method CompileSwitch(s: Stmt) returns (ok: Status)
      requires Valid() && scopeDepth > 0 && s.Switch?
      modifies this, locals, chunk, chunk.code, chunk.constants
      ensures ok.Pass? <==> StmtFits(fp, s, old(names), |old(chunk.contents.pool)|)
      ensures ok.Pass? ==> Valid() && Grew()
      ensures ok.Pass? ==> Laid(GenStmt(fp, s, old(names), |old(chunk.contents.pool)|), Declared(s),
        Peak(s, old(localCount)))
      decreases s, 1
    {
      hide Valid, GenExpr, GenStmt, GenCases, CasesAllowed, StmtFits, Plus, Cat, Peak, Declared, DeclaredCases,
        PeakCases, NamesOf;
      ghost var c0 := chunk.contents;
      ghost var vv := GenExpr(fp, s.scrutinee, names, |c0.pool|, 0);
      ValidTable();
      SwitchAllowedParts(s, names, |c0.pool|);
      :- CompileExpression(s.scrutinee, 0);
      PlusSize(c0, vv);
      if |s.cases| > 10000 { return Pass; }
      :- CompileCases(s);
      PlusCat(c0, vv, GenCases(fp, s, 0, old(names), |c0.pool| + |vv.consts|));
      ok := Pass;
    }

    lemma SwitchAllowedParts(s: Stmt, L: seq<string>, k: nat)
      requires s.Switch? && |L| <= MAX_LOCALS
      ensures var vv := GenExpr(fp, s.scrutinee, L, k, 0);
              var few, k' := |s.cases| <= 10000, k + |vv.consts|;
              && (StmtFits(fp, s, L, k) <==> Holds(k, vv) && (few ==> CasesAllowed(fp, s, 0, L, k')))
              && GenStmt(fp, s, L, k) == (if few then Cat(vv, GenCases(fp, s, 0, L, k')) else vv)
              && Declared(s) == (if few then DeclaredCases(s, 0) else [])
              && Peak(s, |L|) == (if few then PeakCases(s, 0, |L|) else |L|)
    {
      hide GenExpr, GenCases, CasesFit, DeclaredCases, PeakCases, Cat;
    }

    // ----- functions -----

    method DeclareParameters(params: seq<string>) returns (ok: Status)
      requires Valid() && localCount == 0 && maxLocalCount == 0
      modifies this, locals
      ensures ok.Pass? <==> |params| <= MAX_LOCALS
      ensures ok.Pass? ==>
                Valid() && names == params && localCount == maxLocalCount == |params| && scopeDepth == old(scopeDepth)
      ensures ok.Pass? ==> forall j :: 0 <= j < localCount ==> locals[j].depth == scopeDepth
    {
      hide NamesOf;
      ok := Pass;
      var i := 0;
      while i < |params|
        invariant i <= |params| && Valid() && scopeDepth == old(scopeDepth) && ok.Pass?
        invariant names == params[..i] && localCount == i == maxLocalCount
        invariant forall j :: 0 <= j < i ==> locals[j].depth == scopeDepth
      {
        ok := AddLocal(params[i]);
        if ok.Fail? { return; }
        i := i + 1;
      }
      assert params[..i] == params;
    }

    /** Parameters, body, and the `return nil` that follows it. */
    method CompileParts(f: Function) returns (ok: Status)
      requires Valid() && localCount == 0 && maxLocalCount == 0 && scopeDepth == 0 && chunk.contents == Contents([], [])
      modifies this, locals, chunk, chunk.code, chunk.constants
      ensures ok.Pass? <==> FunctionFits(fp, f)
      ensures ok.Pass? ==> Valid() && Grew() && maxLocalCount == PeakAll(f.body, |f.params|)
      ensures ok.Pass? ==> chunk.contents == Plus(Contents([], []), GenFunction(fp, f))
    {
      hide Valid, GenStmts, AllJumpsFit, PeakAll, Plus, Cat, One, NamesOf, Encode, DeclaredAll, Opcode, Holds;
      BeginScope();
      :- DeclareParameters(f.params);
      ghost var n := localCount;
      :- CompileStatements(f.body);
      assert forall i :: 0 <= i < localCount ==> locals[i].depth == scopeDepth;
      EmitReturnNil();
      PlusCat(Contents([], []), GenStmts(fp, f.body, f.params, 0), Cat(One(PushNil, 0), One(Return, 1)));
      EndScope(0);
      ok := Pass;
    }

    method EmitReturnNil()
      requires Valid()
      modifies chunk, chunk.code
      ensures Valid() && Grew() && chunk.constants == old(chunk.constants)
      ensures chunk.contents == Plus(old(chunk.contents), Cat(One(PushNil, 0), One(Return, 1)))
    {
      hide Valid, Plus, Cat, One, Encode;
      EmitInstr(PushNil, 0);
      EmitInstr(Return, 1);
      PlusCat(old(chunk.contents), One(PushNil, 0), One(Return, 1));
    }
  }

  /** The limits a function has to respect. */
  predicate FunctionFits(fp: Arith, f: Function) {
    StmtsFit(fp, f.body, f.params, 0)
  }

  /** Compiles a whole function. */
  method CompileFunction(fp: Arith, f: Function) returns (ok: Status, prog: Program)
    ensures ok.Pass? <==> FunctionFits(fp, f)
    ensures ok.Pass? ==> prog == Compile(fp, f)
  {
    hide GenFunction, PeakAll, Plus, StmtsFit;
    prog := Program([], [], 0);
    var compiler := new Compiler(fp);
    ok := compiler.CompileParts(f);
    if ok.Pass? {
      FromNothing(GenFunction(fp, f));
      prog := compiler.Finished();
    }
  }

  lemma FromNothing(f: Frag)
    ensures Plus(Contents([], []), f) == Contents(f.code, f.consts)
  {
    assert [] + f.code == f.code && [] + f.consts == f.consts;
  }
}
