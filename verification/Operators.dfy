/** What operators, conditions, texts and assignments mean to a program, for all operands.

    Every statement is about a whole function: its source and its code in an avatar both end as
    written out here (`Gives`, `Fails`). */
module Operators {
  import opened Wrappers
  import opened Values
  import opened Source
  import opened CodeGen
  import opened Machine
  import opened SmallPrograms

  // ----- numbers -----

  /** Each operator applies its own operation, first operand first; `a > b` asks whether b is less. */
  lemma NumbersCombine(fp: Arith, x: Number, y: Number)
    ensures Gives(fp, Two(Add), [Num(x), Num(y)], Num(fp.add(x, y)))
    ensures Gives(fp, Two(Sub), [Num(x), Num(y)], Num(fp.sub(x, y)))
    ensures Gives(fp, Two(Mul), [Num(x), Num(y)], Num(fp.mul(x, y)))
    ensures fp.eq(y, fp.zero) ==> Fails(fp, Two(Div), [Num(x), Num(y)], DivisionByZero)
    ensures fp.eq(y, fp.zero) ==> Fails(fp, Two(Mod), [Num(x), Num(y)], ModuloByZero)
    ensures !fp.eq(y, fp.zero) ==> Gives(fp, Two(Div), [Num(x), Num(y)], Num(fp.div(x, y)))
    ensures !fp.eq(y, fp.zero) ==> Gives(fp, Two(Mod), [Num(x), Num(y)], Num(fp.fmod(x, y)))
    ensures Gives(fp, Two(Lt), [Num(x), Num(y)], Bool(fp.lt(x, y)))
    ensures Gives(fp, Two(Le), [Num(x), Num(y)], Bool(fp.le(x, y)))
    ensures Gives(fp, Two(Gt), [Num(x), Num(y)], Bool(fp.lt(y, x)))
    ensures Gives(fp, Two(Ge), [Num(x), Num(y)], Bool(fp.le(y, x)))
  {
    hide Gives, Fails, Two;
    TwoExact(fp, Add, Num(x), Num(y));
    TwoExact(fp, Sub, Num(x), Num(y));
    TwoExact(fp, Mul, Num(x), Num(y));
    TwoExact(fp, Div, Num(x), Num(y));
    TwoExact(fp, Mod, Num(x), Num(y));
    TwoExact(fp, Lt, Num(x), Num(y));
    TwoExact(fp, Le, Num(x), Num(y));
    TwoExact(fp, Gt, Num(x), Num(y));
    TwoExact(fp, Ge, Num(x), Num(y));
  }

  predicate NumbersOnly(op: BinOp) {
    op in {Sub, Mul, Div, Mod, Lt, Le, Gt, Ge}
  }

  /** Anything but two numbers is refused by the numeric operators. */
  lemma NumbersWanted(fp: Arith, op: BinOp, v: Value, w: Value)
    requires NumbersOnly(op) && !(v.Num? && w.Num?)
    ensures Fails(fp, Two(op), [v, w], OperandsMustBeNumbers)
  {
    hide Gives, Fails, Two;
    TwoExact(fp, op, v, w);
  }

  /** `a > b` is `b < a` and `a >= b` is `b <= a`, for operands of every type. */
  lemma Converse(fp: Arith, v: Value, w: Value)
    ensures Run(fp, Two(Gt), [v, w]) == Run(fp, Two(Lt), [w, v])
    ensures Run(fp, Two(Ge), [v, w]) == Run(fp, Two(Le), [w, v])
  {
    hide Run, Two;
    TwoExact(fp, Gt, v, w);
    TwoExact(fp, Lt, w, v);
    TwoExact(fp, Ge, v, w);
    TwoExact(fp, Le, w, v);
  }

  /** `return a + b - b` */
  const THERE_AND_BACK := Returns(BinaryExpr(Sub, BinaryExpr(Add, A, B), B))

  /** Wherever subtraction undoes addition, a program may rely on it. */
  lemma SubUndoesAdd(fp: Arith, x: Number, y: Number)
    requires fp.sub(fp.add(x, y), y) == x
    ensures Gives(fp, THERE_AND_BACK, [Num(x), Num(y)], Num(x))
  {
    hide Gives, Fails, Little, Fits, Returns;
    var sum := BinaryExpr(Add, A, B);
    ParamFits(fp, A);
    ParamFits(fp, B);
    BinaryFits(fp, Add, A, B, 2, 2);
    BinaryFits(fp, Sub, sum, B, 5, 2);
    FitsLittle(fp, BinaryExpr(Sub, sum, B), 8);
    ReturnsExact(fp, BinaryExpr(Sub, sum, B), Num(x), Num(y));
    ReadsTwo(fp, Num(x), Num(y));
  }

  /** Digits of a natural number. */
  function Digits(n: nat): string
    decreases n
  {
    (if n < 10 then [] else Digits(n / 10)) + [('0' as int + n % 10) as char]
  }

  /** Arithmetic on whole numbers. */
  const INTS: Arith := Arith(
    (x, y) => x + y,
    (x, y) => x - y,
    (x, y) => x * y,
    (x, y) => if y == 0 then 0 else x / y,
    (x, y) => if y == 0 then 0 else x % y,
    x => -x,
    (x, y) => x == y,
    (x, y) => x < y,
    (x, y) => x <= y,
    0,
    x => x,
    x => x,
    x => if x < 0 then "-" + Digits(-x) else Digits(x))

  /** On whole numbers, operators are those of mathematics. */
  lemma WholeNumbers(x: int, y: int)
    ensures Gives(INTS, Two(Add), [Num(x), Num(y)], Num(x + y))
    ensures Gives(INTS, Two(Sub), [Num(x), Num(y)], Num(x - y))
    ensures Gives(INTS, Two(Mul), [Num(x), Num(y)], Num(x * y))
    ensures y == 0 ==> Fails(INTS, Two(Div), [Num(x), Num(y)], DivisionByZero)
    ensures y == 0 ==> Fails(INTS, Two(Mod), [Num(x), Num(y)], ModuloByZero)
    ensures y != 0 ==> Gives(INTS, Two(Div), [Num(x), Num(y)], Num(x / y))
    ensures y != 0 ==> Gives(INTS, Two(Mod), [Num(x), Num(y)], Num(x % y))
    ensures Gives(INTS, Two(Lt), [Num(x), Num(y)], Bool(x < y))
    ensures Gives(INTS, Two(Le), [Num(x), Num(y)], Bool(x <= y))
    ensures Gives(INTS, Two(Gt), [Num(x), Num(y)], Bool(x > y))
    ensures Gives(INTS, Two(Ge), [Num(x), Num(y)], Bool(x >= y))
    ensures Gives(INTS, Two(Eq), [Num(x), Num(y)], Bool(x == y))
    ensures Gives(INTS, Two(Neq), [Num(x), Num(y)], Bool(x != y))
  {
    hide Gives, Fails, Two;
    NumbersCombine(INTS, x, y);
    TwoExact(INTS, Eq, Num(x), Num(y));
    TwoExact(INTS, Neq, Num(x), Num(y));
  }

  /** `return -a` */
  lemma Negation(fp: Arith, v: Value, w: Value)
    ensures v.Num? ==> Gives(fp, Returns(UnaryExpr(Negate, A)), [v, w], Num(fp.neg(v.n)))
    ensures !v.Num? ==> Fails(fp, Returns(UnaryExpr(Negate, A)), [v, w], OperandMustBeNumber)
  {
    hide Gives, Fails, Little, Fits, Returns;
    ParamFits(fp, A);
    UnaryFits(fp, Negate, A, 2);
    FitsLittle(fp, UnaryExpr(Negate, A), 3);
    ReturnsExact(fp, UnaryExpr(Negate, A), v, w);
    ReadsTwo(fp, v, w);
  }

  // ----- truth -----

  /** `not`, `and` and `or` take nil and false, and nothing else, to be false; the last two
      return one of their operands. */
  lemma Truth(fp: Arith, v: Value, w: Value)
    ensures var no := v == Nil || v == Bool(false);
            && Gives(fp, Two(And), [v, w], if no then v else w)
            && Gives(fp, Two(Or), [v, w], if no then w else v)
            && Gives(fp, Returns(UnaryExpr(Not, A)), [v, w], Bool(no))
  {
    hide Gives, Fails, Little, Fits, Returns, Two;
    TwoExact(fp, And, v, w);
    TwoExact(fp, Or, v, w);
    ParamFits(fp, A);
    UnaryFits(fp, Not, A, 2);
    FitsLittle(fp, UnaryExpr(Not, A), 3);
    ReturnsExact(fp, UnaryExpr(Not, A), v, w);
    ReadsTwo(fp, v, w);
  }

  /** Nil, booleans and strings are the same as themselves, numbers as `fp` says; arrays, objects
      and functions are the same as nothing. */
  predicate Same(fp: Arith, v: Value, w: Value) {
    (v == w && (v.Nil? || v.Bool? || v.Str?)) || (v.Num? && w.Num? && fp.eq(v.n, w.n))
  }

  /** Equality looks at type and value; arrays, objects and functions equal nothing, not even
      themselves. */
  lemma Equality(fp: Arith, v: Value, w: Value)
    ensures Gives(fp, Two(Eq), [v, w], Bool(Same(fp, v, w)))
    ensures Gives(fp, Two(Neq), [v, w], Bool(!Same(fp, v, w)))
  {
    hide Gives, Fails, Two;
    TwoExact(fp, Eq, v, w);
    TwoExact(fp, Neq, v, w);
  }

  // ----- texts -----

  /** `s + a` and `a + s`: the texts one after the other, in this order. */
  lemma TextsJoin(fp: Arith, s: string, t: string, n: Number, v: Value)
    ensures Gives(fp, Two(Add), [Str(s), Str(t)], Str(s + t))
    ensures Gives(fp, Two(Add), [Str(s), Num(n)], Str(s + fp.show(n)))
    ensures Gives(fp, Two(Add), [Num(n), Str(s)], Str(fp.show(n) + s))
    ensures Gives(fp, Two(Add), [Str(s), Nil], Str(s + "nil")) && Gives(fp, Two(Add), [Nil, Str(s)], Str("nil" + s))
    ensures Gives(fp, Two(Add), [Str(s), Bool(true)], Str(s + "true"))
    ensures Gives(fp, Two(Add), [Str(s), Bool(false)], Str(s + "false"))
    ensures Gives(fp, Two(Add), [Bool(true), Str(s)], Str("true" + s))
    ensures Gives(fp, Two(Add), [Bool(false), Str(s)], Str("false" + s))
    ensures v.Arr? || v.Obj? || v.Fn? ==>
              && Gives(fp, Two(Add), [Str(s), v], Str(s + "[object]"))
              && Gives(fp, Two(Add), [v, Str(s)], Str("[object]" + s))
  {
    hide Gives, Fails, Two;
    TwoExact(fp, Add, Str(s), Str(t));
    TwoExact(fp, Add, Str(s), Num(n));
    TwoExact(fp, Add, Num(n), Str(s));
    TwoExact(fp, Add, Str(s), Nil);
    TwoExact(fp, Add, Nil, Str(s));
    forall c | c in {true, false}
      ensures Gives(fp, Two(Add), [Str(s), Bool(c)], Str(s + if c then "true" else "false"))
      ensures Gives(fp, Two(Add), [Bool(c), Str(s)], Str((if c then "true" else "false") + s))
    {
      TwoExact(fp, Add, Str(s), Bool(c));
      TwoExact(fp, Add, Bool(c), Str(s));
    }
    TwoExact(fp, Add, Str(s), v);
    TwoExact(fp, Add, v, Str(s));
  }

  /** Two arrays are joined in order; what is neither numbers, a string nor two arrays is refused. */
  lemma OtherSums(fp: Arith, v: Value, w: Value)
    requires !(v.Num? && w.Num?) && !v.Str? && !w.Str?
    ensures v.Arr? && w.Arr? ==> Gives(fp, Two(Add), [v, w], Arr(v.elems + w.elems))
    ensures !(v.Arr? && w.Arr?) ==> Fails(fp, Two(Add), [v, w], BadAddOperands)
  {
    hide Gives, Fails, Two;
    TwoExact(fp, Add, v, w);
  }

  /** The text a value has inside an interpolated string. */
  predicate HasText(fp: Arith, v: Value, t: string) {
    || (v == Nil && t == "nil")
    || (v == Bool(true) && t == "true")
    || (v == Bool(false) && t == "false")
    || (v.Num? && t == fp.show(v.n))
    || (v.Str? && t == v.s)
    || ((v.Arr? || v.Obj? || v.Fn?) && t == "[Object]")
  }

  /** `return "head${a}mid${b}tail"` */
  lemma Interpolation(fp: Arith, head: string, v: Value, mid: string, w: Value, tail: string, t: string, u: string)
    requires HasText(fp, v, t) && HasText(fp, w, u)
    ensures Gives(fp, Returns(Interp(head, [Piece(A, mid), Piece(B, tail)])), [v, w], Str(head + t + mid + u + tail))
  {
    hide Gives, Fails, Little, Fits, Returns, Eval;
    var ps := [Piece(A, mid), Piece(B, tail)];
    ParamFits(fp, A);
    ParamFits(fp, B);
    TextFits(fp, head, A, mid, B, tail, 2, 2);
    FitsLittle(fp, Interp(head, ps), 24);
    ReturnsExact(fp, Interp(head, ps), v, w);
    ReadsTwo(fp, v, w);
    InterpEval(fp, head, ps, Both(v, w));
    assert ps[1..] == [ps[1]] && [ps[1]][1..] == [];
    EvalPiece(fp, head, ps, Both(v, w), v);
    EvalPiece(fp, head + t + mid, [ps[1]], Both(v, w), w);
  }

  lemma InterpEval(fp: Arith, head: string, ps: seq<Piece>, env: Env)
    ensures Eval(fp, Interp(head, ps), env) == EvalPieces(fp, Str(head), ps, env)
    ensures EvalPieces(fp, Str(head), [], env) == Val(Str(head), env)
  {
  }

  lemma EvalPiece(fp: Arith, acc: string, ps: seq<Piece>, env: Env, v: Value)
    requires ps != [] && Eval(fp, ps[0].e, env) == Val(v, env)
    ensures EvalPieces(fp, Str(acc), ps, env) == EvalPieces(fp, Str(acc + ToText(fp, v) + ps[0].text), ps[1..], env)
    ensures EvalPieces(fp, Str(acc), [], env) == Val(Str(acc), env)
  {
    hide Eval;
  }

  /** A literal is its own value. */
  lemma Literals(fp: Arith, c: Value, v: Value, w: Value)
    requires c.Nil? || c.Bool? || c.Num? || c.Str?
    ensures Gives(fp, Returns(Lit(c)), [v, w], c)
  {
    hide Gives, Fails, Little, Fits, Returns;
    LiteralFits(fp, c);
    FitsLittle(fp, Lit(c), 3);
    ReturnsExact(fp, Lit(c), v, w);
  }

  // ----- arrays and objects -----

  /** `return a[b]` for an array: the element at that position, or which index missed which size. */
  lemma Elements(fp: Arith, es: seq<Value>, w: Value)
    ensures !w.Num? ==> Fails(fp, Returns(IndexExpr(A, B)), [Arr(es), w], IndexMustBeNumber)
    ensures w.Num? ==>
              var i := fp.toInt(w.n);
              && (0 <= i < |es| ==> Gives(fp, Returns(IndexExpr(A, B)), [Arr(es), w], es[i]))
              && (i < 0 || i >= |es| ==> Fails(fp, Returns(IndexExpr(A, B)), [Arr(es), w], OutOfBounds(i, |es|)))
  {
    hide Gives, Fails, Returns;
    IndexExact(fp, Arr(es), w);
  }

  lemma IndexExact(fp: Arith, v: Value, w: Value)
    ensures match Index(fp, v, w) {
              case Ok(r) => Gives(fp, Returns(IndexExpr(A, B)), [v, w], r)
              case Bad(e) => Fails(fp, Returns(IndexExpr(A, B)), [v, w], e)
            }
  {
    hide Gives, Fails, Little, Fits, Returns, Index;
    ParamFits(fp, A);
    ParamFits(fp, B);
    IndexFits(fp, A, B, 2, 2);
    FitsLittle(fp, IndexExpr(A, B), 5);
    ReturnsExact(fp, IndexExpr(A, B), v, w);
    ReadsTwo(fp, v, w);
  }

  /** What is neither an array nor an object with a string as key cannot be indexed; the error
      names the type. */
  lemma NotIndexed(fp: Arith, v: Value, w: Value)
    requires !v.Arr? && !(v.Obj? && w.Str?)
    ensures var typ := if v.Nil? then 0 else if v.Bool? then 1 else if v.Num? then 2 else if v.Str? then 3
                       else if v.Obj? then 5 else 6;
            Fails(fp, Returns(IndexExpr(A, B)), [v, w], NotIndexable(typ))
  {
    hide Gives, Fails, Returns;
    IndexExact(fp, v, w);
  }

  /** The first field called `p` is the one at `i`. */
  predicate FirstCalled(fields: seq<Field>, p: string, i: nat) {
    i < |fields| && fields[i].key == p && forall j :: 0 <= j < i ==> fields[j].key != p
  }

  /** `return a.p` and `return a[p]` for an object: the value of the first field of that name. */
  lemma FieldFound(fp: Arith, fields: seq<Field>, p: string, i: nat, w: Value)
    requires FirstCalled(fields, p, i)
    ensures Gives(fp, Returns(Member(A, p)), [Obj(fields), w], fields[i].val)
    ensures Gives(fp, Returns(IndexExpr(A, B)), [Obj(fields), Str(p)], fields[i].val)
  {
    hide Gives, Fails, Returns, FieldIndex;
    MemberExact(fp, Obj(fields), p, w);
    IndexExact(fp, Obj(fields), Str(p));
    var first := FieldIndex(fields, p);
    assert first == i;
  }

  /** The same when no field has that name: nil. */
  lemma FieldMissing(fp: Arith, fields: seq<Field>, p: string, w: Value)
    requires forall j :: 0 <= j < |fields| ==> fields[j].key != p
    ensures Gives(fp, Returns(Member(A, p)), [Obj(fields), w], Nil)
    ensures Gives(fp, Returns(IndexExpr(A, B)), [Obj(fields), Str(p)], Nil)
  {
    hide Gives, Fails, Returns, FieldIndex;
    MemberExact(fp, Obj(fields), p, w);
    IndexExact(fp, Obj(fields), Str(p));
    var i := FieldIndex(fields, p);
    assert i == |fields|;
  }

  lemma MemberExact(fp: Arith, v: Value, p: string, w: Value)
    ensures match GetProperty(fp, v, Str(p)) {
              case Ok(r) => Gives(fp, Returns(Member(A, p)), [v, w], r)
              case Bad(e) => Fails(fp, Returns(Member(A, p)), [v, w], e)
            }
  {
    hide Gives, Fails, Little, Fits, Returns, GetProperty;
    ParamFits(fp, A);
    MemberFits(fp, A, p, 2);
    FitsLittle(fp, Member(A, p), 6);
    ReturnsExact(fp, Member(A, p), v, w);
    ReadsTwo(fp, v, w);
  }

  /** Arrays and strings have a `length`, every other property of theirs is nil; the rest has no
      properties. */
  lemma Properties(fp: Arith, v: Value, p: string, w: Value)
    requires !v.Obj?
    ensures v.Arr? ==> Gives(fp, Returns(Member(A, "length")), [v, w], Num(fp.ofInt(|v.elems|)))
    ensures v.Str? ==> Gives(fp, Returns(Member(A, "length")), [v, w], Num(fp.ofInt(|v.s|)))
    ensures (v.Arr? || v.Str?) && p != "length" ==> Gives(fp, Returns(Member(A, p)), [v, w], Nil)
    ensures !v.Arr? && !v.Str? ==> Fails(fp, Returns(Member(A, p)), [v, w], NoProperties)
  {
    hide Gives, Fails, Returns;
    MemberExact(fp, v, "length", w);
    MemberExact(fp, v, p, w);
  }

  // ----- assignments and the order of evaluation -----

  /** `return a op= b`, and `a` afterwards. */
  lemma Assignments(fp: Arith, x: Number, y: Number)
    ensures Gives(fp, Returns(ArrayLit([Assign("a", Set, B), A])), [Num(x), Num(y)], Arr([Num(y), Num(y)]))
    ensures var sum := Num(fp.add(x, y));
            Gives(fp, Returns(ArrayLit([Assign("a", PlusSet, B), A])), [Num(x), Num(y)], Arr([sum, sum]))
    ensures var difference := Num(fp.sub(x, y));
            Gives(fp, Returns(ArrayLit([Assign("a", MinusSet, B), A])), [Num(x), Num(y)],
              Arr([difference, difference]))
  {
    hide Gives, Returns;
    AssignedPair(fp, Set, Num(x), Num(y), Num(y));
    AssignedPair(fp, PlusSet, Num(x), Num(y), Num(fp.add(x, y)));
    AssignedPair(fp, MinusSet, Num(x), Num(y), Num(fp.sub(x, y)));
  }

  lemma AssignedPair(fp: Arith, op: AssignOp, v: Value, w: Value, r: Value)
    requires Eval(fp, Assign("a", op, B), Both(v, w)) == Val(r, Update(Both(v, w), "a", r))
    ensures Gives(fp, Returns(ArrayLit([Assign("a", op, B), A])), [v, w], Arr([r, r]))
  {
    hide Gives, Fails, Little, Fits, Returns, Eval, EvalAll, Update;
    var e := Assign("a", op, B);
    ParamFits(fp, A);
    ParamFits(fp, B);
    AssignFits(fp, op, B, 2);
    PairFits(fp, e, A, 7, 2);
    FitsLittle(fp, ArrayLit([e, A]), 11);
    ReturnsExact(fp, ArrayLit([e, A]), v, w);
    SetFirst(v, w, r);
    ReadsTwo(fp, r, w);
    PairEval(fp, e, A, Both(v, w));
  }

  lemma SetFirst(v: Value, w: Value, r: Value)
    ensures Update(Both(v, w), "a", r) == Both(r, w)
  {
    var env := Both(v, w);
    assert env[..0] + [env[0]["a" := Some(r)]] == [env[0]["a" := Some(r)]];
    assert env[0]["a" := Some(r)] == Both(r, w)[0];
  }

  lemma PairEval(fp: Arith, x: Expr, y: Expr, env: Env)
    requires var r := Eval(fp, x, env); r.Val? && Eval(fp, y, r.env).Val?
    ensures var r := Eval(fp, x, env);
            var s := Eval(fp, y, r.env);
            Eval(fp, ArrayLit([x, y]), env) == Val(Arr([r.v, s.v]), s.env)
  {
    hide Eval, EvalAll;
    var r := Eval(fp, x, env);
    var s := Eval(fp, y, r.env);
    assert [x, y] == [x] + [y] && [y] == [y] + [];
    ArrayEval(fp, [x, y], env);
    FirstElement(fp, y, [], r.env);
    FirstElement(fp, x, [y], env);
    assert [s.v] + [] == [s.v] && [r.v] + [s.v] == [r.v, s.v];
  }

  lemma ArrayEval(fp: Arith, es: seq<Expr>, env: Env)
    ensures EvalAll(fp, es, env).Vals? ==>
              Eval(fp, ArrayLit(es), env) == Val(Arr(EvalAll(fp, es, env).vs), EvalAll(fp, es, env).env)
  {
    hide EvalAll;
  }

  lemma FirstElement(fp: Arith, e: Expr, es: seq<Expr>, env: Env)
    requires var a := Eval(fp, e, env); a.Val? && (es == [] || EvalAll(fp, es, a.env).Vals?)
    ensures var a := Eval(fp, e, env);
            var rest := if es == [] then Vals([], a.env) else EvalAll(fp, es, a.env);
            EvalAll(fp, [e] + es, env) == Vals([a.v] + rest.vs, rest.env)
  {
    hide Eval;
    assert ([e] + es)[1..] == es;
  }

  /** The left operand comes first: what the right one assigns is too late for it, and what it
      assigns itself is in time for the right one. */
  lemma LeftFirst(fp: Arith, x: Number, y: Number)
    ensures Gives(fp, Returns(BinaryExpr(Sub, A, Assign("a", Set, B))), [Num(x), Num(y)], Num(fp.sub(x, y)))
    ensures Gives(fp, Returns(BinaryExpr(Sub, Assign("a", Set, B), A)), [Num(x), Num(y)], Num(fp.sub(y, y)))
  {
    hide Gives, Fails, Little, Fits, Returns, Update;
    var e := Assign("a", Set, B);
    ParamFits(fp, A);
    ParamFits(fp, B);
    AssignFits(fp, Set, B, 2);
    BinaryFits(fp, Sub, A, e, 2, 7);
    BinaryFits(fp, Sub, e, A, 7, 2);
    FitsLittle(fp, BinaryExpr(Sub, A, e), 10);
    FitsLittle(fp, BinaryExpr(Sub, e, A), 10);
    ReturnsExact(fp, BinaryExpr(Sub, A, e), Num(x), Num(y));
    ReturnsExact(fp, BinaryExpr(Sub, e, A), Num(x), Num(y));
    SetFirst(Num(x), Num(y), Num(y));
    ReadsTwo(fp, Num(x), Num(y));
    ReadsTwo(fp, Num(y), Num(y));
  }
}
