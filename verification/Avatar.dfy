/** The avatar's operand stack, the opcode executor that works on it, and the run loop,
    in the form the runtime has them: an array, a stack pointer and an error flag. */
module Avatars {
  import opened Wrappers
  import opened Values
  import opened Bytecode
  import opened Machine

  class ExecContext {
    const fp: Arith
    const stack: array<Value>
    var top: nat
    /** The error flag, with its message. */
    var error: Option<Fault>

    ghost predicate Valid()
      reads this
    {
      stack.Length == STACK_MAX && top <= STACK_MAX
    }

    ghost function Contents(): seq<Value>
      reads this, stack
      requires Valid()
    {
      stack[..top]
    }

    constructor (fp: Arith)
      ensures Valid() && this.fp == fp && fresh(stack) && Contents() == [] && error == None
    {
      this.fp := fp;
      stack := new Value[STACK_MAX];
      top, error := 0, None;
    }

    // ----- push, pop, peek -----

    /** A push on a full stack raises the flag and changes nothing else. */
    method Push(v: Value)
      requires Valid()
      modifies this, stack
      ensures Valid()
      ensures old(top) < STACK_MAX ==> Contents() == old(Contents()) + [v] && error == old(error)
      ensures old(top) == STACK_MAX ==> Contents() == old(Contents()) && error == Some(StackOverflow)
    {
      if top >= STACK_MAX {
        error := Some(StackOverflow);
      } else {
        stack[top] := v;
        top := top + 1;
      }
    }

    method Pop() returns (v: Value)
      requires Valid()
      modifies this
      ensures Valid()
      ensures old(Contents()) != [] ==>
                v == Top(old(Contents())) && Contents() == Drop(old(Contents()), 1) && error == old(error)
      ensures old(Contents()) == [] ==> v == Nil && Contents() == [] && error == Some(StackUnderflow)
    {
      if top == 0 {
        error := Some(StackUnderflow);
        return Nil;
      }
      top := top - 1;
      v := stack[top];
    }

    /** What an instruction did: `ok` is what the executor returns. */
    twostate predicate Did(consts: seq<Value>, i: Instr, ok: bool)
      requires !IsControl(i) && old(Valid()) && Valid()
      reads this, stack
    {
      match Straight(fp, consts, i, old(Contents()))
      case Stop(f) => !ok && error == Some(f)
      case Next(st) =>
        if |st| <= STACK_MAX then ok && Contents() == st && error == old(error)
        else ok && Contents() == old(Contents()) && error == Some(StackOverflow)
      case Away => true
    }

    method Fail(f: Fault) returns (ok: bool)
      requires Valid()
      modifies this
      ensures Valid() && !ok && error == Some(f)
    {
      error := Some(f);
      ok := false;
    }

    /** The two topmost values, the upper one second. */
    method PopTwo() returns (a: Value, b: Value)
      requires Valid() && top >= 2
      modifies this
      ensures Valid() && Contents() == Drop(old(Contents()), 2) && error == old(error)
      ensures var st := old(Contents()); a == st[|st| - 2] && b == st[|st| - 1]
    {
      b := Pop();
      a := Pop();
    }

    // ----- operators -----

    method Add() returns (ok: bool)
      requires Valid()
      modifies this, stack
      ensures Valid() && Did([], Binary(BinOp.Add), ok)
    {
      if top < 2 { ok := Fail(StackUnderflow); return; }
      var a, b := PopTwo();
      if a.Num? && b.Num? {
        Push(Num(fp.add(a.n, b.n)));
      } else if a.Str? || b.Str? {
        Push(Str(TextOf(fp, a) + TextOf(fp, b)));
      } else if a.Arr? && b.Arr? {
        Push(Arr(a.elems + b.elems));
      } else {
        ok := Fail(BadAddOperands);
        return;
      }
      ok := true;
    }

    /** SUBTRACT, MULTIPLY, DIVIDE, MODULO and the four orderings. */
    method Numeric(op: BinOp) returns (ok: bool)
      requires Valid() && !op.Add? && !op.Eq? && !op.Neq? && !op.And? && !op.Or?
      modifies this, stack
      ensures Valid() && Did([], Binary(op), ok)
    {
      if top < 2 { ok := Fail(StackUnderflow); return; }
      var a, b := PopTwo();
      if !a.Num? || !b.Num? { ok := Fail(OperandsMustBeNumbers); return; }
      if (op.Div? || op.Mod?) && fp.eq(b.n, fp.zero) {
        ok := Fail(if op.Div? then DivisionByZero else ModuloByZero);
        return;
      }
      match op {
        case Sub => Push(Num(fp.sub(a.n, b.n)));
        case Mul => Push(Num(fp.mul(a.n, b.n)));
        case Div => Push(Num(fp.div(a.n, b.n)));
        case Mod => Push(Num(fp.fmod(a.n, b.n)));
        case Gt => Push(Bool(fp.lt(b.n, a.n)));
        case Ge => Push(Bool(fp.le(b.n, a.n)));
        case Lt => Push(Bool(fp.lt(a.n, b.n)));
        case Le => Push(Bool(fp.le(a.n, b.n)));
      }
      ok := true;
    }

    /** EQUAL and NOT_EQUAL. */
    method Equality(op: BinOp) returns (ok: bool)
      requires Valid() && (op.Eq? || op.Neq?)
      modifies this, stack
      ensures Valid() && Did([], Binary(op), ok)
    {
      if top < 2 { ok := Fail(StackUnderflow); return; }
      var a, b := PopTwo();
      Push(Bool(ValuesEqual(fp, a, b) == op.Eq?));
      ok := true;
    }

    /** AND and OR; both operands have been evaluated. */
    method Logic(op: BinOp) returns (ok: bool)
      requires Valid() && (op.And? || op.Or?)
      modifies this, stack
      ensures Valid() && Did([], Binary(op), ok)
    {
      if top < 2 { ok := Fail(StackUnderflow); return; }
      var a, b := PopTwo();
      Push(if IsFalsy(a) == op.And? then a else b);
      ok := true;
    }

    method UnaryOperator(op: UnOp) returns (ok: bool)
      requires Valid()
      modifies this, stack
      ensures Valid() && Did([], Unary(op), ok)
    {
      if top < 1 { ok := Fail(StackUnderflow); return; }
      var a := Pop();
      if op.Not? {
        Push(Bool(IsFalsy(a)));
      } else if a.Num? {
        Push(Num(fp.neg(a.n)));
      } else {
        ok := Fail(OperandMustBeNumber);
        return;
      }
      ok := true;
    }

    method ConvertToString() returns (ok: bool)
      requires Valid()
      modifies this, stack
      ensures Valid() && Did([], ToString, ok)
    {
      if top < 1 { ok := Fail(StackUnderflow); return; }
      var a := Pop();
      Push(Str(ToText(fp, a)));
      ok := true;
    }

    // ----- arrays and objects -----

    /** Pops `n` values, in reverse order. */
    method PopElements(n: nat) returns (elems: seq<Value>)
      requires Valid() && n <= top
      modifies this
      ensures Valid() && Contents() == Drop(old(Contents()), n) && error == old(error)
      ensures elems == old(Contents())[old(top) - n..]
    {
      elems := [];
      var i := n;
      while i > 0
        invariant 0 <= i <= n && Valid() && top == old(top) - (n - i) && error == old(error)
        invariant elems == old(Contents())[top..]
      {
        var v := Pop();
        elems := [v] + elems;
        i := i - 1;
      }
    }

    method ArrayCreate(n: byte) returns (ok: bool)
      requires Valid()
      modifies this, stack
      ensures Valid() && Did([], Array(n), ok)
    {
      if top < n { ok := Fail(StackUnderflow); return; }
      var elems := PopElements(n);
      Push(Arr(elems));
      ok := true;
    }

    /** Position of the first field called `key`, or the number of fields. */
    method FindField(fields: seq<Field>, key: string) returns (i: nat)
      ensures i == FieldIndex(fields, key)
    {
      i := 0;
      while i < |fields|
        invariant i <= |fields| && FieldIndex(fields, key) == i + FieldIndex(fields[i..], key)
      {
        if fields[i].key == key { return; }
        assert fields[i..][1..] == fields[i + 1..];
        i := i + 1;
      }
    }

    method ObjectGet() returns (ok: bool)
      requires Valid()
      modifies this, stack
      ensures Valid() && Did([], Instr.ObjectGet, ok)
    {
      hide FieldIndex;
      if top < 2 { ok := Fail(StackUnderflow); return; }
      var subject, key := PopTwo();
      if !key.Str? { ok := Fail(KeyMustBeString); return; }
      match subject {
        case Arr(es) => Push(if key.s == "length" then Num(fp.ofInt(|es|)) else Nil);
        case Str(s) => Push(if key.s == "length" then Num(fp.ofInt(|s|)) else Nil);
        case Obj(fields) =>
          var i := FindField(fields, key.s);
          Push(if i < |fields| then fields[i].val else Nil);
        case _ =>
          ok := Fail(NoProperties);
          return;
      }
      ok := true;
    }

    method ObjectSet() returns (ok: bool)
      requires Valid()
      modifies this, stack
      ensures Valid() && Did([], Instr.ObjectSet, ok)
    {
      hide FieldIndex;
      if top < 3 { ok := Fail(StackUnderflow); return; }
      var v := Pop();
      var subject, key := PopTwo();
      if !subject.Obj? { ok := Fail(SetOnNonObject); return; }
      if !key.Str? { ok := Fail(KeyMustBeString); return; }
      var fields := subject.fields;
      var i := FindField(fields, key.s);
      if i < |fields| {
        fields := fields[i := Field(fields[i].key, v)];
      } else {
        fields := fields + [Field(key.s, v)];
      }
      Push(Obj(fields));
      ok := true;
    }

    method ArrayGet() returns (ok: bool)
      requires Valid()
      modifies this, stack
      ensures Valid() && Did([], Instr.ArrayGet, ok)
    {
      hide ApplyBinary, ApplyUnary, ToText, SetProperty, LookupField, FieldIndex, BeyondModel;
      if top < 2 { ok := Fail(StackUnderflow); return; }
      var container, index := PopTwo();
      if container.Obj? && index.Str? {
        Push(container);
        Push(index);
        assert Contents() == old(Contents());
        ok := ObjectGet();
        return;
      }
      if !container.Arr? { ok := Fail(NotIndexable(TypeTag(container))); return; }
      if !index.Num? { ok := Fail(IndexMustBeNumber); return; }
      var i := fp.toInt(index.n);
      if i < 0 || i >= |container.elems| { ok := Fail(OutOfBounds(i, |container.elems|)); return; }
      Push(container.elems[i]);
      ok := true;
    }

    // ----- locals -----

    /** `None`: the slot lies above the stack, where stale cells are. */
    method GetLocal(slot: byte) returns (ok: bool)
      requires Valid() && slot < top
      modifies this, stack
      ensures Valid() && Did([], Instr.GetLocal(slot), ok)
    {
      Push(stack[slot]);
      ok := true;
    }

    method SetLocal(slot: byte) returns (ok: bool)
      requires Valid() && (top == 0 || slot < top)
      modifies this, stack
      ensures Valid() && Did([], Instr.SetLocal(slot), ok)
    {
      if top == 0 { ok := Fail(StackUnderflow); return; }
      stack[slot] := stack[top - 1];
      ok := true;
    }

    /** A push that does not look at the capacity; there must be room. */
    method RawPush(v: Value)
      requires Valid() && top < STACK_MAX
      modifies this, stack
      ensures Valid() && Contents() == old(Contents()) + [v] && error == old(error)
    {
      stack[top] := v;
      top := top + 1;
    }

    /** Instructions that only compute on the operand stack. */
    method Compute(ghost consts: seq<Value>, i: Instr) returns (ok: bool)
      requires Valid() && Computes(i)
      modifies this, stack
      ensures Valid() && Did(consts, i, ok)
    {
      hide Straight;
      OnStackOnly(fp, consts, i, Contents());
      match i {
        case Binary(op) => ok := Operator(op);
        case Unary(op) => ok := UnaryOperator(op);
        case ToString => ok := ConvertToString();
        case Array(n) => ok := ArrayCreate(n);
        case ArrayGet => ok := ArrayGet();
        case ObjectGet => ok := ObjectGet();
        case ObjectSet => ok := ObjectSet();
      }
    }

    /** The executor's routine for an instruction that neither jumps nor ends the run.
        `None` when the instruction leaves the model. */
    method Execute(consts: seq<Value>, i: Instr) returns (ok: Option<bool>)
      requires Valid() && !IsControl(i)
      modifies this, stack
      ensures Valid()
      ensures ok.Some? ==> Did(consts, i, ok.value)
      ensures ok.None? <==> Leaves(consts, i, old(Contents()))
    {
      if Computes(i) {
        hide Straight, Did, Valid;
        OnStackOnly(fp, consts, i, Contents());
        var done := Compute(consts, i);
        ok := Some(done);
      } else {
        ok := Transfer(consts, i);
      }
    }

    /** The other instructions: constants, locals, and those that are not modelled or not known. */
    method Transfer(consts: seq<Value>, i: Instr) returns (ok: Option<bool>)
      requires Valid() && !IsControl(i) && !Computes(i)
      modifies this, stack
      ensures Valid()
      ensures ok.Some? ==> Did(consts, i, ok.value)
      ensures ok.None? <==> Leaves(consts, i, old(Contents()))
    {
      hide ApplyBinary, ApplyUnary, Index, GetProperty, SetProperty, ToText, Opcode, BinaryOpcode;
      var done := true;
      match i {
        case Constant(k) =>
          if k >= |consts| { done := Fail(InvalidConstant); }
          else if top == STACK_MAX { return None; }
          else { RawPush(consts[k]); }
        case Dup =>
          if top < 1 { done := Fail(StackUnderflow); }
          else if top == STACK_MAX { return None; }
          else { RawPush(stack[top - 1]); }
        case PushNil => Push(Nil);
        case PushTrue => Push(Bool(true));
        case PushFalse => Push(Bool(false));
        case ObjectNew => Push(Obj([]));
        case GetLocal(slot) =>
          if slot >= top { return None; }
          done := GetLocal(slot);
        case SetLocal(slot) =>
          if top > 0 && slot >= top { return None; }
          done := SetLocal(slot);
        case ConstantLong(_) => done := Refuse(consts, i, 1);
        case GetGlobalLong(_) => done := Refuse(consts, i, 27);
        case SetGlobalLong(_) => done := Refuse(consts, i, 28);
        case Other(op) =>
          if BeyondModel(op) { return None; }
          done := Refuse(consts, i, op);
        case _ => return None;
      }
      ok := Some(done);
    }

    /** An instruction the run loop has no case for. */
    method Refuse(ghost consts: seq<Value>, ghost i: Instr, op: nat) returns (ok: bool)
      requires Valid() && !IsControl(i) && Straight(fp, consts, i, Contents()) == Stop(UnsupportedOpcode(op))
      modifies this
      ensures Valid() && Did(consts, i, ok)
    {
      ok := Fail(UnsupportedOpcode(op));
    }

    method Operator(op: BinOp) returns (ok: bool)
      requires Valid()
      modifies this, stack
      ensures Valid() && Did([], Binary(op), ok)
    {
      hide ApplyBinary;
      if op.Add? {
        ok := Add();
      } else if op.Eq? || op.Neq? {
        ok := Equality(op);
      } else if op.And? || op.Or? {
        ok := Logic(op);
      } else {
        ok := Numeric(op);
      }
    }

    /** Globals, calls, stale cells, and raw pushes on a full stack are not modelled. */
    ghost predicate Leaves(consts: seq<Value>, i: Instr, st: seq<Value>)
      requires !IsControl(i)
    {
      var e := Straight(fp, consts, i, st);
      e.Away? || (e.Next? && |e.stack| > STACK_MAX && (i.Constant? || i.Dup?))
    }
  }

  predicate Computes(i: Instr) {
    i.Binary? || i.Unary? || i.ToString? || i.Array? || i.ArrayGet? || i.ObjectGet? || i.ObjectSet?
  }

  /** What only computes on the stack does not look at the constants and stays in the model. */
  lemma OnStackOnly(fp: Arith, consts: seq<Value>, i: Instr, st: seq<Value>)
    requires Computes(i)
    ensures Straight(fp, consts, i, st) == Straight(fp, [], i, st) && !Straight(fp, consts, i, st).Away?
  {
    hide ApplyBinary, ApplyUnary, Index, GetProperty, SetProperty, ToText;
  }

  /** The stack an avatar starts with: arguments, then nil in the other local slots. */
  method SetUp(fp: Arith, prog: Program, args: seq<Value>) returns (ctx: ExecContext, ok: bool)
    ensures fresh(ctx) && fresh(ctx.stack) && ctx.fp == fp && ctx.Valid() && ctx.error == None
    ensures ok <==> |args| <= 2048 && prog.localCount <= 2048
    ensures ok ==> ctx.Contents() == Frame(prog.localCount, args)
  {
    hide Frame;
    ctx := new ExecContext(fp);
    ok := true;
    var i := 0;
    while i < |args|
      invariant i <= |args| && ctx.Valid() && ctx.top == i && ctx.Contents() == args[..i] && ctx.error == None
    {
      if ctx.top >= STACK_MAX { return ctx, false; }
      ctx.RawPush(args[i]);
      i := i + 1;
    }
    while i < prog.localCount
      invariant |args| <= i && (i <= prog.localCount || i == |args|) && ctx.Valid() && ctx.top == i && ctx.error == None
      invariant forall j :: 0 <= j < i ==> ctx.stack[j] == if j < |args| then args[j] else Nil
    {
      if ctx.top >= STACK_MAX { return ctx, false; }
      ctx.RawPush(Nil);
      i := i + 1;
    }
    assert ctx.Contents() == Frame(prog.localCount, args);
  }

  /** The guarded POP: the stack never shrinks below the locals. */
  method GuardedPop(ctx: ExecContext, localCount: nat)
    requires ctx.Valid()
    modifies ctx
    ensures ctx.Valid() && ctx.error == old(ctx.error)
    ensures var st := old(ctx.Contents());
            ctx.Contents() == if |st| <= localCount then st else Drop(st, 1)
  {
    if ctx.top <= localCount { return; }
    if ctx.top > 0 { ctx.top := ctx.top - 1; }
  }

  /** One instruction at `ip`; `o` is the outcome if the run ends there. */
  method Step(ctx: ExecContext, prog: Program, i: Instr, next: int, ghost count: nat)
    returns (o: Option<Outcome>, ip: int)
    requires ctx.Valid()
    modifies ctx, ctx.stack
    ensures ctx.Valid()
    ensures var before := Active(next - Width(i), old(ctx.Contents()), old(ctx.error), count);
            AvatarExec(ctx.fp, prog, i, next, before)
              == if o.Some? then Ended(o.value) else Active(ip, ctx.Contents(), ctx.error, count + 1)
  {
    hide Straight, BranchFalsy;
    o, ip := None, next;
    match i {
      case Pop => GuardedPop(ctx, prog.localCount);
      case Return =>
        var v := ctx.Pop();
        o := Some(if ctx.error.Some? then Error(ctx.error.value) else Result(v));
      case Jump(off) => ip := next + off;
      case Loop(off) => ip := next - off;
      case JumpIfFalse(off) =>
        if ctx.top < 1 {
          ctx.error := Some(StackUnderflow);
          o := Some(Error(StackUnderflow));
        } else if BranchFalsy(ctx.fp, ctx.stack[ctx.top - 1]) {
          ip := next + off;
          ctx.top := ctx.top - 1;
        }
      case _ => o := StepStraight(ctx, prog, i, next, count);
    }
  }

  method StepStraight(ctx: ExecContext, prog: Program, i: Instr, ghost next: int, ghost count: nat)
    returns (o: Option<Outcome>)
    requires ctx.Valid() && !IsControl(i)
    modifies ctx, ctx.stack
    ensures ctx.Valid()
    ensures var before := Active(next - Width(i), old(ctx.Contents()), old(ctx.error), count);
            AvatarExec(ctx.fp, prog, i, next, before)
              == if o.Some? then Ended(o.value) else Active(next, ctx.Contents(), ctx.error, count + 1)
  {
    hide Straight, Width;
    SetLocalSize(ctx.fp, prog.consts, i, ctx.Contents());
    var ok := ctx.Execute(prog.consts, i);
    if ok.None? { return Some(Left); }
    if !ok.value { return Some(Error(ctx.error.value)); }
    if (i.GetLocal? || i.SetLocal?) && ctx.error.Some? { return Some(Error(ctx.error.value)); }
    o := None;
  }

  lemma SetLocalSize(fp: Arith, consts: seq<Value>, i: Instr, st: seq<Value>)
    requires !IsControl(i)
    ensures var e := Straight(fp, consts, i, st);
            i.SetLocal? && e.Next? ==> |e.stack| == |st|
  {
  }

  /** The body of an avatar task.  The instruction limit makes it terminate. */
  method RunAvatar(fp: Arith, prog: Program, args: seq<Value>) returns (o: Outcome)
    ensures o == AvatarRun(fp, prog, AvatarStart(prog, args))
  {
    hide Decode, AvatarExec, Frame;
    var ctx, ok := SetUp(fp, prog, args);
    if !ok { return Error(StackOverflow); }
    var ip: int, count := 0, 0;
    while true
      invariant count <= MAX_INSTRUCTIONS && ctx.Valid() && fresh(ctx) && fresh(ctx.stack) && ctx.fp == fp
      invariant AvatarRun(fp, prog, AvatarStart(prog, args))
        == AvatarRun(fp, prog, Active(ip, ctx.Contents(), ctx.error, count))
      decreases MAX_INSTRUCTIONS - count
    {
      if ip < 0 || ip >= |prog.code| { return Error(BadInstructionPointer); }
      if count + 1 > MAX_INSTRUCTIONS { return Error(InstructionLimit); }
      var i := Decode(prog.code, ip);
      if i.None? { return Left; }
      var next := ip + Width(i.value);
      var outcome;
      outcome, ip := Step(ctx, prog, i.value, next, count);
      if outcome.Some? { return outcome.value; }
      count := count + 1;
    }
  }
}
