/** A bytecode discipline: the marks of a fragment agree with its instructions.

    `Typed` says that at every instruction the operand stack is high enough, that
    every successor carries the height the instruction leaves, that jumps land on
    instructions inside the code, and that slots, constants and heights respect the
    bounds. */
module Typing {
  import opened Wrappers
  import opened Values
  import opened Bytecode
  import opened Source
  import opened CodeGen

  /** How many cases a switch may have: any number when jumps only peek; one or none when a
      taken jump pops. */
  datatype CaseLimit = Any | Single | NoCase

  datatype Bounds = Bounds(locals: nat, consts: nat, height: nat, limit: CaseLimit)

  function Pops(i: Instr): nat {
    match i
    case Dup => 1
    case Binary(_) => 2
    case Unary(_) => 1
    case ToString => 1
    case SetLocal(_) => 1
    case SetGlobal(_) => 1
    case Array(n) => n
    case ArrayGet => 2
    case ObjectGet => 2
    case ObjectSet => 3
    case _ => 0
  }

  function Pushes(i: Instr): nat {
    if i.Dup? then 2 else 1
  }

  predicate InBounds(b: Bounds, i: Instr) {
    match i
    case Constant(k) => k < b.consts
    case GetLocal(s) => s < b.locals
    case SetLocal(s) => s < b.locals
    case ConstantLong(_) => false
    case GetGlobalLong(_) => false
    case SetGlobalLong(_) => false
    case Other(_) => false
    case _ => true
  }

  /** Position `t` is an instruction that runs at height `h` (or the end). */
  predicate Lands(marks: seq<int>, t: int, h: int) {
    0 <= t < |marks| && marks[t] == h
  }

  /** A conditional jump at height `h` to `t` can stand an early pop: it runs at height 1, or at
      height 2 and two POPs follow. */
  predicate JumpAllowed(limit: CaseLimit, code: seq<byte>, t: nat, h: nat) {
    || limit.Any? || h == 1
    || (limit.Single? && h == 2 && t + 1 < |code| && code[t + 1] == Opcode(Pop))
  }

  predicate InstrOk(b: Bounds, i: Instr, code: seq<byte>, marks: seq<int>, next: nat, h: nat)
    requires |marks| == |code| + 1
  {
    if i.Pop? then h >= 1 && Lands(marks, next, h - 1)
    else if i.Return? then h >= 1
    else if i.Jump? then Lands(marks, next + i.off, h)
    else if i.Loop? then Lands(marks, next - i.off, h)
    else if i.JumpIfFalse? then
      && h >= 1
      && Lands(marks, next, h)
      && Lands(marks, next + i.off, h)
      && next + i.off < |code| && code[next + i.off] == Opcode(Pop)
      && JumpAllowed(b.limit, code, next + i.off, h)
    else InBounds(b, i) && Pops(i) <= h && Lands(marks, next, h - Pops(i) + Pushes(i))
  }

  predicate OkAt(b: Bounds, code: seq<byte>, marks: seq<int>, p: nat)
    requires |marks| == |code| + 1 && p < |code|
  {
    marks[p] >= 0 ==>
      var d := Decode(code, p);
      d.Some? && marks[p] <= b.height && InstrOk(b, d.value, code, marks, p + Width(d.value), marks[p])
  }

  /** Every instruction of `f` is fine when `end` is the height after its last byte. */
  predicate Typed(b: Bounds, f: Frag, end: int) {
    forall p :: 0 <= p < |f.code| ==> OkAt(b, f.code, f.marks + [end], p)
  }

  function Head(f: Frag, end: int): int {
    (f.marks + [end])[0]
  }

  /** Typed code that takes the operand stack from height `h0` to height `h1`. */
  predicate Spans(b: Bounds, f: Frag, h0: int, h1: int) {
    Typed(b, f, h1) && Head(f, h1) == h0
  }

  // ----- fragments inside fragments -----

  predicate Occurs(f: Frag, t: Frag, off: nat) {
    && off + |f.code| <= |t.code|
    && t.code[off..off + |f.code|] == f.code
    && t.marks[off..off + |f.code|] == f.marks
  }

  lemma CatOccurs(a: Frag, c: Frag)
    ensures Occurs(a, Cat(a, c), 0) && Occurs(c, Cat(a, c), |a.code|)
  {
  }

  lemma OccursTrans(f: Frag, g: Frag, t: Frag, i: nat, j: nat)
    requires Occurs(f, g, i) && Occurs(g, t, j)
    ensures Occurs(f, t, i + j)
  {
    assert g.code[i..i + |f.code|] == t.code[j..j + |g.code|][i..i + |f.code|] == t.code[i + j..i + j + |f.code|];
    assert g.marks[i..i + |f.code|] == t.marks[j..j + |g.code|][i..i + |f.code|] == t.marks[i + j..i + j + |f.code|];
  }

  lemma OccursAt(f: Frag, t: Frag, off: nat, q: nat)
    requires Occurs(f, t, off) && q < |f.code|
    ensures t.code[off + q] == f.code[q] && t.marks[off + q] == f.marks[q]
  {
    assert t.code[off..off + |f.code|][q] == f.code[q];
    assert t.marks[off..off + |f.code|][q] == f.marks[q];
  }

  lemma OccursMark(f: Frag, mid: int, t: Frag, end: int, off: nat, q: int, h: int)
    requires Occurs(f, t, off) && (t.marks + [end])[off + |f.code|] == mid
    requires Lands(f.marks + [mid], q, h)
    ensures Lands(t.marks + [end], off + q, h)
  {
    if q < |f.code| { OccursAt(f, t, off, q); }
  }

  lemma InstrOkInPart(b: Bounds, i: Instr, f: Frag, mid: int, t: Frag, end: int, off: nat, next: nat, h: nat)
    requires Occurs(f, t, off) && (t.marks + [end])[off + |f.code|] == mid
    requires InstrOk(b, i, f.code, f.marks + [mid], next, h)
    ensures InstrOk(b, i, t.code, t.marks + [end], off + next, h)
  {
    if i.Pop? {
      OccursMark(f, mid, t, end, off, next, h - 1);
    } else if i.Jump? {
      OccursMark(f, mid, t, end, off, next + i.off, h);
    } else if i.Loop? {
      OccursMark(f, mid, t, end, off, next - i.off, h);
    } else if i.JumpIfFalse? {
      OccursMark(f, mid, t, end, off, next, h);
      OccursMark(f, mid, t, end, off, next + i.off, h);
      OccursAt(f, t, off, next + i.off);
      if next + i.off + 1 < |f.code| { OccursAt(f, t, off, next + i.off + 1); }
    } else if !i.Return? {
      OccursMark(f, mid, t, end, off, next, h - Pops(i) + Pushes(i));
    }
  }

  /** A position that is fine in a part is fine in the whole. */
  lemma PartOkAt(b: Bounds, f: Frag, mid: int, t: Frag, end: int, off: nat, p: nat)
    requires p < |f.code| && OkAt(b, f.code, f.marks + [mid], p)
    requires Occurs(f, t, off) && (t.marks + [end])[off + |f.code|] == mid
    ensures OkAt(b, t.code, t.marks + [end], off + p)
  {
    hide Decode, InstrOk, Width;
    OccursAt(f, t, off, p);
    if f.marks[p] >= 0 {
      DecodeInPart(f, t, off, p);
      var i := Decode(f.code, p).value;
      InstrOkInPart(b, i, f, mid, t, end, off, p + Width(i), f.marks[p]);
    }
  }

  lemma DecodeInPart(f: Frag, t: Frag, off: nat, p: nat)
    requires Occurs(f, t, off) && p < |f.code| && Decode(f.code, p).Some?
    ensures Decode(t.code, off + p) == Decode(f.code, p)
  {
    var i := Decode(f.code, p).value;
    forall q | 0 <= q < |f.code|
      ensures t.code[off + q] == f.code[q]
    {
      OccursAt(f, t, off, q);
    }
    assert off + p + Width(i) <= |t.code|;
  }

  /** Positions `lo` to `hi` of `t` are fine. */
  predicate RangeOk(b: Bounds, t: Frag, end: int, lo: nat, hi: nat)
    requires hi <= |t.code|
  {
    forall p :: lo <= p < hi ==> OkAt(b, t.code, t.marks + [end], p)
  }

  lemma PartTyped(b: Bounds, f: Frag, mid: int, t: Frag, end: int, off: nat)
    requires Typed(b, f, mid) && Occurs(f, t, off) && Lands(t.marks + [end], off + |f.code|, mid)
    ensures RangeOk(b, t, end, off, off + |f.code|)
  {
    hide Occurs, OkAt;
    forall p | off <= p < off + |f.code|
      ensures OkAt(b, t.code, t.marks + [end], p)
    {
      PartOkAt(b, f, mid, t, end, off, p - off);
    }
  }

  lemma SpansCat(b: Bounds, a: Frag, c: Frag, h0: int, h1: int, h2: int)
    requires Spans(b, a, h0, h1) && Spans(b, c, h1, h2)
    ensures Spans(b, Cat(a, c), h0, h2)
  {
    var t := Cat(a, c);
    CatOccurs(a, c);
    PartTyped(b, a, h1, t, h2, 0);
    PartTyped(b, c, h2, t, h2, |a.code|);
  }

  lemma SpansThree(b: Bounds, x: Frag, y: Frag, z: Frag, h0: int, h1: int, h2: int, h3: int)
    requires Spans(b, x, h0, h1) && Spans(b, y, h1, h2) && Spans(b, z, h2, h3)
    ensures Spans(b, Cat(x, Cat(y, z)), h0, h3)
  {
    hide *;
    SpansCat(b, y, z, h1, h2, h3);
    SpansCat(b, x, Cat(y, z), h0, h1, h3);
  }

  lemma SpansEmpty(b: Bounds, h: int)
    ensures Spans(b, Empty, h, h)
  {
  }

  /** Adding constants changes neither code nor marks. */
  lemma SpansConsts(b: Bounds, f: Frag, cs: seq<Value>, h0: int, h1: int)
    requires Spans(b, f, h0, h1)
    ensures Spans(b, Cat(f, Frag([], [], cs)), h0, h1)
  {
    var g := Cat(f, Frag([], [], cs));
    assert g.code == f.code && g.marks == f.marks;
  }

  lemma SpansOne(b: Bounds, i: Instr, h: nat, end: int)
    requires h <= b.height
    requires !i.Jump? && !i.Loop? && !i.JumpIfFalse?
    requires i.Pop? ==> h >= 1 && end == h - 1
    requires i.Return? ==> h >= 1
    requires !i.Pop? && !i.Return? ==> InBounds(b, i) && Pops(i) <= h && end == h - Pops(i) + Pushes(i)
    ensures Spans(b, One(i, h), h, end)
  {
    var f := One(i, h);
    DecodeEncode(f.code, 0, i);
    forall p | 0 <= p < |f.code|
      ensures OkAt(b, f.code, f.marks + [end], p)
    {
      assert p == 0 || f.marks[p] == -1;
    }
  }
}
