/** Runs of the plain machine and code standing in its place. */
module Runs {
  import opened Wrappers
  import opened Values
  import opened Bytecode
  import opened CodeGen
  import opened Machine

  // ----- runs -----

  /** Some run of at least `least` steps leads from `s` to `t`. */
  ghost predicate Reaches(fp: Arith, prog: Program, s: State, t: State, least: nat) {
    exists n: nat :: n >= least && PlainRun(fp, prog, s, n) == t
  }

  /** Still running after `n` steps. */
  predicate Alive(fp: Arith, prog: Program, s: State, n: nat) {
    PlainRun(fp, prog, s, n).Running?
  }

  lemma ReachesNow(fp: Arith, prog: Program, s: State)
    ensures Reaches(fp, prog, s, s, 0)
  {
    assert PlainRun(fp, prog, s, 0) == s;
  }

  lemma ReachesStep(fp: Arith, prog: Program, s: State, t: State)
    requires PlainStep(fp, prog, s) == t
    ensures Reaches(fp, prog, s, t, 1)
  {
    assert PlainRun(fp, prog, PlainStep(fp, prog, s), 0) == t;
    assert PlainRun(fp, prog, s, 1) == t;
  }

  lemma ReachesTrans(fp: Arith, prog: Program, s: State, t: State, u: State, m: nat, n: nat)
    requires Reaches(fp, prog, s, t, m) && Reaches(fp, prog, t, u, n)
    ensures Reaches(fp, prog, s, u, m + n)
  {
    var i: nat :| i >= m && PlainRun(fp, prog, s, i) == t;
    var j: nat :| j >= n && PlainRun(fp, prog, t, j) == u;
    PlainRunAdd(fp, prog, s, i, j);
    assert PlainRun(fp, prog, s, i + j) == u;
  }

  lemma ReachesWeaken(fp: Arith, prog: Program, s: State, t: State, m: nat)
    requires Reaches(fp, prog, s, t, m)
    ensures Reaches(fp, prog, s, t, 0)
  {
  }

  lemma ReachesAlive(fp: Arith, prog: Program, s: State, t: State, m: nat, n: nat)
    requires Reaches(fp, prog, s, t, m) && Alive(fp, prog, t, n)
    ensures Alive(fp, prog, s, m + n)
  {
    var i: nat :| i >= m && PlainRun(fp, prog, s, i) == t;
    PlainRunAdd(fp, prog, s, i, n);
    PlainRunPrefix(fp, prog, s, m + n, i + n);
  }

  // ----- code in its place -----

  /** The code of `f` stands at `p`, and its constants at `k`. */
  predicate Has(prog: Program, p: nat, k: nat, f: Frag) {
    && p + |f.code| <= |prog.code| && prog.code[p..p + |f.code|] == f.code
    && k + |f.consts| <= |prog.consts| && prog.consts[k..k + |f.consts|] == f.consts
  }

  lemma HasCat(prog: Program, p: nat, k: nat, a: Frag, c: Frag)
    requires Has(prog, p, k, Cat(a, c))
    ensures Has(prog, p, k, a) && Has(prog, p + |a.code|, k + |a.consts|, c)
  {
    var f := Cat(a, c);
    assert prog.code[p..p + |f.code|][..|a.code|] == a.code;
    assert prog.code[p..p + |f.code|][|a.code|..] == c.code;
    assert prog.consts[k..k + |f.consts|][..|a.consts|] == a.consts;
    assert prog.consts[k..k + |f.consts|][|a.consts|..] == c.consts;
  }

  lemma HasThree(prog: Program, p: nat, k: nat, a: Frag, b: Frag, c: Frag)
    requires Has(prog, p, k, Cat(a, Cat(b, c)))
    ensures Has(prog, p, k, a) && Has(prog, p + |a.code|, k + |a.consts|, b)
    ensures Has(prog, p + |a.code| + |b.code|, k + |a.consts| + |b.consts|, c)
  {
    hide *;
    HasCat(prog, p, k, a, Cat(b, c));
    HasCat(prog, p + |a.code|, k + |a.consts|, b, c);
  }

  lemma HasFive(prog: Program, p: nat, k: nat, a: Frag, b: Frag, c: Frag, d: Frag, e: Frag)
    requires Has(prog, p, k, Cat(a, Cat(b, Cat(c, Cat(d, e)))))
    ensures var p1, k1 := p + |a.code| + |b.code|, k + |a.consts| + |b.consts|;
            && Has(prog, p, k, a) && Has(prog, p + |a.code|, k + |a.consts|, b) && Has(prog, p1, k1, c)
            && Has(prog, p1 + |c.code|, k1 + |c.consts|, d)
            && Has(prog, p1 + |c.code| + |d.code|, k1 + |c.consts| + |d.consts|, e)
  {
    hide *;
    HasThree(prog, p, k, a, b, Cat(c, Cat(d, e)));
    HasThree(prog, p + |a.code| + |b.code|, k + |a.consts| + |b.consts|, c, d, e);
  }

  lemma StepAt(fp: Arith, prog: Program, p: nat, k: nat, i: Instr, h: nat, stack: seq<Value>)
    requires Has(prog, p, k, One(i, h)) && Encodable(i)
    ensures PlainStep(fp, prog, Running(p, stack)) == PlainExec(fp, prog, i, p + Width(i), stack)
  {
    hide Encode, Decode, PlainExec;
    DecodeEncode(prog.code, p, i);
  }

  /** The instruction at `p` takes the machine to `t` in one step. */
  lemma ControlStep(fp: Arith, prog: Program, p: nat, k: nat, i: Instr, h: nat, stack: seq<Value>, t: State)
    requires Has(prog, p, k, One(i, h)) && IsControl(i)
    requires PlainExec(fp, prog, i, p + Width(i), stack) == t
    ensures Reaches(fp, prog, Running(p, stack), t, 1)
  {
    hide Encode, Decode, PlainStep, PlainExec, Width;
    StepAt(fp, prog, p, k, i, h, stack);
    ReachesStep(fp, prog, Running(p, stack), t);
  }

  lemma PopStep(fp: Arith, prog: Program, p: nat, k: nat, h: nat, stack: seq<Value>, v: Value)
    requires Has(prog, p, k, One(Pop, h))
    ensures Reaches(fp, prog, Running(p, stack + [v]), Running(p + 1, stack), 1)
  {
    hide Encode, One;
    assert Drop(stack + [v], 1) == stack;
    ControlStep(fp, prog, p, k, Pop, h, stack + [v], Running(p + 1, stack));
  }

  lemma StraightStep(fp: Arith, prog: Program, p: nat, k: nat, i: Instr, h: nat, stack: seq<Value>)
    requires Has(prog, p, k, One(i, h)) && Encodable(i) && !IsControl(i)
    ensures var e := Straight(fp, prog.consts, i, stack);
            && (e.Next? ==> Reaches(fp, prog, Running(p, stack), Running(p + Width(i), e.stack), 0))
            && (e.Stop? ==> Reaches(fp, prog, Running(p, stack), Halted(e.fault), 0))
  {
    hide Straight, Encode, Decode, PlainStep, Width;
    StepAt(fp, prog, p, k, i, h, stack);
    ReachesStep(fp, prog, Running(p, stack), PlainExec(fp, prog, i, p + Width(i), stack));
  }

  lemma PushStep(fp: Arith, prog: Program, p: nat, k: nat, v: Value, h: nat, stack: seq<Value>)
    requires Has(prog, p, k, Push(v, k, h)) && |prog.consts| <= 0x100
    ensures Reaches(fp, prog, Running(p, stack), Running(p + |Push(v, k, h).code|, stack + [v]), 0)
  {
    hide Encode, Decode, PlainStep, One;
    HasCat(prog, p, k, One(PushInstr(k), h), Frag([], [], [v]));
    assert prog.consts[k..k + 1][0] == v;
    StraightStep(fp, prog, p, k, Constant(k), h, stack);
  }
}
