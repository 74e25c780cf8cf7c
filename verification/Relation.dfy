/** Scopes and slots: when the cells of a frame represent a scope chain.

    `bases` gives, for every scope, the number of locals that precede it. */
module Relation {
  import opened Wrappers
  import opened Values
  import opened Source
  import opened CodeGen

  /** The scope holds exactly `names`; the last cell of a name holds its value. */
  ghost predicate ScopeRel(m: Scope, names: seq<string>, cells: seq<Value>)
    requires |names| == |cells|
  {
    && (forall x :: x in m <==> Resolve(names, x) >= 0)
    && (forall x :: x in m && m[x].Some? ==> cells[Resolve(names, x)] == m[x].value)
  }

  ghost predicate Rel(env: Env, bases: seq<nat>, L: seq<string>, stack: seq<Value>) {
    && |env| == |bases|
    && |L| <= |stack|
    && if env == [] then L == []
       else
         var n := |env| - 1;
         && bases[n] <= |L|
         && ScopeRel(env[n], L[bases[n]..], stack[bases[n]..|L|])
         && Rel(env[..n], bases[..n], L[..bases[n]], stack)
  }

  lemma RelSize(env: Env, bases: seq<nat>, L: seq<string>, stack: seq<Value>)
    requires Rel(env, bases, L, stack)
    ensures |L| <= |stack| && |env| == |bases|
  {
  }

  lemma {:induction false} ResolveCat(a: seq<string>, b: seq<string>, x: string)
    ensures Resolve(a + b, x) == if Resolve(b, x) >= 0 then |a| + Resolve(b, x) else Resolve(a, x)
    decreases |b|
  {
    if b == [] {
      assert a + b == a;
    } else {
      var m := |b| - 1;
      assert (a + b)[..|a + b| - 1] == a + b[..m];
      ResolveCat(a, b[..m], x);
    }
  }

  lemma ResolveSplit(L: seq<string>, n: nat, x: string)
    requires n <= |L|
    ensures Resolve(L, x) == if Resolve(L[n..], x) >= 0 then n + Resolve(L[n..], x) else Resolve(L[..n], x)
  {
    assert L[..n] + L[n..] == L;
    ResolveCat(L[..n], L[n..], x);
  }

  /** Only the cells of the locals matter. */
  lemma {:induction false} RelFrame(env: Env, bases: seq<nat>, L: seq<string>, stack: seq<Value>, stack': seq<Value>)
    requires Rel(env, bases, L, stack)
    requires |L| <= |stack'| && stack'[..|L|] == stack[..|L|]
    ensures Rel(env, bases, L, stack')
    decreases |env|
  {
    if env != [] {
      var n := |env| - 1;
      var m := bases[n];
      assert stack'[..m] == stack'[..|L|][..m] == stack[..|L|][..m] == stack[..m];
      assert stack'[m..|L|] == stack'[..|L|][m..] == stack[..|L|][m..] == stack[m..|L|];
      RelFrame(env[..n], bases[..n], L[..m], stack, stack');
    }
  }

  /** The slot the compiler picks holds the value of the innermost declaration. */
  lemma {:induction false} RelLookup(env: Env, bases: seq<nat>, L: seq<string>, stack: seq<Value>, x: string)
    requires Rel(env, bases, L, stack)
    ensures Lookup(env, x).Some? <==> Resolve(L, x) >= 0
    ensures var d := Lookup(env, x);
            d.Some? && d.value.Some? ==> stack[Resolve(L, x)] == d.value.value
    decreases |env|
  {
    if env != [] {
      var n := |env| - 1;
      ResolveSplit(L, bases[n], x);
      RelLookup(env[..n], bases[..n], L[..bases[n]], stack, x);
    }
  }

  /** Writing that slot assigns the innermost declaration and nothing else. */
  lemma {:induction false} RelUpdate(env: Env, bases: seq<nat>, L: seq<string>, stack: seq<Value>, x: string, v: Value)
    requires Rel(env, bases, L, stack) && Resolve(L, x) >= 0
    ensures Rel(Update(env, x, v), bases, L, stack[Resolve(L, x) := v])
    decreases |env|
  {
    var n := |env| - 1;
    var m := bases[n];
    var s := Resolve(L, x);
    var stack' := stack[s := v];
    var names := L[m..];
    ResolveSplit(L, m, x);
    if x in env[n] {
      assert stack'[..m] == stack[..m];
      RelFrame(env[..n], bases[..n], L[..m], stack, stack');
      UpdateScope(env[n], names, stack[m..|L|], x, v);
      assert stack'[m..|L|] == stack[m..|L|][s - m := v];
      assert Update(env, x, v) == env[..n] + [env[n][x := Some(v)]];
      assert Update(env, x, v)[..n] == env[..n];
    } else {
      RelUpdate(env[..n], bases[..n], L[..m], stack, x, v);
      assert stack'[m..|L|] == stack[m..|L|];
      assert Update(env, x, v)[..n] == Update(env[..n], x, v);
    }
  }

  lemma UpdateScope(m: Scope, names: seq<string>, cells: seq<Value>, x: string, v: Value)
    requires |names| == |cells| && ScopeRel(m, names, cells) && x in m
    ensures ScopeRel(m[x := Some(v)], names, cells[Resolve(names, x) := v])
  {
    var m', cells' := m[x := Some(v)], cells[Resolve(names, x) := v];
    forall y | y in m' && m'[y].Some?
      ensures cells'[Resolve(names, y)] == m'[y].value
    {
      if y != x {
        assert names[Resolve(names, y)] == y;
        assert names[Resolve(names, x)] == x;
      }
    }
  }

  /** A declared name takes the next slot, whatever stale value that slot holds. */
  lemma {:induction false} RelDeclare(env: Env, bases: seq<nat>, L: seq<string>, stack: seq<Value>, names: seq<string>)
    requires env != [] && Rel(env, bases, L, stack) && |L| + |names| <= |stack|
    ensures Rel(Declare(env, names), bases, L + names, stack)
    decreases |names|
  {
    if names == [] {
      assert L + names == L;
    } else {
      var n := |env| - 1;
      var env' := env[..n] + [env[n][names[0] := None]];
      var L' := L + [names[0]];
      RelDeclareOne(env, bases, L, stack, names[0]);
      RelDeclare(env', bases, L', stack, names[1..]);
      assert L' + names[1..] == L + names;
    }
  }

  lemma RelDeclareOne(env: Env, bases: seq<nat>, L: seq<string>, stack: seq<Value>, x: string)
    requires env != [] && Rel(env, bases, L, stack) && |L| < |stack|
    ensures var n := |env| - 1;
            Rel(env[..n] + [env[n][x := None]], bases, L + [x], stack)
  {
    hide Resolve, ScopeRel;
    var n := |env| - 1;
    var m := bases[n];
    var env', L' := env[..n] + [env[n][x := None]], L + [x];
    assert L'[m..] == L[m..] + [x];
    assert stack[m..|L'|] == stack[m..|L|] + [stack[|L|]];
    assert L'[..m] == L[..m];
    assert env'[..n] == env[..n];
    DeclareScope(env[n], L[m..], stack[m..|L|], x, stack[|L|]);
  }

  lemma DeclareScope(m: Scope, names: seq<string>, cells: seq<Value>, x: string, stale: Value)
    requires |names| == |cells| && ScopeRel(m, names, cells)
    ensures ScopeRel(m[x := None], names + [x], cells + [stale])
  {
    forall y
      ensures Resolve(names + [x], y) == if y == x then |names| else Resolve(names, y)
    {
      ResolveCat(names, [x], y);
    }
  }

  lemma RelEnter(env: Env, bases: seq<nat>, L: seq<string>, stack: seq<Value>)
    requires Rel(env, bases, L, stack)
    ensures Rel(Enter(env), bases + [|L|], L, stack)
  {
    var env', bases' := Enter(env), bases + [|L|];
    var n := |env|;
    assert env'[..n] == env && bases'[..n] == bases;
    assert L[..|L|] == L && L[|L|..] == [];
  }

  /** After a scope its slots are free again; the outer variables are untouched. */
  lemma RelLeave(env: Env, bases: seq<nat>, L: seq<string>, stack: seq<Value>)
    requires env != [] && Rel(env, bases, L, stack)
    ensures Rel(Leave(env), bases[..|bases| - 1], L[..bases[|bases| - 1]], stack)
  {
  }

  /** Parameters are the first slots of the frame. */
  lemma {:induction false} RelBind(params: seq<string>, args: seq<Value>, stack: seq<Value>)
    requires |params| <= |stack|
    requires forall i :: 0 <= i < |params| ==> stack[i] == if i < |args| then args[i] else Nil
    ensures Rel(Bind(params, args), [0], params, stack)
    decreases |params|
  {
    if params == [] {
      var env: Env := [map[]];
      assert env[..0] == [] && params[0..] == [] && params[..0] == [];
      assert Rel(env[..0], [0][..0], params[..0], stack);
    } else {
      var n := |params| - 1;
      var x, v := params[n], if n < |args| then args[n] else Nil;
      RelBind(params[..n], args, stack);
      RelDeclare(Bind(params[..n], args), [0], params[..n], stack, [x]);
      assert params[..n] + [x] == params;
      RelUpdate(Declare(Bind(params[..n], args), [x]), [0], params, stack, x, v);
      assert stack[n := v] == stack;
    }
  }
}
