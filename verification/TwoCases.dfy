/** Why a switch of an avatar may have one case only. */
module TwoCases {
  import opened Wrappers
  import opened Values
  import opened Bytecode
  import opened Source
  import opened CodeGen
  import opened Machine
  import opened Lockstep
  import opened Correctness

  /** `switch (nil) { case true: {} case nil: {} }` */
  const SWITCH: Stmt := Switch(Lit(Nil), [Case(Lit(Bool(true)), Block([])), Case(Lit(Nil), Block([]))], None)
  const BODY: Function := Function([], [SWITCH])

  /** In the source the second case matches, and the function falls off its end. */
  lemma SourceReturns(fp: Arith, fuel: nat)
    ensures Call(fp, BODY, [], fuel) == Returned(Nil)
  {
    var env: Env := [map[]];
    EmptyBlock(fp, env, fuel);
    assert ExecCases(fp, Nil, SWITCH, 1, env, fuel).Normal?;
    assert ExecCases(fp, Nil, SWITCH, 0, env, fuel).Normal?;
    assert Exec(fp, SWITCH, env, fuel).Normal?;
    assert [SWITCH][1..] == [];
    assert ExecAll(fp, [SWITCH], env, fuel).Normal?;
  }

  lemma EmptyBlock(fp: Arith, env: Env, fuel: nat)
    requires env != []
    ensures Exec(fp, Block([]), env, fuel) == Normal(env)
    ensures Declared(Block([])) == [] && Declare(env, []) == env
  {
    assert Leave(Enter(env)) == env;
  }

  function Rest(fp: Arith): Frag { GenCases(fp, SWITCH, 1, [], 0) }

  lemma RestStarts(fp: Arith)
    ensures Rest(fp).code != [] && Rest(fp).code[0] == 6
  {
    hide Branch;
    var vv, bb := GenExpr(fp, Lit(Nil), [], 0, 2), GenStmt(fp, Block([]), [], 0);
    assert Rest(fp) == CaseArm(vv, bb, GenCases(fp, SWITCH, 2, [], 0));
    ArmStarts(vv, bb, GenCases(fp, SWITCH, 2, [], 0));
  }

  lemma ArmStarts(vv: Frag, bb: Frag, rest: Frag)
    ensures CaseArm(vv, bb, rest).code != [] && CaseArm(vv, bb, rest).code[0] == 6
  {
    assert One(Dup, 1).code == [6];
  }

  lemma ArmBytes(vv: Frag, bb: Frag, rest: Frag)
    ensures var out, over := JumpIfFalse(Dist(|bb.code| + 5)), Jump(Dist(1 + |rest.code|));
            CaseArm(vv, bb, rest).code
            == ([6] + (vv.code + [14])) + (Encode(out) + (([5] + ([5] + bb.code)) + (Encode(over) + ([5] + rest.code))))
  {
    assert One(Dup, 1).code == [6] && One(Binary(Eq), 3).code == [14] && One(Pop, 1).code == [5]
      && One(Pop, 2).code == [5];
    hide Encode, InstrMarks;
  }

  /** The code of the first case, which misses, and the start of the second. */
  lemma FirstArm(fp: Arith)
    ensures var c := GenCases(fp, SWITCH, 0, [], 0).code;
            |c| > 12 && c[0] == 6 && c[1] == 3 && c[2] == 14 && c[3] == 38 && c[4] == 0 && c[5] == 5 && c[11] == 5
              && c[12] == 6
  {
    hide Rest, GenCases, CaseArm, Encode, InstrMarks, Cat;
    FirstRest(fp);
    RestStarts(fp);
    ArmBytes(One(PushTrue, 2), Empty, Rest(fp));
    Operands();
    Joined(Encode(Jump(Dist(1 + |Rest(fp).code|))), Rest(fp).code);
  }

  lemma Operands()
    ensures Encode(PushTrue) == [3] && Encode(JumpIfFalse(5)) == [38, 0, 5] && Dist(5) == 5
  {
  }

  lemma Joined(over: seq<byte>, rest: seq<byte>)
    requires |over| == 3 && rest != [] && rest[0] == 6
    ensures var c: seq<byte> := ([6] + ([3] + [14])) + ([38, 0, 5] + (([5] + ([5] + [])) + (over + ([5] + rest))));
            |c| > 12 && c[0] == 6 && c[1] == 3 && c[2] == 14 && c[3] == 38 && c[4] == 0 && c[5] == 5 && c[11] == 5
              && c[12] == 6
  {
  }

  lemma FirstRest(fp: Arith)
    ensures GenCases(fp, SWITCH, 0, [], 0) == CaseArm(One(PushTrue, 2), Empty, Rest(fp))
  {
    hide CaseArm;
    assert [] + Declared(Block([])) == [];
  }

  lemma NoLocals()
    ensures PeakAll([SWITCH], 0) == 0
  {
    assert PeakCases(SWITCH, 2, 0) == 0 && PeakCases(SWITCH, 1, 0) == 0 && Peak(SWITCH, 0) == 0;
    assert PeakAll([SWITCH][1..], 0 + |Declared(SWITCH)|) == 0 by { NoNames(); }
  }

  lemma NoNames()
    ensures Declared(SWITCH) == []
  {
    assert DeclaredCases(SWITCH, 2) == [] && DeclaredCases(SWITCH, 1) == [] && DeclaredCases(SWITCH, 0) == [];
  }

  lemma StatementCode(fp: Arith)
    ensures GenStmt(fp, SWITCH, [], 0) == Cat(One(PushNil, 0), GenCases(fp, SWITCH, 0, [], 0))
    ensures GenStmts(fp, [SWITCH], [], 0) == Cat(GenStmt(fp, SWITCH, [], 0), Empty)
  {
    hide GenCases, Cat;
    assert [SWITCH][1..] == [];
  }

  lemma WholeCode(fp: Arith)
    ensures var prog, arm := Compile(fp, BODY), GenCases(fp, SWITCH, 0, [], 0);
            prog.localCount == 0 && prog.code == (([2] + arm.code) + []) + ([2] + [32])
  {
    assert One(PushNil, 0).code == [2] && One(Return, 1).code == [32];
    hide GenCases, GenStmts, GenStmt, PeakAll, One;
    StatementCode(fp);
    NoLocals();
  }

  lemma Bytes(fp: Arith)
    ensures var prog := Compile(fp, BODY);
            var c := prog.code;
            && |c| > 13 && prog.localCount == 0
            && c[0] == 2 && c[1] == 6 && c[2] == 3 && c[3] == 14 && c[4] == 38 && c[5] == 0 && c[6] == 5
            && c[12] == 5 && c[13] == 6
  {
    hide GenCases, Compile;
    FirstArm(fp);
    WholeCode(fp);
  }

  /** The seven instructions the avatar gets to. */
  lemma Instructions(fp: Arith)
    ensures var c := Compile(fp, BODY).code;
            && |c| > 13
            && Decode(c, 0) == Some(PushNil) && Decode(c, 1) == Some(Dup) && Decode(c, 2) == Some(PushTrue)
            && Decode(c, 3) == Some(Binary(Eq)) && Decode(c, 4) == Some(JumpIfFalse(5))
            && Decode(c, 12) == Some(Pop) && Decode(c, 13) == Some(Dup)
  {
    hide Compile;
    Bytes(fp);
  }

  /** One instruction of the avatar. */
  lemma Moves(fp: Arith, prog: Program, s: AvatarState, i: Instr, t: AvatarState)
    requires s.Active? && 0 <= s.ip < |prog.code| && s.count < MAX_INSTRUCTIONS && Decode(prog.code, s.ip) == Some(i)
    requires AvatarExec(fp, prog, i, s.ip + Width(i), s) == t
    ensures AvatarRun(fp, prog, s) == AvatarRun(fp, prog, t)
  {
    hide Decode, AvatarExec, AvatarRun;
    RunFromStep(fp, prog, s);
  }

  lemma RunsToTest(fp: Arith, prog: Program)
    requires |prog.code| > 13 && prog.localCount == 0
    requires var c := prog.code;
             Decode(c, 0) == Some(PushNil) && Decode(c, 1) == Some(Dup) && Decode(c, 2) == Some(PushTrue)
    ensures AvatarRun(fp, prog, AvatarStart(prog, []))
      == AvatarRun(fp, prog, Active(3, [Nil, Nil, Bool(true)], None, 3))
  {
    hide Decode, AvatarRun, ApplyBinary, ApplyUnary, Index, GetProperty, SetProperty, ToText;
    Moves(fp, prog, Active(0, [], None, 0), PushNil, Active(1, [Nil], None, 1));
    Moves(fp, prog, Active(1, [Nil], None, 1), Dup, Active(2, [Nil, Nil], None, 2));
    Moves(fp, prog, Active(2, [Nil, Nil], None, 2), PushTrue, Active(3, [Nil, Nil, Bool(true)], None, 3));
  }

  lemma RunsToMiss(fp: Arith, prog: Program)
    requires |prog.code| > 13 && prog.localCount == 0
    requires Decode(prog.code, 3) == Some(Binary(Eq)) && Decode(prog.code, 4) == Some(JumpIfFalse(5))
    ensures AvatarRun(fp, prog, Active(3, [Nil, Nil, Bool(true)], None, 3))
         == AvatarRun(fp, prog, Active(12, [Nil], None, 5))
  {
    hide Decode, AvatarRun, ApplyUnary, Index, GetProperty, SetProperty, ToText, AddValues, ApplyNumeric;
    assert Drop([Nil, Nil, Bool(true)], 2) == [Nil];
    Moves(fp, prog, Active(3, [Nil, Nil, Bool(true)], None, 3), Binary(Eq), Active(4, [Nil, Bool(false)], None, 4));
    Moves(fp, prog, Active(4, [Nil, Bool(false)], None, 4), JumpIfFalse(5), Active(12, [Nil], None, 5));
  }

  lemma Runs(fp: Arith, prog: Program)
    requires |prog.code| > 13 && prog.localCount == 0
    requires Decode(prog.code, 12) == Some(Pop) && Decode(prog.code, 13) == Some(Dup)
    ensures AvatarRun(fp, prog, Active(12, [Nil], None, 5)) == Error(StackUnderflow)
  {
    hide Decode, AvatarRun;
    Moves(fp, prog, Active(12, [Nil], None, 5), Pop, Active(13, [], None, 6));
    Moves(fp, prog, Active(13, [], None, 6), Dup, Ended(Error(StackUnderflow)));
    EndedRun(fp, prog, Error(StackUnderflow));
  }

  lemma EndedRun(fp: Arith, prog: Program, o: Outcome)
    ensures AvatarRun(fp, prog, Ended(o)) == o
  {
  }

  /** In an avatar the first case takes the scrutinee away when it misses, and the second finds
      nothing to compare: the run ends with an error instead. */
  lemma TwoCasesFail(fp: Arith, fuel: nat)
    ensures var prog := Compile(fp, BODY);
            && Call(fp, BODY, [], fuel) == Returned(Nil)
            && AvatarRun(fp, prog, AvatarStart(prog, [])) == Error(StackUnderflow)
  {
    hide *;
    SourceReturns(fp, fuel);
    Bytes(fp);
    Instructions(fp);
    RunsToTest(fp, Compile(fp, BODY));
    RunsToMiss(fp, Compile(fp, BODY));
    Runs(fp, Compile(fp, BODY));
  }
}
