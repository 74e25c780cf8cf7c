/** The methods the compiler writes for a struct: `fromJSON` builds an instance from a
    plain object, `toYAML` turns an instance into text. */
module StructCode {
  import opened Wrappers
  import opened Values
  import opened Bytecode
  import opened Source
  import opened CodeGen
  import opened Machine
  import opened Chunks
  import opened Compiling
  import opened Runs
  import O = Operators

  /** An instruction appended to a chunk. */
  function Then(c: Contents, i: Instr): Contents {
    Contents(c.bytes + Encode(i), c.pool)
  }

  /** A constant appended to the pool, and the instruction that pushes it. */
  function ThenPush(c: Contents, v: Value): Contents {
    Contents(c.bytes + Encode(PushInstr(|c.pool|)), c.pool + [v])
  }

  const NOTHING := Contents([], [])

  /** The argument; key; OBJECT_GET */
  function ThenField(c: Contents, x: string): Contents {
    Then(ThenPush(Then(c, GetLocal(0)), Str(x)), ObjectGet)
  }

  // ----- fromJSON: the code -----

  /** key; data; key; OBJECT_GET; OBJECT_SET */
  function CopyField(c: Contents, x: string): Contents {
    Then(ThenField(ThenPush(c, Str(x)), x), ObjectSet)
  }

  function CopyFields(c: Contents, names: seq<string>): Contents
    decreases names
  {
    if names == [] then c else CopyFields(CopyField(c, names[0]), names[1..])
  }

  /** OBJECT_NEW; "__type"; struct name; OBJECT_SET */
  function NewInstance(typeName: string): Contents {
    Then(ThenPush(ThenPush(Then(NOTHING, ObjectNew), Str("__type")), Str(typeName)), ObjectSet)
  }

  function FromJsonCode(typeName: string, names: seq<string>): Contents {
    Then(CopyFields(NewInstance(typeName), names), Return)
  }

  // ----- toYAML: the code -----

  /** `name: `, cut to what the 128-byte buffer holds. */
  function Prefix(name: string): string {
    var text := name + ": ";
    if |text| > 127 then text[..127] else text
  }

  /** prefix; this; key; OBJECT_GET; TO_STRING; ADD; newline; ADD */
  function YamlLine(c: Contents, x: string): Contents {
    var value := ThenField(ThenPush(c, Str(Prefix(x))), x);
    Then(ThenPush(Then(Then(value, ToString), Binary(Add)), Str("\n")), Binary(Add))
  }

  /** Every line but the first is appended to the text so far. */
  function YamlRest(c: Contents, names: seq<string>): Contents
    decreases names
  {
    if names == [] then c else YamlRest(Then(YamlLine(c, names[0]), Binary(Add)), names[1..])
  }

  function ToYamlCode(names: seq<string>): Contents {
    Then(if names == [] then NOTHING else YamlRest(YamlLine(NOTHING, names[0]), names[1..]), Return)
  }

  // ----- the generators -----

  /** The number of locals is not recorded for generated methods; it stays 0. */
  function ProgramOf(c: Contents): Program {
    Program(c.bytes, c.pool, 0)
  }

  lemma PlusPush(c: Contents, v: Value, h: nat)
    ensures Plus(c, Push(v, |c.pool|, h)) == ThenPush(c, v)
  {
    PlusNamed(c, PushInstr(|c.pool|), h, v);
  }

  lemma PlusInstr(c: Contents, i: Instr, h: nat)
    ensures Plus(c, One(i, h)) == Then(c, i)
  {
    PlusOne(c, i, h);
  }

  method AppendInstr(compiler: Compiler, i: Instr)
    requires compiler.Valid() && Width(i) <= 2
    modifies compiler.chunk, compiler.chunk.code
    ensures compiler.Valid() && compiler.Grew() && compiler.chunk.contents == Then(old(compiler.chunk.contents), i)
  {
    compiler.EmitInstr(i, 0);
    PlusInstr(old(compiler.chunk.contents), i, 0);
  }

  method AppendConstant(compiler: Compiler, v: Value) returns (ok: Status)
    requires compiler.Valid()
    modifies compiler.chunk, compiler.chunk.code, compiler.chunk.constants
    ensures compiler.Valid() && compiler.Grew()
    ensures ok.Pass? <==> |old(compiler.chunk.contents.pool)| < MAX_CONSTANTS
    ensures ok.Pass? ==> compiler.chunk.contents == ThenPush(old(compiler.chunk.contents), v)
  {
    hide Plus, Push;
    ok := compiler.EmitConstant(v, 0);
    PlusPush(old(compiler.chunk.contents), v, 0);
  }

  method AppendField(compiler: Compiler, x: string) returns (ok: Status)
    requires compiler.Valid()
    modifies compiler.chunk, compiler.chunk.code, compiler.chunk.constants
    ensures compiler.Valid() && compiler.Grew()
    ensures ok.Pass? <==> |old(compiler.chunk.contents.pool)| < MAX_CONSTANTS
    ensures ok.Pass? ==> compiler.chunk.contents == ThenField(old(compiler.chunk.contents), x)
  {
    hide Compiler.Valid, Encode;
    AppendInstr(compiler, GetLocal(0));
    :- AppendConstant(compiler, Str(x));
    AppendInstr(compiler, ObjectGet);
    ok := Pass;
  }

  method AppendCopy(compiler: Compiler, x: string) returns (ok: Status)
    requires compiler.Valid()
    modifies compiler.chunk, compiler.chunk.code, compiler.chunk.constants
    ensures compiler.Valid() && compiler.Grew()
    ensures ok.Pass? <==> |old(compiler.chunk.contents.pool)| + 2 <= MAX_CONSTANTS
    ensures ok.Pass? ==> compiler.chunk.contents == CopyField(old(compiler.chunk.contents), x)
  {
    hide Compiler.Valid, Encode;
    :- AppendConstant(compiler, Str(x));
    :- AppendField(compiler, x);
    AppendInstr(compiler, ObjectSet);
    ok := Pass;
  }

  lemma CopySize(c: Contents, x: string)
    ensures |CopyField(c, x).pool| == |c.pool| + 2
  {
  }

  method StartInstance(compiler: Compiler, typeName: string)
    requires compiler.Valid() && compiler.chunk.contents == NOTHING
    modifies compiler.chunk, compiler.chunk.code, compiler.chunk.constants
    ensures compiler.Valid() && compiler.Grew() && compiler.chunk.contents == NewInstance(typeName)
    ensures |compiler.chunk.contents.pool| == 2
  {
    hide Compiler.Valid, Encode;
    AppendInstr(compiler, ObjectNew);
    var ok := AppendConstant(compiler, Str("__type"));
    ok := AppendConstant(compiler, Str(typeName));
    AppendInstr(compiler, ObjectSet);
  }

  /** `obj[field] = data[field]` for every field. */
  method AppendCopies(compiler: Compiler, names: seq<string>) returns (ok: Status)
    requires compiler.Valid()
    modifies compiler.chunk, compiler.chunk.code, compiler.chunk.constants
    ensures ok.Pass? <==> names == [] || |old(compiler.chunk.contents.pool)| + 2 * |names| <= MAX_CONSTANTS
    ensures compiler.Valid() && compiler.Grew()
    ensures ok.Pass? ==> compiler.chunk.contents == CopyFields(old(compiler.chunk.contents), names)
  {
    hide Compiler.Valid, Encode, CopyField, CopyFields;
    ok := Pass;
    var i := 0;
    assert names[0..] == names;
    while i < |names|
      invariant i <= |names| && compiler.Valid() && compiler.Grew() && ok.Pass?
      invariant |compiler.chunk.contents.pool| == |old(compiler.chunk.contents.pool)| + 2 * i
      invariant i > 0 ==> |compiler.chunk.contents.pool| <= MAX_CONSTANTS
      invariant CopyFields(compiler.chunk.contents, names[i..]) == CopyFields(old(compiler.chunk.contents), names)
    {
      CopyStep(compiler.chunk.contents, names[i..]);
      CopySize(compiler.chunk.contents, names[i]);
      ok := AppendCopy(compiler, names[i]);
      if ok.Fail? { return; }
      assert names[i..][1..] == names[i + 1..];
      i := i + 1;
    }
    CopyStep(compiler.chunk.contents, names[i..]);
  }

  method GenerateFromJson(fp: Arith, typeName: string, names: seq<string>) returns (ok: Status, prog: Program)
    ensures ok.Pass? <==> names == [] || 2 + 2 * |names| <= MAX_CONSTANTS
    ensures ok.Pass? ==> prog == ProgramOf(FromJsonCode(typeName, names))
  {
    hide Compiler.Valid, Encode, CopyFields, NewInstance;
    prog := Program([], [], 0);
    var compiler := new Compiler(fp);
    StartInstance(compiler, typeName);
    ok := AppendCopies(compiler, names);
    if ok.Pass? {
      AppendInstr(compiler, Return);
      prog := Unfinished(compiler);
    }
  }

  lemma CopyStep(c: Contents, names: seq<string>)
    ensures CopyFields(c, names) == if names == [] then c else CopyFields(CopyField(c, names[0]), names[1..])
  {
  }

  method Unfinished(compiler: Compiler) returns (prog: Program)
    requires compiler.Valid()
    ensures prog == ProgramOf(compiler.chunk.contents)
  {
    prog := compiler.Finished();
    prog := prog.(localCount := 0);
  }

  method AppendLine(compiler: Compiler, x: string) returns (ok: Status)
    requires compiler.Valid()
    modifies compiler.chunk, compiler.chunk.code, compiler.chunk.constants
    ensures compiler.Valid() && compiler.Grew()
    ensures ok.Pass? <==> |old(compiler.chunk.contents.pool)| + 3 <= MAX_CONSTANTS
    ensures ok.Pass? ==> compiler.chunk.contents == YamlLine(old(compiler.chunk.contents), x)
  {
    hide Compiler.Valid, Encode;
    :- AppendConstant(compiler, Str(Prefix(x)));
    :- AppendField(compiler, x);
    AppendInstr(compiler, ToString);
    AppendInstr(compiler, Binary(Add));
    :- AppendConstant(compiler, Str("\n"));
    AppendInstr(compiler, Binary(Add));
    ok := Pass;
  }

  lemma LineSize(c: Contents, x: string)
    ensures |YamlLine(c, x).pool| == |Then(YamlLine(c, x), Binary(Add)).pool| == |c.pool| + 3
  {
  }

  lemma RestStep(c: Contents, names: seq<string>)
    ensures YamlRest(c, names) == if names == [] then c
      else YamlRest(Then(YamlLine(c, names[0]), Binary(Add)), names[1..])
  {
  }

  /** Line `i` is combined with the text so far when `i > 0`. */
  method AppendLines(compiler: Compiler, names: seq<string>) returns (ok: Status)
    requires compiler.Valid() && compiler.chunk.contents == NOTHING
    modifies compiler.chunk, compiler.chunk.code, compiler.chunk.constants
    ensures ok.Pass? <==> 3 * |names| <= MAX_CONSTANTS
    ensures compiler.Valid() && compiler.Grew()
    ensures ok.Pass? ==>
              compiler.chunk.contents == if names == [] then NOTHING
                else YamlRest(YamlLine(NOTHING, names[0]), names[1..])
  {
    hide Compiler.Valid, Encode, YamlLine, YamlRest;
    ok := Pass;
    var i := 0;
    while i < |names|
      invariant i <= |names| && compiler.Valid() && compiler.Grew() && ok.Pass?
      invariant |compiler.chunk.contents.pool| == 3 * i <= MAX_CONSTANTS
      invariant i == 0 ==> compiler.chunk.contents == NOTHING
      invariant i > 0 ==>
                  YamlRest(compiler.chunk.contents, names[i..]) == YamlRest(YamlLine(NOTHING, names[0]), names[1..])
    {
      RestStep(compiler.chunk.contents, names[i..]);
      LineSize(compiler.chunk.contents, names[i]);
      ok := AppendLine(compiler, names[i]);
      if ok.Fail? { return; }
      if i > 0 {
        AppendInstr(compiler, Binary(Add));
        assert names[i..][1..] == names[i + 1..];
      }
      i := i + 1;
    }
    RestStep(compiler.chunk.contents, names[i..]);
  }

  method GenerateToYaml(fp: Arith, names: seq<string>) returns (ok: Status, prog: Program)
    ensures ok.Pass? <==> 3 * |names| <= MAX_CONSTANTS
    ensures ok.Pass? ==> prog == ProgramOf(ToYamlCode(names))
  {
    hide Compiler.Valid, Encode, YamlLine, YamlRest;
    prog := Program([], [], 0);
    var compiler := new Compiler(fp);
    ok := AppendLines(compiler, names);
    if ok.Pass? {
      AppendInstr(compiler, Return);
      prog := Unfinished(compiler);
    }
  }

  // ----- running the code -----

  /** The finished program begins with `c`. */
  predicate Begins(c: Contents, prog: Program) {
    c.bytes <= prog.code && c.pool <= prog.consts
  }

  lemma BeginsBefore(c: Contents, i: Instr, v: Value, prog: Program)
    ensures Begins(Then(c, i), prog) ==> Begins(c, prog)
    ensures Begins(ThenPush(c, v), prog) ==> Begins(c, prog)
  {
    hide Encode;
  }

  /** A run of the avatar that stands at the end of `c`. */
  function At(c: Contents, stack: seq<Value>, count: nat): AvatarState {
    Active(|c.bytes|, stack, None, count)
  }

  lemma DecodeNext(c: Contents, i: Instr, prog: Program)
    requires Begins(Then(c, i), prog) && Encodable(i)
    ensures |c.bytes| < |prog.code| && Decode(prog.code, |c.bytes|) == Some(i)
    ensures |Then(c, i).bytes| == |c.bytes| + Width(i)
  {
    hide Encode, Decode;
    var p := |c.bytes|;
    assert prog.code[p..p + Width(i)] == Then(c, i).bytes[p..] == Encode(i);
    DecodeEncode(prog.code, p, i);
  }

  /** One instruction that goes on. */
  lemma RunsOne(fp: Arith, prog: Program, c: Contents, i: Instr, stack: seq<Value>, st: seq<Value>, count: nat)
    requires Begins(Then(c, i), prog) && Encodable(i) && !IsControl(i) && count < MAX_INSTRUCTIONS
    requires Straight(fp, prog.consts, i, stack) == Next(st) && |st| <= STACK_MAX
    ensures AvatarRun(fp, prog, At(c, stack, count)) == AvatarRun(fp, prog, At(Then(c, i), st, count + 1))
  {
    hide Encode, Decode, Straight, Then;
    DecodeNext(c, i, prog);
  }

  /** One instruction that fails. */
  lemma Faults(fp: Arith, prog: Program, c: Contents, i: Instr, stack: seq<Value>, f: Fault, count: nat)
    requires Begins(Then(c, i), prog) && Encodable(i) && !IsControl(i) && count < MAX_INSTRUCTIONS
    requires Straight(fp, prog.consts, i, stack) == Stop(f)
    ensures AvatarRun(fp, prog, At(c, stack, count)) == Error(f)
  {
    hide Encode, Decode, Straight, Then;
    DecodeNext(c, i, prog);
  }

  lemma Returns(fp: Arith, prog: Program, c: Contents, stack: seq<Value>, count: nat)
    requires Begins(Then(c, Return), prog) && count < MAX_INSTRUCTIONS && stack != []
    ensures AvatarRun(fp, prog, At(c, stack, count)) == Result(Top(stack))
  {
    hide Encode, Decode, Straight, Then;
    DecodeNext(c, Return, prog);
  }

  lemma RunsPush(fp: Arith, prog: Program, c: Contents, v: Value, stack: seq<Value>, count: nat)
    requires Begins(ThenPush(c, v), prog) && count < MAX_INSTRUCTIONS && |stack| < STACK_MAX && |c.pool| < 0x100
    ensures AvatarRun(fp, prog, At(c, stack, count)) == AvatarRun(fp, prog, At(ThenPush(c, v), stack + [v], count + 1))
  {
    hide Encode, Decode, AvatarRun;
    var i := Constant(|c.pool|);
    assert ThenPush(c, v).pool[|c.pool|] == v;
    assert Begins(Then(c, i), prog);
    RunsOne(fp, prog, c, i, stack, stack + [v], count);
  }

  /** The field of the argument, on top of `stack`. */
  lemma RunsField(fp: Arith, prog: Program, c: Contents, x: string, stack: seq<Value>, count: nat)
    requires Begins(ThenField(c, x), prog) && |c.pool| < 0x100
    requires stack != [] && |stack| + 2 <= STACK_MAX && count + 3 <= MAX_INSTRUCTIONS
    ensures var r := GetProperty(fp, stack[0], Str(x));
            AvatarRun(fp, prog, At(c, stack, count))
              == if r.Ok? then AvatarRun(fp, prog, At(ThenField(c, x), stack + [r.v], count + 3)) else Error(r.fault)
  {
    hide Encode, Decode, AvatarRun, Then, ThenPush, GetProperty, Begins;
    var c1 := Then(c, GetLocal(0));
    var c2 := ThenPush(c1, Str(x));
    BeginsBefore(c2, ObjectGet, Nil, prog);
    BeginsBefore(c1, Pop, Str(x), prog);
    ThenPool(c, GetLocal(0));
    var st1, st2 := stack + [stack[0]], stack + [stack[0]] + [Str(x)];
    RunsOne(fp, prog, c, GetLocal(0), stack, st1, count);
    RunsPush(fp, prog, c1, Str(x), st1, count + 1);
    assert Drop(st2, 2) == stack;
    var r := GetProperty(fp, stack[0], Str(x));
    if r.Ok? {
      RunsOne(fp, prog, c2, ObjectGet, st2, stack + [r.v], count + 2);
    } else {
      Faults(fp, prog, c2, ObjectGet, st2, r.fault, count + 2);
    }
  }

  lemma ThenPool(c: Contents, i: Instr)
    ensures Then(c, i).pool == c.pool
  {
  }

  // ----- fromJSON: what it builds -----

  /** Values that OBJECT_GET can be asked for a property. */
  predicate HasProperties(v: Value) {
    v.Obj? || v.Arr? || v.Str?
  }

  function Property(fp: Arith, data: Value, x: string): Value
    requires HasProperties(data)
  {
    GetProperty(fp, data, Str(x)).v
  }

  /** The fields of the instance once `names` have been copied from `data`. */
  function Built(fp: Arith, data: Value, names: seq<string>, fields: seq<Field>): seq<Field>
    requires HasProperties(data)
    decreases names
  {
    if names == [] then fields
    else Built(fp, data, names[1..], UpdateField(fields, names[0], Property(fp, data, names[0])))
  }

  lemma FirstIndex(fields: seq<Field>, x: string, k: nat)
    requires k <= |fields| && (k < |fields| ==> fields[k].key == x)
    requires forall j :: 0 <= j < k ==> fields[j].key != x
    ensures FieldIndex(fields, x) == k
  {
  }

  lemma LookupUpdated(fields: seq<Field>, x: string, v: Value, y: string)
    ensures LookupField(UpdateField(fields, x, v), y) == if y == x then v else LookupField(fields, y)
  {
    var i, j := FieldIndex(fields, x), FieldIndex(fields, y);
    var updated := UpdateField(fields, x, v);
    if y == x {
      FirstIndex(updated, y, i);
    } else if j < |fields| {
      FirstIndex(updated, y, j);
    } else {
      FirstIndex(updated, y, |updated|);
    }
  }

  lemma UpdateNew(fields: seq<Field>, x: string, v: Value)
    requires forall j :: 0 <= j < |fields| ==> fields[j].key != x
    ensures UpdateField(fields, x, v) == fields + [Field(x, v)]
  {
    FirstIndex(fields, x, |fields|);
  }

  /** Every copied field can be looked up; the others are as they were. */
  lemma {:induction false} BuiltLookup(fp: Arith, data: Value, names: seq<string>, fields: seq<Field>, x: string)
    requires HasProperties(data)
    ensures LookupField(Built(fp, data, names, fields), x)
              == if x in names then Property(fp, data, x) else LookupField(fields, x)
    decreases names
  {
    hide LookupField, UpdateField, Property;
    if names != [] {
      var v := Property(fp, data, names[0]);
      BuiltLookup(fp, data, names[1..], UpdateField(fields, names[0], v), x);
      LookupUpdated(fields, names[0], v, x);
      assert names == [names[0]] + names[1..];
    }
  }

  function Copied(fp: Arith, data: Value, names: seq<string>): (r: seq<Field>)
    requires HasProperties(data)
    ensures |r| == |names|
    ensures forall i :: 0 <= i < |names| ==> r[i] == Field(names[i], Property(fp, data, names[i]))
  {
    seq(|names|, i requires 0 <= i < |names| => Field(names[i], Property(fp, data, names[i])))
  }

  /** With distinct new names the fields come in the order of the declaration. */
  lemma {:induction false} BuiltInOrder(fp: Arith, data: Value, names: seq<string>, fields: seq<Field>)
    requires HasProperties(data)
    requires forall i, j :: 0 <= i < j < |names| ==> names[i] != names[j]
    requires forall i, j :: 0 <= i < |names| && 0 <= j < |fields| ==> fields[j].key != names[i]
    ensures Built(fp, data, names, fields) == fields + Copied(fp, data, names)
    decreases names
  {
    hide Property, UpdateField, Copied;
    if names == [] {
      assert fields + Copied(fp, data, names) == fields;
    } else {
      var next := fields + [Field(names[0], Property(fp, data, names[0]))];
      UpdateNew(fields, names[0], Property(fp, data, names[0]));
      BuiltInOrder(fp, data, names[1..], next);
      assert next + Copied(fp, data, names[1..]) == fields + Copied(fp, data, names);
    }
  }

  lemma CopyBegins(c: Contents, x: string, prog: Program)
    ensures Begins(CopyField(c, x), prog) ==> Begins(ThenField(ThenPush(c, Str(x)), x), prog)
    ensures Begins(ThenField(c, x), prog) ==> Begins(c, prog)
  {
    hide Begins, Then, ThenPush;
    var d := ThenPush(Then(c, GetLocal(0)), Str(x));
    BeginsBefore(ThenField(ThenPush(c, Str(x)), x), ObjectSet, Nil, prog);
    BeginsBefore(d, ObjectGet, Nil, prog);
    BeginsBefore(Then(c, GetLocal(0)), Pop, Str(x), prog);
    BeginsBefore(c, GetLocal(0), Nil, prog);
  }

  lemma {:induction false} CopiesBegin(c: Contents, names: seq<string>, prog: Program)
    requires Begins(CopyFields(c, names), prog)
    ensures Begins(c, prog)
    decreases names
  {
    hide Begins, CopyField, ThenField;
    if names != [] {
      CopiesBegin(CopyField(c, names[0]), names[1..], prog);
      CopyBegins(c, names[0], prog);
      CopyBegins(ThenPush(c, Str(names[0])), names[0], prog);
      BeginsBefore(c, Pop, Str(names[0]), prog);
    }
  }

  lemma RunsCopy(fp: Arith, prog: Program, c: Contents, x: string, data: Value, fields: seq<Field>, count: nat)
    requires Begins(CopyField(c, x), prog) && |c.pool| + 2 <= 0x100 && count + 5 <= MAX_INSTRUCTIONS
    ensures AvatarRun(fp, prog, At(c, [data, Obj(fields)], count))
              == if HasProperties(data)
                 then AvatarRun(fp, prog, At(CopyField(c, x),
                   [data, Obj(UpdateField(fields, x, Property(fp, data, x)))], count + 5))
                 else Error(NoProperties)
  {
    hide Begins, Then, AvatarRun, UpdateField, ThenField, Decode, Encode;
    CopyBegins(c, x, prog);
    var c1 := ThenPush(c, Str(x));
    CopyBegins(c1, x, prog);
    var st := [data, Obj(fields), Str(x)];
    assert [data, Obj(fields)] + [Str(x)] == st;
    RunsPush(fp, prog, c, Str(x), [data, Obj(fields)], count);
    RunsField(fp, prog, c1, x, st, count + 1);
    if HasProperties(data) {
      var v := Property(fp, data, x);
      var st3 := [data, Obj(UpdateField(fields, x, v))];
      assert Drop(st + [v], 3) == [data];
      RunsOne(fp, prog, ThenField(c1, x), ObjectSet, st + [v], st3, count + 4);
    }
  }

  lemma {:induction false} RunsCopies(fp: Arith, prog: Program, c: Contents, names: seq<string>, data: Value,
                                      fields: seq<Field>, count: nat)
    requires Begins(Then(CopyFields(c, names), Return), prog)
    requires |c.pool| + 2 * |names| <= 0x100 && count + 5 * |names| < MAX_INSTRUCTIONS
    ensures AvatarRun(fp, prog, At(c, [data, Obj(fields)], count))
              == if names == [] then Result(Obj(fields))
                 else if HasProperties(data) then Result(Obj(Built(fp, data, names, fields)))
                 else Error(NoProperties)
    decreases names
  {
    hide Begins, Then, AvatarRun, UpdateField, CopyField, Property;
    if names == [] {
      Returns(fp, prog, c, [data, Obj(fields)], count);
    } else {
      var c1 := CopyField(c, names[0]);
      BeginsBefore(CopyFields(c, names), Return, Nil, prog);
      CopiesBegin(c1, names[1..], prog);
      CopySize(c, names[0]);
      RunsCopy(fp, prog, c, names[0], data, fields, count);
      if HasProperties(data) {
        RunsCopies(fp, prog, c1, names[1..], data, UpdateField(fields, names[0], Property(fp, data, names[0])),
          count + 5);
      }
    }
  }

  /** `fromJSON` on any value: the instance carries its type name and every field of the
      input; anything that has no properties is an error, unless there is no field to copy. */
  lemma FromJsonRuns(fp: Arith, typeName: string, names: seq<string>, data: Value)
    requires 2 + 2 * |names| <= 0x100
    ensures var prog := ProgramOf(FromJsonCode(typeName, names));
            var start := [Field("__type", Str(typeName))];
            AvatarRun(fp, prog, AvatarStart(prog, [data]))
              == if names == [] then Result(Obj(start))
                 else if HasProperties(data) then Result(Obj(Built(fp, data, names, start)))
                 else Error(NoProperties)
  {
    hide Begins, Then, AvatarRun, CopyFields, Decode, Encode;
    var prog := ProgramOf(FromJsonCode(typeName, names));
    var c1 := Then(NOTHING, ObjectNew);
    var c2 := ThenPush(c1, Str("__type"));
    var c3 := ThenPush(c2, Str(typeName));
    BeginsAll(FromJsonCode(typeName, names));
    BeginsBefore(CopyFields(NewInstance(typeName), names), Return, Nil, prog);
    CopiesBegin(NewInstance(typeName), names, prog);
    BeginsBefore(c3, ObjectSet, Nil, prog);
    BeginsBefore(c2, Pop, Str(typeName), prog);
    BeginsBefore(c1, Pop, Str("__type"), prog);
    ThenPool(NOTHING, ObjectNew);
    ThenPool(c3, ObjectSet);
    var st0, st1, st2 := [data], [data, Obj([])], [data, Obj([]), Str("__type")];
    var st3 := [data, Obj([]), Str("__type"), Str(typeName)];
    assert Frame(0, [data]) == st0 && st0 + [Obj([])] == st1 && st1 + [Str("__type")] == st2
      && st2 + [Str(typeName)] == st3;
    RunsOne(fp, prog, NOTHING, ObjectNew, st0, st1, 0);
    RunsPush(fp, prog, c1, Str("__type"), st1, 1);
    RunsPush(fp, prog, c2, Str(typeName), st2, 2);
    var st4 := [data, Obj([Field("__type", Str(typeName))])];
    SetType(fp, prog.consts, typeName, data);
    RunsOne(fp, prog, c3, ObjectSet, st3, st4, 3);
    RunsCopies(fp, prog, NewInstance(typeName), names, data, [Field("__type", Str(typeName))], 4);
  }

  lemma BeginsAll(c: Contents)
    ensures Begins(c, ProgramOf(c))
  {
  }

  lemma SetType(fp: Arith, consts: seq<Value>, typeName: string, data: Value)
    ensures Straight(fp, consts, ObjectSet, [data, Obj([]), Str("__type"), Str(typeName)])
              == Next([data, Obj([Field("__type", Str(typeName))])])
  {
    var st := [data, Obj([]), Str("__type"), Str(typeName)];
    assert Drop(st, 3) == [data];
    assert UpdateField([], "__type", Str(typeName)) == [Field("__type", Str(typeName))];
  }

  // ----- toYAML: what it returns -----

  function Line(fp: Arith, obj: Value, x: string): string
    requires HasProperties(obj)
  {
    Prefix(x) + ToText(fp, Property(fp, obj, x)) + "\n"
  }

  function Lines(fp: Arith, obj: Value, names: seq<string>): string
    requires HasProperties(obj)
    decreases names
  {
    if names == [] then "" else Line(fp, obj, names[0]) + Lines(fp, obj, names[1..])
  }

  lemma LineBegins(c: Contents, x: string, prog: Program)
    requires Begins(YamlLine(c, x), prog)
    ensures var value := ThenField(ThenPush(c, Str(Prefix(x))), x);
            var joined := Then(Then(value, ToString), Binary(Add));
            && Begins(ThenPush(c, Str(Prefix(x))), prog) && Begins(value, prog) && Begins(Then(value, ToString), prog)
            && Begins(joined, prog) && Begins(ThenPush(joined, Str("\n")), prog) && Begins(c, prog)
            && |joined.pool| == |c.pool| + 2
  {
    hide Begins, Then, ThenPush, Prefix;
    var first := ThenPush(c, Str(Prefix(x)));
    var value := ThenField(first, x);
    var joined := Then(Then(value, ToString), Binary(Add));
    BeginsBefore(ThenPush(joined, Str("\n")), Binary(Add), Nil, prog);
    BeginsBefore(joined, Pop, Str("\n"), prog);
    BeginsBefore(Then(value, ToString), Binary(Add), Nil, prog);
    BeginsBefore(value, ToString, Nil, prog);
    CopyBegins(first, x, prog);
    BeginsBefore(c, Pop, Str(Prefix(x)), prog);
    JoinedPool(c, x);
  }

  lemma JoinedPool(c: Contents, x: string)
    ensures |Then(Then(ThenField(ThenPush(c, Str(Prefix(x))), x), ToString), Binary(Add)).pool| == |c.pool| + 2
  {
  }

  lemma AddTexts(fp: Arith, consts: seq<Value>, below: seq<Value>, a: string, b: string)
    ensures Straight(fp, consts, Binary(Add), below + [Str(a)] + [Str(b)]) == Next(below + [Str(a + b)])
  {
    var st := below + [Str(a)] + [Str(b)];
    assert Drop(st, 2) == below;
  }

  lemma TextOnTop(fp: Arith, consts: seq<Value>, below: seq<Value>, v: Value)
    ensures Straight(fp, consts, ToString, below + [v]) == Next(below + [Str(ToText(fp, v))])
  {
    assert Drop(below + [v], 1) == below;
  }

  lemma RunsLine(fp: Arith, prog: Program, c: Contents, x: string, stack: seq<Value>, count: nat)
    requires Begins(YamlLine(c, x), prog) && |c.pool| + 3 <= 0x100 && count + 8 <= MAX_INSTRUCTIONS
    requires stack != [] && |stack| + 3 <= STACK_MAX
    ensures AvatarRun(fp, prog, At(c, stack, count))
              == if HasProperties(stack[0])
                 then AvatarRun(fp, prog, At(YamlLine(c, x), stack + [Str(Line(fp, stack[0], x))], count + 8))
                 else Error(NoProperties)
  {
    hide Begins, Then, AvatarRun, ThenField, Decode, Encode, Straight, ToText, Prefix;
    LineBegins(c, x, prog);
    var first := ThenPush(c, Str(Prefix(x)));
    var value := ThenField(first, x);
    var text := Then(value, ToString);
    var joined := Then(text, Binary(Add));
    var prefix, st := Str(Prefix(x)), stack + [Str(Prefix(x))];
    RunsPush(fp, prog, c, prefix, stack, count);
    RunsField(fp, prog, first, x, st, count + 1);
    if HasProperties(stack[0]) {
      var v := Property(fp, stack[0], x);
      var t := ToText(fp, v);
      TextOnTop(fp, prog.consts, st, v);
      AddTexts(fp, prog.consts, stack, Prefix(x), t);
      AddTexts(fp, prog.consts, stack, Prefix(x) + t, "\n");
      RunsOne(fp, prog, value, ToString, st + [v], st + [Str(t)], count + 4);
      RunsOne(fp, prog, text, Binary(Add), st + [Str(t)], stack + [Str(Prefix(x) + t)], count + 5);
      RunsPush(fp, prog, joined, Str("\n"), stack + [Str(Prefix(x) + t)], count + 6);
      RunsOne(fp, prog, ThenPush(joined, Str("\n")), Binary(Add), stack + [Str(Prefix(x) + t)] + [Str("\n")],
        stack + [Str(Line(fp, stack[0], x))], count + 7);
    }
  }

  lemma {:induction false} RestBegins(c: Contents, names: seq<string>, prog: Program)
    requires Begins(YamlRest(c, names), prog)
    ensures Begins(c, prog)
    decreases names
  {
    hide Begins, YamlLine, Then;
    if names != [] {
      RestBegins(Then(YamlLine(c, names[0]), Binary(Add)), names[1..], prog);
      BeginsBefore(YamlLine(c, names[0]), Binary(Add), Nil, prog);
      LineBegins(c, names[0], prog);
    }
  }

  lemma {:induction false} RunsRest(fp: Arith, prog: Program, c: Contents, names: seq<string>, obj: Value,
                                    text: string, count: nat)
    requires Begins(Then(YamlRest(c, names), Return), prog) && HasProperties(obj)
    requires |c.pool| + 3 * |names| <= 0x100 && count + 9 * |names| < MAX_INSTRUCTIONS
    ensures AvatarRun(fp, prog, At(c, [obj, Str(text)], count)) == Result(Str(text + Lines(fp, obj, names)))
    decreases names
  {
    hide Begins, Then, AvatarRun, YamlLine, Line, Straight;
    if names == [] {
      Returns(fp, prog, c, [obj, Str(text)], count);
      assert text + "" == text;
    } else {
      var c1 := YamlLine(c, names[0]);
      var c2 := Then(c1, Binary(Add));
      var line := Line(fp, obj, names[0]);
      BeginsBefore(YamlRest(c, names), Return, Nil, prog);
      RestBegins(c2, names[1..], prog);
      BeginsBefore(c1, Binary(Add), Nil, prog);
      LineSize(c, names[0]);
      RunsLine(fp, prog, c, names[0], [obj, Str(text)], count);
      AddTexts(fp, prog.consts, [obj], text, line);
      assert [obj, Str(text)] + [Str(line)] == [obj] + [Str(text)] + [Str(line)];
      assert [obj] + [Str(text + line)] == [obj, Str(text + line)];
      RunsOne(fp, prog, c1, Binary(Add), [obj, Str(text)] + [Str(line)], [obj, Str(text + line)], count + 8);
      RunsRest(fp, prog, c2, names[1..], obj, text + line, count + 9);
      assert text + line + Lines(fp, obj, names[1..]) == text + (line + Lines(fp, obj, names[1..]));
    }
  }

  /** The run, in terms of the generator's own lines. */
  lemma ToYamlLines(fp: Arith, names: seq<string>, obj: Value)
    requires 3 * |names| <= 0x100
    ensures var prog := ProgramOf(ToYamlCode(names));
            AvatarRun(fp, prog, AvatarStart(prog, [obj]))
              == if names == [] then Result(obj)
                 else if HasProperties(obj) then Result(Str(Lines(fp, obj, names)))
                 else Error(NoProperties)
  {
    hide Begins, Then, AvatarRun, YamlLine, YamlRest, Line;
    var prog := ProgramOf(ToYamlCode(names));
    assert Frame(0, [obj]) == [obj];
    BeginsAll(ToYamlCode(names));
    if names == [] {
      Returns(fp, prog, NOTHING, [obj], 0);
    } else {
      var c := YamlLine(NOTHING, names[0]);
      BeginsBefore(YamlRest(c, names[1..]), Return, Nil, prog);
      RestBegins(c, names[1..], prog);
      LineSize(NOTHING, names[0]);
      RunsLine(fp, prog, NOTHING, names[0], [obj], 0);
      if HasProperties(obj) {
        var line := Line(fp, obj, names[0]);
        assert [obj] + [Str(line)] == [obj, Str(line)];
        RunsRest(fp, prog, c, names[1..], obj, line, 8);
      }
    }
  }

  // ----- toYAML: the text -----

  /** `t` is how the property `x` of `obj` reads. */
  ghost predicate Shows(fp: Arith, obj: Value, x: string, t: string) {
    match obj
    case Obj(fields) =>
      || (exists i: nat :: O.FirstCalled(fields, x, i) && O.HasText(fp, fields[i].val, t))
      || (t == "nil" && forall j :: 0 <= j < |fields| ==> fields[j].key != x)
    case Arr(es) => t == if x == "length" then fp.show(fp.ofInt(|es|)) else "nil"
    case Str(s) => t == if x == "length" then fp.show(fp.ofInt(|s|)) else "nil"
    case _ => false
  }

  /** At most `n` characters of `text`. */
  function Cut(text: string, n: nat): string {
    if |text| <= n then text else text[..n]
  }

  /** One line for each name: the first 127 characters of name, colon and space, then the text. */
  function Yaml(names: seq<string>, texts: seq<string>): string
    requires |names| == |texts|
    decreases names
  {
    if names == [] then "" else Cut(names[0] + ": ", 127) + texts[0] + "\n" + Yaml(names[1..], texts[1..])
  }

  /** The same without a limit. */
  function Written(names: seq<string>, texts: seq<string>): string
    requires |names| == |texts|
    decreases names
  {
    if names == [] then "" else names[0] + ": " + texts[0] + "\n" + Written(names[1..], texts[1..])
  }

  lemma {:induction false} ShortNames(names: seq<string>, texts: seq<string>)
    requires |names| == |texts| && forall i :: 0 <= i < |names| ==> |names[i]| <= 125
    ensures Yaml(names, texts) == Written(names, texts)
    decreases names
  {
    if names != [] { ShortNames(names[1..], texts[1..]); }
  }

  lemma ShowsText(fp: Arith, obj: Value, x: string, t: string)
    ensures HasProperties(obj) ==> (Shows(fp, obj, x, t) <==> t == ToText(fp, Property(fp, obj, x)))
    ensures Shows(fp, obj, x, t) ==> HasProperties(obj)
  {
    hide FieldIndex;
    if obj.Obj? {
      var i := FieldIndex(obj.fields, x);
      if i < |obj.fields| { assert O.FirstCalled(obj.fields, x, i); }
    }
  }

  lemma {:induction false} LinesAre(fp: Arith, obj: Value, names: seq<string>, texts: seq<string>)
    requires HasProperties(obj) && |names| == |texts|
    requires forall i :: 0 <= i < |names| ==> Shows(fp, obj, names[i], texts[i])
    ensures Lines(fp, obj, names) == Yaml(names, texts)
    decreases names
  {
    hide ToText, Property, Shows, HasProperties;
    if names != [] {
      ShowsText(fp, obj, names[0], texts[0]);
      forall i | 0 <= i < |names[1..]|
        ensures Shows(fp, obj, names[1..][i], texts[1..][i])
      {
        assert Shows(fp, obj, names[i + 1], texts[i + 1]);
      }
      LinesAre(fp, obj, names[1..], texts[1..]);
    }
  }

  /** `toYAML` returns a line for every field, in the order of the declaration: the name, cut with its
      colon and space to 127 characters, then the text of the field.  Without fields it returns the
      object itself; what has no properties is an error. */
  lemma ToYamlRuns(fp: Arith, names: seq<string>, texts: seq<string>, obj: Value)
    requires 3 * |names| <= 0x100 && |texts| == |names|
    requires obj.Obj? || obj.Arr? || obj.Str? ==> forall i :: 0 <= i < |names| ==> Shows(fp, obj, names[i], texts[i])
    ensures var prog := ProgramOf(ToYamlCode(names));
            var o := AvatarRun(fp, prog, AvatarStart(prog, [obj]));
            && (names == [] ==> o == Result(obj))
            && (names != [] && !(obj.Obj? || obj.Arr? || obj.Str?) ==> o == Error(NoProperties))
            && (names != [] && (obj.Obj? || obj.Arr? || obj.Str?) ==>
                  && o == Result(Str(Yaml(names, texts)))
                  && ((forall i :: 0 <= i < |names| ==> |names[i]| <= 125) ==> o == Result(Str(Written(names, texts)))))
  {
    hide AvatarRun, AvatarStart, ToYamlCode, Yaml, Written, Shows, Lines;
    ToYamlLines(fp, names, obj);
    if obj.Obj? || obj.Arr? || obj.Str? {
      LinesAre(fp, obj, names, texts);
      if forall i :: 0 <= i < |names| ==> |names[i]| <= 125 { ShortNames(names, texts); }
    }
  }

  /** Every property reads as some text. */
  lemma ShowsSome(fp: Arith, obj: Value, x: string)
    requires obj.Obj? || obj.Arr? || obj.Str?
    ensures exists t :: Shows(fp, obj, x, t)
  {
    ShowsText(fp, obj, x, ToText(fp, Property(fp, obj, x)));
  }
}
