/** Instructions and their byte encoding (the opcode numbers are positions in the
    `OpCode` enumeration). */
module Bytecode {
  import opened Wrappers
  import opened Values

  type byte = b: int | 0 <= b < 0x100
  type word = w: int | 0 <= w < 0x1_0000

  datatype Instr =
    | Constant(k: byte)
    | ConstantLong(kk: word)
    | PushNil
    | PushTrue
    | PushFalse
    | Pop
    | Dup
    | Binary(bop: BinOp)
    | Unary(uop: UnOp)
    | ToString
    | GetGlobal(g: byte)
    | SetGlobal(g: byte)
    | GetGlobalLong(gg: word)
    | SetGlobalLong(gg: word)
    | GetLocal(slot: byte)
    | SetLocal(slot: byte)
    | Return
    | Jump(off: word)
    | JumpIfFalse(off: word)
    | Loop(off: word)
    | Array(count: byte)
    | ArrayGet
    | ObjectNew
    | ObjectGet
    | ObjectSet
    | Other(op: byte)

  function BinaryOpcode(op: BinOp): byte {
    match op
    case Add => 7 case Sub => 8 case Mul => 9 case Div => 10 case Mod => 11
    case Eq => 14 case Neq => 15 case Gt => 16 case Ge => 17 case Lt => 18 case Le => 19
    case And => 21 case Or => 22
  }

  function Opcode(i: Instr): byte {
    match i
    case Constant(_) => 0
    case ConstantLong(_) => 1
    case PushNil => 2
    case PushTrue => 3
    case PushFalse => 4
    case Pop => 5
    case Dup => 6
    case Binary(op) => BinaryOpcode(op)
    case Unary(op) => if op.Negate? then 12 else 20
    case ToString => 13
    case GetGlobal(_) => 24
    case SetGlobal(_) => 25
    case GetGlobalLong(_) => 27
    case SetGlobalLong(_) => 28
    case GetLocal(_) => 29
    case SetLocal(_) => 30
    case Return => 32
    case Jump(_) => 37
    case JumpIfFalse(_) => 38
    case Loop(_) => 39
    case Array(_) => 44
    case ArrayGet => 45
    case ObjectNew => 47
    case ObjectGet => 48
    case ObjectSet => 49
    case Other(op) => op
  }

  function Hi(w: word): byte { w / 0x100 }
  function Lo(w: word): byte { w % 0x100 }

  function Operand(i: Instr): seq<byte> {
    match i
    case Constant(k) => [k]
    case GetGlobal(g) => [g]
    case SetGlobal(g) => [g]
    case GetLocal(s) => [s]
    case SetLocal(s) => [s]
    case Array(n) => [n]
    case ConstantLong(w) => [Hi(w), Lo(w)]
    case GetGlobalLong(w) => [Hi(w), Lo(w)]
    case SetGlobalLong(w) => [Hi(w), Lo(w)]
    case Jump(w) => [Hi(w), Lo(w)]
    case JumpIfFalse(w) => [Hi(w), Lo(w)]
    case Loop(w) => [Hi(w), Lo(w)]
    case _ => []
  }

  /** Number of bytes of an instruction. */
  function Width(i: Instr): nat {
    if i.Jump? || i.JumpIfFalse? || i.Loop? || i.ConstantLong? || i.GetGlobalLong? || i.SetGlobalLong? then 3
    else if i.Constant? || i.GetGlobal? || i.SetGlobal? || i.GetLocal? || i.SetLocal? || i.Array? then 2
    else 1
  }

  function Encode(i: Instr): (bytes: seq<byte>)
    ensures |bytes| == Width(i)
    ensures bytes[0] == Opcode(i)
  {
    [Opcode(i)] + Operand(i)
  }

  /** The instruction that starts with opcode `op` and continues with `x`, `y`. */
  function Assemble(op: byte, x: byte, y: byte): (i: Instr)
    ensures Opcode(i) == op
  {
    var w := x * 0x100 + y;
    match op
    case 0 => Constant(x)
    case 1 => ConstantLong(w)
    case 2 => PushNil
    case 3 => PushTrue
    case 4 => PushFalse
    case 5 => Pop
    case 6 => Dup
    case 7 => Binary(Add)
    case 8 => Binary(Sub)
    case 9 => Binary(Mul)
    case 10 => Binary(Div)
    case 11 => Binary(Mod)
    case 12 => Unary(Negate)
    case 13 => ToString
    case 14 => Binary(Eq)
    case 15 => Binary(Neq)
    case 16 => Binary(Gt)
    case 17 => Binary(Ge)
    case 18 => Binary(Lt)
    case 19 => Binary(Le)
    case 20 => Unary(Not)
    case 21 => Binary(And)
    case 22 => Binary(Or)
    case 24 => GetGlobal(x)
    case 25 => SetGlobal(x)
    case 27 => GetGlobalLong(w)
    case 28 => SetGlobalLong(w)
    case 29 => GetLocal(x)
    case 30 => SetLocal(x)
    case 32 => Return
    case 37 => Jump(w)
    case 38 => JumpIfFalse(w)
    case 39 => Loop(w)
    case 44 => Array(x)
    case 45 => ArrayGet
    case 47 => ObjectNew
    case 48 => ObjectGet
    case 49 => ObjectSet
    case _ => Other(op)
  }

  /** What the run loop reads at `p`; `None` when an operand lies past the end. */
  function Decode(code: seq<byte>, p: nat): (r: Option<Instr>)
    requires p < |code|
    ensures r.Some? ==> p + Width(r.value) <= |code| && code[p] == Opcode(r.value)
  {
    hide Opcode, Operand;
    var x := if p + 1 < |code| then code[p + 1] else 0;
    var y := if p + 2 < |code| then code[p + 2] else 0;
    var i := Assemble(code[p], x, y);
    if p + Width(i) <= |code| then Some(i) else None
  }

  predicate Encodable(i: Instr) {
    i.Other? ==> Assemble(i.op, 0, 0) == i
  }

  lemma AssembleBinary(op: BinOp, x: byte, y: byte)
    ensures Assemble(BinaryOpcode(op), x, y) == Binary(op)
  {
  }

  lemma AssembleOperand(i: Instr, x: byte, y: byte)
    requires Encodable(i)
    requires Operand(i) == [] || Operand(i) == [x] || Operand(i) == [x, y]
    ensures Assemble(Opcode(i), x, y) == i
  {
    if i.Binary? {
      AssembleBinary(i.bop, x, y);
    }
  }

  /** Decoding undoes encoding, wherever the instruction stands. */
  lemma DecodeEncode(code: seq<byte>, p: nat, i: Instr)
    requires p + Width(i) <= |code|
    requires code[p..p + Width(i)] == Encode(i)
    requires Encodable(i)
    ensures Decode(code, p) == Some(i)
  {
    var x := if p + 1 < |code| then code[p + 1] else 0;
    var y := if p + 2 < |code| then code[p + 2] else 0;
    var bytes := code[p..p + Width(i)];
    assert code[p] == bytes[0] == Opcode(i);
    assert |bytes| >= 2 ==> code[p + 1] == bytes[1];
    assert |bytes| >= 3 ==> code[p + 2] == bytes[2];
    assert Operand(i) == bytes[1..];
    AssembleOperand(i, x, y);
  }

  // ----- the numbers -----

  /** The name at position `n` of the enumeration of opcodes. */
  function Enumerator(n: nat): string {
    match n
    case 0 => "CONSTANT" case 1 => "CONSTANT_LONG" case 2 => "NIL" case 3 => "TRUE" case 4 => "FALSE"
    case 5 => "POP" case 6 => "DUP" case 7 => "ADD" case 8 => "SUBTRACT" case 9 => "MULTIPLY"
    case 10 => "DIVIDE" case 11 => "MODULO" case 12 => "NEGATE" case 13 => "TO_STRING" case 14 => "EQUAL"
    case 15 => "NOT_EQUAL" case 16 => "GREATER" case 17 => "GREATER_EQUAL" case 18 => "LESS"
    case 19 => "LESS_EQUAL" case 20 => "NOT" case 21 => "AND" case 22 => "OR" case 23 => "DEFINE_GLOBAL"
    case 24 => "GET_GLOBAL" case 25 => "SET_GLOBAL" case 26 => "DEFINE_GLOBAL_LONG"
    case 27 => "GET_GLOBAL_LONG" case 28 => "SET_GLOBAL_LONG" case 29 => "GET_LOCAL" case 30 => "SET_LOCAL"
    case 31 => "CALL" case 32 => "RETURN" case 33 => "CLOSURE" case 34 => "AVATAR" case 35 => "AWAIT"
    case 36 => "DEFER" case 37 => "JUMP" case 38 => "JUMP_IF_FALSE" case 39 => "LOOP" case 40 => "PRINT"
    case 41 => "HTTP_GET" case 42 => "HTTP_POST" case 43 => "HTTP_SERVER" case 44 => "ARRAY"
    case 45 => "ARRAY_GET" case 46 => "ARRAY_SET" case 47 => "OBJECT_NEW" case 48 => "OBJECT_GET"
    case 49 => "OBJECT_SET" case 50 => "LOG_FATAL" case 51 => "LOG_ERROR" case 52 => "LOG_WARNING"
    case 53 => "LOG_INFO" case 54 => "LOG_DEBUG" case 55 => "LOG_PUSH_CTX" case 56 => "LOG_POP_CTX"
    case 57 => "HALT"
    case _ => ""
  }

  function OperatorName(op: BinOp): string {
    match op
    case Add => "ADD" case Sub => "SUBTRACT" case Mul => "MULTIPLY" case Div => "DIVIDE" case Mod => "MODULO"
    case Eq => "EQUAL" case Neq => "NOT_EQUAL"
    case Gt => "GREATER" case Ge => "GREATER_EQUAL" case Lt => "LESS" case Le => "LESS_EQUAL"
    case And => "AND" case Or => "OR"
  }

  function Name(i: Instr): string
    requires !i.Other?
  {
    match i
    case Constant(_) => "CONSTANT"
    case ConstantLong(_) => "CONSTANT_LONG"
    case PushNil => "NIL"
    case PushTrue => "TRUE"
    case PushFalse => "FALSE"
    case Pop => "POP"
    case Dup => "DUP"
    case Binary(op) => OperatorName(op)
    case Unary(op) => if op.Negate? then "NEGATE" else "NOT"
    case ToString => "TO_STRING"
    case GetGlobal(_) => "GET_GLOBAL"
    case SetGlobal(_) => "SET_GLOBAL"
    case GetGlobalLong(_) => "GET_GLOBAL_LONG"
    case SetGlobalLong(_) => "SET_GLOBAL_LONG"
    case GetLocal(_) => "GET_LOCAL"
    case SetLocal(_) => "SET_LOCAL"
    case Return => "RETURN"
    case Jump(_) => "JUMP"
    case JumpIfFalse(_) => "JUMP_IF_FALSE"
    case Loop(_) => "LOOP"
    case Array(_) => "ARRAY"
    case ArrayGet => "ARRAY_GET"
    case ObjectNew => "OBJECT_NEW"
    case ObjectGet => "OBJECT_GET"
    case ObjectSet => "OBJECT_SET"
  }

  /** An instruction begins with the position of its name in the enumeration. */
  lemma EncodedAsNumbered(i: Instr)
    requires !i.Other?
    ensures Enumerator(Encode(i)[0]) == Name(i)
  {
    hide Operand, Width, BinaryOpcode, OperatorName;
    if i.Binary? { OperatorNumbered(i.bop); }
  }

  /** The distance of a jump follows its opcode, high byte first. */
  lemma DistanceEncoded(i: Instr)
    requires i.Jump? || i.JumpIfFalse? || i.Loop?
    ensures |Encode(i)| == 3 && var high: int, low: int := Encode(i)[1], Encode(i)[2]; high * 0x100 + low == i.off
  {
    hide Opcode;
  }

  lemma OperatorNumbered(op: BinOp)
    ensures Enumerator(BinaryOpcode(op)) == OperatorName(op)
  {
  }
}
