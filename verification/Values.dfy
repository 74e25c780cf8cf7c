/** Runtime values and the pure part of the opcode executor.

    A number is the bit pattern of a C double.  Every operation on doubles is a
    field of `Arith`, so whatever is proved here holds for any rounding, for NaN,
    and for any `%g` formatting. */
module Values {

  type Number = int

  datatype Arith = Arith(
    add: (Number, Number) -> Number,
    sub: (Number, Number) -> Number,
    mul: (Number, Number) -> Number,
    div: (Number, Number) -> Number,
    fmod: (Number, Number) -> Number,
    neg: Number -> Number,
    eq: (Number, Number) -> bool,
    lt: (Number, Number) -> bool,
    le: (Number, Number) -> bool,
    zero: Number,
    ofInt: int -> Number,
    toInt: Number -> int,
    show: Number -> string)

  datatype Value =
    | Nil
    | Bool(b: bool)
    | Num(n: Number)
    | Str(s: string)
    | Arr(elems: seq<Value>)
    | Obj(fields: seq<Field>)
    | Fn(id: nat)

  datatype Field = Field(key: string, val: Value)

  /** The error messages of the executor and of the avatar run loop. */
  datatype Fault =
    | OperandsMustBeNumbers
    | OperandMustBeNumber
    | BadAddOperands
    | DivisionByZero
    | ModuloByZero
    | NotIndexable(typ: nat)
    | IndexMustBeNumber
    | OutOfBounds(index: int, size: nat)
    | KeyMustBeString
    | NoProperties
    | SetOnNonObject
    | StackUnderflow
    | StackOverflow
    | InvalidConstant
    | BadInstructionPointer
    | InstructionLimit
    | UnsupportedOpcode(op: nat)

  datatype Result = Ok(v: Value) | Bad(fault: Fault)

  datatype BinOp = Add | Sub | Mul | Div | Mod | Eq | Neq | Gt | Ge | Lt | Le | And | Or

  datatype UnOp = Negate | Not

  /** The numeric tag of a value, as it appears in error messages. */
  function TypeTag(v: Value): nat {
    match v
    case Nil => 0
    case Bool(_) => 1
    case Num(_) => 2
    case Str(_) => 3
    case Arr(_) => 4
    case Obj(_) => 5
    case Fn(_) => 6
  }

  /** Truthiness of `not`, `and` and `or`: only nil and false are falsy. */
  predicate IsFalsy(v: Value) {
    v.Nil? || (v.Bool? && !v.b)
  }

  /** Truthiness of a conditional jump in an avatar: zero is falsy as well. */
  predicate BranchFalsy(fp: Arith, v: Value) {
    IsFalsy(v) || (v.Num? && fp.eq(v.n, fp.zero))
  }

  predicate ValuesEqual(fp: Arith, a: Value, b: Value) {
    match (a, b)
    case (Nil, Nil) => true
    case (Bool(x), Bool(y)) => x == y
    case (Num(x), Num(y)) => fp.eq(x, y)
    case (Str(x), Str(y)) => x == y
    case (_, _) => false
  }

  /** Text of an operand of a string concatenation. */
  function TextOf(fp: Arith, v: Value): string {
    match v
    case Nil => "nil"
    case Bool(b) => if b then "true" else "false"
    case Num(n) => fp.show(n)
    case Str(s) => s
    case _ => "[object]"
  }

  /** Text produced by TO_STRING; it differs from `TextOf` on compound values. */
  function ToText(fp: Arith, v: Value): string {
    match v
    case Nil => "nil"
    case Bool(b) => if b then "true" else "false"
    case Num(n) => fp.show(n)
    case Str(s) => s
    case _ => "[Object]"
  }

  function AddValues(fp: Arith, a: Value, b: Value): Result {
    if a.Num? && b.Num? then Ok(Num(fp.add(a.n, b.n)))
    else if a.Str? || b.Str? then Ok(Str(TextOf(fp, a) + TextOf(fp, b)))
    else if a.Arr? && b.Arr? then Ok(Arr(a.elems + b.elems))
    else Bad(BadAddOperands)
  }

  /** The operators that are defined on two numbers only. */
  function ApplyNumeric(fp: Arith, op: BinOp, a: Number, b: Number): Result {
    match op
    case Sub => Ok(Num(fp.sub(a, b)))
    case Mul => Ok(Num(fp.mul(a, b)))
    case Div => if fp.eq(b, fp.zero) then Bad(DivisionByZero) else Ok(Num(fp.div(a, b)))
    case Mod => if fp.eq(b, fp.zero) then Bad(ModuloByZero) else Ok(Num(fp.fmod(a, b)))
    case Gt => Ok(Bool(fp.lt(b, a)))
    case Ge => Ok(Bool(fp.le(b, a)))
    case Lt => Ok(Bool(fp.lt(a, b)))
    case _ => Ok(Bool(fp.le(a, b)))
  }

  function ApplyBinary(fp: Arith, op: BinOp, a: Value, b: Value): Result {
    match op
    case Add => AddValues(fp, a, b)
    case Eq => Ok(Bool(ValuesEqual(fp, a, b)))
    case Neq => Ok(Bool(!ValuesEqual(fp, a, b)))
    case And => Ok(if IsFalsy(a) then a else b)
    case Or => Ok(if IsFalsy(a) then b else a)
    case _ => if a.Num? && b.Num? then ApplyNumeric(fp, op, a.n, b.n) else Bad(OperandsMustBeNumbers)
  }

  function ApplyUnary(fp: Arith, op: UnOp, a: Value): Result {
    match op
    case Not => Ok(Bool(IsFalsy(a)))
    case Negate => if a.Num? then Ok(Num(fp.neg(a.n))) else Bad(OperandMustBeNumber)
  }

  /** Position of the first field called `key`, or the number of fields. */
  function FieldIndex(fields: seq<Field>, key: string): (i: nat)
    ensures i <= |fields|
    ensures i < |fields| ==> fields[i].key == key
    ensures forall j :: 0 <= j < i ==> fields[j].key != key
  {
    if fields == [] || fields[0].key == key then 0 else 1 + FieldIndex(fields[1..], key)
  }

  function LookupField(fields: seq<Field>, key: string): Value {
    var i := FieldIndex(fields, key);
    if i < |fields| then fields[i].val else Nil
  }

  function UpdateField(fields: seq<Field>, key: string, v: Value): seq<Field> {
    var i := FieldIndex(fields, key);
    if i < |fields| then fields[i := Field(fields[i].key, v)] else fields + [Field(key, v)]
  }

  function GetProperty(fp: Arith, obj: Value, key: Value): Result {
    if !key.Str? then Bad(KeyMustBeString)
    else match obj
      case Arr(es) => Ok(if key.s == "length" then Num(fp.ofInt(|es|)) else Nil)
      case Str(s) => Ok(if key.s == "length" then Num(fp.ofInt(|s|)) else Nil)
      case Obj(fields) => Ok(LookupField(fields, key.s))
      case _ => Bad(NoProperties)
  }

  function SetProperty(obj: Value, key: Value, v: Value): Result {
    if !obj.Obj? then Bad(SetOnNonObject)
    else if !key.Str? then Bad(KeyMustBeString)
    else Ok(Obj(UpdateField(obj.fields, key.s, v)))
  }

  function Index(fp: Arith, container: Value, index: Value): Result {
    if container.Obj? && index.Str? then GetProperty(fp, container, index)
    else if !container.Arr? then Bad(NotIndexable(TypeTag(container)))
    else if !index.Num? then Bad(IndexMustBeNumber)
    else
      var i := fp.toInt(index.n);
      if 0 <= i < |container.elems| then Ok(container.elems[i]) else Bad(OutOfBounds(i, |container.elems|))
  }
}
