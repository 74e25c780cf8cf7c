/** The growable code buffer and constant pool of a function. */
module Chunks {
  import opened Values
  import opened Bytecode

  /** The bytes written so far and the constants added so far. */
  datatype Contents = Contents(bytes: seq<byte>, pool: seq<Value>)

  class Chunk {
    ghost var contents: Contents
    var code: array<byte>
    var count: nat
    var constants: array<Value>
    var constantCount: nat

    ghost predicate Valid()
      reads this, code, constants
    {
      && count <= code.Length && constantCount <= constants.Length
      && contents == Contents(code[..count], constants[..constantCount])
    }

    constructor ()
      ensures Valid() && fresh(code) && fresh(constants)
      ensures contents == Contents([], [])
    {
      code, constants := new byte[0], new Value[0];
      count, constantCount := 0, 0;
      contents := Contents([], []);
    }

    /** Appends a byte, doubling the buffer when it is full. */
    method Write(b: byte)
      requires Valid()
      modifies this, code
      ensures Valid() && (code == old(code) || fresh(code)) && constants == old(constants)
      ensures contents == Contents(old(contents.bytes) + [b], old(contents.pool))
    {
      if code.Length < count + 1 {
        var capacity := if code.Length < 8 then 8 else code.Length * 2;
        var grown := new byte[capacity];
        forall i | 0 <= i < count {
          grown[i] := code[i];
        }
        assert grown[..count] == code[..count];
        code := grown;
      }
      code[count] := b;
      count := count + 1;
      contents := Contents(contents.bytes + [b], contents.pool);
    }

    /** Appends a constant and returns its index. */
    method AddConstant(v: Value) returns (index: nat)
      requires Valid()
      modifies this, constants
      ensures Valid() && code == old(code) && (constants == old(constants) || fresh(constants))
      ensures contents == Contents(old(contents.bytes), old(contents.pool) + [v])
      ensures index == |old(contents.pool)|
    {
      if constants.Length < constantCount + 1 {
        var capacity := if constants.Length < 8 then 8 else constants.Length * 2;
        var grown := new Value[capacity];
        forall i | 0 <= i < constantCount {
          grown[i] := constants[i];
        }
        assert grown[..constantCount] == constants[..constantCount];
        constants := grown;
      }
      constants[constantCount] := v;
      index := constantCount;
      constantCount := constantCount + 1;
      contents := Contents(contents.bytes, contents.pool + [v]);
    }

    /** Overwrites the two bytes at `offset` and no others. */
    method Patch(offset: nat, hi: byte, lo: byte)
      requires Valid() && offset + 2 <= count
      modifies this`contents, code
      ensures Valid()
      ensures contents == Contents(old(contents.bytes)[offset := hi][offset + 1 := lo], old(contents.pool))
    {
      code[offset] := hi;
      code[offset + 1] := lo;
      contents := Contents(contents.bytes[offset := hi][offset + 1 := lo], contents.pool);
    }
  }
}
