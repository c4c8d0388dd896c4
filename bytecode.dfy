/** Runtime values and the bytecode chunk shared by the tree-walking
    interpreter, the single-pass compiler and the stack machine
    (src/interpreter.rs, src/bytecode.rs, src/compiler.rs). */
module Bytecode {

  /** A Lox value. Numbers are exact reals here; the f64 rounding of the
      source is not modelled. */
  datatype Value = Number(number: real) | String(text: string) | Bool(truth: bool) | Nil

  /** Every instruction the compiler emits. Constant and DefineGlobal carry an
      index into the constant pool; GetGlobal and SetGlobal carry the name. */
  datatype OpCode =
    | Constant(index: nat)
    | Return
    | Print
    | Pop
    | DefineGlobal(global: nat)
    | GetGlobal(name: string)
    | SetGlobal(name: string)
    | Negate | Not
    | Add | Subtract | Multiply | Divide
    | Equal | Less | Greater

  /** Code as (instruction, source line) pairs, and the constant pool. */
  datatype Chunk = Chunk(code: seq<(OpCode, nat)>, constant: seq<Value>)

  const EmptyChunk := Chunk([], [])

  /** An instruction's pool index, if it has one, is in range, and a global's
      name constant is a string. */
  predicate OpWellFormed(op: OpCode, constant: seq<Value>)
  {
    match op
    case Constant(i) => i < |constant|
    case DefineGlobal(i) => i < |constant| && constant[i].String?
    case _ => true
  }

  /** Every instruction of code is well-formed against the pool, checked
      from the last instruction back. */
  predicate CodeWellFormed(code: seq<(OpCode, nat)>, constant: seq<Value>)
    decreases |code|
  {
    |code| == 0 || (CodeWellFormed(code[..|code| - 1], constant) && OpWellFormed(code[|code| - 1].0, constant))
  }

  /** Every pool index the chunk's code uses is valid. */
  predicate WellFormed(chunk: Chunk)
  {
    CodeWellFormed(chunk.code, chunk.constant)
  }

  /** CodeWellFormed holds exactly when each instruction is well-formed. */
  lemma {:induction false} CodeWellFormedEvery(code: seq<(OpCode, nat)>, constant: seq<Value>)
    ensures CodeWellFormed(code, constant) <==> forall k | 0 <= k < |code| :: OpWellFormed(code[k].0, constant)
    decreases |code|
  {
    if |code| > 0 {
      var init := code[..|code| - 1];
      CodeWellFormedEvery(init, constant);
      assert forall k | 0 <= k < |init| :: init[k] == code[k];
    }
  }

  /** Appending a well-formed instruction keeps a chunk well-formed. */
  lemma WellFormedPush(chunk: Chunk, op: OpCode, line: nat)
    requires WellFormed(chunk) && OpWellFormed(op, chunk.constant)
    ensures WellFormed(Chunk(chunk.code + [(op, line)], chunk.constant))
  {
    assert (chunk.code + [(op, line)])[..|chunk.code|] == chunk.code;
  }

  /** Growing the pool keeps code well-formed: the pool is only appended to. */
  lemma {:induction false} WellFormedPool(code: seq<(OpCode, nat)>, constant: seq<Value>, v: Value)
    requires CodeWellFormed(code, constant)
    ensures CodeWellFormed(code, constant + [v])
    decreases |code|
  {
    if |code| > 0 {
      WellFormedPool(code[..|code| - 1], constant, v);
      match code[|code| - 1].0
      case DefineGlobal(i) => assert (constant + [v])[i] == constant[i];
      case _ =>
    }
  }
}
