/** The stack machine of src/virtual_machine.rs: a LIFO value stack and a run
    loop that executes Constant and Return instructions of a chunk in order.
    What the loop prints is kept as a log of printed values. */
module VirtualMachine {
  import opened Bytecode

  datatype InterpretResult = InterpretOk | InterpretCompilerError | InterpretRuntimeError

  /** The stack after pushing v. */
  function Pushed(s: seq<Value>, v: Value): (r: seq<Value>)
    ensures |r| == |s| + 1 && r[|s|] == v && r[..|s|] == s
  {
    s + [v]
  }

  /** The stack after popping a non-empty stack. */
  function Popped(s: seq<Value>): (r: seq<Value>)
    requires s != []
    ensures |r| == |s| - 1 && r == s[..|s| - 1]
  {
    s[..|s| - 1]
  }

  function Top(s: seq<Value>): Value
    requires s != []
  {
    s[|s| - 1]
  }

  /** Pushing then popping gives back the value pushed and the stack as it
      was. */
  lemma PopAfterPush(s: seq<Value>, v: Value)
    ensures Top(Pushed(s, v)) == v && Popped(Pushed(s, v)) == s
  {
  }

  /** A pop after a push undoes it for every stack, and a push undoes a pop:
      the two are inverse on non-empty stacks. */
  lemma PushAfterPop(s: seq<Value>)
    requires s != []
    ensures Pushed(Popped(s), Top(s)) == s
  {
  }

  /** The LIFO stack of the machine. */
  class Stack {
    var contents: seq<Value>

    /** The default stack is empty. */
    constructor Default()
      ensures contents == []
    {
      contents := [];
    }

    method Reset()
      modifies this
      ensures contents == []
    {
      contents := [];
    }

    /** pop unwraps the vector's pop, so the stack must not be empty. */
    method Pop() returns (v: Value)
      requires contents != []
      modifies this
      ensures v == Top(old(contents)) && contents == Popped(old(contents))
    {
      v := contents[|contents| - 1];
      contents := contents[..|contents| - 1];
    }

    method Push(v: Value)
      modifies this
      ensures contents == Pushed(old(contents), v)
    {
      contents := contents + [v];
    }
  }

  /** The two instructions the machine executes; the chunk format in
      src/bytecode.rs declares no others. */
  predicate MachineOp(op: OpCode)
  {
    op.Constant? || op.Return?
  }

  predicate MachineCode(code: seq<(OpCode, nat)>)
  {
    forall k | 0 <= k < |code| :: MachineOp(code[k].0)
  }

  /** How a run ends: a result with the final stack and the values printed,
      or a panic from popping an empty stack on Return. */
  datatype Outcome = Finished(result: InterpretResult, stack: seq<Value>, printed: seq<Value>) | Panicked

  /** What run does from instruction pc onwards. */
  function Exec(code: seq<(OpCode, nat)>, constant: seq<Value>, pc: nat, stack: seq<Value>, printed: seq<Value>): (o: Outcome)
    requires pc <= |code| && MachineCode(code)
    ensures o.Finished? ==> printed <= o.printed && |o.printed| <= |printed| + 1
    ensures o.Finished? && |o.printed| == |printed| + 1 ==> o.result == InterpretOk
    decreases |code| - pc
  {
    if pc == |code| then
      Finished(InterpretOk, stack, printed)
    else
      match code[pc].0
      case Return =>
        if stack == [] then Panicked
        else Finished(InterpretOk, Popped(stack), printed + [Top(stack)])
      case Constant(i) =>
        if i < |constant| then Exec(code, constant, pc + 1, Pushed(stack, constant[i]), printed)
        else Finished(InterpretRuntimeError, stack, printed)
  }

  /** The values that a run of in-range Constant instructions pushes. */
  function ConstantsPushed(code: seq<(OpCode, nat)>, constant: seq<Value>): seq<Value>
    requires forall k | 0 <= k < |code| :: code[k].0.Constant? && code[k].0.index < |constant|
  {
    if code == [] then [] else [constant[code[0].0.index]] + ConstantsPushed(code[1..], constant)
  }

  /** run never reports a compile error. */
  lemma {:induction false} NeverCompilerError(code: seq<(OpCode, nat)>, constant: seq<Value>, pc: nat, stack: seq<Value>, printed: seq<Value>)
    requires pc <= |code| && MachineCode(code)
    ensures Exec(code, constant, pc, stack, printed).Finished? ==>
      Exec(code, constant, pc, stack, printed).result != InterpretCompilerError
    decreases |code| - pc
  {
    if pc < |code| && code[pc].0.Constant? && code[pc].0.index < |constant| {
      NeverCompilerError(code, constant, pc + 1, Pushed(stack, constant[code[pc].0.index]), printed);
    }
  }

  /** Return on a non-empty stack pops and prints the top value and stops:
      the instructions after it do not matter. */
  lemma ReturnStops(code: seq<(OpCode, nat)>, rest: seq<(OpCode, nat)>, constant: seq<Value>, pc: nat, stack: seq<Value>, printed: seq<Value>)
    requires pc < |code| && MachineCode(code) && MachineCode(rest) && code[pc].0 == Return && stack != []
    ensures Exec(code, constant, pc, stack, printed) == Finished(InterpretOk, Popped(stack), printed + [Top(stack)])
    ensures Exec(code[..pc + 1] + rest, constant, pc, stack, printed) == Exec(code, constant, pc, stack, printed)
  {
    var c := code[..pc + 1] + rest;
    assert c[pc] == code[pc];
  }

  /** A Constant whose index is out of range stops the run with a runtime
      error and leaves the stack as it was. */
  lemma BadConstantStops(code: seq<(OpCode, nat)>, constant: seq<Value>, pc: nat, stack: seq<Value>, printed: seq<Value>)
    requires pc < |code| && MachineCode(code) && code[pc].0.Constant? && code[pc].0.index >= |constant|
    ensures Exec(code, constant, pc, stack, printed) == Finished(InterpretRuntimeError, stack, printed)
  {
  }

  /** A run only panics when a Return meets an empty stack, and a Constant
      only ever grows the stack: so a run that starts with a value on the
      stack never panics. */
  lemma {:induction false} NonEmptyNeverPanics(code: seq<(OpCode, nat)>, constant: seq<Value>, pc: nat, stack: seq<Value>, printed: seq<Value>)
    requires pc <= |code| && MachineCode(code) && stack != []
    ensures Exec(code, constant, pc, stack, printed).Finished?
    decreases |code| - pc
  {
    if pc < |code| && code[pc].0.Constant? && code[pc].0.index < |constant| {
      NonEmptyNeverPanics(code, constant, pc + 1, Pushed(stack, constant[code[pc].0.index]), printed);
    }
  }

  /** From an empty stack a run panics exactly when the first instruction it
      executes is Return. */
  lemma PanicsIffLeadingReturn(code: seq<(OpCode, nat)>, constant: seq<Value>, pc: nat, printed: seq<Value>)
    requires pc <= |code| && MachineCode(code)
    ensures Exec(code, constant, pc, [], printed).Panicked? <==> (pc < |code| && code[pc].0 == Return)
  {
    if pc < |code| && code[pc].0.Constant? && code[pc].0.index < |constant| {
      NonEmptyNeverPanics(code, constant, pc + 1, Pushed([], constant[code[pc].0.index]), printed);
    }
  }

  /** Code made only of in-range Constants runs off its end with InterpretOk,
      having pushed every constant it names, in order, and printed nothing. */
  lemma {:induction false} ConstantsRunInOrder(code: seq<(OpCode, nat)>, constant: seq<Value>, stack: seq<Value>, printed: seq<Value>)
    requires forall k | 0 <= k < |code| :: code[k].0.Constant? && code[k].0.index < |constant|
    ensures MachineCode(code)
    ensures Exec(code, constant, 0, stack, printed) == Finished(InterpretOk, stack + ConstantsPushed(code, constant), printed)
    decreases |code|
  {
    if code != [] {
      ConstantsRunInOrder(code[1..], constant, Pushed(stack, constant[code[0].0.index]), printed);
      ExecShift(code, constant, 1, Pushed(stack, constant[code[0].0.index]), printed);
      assert stack + ConstantsPushed(code, constant) == Pushed(stack, constant[code[0].0.index]) + ConstantsPushed(code[1..], constant);
    }
  }

  /** Running from pc is running the code with its first pc instructions
      dropped. */
  lemma {:induction false} ExecShift(code: seq<(OpCode, nat)>, constant: seq<Value>, pc: nat, stack: seq<Value>, printed: seq<Value>)
    requires pc <= |code| && MachineCode(code)
    ensures MachineCode(code[pc..])
    ensures Exec(code, constant, pc, stack, printed) == Exec(code[pc..], constant, 0, stack, printed)
    decreases |code| - pc
  {
    assert forall k | 0 <= k < |code[pc..]| :: code[pc..][k] == code[pc + k];
    if pc < |code| && code[pc].0.Constant? && code[pc].0.index < |constant| {
      ExecShift(code, constant, pc + 1, Pushed(stack, constant[code[pc].0.index]), printed);
      ExecShift(code[pc..], constant, 1, Pushed(stack, constant[code[pc].0.index]), printed);
      assert code[pc..][1..] == code[pc + 1..];
    }
  }

  class VirtualMachine {
    var chunk: Chunk
    const stack: Stack
    /** The values printed by Return, in order. */
    var printed: seq<Value>

    constructor (chunk: Chunk)
      ensures this.chunk == chunk && stack.contents == [] && printed == []
    {
      this.chunk := chunk;
      stack := new Stack.Default();
      printed := [];
    }

    /** run: executes the chunk's instructions in order, each at most once,
        stopping at the first Return or bad constant index. */
    method Run() returns (result: InterpretResult)
      requires MachineCode(chunk.code)
      requires Exec(chunk.code, chunk.constant, 0, stack.contents, printed).Finished?
      modifies stack, this`printed
      ensures Exec(old(chunk.code), old(chunk.constant), 0, old(stack.contents), old(printed))
        == Finished(result, stack.contents, printed)
    {
      var code := chunk.code;
      var constants := chunk.constant;
      for pc := 0 to |code|
        invariant Exec(code, constants, 0, old(stack.contents), old(printed))
          == Exec(code, constants, pc, stack.contents, printed)
      {
        match code[pc].0
        case Return =>
          var v := stack.Pop();
          printed := printed + [v];
          return InterpretOk;
        case Constant(index) =>
          if index < |constants| {
            stack.Push(constants[index]);
          } else {
            return InterpretRuntimeError;
          }
      }
      return InterpretOk;
    }

    /** interpret: run without execution tracing. */
    method Interpret() returns (result: InterpretResult)
      requires MachineCode(chunk.code)
      requires Exec(chunk.code, chunk.constant, 0, stack.contents, printed).Finished?
      modifies stack, this`printed
      ensures Exec(old(chunk.code), old(chunk.constant), 0, old(stack.contents), old(printed))
        == Finished(result, stack.contents, printed)
      ensures result != InterpretCompilerError
    {
      NeverCompilerError(chunk.code, chunk.constant, 0, stack.contents, printed);
      result := Run();
    }
  }
}
