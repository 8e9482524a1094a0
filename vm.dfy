/**
 * The stack machine that runs compiled queries.  The machine keeps a value
 * stack (its top is the last element) and a program counter; each
 * instruction pops its operands, pushes its result, or moves the counter.
 *
 * `Step` is one instruction; `Run` is the fetch-execute loop with jumps
 * landing on their target, and `RunAsWritten` is the loop as the source
 * writes it, where the counter is advanced once more after every jump.
 * The loop may not terminate, so both carry fuel.
 */
module Vm {
  import opened Errors
  import opened Value
  import opened Text
  import CoreOps
  import Evaluator
  import opened Bytecode

  // ---------------------------------------------------------------------
  // Collection operations as the machine performs them: unlike the tree
  // evaluator's, they do not look through metadata wrappers.

  /** The first element of a vector or list; nil for an empty one and for anything else. */
  function VmFirst(coll: EdnValue): EdnValue
  {
    if (coll.Vector? || coll.List?) && coll.items != [] then coll.items[0] else Nil
  }

  /** The last element of a vector or list; nil for an empty one and for anything else. */
  function VmLast(coll: EdnValue): EdnValue
  {
    if (coll.Vector? || coll.List?) && coll.items != [] then coll.items[|coll.items| - 1] else Nil
  }

  /** Everything after the first element, keeping the vector or list kind; an empty vector otherwise. */
  function VmRest(coll: EdnValue): (r: EdnValue)
    ensures r.Vector? || r.List?
    ensures r.List? <==> coll.List?
    ensures (coll.Vector? || coll.List?) && coll.items != [] ==> [coll.items[0]] + r.items == coll.items
    ensures !((coll.Vector? || coll.List?) && coll.items != []) ==> r.items == []
  {
    if coll.Vector? then Vector(if coll.items == [] then [] else coll.items[1..])
    else if coll.List? then EdnValue.List(if coll.items == [] then [] else coll.items[1..])
    else Vector([])
  }

  /** The first `min(n, len)` elements of a vector or list, keeping its kind; an empty vector otherwise. */
  function VmTake(coll: EdnValue, n: nat): (r: EdnValue)
    ensures r.Vector? || r.List?
    ensures r.List? <==> coll.List?
    ensures (coll.Vector? || coll.List?) ==> |r.items| == Min(n, |coll.items|) && r.items <= coll.items
    ensures !(coll.Vector? || coll.List?) ==> r.items == []
  {
    if coll.Vector? then Vector(if n <= |coll.items| then coll.items[..n] else coll.items)
    else if coll.List? then EdnValue.List(if n <= |coll.items| then coll.items[..n] else coll.items)
    else Vector([])
  }

  /** What is left of a vector or list after the first `n` elements, keeping its kind; an empty vector otherwise. */
  function VmDrop(coll: EdnValue, n: nat): (r: EdnValue)
    ensures r.Vector? || r.List?
    ensures r.List? <==> coll.List?
    ensures (coll.Vector? || coll.List?) ==> |r.items| == |coll.items| - Min(n, |coll.items|)
    ensures !(coll.Vector? || coll.List?) ==> r.items == []
  {
    if coll.Vector? then Vector(if n <= |coll.items| then coll.items[n..] else [])
    else if coll.List? then EdnValue.List(if n <= |coll.items| then coll.items[n..] else [])
    else Vector([])
  }

  /** Taking and dropping the same count splits a vector or list. */
  lemma TakeDropSplit(coll: EdnValue, n: nat)
    requires coll.Vector? || coll.List?
    ensures VmTake(coll, n).items + VmDrop(coll, n).items == coll.items
  {
    if n <= |coll.items| {
      assert coll.items[..n] + coll.items[n..] == coll.items;
    }
  }

  /** On a bare vector or list the machine's operations are the tree evaluator's. */
  lemma AgreesWithEvaluator(coll: EdnValue, n: nat)
    requires !coll.WithMetadata?
    ensures VmFirst(coll) == Evaluator.OrNil(Value.First(coll))
    ensures VmLast(coll) == Evaluator.OrNil(Value.Last(coll))
    ensures VmRest(coll) == Evaluator.RestOf(coll)
    ensures VmTake(coll, n) == Evaluator.TakeColl(coll, n)
    ensures VmDrop(coll, n) == Evaluator.DropColl(coll, n)
  {
  }

  /** Under a metadata wrapper the two part ways: the machine sees no collection at all. */
  lemma MetadataHidesCollection(meta: EdnValue, items: seq<EdnValue>)
    requires items != []
    ensures VmFirst(WithMetadata(meta, Vector(items))) == Nil
    ensures Evaluator.OrNil(Value.First(WithMetadata(meta, Vector(items)))) == items[0]
    ensures VmRest(WithMetadata(meta, Vector(items))) == Vector([])
    ensures Evaluator.RestOf(WithMetadata(meta, Vector(items))) == Vector(items[1..])
  {
  }

  // ---------------------------------------------------------------------
  // Instruction classes

  /** How an instruction uses the stack. */
  datatype Kind =
    | OneOperand      // pops one value and pushes one result; never fails once it has the value
    | TwoOperands     // pops an operand, then the value under it, and pushes one result
    | Conditional     // pops a condition and may jump
    | Unconditional   // jumps
    | Unimplemented   // always fails
    | Shuffle         // pushes a constant, pops, duplicates, or does nothing

  function KindOf(op: OpCode): Kind
  {
    match op
    case Push(_) => Shuffle
    case Pop => Shuffle
    case Dup => Shuffle
    case Identity => Shuffle
    case Get => TwoOperands
    case GetIn => TwoOperands
    case KeywordGet(_) => OneOperand
    case First => OneOperand
    case Last => OneOperand
    case Rest => OneOperand
    case Take => TwoOperands
    case Drop => TwoOperands
    case Nth => TwoOperands
    case Count => OneOperand
    case Keys => OneOperand
    case Vals => OneOperand
    case Filter => TwoOperands
    case Map => TwoOperands
    case Remove => TwoOperands
    case SelectKeys => TwoOperands
    case IsNil => OneOperand
    case IsEmpty => OneOperand
    case Contains => TwoOperands
    case IsNumber => OneOperand
    case IsString => OneOperand
    case IsKeyword => OneOperand
    case IsBoolean => OneOperand
    case Equal => TwoOperands
    case LessThan => TwoOperands
    case GreaterThan => TwoOperands
    case LessEqual => TwoOperands
    case GreaterEqual => TwoOperands
    case Jump(_) => Unconditional
    case JumpIfFalse(_) => Conditional
    case JumpIfTrue(_) => Conditional
    case Reduce => Unimplemented
    case Apply => Unimplemented
    case GroupBy => Unimplemented
    case Frequencies => OneOperand
    case Call(_) => Unimplemented
    case Return => Unimplemented
  }

  predicate IsUnary(op: OpCode) { KindOf(op) == OneOperand }

  predicate IsBinary(op: OpCode) { KindOf(op) == TwoOperands }

  predicate IsBranch(op: OpCode) { KindOf(op) == Conditional }

  /** Instructions the machine does not implement. */
  predicate IsPlaceholder(op: OpCode) { KindOf(op) == Unimplemented }

  predicate IsOrdering(op: OpCode)
  {
    op.LessThan? || op.GreaterThan? || op.LessEqual? || op.GreaterEqual?
  }

  /** Instructions that report a missing operand. */
  predicate Pops(op: OpCode)
  {
    IsUnary(op) || IsBinary(op) || IsBranch(op)
  }

  /** How many values an instruction takes from the stack. */
  function Arity(op: OpCode): (n: nat)
    ensures n <= 2
    ensures n == 2 <==> IsBinary(op)
  {
    if IsBinary(op) then 2 else if IsUnary(op) || IsBranch(op) || op.Pop? then 1 else 0
  }

  /** How many values an instruction leaves on the stack in place of those it took. */
  function Yield(op: OpCode): (n: nat)
    ensures n <= 1
  {
    if IsUnary(op) || IsBinary(op) || op.Push? || op.Dup? then 1 else 0
  }

  /** The name a popping instruction reports in its runtime errors. */
  function OpName(op: OpCode): string
    requires Pops(op)
  {
    if op.Get? then "get" else if op.GetIn? then "get-in" else if op.KeywordGet? then "keyword-get"
    else if op.First? then "first" else if op.Last? then "last" else if op.Rest? then "rest"
    else if op.Take? then "take" else if op.Drop? then "drop" else if op.Nth? then "nth"
    else if op.Count? then "count" else if op.Keys? then "keys" else if op.Vals? then "vals"
    else if op.Filter? then "filter" else if op.Map? then "map" else if op.Remove? then "remove"
    else if op.SelectKeys? then "select-keys" else if op.IsNil? then "nil?" else if op.IsEmpty? then "empty?"
    else if op.Contains? then "contains?" else if op.IsNumber? then "number?" else if op.IsString? then "string?"
    else if op.IsKeyword? then "keyword?" else if op.IsBoolean? then "boolean?" else if op.Equal? then "="
    else if op.LessThan? then "<" else if op.GreaterThan? then ">" else if op.LessEqual? then "<="
    else if op.GreaterEqual? then ">=" else if op.JumpIfFalse? then "jump-if-false"
    else if op.JumpIfTrue? then "jump-if-true" else "frequencies"
  }

  /** The message when the stack is empty: it names the operand popped first. */
  function TopMissing(op: OpCode): string
    requires Pops(op)
  {
    if op.Get? || op.Contains? then "Missing key"
    else if op.GetIn? then "Missing path"
    else if op.KeywordGet? then "Missing target"
    else if op.First? || op.Last? || op.Rest? || op.Count? || op.Frequencies? then "Missing collection"
    else if op.Take? || op.Drop? then "Missing count"
    else if op.Nth? then "Missing index"
    else if op.Keys? || op.Vals? then "Missing map"
    else if op.Filter? || op.Remove? then "Missing predicate"
    else if op.Map? then "Missing function"
    else if op.SelectKeys? then "Missing keys"
    else if op.Equal? then "Missing expected value"
    else if IsOrdering(op) then "Missing right operand"
    else if IsBranch(op) then "Missing condition"
    else "Missing value"
  }

  /** The message when a two-operand instruction finds only one value: it names the operand under the top. */
  function UnderMissing(op: OpCode): string
    requires IsBinary(op)
  {
    if op.Get? || op.GetIn? then "Missing target"
    else if op.SelectKeys? then "Missing map"
    else if op.Equal? then "Missing actual value"
    else if IsOrdering(op) then "Missing left operand"
    else "Missing collection"
  }

  /** The placeholder instructions' names as the error message spells them. */
  function PlaceholderName(op: OpCode): string
    requires IsPlaceholder(op)
  {
    if op.Reduce? then "Reduce" else if op.Apply? then "Apply" else if op.GroupBy? then "GroupBy"
    else if op.Call? then "Call(" + NatToString(op.arity) + ")" else "Return"
  }

  // ---------------------------------------------------------------------
  // One instruction

  /** The result a one-operand instruction pushes in place of `v`. */
  function Unary(op: OpCode, v: EdnValue): EdnValue
    requires IsUnary(op)
  {
    if op.KeywordGet? then Evaluator.OrNil(Value.Get(v, Keyword(op.name)))
    else if op.First? then VmFirst(v)
    else if op.Last? then VmLast(v)
    else if op.Rest? then VmRest(v)
    else if op.Count? then Integer(Evaluator.CountOr0(v))
    else if op.Keys? then Evaluator.KeysOf(v)
    else if op.Vals? then Evaluator.ValsOf(v)
    else if op.IsNil? then Bool(v.Nil?)
    else if op.IsEmpty? then Bool(Value.Count(v) == Some(0))
    else if op.IsNumber? then Bool(CoreOps.IsNumber(v))
    else if op.IsString? then Bool(v.Str?)
    else if op.IsKeyword? then Bool(v.Keyword?)
    else if op.IsBoolean? then Bool(v.Bool?)
    else Evaluator.FrequenciesOf(v)
  }

  function OrderOf(op: OpCode): Evaluator.Order
    requires IsOrdering(op)
  {
    if op.LessThan? then Evaluator.Less
    else if op.GreaterThan? then Evaluator.Greater
    else if op.LessEqual? then Evaluator.LessOrEqual
    else Evaluator.GreaterOrEqual
  }

  /** The result a two-operand instruction pushes, from the value `under` the operand `top`. */
  function Binary(op: OpCode, under: EdnValue, top: EdnValue): Result<EdnValue>
    requires IsBinary(op)
  {
    if op.Get? then Ok(Evaluator.OrNil(Value.Get(under, top)))
    else if op.GetIn? then
      (if top.Vector? then Ok(Evaluator.OrNil(Value.GetIn(under, top.items)))
       else Err(TypeError("vector", TypeName(top))))
    else if op.Take? then
      (if !top.Integer? then Err(TypeError("integer", TypeName(top)))
       else if top.i < 0 then Ok(Vector([]))
       else Ok(VmTake(under, top.i)))
    else if op.Drop? then
      (if !top.Integer? then Err(TypeError("integer", TypeName(top)))
       else if top.i < 0 then Ok(under)
       else Ok(VmDrop(under, top.i)))
    else if op.Nth? then Evaluator.NthOf(top, under)
    else if op.Filter? || op.Map? || op.Remove? then Ok(under)
    else if op.SelectKeys? then
      Ok(if under.Map? && top.Vector? then Evaluator.SelectKeysOf(under, top.items) else EdnValue.Map([]))
    else if op.Contains? then Ok(Bool(Evaluator.ContainsKey(under, top)))
    else if op.Equal? then Ok(Bool(under == top))
    else Evaluator.Ordered(OrderOf(op), under, top)
  }

  /** What a successful instruction does: continue with the next one, or jump. */
  datatype Effect = Next(stack: seq<EdnValue>) | JumpTo(stack: seq<EdnValue>, target: nat)

  function Top(stack: seq<EdnValue>): EdnValue
    requires stack != []
  {
    stack[|stack| - 1]
  }

  function Popped(stack: seq<EdnValue>): seq<EdnValue>
    requires stack != []
  {
    stack[..|stack| - 1]
  }

  function UnaryStep(op: OpCode, stack: seq<EdnValue>): Result<Effect>
    requires IsUnary(op)
  {
    if stack == [] then Err(RuntimeError(OpName(op), TopMissing(op)))
    else Ok(Next(Popped(stack) + [Unary(op, Top(stack))]))
  }

  function BinaryStep(op: OpCode, stack: seq<EdnValue>): Result<Effect>
    requires IsBinary(op)
  {
    if stack == [] then Err(RuntimeError(OpName(op), TopMissing(op)))
    else if |stack| == 1 then Err(RuntimeError(OpName(op), UnderMissing(op)))
    else
      var v :- Binary(op, stack[|stack| - 2], Top(stack));
      Ok(Next(stack[..|stack| - 2] + [v]))
  }

  function BranchStep(op: OpCode, stack: seq<EdnValue>): Result<Effect>
    requires IsBranch(op)
  {
    if stack == [] then Err(RuntimeError(OpName(op), TopMissing(op)))
    else if IsTruthy(Top(stack)) == op.JumpIfTrue? then Ok(JumpTo(Popped(stack), op.target))
    else Ok(Next(Popped(stack)))
  }

  /** One instruction on a stack, with the query's constant pool.  A `Push` past the pool is a panic, so it is excluded. */
  function Step(op: OpCode, stack: seq<EdnValue>, constants: seq<EdnValue>): Result<Effect>
    requires op.Push? ==> op.index < |constants|
  {
    match KindOf(op)
    case OneOperand => UnaryStep(op, stack)
    case TwoOperands => BinaryStep(op, stack)
    case Conditional => BranchStep(op, stack)
    case Unconditional => Ok(JumpTo(stack, op.target))
    case Unimplemented => Err(QueryError("Operation " + PlaceholderName(op) + " not yet implemented"))
    case Shuffle =>
      if op.Push? then Ok(Next(stack + [constants[op.index]]))
      else if op.Pop? then Ok(Next(if stack == [] then [] else Popped(stack)))
      else if op.Dup? then Ok(Next(if stack == [] then [] else stack + [Top(stack)]))
      else Ok(Next(stack))
  }

  /** Which helper each kind of instruction runs. */
  lemma StepKinds(op: OpCode, stack: seq<EdnValue>, constants: seq<EdnValue>)
    requires op.Push? ==> op.index < |constants|
    ensures IsUnary(op) ==> Step(op, stack, constants) == UnaryStep(op, stack)
    ensures IsBinary(op) ==> Step(op, stack, constants) == BinaryStep(op, stack)
    ensures IsBranch(op) ==> Step(op, stack, constants) == BranchStep(op, stack)
  {
  }

  /** A successful two-operand instruction replaces its operands by one result and leaves everything under them alone. */
  lemma BinaryFrame(op: OpCode, stack: seq<EdnValue>, constants: seq<EdnValue>)
    requires IsBinary(op) && Step(op, stack, constants).Ok?
    ensures |stack| >= 2
    ensures Step(op, stack, constants).value ==
              Next(stack[..|stack| - 2] + [Binary(op, stack[|stack| - 2], Top(stack)).value])
  {
    StepKinds(op, stack, constants);
  }

  /** A successful instruction replaces exactly its operands by its result and leaves everything under them alone. */
  lemma StepFrame(op: OpCode, stack: seq<EdnValue>, constants: seq<EdnValue>)
    requires op.Push? ==> op.index < |constants|
    requires Step(op, stack, constants).Ok?
    requires (op.Pop? || op.Dup?) ==> stack != []
    ensures Arity(op) <= |stack|
    ensures |Step(op, stack, constants).value.stack| == |stack| - Arity(op) + Yield(op)
    ensures Step(op, stack, constants).value.stack[..|stack| - Arity(op)] == stack[..|stack| - Arity(op)]
  {
    var r := Step(op, stack, constants).value.stack;
    var k := |stack| - Arity(op);
    if IsBinary(op) {
      BinaryFrame(op, stack, constants);
      assert r[..k] == stack[..k];
    } else if IsUnary(op) || op.Push? || op.Dup? {
      assert r[..k] == stack[..k];
    }
  }

  /** Only jumps move the counter anywhere but to the next instruction. */
  lemma StepJumps(op: OpCode, stack: seq<EdnValue>, constants: seq<EdnValue>)
    requires op.Push? ==> op.index < |constants|
    requires Step(op, stack, constants).Ok?
    ensures Step(op, stack, constants).value.JumpTo? ==> IsJump(op) && Step(op, stack, constants).value.target == op.target
    ensures op.Jump? ==> Step(op, stack, constants).value == JumpTo(stack, op.target)
    ensures op.JumpIfFalse? ==>
              (Step(op, stack, constants).value ==
               if IsTruthy(Top(stack)) then Next(Popped(stack)) else JumpTo(Popped(stack), op.target))
    ensures op.JumpIfTrue? ==>
              (Step(op, stack, constants).value ==
               if IsTruthy(Top(stack)) then JumpTo(Popped(stack), op.target) else Next(Popped(stack)))
  {
  }

  /** An empty stack fails every popping instruction with the name of the operand popped first. */
  lemma StepEmptyStack(op: OpCode, constants: seq<EdnValue>)
    requires op.Push? ==> op.index < |constants|
    requires Pops(op)
    ensures Step(op, [], constants) == Err(RuntimeError(OpName(op), TopMissing(op)))
  {
    StepKinds(op, [], constants);
  }

  /** A single value fails every two-operand instruction with the name of the operand under the top. */
  lemma StepSingleValue(op: OpCode, v: EdnValue, constants: seq<EdnValue>)
    requires IsBinary(op)
    ensures Step(op, [v], constants) == Err(RuntimeError(OpName(op), UnderMissing(op)))
  {
    StepKinds(op, [v], constants);
  }

  /** When an instruction fails: it is unimplemented, its operands are missing, or they have the wrong types. */
  lemma StepFails(op: OpCode, stack: seq<EdnValue>, constants: seq<EdnValue>)
    requires op.Push? ==> op.index < |constants|
    ensures Step(op, stack, constants).Err? <==>
              IsPlaceholder(op) || (Pops(op) && |stack| < Arity(op)) ||
              (IsBinary(op) && |stack| >= 2 && Binary(op, stack[|stack| - 2], Top(stack)).Err?)
  {
    StepKinds(op, stack, constants);
  }

  /** `get-in` needs a vector path; `take`, `drop` and `nth` an integer count or index. */
  lemma OperandTypeErrors(op: OpCode, under: EdnValue, top: EdnValue)
    requires op.GetIn? || op.Take? || op.Drop? || op.Nth?
    ensures op.GetIn? ==> (Binary(op, under, top).Err? <==> !top.Vector?)
    ensures op.GetIn? && !top.Vector? ==> Binary(op, under, top) == Err(TypeError("vector", TypeName(top)))
    ensures !op.GetIn? ==> (Binary(op, under, top).Err? <==> !top.Integer?)
    ensures !op.GetIn? && !top.Integer? ==> Binary(op, under, top) == Err(TypeError("integer", TypeName(top)))
  {
  }

  /** The orderings fail exactly when the two values cannot be compared, with the comparison's error. */
  lemma OrderingFails(op: OpCode, under: EdnValue, top: EdnValue)
    requires IsOrdering(op)
    ensures Binary(op, under, top).Err? <==> CoreOps.CompareValues(under, top).Err?
    ensures Binary(op, under, top).Err? ==> Binary(op, under, top).error == CoreOps.CompareValues(under, top).error
    ensures Binary(op, under, top).Ok? ==> Binary(op, under, top).value.Bool?
  {
  }

  /** The other two-operand instructions accept any operands. */
  lemma BinaryTotal(op: OpCode, under: EdnValue, top: EdnValue)
    requires IsBinary(op) && !(op.GetIn? || op.Take? || op.Drop? || op.Nth? || IsOrdering(op))
    ensures Binary(op, under, top).Ok?
  {
  }

  /** `Push` copies a constant onto the stack. */
  lemma PushStep(i: nat, stack: seq<EdnValue>, constants: seq<EdnValue>)
    requires i < |constants|
    ensures Step(Push(i), stack, constants) == Ok(Next(stack + [constants[i]]))
  {
  }

  /** `JumpIfFalse` pops the condition and jumps exactly when it is falsy. */
  lemma JumpIfFalseStep(t: nat, stack: seq<EdnValue>, c: EdnValue, constants: seq<EdnValue>)
    ensures Step(JumpIfFalse(t), stack + [c], constants) ==
            Ok(if IsTruthy(c) then Next(stack) else JumpTo(stack, t))
  {
    assert Popped(stack + [c]) == stack;
  }

  /** `filter`, `map` and `remove` are placeholders: the collection comes back unchanged. */
  lemma PlaceholderBinaries(op: OpCode, stack: seq<EdnValue>, coll: EdnValue, f: EdnValue, constants: seq<EdnValue>)
    requires op.Filter? || op.Map? || op.Remove?
    ensures Step(op, stack + [coll, f], constants) == Ok(Next(stack + [coll]))
  {
    assert (stack + [coll, f])[..|stack|] == stack;
  }

  /** The unimplemented instructions fail whatever the stack holds. */
  lemma PlaceholdersFail(op: OpCode, stack: seq<EdnValue>, constants: seq<EdnValue>)
    requires IsPlaceholder(op)
    ensures Step(op, stack, constants) == Err(QueryError("Operation " + PlaceholderName(op) + " not yet implemented"))
  {
  }

  /** `Take` and `Drop` after a negative count: nothing, and everything, respectively. */
  lemma NegativeCounts(coll: EdnValue, n: int)
    requires n < 0
    ensures Binary(OpCode.Take, coll, Integer(n)) == Ok(Vector([]))
    ensures Binary(OpCode.Drop, coll, Integer(n)) == Ok(coll)
  {
  }

  /** On a bare collection the machine's `take`, `drop` and `nth` are the tree evaluator's. */
  lemma IndexedAgree(coll: EdnValue, n: EdnValue)
    requires !coll.WithMetadata?
    ensures Binary(OpCode.Take, coll, n) == Evaluator.TakeOf(n, coll)
    ensures Binary(OpCode.Drop, coll, n) == Evaluator.DropOf(n, coll)
    ensures Binary(OpCode.Nth, coll, n) == Evaluator.NthOf(n, coll)
  {
  }

  // ---------------------------------------------------------------------
  // The fetch-execute loop

  /** Where a run stopped: the final stack and counter. */
  datatype Machine = Machine(stack: seq<EdnValue>, pc: nat)

  /** The loop with jumps landing on their target: what the machine is evidently meant to do. */
  function Run(code: seq<OpCode>, constants: seq<EdnValue>, stack: seq<EdnValue>, pc: nat, fuel: nat): Result<Machine>
    requires ValidPushes(code, constants)
    decreases fuel
  {
    if pc >= |code| then Ok(Machine(stack, pc))
    else if fuel == 0 then Err(OutOfFuel)
    else
      PushesAt(code, 0, |constants|, pc);
      var eff :- Step(code[pc], stack, constants);
      Run(code, constants, eff.stack, if eff.JumpTo? then eff.target else pc + 1, fuel - 1)
  }

  /** The loop as written: after a jump sets the counter, the loop advances it once more. */
  function RunAsWritten(code: seq<OpCode>, constants: seq<EdnValue>, stack: seq<EdnValue>, pc: nat, fuel: nat): Result<Machine>
    requires ValidPushes(code, constants)
    decreases fuel
  {
    if pc >= |code| then Ok(Machine(stack, pc))
    else if fuel == 0 then Err(OutOfFuel)
    else
      PushesAt(code, 0, |constants|, pc);
      var eff :- Step(code[pc], stack, constants);
      RunAsWritten(code, constants, eff.stack, (if eff.JumpTo? then eff.target else pc) + 1, fuel - 1)
  }

  /** The answer of a run: the top of the final stack, or nil when it is empty. */
  function Outcome(m: Result<Machine>): (r: Result<EdnValue>)
    ensures m.Err? <==> r.Err?
    ensures m.Err? ==> r.error == m.error
    ensures m.Ok? && m.value.stack == [] ==> r == Ok(Nil)
    ensures m.Ok? && m.value.stack != [] ==> r == Ok(m.value.stack[|m.value.stack| - 1])
  {
    if m.Err? then Err(m.error) else if m.value.stack == [] then Ok(Nil) else Ok(Top(m.value.stack))
  }

  /** One turn of the loop. */
  lemma RunUnfold(code: seq<OpCode>, constants: seq<EdnValue>, stack: seq<EdnValue>, pc: nat, fuel: nat)
    requires ValidPushes(code, constants) && pc < |code| && fuel > 0
    ensures code[pc].Push? ==> code[pc].index < |constants|
    ensures Step(code[pc], stack, constants).Err? ==>
              Run(code, constants, stack, pc, fuel) == Err(Step(code[pc], stack, constants).error)
    ensures Step(code[pc], stack, constants).Ok? ==>
              Run(code, constants, stack, pc, fuel) ==
              Run(code, constants, Step(code[pc], stack, constants).value.stack,
                  if Step(code[pc], stack, constants).value.JumpTo? then Step(code[pc], stack, constants).value.target else pc + 1,
                  fuel - 1)
  {
    PushesAt(code, 0, |constants|, pc);
  }

  /** One turn of the loop, given what the instruction does. */
  lemma RunNext(code: seq<OpCode>, constants: seq<EdnValue>, stack: seq<EdnValue>, pc: nat, fuel: nat, eff: Effect)
    requires ValidPushes(code, constants) && pc < |code| && fuel > 0
    requires code[pc].Push? ==> code[pc].index < |constants|
    requires Step(code[pc], stack, constants) == Ok(eff)
    ensures Run(code, constants, stack, pc, fuel) ==
            Run(code, constants, eff.stack, if eff.JumpTo? then eff.target else pc + 1, fuel - 1)
  {
  }

  /** A failing instruction ends the run with its error. */
  lemma RunFails(code: seq<OpCode>, constants: seq<EdnValue>, stack: seq<EdnValue>, pc: nat, fuel: nat, error: Error)
    requires ValidPushes(code, constants) && pc < |code| && fuel > 0
    requires code[pc].Push? ==> code[pc].index < |constants|
    requires Step(code[pc], stack, constants) == Err(error)
    ensures Run(code, constants, stack, pc, fuel) == Err(error)
  {
  }

  /** The same turn as written. */
  lemma AsWrittenNext(code: seq<OpCode>, constants: seq<EdnValue>, stack: seq<EdnValue>, pc: nat, fuel: nat, eff: Effect)
    requires ValidPushes(code, constants) && pc < |code| && fuel > 0
    requires code[pc].Push? ==> code[pc].index < |constants|
    requires Step(code[pc], stack, constants) == Ok(eff)
    ensures RunAsWritten(code, constants, stack, pc, fuel) ==
            RunAsWritten(code, constants, eff.stack, (if eff.JumpTo? then eff.target else pc) + 1, fuel - 1)
  {
  }

  /** A run that finishes within some fuel finishes the same way with more. */
  lemma {:induction false} RunMoreFuel(code: seq<OpCode>, constants: seq<EdnValue>, stack: seq<EdnValue>, pc: nat, fuel: nat, more: nat)
    requires ValidPushes(code, constants)
    requires Run(code, constants, stack, pc, fuel).Ok? && fuel <= more
    ensures Run(code, constants, stack, pc, more) == Run(code, constants, stack, pc, fuel)
    decreases fuel
  {
    if pc < |code| {
      PushesAt(code, 0, |constants|, pc);
      var eff := Step(code[pc], stack, constants).value;
      RunMoreFuel(code, constants, eff.stack, if eff.JumpTo? then eff.target else pc + 1, fuel - 1, more - 1);
    }
  }

  predicate NoJumps(code: seq<OpCode>)
  {
    forall i :: 0 <= i < |code| ==> !IsJump(code[i])
  }

  /** Without jumps the extra advance never happens, and the loop as written is the intended one. */
  lemma {:induction false} NoJumpsAgree(code: seq<OpCode>, constants: seq<EdnValue>, stack: seq<EdnValue>, pc: nat, fuel: nat)
    requires ValidPushes(code, constants) && NoJumps(code)
    ensures RunAsWritten(code, constants, stack, pc, fuel) == Run(code, constants, stack, pc, fuel)
    decreases fuel
  {
    if pc < |code| && fuel > 0 {
      PushesAt(code, 0, |constants|, pc);
      var r := Step(code[pc], stack, constants);
      if r.Ok? {
        StepJumps(code[pc], stack, constants);
        NoJumpsAgree(code, constants, r.value.stack, pc + 1, fuel - 1);
      }
    }
  }

  /** The machine: a value stack and a program counter. */
  class QueryVM {
    var stack: seq<EdnValue>
    var pc: nat

    constructor()
      ensures stack == [] && pc == 0
    {
      stack := [];
      pc := 0;
    }

    /**
     * Execute one instruction: on success the stack is the step's, and a
     * jump sets the counter and reports that it did.  After a failure the
     * stack is left as the partial pops made it, which nothing observes.
     */
    method ExecuteInstruction(op: OpCode, constants: seq<EdnValue>) returns (r: Result<bool>)
      requires op.Push? ==> op.index < |constants|
      modifies this
      ensures Step(op, old(stack), constants).Err? <==> r.Err?
      ensures r.Err? ==> r.error == Step(op, old(stack), constants).error
      ensures r.Ok? ==> stack == Step(op, old(stack), constants).value.stack
      ensures r.Ok? ==> r.value == Step(op, old(stack), constants).value.JumpTo?
      ensures r.Ok? ==> pc == if r.value then Step(op, old(stack), constants).value.target else old(pc)
    {
      var eff := Step(op, stack, constants);
      if eff.Err? {
        return Err(eff.error);
      }
      stack := eff.value.stack;
      if eff.value.JumpTo? {
        pc := eff.value.target;
      }
      r := Ok(eff.value.JumpTo?);
    }

    /** One turn of the loop: execute the instruction at the counter, then advance unless it jumped. */
    method Cycle(code: seq<OpCode>, constants: seq<EdnValue>, ghost fuel: nat) returns (r: Result<()>)
      requires ValidPushes(code, constants) && pc < |code| && fuel > 0
      modifies this
      ensures r.Err? ==> Run(code, constants, old(stack), old(pc), fuel) == Err(r.error)
      ensures r.Ok? ==> Run(code, constants, old(stack), old(pc), fuel) == Run(code, constants, stack, pc, fuel - 1)
    {
      RunUnfold(code, constants, stack, pc, fuel);
      var jumped := ExecuteInstruction(code[pc], constants);
      if jumped.Err? {
        return Err(jumped.error);
      }
      if !jumped.value {
        pc := pc + 1;
      }
      r := Ok(());
    }

    /** The fetch-execute loop: run from the current state until the counter leaves the code. */
    method Loop(code: seq<OpCode>, constants: seq<EdnValue>, fuel: nat) returns (r: Result<()>)
      requires ValidPushes(code, constants)
      modifies this
      ensures r.Err? ==> Run(code, constants, old(stack), old(pc), fuel) == Err(r.error)
      ensures r.Ok? ==> Run(code, constants, old(stack), old(pc), fuel) == Ok(Machine(stack, pc))
    {
      var left: nat := fuel;
      while pc < |code|
        invariant Run(code, constants, old(stack), old(pc), fuel) == Run(code, constants, stack, pc, left)
        decreases left
      {
        if left == 0 {
          return Err(OutOfFuel);
        }
        var turn := Cycle(code, constants, left);
        if turn.Err? {
          return Err(turn.error);
        }
        left := left - 1;
      }
      r := Ok(());
    }

    /**
     * Run a query on an input: start from a stack holding only the input,
     * execute until the counter leaves the code, and pop the answer.
     * A jump lands on its target; `fuel` bounds the number of instructions.
     */
    method Execute(query: CompiledQuery, input: EdnValue, fuel: nat) returns (r: Result<EdnValue>)
      requires ValidPushes(query.bytecode, query.constants)
      modifies this
      ensures r == Outcome(Run(query.bytecode, query.constants, [input], 0, fuel))
      ensures r.Ok? ==> Run(query.bytecode, query.constants, [input], 0, fuel).Ok?
      ensures r.Ok? ==> pc == Run(query.bytecode, query.constants, [input], 0, fuel).value.pc
      ensures r.Ok? ==> stack == Drained(Run(query.bytecode, query.constants, [input], 0, fuel).value.stack)
    {
      stack := [input];
      pc := 0;
      var done := Loop(query.bytecode, query.constants, fuel);
      if done.Err? {
        return Err(done.error);
      }
      if stack == [] {
        r := Ok(Nil);
      } else {
        r := Ok(Top(stack));
        stack := Popped(stack);
      }
    }
  }

  /** The stack once the answer has been popped. */
  function Drained(stack: seq<EdnValue>): seq<EdnValue>
  {
    if stack == [] then [] else Popped(stack)
  }
}
