/**
 * What the machine computes on compiled queries: the compiler's layouts
 * run on the machine give the operations the query tree names, and a
 * conditional with an `else` branch shows the extra advance after a jump.
 */
module VmFacts {
  import opened Errors
  import opened Value
  import opened Bytecode
  import opened Compiler
  import opened CompilerFacts
  import opened Vm

  /** The value an operand-free node's instruction leaves in place of the input. */
  function NullaryValue(e: Expr, v: EdnValue): EdnValue
    requires IsNullary(e)
  {
    NullaryKind(e);
    if e.Identity? then v else Unary(NullaryOp(e), v)
  }

  /** An operand-free node compiles to identity or to a one-operand instruction. */
  lemma NullaryKind(e: Expr)
    requires IsNullary(e)
    ensures e.Identity? ==> NullaryOp(e) == OpCode.Identity
    ensures !e.Identity? ==> IsUnary(NullaryOp(e))
  {
  }

  lemma NullaryCode(e: Expr, base: nat, pool: nat)
    requires IsNullary(e)
    ensures Code(e, base, pool) == Chunk([NullaryOp(e)], [])
  {
    LeafShapes(e, base, pool);
  }

  /** The one-operand instruction of `e` applied to the top of a stack. */
  lemma NullaryStep(e: Expr, v: EdnValue, constants: seq<EdnValue>)
    requires IsNullary(e)
    ensures Step(NullaryOp(e), [v], constants) == Ok(Next([NullaryValue(e, v)]))
  {
    NullaryKind(e);
    StepKinds(NullaryOp(e), [v], constants);
    assert Popped([v]) + [NullaryValue(e, v)] == [NullaryValue(e, v)];
  }

  /** A compiled operand-free node maps the input to the node's value. */
  lemma NullaryRuns(e: Expr, v: EdnValue, fuel: nat)
    requires IsNullary(e) && fuel >= 1
    ensures ValidPushes(Code(e, 0, 0).code, Code(e, 0, 0).consts)
    ensures Run(Code(e, 0, 0).code, Code(e, 0, 0).consts, [v], 0, fuel) == Ok(Machine([NullaryValue(e, v)], 1))
  {
    CompiledQueryValid(e);
    NullaryCode(e, 0, 0);
    var c := Code(e, 0, 0);
    NullaryStep(e, v, c.consts);
    RunUnfold(c.code, c.consts, [v], 0, fuel);
  }

  /** A two-operand instruction whose operand is pushed from the pool just before it. */
  lemma PushThenBinary(op: OpCode, operand: EdnValue, v: EdnValue, fuel: nat)
    requires IsBinary(op) && fuel >= 2
    ensures ValidPushes([Push(0), op], [operand])
    ensures Outcome(Run([Push(0), op], [operand], [v], 0, fuel)) == Binary(op, v, operand)
  {
    var code := [Push(0), op];
    PushPairValid(op, operand);
    PushStep(0, [v], [operand]);
    assert [v] + [operand] == [v, operand];
    RunNext(code, [operand], [v], 0, fuel, Next([v, operand]));
    BinaryStepPair(op, v, operand, [operand]);
    if Binary(op, v, operand).Ok? {
      RunNext(code, [operand], [v, operand], 1, fuel - 1, Next([Binary(op, v, operand).value]));
    } else {
      RunFails(code, [operand], [v, operand], 1, fuel - 1, Binary(op, v, operand).error);
    }
  }

  lemma PushPairValid(op: OpCode, operand: EdnValue)
    requires !op.Push?
    ensures ValidPushes([Push(0), op], [operand])
  {
    Single(Push(0), 0, 1);
    Single(op, 0, 1);
    PushesAppend([Push(0)], [op], 0, 1);
    assert [Push(0)] + [op] == [Push(0), op];
  }

  /** A two-operand instruction on exactly its two operands. */
  lemma BinaryStepPair(op: OpCode, under: EdnValue, top: EdnValue, constants: seq<EdnValue>)
    requires IsBinary(op)
    ensures Binary(op, under, top).Ok? ==> Step(op, [under, top], constants) == Ok(Next([Binary(op, under, top).value]))
    ensures Binary(op, under, top).Err? ==> Step(op, [under, top], constants) == Err(Binary(op, under, top).error)
  {
    StepKinds(op, [under, top], constants);
    if Binary(op, under, top).Ok? {
      assert [under, top][..0] + [Binary(op, under, top).value] == [Binary(op, under, top).value];
    }
  }

  lemma InnerOfLiteral(e: Expr, operand: EdnValue)
    requires HasInner(e) && e.inner == Literal(operand)
    ensures Code(e, 0, 0) == Chunk([Push(0), UnaryOp(e)], [operand])
  {
    var op := UnaryOp(e);
    assert Code(e, 0, 0) == Then(Code(Literal(operand), 0, 0), Chunk([op], []));
    LiteralCode(operand, 0, 0);
    assert [Push(0)] + [op] == [Push(0), op];
  }

  /** A compiled node with a literal operand computes the machine's operation on the input and the literal. */
  lemma LiteralOperandRuns(e: Expr, operand: EdnValue, v: EdnValue, fuel: nat)
    requires HasInner(e) && e.inner == Literal(operand) && IsBinary(UnaryOp(e)) && fuel >= 2
    ensures ValidPushes(Code(e, 0, 0).code, Code(e, 0, 0).consts)
    ensures Outcome(Run(Code(e, 0, 0).code, Code(e, 0, 0).consts, [v], 0, fuel)) == Binary(UnaryOp(e), v, operand)
  {
    InnerOfLiteral(e, operand);
    PushThenBinary(UnaryOp(e), operand, v, fuel);
  }

  /** The `get`, `get-in` and `select-keys` leaves pool their key, path or key vector and apply it to the input. */
  lemma KeyedLeafRuns(e: Expr, v: EdnValue, fuel: nat)
    requires (e.Get? || e.GetIn? || e.SelectKeys?) && fuel >= 2
    ensures ValidPushes(Code(e, 0, 0).code, Code(e, 0, 0).consts)
    ensures e.Get? ==> Outcome(Run(Code(e, 0, 0).code, Code(e, 0, 0).consts, [v], 0, fuel)) ==
                       Ok(Evaluator.OrNil(Value.Get(v, e.key)))
    ensures e.GetIn? ==> Outcome(Run(Code(e, 0, 0).code, Code(e, 0, 0).consts, [v], 0, fuel)) ==
                         Ok(Evaluator.OrNil(Value.GetIn(v, e.path)))
    ensures e.SelectKeys? ==> Outcome(Run(Code(e, 0, 0).code, Code(e, 0, 0).consts, [v], 0, fuel)) ==
                              Ok(if v.Map? then Evaluator.SelectKeysOf(v, e.keys) else EdnValue.Map([]))
  {
    LeafShapes(e, 0, 0);
    if e.Get? {
      PushThenBinary(OpCode.Get, e.key, v, fuel);
    } else if e.GetIn? {
      PushThenBinary(OpCode.GetIn, Vector(e.path), v, fuel);
    } else {
      PushThenBinary(OpCode.SelectKeys, Vector(e.keys), v, fuel);
    }
  }

  lemma PushThenPlaceholder(op: OpCode, operand: EdnValue, v: EdnValue, fuel: nat)
    requires IsPlaceholder(op) && fuel >= 2
    ensures ValidPushes([Push(0), op], [operand])
    ensures Run([Push(0), op], [operand], [v], 0, fuel) ==
            Err(QueryError("Operation " + PlaceholderName(op) + " not yet implemented"))
  {
    var code := [Push(0), op];
    PushPairValid(op, operand);
    PushStep(0, [v], [operand]);
    assert [v] + [operand] == [v, operand];
    RunNext(code, [operand], [v], 0, fuel, Next([v, operand]));
    PlaceholdersFail(op, [v, operand], [operand]);
    RunFails(code, [operand], [v, operand], 1, fuel - 1, QueryError("Operation " + PlaceholderName(op) + " not yet implemented"));
  }

  /** `apply` and `group-by` compile, but the machine refuses to run them. */
  lemma UnimplementedRuns(e: Expr, operand: EdnValue, v: EdnValue, fuel: nat)
    requires (e.Apply? || e.GroupBy?) && e.inner == Literal(operand) && fuel >= 2
    ensures ValidPushes(Code(e, 0, 0).code, Code(e, 0, 0).consts)
    ensures Run(Code(e, 0, 0).code, Code(e, 0, 0).consts, [v], 0, fuel) ==
            Err(QueryError("Operation " + PlaceholderName(UnaryOp(e)) + " not yet implemented"))
  {
    InnerOfLiteral(e, operand);
    PushThenPlaceholder(UnaryOp(e), operand, v, fuel);
  }

  // ---------------------------------------------------------------------
  // The conditional with both branches

  /** The layout of a two-way conditional whose test is one instruction and whose branches push a constant each. */
  function BranchCode(op: OpCode, base: nat, pool: nat): seq<OpCode>
  {
    [op, JumpIfFalse(base + 4), Push(pool), Jump(base + 5), Push(pool + 1)]
  }

  /** The test instruction, then the conditional jump. */
  lemma BranchHead(op: OpCode, a: EdnValue, b: EdnValue, v: EdnValue, c: EdnValue)
    requires !op.Push? && Step(op, [v], [a, b]) == Ok(Next([c]))
    ensures Step(BranchCode(op, 0, 0)[0], [v], [a, b]) == Ok(Next([c]))
    ensures Step(BranchCode(op, 0, 0)[1], [c], [a, b]) == Ok(if IsTruthy(c) then Next([]) else JumpTo([], 4))
  {
    JumpIfFalseStep(4, [], c, [a, b]);
    assert [] + [c] == [c];
  }

  /** The test and the conditional jump: the run continues at the `then` push or at the `else` push. */
  lemma BranchEntry(op: OpCode, a: EdnValue, b: EdnValue, v: EdnValue, c: EdnValue, fuel: nat)
    requires ValidPushes(BranchCode(op, 0, 0), [a, b]) && fuel >= 2
    requires !op.Push? && Step(op, [v], [a, b]) == Ok(Next([c]))
    ensures Run(BranchCode(op, 0, 0), [a, b], [v], 0, fuel) ==
            Run(BranchCode(op, 0, 0), [a, b], [], if IsTruthy(c) then 2 else 4, fuel - 2)
  {
    var code := BranchCode(op, 0, 0);
    BranchHead(op, a, b, v, c);
    RunNext(code, [a, b], [v], 0, fuel, Next([c]));
    RunNext(code, [a, b], [c], 1, fuel - 1, if IsTruthy(c) then Next([]) else JumpTo([], 4));
  }

  lemma AsWrittenEntry(op: OpCode, a: EdnValue, b: EdnValue, v: EdnValue, c: EdnValue, fuel: nat)
    requires ValidPushes(BranchCode(op, 0, 0), [a, b]) && fuel >= 2
    requires !op.Push? && Step(op, [v], [a, b]) == Ok(Next([c]))
    ensures RunAsWritten(BranchCode(op, 0, 0), [a, b], [v], 0, fuel) ==
            RunAsWritten(BranchCode(op, 0, 0), [a, b], [], if IsTruthy(c) then 2 else 5, fuel - 2)
  {
    var code := BranchCode(op, 0, 0);
    BranchHead(op, a, b, v, c);
    AsWrittenNext(code, [a, b], [v], 0, fuel, Next([c]));
    AsWrittenNext(code, [a, b], [c], 1, fuel - 1, if IsTruthy(c) then Next([]) else JumpTo([], 4));
  }

  /** The `then` branch pushes `a` and jumps to the end. */
  lemma ThenTail(op: OpCode, a: EdnValue, b: EdnValue, fuel: nat)
    requires ValidPushes(BranchCode(op, 0, 0), [a, b]) && fuel >= 2
    ensures Run(BranchCode(op, 0, 0), [a, b], [], 2, fuel) == Ok(Machine([a], 5))
  {
    var code := BranchCode(op, 0, 0);
    PushStep(0, [], [a, b]);
    assert [] + [a] == [a];
    RunNext(code, [a, b], [], 2, fuel, Next([a]));
    RunNext(code, [a, b], [a], 3, fuel - 1, JumpTo([a], 5));
  }

  /** As written, the jump at the end of the `then` branch leaves the code one instruction further. */
  lemma ThenTailAsWritten(op: OpCode, a: EdnValue, b: EdnValue, fuel: nat)
    requires ValidPushes(BranchCode(op, 0, 0), [a, b]) && fuel >= 2
    ensures RunAsWritten(BranchCode(op, 0, 0), [a, b], [], 2, fuel) == Ok(Machine([a], 6))
  {
    var code := BranchCode(op, 0, 0);
    PushStep(0, [], [a, b]);
    assert [] + [a] == [a];
    AsWrittenNext(code, [a, b], [], 2, fuel, Next([a]));
    AsWrittenNext(code, [a, b], [a], 3, fuel - 1, JumpTo([a], 5));
  }

  /** The `else` branch pushes `b`. */
  lemma ElseTail(op: OpCode, a: EdnValue, b: EdnValue, fuel: nat)
    requires ValidPushes(BranchCode(op, 0, 0), [a, b]) && fuel >= 1
    ensures Run(BranchCode(op, 0, 0), [a, b], [], 4, fuel) == Ok(Machine([b], 5))
  {
    var code := BranchCode(op, 0, 0);
    PushStep(1, [], [a, b]);
    assert [] + [b] == [b];
    RunNext(code, [a, b], [], 4, fuel, Next([b]));
  }

  /** As written, a falsy test lands past the push of `b`, at the end of the code, with nothing pushed. */
  lemma ElseSkippedAsWritten(op: OpCode, a: EdnValue, b: EdnValue, fuel: nat)
    requires ValidPushes(BranchCode(op, 0, 0), [a, b])
    ensures RunAsWritten(BranchCode(op, 0, 0), [a, b], [], 5, fuel) == Ok(Machine([], 5))
  {
    var code := BranchCode(op, 0, 0);
    assert |code| == 5;
  }

  lemma BranchCodeRuns(op: OpCode, a: EdnValue, b: EdnValue, v: EdnValue, c: EdnValue, fuel: nat)
    requires ValidPushes(BranchCode(op, 0, 0), [a, b]) && fuel >= 4
    requires !op.Push? && Step(op, [v], [a, b]) == Ok(Next([c]))
    ensures Run(BranchCode(op, 0, 0), [a, b], [v], 0, fuel) == Ok(Machine([if IsTruthy(c) then a else b], 5))
  {
    BranchEntry(op, a, b, v, c, fuel);
    if IsTruthy(c) {
      ThenTail(op, a, b, fuel - 2);
    } else {
      ElseTail(op, a, b, fuel - 2);
    }
  }

  lemma BranchCodeRunsAsWritten(op: OpCode, a: EdnValue, b: EdnValue, v: EdnValue, c: EdnValue, fuel: nat)
    requires ValidPushes(BranchCode(op, 0, 0), [a, b]) && fuel >= 4
    requires !op.Push? && Step(op, [v], [a, b]) == Ok(Next([c]))
    ensures RunAsWritten(BranchCode(op, 0, 0), [a, b], [v], 0, fuel) ==
            if IsTruthy(c) then Ok(Machine([a], 6)) else Ok(Machine([], 5))
  {
    AsWrittenEntry(op, a, b, v, c, fuel);
    if IsTruthy(c) {
      ThenTailAsWritten(op, a, b, fuel - 2);
    } else {
      ElseSkippedAsWritten(op, a, b, fuel - 2);
    }
  }

  /** `(if test a b)` with literal branches compiles to the test, a conditional jump, two pushes and a jump. */
  lemma BranchLayout(test: Expr, a: EdnValue, b: EdnValue)
    requires IsNullary(test)
    ensures Code(If(test, Literal(a), Some(Literal(b))), 0, 0) == Chunk(BranchCode(NullaryOp(test), 0, 0), [a, b])
  {
    IfOfLiterals(test, a, b, 0, 0);
  }

  lemma BranchValid(test: Expr, a: EdnValue, b: EdnValue)
    requires IsNullary(test)
    ensures ValidPushes(BranchCode(NullaryOp(test), 0, 0), [a, b])
  {
    BranchLayout(test, a, b);
    CompiledQueryValid(If(test, Literal(a), Some(Literal(b))));
  }

  /** The code of `(if test a b)` with literal branches answers `a` when the test holds of the input and `b` otherwise. */
  lemma BranchRuns(test: Expr, a: EdnValue, b: EdnValue, v: EdnValue, fuel: nat)
    requires IsNullary(test) && fuel >= 4
    ensures ValidPushes(Code(If(test, Literal(a), Some(Literal(b))), 0, 0).code, [a, b])
    ensures Outcome(Run(Code(If(test, Literal(a), Some(Literal(b))), 0, 0).code, [a, b], [v], 0, fuel)) ==
            Ok(if IsTruthy(NullaryValue(test, v)) then a else b)
  {
    BranchLayout(test, a, b);
    BranchValid(test, a, b);
    NullaryStep(test, v, [a, b]);
    NullaryKind(test);
    BranchCodeRuns(NullaryOp(test), a, b, v, NullaryValue(test, v), fuel);
  }

  /** The same code under the loop as written: when the test fails, the push of `b` is skipped and the answer is nil. */
  lemma BranchRunsAsWritten(test: Expr, a: EdnValue, b: EdnValue, v: EdnValue, fuel: nat)
    requires IsNullary(test) && fuel >= 4
    ensures ValidPushes(Code(If(test, Literal(a), Some(Literal(b))), 0, 0).code, [a, b])
    ensures Outcome(RunAsWritten(Code(If(test, Literal(a), Some(Literal(b))), 0, 0).code, [a, b], [v], 0, fuel)) ==
            Ok(if IsTruthy(NullaryValue(test, v)) then a else Nil)
  {
    BranchLayout(test, a, b);
    BranchValid(test, a, b);
    NullaryStep(test, v, [a, b]);
    NullaryKind(test);
    BranchCodeRunsAsWritten(NullaryOp(test), a, b, v, NullaryValue(test, v), fuel);
  }

  /** The input that shows it: `(if nil? a b)` on 42 answers nil as written and `b` as intended. */
  lemma JumpSkipsElse(a: EdnValue, b: EdnValue)
    ensures var code := Code(If(Expr.IsNil, Literal(a), Some(Literal(b))), 0, 0).code;
            ValidPushes(code, [a, b]) &&
            Outcome(RunAsWritten(code, [a, b], [Integer(42)], 0, 5)) == Ok(Nil) &&
            Outcome(Run(code, [a, b], [Integer(42)], 0, 5)) == Ok(b)
  {
    assert NullaryValue(Expr.IsNil, Integer(42)) == Bool(false);
    BranchRuns(Expr.IsNil, a, b, Integer(42), 5);
    BranchRunsAsWritten(Expr.IsNil, a, b, Integer(42), 5);
  }

  // ---------------------------------------------------------------------
  // The machine's own examples

  lemma FirstAndCount()
    ensures var input := Vector([Integer(1), Integer(2), Integer(3)]);
            ValidPushes(Code(Expr.First, 0, 0).code, []) && ValidPushes(Code(Expr.Count, 0, 0).code, []) &&
            Outcome(Run(Code(Expr.First, 0, 0).code, [], [input], 0, 1)) == Ok(Integer(1)) &&
            Outcome(Run(Code(Expr.Count, 0, 0).code, [], [input], 0, 1)) == Ok(Integer(3))
  {
    var input := Vector([Integer(1), Integer(2), Integer(3)]);
    NullaryRuns(Expr.First, input, 1);
    NullaryRuns(Expr.Count, input, 1);
    NullaryCode(Expr.First, 0, 0);
    NullaryCode(Expr.Count, 0, 0);
  }

  lemma EqualToLiteral(x: int, y: int)
    ensures var q := Code(Expr.Equal(Literal(Integer(x))), 0, 0);
            ValidPushes(q.code, q.consts) && Outcome(Run(q.code, q.consts, [Integer(y)], 0, 2)) == Ok(Bool(x == y))
  {
    LiteralOperandRuns(Expr.Equal(Literal(Integer(x))), Integer(x), Integer(y), 2);
    InnerOfLiteral(Expr.Equal(Literal(Integer(x))), Integer(x));
  }

  lemma TakeAndDropTwo()
    ensures var input := Vector([Integer(1), Integer(2), Integer(3), Integer(4)]);
            var take := Code(Expr.Take(Literal(Integer(2))), 0, 0);
            var drop := Code(Expr.Drop(Literal(Integer(2))), 0, 0);
            ValidPushes(take.code, take.consts) && ValidPushes(drop.code, drop.consts) &&
            Outcome(Run(take.code, take.consts, [input], 0, 2)) == Ok(Vector([Integer(1), Integer(2)])) &&
            Outcome(Run(drop.code, drop.consts, [input], 0, 2)) == Ok(Vector([Integer(3), Integer(4)]))
  {
    var input := Vector([Integer(1), Integer(2), Integer(3), Integer(4)]);
    TakeTwo(input);
    DropTwo(input);
  }

  lemma TakeTwo(input: EdnValue)
    requires input == Vector([Integer(1), Integer(2), Integer(3), Integer(4)])
    ensures var take := Code(Expr.Take(Literal(Integer(2))), 0, 0);
            ValidPushes(take.code, take.consts) &&
            Outcome(Run(take.code, take.consts, [input], 0, 2)) == Ok(Vector([Integer(1), Integer(2)]))
  {
    LiteralOperandRuns(Expr.Take(Literal(Integer(2))), Integer(2), input, 2);
    assert input.items[..2] == [Integer(1), Integer(2)];
  }

  lemma DropTwo(input: EdnValue)
    requires input == Vector([Integer(1), Integer(2), Integer(3), Integer(4)])
    ensures var drop := Code(Expr.Drop(Literal(Integer(2))), 0, 0);
            ValidPushes(drop.code, drop.consts) &&
            Outcome(Run(drop.code, drop.consts, [input], 0, 2)) == Ok(Vector([Integer(3), Integer(4)]))
  {
    LiteralOperandRuns(Expr.Drop(Literal(Integer(2))), Integer(2), input, 2);
    assert input.items[2..] == [Integer(3), Integer(4)];
  }
}
