/**
 * Bytecode for the query machine: the instruction set, and the compiled
 * query that holds an instruction sequence with its constant pool.
 * Instructions refer to constants by index and to other instructions by
 * absolute offset.
 */
module Bytecode {
  import opened Value

  /** The instruction set.  `Pop`, `Dup`, `JumpIfTrue`, `Call` and `Return` are executed by the
      machine but never emitted by the compiler. */
  datatype OpCode =
    | Push(index: nat)
    | Pop
    | Dup
    | Identity
    | Get
    | GetIn
    | KeywordGet(name: string)
    | First | Last | Rest | Take | Drop | Nth | Count | Keys | Vals
    | Filter | Map | Remove | SelectKeys
    | IsNil | IsEmpty | Contains | IsNumber | IsString | IsKeyword | IsBoolean
    | Equal | LessThan | GreaterThan | LessEqual | GreaterEqual
    | Jump(target: nat)
    | JumpIfFalse(target: nat)
    | JumpIfTrue(target: nat)
    | Reduce | Apply | GroupBy | Frequencies
    | Call(arity: nat)
    | Return

  predicate IsJump(op: OpCode)
  {
    op.Jump? || op.JumpIfFalse? || op.JumpIfTrue?
  }

  predicate PushOk(op: OpCode, lo: nat, hi: nat)
  {
    op.Push? ==> lo <= op.index < hi
  }

  predicate JumpOk(op: OpCode, lo: nat, hi: nat)
  {
    IsJump(op) ==> lo <= op.target <= hi
  }

  /** Every `Push` in `code` names a constant index in `[lo, hi)`. */
  predicate PushesIn(code: seq<OpCode>, lo: nat, hi: nat)
    decreases |code|
  {
    |code| == 0 || (PushOk(code[0], lo, hi) && PushesIn(code[1..], lo, hi))
  }

  /** Every jump in `code` targets an offset in `[lo, hi]`; `hi` itself is the end of the code. */
  predicate JumpsIn(code: seq<OpCode>, lo: nat, hi: nat)
    decreases |code|
  {
    |code| == 0 || (JumpOk(code[0], lo, hi) && JumpsIn(code[1..], lo, hi))
  }

  /** What the machine demands of a query: every `Push` names an existing constant. */
  predicate ValidPushes(code: seq<OpCode>, constants: seq<EdnValue>)
  {
    PushesIn(code, 0, |constants|)
  }

  lemma {:induction false} PushesAt(code: seq<OpCode>, lo: nat, hi: nat, i: nat)
    requires PushesIn(code, lo, hi) && i < |code|
    ensures PushOk(code[i], lo, hi)
    decreases i
  {
    if i > 0 {
      PushesAt(code[1..], lo, hi, i - 1);
    }
  }

  lemma {:induction false} JumpsAt(code: seq<OpCode>, lo: nat, hi: nat, i: nat)
    requires JumpsIn(code, lo, hi) && i < |code|
    ensures JumpOk(code[i], lo, hi)
    decreases i
  {
    if i > 0 {
      JumpsAt(code[1..], lo, hi, i - 1);
    }
  }

  lemma {:induction false} PushesAppend(a: seq<OpCode>, b: seq<OpCode>, lo: nat, hi: nat)
    requires PushesIn(a, lo, hi) && PushesIn(b, lo, hi)
    ensures PushesIn(a + b, lo, hi)
    decreases |a|
  {
    if a != [] {
      assert (a + b)[0] == a[0] && (a + b)[1..] == a[1..] + b;
      PushesAppend(a[1..], b, lo, hi);
    } else {
      assert a + b == b;
    }
  }

  lemma {:induction false} JumpsAppend(a: seq<OpCode>, b: seq<OpCode>, lo: nat, hi: nat)
    requires JumpsIn(a, lo, hi) && JumpsIn(b, lo, hi)
    ensures JumpsIn(a + b, lo, hi)
    decreases |a|
  {
    if a != [] {
      assert (a + b)[0] == a[0] && (a + b)[1..] == a[1..] + b;
      JumpsAppend(a[1..], b, lo, hi);
    } else {
      assert a + b == b;
    }
  }

  lemma {:induction false} PushesWiden(code: seq<OpCode>, lo: nat, hi: nat, lo': nat, hi': nat)
    requires PushesIn(code, lo, hi) && lo' <= lo && hi <= hi'
    ensures PushesIn(code, lo', hi')
    decreases |code|
  {
    if code != [] {
      PushesWiden(code[1..], lo, hi, lo', hi');
    }
  }

  lemma {:induction false} JumpsWiden(code: seq<OpCode>, lo: nat, hi: nat, lo': nat, hi': nat)
    requires JumpsIn(code, lo, hi) && lo' <= lo && hi <= hi'
    ensures JumpsIn(code, lo', hi')
    decreases |code|
  {
    if code != [] {
      JumpsWiden(code[1..], lo, hi, lo', hi');
    }
  }

  /** One instruction. */
  lemma Single(op: OpCode, lo: nat, hi: nat)
    ensures PushesIn([op], lo, hi) == PushOk(op, lo, hi)
    ensures JumpsIn([op], lo, hi) == JumpOk(op, lo, hi)
  {
    assert [op][1..] == [];
  }

  /** The compiled query: instructions and the constant pool they index. */
  class CompiledQuery {
    var bytecode: seq<OpCode>
    var constants: seq<EdnValue>

    constructor()
      ensures bytecode == [] && constants == []
    {
      bytecode := [];
      constants := [];
    }

    /** Append a constant and return its index: the pool only grows. */
    method AddConstant(value: EdnValue) returns (index: nat)
      modifies this
      ensures constants == old(constants) + [value]
      ensures index == |old(constants)| && constants[index] == value
      ensures bytecode == old(bytecode)
    {
      constants := constants + [value];
      index := |constants| - 1;
    }

    /** Append exactly one instruction. */
    method Emit(op: OpCode)
      modifies this
      ensures bytecode == old(bytecode) + [op]
      ensures constants == old(constants)
    {
      bytecode := bytecode + [op];
    }

    /** The offset the next emitted instruction will have. */
    function CurrentOffset(): (offset: nat)
      reads this
      ensures offset == |bytecode|
    {
      |bytecode|
    }

    /**
     * Retarget the jump at `offset`; nothing else changes.  Patching an
     * instruction that is not a `Jump` or `JumpIfFalse` is a panic, so it is
     * excluded here.
     */
    method PatchJump(offset: nat, target: nat)
      requires offset < |bytecode| && (bytecode[offset].Jump? || bytecode[offset].JumpIfFalse?)
      modifies this
      ensures |bytecode| == |old(bytecode)|
      ensures bytecode == old(bytecode)[offset := old(bytecode)[offset].(target := target)]
      ensures constants == old(constants)
    {
      bytecode := bytecode[offset := bytecode[offset].(target := target)];
    }
  }
}

/**
 * The compiler from query trees to bytecode.  It works on the tree of the
 * revision it was written against: operand-free collection operations and
 * predicates, one-operand comparisons, and a `filter` node.
 *
 * `Code(e, base, pool)` is the code compiling `e` appends when the bytecode
 * already holds `base` instructions and the pool `pool` constants; the
 * compiler's methods are proved to append exactly that.
 */
module Compiler {
  import opened Errors
  import opened Value
  import opened Bytecode

  datatype Expr =
    | Identity
    | Get(key: EdnValue)
    | GetIn(path: seq<EdnValue>)
    | KeywordAccess(name: string)
    | First | Last | Rest | Count | Keys | Vals
    | Take(inner: Expr)
    | Drop(inner: Expr)
    | Nth(inner: Expr)
    | Filter(inner: Expr)
    | Map(inner: Expr)
    | Remove(inner: Expr)
    | SelectKeys(keys: seq<EdnValue>)
    | IsNil | IsEmpty | IsNumber | IsString | IsKeyword | IsBoolean
    | Contains(inner: Expr)
    | Equal(inner: Expr)
    | LessThan(inner: Expr)
    | GreaterThan(inner: Expr)
    | LessEqual(inner: Expr)
    | GreaterEqual(inner: Expr)
    | ThreadFirst(stages: seq<Expr>)
    | ThreadLast(stages: seq<Expr>)
    | Comp(stages: seq<Expr>)
    | If(test: Expr, thenExpr: Expr, elseExpr: Option<Expr>)
    | When(test: Expr, body: Expr)
    | Reduce(func: Expr, init: Option<Expr>)
    | Apply(inner: Expr)
    | GroupBy(inner: Expr)
    | Frequencies
    | Literal(value: EdnValue)

  /** The nodes that compile to one instruction of their own and nothing else. */
  predicate IsNullary(e: Expr)
  {
    e.Identity? || e.KeywordAccess? || e.First? || e.Last? || e.Rest? || e.Count? || e.Keys? || e.Vals? ||
    e.IsNil? || e.IsEmpty? || e.IsNumber? || e.IsString? || e.IsKeyword? || e.IsBoolean? ||
    e.Frequencies?
  }

  function NullaryOp(e: Expr): OpCode
    requires IsNullary(e)
  {
    if e.Identity? then OpCode.Identity
    else if e.KeywordAccess? then KeywordGet(e.name)
    else if e.First? then OpCode.First
    else if e.Last? then OpCode.Last
    else if e.Rest? then OpCode.Rest
    else if e.Count? then OpCode.Count
    else if e.Keys? then OpCode.Keys
    else if e.Vals? then OpCode.Vals
    else if e.IsNil? then OpCode.IsNil
    else if e.IsEmpty? then OpCode.IsEmpty
    else if e.IsNumber? then OpCode.IsNumber
    else if e.IsString? then OpCode.IsString
    else if e.IsKeyword? then OpCode.IsKeyword
    else if e.IsBoolean? then OpCode.IsBoolean
    else OpCode.Frequencies
  }

  /** The nodes whose operand is compiled first and then followed by one instruction. */
  predicate HasInner(e: Expr)
  {
    e.Take? || e.Drop? || e.Nth? || e.Filter? || e.Map? || e.Remove? || e.Contains? ||
    e.Equal? || e.LessThan? || e.GreaterThan? || e.LessEqual? || e.GreaterEqual? ||
    e.Apply? || e.GroupBy?
  }

  function UnaryOp(e: Expr): OpCode
    requires HasInner(e)
  {
    if e.Take? then OpCode.Take
    else if e.Drop? then OpCode.Drop
    else if e.Nth? then OpCode.Nth
    else if e.Filter? then OpCode.Filter
    else if e.Map? then OpCode.Map
    else if e.Remove? then OpCode.Remove
    else if e.Contains? then OpCode.Contains
    else if e.Equal? then OpCode.Equal
    else if e.LessThan? then OpCode.LessThan
    else if e.GreaterThan? then OpCode.GreaterThan
    else if e.LessEqual? then OpCode.LessEqual
    else if e.GreaterEqual? then OpCode.GreaterEqual
    else if e.Apply? then OpCode.Apply
    else OpCode.GroupBy
  }

  /** The instructions and constants compiling one node appends. */
  datatype Chunk = Chunk(code: seq<OpCode>, consts: seq<EdnValue>)

  function Then(a: Chunk, b: Chunk): Chunk
  {
    Chunk(a.code + b.code, a.consts + b.consts)
  }

  // ---------------------------------------------------------------------
  // The code of a node

  /** The nodes whose code is a fixed instruction or a push of their own constant. */
  predicate IsLeaf(e: Expr)
  {
    IsNullary(e) || e.Get? || e.GetIn? || e.SelectKeys? || e.Literal?
  }

  function Code(e: Expr, base: nat, pool: nat): Chunk
    decreases e, 2
  {
    if IsLeaf(e) then LeafCode(e, pool)
    else if HasInner(e) then InnerCode(e, base, pool)
    else if e.ThreadFirst? || e.ThreadLast? then InOrder(e, 0, base, pool)
    else if e.Comp? then Reversed(e, |e.stages|, base, pool)
    else if e.If? then IfCode(e, base, pool)
    else if e.When? then WhenCode(e, base, pool)
    else ReduceCode(e, base, pool)
  }

  function LeafCode(e: Expr, pool: nat): Chunk
    requires IsLeaf(e)
  {
    if IsNullary(e) then Chunk([NullaryOp(e)], [])
    else if e.Get? then Chunk([Push(pool), OpCode.Get], [e.key])
    else if e.GetIn? then Chunk([Push(pool), OpCode.GetIn], [Vector(e.path)])
    else if e.SelectKeys? then Chunk([Push(pool), OpCode.SelectKeys], [Vector(e.keys)])
    else Chunk([Push(pool)], [e.value])
  }

  /** The operand, then the node's own instruction. */
  function InnerCode(e: Expr, base: nat, pool: nat): Chunk
    requires HasInner(e)
    decreases e, 1
  {
    Then(Code(e.inner, base, pool), Chunk([UnaryOp(e)], []))
  }

  function WhenCode(e: Expr, base: nat, pool: nat): Chunk
    requires e.When?
    decreases e, 1
  {
    var t := Code(e.test, base, pool);
    Guarded(base, t, Code(e.body, base + |t.code| + 1, pool + |t.consts|))
  }

  /** The initial value, the function, then `Reduce`. */
  function ReduceCode(e: Expr, base: nat, pool: nat): Chunk
    requires e.Reduce?
    decreases e, 1
  {
    var i := ReduceInit(e, base, pool);
    var f := Code(e.func, base + |i.code|, pool + |i.consts|);
    Then(Then(i, f), Chunk([OpCode.Reduce], []))
  }

  /** The initial value of a reduction, `nil` when none is given. */
  function ReduceInit(e: Expr, base: nat, pool: nat): Chunk
    requires e.Reduce?
    decreases e, 0
  {
    if e.init.Some? then Code(e.init.value, base, pool) else Chunk([Push(pool)], [Nil])
  }

  /** A test, a `JumpIfFalse` to the end, and the guarded code. */
  function Guarded(base: nat, t: Chunk, b: Chunk): Chunk
  {
    Chunk(t.code + [JumpIfFalse(base + |t.code| + 1 + |b.code|)] + b.code, t.consts + b.consts)
  }

  /** A test, a `JumpIfFalse` to the else code, the then code, a `Jump` to the end, the else code. */
  function Branched(base: nat, t: Chunk, th: Chunk, el: Chunk): Chunk
  {
    var elseStart := base + |t.code| + 1 + |th.code| + 1;
    Chunk(t.code + [JumpIfFalse(elseStart)] + th.code + [Jump(elseStart + |el.code|)] + el.code,
          t.consts + th.consts + el.consts)
  }

  /** The stages of a threading node from `i` on, in order. */
  function InOrder(e: Expr, i: nat, base: nat, pool: nat): Chunk
    requires (e.ThreadFirst? || e.ThreadLast?) && i <= |e.stages|
    decreases e, 1, |e.stages| - i
  {
    if i == |e.stages| then Chunk([], [])
    else
      var c := Code(e.stages[i], base, pool);
      Then(c, InOrder(e, i + 1, base + |c.code|, pool + |c.consts|))
  }

  /** The first `i` stages of a composition, last one first. */
  function Reversed(e: Expr, i: nat, base: nat, pool: nat): Chunk
    requires e.Comp? && i <= |e.stages|
    decreases e, 1, i
  {
    if i == 0 then Chunk([], [])
    else
      var c := Code(e.stages[i - 1], base, pool);
      Then(c, Reversed(e, i - 1, base + |c.code|, pool + |c.consts|))
  }

  /** The test, a `JumpIfFalse` past the then-code, the then-code, and, with an else branch, a
      `Jump` to the end followed by the else-code. */
  function IfCode(e: Expr, base: nat, pool: nat): Chunk
    requires e.If?
    decreases e, 1
  {
    var t := Code(e.test, base, pool);
    var th := Code(e.thenExpr, base + |t.code| + 1, pool + |t.consts|);
    if e.elseExpr.Some? then
      Branched(base, t, th, Code(e.elseExpr.value, base + |t.code| + 1 + |th.code| + 1, pool + |t.consts| + |th.consts|))
    else
      Guarded(base, t, th)
  }

  // ---------------------------------------------------------------------
  // The compiler

  class Compiler {
    const query: CompiledQuery

    constructor()
      ensures fresh(query) && query.bytecode == [] && query.constants == []
    {
      query := new CompiledQuery();
    }

    /** Append the code of `e`; compilation never fails. */
    method CompileExpr(e: Expr)
      modifies query
      ensures query.bytecode == old(query.bytecode) + Code(e, |old(query.bytecode)|, |old(query.constants)|).code
      ensures query.constants == old(query.constants) + Code(e, |old(query.bytecode)|, |old(query.constants)|).consts
      decreases e, 4
    {
      if IsLeaf(e) {
        CompileLeaf(e);
      } else if HasInner(e) {
        CompileExpr(e.inner);
        query.Emit(UnaryOp(e));
      } else if e.ThreadFirst? || e.ThreadLast? {
        CompileThreading(e);
      } else if e.Comp? {
        CompileComp(e);
      } else if e.If? {
        CompileIf(e);
      } else if e.When? {
        CompileWhen(e);
      } else {
        CompileReduce(e);
      }
    }

    /** A leaf: a fixed instruction, or a pooled constant, its push, and the node's own instruction
        if it has one. */
    method CompileLeaf(e: Expr)
      requires IsLeaf(e)
      modifies query
      ensures query.bytecode == old(query.bytecode) + LeafCode(e, |old(query.constants)|).code
      ensures query.constants == old(query.constants) + LeafCode(e, |old(query.constants)|).consts
    {
      if IsNullary(e) {
        query.Emit(NullaryOp(e));
      } else {
        var constant := if e.Get? then e.key else if e.GetIn? then Vector(e.path)
                        else if e.SelectKeys? then Vector(e.keys) else e.value;
        var index := query.AddConstant(constant);
        query.Emit(Push(index));
        if e.Get? {
          query.Emit(OpCode.Get);
        } else if e.GetIn? {
          query.Emit(OpCode.GetIn);
        } else if e.SelectKeys? {
          query.Emit(OpCode.SelectKeys);
        }
      }
    }

    /** The stages of `->` or `->>` in order; both place values the same way. */
    method CompileThreading(e: Expr)
      requires e.ThreadFirst? || e.ThreadLast?
      modifies query
      ensures query.bytecode == old(query.bytecode) + InOrder(e, 0, |old(query.bytecode)|, |old(query.constants)|).code
      ensures query.constants == old(query.constants) + InOrder(e, 0, |old(query.bytecode)|, |old(query.constants)|).consts
      decreases e, 2
    {
      ghost var whole := InOrder(e, 0, |query.bytecode|, |query.constants|);
      var i: nat := 0;
      while i < |e.stages|
        invariant i <= |e.stages|
        invariant old(query.bytecode) + whole.code == query.bytecode + InOrder(e, i, |query.bytecode|, |query.constants|).code
        invariant old(query.constants) + whole.consts == query.constants + InOrder(e, i, |query.bytecode|, |query.constants|).consts
        decreases |e.stages| - i
      {
        InOrderStep(e, i, query.bytecode, query.constants);
        CompileExpr(e.stages[i]);
        i := i + 1;
      }
    }

    /** The stages of a composition, last stage first. */
    method CompileComp(e: Expr)
      requires e.Comp?
      modifies query
      ensures query.bytecode == old(query.bytecode) + Reversed(e, |e.stages|, |old(query.bytecode)|, |old(query.constants)|).code
      ensures query.constants == old(query.constants) + Reversed(e, |e.stages|, |old(query.bytecode)|, |old(query.constants)|).consts
      decreases e, 2
    {
      ghost var whole := Reversed(e, |e.stages|, |query.bytecode|, |query.constants|);
      var i: nat := |e.stages|;
      while i > 0
        invariant i <= |e.stages|
        invariant old(query.bytecode) + whole.code == query.bytecode + Reversed(e, i, |query.bytecode|, |query.constants|).code
        invariant old(query.constants) + whole.consts == query.constants + Reversed(e, i, |query.bytecode|, |query.constants|).consts
        decreases i
      {
        ReversedStep(e, i, query.bytecode, query.constants);
        CompileExpr(e.stages[i - 1]);
        i := i - 1;
      }
    }

    /** The test, a placeholder `JumpIfFalse`, the then-branch, and with an else branch a placeholder
        `Jump` and the else-branch; each placeholder is patched once its target is known. */
    method CompileIf(e: Expr)
      requires e.If?
      modifies query
      ensures query.bytecode == old(query.bytecode) + IfCode(e, |old(query.bytecode)|, |old(query.constants)|).code
      ensures query.constants == old(query.constants) + IfCode(e, |old(query.bytecode)|, |old(query.constants)|).consts
      decreases e, 3
    {
      ghost var code0, pool0 := query.bytecode, query.constants;
      ghost var t := Code(e.test, |code0|, |pool0|);
      CompileExpr(e.test);
      var jumpIfFalse := query.CurrentOffset();
      query.Emit(JumpIfFalse(0));
      CompileBranches(e, code0, pool0, t, jumpIfFalse);
    }

    /** The then-branch after the placeholder `JumpIfFalse`, then the else half or the patch to the end. */
    method CompileBranches(e: Expr, ghost code0: seq<OpCode>, ghost pool0: seq<EdnValue>, ghost t: Chunk, jumpIfFalse: nat)
      requires e.If? && t == Code(e.test, |code0|, |pool0|)
      requires jumpIfFalse == |code0| + |t.code|
      requires query.bytecode == code0 + t.code + [JumpIfFalse(0)]
      requires query.constants == pool0 + t.consts
      modifies query
      ensures query.bytecode == code0 + IfCode(e, |code0|, |pool0|).code
      ensures query.constants == pool0 + IfCode(e, |code0|, |pool0|).consts
      decreases e, 2
    {
      ghost var th := Code(e.thenExpr, |code0| + |t.code| + 1, |pool0| + |t.consts|);
      CompileExpr(e.thenExpr);
      CompileTail(e, code0, pool0, t, th, jumpIfFalse);
    }

    /** With the then-branch in place: the else half, or the patch of the `JumpIfFalse` to the end. */
    method CompileTail(e: Expr, ghost code0: seq<OpCode>, ghost pool0: seq<EdnValue>, ghost t: Chunk, ghost th: Chunk,
                       jumpIfFalse: nat)
      requires e.If? && t == Code(e.test, |code0|, |pool0|)
      requires th == Code(e.thenExpr, |code0| + |t.code| + 1, |pool0| + |t.consts|)
      requires jumpIfFalse == |code0| + |t.code|
      requires query.bytecode == code0 + t.code + [JumpIfFalse(0)] + th.code
      requires query.constants == pool0 + t.consts + th.consts
      modifies query
      ensures query.bytecode == code0 + IfCode(e, |code0|, |pool0|).code
      ensures query.constants == pool0 + IfCode(e, |code0|, |pool0|).consts
      decreases e, 1
    {
      if e.elseExpr.Some? {
        CompileElse(e, code0, pool0, t, th, jumpIfFalse);
        ghost var el := Code(e.elseExpr.value, |code0| + |t.code| + 1 + |th.code| + 1, |pool0| + |t.consts| + |th.consts|);
        assert IfCode(e, |code0|, |pool0|) == Branched(|code0|, t, th, el);
      } else {
        PatchToEnd(code0, pool0, t, th, jumpIfFalse);
        assert IfCode(e, |code0|, |pool0|) == Guarded(|code0|, t, th);
      }
    }

    /** Without an else branch the `JumpIfFalse` is patched to the end of the then-branch. */
    method PatchToEnd(ghost code0: seq<OpCode>, ghost pool0: seq<EdnValue>, ghost t: Chunk, ghost th: Chunk,
                      jumpIfFalse: nat)
      requires jumpIfFalse == |code0| + |t.code|
      requires query.bytecode == code0 + t.code + [JumpIfFalse(0)] + th.code
      requires query.constants == pool0 + t.consts + th.consts
      modifies query
      ensures query.bytecode == code0 + Guarded(|code0|, t, th).code
      ensures query.constants == pool0 + Guarded(|code0|, t, th).consts
    {
      var end := query.CurrentOffset();
      PatchAt(code0 + t.code, JumpIfFalse(0), th.code, JumpIfFalse(end));
      query.PatchJump(jumpIfFalse, end);
      GuardedAssembly(code0, pool0, t, th, end);
    }

    /** The else half of `CompileIf`, once the test and the then-branch are in place. */
    method CompileElse(e: Expr, ghost code0: seq<OpCode>, ghost pool0: seq<EdnValue>,
                       ghost t: Chunk, ghost th: Chunk, jumpIfFalse: nat)
      requires e.If? && e.elseExpr.Some?
      requires jumpIfFalse == |code0| + |t.code|
      requires query.bytecode == code0 + t.code + [JumpIfFalse(0)] + th.code
      requires query.constants == pool0 + t.consts + th.consts
      modifies query
      ensures var el := Code(e.elseExpr.value, |code0| + |t.code| + 1 + |th.code| + 1, |pool0| + |t.consts| + |th.consts|);
              query.bytecode == code0 + Branched(|code0|, t, th, el).code &&
              query.constants == pool0 + Branched(|code0|, t, th, el).consts
      decreases e, 0
    {
      var jumpEnd := query.CurrentOffset();
      query.Emit(Jump(0));
      var elseStart := query.CurrentOffset();
      PatchBefore(code0 + t.code, JumpIfFalse(0), th.code, Jump(0), JumpIfFalse(elseStart));
      query.PatchJump(jumpIfFalse, elseStart);
      ghost var pre := code0 + t.code + [JumpIfFalse(elseStart)] + th.code;
      ghost var code2, pool2 := query.bytecode, query.constants;
      assert |code2| == |code0| + |t.code| + 1 + |th.code| + 1 && |pool2| == |pool0| + |t.consts| + |th.consts|;
      ghost var el := Code(e.elseExpr.value, |code2|, |pool2|);
      CompileExpr(e.elseExpr.value);
      var end := query.CurrentOffset();
      PatchAt(pre, Jump(0), el.code, Jump(end));
      query.PatchJump(jumpEnd, end);
      BranchedAssembly(code0, pool0, t, th, el, end);
    }

    method CompileWhen(e: Expr)
      requires e.When?
      modifies query
      ensures query.bytecode == old(query.bytecode) + WhenCode(e, |old(query.bytecode)|, |old(query.constants)|).code
      ensures query.constants == old(query.constants) + WhenCode(e, |old(query.bytecode)|, |old(query.constants)|).consts
      decreases e, 2
    {
      ghost var code0, pool0 := query.bytecode, query.constants;
      ghost var t := Code(e.test, |code0|, |pool0|);
      CompileExpr(e.test);
      var jumpIfFalse := query.CurrentOffset();
      query.Emit(JumpIfFalse(0));
      ghost var code1, pool1 := query.bytecode, query.constants;
      ghost var b := Code(e.body, |code1|, |pool1|);
      CompileExpr(e.body);
      var end := query.CurrentOffset();
      PatchAt(code0 + t.code, JumpIfFalse(0), b.code, JumpIfFalse(end));
      query.PatchJump(jumpIfFalse, end);
      GuardedAssembly(code0, pool0, t, b, end);
    }

    /** The initial value of a reduction, or a `nil` constant. */
    method CompileInit(e: Expr)
      requires e.Reduce?
      modifies query
      ensures query.bytecode == old(query.bytecode) + ReduceInit(e, |old(query.bytecode)|, |old(query.constants)|).code
      ensures query.constants == old(query.constants) + ReduceInit(e, |old(query.bytecode)|, |old(query.constants)|).consts
      decreases e, 1
    {
      if e.init.Some? {
        CompileExpr(e.init.value);
      } else {
        var index := query.AddConstant(Nil);
        query.Emit(Push(index));
      }
    }

    /** The initial value (or a `nil` constant), the function, then `Reduce`. */
    method CompileReduce(e: Expr)
      requires e.Reduce?
      modifies query
      ensures query.bytecode == old(query.bytecode) + ReduceCode(e, |old(query.bytecode)|, |old(query.constants)|).code
      ensures query.constants == old(query.constants) + ReduceCode(e, |old(query.bytecode)|, |old(query.constants)|).consts
      decreases e, 2
    {
      ghost var code0, pool0 := query.bytecode, query.constants;
      ghost var i := ReduceInit(e, |code0|, |pool0|);
      CompileInit(e);
      ghost var f := Code(e.func, |query.bytecode|, |query.constants|);
      CompileExpr(e.func);
      query.Emit(OpCode.Reduce);
      Associate(code0, i.code, f.code + [OpCode.Reduce]);
      Associate(pool0, i.consts, f.consts);
    }
  }

  lemma GuardedAssembly(code0: seq<OpCode>, pool0: seq<EdnValue>, t: Chunk, b: Chunk, end: nat)
    requires end == |code0| + |t.code| + 1 + |b.code|
    ensures code0 + t.code + [JumpIfFalse(end)] + b.code == code0 + Guarded(|code0|, t, b).code
    ensures pool0 + t.consts + b.consts == pool0 + Guarded(|code0|, t, b).consts
  {
  }

  lemma BranchedAssembly(code0: seq<OpCode>, pool0: seq<EdnValue>, t: Chunk, th: Chunk, el: Chunk, end: nat)
    requires end == |code0| + |t.code| + 1 + |th.code| + 1 + |el.code|
    ensures var elseStart := |code0| + |t.code| + 1 + |th.code| + 1;
            code0 + t.code + [JumpIfFalse(elseStart)] + th.code + [Jump(end)] + el.code == code0 + Branched(|code0|, t, th, el).code &&
            pool0 + t.consts + th.consts + el.consts == pool0 + Branched(|code0|, t, th, el).consts
  {
  }

  /** Retargeting the placeholder between `pre` and `post` leaves both unchanged. */
  lemma PatchAt<T>(pre: seq<T>, x: T, post: seq<T>, y: T)
    ensures (pre + [x] + post)[|pre|] == x
    ensures (pre + [x] + post)[|pre| := y] == pre + [y] + post
  {
  }

  /** The same, with one more element appended after `mid`. */
  lemma PatchBefore<T>(pre: seq<T>, x: T, mid: seq<T>, z: T, y: T)
    ensures (pre + [x] + mid + [z])[|pre|] == x
    ensures (pre + [x] + mid + [z])[|pre| := y] == pre + [y] + mid + [z]
  {
  }

  lemma Associate<T>(before: seq<T>, c: seq<T>, rest: seq<T>)
    ensures before + c + rest == before + (c + rest)
  {
  }

  lemma InOrderStep(e: Expr, i: nat, before: seq<OpCode>, pool: seq<EdnValue>)
    requires (e.ThreadFirst? || e.ThreadLast?) && i < |e.stages|
    ensures var c := Code(e.stages[i], |before|, |pool|);
            var rest := InOrder(e, i + 1, |before| + |c.code|, |pool| + |c.consts|);
            before + InOrder(e, i, |before|, |pool|).code == (before + c.code) + rest.code &&
            pool + InOrder(e, i, |before|, |pool|).consts == (pool + c.consts) + rest.consts
  {
  }

  lemma ReversedStep(e: Expr, i: nat, before: seq<OpCode>, pool: seq<EdnValue>)
    requires e.Comp? && 0 < i <= |e.stages|
    ensures var c := Code(e.stages[i - 1], |before|, |pool|);
            var rest := Reversed(e, i - 1, |before| + |c.code|, |pool| + |c.consts|);
            before + Reversed(e, i, |before|, |pool|).code == (before + c.code) + rest.code &&
            pool + Reversed(e, i, |before|, |pool|).consts == (pool + c.consts) + rest.consts
  {
  }

  /** Compile a whole query into a fresh compiled query. */
  method Compile(e: Expr) returns (query: CompiledQuery)
    ensures fresh(query)
    ensures query.bytecode == Code(e, 0, 0).code && query.constants == Code(e, 0, 0).consts
  {
    var compiler := new Compiler();
    compiler.CompileExpr(e);
    query := compiler.query;
  }
}

/**
 * What the compiler guarantees about the code it emits: every push names a
 * constant of its own node, every jump stays inside its node's code, an
 * `if` jumps to the start of its else code and past its end, a composition
 * is the reversed threading, and the threading direction does not change
 * the code.
 */
module CompilerFacts {
  import opened Errors
  import opened Value
  import opened Bytecode
  import opened Compiler

  /** The pushes of a chunk compiled at pool size `pool` name its own constants, and its jumps
      land inside its own code or just past it. */
  predicate Bounded(c: Chunk, base: nat, pool: nat)
  {
    PushesIn(c.code, pool, pool + |c.consts|) && JumpsIn(c.code, base, base + |c.code|)
  }

  /** A chunk followed by a chunk compiled right after it. */
  lemma ThenBounded(a: Chunk, b: Chunk, base: nat, pool: nat)
    requires Bounded(a, base, pool) && Bounded(b, base + |a.code|, pool + |a.consts|)
    ensures Bounded(Then(a, b), base, pool)
  {
    var c := Then(a, b);
    PushesWiden(a.code, pool, pool + |a.consts|, pool, pool + |c.consts|);
    PushesWiden(b.code, pool + |a.consts|, pool + |a.consts| + |b.consts|, pool, pool + |c.consts|);
    PushesAppend(a.code, b.code, pool, pool + |c.consts|);
    JumpsWiden(a.code, base, base + |a.code|, base, base + |c.code|);
    JumpsWiden(b.code, base + |a.code|, base + |a.code| + |b.code|, base, base + |c.code|);
    JumpsAppend(a.code, b.code, base, base + |c.code|);
  }

  /** A single instruction that is neither a push nor a jump. */
  lemma PlainBounded(op: OpCode, base: nat, pool: nat)
    requires !op.Push? && !IsJump(op)
    ensures Bounded(Chunk([op], []), base, pool)
  {
  }

  lemma GuardedBounded(base: nat, t: Chunk, b: Chunk, pool: nat)
    requires Bounded(t, base, pool) && Bounded(b, base + |t.code| + 1, pool + |t.consts|)
    ensures Bounded(Guarded(base, t, b), base, pool)
  {
    var g := Guarded(base, t, b);
    var hi, end := pool + |g.consts|, base + |g.code|;
    var jump := [JumpIfFalse(end)];
    PushesWiden(t.code, pool, pool + |t.consts|, pool, hi);
    PushesWiden(b.code, pool + |t.consts|, hi, pool, hi);
    PushesAppend(t.code, jump, pool, hi);
    PushesAppend(t.code + jump, b.code, pool, hi);
    JumpsWiden(t.code, base, base + |t.code|, base, end);
    JumpsWiden(b.code, base + |t.code| + 1, end, base, end);
    JumpsAppend(t.code, jump, base, end);
    JumpsAppend(t.code + jump, b.code, base, end);
  }

  lemma BranchedBounded(base: nat, t: Chunk, th: Chunk, el: Chunk, pool: nat)
    requires Bounded(t, base, pool)
    requires Bounded(th, base + |t.code| + 1, pool + |t.consts|)
    requires Bounded(el, base + |t.code| + 1 + |th.code| + 1, pool + |t.consts| + |th.consts|)
    ensures Bounded(Branched(base, t, th, el), base, pool)
  {
    var g := Branched(base, t, th, el);
    var hi, end := pool + |g.consts|, base + |g.code|;
    var elseStart := base + |t.code| + 1 + |th.code| + 1;
    var jumpElse, jumpEnd := [JumpIfFalse(elseStart)], [Jump(end)];
    PushesWiden(t.code, pool, pool + |t.consts|, pool, hi);
    PushesWiden(th.code, pool + |t.consts|, pool + |t.consts| + |th.consts|, pool, hi);
    PushesWiden(el.code, pool + |t.consts| + |th.consts|, hi, pool, hi);
    PushesAppend(t.code, jumpElse, pool, hi);
    PushesAppend(t.code + jumpElse, th.code, pool, hi);
    PushesAppend(t.code + jumpElse + th.code, jumpEnd, pool, hi);
    PushesAppend(t.code + jumpElse + th.code + jumpEnd, el.code, pool, hi);
    JumpsWiden(t.code, base, base + |t.code|, base, end);
    JumpsWiden(th.code, base + |t.code| + 1, elseStart - 1, base, end);
    JumpsWiden(el.code, elseStart, end, base, end);
    JumpsAppend(t.code, jumpElse, base, end);
    JumpsAppend(t.code + jumpElse, th.code, base, end);
    JumpsAppend(t.code + jumpElse + th.code, jumpEnd, base, end);
    JumpsAppend(t.code + jumpElse + th.code + jumpEnd, el.code, base, end);
  }

  /** The code of every node is bounded: its pushes name the constants it added, its jumps stay
      within it. */
  lemma {:induction false} CodeBounded(e: Expr, base: nat, pool: nat)
    ensures Bounded(Code(e, base, pool), base, pool)
    decreases e, 3
  {
    if IsLeaf(e) {
      LeafBounded(e, base, pool);
    } else if HasInner(e) {
      InnerBounded(e, base, pool);
    } else if e.ThreadFirst? || e.ThreadLast? {
      InOrderBounded(e, 0, base, pool);
    } else if e.Comp? {
      ReversedBounded(e, |e.stages|, base, pool);
    } else if e.If? {
      IfBounded(e, base, pool);
    } else if e.When? {
      WhenBounded(e, base, pool);
    } else {
      ReduceBounded(e, base, pool);
    }
  }

  lemma LeafBounded(e: Expr, base: nat, pool: nat)
    requires IsLeaf(e)
    ensures Bounded(LeafCode(e, pool), base, pool)
  {
    var c := LeafCode(e, pool);
    if IsNullary(e) {
      Single(NullaryOp(e), pool, pool);
      Single(NullaryOp(e), base, base + 1);
    } else if e.Literal? {
      Single(Push(pool), pool, pool + 1);
      Single(Push(pool), base, base + 1);
    } else {
      var op := c.code[1];
      assert c.code == [Push(pool)] + [op];
      Single(Push(pool), pool, pool + 1);
      Single(op, pool, pool + 1);
      Single(Push(pool), base, base + 2);
      Single(op, base, base + 2);
      PushesAppend([Push(pool)], [op], pool, pool + 1);
      JumpsAppend([Push(pool)], [op], base, base + 2);
    }
  }

  lemma {:induction false} InnerBounded(e: Expr, base: nat, pool: nat)
    requires HasInner(e)
    ensures Bounded(InnerCode(e, base, pool), base, pool)
    decreases e, 1
  {
    var c := Code(e.inner, base, pool);
    CodeBounded(e.inner, base, pool);
    PlainBounded(UnaryOp(e), base + |c.code|, pool + |c.consts|);
    ThenBounded(c, Chunk([UnaryOp(e)], []), base, pool);
  }

  lemma {:induction false} InOrderBounded(e: Expr, i: nat, base: nat, pool: nat)
    requires (e.ThreadFirst? || e.ThreadLast?) && i <= |e.stages|
    ensures Bounded(InOrder(e, i, base, pool), base, pool)
    decreases e, 1, |e.stages| - i
  {
    if i < |e.stages| {
      var c := Code(e.stages[i], base, pool);
      CodeBounded(e.stages[i], base, pool);
      InOrderBounded(e, i + 1, base + |c.code|, pool + |c.consts|);
      ThenBounded(c, InOrder(e, i + 1, base + |c.code|, pool + |c.consts|), base, pool);
    }
  }

  lemma {:induction false} ReversedBounded(e: Expr, i: nat, base: nat, pool: nat)
    requires e.Comp? && i <= |e.stages|
    ensures Bounded(Reversed(e, i, base, pool), base, pool)
    decreases e, 1, i
  {
    if i > 0 {
      var c := Code(e.stages[i - 1], base, pool);
      CodeBounded(e.stages[i - 1], base, pool);
      ReversedBounded(e, i - 1, base + |c.code|, pool + |c.consts|);
      ThenBounded(c, Reversed(e, i - 1, base + |c.code|, pool + |c.consts|), base, pool);
    }
  }

  lemma IfBounded(e: Expr, base: nat, pool: nat)
    requires e.If?
    ensures Bounded(IfCode(e, base, pool), base, pool)
    decreases e, 2
  {
    if e.elseExpr.Some? {
      IfElseBounded(e, base, pool);
    } else {
      IfThenBounded(e, base, pool);
    }
  }

  lemma {:induction false} IfThenBounded(e: Expr, base: nat, pool: nat)
    requires e.If? && e.elseExpr.None?
    ensures Bounded(IfCode(e, base, pool), base, pool)
    decreases e, 1
  {
    var t := Code(e.test, base, pool);
    CodeBounded(e.test, base, pool);
    var th := Code(e.thenExpr, base + |t.code| + 1, pool + |t.consts|);
    IfThenLayout(e, base, pool);
    CodeBounded(e.thenExpr, base + |t.code| + 1, pool + |t.consts|);
    GuardedBounded(base, t, th, pool);
  }

  lemma IfElseLayout(e: Expr, base: nat, pool: nat)
    requires e.If? && e.elseExpr.Some?
    ensures var t := Code(e.test, base, pool);
            var th := Code(e.thenExpr, base + |t.code| + 1, pool + |t.consts|);
            IfCode(e, base, pool) ==
              Branched(base, t, th, Code(e.elseExpr.value, base + |t.code| + 1 + |th.code| + 1, pool + |t.consts| + |th.consts|))
  {
  }

  lemma IfThenLayout(e: Expr, base: nat, pool: nat)
    requires e.If? && e.elseExpr.None?
    ensures var t := Code(e.test, base, pool);
            IfCode(e, base, pool) == Guarded(base, t, Code(e.thenExpr, base + |t.code| + 1, pool + |t.consts|))
  {
  }

  /** A leaf's code does not depend on where it is placed: an operand-free node adds one
      instruction that is neither a push nor a jump and no constant; a literal pools its value and
      pushes it. */
  lemma LeafShapes(e: Expr, base: nat, pool: nat)
    requires IsLeaf(e)
    ensures Code(e, base, pool) == LeafCode(e, pool)
    ensures IsNullary(e) ==> |Code(e, base, pool).code| == 1 && Code(e, base, pool).consts == [] &&
                             !Code(e, base, pool).code[0].Push? && !IsJump(Code(e, base, pool).code[0])
    ensures e.Literal? ==> Code(e, base, pool) == Chunk([Push(pool)], [e.value])
    ensures e.Get? ==> Code(e, base, pool) == Chunk([Push(pool), OpCode.Get], [e.key])
  {
  }

  lemma LiteralCode(v: EdnValue, base: nat, pool: nat)
    ensures Code(Literal(v), base, pool) == Chunk([Push(pool)], [v])
  {
  }

  /** Which layout function a node's code is. */
  lemma CodeOf(e: Expr, base: nat, pool: nat)
    ensures (e.ThreadFirst? || e.ThreadLast?) ==> Code(e, base, pool) == InOrder(e, 0, base, pool)
    ensures e.Comp? ==> Code(e, base, pool) == Reversed(e, |e.stages|, base, pool)
    ensures e.If? ==> Code(e, base, pool) == IfCode(e, base, pool)
  {
  }

  lemma {:induction false} IfElseBounded(e: Expr, base: nat, pool: nat)
    requires e.If? && e.elseExpr.Some?
    ensures Bounded(IfCode(e, base, pool), base, pool)
    decreases e, 1
  {
    var t := Code(e.test, base, pool);
    var th := Code(e.thenExpr, base + |t.code| + 1, pool + |t.consts|);
    var el := Code(e.elseExpr.value, base + |t.code| + 1 + |th.code| + 1, pool + |t.consts| + |th.consts|);
    IfElseLayout(e, base, pool);
    IfElsePartsBounded(e, base, pool);
    BranchedBounded(base, t, th, el, pool);
  }

  lemma {:induction false} IfElsePartsBounded(e: Expr, base: nat, pool: nat)
    requires e.If? && e.elseExpr.Some?
    ensures var t := Code(e.test, base, pool);
            var th := Code(e.thenExpr, base + |t.code| + 1, pool + |t.consts|);
            Bounded(t, base, pool) && Bounded(th, base + |t.code| + 1, pool + |t.consts|) &&
            Bounded(Code(e.elseExpr.value, base + |t.code| + 1 + |th.code| + 1, pool + |t.consts| + |th.consts|),
                    base + |t.code| + 1 + |th.code| + 1, pool + |t.consts| + |th.consts|)
    decreases e, 0
  {
    var t := Code(e.test, base, pool);
    var th := Code(e.thenExpr, base + |t.code| + 1, pool + |t.consts|);
    CodeBounded(e.test, base, pool);
    CodeBounded(e.thenExpr, base + |t.code| + 1, pool + |t.consts|);
    CodeBounded(e.elseExpr.value, base + |t.code| + 1 + |th.code| + 1, pool + |t.consts| + |th.consts|);
  }


  lemma {:induction false} WhenBounded(e: Expr, base: nat, pool: nat)
    requires e.When?
    ensures Bounded(WhenCode(e, base, pool), base, pool)
    decreases e, 1
  {
    var t := Code(e.test, base, pool);
    CodeBounded(e.test, base, pool);
    CodeBounded(e.body, base + |t.code| + 1, pool + |t.consts|);
    GuardedBounded(base, t, Code(e.body, base + |t.code| + 1, pool + |t.consts|), pool);
  }

  lemma {:induction false} ReduceBounded(e: Expr, base: nat, pool: nat)
    requires e.Reduce?
    ensures Bounded(ReduceCode(e, base, pool), base, pool)
    decreases e, 1
  {
    var i := ReduceInit(e, base, pool);
    var f := Code(e.func, base + |i.code|, pool + |i.consts|);
    assert ReduceCode(e, base, pool) == Then(Then(i, f), Chunk([OpCode.Reduce], []));
    InitBounded(e, base, pool);
    CodeBounded(e.func, base + |i.code|, pool + |i.consts|);
    ThenBounded(i, f, base, pool);
    PlainBounded(OpCode.Reduce, base + |i.code| + |f.code|, pool + |i.consts| + |f.consts|);
    ThenBounded(Then(i, f), Chunk([OpCode.Reduce], []), base, pool);
  }

  lemma {:induction false} InitBounded(e: Expr, base: nat, pool: nat)
    requires e.Reduce?
    ensures Bounded(ReduceInit(e, base, pool), base, pool)
    decreases e, 0
  {
    if e.init.Some? {
      CodeBounded(e.init.value, base, pool);
    }
  }

  /** A compiled query is one the machine can run: every push names an existing constant, and
      every jump lands on an instruction or at the end. */
  lemma CompiledQueryValid(e: Expr)
    ensures ValidPushes(Code(e, 0, 0).code, Code(e, 0, 0).consts)
    ensures JumpsIn(Code(e, 0, 0).code, 0, |Code(e, 0, 0).code|)
  {
    CodeBounded(e, 0, 0);
  }

  lemma BranchedTargets(base: nat, t: Chunk, th: Chunk, el: Chunk)
    ensures var code := Branched(base, t, th, el).code;
            var elseAt := |t.code| + 1 + |th.code| + 1;
            elseAt <= |code| &&
            code[|t.code|] == JumpIfFalse(base + elseAt) &&
            code[elseAt - 1] == Jump(base + |code|) &&
            code[elseAt..] == el.code
  {
    var elseAt := |t.code| + 1 + |th.code| + 1;
    Pieces(t.code, JumpIfFalse(base + elseAt), th.code, Jump(base + elseAt + |el.code|), el.code);
  }

  lemma GuardedTarget(base: nat, t: Chunk, b: Chunk)
    ensures var code := Guarded(base, t, b).code;
            |t.code| < |code| && code[|t.code|] == JumpIfFalse(base + |code|) && code[|t.code| + 1..] == b.code
  {
    var code := Guarded(base, t, b).code;
    assert code[|t.code| + 1..] == b.code;
  }

  lemma Pieces(t: seq<OpCode>, x: OpCode, th: seq<OpCode>, y: OpCode, el: seq<OpCode>)
    ensures var code := t + [x] + th + [y] + el;
            code[|t|] == x && code[|t| + 1 + |th|] == y && code[|t| + 1 + |th| + 1..] == el
  {
    var code := t + [x] + th + [y] + el;
    assert code[|t| + 1 + |th| + 1..] == el;
  }

  /** The two threading directions compile alike: the code does not say where a value is
      placed, only in which order the stages run. */
  lemma ThreadingDirection(stages: seq<Expr>, base: nat, pool: nat)
    ensures Code(ThreadFirst(stages), base, pool) == Code(ThreadLast(stages), base, pool)
  {
    CodeOf(ThreadFirst(stages), base, pool);
    CodeOf(ThreadLast(stages), base, pool);
    InOrderAlike(stages, 0, base, pool);
  }

  lemma {:induction false} InOrderAlike(stages: seq<Expr>, i: nat, base: nat, pool: nat)
    requires i <= |stages|
    ensures InOrder(ThreadFirst(stages), i, base, pool) == InOrder(ThreadLast(stages), i, base, pool)
    decreases |stages| - i
  {
    if i < |stages| {
      var c := Code(stages[i], base, pool);
      InOrderAlike(stages, i + 1, base + |c.code|, pool + |c.consts|);
    }
  }

  function Reverse(s: seq<Expr>): (r: seq<Expr>)
    ensures |r| == |s|
  {
    seq(|s|, k requires 0 <= k < |s| => s[|s| - 1 - k])
  }

  /** A composition compiles exactly as the threading of its stages in reverse order. */
  lemma CompIsReversedThreading(stages: seq<Expr>, base: nat, pool: nat)
    ensures Code(Comp(stages), base, pool) == Code(ThreadFirst(Reverse(stages)), base, pool)
  {
    CodeOf(Comp(stages), base, pool);
    CodeOf(ThreadFirst(Reverse(stages)), base, pool);
    ReversedInOrder(stages, |stages|, base, pool);
  }

  lemma {:induction false} ReversedInOrder(stages: seq<Expr>, i: nat, base: nat, pool: nat)
    requires i <= |stages|
    ensures Reversed(Comp(stages), i, base, pool) == InOrder(ThreadFirst(Reverse(stages)), |stages| - i, base, pool)
    decreases i
  {
    if i > 0 {
      assert Reverse(stages)[|stages| - i] == stages[i - 1];
      var c := Code(stages[i - 1], base, pool);
      ReversedInOrder(stages, i - 1, base + |c.code|, pool + |c.consts|);
    }
  }

  /** An `if` whose test is an operand-free node and whose branches are literals: the test, a
      jump to the else push, the then push, a jump to the end, the else push; both branch values
      are pooled, then first. */
  lemma IfOfLiterals(test: Expr, a: EdnValue, b: EdnValue, base: nat, pool: nat)
    requires IsNullary(test)
    ensures Code(If(test, Literal(a), Some(Literal(b))), base, pool) ==
            Chunk([NullaryOp(test), JumpIfFalse(base + 4), Push(pool), Jump(base + 5), Push(pool + 1)], [a, b])
  {
    var e := If(test, Literal(a), Some(Literal(b)));
    CodeOf(e, base, pool);
    IfElseLayout(e, base, pool);
    LeafShapes(test, base, pool);
    LiteralCode(a, base + 2, pool);
    LiteralCode(b, base + 4, pool + 1);
    BranchedLiterals(NullaryOp(test), a, b, base, pool);
  }

  lemma BranchedLiterals(op: OpCode, a: EdnValue, b: EdnValue, base: nat, pool: nat)
    ensures Branched(base, Chunk([op], []), Chunk([Push(pool)], [a]), Chunk([Push(pool + 1)], [b])) ==
            Chunk([op, JumpIfFalse(base + 4), Push(pool), Jump(base + 5), Push(pool + 1)], [a, b])
  {
    assert [op] + [JumpIfFalse(base + 4)] + [Push(pool)] + [Jump(base + 5)] + [Push(pool + 1)] ==
           [op, JumpIfFalse(base + 4), Push(pool), Jump(base + 5), Push(pool + 1)];
  }
}
