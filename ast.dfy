/**
 * The query syntax tree consumed by the analyzer and the tree-walking
 * evaluator.  Besides the variants of the tree proper it carries the two
 * shapes other stages of the same pipeline build: `Symbol`, which the query
 * parser stages a bare symbol into, and `GetInOf`, the get-in node with an
 * explicit input expression that the analyzer builds.
 */
module Ast {
  import opened Errors
  import opened Value

  datatype Expr =
      // selectors
    | Identity
    | Get(key: EdnValue)
    | GetIn(path: seq<EdnValue>)
    | GetInOf(input: Expr, path: seq<EdnValue>)
    | KeywordAccess(name: string)
    | KeywordGet(name: string, target: Expr)
    | KeywordGetWithDefault(name: string, target: Expr, default: Expr)
      // collection operations
    | First(coll: Expr)
    | Last(coll: Expr)
    | Rest(coll: Expr)
    | Take(n: Expr, coll: Expr)
    | Drop(n: Expr, coll: Expr)
    | Nth(n: Expr, coll: Expr)
    | Count(coll: Expr)
    | Keys(coll: Expr)
    | Vals(coll: Expr)
      // filtering and mapping
    | Map(func: Expr)
    | Remove(func: Expr)
    | SelectKeys(keys: seq<EdnValue>)
    | Select(func: Expr)
      // predicates
    | IsNil
    | IsEmpty
    | Contains(probe: Expr)
    | IsNumber
    | IsString
    | IsKeyword
    | IsBoolean
      // comparison
    | Equal(left: Expr, right: Expr)
    | LessThan(other: Expr)
    | GreaterThan(other: Expr)
    | LessEqual(other: Expr)
    | GreaterEqual(other: Expr)
      // composition
    | ThreadFirst(stages: seq<Expr>)
    | ThreadLast(stages: seq<Expr>)
    | Comp(stages: seq<Expr>)
      // conditionals
    | If(test: Expr, thenExpr: Expr, elseExpr: Option<Expr>)
    | When(test: Expr, body: Expr)
      // aggregation
    | Reduce(func: Expr, init: Option<Expr>)
    | Apply(func: Expr)
    | GroupBy(func: Expr)
    | Frequencies
      // raw forms before analysis
    | List(elements: seq<EdnValue>)
    | Symbol(name: string)
      // literals
    | Literal(value: EdnValue)
}
