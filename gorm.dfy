/**
  The part of GORM that the record binder of model/database.go relies on,
  kept abstract: a `*gorm.DB` handle is a value made of the connection it runs
  on (the pool or one transaction) and the clauses chained onto it so far.
  Builder calls return a new handle with one more clause; what GORM does with
  the clauses when a terminal call runs them (SQL generation, execution,
  decoding) is not modelled, and terminal calls appear as opaque functions of
  the handle they run on.
 */
module Gorm {
  import opened Common

  /** A value passed through to GORM as `interface{}`. */
  datatype Arg = Str(s: string) | Int(i: int) | Bool(b: bool)

  /** A caller-supplied `func(*gorm.DB) *gorm.DB` recorded in a clause, identified by a tag. */
  datatype Callback = Callback(tag: nat)

  /** A pointer to a record (or slice of records) that GORM decodes rows into. */
  datatype Target = Nil | Ref(address: nat)

  /** One chained builder call. */
  datatype Clause =
    | Cond(query: string, args: seq<Arg>)         // Where(query, args...)
    | CondFn(fn: Callback)                         // Where(func)
    | OrCondFn(fn: Callback)                       // Or(func)
    | Order(spec: string)                          // Order("column MODE")
    | LimitTo(n: int)                              // Limit(n)
    | OffsetBy(n: int)                             // Offset(n)
    | Preload(relation: string)                    // Preload(relation)
    | Group(column: string)                        // Group(column)
    | HavingCond(query: string, args: seq<Arg>)   // Having(query, args...)
    | DistinctOn(columns: seq<Arg>)                // Distinct(columns...)
    | Join(relation: string)                       // Joins(relation)
    | SelectExpr(expr: string, args: seq<Arg>)     // Select(expr, args...)
    | ModelOf(target: Target)                      // Model(target)

  /** The connection a handle runs on: the shared pool or one open transaction. */
  datatype Conn = Pool | Tx(id: nat)

  /** A `*gorm.DB` handle. */
  datatype Handle = Handle(conn: Conn, clauses: seq<Clause>)

  /** The handle a builder call returns: same connection, one more clause. */
  function Add(h: Handle, c: Clause): Handle
  {
    h.(clauses := h.clauses + [c])
  }

  /** `refined` is `h` with zero or more clauses chained on, on the same connection. */
  predicate Refines(refined: Handle, h: Handle)
  {
    refined.conn == h.conn && |h.clauses| <= |refined.clauses|
    && refined.clauses[..|h.clauses|] == h.clauses
  }

  /** Refinement is reflexive and transitive, and `Add` refines. */
  lemma RefinesPreorder(a: Handle, b: Handle, c: Handle, x: Clause)
    ensures Refines(a, a)
    ensures Refines(Add(a, x), a)
    ensures Refines(c, b) && Refines(b, a) ==> Refines(c, a)
  {
    assert Add(a, x).clauses[..|a.clauses|] == a.clauses;
    if Refines(c, b) && Refines(b, a) {
      assert c.clauses[..|a.clauses|] == c.clauses[..|b.clauses|][..|a.clauses|];
    }
  }
}
