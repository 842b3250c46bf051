/**
  The record/query binder of model/database.go: the `model` struct holds the
  current query chain or transaction handle (`db`), the bound record
  (`tempData`) and a snapshot taken when a transaction begins (`memoryDB`).
  Every builder method replaces `db` with a longer chain and returns the
  receiver; `Load` replaces `tempData`; `BeginTransaction` moves `db` into
  `memoryDB` and switches `db` to the transaction; commit and rollback act on
  `db` and restore nothing; `Paginate` chains offset and limit onto `db` for
  good and computes the page metadata.

  `Apply` states each transition on a `State` value, `Perform` a sequence of
  them; the class `Binder` mirrors the Go struct and every method is proved
  to perform exactly the transition `Apply` gives.
 */
module Database {
  import opened Common
  import GoStrings
  import opened Gorm

  /** The three fields of the Go `model` struct. */
  datatype State = State(db: Handle, tempData: Target, memoryDB: Handle)

  /** The binder methods that change state. */
  datatype Op =
    | Load(target: Target)
    | Where(query: string, args: seq<Arg>)
    | OrderBy(column: string, mode: string)
    | Limit(limit: int)
    | With(relation: string)
    | GroupBy(column: string)
    | Having(query: string, args: seq<Arg>)
    | Distinct(columns: seq<string>)
    | ApplyScope(scope: Handle -> Handle)
    | WithCount(relation: string)
    | WhereHas(relation: string, fn: Callback)
    | OrWhereHas(relation: string, fn: Callback)
    | BeginTransaction(tx: Handle)
    | CommitTransaction
    | RollbackTransaction
    | Paginate(page: int, perPage: int)

  /** The methods that only replace `db` with a refined chain. */
  predicate IsBuilder(op: Op)
  {
    !op.Load? && !op.BeginTransaction? && !op.CommitTransaction? && !op.RollbackTransaction?
  }

  /** The order clause `OrderBy` builds: the column, a space, and the mode upper-cased, unvalidated. */
  function OrderSpec(column: string, mode: string): (spec: string)
    ensures |spec| == |column| + 1 + |mode|
    ensures spec[..|column|] == column && spec[|column|] == ' '
    ensures forall i :: 0 <= i < |mode| ==> spec[|column| + 1 + i] == GoStrings.UpperChar(mode[i])
  {
    column + " " + GoStrings.ToUpper(mode)
  }

  /** The `[]interface{}` that `Distinct` passes to GORM: the columns, boxed, in order. */
  function Boxed(columns: seq<string>): (boxed: seq<Arg>)
    ensures |boxed| == |columns|
    ensures forall i :: 0 <= i < |columns| ==> boxed[i] == Str(columns[i])
  {
    seq(|columns|, i requires 0 <= i < |columns| => Str(columns[i]))
  }

  /** The select expression `WithCount` adds: `COUNT(r.id) as r_count`. */
  function CountSelect(relation: string): string
  {
    "COUNT(" + relation + ".id) as " + relation + "_count"
  }

  /** The select expressions of `Max` and `Min`; the column is bound to the placeholder as a value. */
  const MaxSelect: string := "MAX(?) as max"
  const MinSelect: string := "MIN(?) as min"

  /** The offset `Paginate` applies: pages are numbered from 1. */
  function PageOffset(page: int, perPage: int): int
  {
    (page - 1) * perPage
  }

  /** The state after one binder method. */
  function Apply(s: State, op: Op): State
  {
    match op
    case Load(t) => s.(tempData := t)
    case Where(q, args) => s.(db := Add(s.db, Cond(q, args)))
    case OrderBy(column, mode) => s.(db := Add(s.db, Order(OrderSpec(column, mode))))
    case Limit(n) => s.(db := Add(s.db, LimitTo(n)))
    case With(relation) => s.(db := Add(s.db, Preload(relation)))
    case GroupBy(column) => s.(db := Add(s.db, Group(column)))
    case Having(q, args) => s.(db := Add(s.db, HavingCond(q, args)))
    case Distinct(columns) => s.(db := Add(s.db, DistinctOn(Boxed(columns))))
    case ApplyScope(scope) => s.(db := scope(s.db))
    case WithCount(r) =>
      s.(db := Add(Add(Add(s.db, Join(r)), SelectExpr(CountSelect(r), [])), Group(r + ".id")))
    case WhereHas(r, fn) => s.(db := Add(Add(s.db, Join(r)), CondFn(fn)))
    case OrWhereHas(r, fn) => s.(db := Add(Add(s.db, Join(r)), OrCondFn(fn)))
    case BeginTransaction(tx) => State(tx, s.tempData, s.db)
    case CommitTransaction => s
    case RollbackTransaction => s
    case Paginate(page, perPage) =>
      s.(db := Add(Add(s.db, OffsetBy(PageOffset(page, perPage))), LimitTo(perPage)))
  }

  /** The state after a sequence of binder methods, in order. */
  function Perform(s: State, ops: seq<Op>): State
    decreases |ops|
  {
    if |ops| == 0 then s else Perform(Apply(s, ops[0]), ops[1..])
  }

  // ---------------------------------------------------------------------------
  // Properties of single transitions
  // ---------------------------------------------------------------------------

  /**
    Every builder other than `ApplyScope` refines `db` on the same connection;
    every builder keeps `tempData` and `memoryDB`.
   */
  lemma BuilderFrame(s: State, op: Op)
    requires IsBuilder(op)
    ensures Apply(s, op).tempData == s.tempData && Apply(s, op).memoryDB == s.memoryDB
    ensures !op.ApplyScope? ==> Refines(Apply(s, op).db, s.db)
  {
    var d := s.db;
    match op
    case WithCount(r) =>
      RefinesPreorder(d, Add(d, Join(r)), Add(Add(d, Join(r)), SelectExpr(CountSelect(r), [])), Join(r));
      RefinesPreorder(Add(d, Join(r)), Add(d, Join(r)), Add(Add(d, Join(r)), SelectExpr(CountSelect(r), [])), SelectExpr(CountSelect(r), []));
      var d2 := Add(Add(d, Join(r)), SelectExpr(CountSelect(r), []));
      RefinesPreorder(d2, d2, d2, Group(r + ".id"));
      RefinesPreorder(d, d2, Add(d2, Group(r + ".id")), Join(r));
    case WhereHas(r, fn) =>
      RefinesPreorder(d, Add(d, Join(r)), Add(Add(d, Join(r)), CondFn(fn)), Join(r));
      RefinesPreorder(Add(d, Join(r)), Add(d, Join(r)), Add(d, Join(r)), CondFn(fn));
    case OrWhereHas(r, fn) =>
      RefinesPreorder(d, Add(d, Join(r)), Add(Add(d, Join(r)), OrCondFn(fn)), Join(r));
      RefinesPreorder(Add(d, Join(r)), Add(d, Join(r)), Add(d, Join(r)), OrCondFn(fn));
    case Paginate(page, perPage) =>
      var o := OffsetBy(PageOffset(page, perPage));
      RefinesPreorder(d, Add(d, o), Add(Add(d, o), LimitTo(perPage)), o);
      RefinesPreorder(Add(d, o), Add(d, o), Add(d, o), LimitTo(perPage));
    case ApplyScope(_) =>
    case Where(q, args) => RefinesPreorder(d, d, d, Cond(q, args));
    case OrderBy(column, mode) => RefinesPreorder(d, d, d, Order(OrderSpec(column, mode)));
    case Limit(n) => RefinesPreorder(d, d, d, LimitTo(n));
    case With(relation) => RefinesPreorder(d, d, d, Preload(relation));
    case GroupBy(column) => RefinesPreorder(d, d, d, Group(column));
    case Having(q, args) => RefinesPreorder(d, d, d, HavingCond(q, args));
    case Distinct(columns) => RefinesPreorder(d, d, d, DistinctOn(Boxed(columns)));
  }

  /**
    A second `BeginTransaction` overwrites the snapshot with the first
    transaction: the handle held before the first one is in no field any more
    unless it happens to equal one of the two transaction handles.
   */
  lemma NestedBeginLosesHandle(s: State, tx1: Handle, tx2: Handle)
    ensures Perform(s, [BeginTransaction(tx1), BeginTransaction(tx2)]) == State(tx2, s.tempData, tx1)
    ensures s.db != tx1 && s.db != tx2 ==>
      var t := Perform(s, [BeginTransaction(tx1), BeginTransaction(tx2)]);
      t.db != s.db && t.memoryDB != s.db
  {
    var ops := [BeginTransaction(tx1), BeginTransaction(tx2)];
    var s1 := State(tx1, s.tempData, s.db);
    assert ops[1..] == [BeginTransaction(tx2)];
    calc {
      Perform(s, ops);
      Perform(s1, [BeginTransaction(tx2)]);
      Perform(State(tx2, s.tempData, tx1), []);
    }
  }

  // ---------------------------------------------------------------------------
  // Properties of sequences of transitions
  // ---------------------------------------------------------------------------

  /**
    Any chain of builders keeps the bound record and the snapshot, and when it
    holds no `ApplyScope` it only appends clauses to `db` on the same connection.
   */
  lemma {:induction false} BuildersOnlyRefine(s: State, ops: seq<Op>)
    requires forall i :: 0 <= i < |ops| ==> IsBuilder(ops[i])
    ensures Perform(s, ops).tempData == s.tempData && Perform(s, ops).memoryDB == s.memoryDB
    ensures (forall i :: 0 <= i < |ops| ==> !ops[i].ApplyScope?) ==> Refines(Perform(s, ops).db, s.db)
    decreases |ops|
  {
    if |ops| == 0 {
      RefinesPreorder(s.db, s.db, s.db, Cond("", []));
    } else {
      var s1 := Apply(s, ops[0]);
      BuilderFrame(s, ops[0]);
      BuildersOnlyRefine(s1, ops[1..]);
      if forall i :: 0 <= i < |ops| ==> !ops[i].ApplyScope? {
        RefinesPreorder(s.db, s1.db, Perform(s1, ops[1..]).db, Cond("", []));
      }
    }
  }

  /**
    Commit and rollback restore nothing: after `BeginTransaction(tx)`, any
    sequence of methods without a further `BeginTransaction` or `ApplyScope`
    leaves `db` on the transaction's connection and the snapshot untouched, so
    the binder never returns to the connection it had before.
   */
  lemma {:induction false} TransactionNeverRestored(s: State, tx: Handle, ops: seq<Op>)
    requires forall i :: 0 <= i < |ops| ==> !ops[i].BeginTransaction? && !ops[i].ApplyScope?
    ensures Perform(s, [BeginTransaction(tx)] + ops).db.conn == tx.conn
    ensures Perform(s, [BeginTransaction(tx)] + ops).memoryDB == s.db
    ensures tx.conn != s.db.conn ==> Perform(s, [BeginTransaction(tx)] + ops).db.conn != s.db.conn
  {
    assert ([BeginTransaction(tx)] + ops)[1..] == ops;
    AfterBeginStaysOnTx(Apply(s, BeginTransaction(tx)), ops);
  }

  /** Without `BeginTransaction` or `ApplyScope`, the connection and the snapshot never change. */
  lemma {:induction false} AfterBeginStaysOnTx(s: State, ops: seq<Op>)
    requires forall i :: 0 <= i < |ops| ==> !ops[i].BeginTransaction? && !ops[i].ApplyScope?
    ensures Perform(s, ops).db.conn == s.db.conn && Perform(s, ops).memoryDB == s.memoryDB
    decreases |ops|
  {
    if |ops| > 0 {
      AfterBeginStaysOnTx(Apply(s, ops[0]), ops[1..]);
    }
  }

  /**
    The snapshot is never read: two states that differ only in `memoryDB`
    reach the same `db` and `tempData` after any sequence of methods.
   */
  lemma {:induction false} SnapshotNeverRead(s: State, other: Handle, ops: seq<Op>)
    ensures Perform(s.(memoryDB := other), ops).db == Perform(s, ops).db
    ensures Perform(s.(memoryDB := other), ops).tempData == Perform(s, ops).tempData
    decreases |ops|
  {
    if |ops| > 0 {
      var s1 := Apply(s, ops[0]);
      var t1 := Apply(s.(memoryDB := other), ops[0]);
      assert t1 == s1.(memoryDB := t1.memoryDB);
      SnapshotNeverRead(s1, t1.memoryDB, ops[1..]);
    }
  }

  /**
    Offset and limit stay on the chain: after `Paginate`, any further builders
    other than `ApplyScope` keep the two paging clauses in the chain, so a
    later `Count` or second `Paginate` runs on the paged chain.
   */
  lemma PagingClausesPersist(s: State, page: int, perPage: int, ops: seq<Op>)
    requires forall i :: 0 <= i < |ops| ==> IsBuilder(ops[i]) && !ops[i].ApplyScope?
    ensures var paged := Perform(s, [Paginate(page, perPage)] + ops).db.clauses;
      var n := |s.db.clauses|;
      n + 2 <= |paged| && paged[n] == OffsetBy(PageOffset(page, perPage)) && paged[n + 1] == LimitTo(perPage)
  {
    var s1 := Apply(s, Paginate(page, perPage));
    assert ([Paginate(page, perPage)] + ops)[1..] == ops;
    BuildersOnlyRefine(s1, ops);
    var n := |s.db.clauses|;
    var final := Perform(s1, ops).db.clauses;
    assert final[..n + 2] == s1.db.clauses;
  }

  // ---------------------------------------------------------------------------
  // Pagination arithmetic
  // ---------------------------------------------------------------------------

  /** The Go `Pagination` struct returned by `Paginate`. */
  datatype Pagination = Pagination(
    records: Target,
    totalRecords: int,
    totalPages: int,
    currentPage: int,
    recordsPerPage: int)

  /** What a Go `int` gets from converting an infinite or NaN `float64` on amd64. */
  const MinInt64: int := -0x8000_0000_0000_0000

  /**
    `int(math.Ceil(float64(total) / float64(perPage)))`: the ceiling of the
    exact quotient for a non-zero page size; for a zero page size the quotient
    is infinite or NaN and the conversion yields `MinInt64`.
   */
  function TotalPages(total: int, perPage: int): int
  {
    if perPage > 0 then -((-total) / perPage)
    else if perPage < 0 then -(total / (-perPage))
    else MinInt64
  }

  /**
    For a positive page size the page count is the least number of pages that
    hold all records: `(pages - 1) * perPage < total <= pages * perPage`.
   */
  lemma {:induction false} TotalPagesIsCeiling(total: int, perPage: int)
    requires perPage > 0
    ensures var pages := TotalPages(total, perPage);
      (pages - 1) * perPage < total <= pages * perPage
  {
    var q := (-total) / perPage;
    var r := (-total) % perPage;
    assert -total == q * perPage + r && 0 <= r < perPage;
    var pages := -q;
    assert pages * perPage == -(q * perPage);
    assert (pages - 1) * perPage == pages * perPage - perPage;
  }

  /** With a positive page size there are no pages exactly when there are no records. */
  lemma TotalPagesZero(total: int, perPage: int)
    requires perPage > 0 && total >= 0
    ensures TotalPages(total, perPage) >= 0
    ensures TotalPages(total, perPage) == 0 <==> total == 0
  {
    TotalPagesIsCeiling(total, perPage);
  }

  /**
    Every page from 1 to the page count starts before the last record, and the
    page after the last one starts at or beyond it.
   */
  lemma PagesCoverRecords(total: int, perPage: int, page: int)
    requires perPage > 0
    ensures 1 <= page <= TotalPages(total, perPage) ==> PageOffset(page, perPage) < total
    ensures page > TotalPages(total, perPage) ==> PageOffset(page, perPage) >= total
  {
    TotalPagesIsCeiling(total, perPage);
    var pages := TotalPages(total, perPage);
    if 1 <= page <= pages {
      assert (page - 1) * perPage <= (pages - 1) * perPage;
    }
    if page > pages {
      assert (page - 1) * perPage >= pages * perPage;
    }
  }

  /** The record count a `Paginate` reports: the count, or 0 when counting failed. */
  function CountedOrZero(counted: Result<int>): int
  {
    if counted.Ok? then counted.value else 0
  }

  /** The metadata of a successful `Paginate`. */
  function PageOf(records: Target, counted: Result<int>, page: int, perPage: int): (p: Pagination)
    ensures p.records == records && p.currentPage == page && p.recordsPerPage == perPage
    ensures counted.Ok? ==> p.totalRecords == counted.value
    ensures counted.Err? ==> p.totalRecords == 0
    ensures perPage > 0 ==>
      (p.totalPages - 1) * perPage < p.totalRecords <= p.totalPages * perPage
  {
    var total := CountedOrZero(counted);
    assert perPage > 0 ==> (TotalPages(total, perPage) - 1) * perPage < total <= TotalPages(total, perPage) * perPage by {
      if perPage > 0 {
        TotalPagesIsCeiling(total, perPage);
      }
    }
    Pagination(records, total, TotalPages(total, perPage), page, perPage)
  }

  /** Twenty-five records, ten per page: the third page starts at record 20 and is the last. */
  lemma PaginateExample()
    ensures TotalPages(25, 10) == 3 && PageOffset(3, 10) == 20
    ensures PageOf(Ref(0), Ok(25), 3, 10) == Pagination(Ref(0), 25, 3, 3, 10)
    ensures PageOf(Ref(0), Err(Error("timeout")), 3, 10).totalPages == 0
  {
  }

  // ---------------------------------------------------------------------------
  // The binder
  // ---------------------------------------------------------------------------

  /** The Go `model` struct: one query chain, one bound record, one snapshot. */
  class Binder {
    var db: Handle
    var tempData: Target
    var memoryDB: Handle

    /** The three fields as a value. */
    function Value(): State
      reads this
    {
      State(db, tempData, memoryDB)
    }

    /** `NewModel(db)`: both handles are the given connection and no record is bound. */
    constructor NewModel(conn: Handle)
      ensures db == conn && memoryDB == conn && tempData == Nil
    {
      db, tempData, memoryDB := conn, Nil, conn;
    }

    /** `Load(model)`: binds the record and returns the receiver. */
    method Load(target: Target) returns (self: Binder)
      modifies this
      ensures self == this && Value() == Apply(old(Value()), Op.Load(target))
      ensures tempData == target && db == old(db) && memoryDB == old(memoryDB)
    {
      tempData := target;
      self := this;
    }

    /** `Where(query, args...)`. */
    method Where(query: string, args: seq<Arg>) returns (self: Binder)
      modifies this
      ensures self == this && Value() == Apply(old(Value()), Op.Where(query, args))
    {
      db := Add(db, Cond(query, args));
      self := this;
    }

    /** `OrderBy(column, mode)`: orders by the column and the upper-cased mode, unvalidated. */
    method OrderBy(column: string, mode: string) returns (self: Binder)
      modifies this
      ensures self == this && Value() == Apply(old(Value()), Op.OrderBy(column, mode))
    {
      var upper := GoStrings.ToUpper(mode);
      var order := column + " " + upper;
      db := Add(db, Order(order));
      self := this;
    }

    /** `Limit(limit)`. */
    method Limit(limit: int) returns (self: Binder)
      modifies this
      ensures self == this && Value() == Apply(old(Value()), Op.Limit(limit))
    {
      db := Add(db, LimitTo(limit));
      self := this;
    }

    /** `With(relation)`: eager loading through `Preload`. */
    method With(relation: string) returns (self: Binder)
      modifies this
      ensures self == this && Value() == Apply(old(Value()), Op.With(relation))
    {
      db := Add(db, Preload(relation));
      self := this;
    }

    /** `GroupBy(column)`. */
    method GroupBy(column: string) returns (self: Binder)
      modifies this
      ensures self == this && Value() == Apply(old(Value()), Op.GroupBy(column))
    {
      db := Add(db, Group(column));
      self := this;
    }

    /** `Having(query, args...)`. */
    method Having(query: string, args: seq<Arg>) returns (self: Binder)
      modifies this
      ensures self == this && Value() == Apply(old(Value()), Op.Having(query, args))
    {
      db := Add(db, HavingCond(query, args));
      self := this;
    }

    /** `Distinct(columns...)`: boxes the columns one by one into a fresh slice, then chains it. */
    method Distinct(columns: seq<string>) returns (self: Binder)
      modifies this
      ensures self == this && Value() == Apply(old(Value()), Op.Distinct(columns))
    {
      var boxed := new Arg[|columns|](_ => Bool(false));
      for i := 0 to |columns|
        invariant forall k :: 0 <= k < i ==> boxed[k] == Str(columns[k])
        invariant Value() == old(Value())
      {
        boxed[i] := Str(columns[i]);
      }
      assert boxed[..] == Boxed(columns);
      db := Add(db, DistinctOn(boxed[..]));
      self := this;
    }

    /** `ApplyScope(scope)`: `db` becomes whatever the scope returns for it. */
    method ApplyScope(scope: Handle -> Handle) returns (self: Binder)
      modifies this
      ensures self == this && Value() == Apply(old(Value()), Op.ApplyScope(scope))
    {
      db := scope(db);
      self := this;
    }

    /** `WithCount(relation)`: join, count select and group by the relation's id. */
    method WithCount(relation: string) returns (self: Binder)
      modifies this
      ensures self == this && Value() == Apply(old(Value()), Op.WithCount(relation))
    {
      db := Add(Add(Add(db, Join(relation)), SelectExpr(CountSelect(relation), [])), Group(relation + ".id"));
      self := this;
    }

    /** `WhereHas(relation, query)`. */
    method WhereHas(relation: string, query: Callback) returns (self: Binder)
      modifies this
      ensures self == this && Value() == Apply(old(Value()), Op.WhereHas(relation, query))
    {
      db := Add(Add(db, Join(relation)), CondFn(query));
      self := this;
    }

    /** `OrWhereHas(relation, query)`. */
    method OrWhereHas(relation: string, query: Callback) returns (self: Binder)
      modifies this
      ensures self == this && Value() == Apply(old(Value()), Op.OrWhereHas(relation, query))
    {
      db := Add(Add(db, Join(relation)), OrCondFn(query));
      self := this;
    }

    /**
      `BeginTransaction()`: `begin` is GORM's `Begin`, which opens a transaction
      for the current chain; the chain moves to `memoryDB` and `db` becomes
      the transaction handle.
     */
    method BeginTransaction(begin: Handle -> Handle) returns (self: Binder)
      modifies this
      ensures self == this && Value() == Apply(old(Value()), Op.BeginTransaction(begin(old(db))))
      ensures memoryDB == old(db) && db == begin(old(db)) && tempData == old(tempData)
    {
      var tx := begin(db);
      memoryDB := db;
      db := tx;
      self := this;
    }

    /**
      `CommitTransaction()`: the error of GORM's `Commit` on the current `db`;
      neither handle changes.
     */
    method CommitTransaction(commit: Handle -> Option<Error>) returns (err: Option<Error>)
      ensures err == commit(db)
      ensures Value() == Apply(old(Value()), Op.CommitTransaction)
    {
      err := commit(db);
    }

    /**
      `RollbackTransaction()`: the error of GORM's `Rollback` on the current
      `db`; neither handle changes.
     */
    method RollbackTransaction(rollback: Handle -> Option<Error>) returns (err: Option<Error>)
      ensures err == rollback(db)
      ensures Value() == Apply(old(Value()), Op.RollbackTransaction)
    {
      err := rollback(db);
    }

    /**
      `Count()`: `count` is GORM's `Count` on the current chain. A failure
      gives 0 and the error; otherwise the count and no error.
     */
    method Count(count: Handle -> Result<int>) returns (n: int, err: Option<Error>)
      ensures count(db).Err? ==> n == 0 && err == Some(count(db).error)
      ensures count(db).Ok? ==> n == count(db).value && err == None
    {
      var counted := count(db);
      if counted.Err? {
        return 0, Some(counted.error);
      }
      return counted.value, None;
    }

    /**
      `Find(id)`: `first` is GORM's `First` into the bound record; the bound
      record is returned whether or not it failed.
     */
    method Find(id: nat, first: (Handle, Target, nat) -> Option<Error>) returns (data: Target, err: Option<Error>)
      ensures data == tempData && err == first(db, tempData, id)
    {
      err := first(db, tempData, id);
      data := tempData;
    }

    /** `Get()`: `find` is GORM's `Find` into the bound record on the current chain. */
    method Get(find: (Handle, Target) -> Option<Error>) returns (err: Option<Error>)
      ensures err == find(db, tempData)
    {
      err := find(db, tempData);
    }

    /** `Save()`: `save` is GORM's `Save` of the bound record; its error is passed on. */
    method Save(save: (Handle, Target) -> Option<Error>) returns (err: Option<Error>)
      ensures err == save(db, tempData)
    {
      var saved := save(db, tempData);
      if saved.Some? {
        return saved;
      }
      return None;
    }

    /** `Delete()`: `delete` is GORM's `Delete` of the bound record. */
    method Delete(delete: (Handle, Target) -> Option<Error>) returns (err: Option<Error>)
      ensures err == delete(db, tempData)
    {
      err := delete(db, tempData);
    }

    /** `UpdateColumn(column, value)`: `update` is GORM's `UpdateColumn` on the current chain. */
    method UpdateColumn(column: string, value: Arg, update: (Handle, string, Arg) -> Option<Error>)
      returns (err: Option<Error>)
      ensures err == update(db, column, value)
    {
      err := update(db, column, value);
    }

    /** `UpdateColumns(values)`: `update` is GORM's `UpdateColumns` on the current chain. */
    method UpdateColumns(values: map<string, Arg>, update: (Handle, map<string, Arg>) -> Option<Error>)
      returns (err: Option<Error>)
      ensures err == update(db, values)
    {
      err := update(db, values);
    }

    /**
      `Max(column, result)`: `scan` is GORM's `Scan` into `result`, run on the
      current chain with the aggregate select added; that chain is not kept.
     */
    method Max(column: string, result: Target, scan: (Handle, Target) -> Option<Error>)
      returns (err: Option<Error>)
      ensures err == scan(Add(db, SelectExpr(MaxSelect, [Str(column)])), result)
    {
      var query := Add(db, SelectExpr(MaxSelect, [Str(column)]));
      err := scan(query, result);
    }

    /** `Min(column, result)`: as `Max`, with the minimum. */
    method Min(column: string, result: Target, scan: (Handle, Target) -> Option<Error>)
      returns (err: Option<Error>)
      ensures err == scan(Add(db, SelectExpr(MinSelect, [Str(column)])), result)
    {
      var query := Add(db, SelectExpr(MinSelect, [Str(column)]));
      err := scan(query, result);
    }

    /**
      `Paginate(model, page, perPage)`. `count` is GORM's `Count` on the chain
      with `Model(model)` added; its error is ignored and leaves the total at
      0. Offset and limit are then chained onto `db` for good, and `find` is
      GORM's `Find(model)` on that chain: on its error there is no
      pagination, otherwise the page metadata.
     */
    method Paginate(model: Target, page: int, perPage: int,
                    count: Handle -> Result<int>, find: (Handle, Target) -> Option<Error>)
      returns (pagination: Option<Pagination>, err: Option<Error>)
      modifies this
      ensures Value() == Apply(old(Value()), Op.Paginate(page, perPage))
      ensures find(db, model).Some? ==> pagination == None && err == find(db, model)
      ensures find(db, model).None? ==>
        err == None && pagination == Some(PageOf(model, count(Add(old(db), ModelOf(model))), page, perPage))
    {
      var counted := count(Add(db, ModelOf(model)));
      var totalRecords := if counted.Ok? then counted.value else 0;

      var offset := (page - 1) * perPage;
      db := Add(Add(db, OffsetBy(offset)), LimitTo(perPage));

      err := find(db, model);
      if err.Some? {
        return None, err;
      }

      var totalPages := TotalPages(totalRecords, perPage);
      pagination := Some(Pagination(model, totalRecords, totalPages, page, perPage));
    }
  }
}
