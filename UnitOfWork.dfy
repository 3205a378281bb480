/**
 * UnitOfWork (API/DAL/UnitOfWork.cs): the EF Core context wrapper that holds
 * at most one open transaction, creates the Feature repository on first use
 * and disposes the context once. The context, its transactions and the
 * repository are stand-in classes that record only what the unit of work
 * does to them. A disposed EF Core context refuses further work: opening a
 * transaction, saving and building a repository (whose constructor calls
 * `Set<T>()`) throw ObjectDisposedException, and disposing the context also
 * disposes the transaction it holds, so a later Commit or Rollback throws.
 * A refused call is a `refused` result here and changes nothing.
 */
module UnitOfWork {
  import opened Optional

  /** MapInfoContext as the unit of work uses it: it can save and be disposed. */
  class Context {
    var saves: nat
    var disposals: nat

    constructor ()
      ensures saves == 0 && disposals == 0
    {
      saves := 0;
      disposals := 0;
    }
  }

  datatype TxPhase = Active | Committed | RolledBack

  /** An `IDbContextTransaction`: committed or rolled back, then disposed. */
  class DbTransaction {
    var phase: TxPhase
    var disposed: bool

    constructor ()
      ensures phase == Active && !disposed
    {
      phase := Active;
      disposed := false;
    }
  }

  /** The `GenericRepository<Feature>` built over the unit of work's context. */
  class GenericRepository {
    const context: Context

    constructor (context: Context)
      ensures this.context == context
    {
      this.context := context;
    }
  }

  /** The unit of work's public operations. */
  datatype Op = GetRepository | SaveChanges | Begin | Commit | Rollback | Dispose
  {
    /** Begin, Commit and Rollback: the operations that touch `_transaction`. */
    predicate MovesTransaction() {
      this == Begin || this == Commit || this == Rollback
    }
  }

  /**
   * The unit of work as a value: whether its `_transaction` field is set,
   * whether the repository exists, the disposed flag, and how often the
   * context has been disposed.
   */
  datatype State = State(open: bool, repositoryCreated: bool, disposed: bool, contextDisposals: nat)

  const Initial := State(false, false, false, 0)

  /**
   * What one operation does to the state. Once disposed, every operation
   * either throws or does nothing, so the state is frozen; before that,
   * only the first Dispose disposes the context.
   */
  function Step(s: State, op: Op): (r: State)
    ensures s.disposed ==> r == s
    ensures r.disposed <==> s.disposed || op == Dispose
    ensures r.repositoryCreated <==> s.repositoryCreated || (op == GetRepository && !s.disposed)
    ensures r.contextDisposals == if op == Dispose && !s.disposed then s.contextDisposals + 1 else s.contextDisposals
  {
    if s.disposed then s
    else
      match op
      case GetRepository => s.(repositoryCreated := true)
      case SaveChanges => s
      case Begin => s.(open := true)
      case Commit => s.(open := false)
      case Rollback => s.(open := false)
      case Dispose => s.(disposed := true, contextDisposals := s.contextDisposals + 1)
  }

  /**
   * The state after running `ops` in order. A run only adds: the disposal
   * count never falls, a created repository stays, and a disposed unit of
   * work comes out as it went in.
   */
  function Run(s: State, ops: seq<Op>): (r: State)
    ensures s.disposed ==> r == s
    ensures r.contextDisposals >= s.contextDisposals
    ensures s.repositoryCreated ==> r.repositoryCreated
  {
    if ops == [] then s else Step(Run(s, ops[..|ops| - 1]), ops[|ops| - 1])
  }

  /** Running two histories one after the other is running their concatenation. */
  lemma {:induction false} RunConcat(s: State, a: seq<Op>, b: seq<Op>)
    ensures Run(s, a + b) == Run(Run(s, a), b)
  {
    if b == [] {
      assert a + b == a;
    } else {
      RunConcat(s, a, b[..|b| - 1]);
      assert (a + b)[..|a + b| - 1] == a + b[..|b| - 1];
    }
  }

  /** The position of the first Dispose in a history, or its length when there is none. */
  function FirstDispose(ops: seq<Op>): (k: nat)
    ensures k <= |ops|
    ensures k < |ops| ==> ops[k] == Dispose
    ensures forall j :: 0 <= j < k ==> ops[j] != Dispose
  {
    if ops == [] || ops[0] == Dispose then 0 else 1 + FirstDispose(ops[1..])
  }

  /** The last operation in `ops` that opens or closes a transaction. */
  function LastTransactionOp(ops: seq<Op>): (r: Option<Op>)
    ensures r.Some? ==> r.value.MovesTransaction()
    ensures r.Some? ==>
      exists k :: 0 <= k < |ops| && ops[k] == r.value && forall j :: k < j < |ops| ==> !ops[j].MovesTransaction()
    ensures r.None? <==> forall i :: 0 <= i < |ops| ==> !ops[i].MovesTransaction()
  {
    if ops == [] then None
    else if ops[|ops| - 1].MovesTransaction() then Some(ops[|ops| - 1])
    else LastTransactionOp(ops[..|ops| - 1])
  }

  /**
   * On a live unit of work Begin sets the transaction and Commit and
   * Rollback clear it; every other operation leaves it as it is.
   */
  lemma OnlyTransactionOpsMoveTransaction(s: State, op: Op)
    ensures !op.MovesTransaction() ==> Step(s, op).open == s.open
    ensures op == Begin && !s.disposed ==> Step(s, op).open
    ensures op in {Commit, Rollback} && !s.disposed ==> !Step(s, op).open
  {
  }

  /**
   * A history without Dispose: the transaction is set exactly when the last
   * transaction operation was a Begin, and the repository exists exactly
   * when it was accessed.
   */
  lemma {:induction false} LiveRun(ops: seq<Op>)
    requires Dispose !in ops
    ensures !Run(Initial, ops).disposed
    ensures Run(Initial, ops).open <==> LastTransactionOp(ops) == Some(Begin)
    ensures Run(Initial, ops).repositoryCreated <==> GetRepository in ops
  {
    if ops != [] {
      var front := ops[..|ops| - 1];
      assert ops == front + [ops[|ops| - 1]];
      LiveRun(front);
      OnlyTransactionOpsMoveTransaction(Run(Initial, front), ops[|ops| - 1]);
    }
  }

  /** Everything after the first Dispose is refused or a no-op: the state is the one Dispose left. */
  lemma {:induction false} FrozenAfterFirstDispose(ops: seq<Op>)
    ensures FirstDispose(ops) < |ops| ==>
      Run(Initial, ops) == Step(Run(Initial, ops[..FirstDispose(ops)]), Dispose)
  {
    var k := FirstDispose(ops);
    if k < |ops| {
      var live, rest := ops[..k], ops[k + 1..];
      var disposedAt := Run(Initial, live + [Dispose]);
      assert Run(Initial, ops) == Run(disposedAt, rest) by {
        assert ops == (live + [Dispose]) + rest;
        RunConcat(Initial, live + [Dispose], rest);
      }
      assert disposedAt == Step(Run(Initial, live), Dispose) by {
        assert (live + [Dispose])[..k] == live;
      }
    }
  }

  /**
   * After any history the transaction is set exactly when the last
   * transaction operation before the first Dispose was a Begin: Begin needs
   * none closed, Commit or Rollback none open, and after Dispose nothing
   * moves it.
   */
  lemma {:induction false} OpenIffLastWasBegin(ops: seq<Op>)
    ensures Run(Initial, ops).open <==> LastTransactionOp(ops[..FirstDispose(ops)]) == Some(Begin)
  {
    var live := ops[..FirstDispose(ops)];
    assert Dispose !in live;
    LiveRun(live);
    FrozenAfterFirstDispose(ops);
    if FirstDispose(ops) == |ops| {
      assert live == ops;
    }
  }

  /** The context is disposed once by the first Dispose and never again. */
  lemma {:induction false} ContextDisposedAtMostOnce(ops: seq<Op>)
    ensures Run(Initial, ops).contextDisposals == if Run(Initial, ops).disposed then 1 else 0
    ensures Run(Initial, ops).disposed <==> Dispose in ops
  {
    if ops != [] {
      var front := ops[..|ops| - 1];
      ContextDisposedAtMostOnce(front);
      assert ops == front + [ops[|ops| - 1]];
    }
  }

  /**
   * The repository exists exactly when it was accessed before the first
   * Dispose: the first access creates it, and after Dispose an access that
   * would create it throws instead.
   */
  lemma {:induction false} RepositoryCreatedByFirstAccess(ops: seq<Op>)
    ensures Run(Initial, ops).repositoryCreated <==> GetRepository in ops[..FirstDispose(ops)]
  {
    var live := ops[..FirstDispose(ops)];
    assert Dispose !in live;
    LiveRun(live);
    FrozenAfterFirstDispose(ops);
    if FirstDispose(ops) == |ops| {
      assert live == ops;
    }
  }

  /** Disposing leaves the `_transaction` field set, and a second Dispose changes nothing. */
  lemma DisposeKeepsTransaction(s: State)
    ensures Step(s, Dispose).open == s.open
    ensures Step(Step(s, Dispose), Dispose) == Step(s, Dispose)
  {
  }

  class UnitOfWork {
    const context: Context
    var featureRepository: Option<GenericRepository>
    var transaction: Option<DbTransaction>
    var disposed: bool

    /** The current transaction, if any: what Commit, Rollback and Dispose act on. */
    function Pending(): (pending: set<object>)
      reads this
    {
      if transaction.Some? then {transaction.value} else {}
    }

    /** The current transaction is active, and disposed exactly when the context is. */
    ghost predicate Valid()
      reads this, context, Pending()
    {
      && (transaction.Some? ==> transaction.value.phase == Active && transaction.value.disposed == disposed)
      && (featureRepository.Some? ==> featureRepository.value.context == context)
      && context.disposals == if disposed then 1 else 0
    }

    /** The state-machine view of this unit of work. */
    function Snapshot(): (st: State)
      reads this, context
    {
      State(transaction.Some?, featureRepository.Some?, disposed, context.disposals)
    }

    constructor (context: Context)
      requires context.disposals == 0
      ensures Valid() && Snapshot() == Initial && this.context == context
    {
      this.context := context;
      featureRepository := None;
      transaction := None;
      disposed := false;
    }

    /**
     * `_featureRepository ??= new GenericRepository<Feature>(_context)`. A
     * repository built earlier is returned even after Dispose; building one
     * on a disposed context throws (`None`).
     */
    method FeatureRepository() returns (repository: Option<GenericRepository>)
      requires Valid()
      modifies this
      ensures Valid() && Snapshot() == Step(old(Snapshot()), GetRepository)
      ensures old(featureRepository).Some? ==> repository == old(featureRepository)
      ensures old(featureRepository).None? && !disposed ==>
        repository.Some? && fresh(repository.value) && repository.value.context == context
      ensures old(featureRepository).None? && disposed ==> repository == None
      ensures featureRepository == (if repository.Some? then repository else old(featureRepository))
      ensures transaction == old(transaction)
    {
      if featureRepository.None? {
        if disposed {
          return None;
        }
        var created := new GenericRepository(context);
        featureRepository := Some(created);
      }
      repository := featureRepository;
    }

    /** Delegates to the context; `written` is the count the database reports. A disposed context throws (`None`). */
    method SaveChanges(written: int) returns (n: Option<int>)
      requires Valid()
      modifies context
      ensures Valid() && Snapshot() == Step(old(Snapshot()), Op.SaveChanges)
      ensures !disposed ==> n == Some(written) && context.saves == old(context.saves) + 1
      ensures disposed ==> n == None && context.saves == old(context.saves)
    {
      if disposed {
        return None;
      }
      context.saves := context.saves + 1;
      n := Some(written);
    }

    /**
     * EF Core's `Database.BeginTransactionAsync` throws when the context
     * already has a current transaction (InvalidOperationException) or has
     * been disposed (ObjectDisposedException); `refused` is that exception,
     * and the field keeps what it held.
     */
    method BeginTransaction() returns (refused: bool)
      requires Valid()
      modifies this
      ensures Valid() && Snapshot() == Step(old(Snapshot()), Begin)
      ensures refused <==> old(transaction).Some? || disposed
      ensures refused ==> transaction == old(transaction)
      ensures !refused ==> transaction.Some? && fresh(transaction.value)
    {
      if transaction.Some? || disposed {
        return true;
      }
      var started := new DbTransaction();
      transaction := Some(started);
      refused := false;
    }

    /**
     * Commits, disposes and clears the current transaction; a no-op without
     * one. After Dispose the transaction is already disposed and the commit
     * throws (`refused`), leaving the field set.
     */
    method CommitTransaction() returns (refused: bool)
      requires Valid()
      modifies this, Pending()
      ensures Valid() && Snapshot() == Step(old(Snapshot()), Commit)
      ensures refused <==> old(transaction).Some? && disposed
      ensures refused ==> transaction == old(transaction) && old(transaction).value.phase == Active
      ensures !refused ==> transaction == None
      ensures !refused && old(transaction).Some? ==>
        old(transaction).value.phase == Committed && old(transaction).value.disposed
    {
      if transaction.Some? {
        if disposed {
          return true;
        }
        transaction.value.phase := Committed;
        transaction.value.disposed := true;
        transaction := None;
      }
      refused := false;
    }

    /** As CommitTransaction, rolling back instead. */
    method RollbackTransaction() returns (refused: bool)
      requires Valid()
      modifies this, Pending()
      ensures Valid() && Snapshot() == Step(old(Snapshot()), Rollback)
      ensures refused <==> old(transaction).Some? && disposed
      ensures refused ==> transaction == old(transaction) && old(transaction).value.phase == Active
      ensures !refused ==> transaction == None
      ensures !refused && old(transaction).Some? ==>
        old(transaction).value.phase == RolledBack && old(transaction).value.disposed
    {
      if transaction.Some? {
        if disposed {
          return true;
        }
        transaction.value.phase := RolledBack;
        transaction.value.disposed := true;
        transaction := None;
      }
      refused := false;
    }

    /**
     * Only the first call disposes the context, and with it the current
     * transaction, which is neither committed nor rolled back; the
     * `_transaction` field stays set.
     */
    method Dispose()
      requires Valid()
      modifies this, context, Pending()
      ensures Valid() && Snapshot() == Step(old(Snapshot()), Op.Dispose)
      ensures transaction == old(transaction)
      ensures transaction.Some? ==> transaction.value.disposed && transaction.value.phase == Active
    {
      if !disposed {
        context.disposals := context.disposals + 1;
        if transaction.Some? {
          transaction.value.disposed := true;
        }
        disposed := true;
      }
    }
  }
}
