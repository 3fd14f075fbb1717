/** The ownership repository and the handoff transaction object as the classes that
    callers use. Each method is proved to take exactly one step of `OwnershipTransactions`,
    so what `OwnershipRuns` proves of every run holds of every use of these objects. */
module PipelineOwnership {
  import opened Wrappers
  import opened PythonText
  import opened OwnershipLedger
  import opened OwnershipTransactions

  class Database {
    var committed: map<int, Ledger>
    var held: map<int, Held>
    var open: map<nat, bool>
    var next: nat

    function Value(): Db
      reads this
    {
      Db(committed, held, open, next)
    }

    constructor ()
      ensures Value() == START.db
    {
      committed, held, open, next := map[], map[], map[], 0;
    }

    method Begin() returns (x: nat)
      modifies this
      ensures x == old(next) && InTransaction(Value(), x)
      ensures Value() == old(Value()).(open := old(open)[x := false], next := x + 1)
    {
      x := next;
      open := open[x := false];
      next := next + 1;
    }

    method Commit(x: nat)
      modifies this
      ensures Value() == CommitStep(old(Value()), x)
    {
      if x in open && !open[x] {
        committed := committed + map a | a in held && held[a].owner == x :: held[a].view;
      }
      Rollback(x);
    }

    method Rollback(x: nat)
      modifies this
      ensures Value() == Ended(old(Value()), x)
    {
      held := map a | a in held && held[a].owner != x :: held[a];
      open := open - {x};
    }
  }

  class PipelineOwnershipRepository {
    const database: Database
    /** Without a guard of the caller's, retirement evidence is never available. */
    const hasGuard: bool

    constructor (database: Database, hasGuard: bool)
      ensures this.database == database && this.hasGuard == hasGuard
    {
      this.database := database;
      this.hasGuard := hasGuard;
    }

    method Bootstrap(account: int, name: string, actor: string, reason: string) returns (r: Outcome)
      modifies database
      ensures var before := old(database.Value());
        (database.Value(), r) == Published(before, account,
          OwnershipLedger.Bootstrap(Committed(before, account), account, name, actor, reason))
    {
      if !IsBigint(account) || !IsExactText(name, 64) || !IsActorAndReason(actor, reason) {
        return ValueError;
      }
      if account in database.held {
        return DatabaseError;
      }
      var s := Committed(database.Value(), account);
      if s.rows != [] {
        database.committed := database.committed[account := s];
        var i := LocateState(s.rows, CurrentIngress);
        if i < |s.rows| && s.rows[i].pipelineName == name {
          return Done(s.rows[i]);
        }
        return StaleFence;
      }
      var row := Generation(account, 1, name, CurrentIngress, 1);
      database.committed := database.committed[account := Appended(s, row, BootstrapAction, actor, reason)];
      return Done(row);
    }

    method Quiesce(account: int, generation: int, token: int, actor: string, reason: string) returns (r: Outcome)
      modifies database
      ensures var before := old(database.Value());
        (database.Value(), r) == Published(before, account,
          OwnershipLedger.Quiesce(Committed(before, account), account, generation, token, actor, reason))
    {
      if !IsBigint(account) || !IsBigint(generation) || !IsBigint(token) || !IsActorAndReason(actor, reason) {
        return ValueError;
      }
      if account in database.held {
        return DatabaseError;
      }
      var s := Committed(database.Value(), account);
      var i := LocateState(s.rows, CurrentIngress);
      if i < |s.rows| {
        var row := s.rows[i];
        if row.generation != generation || row.fencingToken != token {
          r := StaleFence;
        } else {
          r := Done(row.(state := Quiescing));
          s := Advanced(s, i, Quiescing, QuiesceAction, actor, reason);
        }
      } else {
        i := LocateExact(s.rows, generation, token);
        r := if i < |s.rows| && s.rows[i].state == Quiescing then Done(s.rows[i]) else StaleFence;
      }
      database.committed := database.committed[account := s];
    }

    method Retire(account: int, generation: int, token: int, actor: string, reason: string,
                  unresolved: bool, evidence: bool) returns (r: Outcome)
      modifies database
      ensures var before := old(database.Value());
        (database.Value(), r) == Published(before, account,
          OwnershipLedger.Retire(Committed(before, account), account, generation, token, actor, reason,
                                 unresolved, hasGuard && evidence))
    {
      if !IsBigint(account) || !IsBigint(generation) || !IsBigint(token) || !IsActorAndReason(actor, reason) {
        return ValueError;
      }
      if account in database.held {
        return DatabaseError;
      }
      var s := Committed(database.Value(), account);
      var i := LocateExact(s.rows, generation, token);
      if i == |s.rows| || s.rows[i].state != Draining {
        r := StaleFence;
      } else if unresolved {
        r := RetirementBlocked(true);
      } else if !hasGuard || !evidence {
        r := RetirementBlocked(false);
      } else {
        r := Done(s.rows[i].(state := Retired));
        s := Advanced(s, i, Retired, RetireAction, actor, reason);
      }
      database.committed := database.committed[account := s];
    }

    /** Accepts a stamp exactly when its row exists and can still execute. */
    method AssertFence(account: int, generation: int, token: int) returns (r: Outcome)
      ensures r.ValueError? <==> !IsBigint(account) || !IsBigint(generation) || !IsBigint(token)
      ensures !r.ValueError? ==>
        (r.Done? <==> AcceptsFence(Committed(database.Value(), account), generation, token))
      ensures r.Done? ==> r.row.generation == generation && r.row.fencingToken == token && r.row.state != Retired
      ensures r.Done? || r.StaleFence? || r.ValueError?
    {
      if !IsBigint(account) || !IsBigint(generation) || !IsBigint(token) {
        return ValueError;
      }
      var rows := Committed(database.Value(), account).rows;
      var i := LocateExact(rows, generation, token);
      if i == |rows| || rows[i].state !in {CurrentIngress, Quiescing, Draining} {
        return StaleFence;
      }
      return Done(rows[i]);
    }
  }

  /** A handoff in the transaction that `connection` is in, if any. */
  class PipelineOwnershipTransaction {
    const database: Database
    var transactionId: Option<nat>
    var locked: Option<Generation>
    var draining: Option<Generation>
    var inserted: bool

    function Value(): Handoff
      reads this
    {
      Handoff(transactionId, locked, draining, inserted)
    }

    constructor (database: Database)
      ensures this.database == database && Value() == FRESH_HANDOFF
    {
      this.database := database;
      transactionId, locked, draining, inserted := None, None, None, false;
    }

    /** `_acquire_account_lock`; a lock held elsewhere times out and aborts `x`. */
    method AcquireAccountLock(x: nat, account: int) returns (ok: bool)
      requires InTransaction(database.Value(), x)
      modifies database
      ensures ok == !LockedByOther(old(database.Value()), x, account)
      ensures database.Value() ==
        if ok then WithView(old(database.Value()), x, account, View(old(database.Value()), account))
        else Abort(old(database.Value()), x)
    {
      ok := !(account in database.held && database.held[account].owner != x);
      if ok {
        database.held := database.held[account := Held(x, View(database.Value(), account))];
      } else {
        database.open := database.open[x := true];
      }
    }

    method LockQuiesced(x: nat, account: int, generation: int, token: int) returns (r: Outcome)
      modifies this, database
      ensures (database.Value(), Value(), r) ==
        LockQuiescedIn(old(database.Value()), x, old(Value()), account, generation, token)
    {
      if !InTransaction(database.Value(), x) {
        return NoTransaction;
      }
      if !IsBigint(account) || !IsBigint(generation) || !IsBigint(token) {
        return ValueError;
      }
      if locked.Some? || ForeignTransaction(Value(), x) {
        return StaleFence;
      }
      transactionId := Some(x);
      var ok := AcquireAccountLock(x, account);
      if !ok {
        return DatabaseError;
      }
      var rows := View(database.Value(), account).rows;
      var i := LocateExact(rows, generation, token);
      if i == |rows| || rows[i].state != Quiescing {
        return StaleFence;
      }
      locked := Some(rows[i]);
      return Done(rows[i]);
    }

    method MarkDraining(x: nat, row: Generation, actor: string, reason: string) returns (r: Outcome)
      modifies this, database
      ensures (database.Value(), Value(), r) ==
        MarkDrainingIn(old(database.Value()), x, old(Value()), row, actor, reason)
    {
      if !InTransaction(database.Value(), x) {
        return NoTransaction;
      }
      if !IsActorAndReason(actor, reason) {
        return ValueError;
      }
      if locked != Some(row) || draining.Some? || ForeignTransaction(Value(), x) {
        return StaleFence;
      }
      transactionId := Some(x);
      var ok := AcquireAccountLock(x, row.accountId);
      if !ok {
        return DatabaseError;
      }
      var s, outcome := Update(View(database.Value(), row.accountId), row, actor, reason);
      database.held := database.held[row.accountId := Held(x, s)];
      assert database.held == old(database.held)[row.accountId := Held(x, s)];
      if outcome.Done? {
        draining := Some(outcome.row);
      }
      return outcome;
    }

    /** The conditional UPDATE to draining with its audit row. */
    static method Update(s: Ledger, row: Generation, actor: string, reason: string) returns (t: Ledger, r: Outcome)
      ensures (t, r) == OwnershipLedger.MarkDraining(s, row, actor, reason)
    {
      var i := Locate(s.rows, (g: Generation) =>
        g.generation == row.generation && g.fencingToken == row.fencingToken && g.state == Quiescing);
      if i == |s.rows| {
        return s, StaleFence;
      }
      return Advanced(s, i, Draining, MarkDrainingAction, actor, reason), Done(s.rows[i].(state := Draining));
    }

    method InsertCurrent(x: nat, account: int, name: string, generation: int, token: int, actor: string, reason: string)
      returns (r: Outcome)
      modifies this, database
      ensures (database.Value(), Value(), r) ==
        InsertCurrentIn(old(database.Value()), x, old(Value()), account, name, generation, token, actor, reason)
    {
      if !InTransaction(database.Value(), x) {
        return NoTransaction;
      }
      if || !IsBigint(account) || !IsExactText(name, 64) || !IsBigint(generation) || !IsBigint(token)
         || !IsActorAndReason(actor, reason) {
        return ValueError;
      }
      if draining.None? || draining.value.accountId != account || inserted || ForeignTransaction(Value(), x) {
        return StaleFence;
      }
      transactionId := Some(x);
      var ok := AcquireAccountLock(x, account);
      if !ok {
        return DatabaseError;
      }
      var s := View(database.Value(), account);
      var i := LocateExact(s.rows, draining.value.generation, draining.value.fencingToken);
      if i == |s.rows| || s.rows[i] != draining.value || s.rows[i].state != Draining {
        return StaleFence;
      }
      var maxGeneration, maxToken := MaxGeneration(s.rows), MaxToken(s.rows);
      if || maxGeneration >= POSTGRES_BIGINT_MAX || maxToken >= POSTGRES_BIGINT_MAX
         || generation != maxGeneration + 1 || token != maxToken + 1 {
        return StaleFence;
      }
      var row := Generation(account, generation, name, CurrentIngress, token);
      database.held := database.held[account := Held(x, Appended(s, row, InsertCurrentAction, actor, reason))];
      inserted := true;
      assert database.held == old(database.held)[account := Held(x, database.held[account].view)];
      return Done(row);
    }
  }
}
