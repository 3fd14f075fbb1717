/** What holds of the ownership table in every run: any number of repository calls,
    transactions and handoff objects, interleaved in any order. */
module OwnershipRuns {
  import opened Wrappers
  import opened PythonText
  import opened OwnershipLedger
  import opened OwnershipTransactions

  /** The ledger of `account` after the first `n` events. */
  function LedgerAt(events: seq<Event>, n: nat, account: int): Ledger
    requires n <= |events|
  {
    Committed(Run(START, events[..n]).db, account)
  }

  lemma StartOk()
    ensures WorldOk(START)
  {
    forall a
      ensures AccountOk(START.db, a)
    {
      EmptyOk(a);
    }
  }

  lemma PrefixOk(events: seq<Event>, n: nat)
    requires n <= |events|
    ensures WorldOk(Run(START, events[..n]))
    ensures n < |events| ==> DbEvolves(Run(START, events[..n]).db, Run(START, events[..n + 1]).db)
  {
    StartOk();
    RunOk(START, events[..n]);
    if n < |events| {
      assert events[..n + 1][..n] == events[..n];
      StepOk(Run(START, events[..n]), events[n]);
    }
  }

  lemma LedgerOk(events: seq<Event>, n: nat, account: int)
    requires n <= |events|
    ensures Inv(account, LedgerAt(events, n, account))
    ensures n < |events| ==> Evolves(LedgerAt(events, n, account), LedgerAt(events, n + 1, account))
  {
    PrefixOk(events, n);
    assert AccountOk(Run(START, events[..n]).db, account);
  }

  lemma {:induction false} EvolvesAlong(history: seq<Ledger>, n: nat, m: nat)
    requires n <= m < |history|
    requires forall i :: 0 < i < |history| ==> Evolves(history[i - 1], history[i])
    ensures Evolves(history[n], history[m])
  {
    if n == m {
      EvolvesReflexive(history[n]);
    } else {
      EvolvesAlong(history, n, m - 1);
      EvolvesTransitive(history[n], history[m - 1], history[m]);
    }
  }

  lemma LedgersEvolve(events: seq<Event>, n: nat, m: nat, account: int)
    requires n <= m <= |events|
    ensures Inv(account, LedgerAt(events, n, account)) && Inv(account, LedgerAt(events, m, account))
    ensures Evolves(LedgerAt(events, n, account), LedgerAt(events, m, account))
  {
    var history := seq(|events| + 1, i requires 0 <= i <= |events| => LedgerAt(events, i, account));
    forall i | 0 < i < |history|
      ensures Evolves(history[i - 1], history[i])
    {
      LedgerOk(events, i - 1, account);
    }
    EvolvesAlong(history, n, m);
    LedgerOk(events, n, account);
    LedgerOk(events, m, account);
  }

  /** Single ingress and dense numbering, in every state of every run. */
  lemma SingleIngress(events: seq<Event>, account: int)
    ensures var rows := LedgerAt(events, |events|, account).rows;
      && (forall i :: 0 <= i < |rows| ==>
            rows[i].accountId == account && rows[i].generation == i + 1 && rows[i].fencingToken == i + 1)
      && (forall i, j :: 0 <= i < j < |rows| ==> !(IsActive(rows[i].state) && IsActive(rows[j].state)))
  {
    LedgersEvolve(events, 0, |events|, account);
  }

  /** The audit trail alone rebuilds the rows, with one event for each committed
      transition and none for a replayed bootstrap or quiesce. */
  lemma AuditRebuildsOwnership(events: seq<Event>, account: int)
    ensures var s := LedgerAt(events, |events|, account);
      Replay(s.audit) == Facts(s.rows) && |s.audit| == SumOfRanks(s.rows)
  {
    LedgersEvolve(events, 0, |events|, account);
  }

  /** A stamp refused after it was accepted is refused ever after. */
  lemma FenceNeverReopens(events: seq<Event>, n: nat, m: nat, k: nat, account: int, generation: int, token: int)
    requires n <= m <= k <= |events|
    requires AcceptsFence(LedgerAt(events, n, account), generation, token)
    requires !AcceptsFence(LedgerAt(events, m, account), generation, token)
    ensures !AcceptsFence(LedgerAt(events, k, account), generation, token)
  {
    LedgersEvolve(events, n, m, account);
    LedgersEvolve(events, m, k, account);
    RefusedStaysRefused(account, LedgerAt(events, n, account), LedgerAt(events, m, account),
                        LedgerAt(events, k, account), generation, token);
  }

  // ------------------------------------------------------ the default guard

  predicate NoneRetired(rows: seq<Generation>) {
    forall i :: 0 <= i < |rows| ==> rows[i].state != Retired
  }

  ghost predicate NothingRetired(db: Db) {
    && (forall a :: NoneRetired(Committed(db, a).rows))
    && (forall a :: NoneRetired(View(db, a).rows))
  }

  /** `_DenyRetirementGuard` always raises, so no retirement finds evidence. */
  predicate GuardDenies(events: seq<Event>) {
    forall i :: 0 <= i < |events| && events[i].RetireEvent? ==> !events[i].evidence
  }

  lemma RowChangeRetiresNothing(s: Ledger, i: nat, row: Generation, state: GenerationState, action: Action,
                                actor: string, reason: string)
    requires NoneRetired(s.rows)
    ensures i < |s.rows| && state != Retired ==> NoneRetired(Advanced(s, i, state, action, actor, reason).rows)
    ensures row.state != Retired ==> NoneRetired(Appended(s, row, action, actor, reason).rows)
  {
  }

  lemma BootstrapRetiresNothing(s: Ledger, a: int, name: string, actor: string, reason: string)
    requires NoneRetired(s.rows)
    ensures NoneRetired(Bootstrap(s, a, name, actor, reason).0.rows)
  {
    RowChangeRetiresNothing(s, 0, Generation(a, 1, name, CurrentIngress, 1), Quiescing, BootstrapAction, actor, reason);
  }

  lemma QuiesceRetiresNothing(s: Ledger, a: int, g: int, t: int, actor: string, reason: string)
    requires NoneRetired(s.rows)
    ensures NoneRetired(Quiesce(s, a, g, t, actor, reason).0.rows)
  {
    RowChangeRetiresNothing(s, LocateState(s.rows, CurrentIngress), Generation(a, g, "", CurrentIngress, t),
                            Quiescing, QuiesceAction, actor, reason);
  }

  lemma DrainRetiresNothing(s: Ledger, row: Generation, actor: string, reason: string)
    requires NoneRetired(s.rows)
    ensures NoneRetired(MarkDraining(s, row, actor, reason).0.rows)
  {
    var i := Locate(s.rows, (r: Generation) =>
      r.generation == row.generation && r.fencingToken == row.fencingToken && r.state == Quiescing);
    RowChangeRetiresNothing(s, i, row, Draining, MarkDrainingAction, actor, reason);
  }

  lemma InsertRetiresNothing(s: Ledger, row: Generation, a: int, g: int, t: int, name: string, actor: string,
                             reason: string)
    requires NoneRetired(s.rows)
    ensures NoneRetired(InsertCurrent(s, row, a, name, g, t, actor, reason).0.rows)
  {
    var inserted := Generation(a, g, name, CurrentIngress, t);
    RowChangeRetiresNothing(s, 0, inserted, Draining, InsertCurrentAction, actor, reason);
  }

  lemma PublishedRetiresNothing(d: Db, b: int, r: (Ledger, Outcome))
    requires NothingRetired(d) && NoneRetired(r.0.rows)
    ensures NothingRetired(Published(d, b, r).0)
  {
    forall a
      ensures var e := Published(d, b, r).0; NoneRetired(Committed(e, a).rows) && NoneRetired(View(e, a).rows)
    {
      PublishedRewrites(d, b, r, a);
    }
  }

  lemma WithViewRetiresNothing(d: Db, x: nat, b: int, s: Ledger)
    requires NothingRetired(d) && NoneRetired(s.rows)
    ensures NothingRetired(WithView(d, x, b, s))
  {
    forall a
      ensures var e := WithView(d, x, b, s); NoneRetired(Committed(e, a).rows) && NoneRetired(View(e, a).rows)
    {
      WithViewRewrites(d, x, b, s, a);
    }
  }

  lemma ClosingRetiresNothing(d: Db, x: nat)
    requires NothingRetired(d)
    ensures NothingRetired(Ended(d, x)) && NothingRetired(CommitStep(d, x))
  {
    forall a
      ensures NoneRetired(Committed(Ended(d, x), a).rows) && NoneRetired(View(Ended(d, x), a).rows)
      ensures NoneRetired(Committed(CommitStep(d, x), a).rows) && NoneRetired(View(CommitStep(d, x), a).rows)
    {
      assert NoneRetired(Committed(d, a).rows) && NoneRetired(View(d, a).rows);
      ClosingRewrites(d, x, a);
    }
  }

  lemma OpenRetiresNothing(d: Db, e: Db)
    requires NothingRetired(d) && e.committed == d.committed && e.held == d.held
    ensures NothingRetired(e)
  {
    forall a
      ensures NoneRetired(Committed(e, a).rows) && NoneRetired(View(e, a).rows)
    {
      assert Committed(e, a) == Committed(d, a) && View(e, a) == View(d, a);
    }
  }

  lemma RepositoryRetiresNothing(w: World, e: Event)
    requires NothingRetired(w.db)
    requires e.BootstrapEvent? || e.QuiesceEvent? || (e.RetireEvent? && !e.evidence)
    ensures NothingRetired(Step(w, e).db)
  {
    match e
    case BootstrapEvent(b, name, actor, reason) =>
      BootstrapRetiresNothing(Committed(w.db, b), b, name, actor, reason);
      PublishedRetiresNothing(w.db, b, Bootstrap(Committed(w.db, b), b, name, actor, reason));
    case QuiesceEvent(b, g, t, actor, reason) =>
      QuiesceRetiresNothing(Committed(w.db, b), b, g, t, actor, reason);
      PublishedRetiresNothing(w.db, b, Quiesce(Committed(w.db, b), b, g, t, actor, reason));
    case RetireEvent(b, g, t, actor, reason, unresolved, evidence) =>
      PublishedRetiresNothing(w.db, b, Retire(Committed(w.db, b), b, g, t, actor, reason, unresolved, evidence));
  }

  lemma HandoffRetiresNothing(w: World, e: Event)
    requires NothingRetired(w.db)
    requires e.LockEvent? || e.DrainEvent? || e.InsertEvent?
    ensures NothingRetired(Step(w, e).db)
  {
    if e.o in w.handoffs {
      var h := w.handoffs[e.o];
      match e
      case LockEvent(x, _, b, g, t) => LockStepRetiresNothing(w.db, x, h, b, g, t);
      case DrainEvent(x, _, locked, actor, reason) => DrainStepRetiresNothing(w.db, x, h, locked, actor, reason);
      case InsertEvent(x, _, b, name, g, t, actor, reason) =>
        InsertStepRetiresNothing(w.db, x, h, b, name, g, t, actor, reason);
    }
  }

  lemma LockStepRetiresNothing(d: Db, x: nat, h: Handoff, a: int, g: int, t: int)
    requires NothingRetired(d)
    ensures NothingRetired(LockQuiescedIn(d, x, h, a, g, t).0)
  {
    OpenRetiresNothing(d, Abort(d, x));
    WithViewRetiresNothing(d, x, a, View(d, a));
  }

  lemma DrainStepRetiresNothing(d: Db, x: nat, h: Handoff, locked: Generation, actor: string, reason: string)
    requires NothingRetired(d)
    ensures NothingRetired(MarkDrainingIn(d, x, h, locked, actor, reason).0)
  {
    OpenRetiresNothing(d, Abort(d, x));
    DrainViewRetiresNothing(d, x, locked, actor, reason);
  }

  lemma InsertStepRetiresNothing(d: Db, x: nat, h: Handoff, a: int, name: string, g: int, t: int, actor: string,
                                 reason: string)
    requires NothingRetired(d)
    ensures NothingRetired(InsertCurrentIn(d, x, h, a, name, g, t, actor, reason).0)
  {
    OpenRetiresNothing(d, Abort(d, x));
    if h.draining.Some? {
      InsertViewRetiresNothing(d, x, h.draining.value, a, g, t, name, actor, reason);
    }
  }

  lemma DrainViewRetiresNothing(d: Db, x: nat, locked: Generation, actor: string, reason: string)
    requires NothingRetired(d)
    ensures var a := locked.accountId;
      NothingRetired(WithView(d, x, a, MarkDraining(View(d, a), locked, actor, reason).0))
  {
    var s := View(d, locked.accountId);
    DrainRetiresNothing(s, locked, actor, reason);
    WithViewRetiresNothing(d, x, locked.accountId, MarkDraining(s, locked, actor, reason).0);
  }

  lemma InsertViewRetiresNothing(d: Db, x: nat, row: Generation, a: int, g: int, t: int, name: string, actor: string,
                                 reason: string)
    requires NothingRetired(d)
    ensures NothingRetired(WithView(d, x, a, InsertCurrent(View(d, a), row, a, name, g, t, actor, reason).0))
  {
    InsertRetiresNothing(View(d, a), row, a, g, t, name, actor, reason);
    WithViewRetiresNothing(d, x, a, InsertCurrent(View(d, a), row, a, name, g, t, actor, reason).0);
  }

  lemma StepRetiresNothing(w: World, e: Event)
    requires NothingRetired(w.db)
    requires e.RetireEvent? ==> !e.evidence
    ensures NothingRetired(Step(w, e).db)
  {
    match e
    case BootstrapEvent(_, _, _, _) => RepositoryRetiresNothing(w, e);
    case QuiesceEvent(_, _, _, _, _) => RepositoryRetiresNothing(w, e);
    case RetireEvent(_, _, _, _, _, _, _) => RepositoryRetiresNothing(w, e);
    case LockEvent(_, _, _, _, _) => HandoffRetiresNothing(w, e);
    case DrainEvent(_, _, _, _, _) => HandoffRetiresNothing(w, e);
    case InsertEvent(_, _, _, _, _, _, _, _) => HandoffRetiresNothing(w, e);
    case CommitEvent(x) => ClosingRetiresNothing(w.db, x);
    case RollbackEvent(x) => ClosingRetiresNothing(w.db, x);
    case _ => OpenRetiresNothing(w.db, Step(w, e).db);
  }

  /** Under the default guard nothing is ever retired, so an accepted stamp stays accepted. */
  lemma {:induction false} DefaultGuardRetiresNothing(events: seq<Event>)
    requires GuardDenies(events)
    ensures NothingRetired(Run(START, events).db)
  {
    if events != [] {
      DefaultGuardRetiresNothing(events[..|events| - 1]);
      StepRetiresNothing(Run(START, events[..|events| - 1]), events[|events| - 1]);
    }
  }

  lemma DefaultGuardKeepsFences(events: seq<Event>, n: nat, account: int, generation: int, token: int)
    requires GuardDenies(events) && n <= |events|
    requires AcceptsFence(LedgerAt(events, n, account), generation, token)
    ensures AcceptsFence(LedgerAt(events, |events|, account), generation, token)
  {
    LedgersEvolve(events, n, |events|, account);
    DefaultGuardRetiresNothing(events);
    assert events[..|events|] == events;
    var s, t := LedgerAt(events, n, account), LedgerAt(events, |events|, account);
    FenceMeansRow(account, s, generation, token);
    FenceMeansRow(account, t, generation, token);
    assert NoneRetired(t.rows);
  }

  // ------------------------------------------- what a handoff step changes

  /** `e` shows `account` as `d` does, to its lock holder too. */
  predicate ShowsSame(d: Db, e: Db, account: int) {
    && Committed(e, account) == Committed(d, account)
    && (account in e.held ==>
          if account in d.held then e.held[account] == d.held[account]
          else e.held[account].view == Committed(d, account))
  }

  /** A lock shows its account as before. */
  lemma LockEffects(d: Db, x: nat, h: Handoff, a: int, g: int, t: int, account: int)
    ensures var (e, k, r) := LockQuiescedIn(d, x, h, a, g, t);
      && ShowsSame(d, e, account) && e.open.Keys == d.open.Keys
      && (k == h || (!ForeignTransaction(h, x) && k == h.(transactionId := Some(x), locked := k.locked)))
  {
  }

  /** A step that runs and rewrites one account's view when it succeeds. */
  lemma RanShowsSame(d: Db, x: nat, a: int, r: (Ledger, Outcome), account: int)
    requires !LockedByOther(d, x, a) && (r.1.Done? || r.0 == View(d, a))
    ensures !r.1.Done? || a != account ==> ShowsSame(d, WithView(d, x, a, r.0), account)
  {
  }

  lemma DrainMoves(s: Ledger, locked: Generation, actor: string, reason: string)
    ensures var r := MarkDraining(s, locked, actor, reason); r.1.Done? || r.0 == s
  {
  }

  /** What a drain does to its handoff and to an account it does not drain. */
  lemma DrainEffects(d: Db, x: nat, h: Handoff, locked: Generation, actor: string, reason: string, account: int)
    ensures var (e, k, r) := MarkDrainingIn(d, x, h, locked, actor, reason);
      && (!r.Done? || locked.accountId != account ==> ShowsSame(d, e, account))
      && (r.Done? ==> h.draining.None? && k == h.(transactionId := Some(x), draining := Some(r.row)))
      && (r.Done? ==> r == MarkDraining(View(d, locked.accountId), locked, actor, reason).1)
      && (r.Done? ==> locked.accountId in e.held && e.held[locked.accountId].owner == x)
      && (!r.Done? ==> k == h || (k == h.(transactionId := Some(x)) && !ForeignTransaction(h, x)))
  {
    var s := View(d, locked.accountId);
    DrainMoves(s, locked, actor, reason);
    if !LockedByOther(d, x, locked.accountId) {
      RanShowsSame(d, x, locked.accountId, MarkDraining(s, locked, actor, reason), account);
    }
  }

  lemma InsertMoves(s: Ledger, row: Generation, a: int, name: string, g: int, t: int, actor: string, reason: string)
    ensures var r := InsertCurrent(s, row, a, name, g, t, actor, reason);
      if r.1.Done? then !NoneActive(r.0.rows) else r.0 == s
  {
    var r := InsertCurrent(s, row, a, name, g, t, actor, reason);
    if r.1.Done? {
      assert IsActive(r.0.rows[|s.rows|].state);
    }
  }

  /** What an insert does to its handoff and to an account it does not insert into. */
  lemma InsertEffects(d: Db, x: nat, h: Handoff, a: int, name: string, g: int, t: int, actor: string, reason: string,
                      account: int)
    ensures var (e, k, r) := InsertCurrentIn(d, x, h, a, name, g, t, actor, reason);
      && (!r.Done? || a != account ==> ShowsSame(d, e, account))
      && (r.Done? ==> a in e.held && !NoneActive(e.held[a].view.rows))
      && (r.Done? ==> InTransaction(d, x) && !ForeignTransaction(h, x) && !h.inserted)
      && (r.Done? ==> h.draining.Some? && h.draining.value.accountId == a)
      && (r.Done? ==> k == h.(transactionId := Some(x), inserted := true))
      && (!r.Done? ==> k == h || (k == h.(transactionId := Some(x)) && !ForeignTransaction(h, x)))
  {
    if h.draining.Some? && !LockedByOther(d, x, a) {
      var s, row := View(d, a), h.draining.value;
      InsertMoves(s, row, a, name, g, t, actor, reason);
      RanShowsSame(d, x, a, InsertCurrent(s, row, a, name, g, t, actor, reason), account);
    }
  }

  // --------------------------------------------------- handoffs left half done

  /** Generations but no ingress, both as committed and as its lock holder sees it. */
  predicate NoIngress(d: Db, account: int) {
    && Committed(d, account).rows != []
    && NoneActive(Committed(d, account).rows) && NoneActive(View(d, account).rows)
    && |View(d, account).rows| == |Committed(d, account).rows|
  }

  /** The account has no ingress and no open handoff is about to insert one. */
  ghost predicate Stranded(w: World, account: int) {
    && NoIngress(w.db, account)
    && (forall o, x :: o in w.handoffs && x in w.db.open ==> !Pending(w.handoffs[o], x, account))
  }

  lemma IdleOperations(s: Ledger, a: int, g: int, t: int, name: string, actor: string, reason: string,
                       row: Generation, unresolved: bool, evidence: bool)
    requires s.rows != [] && NoneActive(s.rows)
    ensures Bootstrap(s, a, name, actor, reason).0 == s
    ensures Quiesce(s, a, g, t, actor, reason).0 == s
    ensures MarkDraining(s, row, actor, reason) == (s, StaleFence)
    ensures var rows := Retire(s, a, g, t, actor, reason, unresolved, evidence).0.rows;
      |rows| == |s.rows| && NoneActive(rows)
  {
  }

  lemma StrandedRepository(w: World, e: Event, account: int)
    requires Stranded(w, account)
    requires e.BootstrapEvent? || e.QuiesceEvent? || e.RetireEvent?
    ensures Stranded(Step(w, e), account)
    ensures |Committed(Step(w, e).db, account).rows| == |Committed(w.db, account).rows|
  {
    var none := Generation(0, 0, "", Draining, 0);
    var s := Committed(w.db, account);
    match e
    case BootstrapEvent(b, name, actor, reason) =>
      IdleOperations(s, b, 0, 0, name, actor, reason, none, false, false);
      PublishedRewrites(w.db, b, Bootstrap(Committed(w.db, b), b, name, actor, reason), account);
    case QuiesceEvent(b, g, t, actor, reason) =>
      IdleOperations(s, b, g, t, "", actor, reason, none, false, false);
      PublishedRewrites(w.db, b, Quiesce(Committed(w.db, b), b, g, t, actor, reason), account);
    case RetireEvent(b, g, t, actor, reason, unresolved, evidence) =>
      IdleOperations(s, b, g, t, "", actor, reason, none, unresolved, evidence);
      PublishedRewrites(w.db, b, Retire(Committed(w.db, b), b, g, t, actor, reason, unresolved, evidence), account);
  }

  lemma DrainedRowAccount(w: World, locked: Generation, actor: string, reason: string)
    requires WorldOk(w)
    ensures var r := MarkDraining(View(w.db, locked.accountId), locked, actor, reason).1;
      r.Done? ==> r.row.accountId == locked.accountId
  {
    ViewOk(w.db, locked.accountId);
    MarkDrainingStep(View(w.db, locked.accountId), locked.accountId, locked, actor, reason);
  }

  /** A handoff step that leaves the account as it was and nothing new pending on it. */
  lemma StrandedAfter(w: World, o: nat, r: (Db, Handoff, Outcome), account: int)
    requires Stranded(w, account) && o in w.handoffs
    requires ShowsSame(w.db, r.0, account) && r.0.open.Keys <= w.db.open.Keys
    requires forall x :: x in w.db.open && !Pending(w.handoffs[o], x, account) ==> !Pending(r.1, x, account)
    ensures Stranded(WithHandoff(w, o, r), account)
    ensures |Committed(r.0, account).rows| == |Committed(w.db, account).rows|
  {
  }

  lemma StrandedLock(w: World, e: Event, account: int)
    requires HandoffsOk(w) && Stranded(w, account) && e.LockEvent? && e.o in w.handoffs
    ensures Stranded(Step(w, e), account)
    ensures |Committed(Step(w, e).db, account).rows| == |Committed(w.db, account).rows|
  {
    var h := w.handoffs[e.o];
    LockEffects(w.db, e.x, h, e.account, e.generation, e.token, account);
    StrandedAfter(w, e.o, LockQuiescedIn(w.db, e.x, h, e.account, e.generation, e.token), account);
  }

  lemma StrandedDrain(w: World, e: Event, account: int)
    requires WorldOk(w) && Stranded(w, account) && e.DrainEvent? && e.o in w.handoffs
    ensures Stranded(Step(w, e), account)
    ensures |Committed(Step(w, e).db, account).rows| == |Committed(w.db, account).rows|
  {
    var h := w.handoffs[e.o];
    DrainEffects(w.db, e.x, h, e.locked, e.actor, e.reason, account);
    DrainedRowAccount(w, e.locked, e.actor, e.reason);
    IdleOperations(View(w.db, account), 0, 0, 0, "", e.actor, e.reason, e.locked, false, false);
    StrandedAfter(w, e.o, MarkDrainingIn(w.db, e.x, h, e.locked, e.actor, e.reason), account);
  }

  /** An insert succeeds only on the account its own handoff drained. */
  lemma InsertedWasPending(w: World, o: nat, x: nat, a: int, name: string, g: int, t: int, actor: string,
                           reason: string)
    requires HandoffsBound(w) && o in w.handoffs
    ensures InsertCurrentIn(w.db, x, w.handoffs[o], a, name, g, t, actor, reason).2.Done? ==>
              x in w.db.open && Pending(w.handoffs[o], x, a)
  {
    InsertEffects(w.db, x, w.handoffs[o], a, name, g, t, actor, reason, a);
  }

  lemma StrandedInsert(w: World, e: Event, account: int)
    requires HandoffsOk(w) && Stranded(w, account) && e.InsertEvent? && e.o in w.handoffs
    ensures Stranded(Step(w, e), account)
    ensures |Committed(Step(w, e).db, account).rows| == |Committed(w.db, account).rows|
  {
    var h := w.handoffs[e.o];
    var r := InsertCurrentIn(w.db, e.x, h, e.account, e.name, e.generation, e.token, e.actor, e.reason);
    InsertEffects(w.db, e.x, h, e.account, e.name, e.generation, e.token, e.actor, e.reason, account);
    InsertedWasPending(w, e.o, e.x, e.account, e.name, e.generation, e.token, e.actor, e.reason);
    StrandedAfter(w, e.o, r, account);
  }

  lemma StrandedControl(w: World, e: Event, account: int)
    requires HandoffsOk(w) && Stranded(w, account)
    requires e.BeginEvent? || e.NewHandoffEvent? || e.CommitEvent? || e.RollbackEvent? || e.ErrorEvent?
    ensures Stranded(Step(w, e), account)
    ensures |Committed(Step(w, e).db, account).rows| == |Committed(w.db, account).rows|
  {
    match e
    case CommitEvent(x) => ClosingRewrites(w.db, x, account);
    case RollbackEvent(x) => ClosingRewrites(w.db, x, account);
    case _ =>
  }

  lemma StrandedStep(w: World, e: Event, account: int)
    requires WorldOk(w) && Stranded(w, account)
    ensures Stranded(Step(w, e), account)
    ensures |Committed(Step(w, e).db, account).rows| == |Committed(w.db, account).rows|
  {
    match e
    case BootstrapEvent(_, _, _, _) => StrandedRepository(w, e, account);
    case QuiesceEvent(_, _, _, _, _) => StrandedRepository(w, e, account);
    case RetireEvent(_, _, _, _, _, _, _) => StrandedRepository(w, e, account);
    case LockEvent(_, _, _, _, _) => if e.o in w.handoffs { StrandedLock(w, e, account); }
    case DrainEvent(_, _, _, _, _) => if e.o in w.handoffs { StrandedDrain(w, e, account); }
    case InsertEvent(_, _, _, _, _, _, _, _) => if e.o in w.handoffs { StrandedInsert(w, e, account); }
    case _ => StrandedControl(w, e, account);
  }

  /** An account once stranded stays so: no later events add a generation or activate one. */
  lemma {:induction false} StrandedForever(w: World, events: seq<Event>, account: int)
    requires WorldOk(w) && Stranded(w, account)
    ensures var rows := Committed(Run(w, events).db, account).rows;
      NoneActive(rows) && |rows| == |Committed(w.db, account).rows|
    ensures Stranded(Run(w, events), account)
  {
    if events != [] {
      StrandedForever(w, events[..|events| - 1], account);
      RunOk(w, events[..|events| - 1]);
      StrandedStep(Run(w, events[..|events| - 1]), events[|events| - 1], account);
    }
  }

  /** A commit that publishes a view without ingress strands the account. */
  lemma CommitStrands(w: World, x: nat, account: int)
    requires WorldOk(w) && InTransaction(w.db, x)
    requires account in w.db.held && w.db.held[account].owner == x
    requires w.db.held[account].view.rows != [] && NoneActive(w.db.held[account].view.rows)
    ensures Stranded(Step(w, CommitEvent(x)), account)
  {
    var v := Step(w, CommitEvent(x));
    assert Committed(v.db, account) == w.db.held[account].view == View(v.db, account);
    forall o, y | o in v.handoffs && y in v.db.open
      ensures !Pending(v.handoffs[o], y, account)
    {
      assert y in w.db.open && y != x;
    }
  }

  // ------------------------------------------------- exactly when it is stranded

  /** A transaction that took an account's ingress away, as it sees the account, did so by
      a drain whose handoff has not inserted yet. */
  ghost predicate DrainIsPending(w: World, account: int) {
    account in w.db.held && !NoneActive(Committed(w.db, account).rows) && NoneActive(w.db.held[account].view.rows) ==>
      exists o :: o in w.handoffs && Pending(w.handoffs[o], w.db.held[account].owner, account)
  }

  /** Only a handoff that has drained can have inserted. */
  ghost predicate InsertedHaveDrained(w: World) {
    forall o :: o in w.handoffs && w.handoffs[o].inserted ==> w.handoffs[o].draining.Some?
  }

  ghost predicate DrainsOk(w: World, account: int) {
    InsertedHaveDrained(w) && DrainIsPending(w, account)
  }

  lemma RepositoryDrainsOk(w: World, b: int, r: (Ledger, Outcome), account: int)
    requires DrainsOk(w, account)
    ensures DrainsOk(w.(db := Published(w.db, b, r).0), account)
  {
    PublishedRewrites(w.db, b, r, account);
  }

  lemma ControlDrainsOk(w: World, e: Event, account: int)
    requires DrainsOk(w, account)
    requires e.BeginEvent? || e.NewHandoffEvent? || e.CommitEvent? || e.RollbackEvent? || e.ErrorEvent?
    ensures DrainsOk(Step(w, e), account)
  {
    var v := Step(w, e);
    assert account in v.db.held ==> account in w.db.held && v.db.held[account] == w.db.held[account];
    assert account in v.db.held ==> Committed(v.db, account) == Committed(w.db, account);
    assert forall o :: o in w.handoffs ==> o in v.handoffs && v.handoffs[o] == w.handoffs[o];
  }

  /** A handoff step that leaves `account` as it was, and what was pending on it. */
  lemma HandoffDrainsOk(w: World, o: nat, r: (Db, Handoff, Outcome), account: int)
    requires DrainsOk(w, account) && o in w.handoffs
    requires r.1.inserted ==> r.1.draining.Some?
    requires ShowsSame(w.db, r.0, account)
    requires forall x :: Pending(w.handoffs[o], x, account) ==> Pending(r.1, x, account)
    ensures DrainsOk(WithHandoff(w, o, r), account)
  {
    var v := WithHandoff(w, o, r);
    if p :| p in w.handoffs && account in w.db.held && Pending(w.handoffs[p], w.db.held[account].owner, account) {
      assert Pending(v.handoffs[p], w.db.held[account].owner, account);
    }
  }

  lemma LockDrainsOk(w: World, e: Event, account: int)
    requires DrainsOk(w, account) && e.LockEvent? && e.o in w.handoffs
    ensures DrainsOk(Step(w, e), account)
  {
    var h := w.handoffs[e.o];
    LockEffects(w.db, e.x, h, e.account, e.generation, e.token, account);
    HandoffDrainsOk(w, e.o, LockQuiescedIn(w.db, e.x, h, e.account, e.generation, e.token), account);
  }

  /** A drain that succeeds on the account is itself pending; any other leaves it alone. */
  lemma DrainDrainsOk(w: World, e: Event, account: int)
    requires WorldOk(w) && DrainsOk(w, account) && e.DrainEvent? && e.o in w.handoffs
    ensures DrainsOk(Step(w, e), account)
  {
    var h := w.handoffs[e.o];
    var r := MarkDrainingIn(w.db, e.x, h, e.locked, e.actor, e.reason);
    DrainEffects(w.db, e.x, h, e.locked, e.actor, e.reason, account);
    if r.2.Done? && e.locked.accountId == account {
      DrainedRowAccount(w, e.locked, e.actor, e.reason);
      DrainedIsPending(w, e.o, r, e.x, account);
    } else {
      HandoffDrainsOk(w, e.o, r, account);
    }
  }

  lemma DrainedIsPending(w: World, o: nat, r: (Db, Handoff, Outcome), x: nat, account: int)
    requires DrainsOk(w, account) && o in w.handoffs && w.handoffs[o].draining.None?
    requires account in r.0.held && r.0.held[account].owner == x && r.2.Done? && r.2.row.accountId == account
    requires r.1 == w.handoffs[o].(transactionId := Some(x), draining := Some(r.2.row))
    ensures DrainsOk(WithHandoff(w, o, r), account)
  {
    assert Pending(WithHandoff(w, o, r).handoffs[o], x, account);
  }

  /** An insert that succeeds on the account gives it ingress again. */
  lemma InsertDrainsOk(w: World, e: Event, account: int)
    requires DrainsOk(w, account) && e.InsertEvent? && e.o in w.handoffs
    ensures DrainsOk(Step(w, e), account)
  {
    var h := w.handoffs[e.o];
    var r := InsertCurrentIn(w.db, e.x, h, e.account, e.name, e.generation, e.token, e.actor, e.reason);
    InsertEffects(w.db, e.x, h, e.account, e.name, e.generation, e.token, e.actor, e.reason, account);
    if !(r.2.Done? && e.account == account) {
      HandoffDrainsOk(w, e.o, r, account);
    }
  }

  lemma StepDrainsOk(w: World, e: Event, account: int)
    requires WorldOk(w) && DrainsOk(w, account)
    ensures DrainsOk(Step(w, e), account)
  {
    match e
    case BootstrapEvent(b, name, actor, reason) =>
      RepositoryDrainsOk(w, b, Bootstrap(Committed(w.db, b), b, name, actor, reason), account);
    case QuiesceEvent(b, g, t, actor, reason) =>
      RepositoryDrainsOk(w, b, Quiesce(Committed(w.db, b), b, g, t, actor, reason), account);
    case RetireEvent(b, g, t, actor, reason, unresolved, evidence) =>
      RepositoryDrainsOk(w, b, Retire(Committed(w.db, b), b, g, t, actor, reason, unresolved, evidence), account);
    case LockEvent(_, _, _, _, _) => if e.o in w.handoffs { LockDrainsOk(w, e, account); }
    case DrainEvent(_, _, _, _, _) => if e.o in w.handoffs { DrainDrainsOk(w, e, account); }
    case InsertEvent(_, _, _, _, _, _, _, _) => if e.o in w.handoffs { InsertDrainsOk(w, e, account); }
    case _ => ControlDrainsOk(w, e, account);
  }

  lemma {:induction false} RunDrainsOk(events: seq<Event>, account: int)
    ensures WorldOk(Run(START, events)) && DrainsOk(Run(START, events), account)
  {
    StartOk();
    RunOk(START, events);
    if events != [] {
      var n := |events| - 1;
      RunDrainsOk(events[..n], account);
      StepDrainsOk(Run(START, events[..n]), events[n], account);
    }
  }

  /** In every run: committing an open transaction takes an active account's ingress away,
      for good, exactly when one of its handoffs has drained the account and not inserted. */
  lemma StrandedExactlyByHalfHandoff(events: seq<Event>, x: nat, account: int)
    requires InTransaction(Run(START, events).db, x)
    requires !NoneActive(Committed(Run(START, events).db, account).rows)
    ensures var w := Run(START, events);
      Stranded(Step(w, CommitEvent(x)), account) <==>
      exists o :: o in w.handoffs && Pending(w.handoffs[o], x, account)
    ensures var w := Run(START, events);
      NoIngress(Step(w, CommitEvent(x)).db, account) <==> Stranded(Step(w, CommitEvent(x)), account)
  {
    RunDrainsOk(events, account);
    CommitStrandsExactly(Run(START, events), x, account);
  }

  /** Committing an open transaction takes an active account's ingress away for good exactly
      when one of its handoffs has drained the account and not inserted. */
  lemma CommitStrandsExactly(w: World, x: nat, account: int)
    requires WorldOk(w) && DrainIsPending(w, account) && InTransaction(w.db, x)
    requires !NoneActive(Committed(w.db, account).rows)
    ensures Stranded(Step(w, CommitEvent(x)), account) <==>
            exists o :: o in w.handoffs && Pending(w.handoffs[o], x, account)
  {
    if o :| o in w.handoffs && Pending(w.handoffs[o], x, account) {
      assert account in w.db.held && w.db.held[account].owner == x;
      assert AccountOk(w.db, account);
      assert Evolves(Committed(w.db, account), w.db.held[account].view);
      CommitStrands(w, x, account);
    }
  }

  // ------------------------------------------------------ a completed handoff

  lemma OwnStampFindsRow(account: int, rows: seq<Generation>, n: nat)
    requires WellNumbered(account, rows) && 1 <= n <= |rows|
    ensures LocateExact(rows, n, n) == n - 1
  {
    assert rows[n - 1].generation == n && rows[n - 1].fencingToken == n;
  }

  /** The rows that draining the newest generation and inserting its successor make. */
  function Succeeded(s: Ledger, account: int, name: string): seq<Generation>
    requires s.rows != []
  {
    var n := |s.rows|;
    s.rows[n - 1 := s.rows[n - 1].(state := Draining)] + [Generation(account, n + 1, name, CurrentIngress, n + 1)]
  }

  lemma DrainNewest(account: int, s: Ledger, actor: string, reason: string)
    requires Inv(account, s) && s.rows != [] && s.rows[|s.rows| - 1].state == Quiescing
    ensures var n := |s.rows|;
      var row := s.rows[n - 1];
      var (t, r) := MarkDraining(s, row, actor, reason);
      && r == Done(row.(state := Draining)) && t.rows == s.rows[n - 1 := row.(state := Draining)]
      && Inv(account, t) && NoneActive(t.rows)
  {
    var n := |s.rows|;
    var row := s.rows[n - 1];
    var i := Locate(s.rows, (r: Generation) =>
      r.generation == row.generation && r.fencingToken == row.fencingToken && r.state == Quiescing);
    assert i == n - 1;
    MarkDrainingStep(s, account, row, actor, reason);
  }

  lemma InsertNext(account: int, s: Ledger, name: string, actor: string, reason: string)
    requires Inv(account, s) && s.rows != [] && |s.rows| < POSTGRES_BIGINT_MAX
    requires s.rows[|s.rows| - 1].state == Draining
    ensures var n := |s.rows|;
      var row := Generation(account, n + 1, name, CurrentIngress, n + 1);
      var (t, r) := InsertCurrent(s, s.rows[n - 1], account, name, n + 1, n + 1, actor, reason);
      r == Done(row) && t.rows == s.rows + [row]
  {
    OwnStampFindsRow(account, s.rows, |s.rows|);
    MaximaOfNumbered(account, s.rows);
  }

  /** Transaction `x` is open and sees `account` as `s`. */
  predicate Holds(d: Db, x: nat, account: int, s: Ledger) {
    InTransaction(d, x) && account in d.held && d.held[account] == Held(x, s)
  }

  lemma LockHolds(d: Db, x: nat, account: int)
    requires InTransaction(d, x) && account !in d.held
    requires Inv(account, Committed(d, account)) && IsBigint(account)
    requires var rows := Committed(d, account).rows;
      rows != [] && rows[|rows| - 1].state == Quiescing && |rows| < POSTGRES_BIGINT_MAX
    ensures var s := Committed(d, account);
      var n := |s.rows|;
      var (e, h, r) := LockQuiescedIn(d, x, FRESH_HANDOFF, account, n, n);
      Holds(e, x, account, s) && e.committed == d.committed && h == Handoff(Some(x), Some(s.rows[n - 1]), None, false)
  {
    var s := Committed(d, account);
    OwnStampFindsRow(account, s.rows, |s.rows|);
  }

  lemma DrainHolds(d: Db, x: nat, account: int, s: Ledger, actor: string, reason: string)
    requires Holds(d, x, account, s) && Inv(account, s) && IsActorAndReason(actor, reason)
    requires s.rows != [] && s.rows[|s.rows| - 1].state == Quiescing
    ensures var row := s.rows[|s.rows| - 1];
      var (e, h, r) := MarkDrainingIn(d, x, Handoff(Some(x), Some(row), None, false), row, actor, reason);
      && Holds(e, x, account, MarkDraining(s, row, actor, reason).0) && e.committed == d.committed
      && h == Handoff(Some(x), Some(row), Some(row.(state := Draining)), false)
  {
    DrainNewest(account, s, actor, reason);
    assert s.rows[|s.rows| - 1].accountId == account;
  }

  lemma InsertHolds(d: Db, x: nat, account: int, s: Ledger, h: Handoff, name: string, actor: string, reason: string)
    requires Holds(d, x, account, s) && Inv(account, s) && s.rows != [] && |s.rows| < POSTGRES_BIGINT_MAX
    requires s.rows[|s.rows| - 1].state == Draining && h.draining == Some(s.rows[|s.rows| - 1])
    requires h.transactionId == Some(x) && !h.inserted
    requires IsBigint(account) && IsExactText(name, 64) && IsActorAndReason(actor, reason)
    ensures var n := |s.rows|;
      var e := InsertCurrentIn(d, x, h, account, name, n + 1, n + 1, actor, reason).0;
      && Holds(e, x, account, InsertCurrent(s, s.rows[n - 1], account, name, n + 1, n + 1, actor, reason).0)
      && e.committed == d.committed
  {
  }

  lemma CommitHeld(d: Db, x: nat, account: int, s: Ledger)
    requires Holds(d, x, account, s)
    ensures Committed(CommitStep(d, x), account) == s
  {
  }

  lemma InsertStepIs(w: World, x: nat, o: nat, a: int, name: string, g: int, t: int, actor: string, reason: string)
    requires o in w.handoffs
    ensures Step(w, InsertEvent(x, o, a, name, g, t, actor, reason)).db
            == InsertCurrentIn(w.db, x, w.handoffs[o], a, name, g, t, actor, reason).0
  {
  }

  /** Open transaction `x` can lock, through the fresh handoff `o`, an account that nothing
      has locked and whose newest generation is quiesced. */
  ghost predicate CanHandOff(w: World, x: nat, o: nat, account: int) {
    && WorldOk(w) && InTransaction(w.db, x) && account !in w.db.held
    && o in w.handoffs && w.handoffs[o] == FRESH_HANDOFF && IsBigint(account)
    && var rows := Committed(w.db, account).rows;
       rows != [] && rows[|rows| - 1].state == Quiescing && |rows| < POSTGRES_BIGINT_MAX
  }

  /** Lock and drain, in one transaction, of the newest generation. */
  function LockedAndDrained(w: World, x: nat, o: nat, account: int, actor: string, reason: string): World
    requires Committed(w.db, account).rows != []
  {
    var rows := Committed(w.db, account).rows;
    var locked := Step(w, LockEvent(x, o, account, |rows|, |rows|));
    Step(locked, DrainEvent(x, o, rows[|rows| - 1], actor, reason))
  }

  /** Transaction `x` drained the newest generation of `account` through handoff `o` and
      sees the account as `s`. */
  predicate HasDrained(w: World, x: nat, o: nat, account: int, s: Ledger) {
    && Holds(w.db, x, account, s) && Inv(account, s) && 0 < |s.rows| < POSTGRES_BIGINT_MAX
    && s.rows[|s.rows| - 1].state == Draining
    && o in w.handoffs && w.handoffs[o].draining == Some(s.rows[|s.rows| - 1])
    && w.handoffs[o].transactionId == Some(x) && !w.handoffs[o].inserted
  }

  /** After lock and drain the transaction sees the account without ingress, and the
      committed ledger is as it was. */
  lemma HalfHandoffHolds(w: World, x: nat, o: nat, account: int, actor: string, reason: string)
    requires CanHandOff(w, x, o, account) && IsActorAndReason(actor, reason)
    ensures var s := Committed(w.db, account);
      var row := s.rows[|s.rows| - 1];
      var t := MarkDraining(s, row, actor, reason).0;
      var v := LockedAndDrained(w, x, o, account, actor, reason);
      && HasDrained(v, x, o, account, t) && v.db.committed == w.db.committed
      && t.rows == s.rows[|s.rows| - 1 := row.(state := Draining)] && NoneActive(t.rows)
  {
    var s := Committed(w.db, account);
    var n := |s.rows|;
    assert AccountOk(w.db, account);
    LockHolds(w.db, x, account);
    var (d, h, _) := LockQuiescedIn(w.db, x, FRESH_HANDOFF, account, n, n);
    DrainHolds(d, x, account, s, actor, reason);
    DrainNewest(account, s, actor, reason);
    HalfSteps(w, x, o, account, n, n, s.rows[n - 1], actor, reason);
  }

  /** The events as the functions on the database and the handoff's fields. */
  lemma HalfSteps(w: World, x: nat, o: nat, account: int, g: int, t: int, row: Generation, actor: string,
                  reason: string)
    requires o in w.handoffs
    ensures var (d, h, _) := LockQuiescedIn(w.db, x, w.handoffs[o], account, g, t);
      var (e, k, _) := MarkDrainingIn(d, x, h, row, actor, reason);
      var v := Step(Step(w, LockEvent(x, o, account, g, t)), DrainEvent(x, o, row, actor, reason));
      v.db == e && o in v.handoffs && v.handoffs[o] == k
  {
  }

  /** The insert that ends a handoff, and what its commit publishes. */
  lemma InsertThenCommit(w: World, x: nat, o: nat, account: int, s: Ledger, name: string, actor: string, reason: string)
    requires HasDrained(w, x, o, account, s)
    requires IsBigint(account) && IsExactText(name, 64) && IsActorAndReason(actor, reason)
    ensures var n := |s.rows| + 1;
      var inserted := Step(w, InsertEvent(x, o, account, name, n, n, actor, reason));
      && Committed(inserted.db, account) == Committed(w.db, account)
      && Committed(Step(inserted, CommitEvent(x)).db, account).rows
         == s.rows + [Generation(account, n, name, CurrentIngress, n)]
  {
    var n := |s.rows| + 1;
    InsertHolds(w.db, x, account, s, w.handoffs[o], name, actor, reason);
    InsertNext(account, s, name, actor, reason);
    InsertStepIs(w, x, o, account, name, n, n, actor, reason);
    var inserted := Step(w, InsertEvent(x, o, account, name, n, n, actor, reason));
    CommitHeld(inserted.db, x, account, InsertCurrent(s, s.rows[n - 2], account, name, n, n, actor, reason).0);
  }

  /** Lock, drain, insert and commit, in one transaction on an account that nothing else
      has locked, move the ingress to the next generation, and only the commit shows it. */
  lemma HandoffMovesIngress(w: World, x: nat, o: nat, account: int, name: string, actor: string, reason: string)
    requires CanHandOff(w, x, o, account) && IsExactText(name, 64) && IsActorAndReason(actor, reason)
    ensures var s := Committed(w.db, account);
      var n := |s.rows|;
      var drained := LockedAndDrained(w, x, o, account, actor, reason);
      var inserted := Step(drained, InsertEvent(x, o, account, name, n + 1, n + 1, actor, reason));
      && Committed(inserted.db, account) == s
      && Committed(Step(inserted, CommitEvent(x)).db, account).rows == Succeeded(s, account, name)
  {
    var s := Committed(w.db, account);
    var t := MarkDraining(s, s.rows[|s.rows| - 1], actor, reason).0;
    HalfHandoffHolds(w, x, o, account, actor, reason);
    InsertThenCommit(LockedAndDrained(w, x, o, account, actor, reason), x, o, account, t, name, actor, reason);
  }

  /** Lock, drain and commit, without the insert, on an account that had ingress: nothing
      that follows gives it any. */
  lemma HalfHandoffStrands(w: World, x: nat, o: nat, account: int, actor: string, reason: string, later: seq<Event>)
    requires CanHandOff(w, x, o, account) && IsActorAndReason(actor, reason)
    ensures var committed := Step(LockedAndDrained(w, x, o, account, actor, reason), CommitEvent(x));
      var rows := Committed(Run(committed, later).db, account).rows;
      && Stranded(committed, account)
      && NoneActive(rows) && |rows| == |Committed(w.db, account).rows|
  {
    HalfHandoffCommitted(w, x, o, account, actor, reason);
    StrandedForever(Step(LockedAndDrained(w, x, o, account, actor, reason), CommitEvent(x)), later, account);
  }

  lemma HalfHandoffCommitted(w: World, x: nat, o: nat, account: int, actor: string, reason: string)
    requires CanHandOff(w, x, o, account) && IsActorAndReason(actor, reason)
    ensures var committed := Step(LockedAndDrained(w, x, o, account, actor, reason), CommitEvent(x));
      && WorldOk(committed) && Stranded(committed, account)
      && |Committed(committed.db, account).rows| == |Committed(w.db, account).rows|
  {
    var drained := LockedAndDrained(w, x, o, account, actor, reason);
    HalfHandoffOk(w, x, o, account, actor, reason);
    HalfHandoffHolds(w, x, o, account, actor, reason);
    HeldCommitStrands(drained, x, account, drained.db.held[account].view);
  }

  lemma HeldCommitStrands(w: World, x: nat, account: int, s: Ledger)
    requires WorldOk(w) && Holds(w.db, x, account, s) && s.rows != [] && NoneActive(s.rows)
    ensures var committed := Step(w, CommitEvent(x));
      WorldOk(committed) && Stranded(committed, account) && Committed(committed.db, account) == s
  {
    CommitStrands(w, x, account);
    CommitHeld(w.db, x, account, s);
    CommitOk(w, x);
  }

  lemma HalfHandoffOk(w: World, x: nat, o: nat, account: int, actor: string, reason: string)
    requires CanHandOff(w, x, o, account)
    ensures WorldOk(LockedAndDrained(w, x, o, account, actor, reason))
  {
    var rows := Committed(w.db, account).rows;
    TwoStepsOk(w, LockEvent(x, o, account, |rows|, |rows|), DrainEvent(x, o, rows[|rows| - 1], actor, reason));
  }

  lemma TwoStepsOk(w: World, e: Event, f: Event)
    requires WorldOk(w)
    ensures WorldOk(Step(Step(w, e), f))
  {
    StepOk(w, e);
    StepOk(Step(w, e), f);
  }
}
