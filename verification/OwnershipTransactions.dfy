/** Transactions over the ownership table. An exclusive advisory lock per account lasts to
    the end of its transaction, so each locked account has one owner and one private view
    of its ledger; a commit publishes all views of its transaction and a rollback none. */
module OwnershipTransactions {
  import opened Wrappers
  import opened PythonText
  import opened OwnershipLedger

  /** An advisory lock with the ledger as its transaction sees it. */
  datatype Held = Held(owner: nat, view: Ledger)

  /** `open` maps each open transaction to whether an SQL error has aborted it, after which
      only a rollback can follow. */
  datatype Db = Db(committed: map<int, Ledger>, held: map<int, Held>, open: map<nat, bool>, next: nat)

  /** The four fields of a `PipelineOwnershipTransaction`. */
  datatype Handoff = Handoff(
    transactionId: Option<nat>, locked: Option<Generation>, draining: Option<Generation>, inserted: bool)

  const FRESH_HANDOFF := Handoff(None, None, None, false)

  function Committed(db: Db, account: int): Ledger {
    if account in db.committed then db.committed[account] else EMPTY
  }

  predicate LockedByOther(db: Db, x: nat, account: int) {
    account in db.held && db.held[account].owner != x
  }

  // ------------------------------------------------ single-statement commits

  /** One repository transaction: refuses bad arguments first, then waits for the account
      lock; a wait that times out changes nothing. */
  function Published(db: Db, account: int, r: (Ledger, Outcome)): (Db, Outcome) {
    if r.1.ValueError? then (db, r.1)
    else if account in db.held then (db, DatabaseError)
    else (db.(committed := db.committed[account := r.0]), r.1)
  }

  // ------------------------------------------------------- transaction steps

  predicate InTransaction(db: Db, x: nat) {
    x in db.open && !db.open[x]
  }

  /** `_assert_transaction_identity`: binds on first use and refuses another transaction. */
  predicate ForeignTransaction(h: Handoff, x: nat) {
    h.transactionId.Some? && h.transactionId.value != x
  }

  function View(db: Db, account: int): Ledger {
    if account in db.held then db.held[account].view else Committed(db, account)
  }

  function WithView(db: Db, x: nat, account: int, s: Ledger): Db {
    db.(held := db.held[account := Held(x, s)])
  }

  function Abort(db: Db, x: nat): Db {
    db.(open := db.open[x := true])
  }

  function LockQuiescedIn(db: Db, x: nat, h: Handoff, account: int, generation: int, token: int)
    : (Db, Handoff, Outcome)
  {
    if !InTransaction(db, x) then (db, h, NoTransaction)
    else if !IsBigint(account) || !IsBigint(generation) || !IsBigint(token) then (db, h, ValueError)
    else if h.locked.Some? || ForeignTransaction(h, x) then (db, h, StaleFence)
    else
      var bound := h.(transactionId := Some(x));
      if LockedByOther(db, x, account) then (Abort(db, x), bound, DatabaseError)
      else
        var s := View(db, account);
        var r := LockQuiesced(s, generation, token);
        (WithView(db, x, account, s), if r.Done? then bound.(locked := Some(r.row)) else bound, r)
  }

  function MarkDrainingIn(db: Db, x: nat, h: Handoff, locked: Generation, actor: string, reason: string)
    : (Db, Handoff, Outcome)
  {
    if !InTransaction(db, x) then (db, h, NoTransaction)
    else if !IsActorAndReason(actor, reason) then (db, h, ValueError)
    else if h.locked != Some(locked) || h.draining.Some? || ForeignTransaction(h, x) then (db, h, StaleFence)
    else
      var bound := h.(transactionId := Some(x));
      if LockedByOther(db, x, locked.accountId) then (Abort(db, x), bound, DatabaseError)
      else
        var (s, r) := MarkDraining(View(db, locked.accountId), locked, actor, reason);
        (WithView(db, x, locked.accountId, s), if r.Done? then bound.(draining := Some(r.row)) else bound, r)
  }

  function InsertCurrentIn(db: Db, x: nat, h: Handoff, account: int, name: string, generation: int, token: int,
                           actor: string, reason: string): (Db, Handoff, Outcome)
  {
    if !InTransaction(db, x) then (db, h, NoTransaction)
    else if || !IsBigint(account) || !IsExactText(name, 64) || !IsBigint(generation) || !IsBigint(token)
            || !IsActorAndReason(actor, reason) then (db, h, ValueError)
    else if || h.draining.None? || h.draining.value.accountId != account || h.inserted
            || ForeignTransaction(h, x) then (db, h, StaleFence)
    else
      var bound := h.(transactionId := Some(x));
      if LockedByOther(db, x, account) then (Abort(db, x), bound, DatabaseError)
      else
        var (s, r) :=
          InsertCurrent(View(db, account), h.draining.value, account, name, generation, token, actor, reason);
        (WithView(db, x, account, s), if r.Done? then bound.(inserted := true) else bound, r)
  }

  /** Ends transaction `x`, releasing its locks. */
  function Ended(db: Db, x: nat): Db {
    db.(held := map a | a in db.held && db.held[a].owner != x :: db.held[a], open := db.open - {x})
  }

  function CommitStep(db: Db, x: nat): Db {
    if !InTransaction(db, x) then Ended(db, x)
    else
      var published := map a | a in db.held && db.held[a].owner == x :: db.held[a].view;
      Ended(db, x).(committed := db.committed + published)
  }

  // -------------------------------------------------------------------- runs

  datatype World = World(db: Db, handoffs: map<nat, Handoff>)

  datatype Event =
    | BootstrapEvent(account: int, name: string, actor: string, reason: string)
    | QuiesceEvent(account: int, generation: int, token: int, actor: string, reason: string)
    | RetireEvent(account: int, generation: int, token: int, actor: string, reason: string,
                  unresolved: bool, evidence: bool)
    | BeginEvent
    | NewHandoffEvent(o: nat)
    | LockEvent(x: nat, o: nat, account: int, generation: int, token: int)
    | DrainEvent(x: nat, o: nat, locked: Generation, actor: string, reason: string)
    | InsertEvent(x: nat, o: nat, account: int, name: string, generation: int, token: int, actor: string,
                  reason: string)
    | CommitEvent(x: nat)
    | RollbackEvent(x: nat)
    | ErrorEvent(x: nat)

  const START := World(Db(map[], map[], map[], 0), map[])

  function WithHandoff(w: World, o: nat, r: (Db, Handoff, Outcome)): World {
    World(r.0, w.handoffs[o := r.1])
  }

  function Step(w: World, e: Event): World {
    match e
    case BootstrapEvent(a, name, actor, reason) =>
      w.(db := Published(w.db, a, Bootstrap(Committed(w.db, a), a, name, actor, reason)).0)
    case QuiesceEvent(a, g, t, actor, reason) =>
      w.(db := Published(w.db, a, Quiesce(Committed(w.db, a), a, g, t, actor, reason)).0)
    case RetireEvent(a, g, t, actor, reason, unresolved, evidence) =>
      w.(db := Published(w.db, a, Retire(Committed(w.db, a), a, g, t, actor, reason, unresolved, evidence)).0)
    case BeginEvent =>
      w.(db := w.db.(open := w.db.open[w.db.next := false], next := w.db.next + 1))
    case NewHandoffEvent(o) =>
      if o in w.handoffs then w else w.(handoffs := w.handoffs[o := FRESH_HANDOFF])
    case LockEvent(x, o, a, g, t) =>
      if o !in w.handoffs then w else WithHandoff(w, o, LockQuiescedIn(w.db, x, w.handoffs[o], a, g, t))
    case DrainEvent(x, o, locked, actor, reason) =>
      if o !in w.handoffs then w else WithHandoff(w, o, MarkDrainingIn(w.db, x, w.handoffs[o], locked, actor, reason))
    case InsertEvent(x, o, a, name, g, t, actor, reason) =>
      if o !in w.handoffs then w
      else WithHandoff(w, o, InsertCurrentIn(w.db, x, w.handoffs[o], a, name, g, t, actor, reason))
    case CommitEvent(x) => w.(db := CommitStep(w.db, x))
    case RollbackEvent(x) => w.(db := Ended(w.db, x))
    case ErrorEvent(x) => if x in w.db.open then w.(db := Abort(w.db, x)) else w
  }

  function Run(w: World, events: seq<Event>): World {
    if events == [] then w else Step(Run(w, events[..|events| - 1]), events[|events| - 1])
  }

  // -------------------------------------------------------------- invariants

  /** `h` drained a generation of `account` in transaction `x` and has not yet inserted
      its successor. */
  predicate Pending(h: Handoff, x: nat, account: int) {
    && h.transactionId == Some(x) && !h.inserted
    && h.draining.Some? && h.draining.value.accountId == account
  }

  /** The committed ledger is sound, and so is the view of whoever holds the account. */
  predicate AccountOk(db: Db, account: int) {
    && Inv(account, Committed(db, account))
    && (account in db.held ==>
          && Inv(account, db.held[account].view)
          && Evolves(Committed(db, account), db.held[account].view)
          && db.held[account].owner in db.open)
  }

  ghost predicate LedgersOk(db: Db) {
    && (forall a :: AccountOk(db, a))
    && (forall x :: x in db.open ==> x < db.next)
  }

  /** A handoff that drained is bound to a transaction, and to one already numbered. */
  ghost predicate HandoffsBound(w: World) {
    forall o :: o in w.handoffs ==>
      && (w.handoffs[o].transactionId.Some? ==> w.handoffs[o].transactionId.value < w.db.next)
      && (w.handoffs[o].draining.Some? ==> w.handoffs[o].transactionId.Some?)
  }

  /** The transaction of a pending handoff holds its account and sees no active row. */
  ghost predicate PendingHeld(w: World) {
    forall o, x, a | o in w.handoffs && x in w.db.open && Pending(w.handoffs[o], x, a) ::
      a in w.db.held && w.db.held[a].owner == x && NoneActive(w.db.held[a].view.rows)
  }

  ghost predicate PendingAlone(w: World) {
    forall o, p, x, a | o in w.handoffs && p in w.handoffs && x in w.db.open ::
      Pending(w.handoffs[o], x, a) && Pending(w.handoffs[p], x, a) ==> o == p
  }

  ghost predicate HandoffsOk(w: World) {
    HandoffsBound(w) && PendingHeld(w) && PendingAlone(w)
  }

  ghost predicate WorldOk(w: World) {
    LedgersOk(w.db) && HandoffsOk(w)
  }

  /** Every account's committed ledger evolves. */
  ghost predicate DbEvolves(d: Db, e: Db) {
    forall a :: Evolves(Committed(d, a), Committed(e, a))
  }

  lemma EvolvesReflexive(s: Ledger)
    ensures Evolves(s, s)
  {
  }

  lemma EmptyOk(account: int)
    ensures Inv(account, EMPTY)
  {
  }

  // ------------------------------------------- which ledger a step can rewrite

  lemma PublishedRewrites(d: Db, b: int, r: (Ledger, Outcome), a: int)
    ensures var e := Published(d, b, r).0;
      && Committed(e, a) == (if a == b && b !in d.held && !r.1.ValueError? then r.0 else Committed(d, a))
      && View(e, a) == (if a == b && b !in d.held && !r.1.ValueError? then r.0 else View(d, a))
  {
  }

  lemma WithViewRewrites(d: Db, x: nat, b: int, s: Ledger, a: int)
    ensures var e := WithView(d, x, b, s);
      Committed(e, a) == Committed(d, a) && View(e, a) == if a == b then s else View(d, a)
  {
  }

  lemma ClosingRewrites(d: Db, x: nat, a: int)
    ensures Committed(Ended(d, x), a) == Committed(d, a)
    ensures View(Ended(d, x), a) in {Committed(d, a), View(d, a)}
    ensures Committed(CommitStep(d, x), a) in {Committed(d, a), View(d, a)}
    ensures View(CommitStep(d, x), a) in {Committed(d, a), View(d, a)}
  {
  }

  // ----------------------------------------------------- ledgers stay invariant

  lemma DbEvolvesReflexive(d: Db)
    ensures DbEvolves(d, d)
  {
    forall a
      ensures Evolves(Committed(d, a), Committed(d, a))
    {
      EvolvesReflexive(Committed(d, a));
    }
  }

  lemma PublishedLedgersOk(d: Db, account: int, r: (Ledger, Outcome))
    requires LedgersOk(d)
    requires OneStep(account, Committed(d, account), r.0)
    ensures LedgersOk(Published(d, account, r).0) && DbEvolves(d, Published(d, account, r).0)
  {
    DbEvolvesReflexive(d);
    var e := Published(d, account, r).0;
    forall a
      ensures AccountOk(e, a) && Evolves(Committed(d, a), Committed(e, a))
    {
      assert AccountOk(d, a);
      PublishedRewrites(d, account, r, a);
    }
  }

  lemma ViewOk(db: Db, account: int)
    requires LedgersOk(db)
    ensures Inv(account, View(db, account)) && Evolves(Committed(db, account), View(db, account))
  {
    assert AccountOk(db, account);
    EvolvesReflexive(Committed(db, account));
  }

  /** Rewriting the view of one account that `x` holds or may take. */
  lemma WithViewOk(db: Db, x: nat, account: int, s: Ledger)
    requires LedgersOk(db) && x in db.open
    requires Inv(account, s) && Evolves(View(db, account), s)
    ensures LedgersOk(WithView(db, x, account, s)) && DbEvolves(db, WithView(db, x, account, s))
  {
    ViewOk(db, account);
    EvolvesTransitive(Committed(db, account), View(db, account), s);
    DbEvolvesReflexive(db);
    var d := WithView(db, x, account, s);
    forall a
      ensures AccountOk(d, a) && Evolves(Committed(db, a), Committed(d, a))
    {
      assert AccountOk(db, a);
      WithViewRewrites(db, x, account, s, a);
    }
  }

  /** Any change of `open` that forgets no owner and invents no number past `next`. */
  lemma OpenChangedOk(d: Db, e: Db)
    requires LedgersOk(d)
    requires e.committed == d.committed && e.held == d.held && e.open.Keys >= d.open.Keys
    requires forall x :: x in e.open ==> x < e.next
    ensures LedgersOk(e) && DbEvolves(d, e)
  {
    DbEvolvesReflexive(d);
    forall a
      ensures AccountOk(e, a) && Evolves(Committed(d, a), Committed(e, a))
    {
      assert AccountOk(d, a) && Committed(e, a) == Committed(d, a);
    }
  }

  lemma EndedLedgersOk(d: Db, x: nat)
    requires LedgersOk(d)
    ensures LedgersOk(Ended(d, x)) && DbEvolves(d, Ended(d, x))
  {
    var e := Ended(d, x);
    DbEvolvesReflexive(d);
    forall a
      ensures AccountOk(e, a) && Evolves(Committed(d, a), Committed(e, a))
    {
      assert AccountOk(d, a) && Committed(e, a) == Committed(d, a);
    }
  }

  lemma CommitPublishes(d: Db, x: nat, a: int)
    requires LedgersOk(d)
    ensures AccountOk(CommitStep(d, x), a) && Evolves(Committed(d, a), Committed(CommitStep(d, x), a))
  {
    assert AccountOk(d, a);
    EvolvesReflexive(Committed(d, a));
  }

  lemma CommitLedgersOk(d: Db, x: nat)
    requires LedgersOk(d)
    ensures LedgersOk(CommitStep(d, x)) && DbEvolves(d, CommitStep(d, x))
  {
    var e := CommitStep(d, x);
    forall a
      ensures AccountOk(e, a) && Evolves(Committed(d, a), Committed(e, a))
    {
      CommitPublishes(d, x, a);
    }
  }

  // ---------------------------------------------------- handoffs stay in order

  /** Handoff `o` of transaction `x` becomes `h` while `x` leaves account `a` as `s`. */
  ghost predicate IsHandoffMove(w: World, o: nat, x: nat, a: int, h: Handoff, s: Ledger) {
    && HandoffsOk(w) && o in w.handoffs && x in w.db.open && x < w.db.next
    && !LockedByOther(w.db, x, a) && !ForeignTransaction(w.handoffs[o], x) && h.transactionId == Some(x)
    && (forall b :: Pending(h, x, b) ==> Pending(w.handoffs[o], x, b) || b == a)
    && (Pending(h, x, a) ==> NoneActive(s.rows))
    && (forall p :: p in w.handoffs && p != o && Pending(w.handoffs[p], x, a) ==>
          NoneActive(s.rows) && !Pending(h, x, a))
  }

  lemma MovedPendingHeld(w: World, o: nat, x: nat, a: int, h: Handoff, s: Ledger)
    requires IsHandoffMove(w, o, x, a, h, s)
    ensures PendingHeld(World(WithView(w.db, x, a, s), w.handoffs[o := h]))
  {
    var v := World(WithView(w.db, x, a, s), w.handoffs[o := h]);
    forall p, y, b | p in v.handoffs && y in v.db.open && Pending(v.handoffs[p], y, b)
      ensures b in v.db.held && v.db.held[b].owner == y && NoneActive(v.db.held[b].view.rows)
    {
      if p == o {
        assert y == x;
      } else {
        assert Pending(w.handoffs[p], y, b);
      }
    }
  }

  lemma MovedPendingAlone(w: World, o: nat, x: nat, a: int, h: Handoff, s: Ledger)
    requires IsHandoffMove(w, o, x, a, h, s)
    ensures PendingAlone(World(WithView(w.db, x, a, s), w.handoffs[o := h]))
  {
    var v := World(WithView(w.db, x, a, s), w.handoffs[o := h]);
    forall p, q, y, b | p in v.handoffs && q in v.handoffs && y in v.db.open
                        && Pending(v.handoffs[p], y, b) && Pending(v.handoffs[q], y, b)
      ensures p == q
    {
      if p != o && q != o {
        assert Pending(w.handoffs[p], y, b) && Pending(w.handoffs[q], y, b);
      }
    }
  }

  lemma HandoffsKept(w: World, o: nat, x: nat, a: int, h: Handoff, s: Ledger)
    requires IsHandoffMove(w, o, x, a, h, s)
    ensures HandoffsOk(World(WithView(w.db, x, a, s), w.handoffs[o := h]))
  {
    MovedPendingHeld(w, o, x, a, h, s);
    MovedPendingAlone(w, o, x, a, h, s);
  }

  /** Binding handoff `o` to `x` while an SQL error aborts `x`. */
  lemma HandoffsAborted(w: World, o: nat, x: nat, h: Handoff)
    requires HandoffsOk(w) && o in w.handoffs && x in w.db.open && x < w.db.next
    requires !ForeignTransaction(w.handoffs[o], x) && h == w.handoffs[o].(transactionId := Some(x))
    ensures HandoffsOk(World(Abort(w.db, x), w.handoffs[o := h]))
  {
    assert forall b :: Pending(h, x, b) ==> Pending(w.handoffs[o], x, b);
  }

  /** The steps of a handoff come to one of these: nothing happens, the lock wait aborts the
      transaction, or the step runs and may rewrite the view and the handoff. */
  lemma NothingOk(w: World, o: nat, r: (Db, Handoff, Outcome))
    requires WorldOk(w) && o in w.handoffs && r.0 == w.db && r.1 == w.handoffs[o]
    ensures WorldOk(WithHandoff(w, o, r)) && DbEvolves(w.db, r.0)
  {
    DbEvolvesReflexive(w.db);
    assert w.handoffs[o := r.1] == w.handoffs;
  }

  lemma AbortedOk(w: World, o: nat, x: nat, r: (Db, Handoff, Outcome))
    requires WorldOk(w) && o in w.handoffs && x in w.db.open && !ForeignTransaction(w.handoffs[o], x)
    requires r.0 == Abort(w.db, x) && r.1 == w.handoffs[o].(transactionId := Some(x))
    ensures WorldOk(WithHandoff(w, o, r)) && DbEvolves(w.db, r.0)
  {
    OpenChangedOk(w.db, r.0);
    HandoffsAborted(w, o, x, r.1);
  }

  lemma RanOk(w: World, o: nat, x: nat, a: int, s: Ledger, r: (Db, Handoff, Outcome))
    requires WorldOk(w) && IsHandoffMove(w, o, x, a, r.1, s)
    requires r.0 == WithView(w.db, x, a, s) && Inv(a, s) && Evolves(View(w.db, a), s)
    ensures WorldOk(WithHandoff(w, o, r)) && DbEvolves(w.db, r.0)
  {
    WithViewOk(w.db, x, a, s);
    HandoffsKept(w, o, x, a, r.1, s);
  }

  /** What the lock holder sees of an account that a handoff of its transaction drained. */
  lemma PendingView(w: World, x: nat, a: int)
    requires HandoffsOk(w) && x in w.db.open
    ensures forall p :: p in w.handoffs && Pending(w.handoffs[p], x, a) ==> NoneActive(View(w.db, a).rows)
    ensures forall p, q :: p in w.handoffs && q in w.handoffs && p != q ==>
      !(Pending(w.handoffs[p], x, a) && Pending(w.handoffs[q], x, a))
  {
  }

  lemma LockRunsOk(w: World, x: nat, o: nat, account: int, generation: int, token: int)
    requires WorldOk(w) && o in w.handoffs
    ensures var r := LockQuiescedIn(w.db, x, w.handoffs[o], account, generation, token);
      WorldOk(WithHandoff(w, o, r)) && DbEvolves(w.db, r.0)
  {
    var h := w.handoffs[o];
    var r := LockQuiescedIn(w.db, x, h, account, generation, token);
    if r.1 == h && r.0 == w.db {
      NothingOk(w, o, r);
    } else if LockedByOther(w.db, x, account) {
      AbortedOk(w, o, x, r);
    } else {
      ViewOk(w.db, account);
      EvolvesReflexive(View(w.db, account));
      PendingView(w, x, account);
      RanOk(w, o, x, account, View(w.db, account), r);
    }
  }

  lemma LockOk(w: World, x: nat, o: nat, account: int, generation: int, token: int)
    requires WorldOk(w)
    ensures var v := Step(w, LockEvent(x, o, account, generation, token)); WorldOk(v) && DbEvolves(w.db, v.db)
  {
    if o in w.handoffs {
      LockRunsOk(w, x, o, account, generation, token);
    } else {
      DbEvolvesReflexive(w.db);
    }
  }

  lemma DrainRunsOk(w: World, x: nat, o: nat, locked: Generation, actor: string, reason: string)
    requires WorldOk(w) && o in w.handoffs
    ensures var r := MarkDrainingIn(w.db, x, w.handoffs[o], locked, actor, reason);
      WorldOk(WithHandoff(w, o, r)) && DbEvolves(w.db, r.0)
  {
    var a, h := locked.accountId, w.handoffs[o];
    var r := MarkDrainingIn(w.db, x, h, locked, actor, reason);
    if r.1 == h && r.0 == w.db {
      NothingOk(w, o, r);
    } else if LockedByOther(w.db, x, a) {
      AbortedOk(w, o, x, r);
    } else {
      ViewOk(w.db, a);
      PendingView(w, x, a);
      MarkDrainingStep(View(w.db, a), a, locked, actor, reason);
      RanOk(w, o, x, a, MarkDraining(View(w.db, a), locked, actor, reason).0, r);
    }
  }

  lemma DrainOk(w: World, x: nat, o: nat, locked: Generation, actor: string, reason: string)
    requires WorldOk(w)
    ensures var v := Step(w, DrainEvent(x, o, locked, actor, reason)); WorldOk(v) && DbEvolves(w.db, v.db)
  {
    if o in w.handoffs {
      DrainRunsOk(w, x, o, locked, actor, reason);
    } else {
      DbEvolvesReflexive(w.db);
    }
  }

  lemma InsertRunsOk(w: World, x: nat, o: nat, account: int, name: string, generation: int, token: int,
                     actor: string, reason: string)
    requires WorldOk(w) && o in w.handoffs
    ensures var r := InsertCurrentIn(w.db, x, w.handoffs[o], account, name, generation, token, actor, reason);
      WorldOk(WithHandoff(w, o, r)) && DbEvolves(w.db, r.0)
  {
    var h := w.handoffs[o];
    var r := InsertCurrentIn(w.db, x, h, account, name, generation, token, actor, reason);
    if r.1 == h && r.0 == w.db {
      NothingOk(w, o, r);
    } else {
      assert Pending(h, x, account);
      ViewOk(w.db, account);
      PendingView(w, x, account);
      var s := View(w.db, account);
      InsertCurrentStep(s, h.draining.value, account, name, generation, token, actor, reason);
      RanOk(w, o, x, account,
            InsertCurrent(s, h.draining.value, account, name, generation, token, actor, reason).0, r);
    }
  }

  lemma InsertOk(w: World, x: nat, o: nat, account: int, name: string, generation: int, token: int,
                 actor: string, reason: string)
    requires WorldOk(w)
    ensures var v := Step(w, InsertEvent(x, o, account, name, generation, token, actor, reason));
      WorldOk(v) && DbEvolves(w.db, v.db)
  {
    if o in w.handoffs {
      InsertRunsOk(w, x, o, account, name, generation, token, actor, reason);
    } else {
      DbEvolvesReflexive(w.db);
    }
  }

  /** Only a transaction that was open before can have a pending handoff. */
  lemma PendingIsOld(w: World, o: nat, x: nat, a: int)
    requires HandoffsBound(w) && o in w.handoffs && Pending(w.handoffs[o], x, a)
    ensures x < w.db.next
  {
  }

  /** Steps that leave every handoff and every surviving lock alone. */
  lemma HandoffsUntouched(w: World, d: Db)
    requires HandoffsOk(w) && d.next >= w.db.next
    requires forall x :: x in d.open ==> x in w.db.open || x == w.db.next
    requires forall a :: a in w.db.held && w.db.held[a].owner in d.open ==> a in d.held && d.held[a] == w.db.held[a]
    ensures HandoffsOk(w.(db := d))
  {
    var v := w.(db := d);
    forall o, x, a | o in v.handoffs && x in v.db.open && Pending(v.handoffs[o], x, a)
      ensures x in w.db.open
      ensures a in v.db.held && v.db.held[a].owner == x && NoneActive(v.db.held[a].view.rows)
    {
      PendingIsOld(w, o, x, a);
    }
  }

  lemma HandoffCreated(w: World, o: nat)
    requires HandoffsOk(w) && o !in w.handoffs
    ensures HandoffsOk(w.(handoffs := w.handoffs[o := FRESH_HANDOFF]))
  {
    assert forall x, a :: !Pending(FRESH_HANDOFF, x, a);
  }

  // ---------------------------------------------------------------- every run

  lemma RepositoryStepOk(w: World, account: int, r: (Ledger, Outcome))
    requires WorldOk(w)
    requires OneStep(account, Committed(w.db, account), r.0)
    ensures var v := w.(db := Published(w.db, account, r).0); WorldOk(v) && DbEvolves(w.db, v.db)
  {
    PublishedLedgersOk(w.db, account, r);
    HandoffsUntouched(w, Published(w.db, account, r).0);
  }

  /** A change of the database that leaves every handoff and surviving lock alone. */
  lemma QuietStepOk(w: World, d: Db)
    requires WorldOk(w) && LedgersOk(d) && d.next >= w.db.next
    requires forall x :: x in d.open ==> x in w.db.open || x == w.db.next
    requires forall a :: a in w.db.held && w.db.held[a].owner in d.open ==> a in d.held && d.held[a] == w.db.held[a]
    ensures WorldOk(w.(db := d))
  {
    HandoffsUntouched(w, d);
  }

  lemma BeginOk(w: World)
    requires WorldOk(w)
    ensures var v := Step(w, BeginEvent); WorldOk(v) && DbEvolves(w.db, v.db)
  {
    OpenChangedOk(w.db, Step(w, BeginEvent).db);
    QuietStepOk(w, Step(w, BeginEvent).db);
  }

  lemma NewHandoffOk(w: World, o: nat)
    requires WorldOk(w)
    ensures var v := Step(w, NewHandoffEvent(o)); WorldOk(v) && DbEvolves(w.db, v.db)
  {
    DbEvolvesReflexive(w.db);
    if o !in w.handoffs {
      HandoffCreated(w, o);
    }
  }

  lemma CommitOk(w: World, x: nat)
    requires WorldOk(w)
    ensures var v := Step(w, CommitEvent(x)); WorldOk(v) && DbEvolves(w.db, v.db)
  {
    CommitLedgersOk(w.db, x);
    QuietStepOk(w, CommitStep(w.db, x));
  }

  lemma RollbackOk(w: World, x: nat)
    requires WorldOk(w)
    ensures var v := Step(w, RollbackEvent(x)); WorldOk(v) && DbEvolves(w.db, v.db)
  {
    EndedLedgersOk(w.db, x);
    QuietStepOk(w, Ended(w.db, x));
  }

  lemma ErrorOk(w: World, x: nat)
    requires WorldOk(w)
    ensures var v := Step(w, ErrorEvent(x)); WorldOk(v) && DbEvolves(w.db, v.db)
  {
    DbEvolvesReflexive(w.db);
    if x in w.db.open {
      OpenChangedOk(w.db, Abort(w.db, x));
      QuietStepOk(w, Abort(w.db, x));
    }
  }

  lemma RepositoryEventOk(w: World, e: Event)
    requires WorldOk(w) && (e.BootstrapEvent? || e.QuiesceEvent? || e.RetireEvent?)
    ensures WorldOk(Step(w, e)) && DbEvolves(w.db, Step(w, e).db)
  {
    var s := Committed(w.db, e.account);
    assert AccountOk(w.db, e.account);
    match e
    case BootstrapEvent(a, name, actor, reason) =>
      BootstrapStep(s, a, name, actor, reason);
      RepositoryStepOk(w, a, Bootstrap(s, a, name, actor, reason));
    case QuiesceEvent(a, g, t, actor, reason) =>
      QuiesceStep(s, a, g, t, actor, reason);
      RepositoryStepOk(w, a, Quiesce(s, a, g, t, actor, reason));
    case RetireEvent(a, g, t, actor, reason, unresolved, evidence) =>
      RetireStep(s, a, g, t, actor, reason, unresolved, evidence);
      RepositoryStepOk(w, a, Retire(s, a, g, t, actor, reason, unresolved, evidence));
  }

  /** Every event keeps every invariant, and committed ledgers only move forward. */
  lemma StepOk(w: World, e: Event)
    requires WorldOk(w)
    ensures WorldOk(Step(w, e)) && DbEvolves(w.db, Step(w, e).db)
  {
    match e
    case BootstrapEvent(_, _, _, _) => RepositoryEventOk(w, e);
    case QuiesceEvent(_, _, _, _, _) => RepositoryEventOk(w, e);
    case RetireEvent(_, _, _, _, _, _, _) => RepositoryEventOk(w, e);
    case LockEvent(x, o, a, g, t) => LockOk(w, x, o, a, g, t);
    case DrainEvent(x, o, locked, actor, reason) => DrainOk(w, x, o, locked, actor, reason);
    case InsertEvent(x, o, a, name, g, t, actor, reason) => InsertOk(w, x, o, a, name, g, t, actor, reason);
    case BeginEvent => BeginOk(w);
    case NewHandoffEvent(o) => NewHandoffOk(w, o);
    case CommitEvent(x) => CommitOk(w, x);
    case RollbackEvent(x) => RollbackOk(w, x);
    case ErrorEvent(x) => ErrorOk(w, x);
  }

  lemma {:induction false} RunOk(w: World, events: seq<Event>)
    requires WorldOk(w)
    ensures WorldOk(Run(w, events)) && DbEvolves(w.db, Run(w, events).db)
  {
    if events == [] {
      forall a
        ensures Evolves(Committed(w.db, a), Committed(w.db, a))
      {
        EvolvesReflexive(Committed(w.db, a));
      }
    } else {
      var before := Run(w, events[..|events| - 1]);
      RunOk(w, events[..|events| - 1]);
      StepOk(before, events[|events| - 1]);
      forall a
        ensures Evolves(Committed(w.db, a), Committed(Run(w, events).db, a))
      {
        EvolvesTransitive(Committed(w.db, a), Committed(before.db, a), Committed(Run(w, events).db, a));
      }
    }
  }
}
