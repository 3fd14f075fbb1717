/** One account's rows of `pipeline_ownership` with its audit events, and what each
    ownership transaction does to them. */
module OwnershipLedger {
  import opened PythonText

  const POSTGRES_BIGINT_MAX := 0x7FFF_FFFF_FFFF_FFFF

  datatype GenerationState = CurrentIngress | Quiescing | Draining | Retired

  datatype Generation = Generation(
    accountId: int, generation: int, pipelineName: string, state: GenerationState, fencingToken: int)

  datatype Action = BootstrapAction | QuiesceAction | MarkDrainingAction | InsertCurrentAction | RetireAction

  /** The parts hashed into `event_key`. SHA-256 is taken to be injective, so the
      parts stand for their digest. */
  datatype EventKey = EventKey(
    accountId: int, generation: int, fencingToken: int, action: Action, actor: string, reason: string)

  /** The parts hashed into `object_fingerprint`. */
  datatype Fingerprint = Fingerprint(accountId: int, generation: int, fencingToken: int, pipelineName: string)

  datatype AuditEvent = AuditEvent(
    key: EventKey, subject: Fingerprint, generation: int, fencingToken: int, state: GenerationState)

  /** Rows are kept in insertion order. */
  datatype Ledger = Ledger(rows: seq<Generation>, audit: seq<AuditEvent>)

  datatype Outcome =
    | Done(row: Generation)
    | StaleFence
    | ValueError
    | RetirementBlocked(unresolvedWork: bool)
    | NoTransaction
    | DatabaseError

  const EMPTY := Ledger([], [])

  // ---------------------------------------------------------------- queries

  predicate IsBigint(n: int) {
    0 < n <= POSTGRES_BIGINT_MAX
  }

  /** The first row that satisfies `p`, or `|rows|`. */
  function Locate(rows: seq<Generation>, p: Generation -> bool): (i: nat)
    ensures i <= |rows|
    ensures i < |rows| ==> p(rows[i])
    ensures forall j :: 0 <= j < i ==> !p(rows[j])
  {
    if rows == [] || p(rows[0]) then 0 else 1 + Locate(rows[1..], p)
  }

  function LocateState(rows: seq<Generation>, state: GenerationState): nat {
    Locate(rows, (r: Generation) => r.state == state)
  }

  /** `_fetch_exact` with a fencing token. */
  function LocateExact(rows: seq<Generation>, generation: int, fencingToken: int): nat {
    Locate(rows, (r: Generation) => r.generation == generation && r.fencingToken == fencingToken)
  }

  function MaxGeneration(rows: seq<Generation>): int
    requires rows != []
  {
    var last := rows[|rows| - 1].generation;
    if |rows| == 1 then last else
      var m := MaxGeneration(rows[..|rows| - 1]);
      if m > last then m else last
  }

  function MaxToken(rows: seq<Generation>): int
    requires rows != []
  {
    var last := rows[|rows| - 1].fencingToken;
    if |rows| == 1 then last else
      var m := MaxToken(rows[..|rows| - 1]);
      if m > last then m else last
  }

  // ------------------------------------------------------------- operations

  /** `_audit`: an event whose key is already stored is dropped. */
  function Audited(s: Ledger, row: Generation, action: Action, actor: string, reason: string): Ledger {
    var key := EventKey(row.accountId, row.generation, row.fencingToken, action, actor, reason);
    var subject := Fingerprint(row.accountId, row.generation, row.fencingToken, row.pipelineName);
    if exists e :: e in s.audit && e.key == key then s
    else s.(audit := s.audit + [AuditEvent(key, subject, row.generation, row.fencingToken, row.state)])
  }

  /** Writes a new state into row `i` and audits it. */
  function Advanced(s: Ledger, i: nat, state: GenerationState, action: Action, actor: string, reason: string): Ledger
    requires i < |s.rows|
  {
    var row := s.rows[i].(state := state);
    Audited(s.(rows := s.rows[i := row]), row, action, actor, reason)
  }

  function Appended(s: Ledger, row: Generation, action: Action, actor: string, reason: string): Ledger {
    Audited(s.(rows := s.rows + [row]), row, action, actor, reason)
  }

  predicate IsActorAndReason(actor: string, reason: string) {
    IsExactText(actor, 128) && IsExactText(reason, 512)
  }

  function Bootstrap(s: Ledger, account: int, name: string, actor: string, reason: string): (Ledger, Outcome) {
    if !IsBigint(account) || !IsExactText(name, 64) || !IsActorAndReason(actor, reason) then (s, ValueError)
    else if s.rows != [] then
      var i := LocateState(s.rows, CurrentIngress);
      if i < |s.rows| && s.rows[i].pipelineName == name then (s, Done(s.rows[i])) else (s, StaleFence)
    else
      var row := Generation(account, 1, name, CurrentIngress, 1);
      (Appended(s, row, BootstrapAction, actor, reason), Done(row))
  }

  function Quiesce(s: Ledger, account: int, generation: int, token: int, actor: string, reason: string)
    : (Ledger, Outcome)
  {
    if !IsBigint(account) || !IsBigint(generation) || !IsBigint(token) || !IsActorAndReason(actor, reason)
    then (s, ValueError)
    else
      var i := LocateState(s.rows, CurrentIngress);
      if i < |s.rows| then
        if s.rows[i].generation != generation || s.rows[i].fencingToken != token then (s, StaleFence)
        else (Advanced(s, i, Quiescing, QuiesceAction, actor, reason), Done(s.rows[i].(state := Quiescing)))
      else
        var j := LocateExact(s.rows, generation, token);
        if j < |s.rows| && s.rows[j].state == Quiescing then (s, Done(s.rows[j])) else (s, StaleFence)
  }

  /** `unresolved`: a blocking Inbox or email row of this generation exists.
      `evidence`: the retirement guard returned without raising. */
  function Retire(s: Ledger, account: int, generation: int, token: int, actor: string, reason: string,
                  unresolved: bool, evidence: bool): (Ledger, Outcome)
  {
    if !IsBigint(account) || !IsBigint(generation) || !IsBigint(token) || !IsActorAndReason(actor, reason)
    then (s, ValueError)
    else
      var i := LocateExact(s.rows, generation, token);
      if i == |s.rows| || s.rows[i].state != Draining then (s, StaleFence)
      else if unresolved then (s, RetirementBlocked(true))
      else if !evidence then (s, RetirementBlocked(false))
      else (Advanced(s, i, Retired, RetireAction, actor, reason), Done(s.rows[i].(state := Retired)))
  }

  function LockQuiesced(s: Ledger, generation: int, token: int): Outcome {
    var i := LocateExact(s.rows, generation, token);
    if i < |s.rows| && s.rows[i].state == Quiescing then Done(s.rows[i]) else StaleFence
  }

  function MarkDraining(s: Ledger, locked: Generation, actor: string, reason: string): (Ledger, Outcome) {
    var i := Locate(s.rows, (r: Generation) =>
      r.generation == locked.generation && r.fencingToken == locked.fencingToken && r.state == Quiescing);
    if i == |s.rows| then (s, StaleFence)
    else (Advanced(s, i, Draining, MarkDrainingAction, actor, reason), Done(s.rows[i].(state := Draining)))
  }

  function InsertCurrent(s: Ledger, draining: Generation, account: int, name: string, generation: int, token: int,
                         actor: string, reason: string): (Ledger, Outcome)
  {
    var i := LocateExact(s.rows, draining.generation, draining.fencingToken);
    if i == |s.rows| || s.rows[i] != draining || s.rows[i].state != Draining then (s, StaleFence)
    else if || MaxGeneration(s.rows) >= POSTGRES_BIGINT_MAX
            || MaxToken(s.rows) >= POSTGRES_BIGINT_MAX
            || generation != MaxGeneration(s.rows) + 1
            || token != MaxToken(s.rows) + 1 then (s, StaleFence)
    else
      var row := Generation(account, generation, name, CurrentIngress, token);
      (Appended(s, row, InsertCurrentAction, actor, reason), Done(row))
  }

  /** `assert_fence`: whether a stamp is accepted. */
  predicate AcceptsFence(s: Ledger, generation: int, token: int) {
    var i := LocateExact(s.rows, generation, token);
    i < |s.rows| && s.rows[i].state != Retired
  }

  // ------------------------------------------------------------- invariants

  predicate IsActive(state: GenerationState) {
    state == CurrentIngress || state == Quiescing
  }

  predicate NoneActive(rows: seq<Generation>) {
    forall i :: 0 <= i < |rows| ==> !IsActive(rows[i].state)
  }

  /** How many committed transitions a row in this state has behind it. */
  function Rank(state: GenerationState): nat {
    match state
    case CurrentIngress => 1
    case Quiescing => 2
    case Draining => 3
    case Retired => 4
  }

  function ActionRank(action: Action): nat {
    match action
    case BootstrapAction => 1
    case InsertCurrentAction => 1
    case QuiesceAction => 2
    case MarkDrainingAction => 3
    case RetireAction => 4
  }

  function SumOfRanks(rows: seq<Generation>): nat {
    if rows == [] then 0 else SumOfRanks(rows[..|rows| - 1]) + Rank(rows[|rows| - 1].state)
  }

  datatype RowFact = RowFact(generation: int, fencingToken: int, state: GenerationState, subject: Fingerprint)

  function FactOf(row: Generation): RowFact {
    RowFact(row.generation, row.fencingToken, row.state,
            Fingerprint(row.accountId, row.generation, row.fencingToken, row.pipelineName))
  }

  function Facts(rows: seq<Generation>): (r: seq<RowFact>) {
    seq(|rows|, i requires 0 <= i < |rows| => FactOf(rows[i]))
  }

  /** Rebuilds the ownership rows from the audit trail alone: the first event about a
      generation adds its row, a later one overwrites it. */
  function Replay(audit: seq<AuditEvent>): seq<RowFact> {
    if audit == [] then []
    else
      var before := Replay(audit[..|audit| - 1]);
      var e := audit[|audit| - 1];
      var fact := RowFact(e.generation, e.fencingToken, e.state, e.subject);
      if 1 <= e.generation <= |before| then before[e.generation - 1 := fact] else before + [fact]
  }

  /** Numbering is dense with token equal to generation, and only the newest row can be
      current or quiescing. */
  predicate WellNumbered(account: int, rows: seq<Generation>) {
    && (forall i :: 0 <= i < |rows| ==>
          rows[i].accountId == account && rows[i].generation == i + 1 && rows[i].fencingToken == i + 1)
    && (forall i :: 0 <= i < |rows| - 1 ==> !IsActive(rows[i].state))
  }

  predicate AuditMatches(s: Ledger) {
    && Replay(s.audit) == Facts(s.rows)
    && |s.audit| == SumOfRanks(s.rows)
    && (forall e :: e in s.audit ==>
          1 <= e.key.generation <= |s.rows|
          && ActionRank(e.key.action) <= Rank(s.rows[e.key.generation - 1].state))
  }

  predicate Inv(account: int, s: Ledger) {
    WellNumbered(account, s.rows) && AuditMatches(s)
  }

  /** Rows are never removed, keep their identity, and only move forward; the audit
      trail only grows. */
  predicate Evolves(s: Ledger, t: Ledger) {
    && |s.rows| <= |t.rows|
    && (forall i :: 0 <= i < |s.rows| ==>
          t.rows[i] == s.rows[i].(state := t.rows[i].state)
          && Rank(s.rows[i].state) <= Rank(t.rows[i].state))
    && s.audit <= t.audit
  }

  lemma EvolvesTransitive(s: Ledger, t: Ledger, u: Ledger)
    requires Evolves(s, t) && Evolves(t, u)
    ensures Evolves(s, u)
  {
    forall i | 0 <= i < |s.rows|
      ensures u.rows[i] == s.rows[i].(state := u.rows[i].state) && Rank(s.rows[i].state) <= Rank(u.rows[i].state)
    {
      assert t.rows[i] == s.rows[i].(state := t.rows[i].state);
    }
  }

  // ------------------------------------------------------------------ proofs

  lemma {:induction false} SumOfRanksUpdate(rows: seq<Generation>, i: nat, row: Generation)
    requires i < |rows|
    ensures SumOfRanks(rows[i := row]) == SumOfRanks(rows) - Rank(rows[i].state) + Rank(row.state)
  {
    var n := |rows| - 1;
    var updated := rows[i := row];
    if i == n {
      assert updated[..n] == rows[..n];
    } else {
      assert updated[..n] == rows[..n][i := row];
      SumOfRanksUpdate(rows[..n], i, row);
    }
  }

  lemma {:induction false} MaximaOfNumbered(account: int, rows: seq<Generation>)
    requires rows != [] && WellNumbered(account, rows)
    ensures MaxGeneration(rows) == |rows| && MaxToken(rows) == |rows|
  {
    if |rows| > 1 {
      MaximaOfNumbered(account, rows[..|rows| - 1]);
    }
  }

  /** A key that no stored event carries is appended. */
  lemma AuditedAppends(s: Ledger, row: Generation, action: Action, actor: string, reason: string)
    requires forall e :: e in s.audit && e.key.generation == row.generation ==>
      ActionRank(e.key.action) < ActionRank(action)
    ensures var t := Audited(s, row, action, actor, reason);
      && t.rows == s.rows && |t.audit| == |s.audit| + 1
      && t.audit == s.audit + [t.audit[|s.audit|]]
      && var e := t.audit[|s.audit|];
        && e.key.generation == row.generation && e.key.action == action
        && RowFact(e.generation, e.fencingToken, e.state, e.subject) == FactOf(row)
        && e.generation == row.generation
  {
  }

  lemma ReplaySnoc(audit: seq<AuditEvent>, e: AuditEvent)
    ensures var before := Replay(audit);
      var fact := RowFact(e.generation, e.fencingToken, e.state, e.subject);
      Replay(audit + [e]) ==
        if 1 <= e.generation <= |before| then before[e.generation - 1 := fact] else before + [fact]
  {
    assert (audit + [e])[..|audit|] == audit;
  }

  /** Moving one row to the next state keeps the invariant and adds exactly one event. */
  lemma AdvancedKeepsInv(account: int, s: Ledger, i: nat, state: GenerationState, action: Action, actor: string,
                         reason: string)
    requires Inv(account, s) && i < |s.rows|
    requires Rank(state) == Rank(s.rows[i].state) + 1 == ActionRank(action)
    ensures var t := Advanced(s, i, state, action, actor, reason);
      Inv(account, t) && Evolves(s, t) && |t.audit| == |s.audit| + 1
  {
    var t := Advanced(s, i, state, action, actor, reason);
    var row := s.rows[i].(state := state);
    assert s.rows[i].generation == i + 1;
    AuditedAppends(s.(rows := s.rows[i := row]), row, action, actor, reason);
    AdvancedAudit(s, i, row, t.audit[|s.audit|]);
    assert WellNumbered(account, t.rows);
  }

  /** The audit trail still matches after row `i` moves on and `e` records it. */
  lemma AdvancedAudit(s: Ledger, i: nat, row: Generation, e: AuditEvent)
    requires AuditMatches(s) && i < |s.rows| && row == s.rows[i].(state := row.state)
    requires Rank(row.state) == Rank(s.rows[i].state) + 1 == ActionRank(e.key.action)
    requires e.generation == e.key.generation == row.generation == i + 1
    requires RowFact(e.generation, e.fencingToken, e.state, e.subject) == FactOf(row)
    ensures AuditMatches(Ledger(s.rows[i := row], s.audit + [e]))
  {
    var t := Ledger(s.rows[i := row], s.audit + [e]);
    SumOfRanksUpdate(s.rows, i, row);
    ReplaySnoc(s.audit, e);
    assert Facts(t.rows) == Facts(s.rows)[i := FactOf(row)];
    forall f | f in t.audit
      ensures 1 <= f.key.generation <= |t.rows| && ActionRank(f.key.action) <= Rank(t.rows[f.key.generation - 1].state)
    {
      assert f in s.audit || f == e;
    }
  }

  /** The audit trail still matches after `row` is added and `e` records it. */
  lemma AppendedAudit(s: Ledger, row: Generation, e: AuditEvent)
    requires AuditMatches(s) && Rank(row.state) == 1 == ActionRank(e.key.action)
    requires e.generation == e.key.generation == row.generation == |s.rows| + 1
    requires RowFact(e.generation, e.fencingToken, e.state, e.subject) == FactOf(row)
    ensures AuditMatches(Ledger(s.rows + [row], s.audit + [e]))
  {
    var t := Ledger(s.rows + [row], s.audit + [e]);
    ReplaySnoc(s.audit, e);
    assert t.rows[..|s.rows|] == s.rows;
    assert Facts(t.rows) == Facts(s.rows) + [FactOf(row)];
    forall f | f in t.audit
      ensures 1 <= f.key.generation <= |t.rows| && ActionRank(f.key.action) <= Rank(t.rows[f.key.generation - 1].state)
    {
      assert f in s.audit || f == e;
    }
  }

  lemma AppendedKeepsInv(account: int, s: Ledger, row: Generation, action: Action, actor: string, reason: string)
    requires Inv(account, s) && NoneActive(s.rows)
    requires row.accountId == account && row.generation == row.fencingToken == |s.rows| + 1
    requires row.state == CurrentIngress && ActionRank(action) == 1
    ensures var t := Appended(s, row, action, actor, reason);
      Inv(account, t) && Evolves(s, t) && |t.audit| == |s.audit| + 1
  {
    var t := Appended(s, row, action, actor, reason);
    AuditedAppends(s.(rows := s.rows + [row]), row, action, actor, reason);
    AppendedAudit(s, row, t.audit[|s.audit|]);
    assert WellNumbered(account, t.rows);
  }

  /** What one committed operation may do: nothing and no event, or one event. */
  predicate OneStep(account: int, s: Ledger, t: Ledger) {
    && Inv(account, t) && Evolves(s, t)
    && (t == s || |t.audit| == |s.audit| + 1)
  }

  lemma BootstrapStep(s: Ledger, account: int, name: string, actor: string, reason: string)
    requires Inv(account, s)
    ensures var (t, r) := Bootstrap(s, account, name, actor, reason);
      OneStep(account, s, t) && (s.rows != [] ==> t == s)
  {
    if IsBigint(account) && IsExactText(name, 64) && IsActorAndReason(actor, reason) && s.rows == [] {
      AppendedKeepsInv(account, s, Generation(account, 1, name, CurrentIngress, 1), BootstrapAction, actor, reason);
    }
  }

  lemma QuiesceStep(s: Ledger, account: int, generation: int, token: int, actor: string, reason: string)
    requires Inv(account, s)
    ensures var (t, r) := Quiesce(s, account, generation, token, actor, reason);
      OneStep(account, s, t) && |t.rows| == |s.rows|
  {
    QuiesceAdvances(s, account, generation, token, actor, reason);
    var i := LocateState(s.rows, CurrentIngress);
    if i < |s.rows| {
      AdvancedKeepsInv(account, s, i, Quiescing, QuiesceAction, actor, reason);
    }
    StandingStill(account, s);
  }

  lemma QuiesceAdvances(s: Ledger, account: int, generation: int, token: int, actor: string, reason: string)
    ensures var t := Quiesce(s, account, generation, token, actor, reason).0;
      var i := LocateState(s.rows, CurrentIngress);
      t == s || (i < |s.rows| && t == Advanced(s, i, Quiescing, QuiesceAction, actor, reason))
  {
  }

  lemma StandingStill(account: int, s: Ledger)
    requires Inv(account, s)
    ensures OneStep(account, s, s)
  {
  }

  lemma RetireStep(s: Ledger, account: int, generation: int, token: int, actor: string, reason: string,
                   unresolved: bool, evidence: bool)
    requires Inv(account, s)
    ensures var (t, r) := Retire(s, account, generation, token, actor, reason, unresolved, evidence);
      && OneStep(account, s, t) && |t.rows| == |s.rows|
      && (!evidence || unresolved ==> t == s)
      && (forall i :: 0 <= i < |s.rows| ==> IsActive(t.rows[i].state) == IsActive(s.rows[i].state))
  {
    RetireAdvances(s, account, generation, token, actor, reason, unresolved, evidence);
    var i := LocateExact(s.rows, generation, token);
    if i < |s.rows| && s.rows[i].state == Draining {
      AdvancedKeepsInv(account, s, i, Retired, RetireAction, actor, reason);
    }
    StandingStill(account, s);
  }

  lemma RetireAdvances(s: Ledger, account: int, generation: int, token: int, actor: string, reason: string,
                       unresolved: bool, evidence: bool)
    ensures var t := Retire(s, account, generation, token, actor, reason, unresolved, evidence).0;
      var i := LocateExact(s.rows, generation, token);
      || t == s
      || (&& i < |s.rows| && s.rows[i].state == Draining && evidence && !unresolved
          && t == Advanced(s, i, Retired, RetireAction, actor, reason))
  {
  }

  lemma MarkDrainingStep(s: Ledger, account: int, locked: Generation, actor: string, reason: string)
    requires Inv(account, s)
    ensures var (t, r) := MarkDraining(s, locked, actor, reason);
      && OneStep(account, s, t)
      && (r.Done? ==> NoneActive(t.rows) && !NoneActive(s.rows) && r.row.accountId == account)
      && (!r.Done? ==> t == s)
  {
    var i := Locate(s.rows, (r: Generation) =>
      r.generation == locked.generation && r.fencingToken == locked.fencingToken && r.state == Quiescing);
    if i < |s.rows| {
      AdvancedKeepsInv(account, s, i, Draining, MarkDrainingAction, actor, reason);
    }
  }

  lemma InsertCurrentStep(s: Ledger, draining: Generation, account: int, name: string, generation: int, token: int,
                          actor: string, reason: string)
    requires Inv(account, s) && NoneActive(s.rows)
    ensures var (t, r) := InsertCurrent(s, draining, account, name, generation, token, actor, reason);
      OneStep(account, s, t) && (!r.Done? ==> t == s)
  {
    var (t, r) := InsertCurrent(s, draining, account, name, generation, token, actor, reason);
    if r.Done? {
      MaximaOfNumbered(account, s.rows);
      AppendedKeepsInv(account, s, r.row, InsertCurrentAction, actor, reason);
    }
  }

  /** On a well-numbered ledger a stamp finds its own row or nothing. */
  lemma FenceMeansRow(account: int, s: Ledger, generation: int, token: int)
    requires WellNumbered(account, s.rows)
    ensures AcceptsFence(s, generation, token) <==>
      1 <= generation <= |s.rows| && token == generation && s.rows[generation - 1].state != Retired
  {
  }

  /** Refused after being accepted means retired, and nothing moves out of that state. */
  lemma RefusedStaysRefused(account: int, s: Ledger, t: Ledger, u: Ledger, generation: int, token: int)
    requires WellNumbered(account, s.rows) && WellNumbered(account, t.rows) && WellNumbered(account, u.rows)
    requires Evolves(s, t) && Evolves(t, u)
    requires AcceptsFence(s, generation, token) && !AcceptsFence(t, generation, token)
    ensures !AcceptsFence(u, generation, token)
  {
    FenceMeansRow(account, s, generation, token);
    FenceMeansRow(account, t, generation, token);
    FenceMeansRow(account, u, generation, token);
  }
}
