/** Every run of one digest scheduler: the steps between which the process may stop, what
    each step does to the stored executions, and what all runs keep. */
module DigestRuns {
  import opened Wrappers
  import opened DigestExecutions
  import opened DigestTables
  import opened DigestLog
  import DigestMessages

  /** Where the scheduler is. Stopping returns it to Idle and loses everything but the
      stored executions. */
  datatype Place =
    | Idle
    | Due(window: Window)
    | Closed(window: Window)
    | Drafted(window: Window, listed: set<Window>)
    | Delivering(window: Window)
    | Answered(window: Window, found: set<string>, search: Search)
    | Claiming(window: Window, claim: Claim, attempt: nat)

  datatype World = World(table: Table, clock: int, place: Place, log: seq<Event>)

  /** `found` and `outcome` are whatever the chat answers, `now` whatever the clock reads. */
  datatype Action =
    | Wake(now: int)
    | Expire
    | Look
    | Ensure(messages: seq<Message>)
    | Ask(now: int, found: set<string>)
    | Reconcile(now: int)
    | ClaimNext(now: int)
    | Finish(outcome: Delivery, now: int)
    | Stop

  // ----------------------------------------------------------------- steps

  function AskedAt(a: Action, w: World): int {
    if a.Wake? || a.Ask? || a.Reconcile? || a.ClaimNext? || a.Finish? then a.now else w.clock
  }

  ghost predicate Enabled(w: World, a: Action, delay: int) {
    && AskedAt(a, w) >= w.clock
    && match a
       case Wake(_) => w.place.Idle?
       case Expire => w.place.Due?
       case Look => w.place.Closed?
       case Ensure(messages) => w.place.Drafted? && Storable(messages)
       case Ask(now, _) =>
         w.place.Delivering? && w.place.window in w.table && OverdueHeaders(w.table[w.place.window], now, delay) != {}
       case Reconcile(_) => w.place.Answered? && w.place.window in w.table
       case ClaimNext(now) =>
         w.place.Delivering? && w.place.window in w.table && OverdueHeaders(w.table[w.place.window], now, delay) == {}
       case Finish(_, _) => w.place.Claiming? && w.place.window in w.table
       case Stop => true
  }

  /** The events of a reconciliation: one for each part it takes out of flight. */
  function ReconcileEvents(e: Execution, found: set<string>, search: Search, n: nat): seq<Event>
    requires n <= |e.parts|
  {
    if n == 0 then []
    else
      var p := e.parts[n - 1];
      ReconcileEvents(e, found, search, n - 1)
      + if e.state != Pending || !InFlight(p) then []
        else if p.header in found then [Arrived(e.window, n - 1)]
        else [NotFound(e.window, n - 1, search)]
  }

  function ClaimEvents(e: Execution, now: int): seq<Event> {
    if NextClaim(e, now).Taken? then
      var i := NextClaim(e, now).claim.index;
      [Attempted(e.window, i, e.parts[i].attempts + 1, now)]
    else []
  }

  /** The events of a finish whose claim came from attempt number `attempt` of its part. */
  function FinishEvents(e: Execution, c: Claim, attempt: nat, outcome: Delivery): seq<Event> {
    if !StillOpen(e, c) then []
    else match outcome
      case Accepted => [Arrived(e.window, c.index)]
      case Rejected => [Refused(e.window, c.index, attempt)]
      case OutcomeUnknown => []
  }

  /** The row and the missed rows after a finish: nothing is written for a claim that is
      no longer open. */
  function FinishTable(t: Table, v: Window, c: Claim, outcome: Delivery, now: int): Table
    requires v in t
  {
    if StillOpen(t[v], c) then StoreRefreshed(t, AfterFinish(t[v], c, outcome, now)) else t
  }

  function ReconcileTable(t: Table, v: Window, found: set<string>, now: int): Table
    requires v in t
  {
    if t[v].state == Pending && exists i :: 0 <= i < |t[v].parts| && InFlight(t[v].parts[i]) then
      StoreRefreshed(t, AfterReconcile(t[v], found, now))
    else t
  }

  /** The state after a claim that is taken. */
  function ClaimTaken(w: World, v: Window, now: int): World
    requires v in w.table && NextClaim(w.table[v], now).Taken?
  {
    var e, c := w.table[v], NextClaim(w.table[v], now).claim;
    World(w.table[v := AfterClaim(e, now)], now, Claiming(v, c, e.parts[c.index].attempts + 1),
          w.log + ClaimEvents(e, now))
  }

  ghost function Step(w: World, a: Action, delay: int): World
    requires Enabled(w, a, delay)
  {
    match a
    case Wake(now) => w.(clock := now, place := Due(LatestCompleted(now)))
    case Expire => w.(table := ExpireAll(w.table, w.place.window.start), place := Closed(w.place.window))
    case Look =>
      var v := w.place.window;
      if v !in w.table then w.(place := Drafted(v, Unreported(w.table, v.start)))
      else if w.table[v].state == Pending then w.(place := Delivering(v))
      else w.(place := Idle)
    case Ensure(messages) =>
      var v := w.place.window;
      w.(table := Ensured(w.table, v, messages, w.place.listed), place := Delivering(v))
    case Ask(now, found) =>
      var v := w.place.window;
      w.(clock := now, place := Answered(v, found, SearchFor(w.table[v], now, delay)))
    case Reconcile(now) =>
      var v := w.place.window;
      var e := w.table[v];
      World(ReconcileTable(w.table, v, w.place.found, now), now, Delivering(v),
            w.log + ReconcileEvents(e, w.place.found, w.place.search, |e.parts|))
    case ClaimNext(now) =>
      var v := w.place.window;
      if NextClaim(w.table[v], now).Taken? then ClaimTaken(w, v, now) else w.(clock := now, place := Idle)
    case Finish(outcome, now) =>
      var v := w.place.window;
      var e := w.table[v];
      World(FinishTable(w.table, v, w.place.claim, outcome, now), now,
            if outcome == Accepted then Delivering(v) else Idle,
            w.log + FinishEvents(e, w.place.claim, w.place.attempt, outcome))
    case Stop => w.(place := Idle)
  }

  function Fresh(clock: int): World {
    World(map[], clock, Idle, [])
  }

  ghost predicate LegalRun(w: World, run: seq<Action>, delay: int)
    decreases |run|
  {
    run == [] || (Enabled(w, run[0], delay) && LegalRun(Step(w, run[0], delay), run[1..], delay))
  }

  ghost function RunFrom(w: World, run: seq<Action>, delay: int): World
    requires LegalRun(w, run, delay)
    decreases |run|
  {
    if run == [] then w else RunFrom(Step(w, run[0], delay), run[1..], delay)
  }

  lemma {:induction false} RunSnoc(w: World, run: seq<Action>, a: Action, delay: int)
    requires LegalRun(w, run, delay) && Enabled(RunFrom(w, run, delay), a, delay)
    ensures LegalRun(w, run + [a], delay)
    ensures RunFrom(w, run + [a], delay) == Step(RunFrom(w, run, delay), a, delay)
    decreases |run|
  {
    if run == [] {
      assert run + [a] == [a] && [a][1..] == [];
      assert LegalRun(Step(w, a, delay), [], delay);
    } else {
      RunSnoc(Step(w, run[0], delay), run[1..], a, delay);
      assert (run + [a])[1..] == run[1..] + [a];
    }
  }

  // ------------------------------------------------------------- invariant

  function PhaseOfPart(p: Part): Phase {
    if p.state == Confirmed then Done
    else if p.state == Waiting then Open
    else Flight(p.attempts, if p.lastAttemptAt.Some? then p.lastAttemptAt.value else 0)
  }

  /** The stored rows say what the history says. */
  ghost predicate LogMatches(w: World) {
    forall v, i: nat {:trigger PhaseOf(w.log, v, i)} ::
      PhaseOf(w.log, v, i) == if v in w.table && i < |w.table[v].parts| then PhaseOfPart(w.table[v].parts[i]) else Open
  }

  ghost predicate PlaceOk(w: World, delay: int) {
    match w.place
    case Idle => true
    case Due(v) => UpTo(w.table, v) && v.end <= w.clock
    case Closed(v) => UpTo(w.table, v) && v.end <= w.clock && OnlyOpen(w.table, v)
    case Drafted(v, listed) =>
      && UpTo(w.table, v) && v.end <= w.clock && OnlyOpen(w.table, v)
      && v !in w.table && listed == Unreported(w.table, v.start)
    case Delivering(v) => v in w.table && OnlyOpen(w.table, v)
    case Answered(v, found, search) =>
      && v in w.table && OnlyOpen(w.table, v) && OverdueHeaders(w.table[v], search.askedAt, delay) != {}
      && search == SearchFor(w.table[v], search.askedAt, delay)
    case Claiming(v, c, attempt) =>
      && v in w.table && OnlyOpen(w.table, v)
      && StillOpen(w.table[v], c) && w.table[v].parts[c.index].attempts == attempt
  }

  ghost predicate Inv(w: World, delay: int) {
    && TableOk(w.table)
    && (forall v :: v in w.table ==> v.end <= w.clock)
    && PlaceOk(w, delay)
    && IsLegal(w.log, delay)
    && LogMatches(w)
  }

  // ---------------------------------------------------------- preservation

  lemma WakeKeeps(w: World, a: Action, delay: int)
    requires Inv(w, delay) && Enabled(w, a, delay) && a.Wake?
    ensures Inv(Step(w, a, delay), delay)
  {
    LatestIsUnique(a.now, LatestCompleted(a.now));
    forall v | v in w.table
      ensures v == LatestCompleted(a.now) || v.end <= LatestCompleted(a.now).start
    {
      WindowsTile(v, LatestCompleted(a.now));
    }
  }

  lemma ExpireStepKeeps(w: World, a: Action, delay: int)
    requires Inv(w, delay) && Enabled(w, a, delay) && a.Expire?
    ensures Inv(Step(w, a, delay), delay)
  {
    ExpireKeeps(w.table, w.place.window);
  }

  lemma EnsureStepKeeps(w: World, a: Action, delay: int)
    requires Inv(w, delay) && Enabled(w, a, delay) && a.Ensure?
    ensures Inv(Step(w, a, delay), delay)
  {
    EnsureKeeps(w.table, w.place.window, a.messages);
    EnsureLog(w, w.place.window, a.messages, w.place.listed);
  }

  /** A new row's parts are as open as they were before it. */
  lemma EnsureLog(w: World, v: Window, messages: seq<Message>, listed: set<Window>)
    requires LogMatches(w) && v !in w.table
    ensures LogMatches(w.(table := Ensured(w.table, v, messages, listed)))
  {
  }

  /** A step that changes one part of one row and records it. */
  lemma OneEvent(w: World, table: Table, v: Window, i: nat, p: Part, event: Event, delay: int)
    requires LogMatches(w) && IsLegal(w.log, delay) && Legal(w.log, event, delay)
    requires v in w.table && i < |w.table[v].parts|
    requires table.Keys == w.table.Keys && table[v].parts == w.table[v].parts[i := p]
    requires forall u :: u in table && u != v ==> table[u].parts == w.table[u].parts
    requires event.window == v && event.index == i && NextPhase(event) == PhaseOfPart(p)
    ensures IsLegal(w.log + [event], delay)
    ensures LogMatches(World(table, w.clock, w.place, w.log + [event]))
  {
    LegalSnoc(w.log, event, delay);
    forall u, j: nat
      ensures PhaseOf(w.log + [event], u, j) ==
              if u in table && j < |table[u].parts| then PhaseOfPart(table[u].parts[j]) else Open
    {
      PhaseSnoc(w.log, event, u, j);
    }
  }

  lemma ClaimTable(t: Table, v: Window, now: int)
    requires TableOk(t) && v in t && OnlyOpen(t, v) && NextClaim(t[v], now).Taken?
    ensures var after := t[v := AfterClaim(t[v], now)];
      TableOk(after) && OnlyOpen(after, v) && StillOpen(after[v], NextClaim(t[v], now).claim)
  {
    var e' := AfterClaim(t[v], now);
    ClaimIsNext(t[v], now);
    ClaimKeepsValid(t[v], now);
    StoreKeeps(t, e');
    assert e'.parts[NextClaim(t[v], now).claim.index].state == Sending;
    assert StoreRefreshed(t, e') == t[v := e'];
  }

  lemma ClaimLog(w: World, v: Window, now: int, delay: int)
    requires RowsOk(w.table) && LogMatches(w) && IsLegal(w.log, delay) && v in w.table
    requires NextClaim(w.table[v], now).Taken?
    ensures var log := w.log + ClaimEvents(w.table[v], now);
      IsLegal(log, delay) && LogMatches(w.(table := w.table[v := AfterClaim(w.table[v], now)], log := log))
  {
    var e := w.table[v];
    var c := NextClaim(e, now).claim;
    ClaimIsNext(e, now);
    forall j | 0 <= j < c.index
      ensures PhaseOf(w.log, v, j) == Done
    {
      assert e.parts[j].state == Confirmed;
    }
    assert PhaseOf(w.log, v, c.index) == Open;
    OneEvent(w, w.table[v := AfterClaim(e, now)], v, c.index, ClaimedPart(e.parts[c.index], now),
             ClaimEvents(e, now)[0], delay);
  }

  lemma ClaimTakenKeeps(w: World, v: Window, now: int, delay: int)
    requires Inv(w, delay) && v in w.table && OnlyOpen(w.table, v) && now >= w.clock
    requires NextClaim(w.table[v], now).Taken?
    ensures Inv(ClaimTaken(w, v, now), delay)
  {
    ClaimTable(w.table, v, now);
    ClaimLog(w, v, now, delay);
  }

  lemma ClaimStepKeeps(w: World, a: Action, delay: int)
    requires Inv(w, delay) && Enabled(w, a, delay) && a.ClaimNext?
    ensures Inv(Step(w, a, delay), delay)
  {
    if NextClaim(w.table[w.place.window], a.now).Taken? {
      ClaimTakenKeeps(w, w.place.window, a.now, delay);
    }
  }

  lemma SilentChange(w: World, table: Table, v: Window, i: nat, p: Part)
    requires LogMatches(w) && v in w.table && i < |w.table[v].parts|
    requires table.Keys == w.table.Keys && table[v].parts == w.table[v].parts[i := p]
    requires forall u :: u in table && u != v ==> table[u].parts == w.table[u].parts
    requires PhaseOfPart(p) == PhaseOfPart(w.table[v].parts[i])
    ensures LogMatches(World(table, w.clock, w.place, w.log))
  {
  }

  lemma FinishTableKeeps(t: Table, v: Window, c: Claim, outcome: Delivery, now: int)
    requires TableOk(t) && v in t && OnlyOpen(t, v) && StillOpen(t[v], c)
    ensures var after := FinishTable(t, v, c, outcome, now);
      TableOk(after) && OnlyOpen(after, v) && Touched(t, AfterFinish(t[v], c, outcome, now), after)
  {
    FinishKeepsValid(t[v], c, outcome, now);
    StoreKeeps(t, AfterFinish(t[v], c, outcome, now));
  }

  lemma FinishLog(w: World, after: Table, v: Window, c: Claim, attempt: nat, outcome: Delivery, now: int,
                  delay: int)
    requires RowsOk(w.table) && LogMatches(w) && IsLegal(w.log, delay) && v in w.table && StillOpen(w.table[v], c)
    requires w.table[v].parts[c.index].attempts == attempt
    requires Touched(w.table, AfterFinish(w.table[v], c, outcome, now), after)
    ensures var log := w.log + FinishEvents(w.table[v], c, attempt, outcome);
      IsLegal(log, delay) && LogMatches(w.(table := after, log := log))
  {
    var p := FinishedPart(w.table[v].parts[c.index], outcome, now);
    assert PhaseOf(w.log, v, c.index) == PhaseOfPart(w.table[v].parts[c.index]);
    match outcome
    case Accepted => OneEvent(w, after, v, c.index, p, Arrived(v, c.index), delay);
    case Rejected => OneEvent(w, after, v, c.index, p, Refused(v, c.index, attempt), delay);
    case OutcomeUnknown =>
      SilentChange(w, after, v, c.index, p);
      assert w.log + [] == w.log;
  }

  lemma FinishStepKeeps(w: World, a: Action, delay: int)
    requires Inv(w, delay) && Enabled(w, a, delay) && a.Finish?
    ensures Inv(Step(w, a, delay), delay)
  {
    var v, c := w.place.window, w.place.claim;
    FinishTableKeeps(w.table, v, c, a.outcome, a.now);
    FinishLog(w, FinishTable(w.table, v, c, a.outcome, a.now), v, c, w.place.attempt, a.outcome, a.now, delay);
  }

  lemma {:induction false} OneReconcileEvent(e: Execution, found: set<string>, search: Search, i: nat, n: nat)
    requires Valid(e) && e.state == Pending && i < |e.parts| && InFlight(e.parts[i]) && n <= |e.parts|
    ensures ReconcileEvents(e, found, search, n) ==
            if n <= i then []
            else if e.parts[i].header in found then [Arrived(e.window, i)]
            else [NotFound(e.window, i, search)]
    decreases n
  {
    if n > 0 {
      OneReconcileEvent(e, found, search, i, n - 1);
      OneInFlight(e, search.askedAt, 0, i);
    }
  }

  lemma ReconcileTableKeeps(t: Table, v: Window, found: set<string>, now: int, i: nat)
    requires TableOk(t) && v in t && OnlyOpen(t, v) && t[v].state == Pending
    requires i < |t[v].parts| && InFlight(t[v].parts[i])
    ensures var after := ReconcileTable(t, v, found, now);
      && TableOk(after) && OnlyOpen(after, v) && Touched(t, AfterReconcile(t[v], found, now), after)
      && after[v].parts == t[v].parts[i := ReconciledPart(t[v].parts[i], found, now)]
  {
    ReconcileKeepsValid(t[v], found, now);
    ReconcileReplacesOne(t[v].parts, i, found, now);
    StoreKeeps(t, AfterReconcile(t[v], found, now));
  }

  lemma ReconcileLog(w: World, after: Table, v: Window, found: set<string>, search: Search, now: int, i: nat,
                     delay: int)
    requires RowsOk(w.table) && LogMatches(w) && IsLegal(w.log, delay) && v in w.table
    requires w.table[v].state == Pending && i < |w.table[v].parts| && WasSearched(w.table[v].parts[i], i, search, delay)
    requires Touched(w.table, AfterReconcile(w.table[v], found, now), after)
    requires after[v].parts == w.table[v].parts[i := ReconciledPart(w.table[v].parts[i], found, now)]
    ensures var log := w.log + ReconcileEvents(w.table[v], found, search, |w.table[v].parts|);
      IsLegal(log, delay) && LogMatches(w.(table := after, log := log))
  {
    var e := w.table[v];
    var event := if e.parts[i].header in found then Arrived(v, i) else NotFound(v, i, search);
    OneReconcileEvent(e, found, search, i, |e.parts|);
    SearchedIsInFlight(w, v, i, search, delay);
    OneEvent(w, after, v, i, ReconciledPart(e.parts[i], found, now), event, delay);
  }

  lemma SearchedIsInFlight(w: World, v: Window, i: nat, search: Search, delay: int)
    requires LogMatches(w) && v in w.table && i < |w.table[v].parts|
    requires WasSearched(w.table[v].parts[i], i, search, delay)
    ensures Legal(w.log, Arrived(v, i), delay) && Legal(w.log, NotFound(v, i, search), delay)
  {
    assert PhaseOf(w.log, v, i) == PhaseOfPart(w.table[v].parts[i]);
  }

  lemma ReconcileStepKeeps(w: World, a: Action, delay: int)
    requires Inv(w, delay) && Enabled(w, a, delay) && a.Reconcile?
    ensures Inv(Step(w, a, delay), delay)
  {
    var v, found, search := w.place.window, w.place.found, w.place.search;
    var i := AnOverduePart(w.table[v], search.askedAt, delay);
    ReconcileTableKeeps(w.table, v, found, a.now, i);
    ReconcileLog(w, ReconcileTable(w.table, v, found, a.now), v, found, search, a.now, i, delay);
  }

  lemma AnOverduePart(e: Execution, now: int, delay: int) returns (i: nat)
    requires OverdueHeaders(e, now, delay) != {}
    ensures e.state == Pending && i < |e.parts| && IsOverdue(e.parts[i], now, delay)
  {
    i :| 0 <= i < |e.parts| && IsOverdue(e.parts[i], now, delay);
  }

  lemma StepKeeps(w: World, a: Action, delay: int)
    requires Inv(w, delay) && Enabled(w, a, delay)
    ensures Inv(Step(w, a, delay), delay)
  {
    match a
    case Wake(_) => WakeKeeps(w, a, delay);
    case Expire => ExpireStepKeeps(w, a, delay);
    case Look =>
    case Ensure(_) => EnsureStepKeeps(w, a, delay);
    case Ask(_, _) =>
    case Reconcile(_) => ReconcileStepKeeps(w, a, delay);
    case ClaimNext(_) => ClaimStepKeeps(w, a, delay);
    case Finish(_, _) => FinishStepKeeps(w, a, delay);
    case Stop =>
  }

  lemma {:induction false} RunKeeps(w: World, run: seq<Action>, delay: int)
    requires Inv(w, delay) && LegalRun(w, run, delay)
    ensures Inv(RunFrom(w, run, delay), delay)
    decreases |run|
  {
    if run != [] {
      StepKeeps(w, run[0], delay);
      RunKeeps(Step(w, run[0], delay), run[1..], delay);
    }
  }

  lemma Reachable(clock: int, run: seq<Action>, delay: int)
    requires LegalRun(Fresh(clock), run, delay)
    ensures Inv(RunFrom(Fresh(clock), run, delay), delay)
  {
    RunKeeps(Fresh(clock), run, delay);
  }

  /** A claim that the chat accepts leaves one unconfirmed part fewer. */
  lemma AttemptProgress(t: Table, v: Window, now: int)
    requires RowsOk(t) && v in t && NextClaim(t[v], now).Taken?
    ensures var c, claimed := NextClaim(t[v], now).claim, t[v := AfterClaim(t[v], now)];
      forall later ::
        && v in FinishTable(claimed, v, c, Accepted, later)
        && Unconfirmed(FinishTable(claimed, v, c, Accepted, later)[v].parts) < Unconfirmed(t[v].parts)
  {
    ClaimIsNext(t[v], now);
    var c, claimed := NextClaim(t[v], now).claim, t[v := AfterClaim(t[v], now)];
    forall later
      ensures v in FinishTable(claimed, v, c, Accepted, later)
      ensures Unconfirmed(FinishTable(claimed, v, c, Accepted, later)[v].parts) < Unconfirmed(t[v].parts)
    {
      AcceptedMakesProgress(t[v], now, later);
      var e := AfterFinish(claimed[v], c, Accepted, later);
      assert e.state != Missed && FinishTable(claimed, v, c, Accepted, later)[v] == e;
    }
  }

  /** A reconciliation confirms a part or takes one out of flight. */
  lemma ReconcileProgress(t: Table, v: Window, askedAt: int, found: set<string>, now: int, delay: int)
    requires TableOk(t) && v in t && OnlyOpen(t, v) && OverdueHeaders(t[v], askedAt, delay) != {}
    ensures var after := ReconcileTable(t, v, found, now);
      && v in after
      && (|| Unconfirmed(after[v].parts) < Unconfirmed(t[v].parts)
          || (Unconfirmed(after[v].parts) == Unconfirmed(t[v].parts) && Flying(after[v].parts) < Flying(t[v].parts)))
  {
    var i := AnOverduePart(t[v], askedAt, delay);
    ReconcileTableKeeps(t, v, found, now, i);
    ReconcileReplacesOne(t[v].parts, i, found, now);
    ReconcileMakesProgress(t[v], found, now, i);
  }

  // ------------------------------------------------- what holds of every run

  /** In every run, wherever it was stopped: a part is claimed only when all parts before
      it are confirmed, never after it was confirmed itself, and a second time only after
      a known rejection of the first attempt, or a search for that attempt, begun at least
      the delay after it, that did not find its header. */
  lemma DeliveryHistory(clock: int, run: seq<Action>, delay: int)
    requires LegalRun(Fresh(clock), run, delay)
    ensures var log := RunFrom(Fresh(clock), run, delay).log;
      IsOrdered(log) && IsSpaced(log, delay)
  {
    Reachable(clock, run, delay);
    LegalHistory(RunFrom(Fresh(clock), run, delay).log, delay);
  }

  /** In every reachable state every stored list is confirmed parts, then at most one in
      flight, then waiting ones; an execution is delivered exactly when all its parts are
      confirmed; and its attempt count is the sum of its parts' attempts. */
  lemma StoredRows(clock: int, run: seq<Action>, delay: int, v: Window)
    requires LegalRun(Fresh(clock), run, delay) && v in RunFrom(Fresh(clock), run, delay).table
    ensures var e := RunFrom(Fresh(clock), run, delay).table[v];
      && Shape(e.parts)
      && (e.state == Delivered <==> AllConfirmed(e.parts))
      && e.attemptCount == Attempts(e.parts)
  {
    Reachable(clock, run, delay);
  }

  /** A delivered or missed row only ever gains the reported mark. */
  predicate Frozen(e: Execution, later: Execution) {
    e.state != Pending ==>
      later == e || (e.state == Missed && later == e.(reported := true))
  }

  lemma StepFreezes(w: World, a: Action, delay: int, v: Window)
    requires Inv(w, delay) && Enabled(w, a, delay) && v in w.table
    ensures v in Step(w, a, delay).table && Frozen(w.table[v], Step(w, a, delay).table[v])
  {
    if a.Finish? {
      FinishTableKeeps(w.table, w.place.window, w.place.claim, a.outcome, a.now);
    } else if a.Reconcile? {
      var i := AnOverduePart(w.table[w.place.window], w.place.search.askedAt, delay);
      ReconcileTableKeeps(w.table, w.place.window, w.place.found, a.now, i);
    }
  }

  lemma {:induction false} ClosedRowsNeverChange(w: World, run: seq<Action>, delay: int, v: Window)
    requires Inv(w, delay) && LegalRun(w, run, delay) && v in w.table
    ensures v in RunFrom(w, run, delay).table && Frozen(w.table[v], RunFrom(w, run, delay).table[v])
    decreases |run|
  {
    if run != [] {
      StepKeeps(w, run[0], delay);
      StepFreezes(w, run[0], delay, v);
      ClosedRowsNeverChange(Step(w, run[0], delay), run[1..], delay, v);
    }
  }

  /** Between `w` and `next` the digest for `u`, whose stored text lists `v`, gets its
      last part confirmed. */
  ghost predicate FullyConfirms(w: World, next: World, u: Window, v: Window) {
    && u in w.table && u in next.table && v.end <= u.start && v in w.table[u].listed
    && w.table[u].state == Pending && next.table[u].state == Delivered && AllConfirmed(next.table[u].parts)
  }

  /** Storing a refreshed row marks only windows that the row's text lists. */
  lemma StoreReports(t: Table, e: Execution, v: Window)
    requires TableOk(t) && e.window in t && t[e.window].state == Pending && Valid(e)
    requires e.listed == t[e.window].listed && !e.reported && e.state != Missed
    requires v in StoreRefreshed(t, e) && StoreRefreshed(t, e)[v].reported
    ensures v in t
    ensures t[v].reported ||
      (&& v.end <= e.window.start && v in t[e.window].listed
       && StoreRefreshed(t, e)[e.window] == e && e.state == Delivered && AllConfirmed(e.parts))
  {
    StoreTouches(t, e);
    if !t[v].reported {
      MarkedOnlyIfListed(t, e, v);
    }
  }

  lemma ReconcileStoreReports(t: Table, u: Window, found: set<string>, now: int, i: nat, v: Window)
    requires TableOk(t) && u in t && t[u].state == Pending && i < |t[u].parts| && InFlight(t[u].parts[i])
    requires v in ReconcileTable(t, u, found, now) && ReconcileTable(t, u, found, now)[v].reported
    ensures v in t
    ensures t[v].reported ||
      var after := ReconcileTable(t, u, found, now);
      && u in after && v.end <= u.start && v in t[u].listed
      && after[u].state == Delivered && AllConfirmed(after[u].parts)
  {
    ReconcileKeepsValid(t[u], found, now);
    StoreReports(t, AfterReconcile(t[u], found, now), v);
  }

  lemma FinishReports(w: World, a: Action, delay: int, v: Window)
    requires Inv(w, delay) && Enabled(w, a, delay) && a.Finish?
    requires v in Step(w, a, delay).table && Step(w, a, delay).table[v].reported
    ensures (v in w.table && w.table[v].reported) || FullyConfirms(w, Step(w, a, delay), w.place.window, v)
  {
    var e, c := w.table[w.place.window], w.place.claim;
    FinishKeepsValid(e, c, a.outcome, a.now);
    StoreReports(w.table, AfterFinish(e, c, a.outcome, a.now), v);
  }

  lemma ReconcileReports(w: World, a: Action, delay: int, v: Window)
    requires Inv(w, delay) && Enabled(w, a, delay) && a.Reconcile?
    requires v in Step(w, a, delay).table && Step(w, a, delay).table[v].reported
    ensures (v in w.table && w.table[v].reported) || FullyConfirms(w, Step(w, a, delay), w.place.window, v)
  {
    var i := AnOverduePart(w.table[w.place.window], w.place.search.askedAt, delay);
    ReconcileStoreReports(w.table, w.place.window, w.place.found, a.now, i, v);
  }

  lemma StepReports(w: World, a: Action, delay: int, v: Window)
    requires Inv(w, delay) && Enabled(w, a, delay)
    requires v in Step(w, a, delay).table && Step(w, a, delay).table[v].reported
    ensures (v in w.table && w.table[v].reported) || a.Finish? || a.Reconcile?
    ensures (v in w.table && w.table[v].reported) || FullyConfirms(w, Step(w, a, delay), w.place.window, v)
  {
    if a.Finish? {
      FinishReports(w, a, delay, v);
    } else if a.Reconcile? {
      ReconcileReports(w, a, delay, v);
    }
  }

  /** The state after the first `k` steps. */
  ghost function After(w: World, run: seq<Action>, delay: int, k: nat): World
    requires LegalRun(w, run, delay) && k <= |run|
    decreases k
  {
    if k == 0 then w else After(Step(w, run[0], delay), run[1..], delay, k - 1)
  }

  ghost predicate ConfirmsAt(w: World, run: seq<Action>, delay: int, k: nat, u: Window, v: Window)
    requires LegalRun(w, run, delay) && k < |run|
  {
    FullyConfirms(After(w, run, delay, k), After(w, run, delay, k + 1), u, v)
  }

  /** A missed window that a run marked reported was marked by the full confirmation of a
      later digest whose stored text lists it. */
  lemma {:induction false} ReportedByListing(w: World, run: seq<Action>, delay: int, v: Window)
    requires Inv(w, delay) && LegalRun(w, run, delay)
    requires v in RunFrom(w, run, delay).table && RunFrom(w, run, delay).table[v].reported
    ensures (v in w.table && w.table[v].reported) ||
            exists k: nat, u :: k < |run| && ConfirmsAt(w, run, delay, k, u, v)
    decreases |run|
  {
    if run != [] {
      var next := Step(w, run[0], delay);
      StepKeeps(w, run[0], delay);
      ReportedByListing(next, run[1..], delay, v);
      if v in next.table && next.table[v].reported {
        StepReports(w, run[0], delay, v);
        assert After(w, run, delay, 0) == w;
        assert After(w, run, delay, 1) == next;
        assert (v in w.table && w.table[v].reported) || ConfirmsAt(w, run, delay, 0, w.place.window, v);
      } else {
        var k: nat, u :| k < |run[1..]| && ConfirmsAt(next, run[1..], delay, k, u, v);
        assert After(w, run, delay, k + 1) == After(next, run[1..], delay, k);
        assert After(w, run, delay, k + 2) == After(next, run[1..], delay, k + 1);
        assert ConfirmsAt(w, run, delay, k + 1, u, v);
      }
    }
  }

  /** Until it is reported, every digest stored after a window was missed lists it. */
  lemma LaterDigestsList(w: World, a: Action, delay: int, u: Window, v: Window)
    requires Inv(w, delay) && Enabled(w, a, delay)
    requires u !in w.table && u in Step(w, a, delay).table
    requires v in w.table && w.table[v].state == Missed && !w.table[v].reported
    ensures v.end <= u.start && v in Step(w, a, delay).table[u].listed
  {
    if a.Ensure? {
      NewDigestListsAll(w.table, u, a.messages, v);
    }
  }

  // --------------------------------------------------------- two schedulers

  const SECOND := 1_000_000

  function TwoParts(): Execution {
    var w := LatestCompleted(0);
    NewExecution(w, [DigestMessages.Message("first", "first\n."), DigestMessages.Message("second", "second\n.")], {})
  }

  /** Two schedulers on one execution can break the history: one asks for the first part,
      the other reconciles it and claims the second, and the first then applies its own
      answer. The second part is claimed again after two seconds, with no rejection and
      without anyone having looked for it. */
  lemma TwoSchedulersResendEarly(delay: int)
    requires delay == 900 * SECOND
    ensures var claimed := AfterClaim(TwoParts(), 0);
      var late := 901 * SECOND;
      var other := AfterReconcile(claimed, {"first"}, late);
      var again := AfterClaim(other, late);
      var stale := AfterReconcile(again, {"first"}, late + SECOND);
      && Valid(TwoParts())
      && NextClaim(TwoParts(), 0).Taken?
      && OverdueHeaders(claimed, late, delay) == {"first"}
      && NextClaim(other, late).Taken? && NextClaim(other, late).claim.index == 1
      && NextClaim(stale, late + 2 * SECOND).Taken? && NextClaim(stale, late + 2 * SECOND).claim.index == 1
  {
    var first, second := DigestMessages.Message("first", "first\n."), DigestMessages.Message("second", "second\n.");
    var w := LatestCompleted(0);
    assert "first"[0] != "second"[0];
    NewIsValid(w, [first, second], {});
    var e := TwoParts();
    assert e.parts == [NewPart(w, first, 0), NewPart(w, second, 1)];
    assert ConfirmedPrefix(e.parts) == 0;
    var claimed := AfterClaim(e, 0);
    var late := 901 * SECOND;
    assert claimed.parts[0].state == Sending;
    assert OverdueHeaders(claimed, late, delay) == {"first"} by {
      assert IsOverdue(claimed.parts[0], late, delay);
    }
    var other := AfterReconcile(claimed, {"first"}, late);
    assert other.parts[0].state == Confirmed && other.parts[1] == e.parts[1];
    assert ConfirmedPrefix(other.parts) == 1 + ConfirmedPrefix(other.parts[1..]) == 1;
    var again := AfterClaim(other, late);
    assert again.parts[1].state == Sending;
    var stale := AfterReconcile(again, {"first"}, late + SECOND);
    assert stale.parts[0].state == Confirmed && stale.parts[1].state == Waiting;
    assert ConfirmedPrefix(stale.parts) == 1 + ConfirmedPrefix(stale.parts[1..]) == 1;
  }
}
