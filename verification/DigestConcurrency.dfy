/** One stored digest execution under any number of schedulers: each repository call takes
    the row lock, so what they do together is some interleaving of single calls, with stale
    claims and stale answers among them. */
module DigestConcurrency {
  import opened Wrappers

  import opened DigestExecutions
  import opened DigestLog
  import opened DigestTables
  import opened DigestRuns

  /** A repository call on the row, by any scheduler. A finish names any claim, open or not,
      made for any attempt of its part; a reconciliation applies any answer to any search. */
  datatype Call =
    | ClaimCall(now: int)
    | FinishCall(claim: Claim, attempt: nat, outcome: Delivery, now: int)
    | ReconcileCall(search: Search, found: set<string>, now: int)
    | ExpireCall(cutoff: int)

  /** The row and what has been recorded about its parts. */
  datatype Shared = Shared(row: Execution, log: seq<Event>)

  function RowAfter(e: Execution, call: Call): Execution {
    match call
    case ClaimCall(now) => AfterClaim(e, now)
    case FinishCall(claim, _, outcome, now) => AfterFinish(e, claim, outcome, now)
    case ReconcileCall(_, found, now) => AfterReconcile(e, found, now)
    case ExpireCall(cutoff) => Expired(e, cutoff)
  }

  function EventsOf(e: Execution, call: Call): seq<Event> {
    match call
    case ClaimCall(now) => ClaimEvents(e, now)
    case FinishCall(claim, attempt, outcome, _) => FinishEvents(e, claim, attempt, outcome)
    case ReconcileCall(search, found, _) => ReconcileEvents(e, found, search, |e.parts|)
    case ExpireCall(_) => []
  }

  function Made(s: Shared, call: Call): Shared {
    Shared(RowAfter(s.row, call), s.log + EventsOf(s.row, call))
  }

  function MadeAll(s: Shared, calls: seq<Call>): Shared {
    if calls == [] then s else Made(MadeAll(s, calls[..|calls| - 1]), calls[|calls| - 1])
  }

  /** The guard that the row lock would let the two reopening calls test, if claims and
      searches carried the attempt's number: a rejection is of the attempt in flight, and a
      search that found nothing asked about the attempt in flight, overdue when it began. */
  predicate IsJustified(e: Execution, call: Call, delay: int) {
    match call
    case FinishCall(claim, attempt, outcome, _) =>
      StillOpen(e, claim) && outcome == Rejected ==> e.parts[claim.index].attempts == attempt
    case ReconcileCall(search, found, _) =>
      e.state == Pending ==>
        forall i :: 0 <= i < |e.parts| && InFlight(e.parts[i]) && e.parts[i].header !in found ==>
          WasSearched(e.parts[i], i, search, delay)
    case _ => true
  }

  /** Every call of the interleaving was justified when it was made. */
  predicate AllJustified(s: Shared, calls: seq<Call>, delay: int) {
    calls == []
    || (var n := |calls| - 1;
        AllJustified(s, calls[..n], delay) && IsJustified(MadeAll(s, calls[..n]).row, calls[n], delay))
  }

  // --------------------------------------------------------------- invariant

  ghost predicate Agrees(s: Shared) {
    && Valid(s.row)
    && (forall i: nat {:trigger PhaseOf(s.log, s.row.window, i)} ::
          PhaseOf(s.log, s.row.window, i) ==
          if i < |s.row.parts| then PhaseOfPart(s.row.parts[i]) else Open)
  }

  /** A digest just stored, with nothing recorded. */
  lemma StoredAgrees(w: Window, messages: seq<Message>, listed: set<Window>)
    requires Storable(messages)
    ensures Agrees(Shared(NewExecution(w, messages, listed), []))
  {
    NewIsValid(w, messages, listed);
  }

  /** A call that puts part `i` into the phase its event leaves, and records that event. */
  lemma OneEventAgrees(s: Shared, row: Execution, i: nat, p: Part, event: Event)
    requires Agrees(s) && Valid(row) && row.window == s.row.window
    requires i < |s.row.parts| && row.parts == s.row.parts[i := p]
    requires event.window == row.window && event.index == i && NextPhase(event) == PhaseOfPart(p)
    ensures Agrees(Shared(row, s.log + [event]))
  {
    forall j: nat
      ensures PhaseOf(s.log + [event], row.window, j) ==
              if j < |row.parts| then PhaseOfPart(row.parts[j]) else Open
    {
      PhaseSnoc(s.log, event, row.window, j);
    }
  }

  /** A call that records nothing leaves every part in its phase. */
  lemma SilentAgrees(s: Shared, row: Execution)
    requires Agrees(s) && Valid(row) && row.window == s.row.window && |row.parts| == |s.row.parts|
    requires forall i :: 0 <= i < |row.parts| ==> PhaseOfPart(row.parts[i]) == PhaseOfPart(s.row.parts[i])
    ensures Agrees(Shared(row, s.log + []))
  {
    assert s.log + [] == s.log;
  }

  /** A claim's event is legal whoever makes it. */
  lemma ClaimCallLegal(s: Shared, now: int, delay: int)
    requires Agrees(s) && NextClaim(s.row, now).Taken?
    ensures Agrees(Made(s, ClaimCall(now)))
    ensures Legal(s.log, EventsOf(s.row, ClaimCall(now))[0], delay)
  {
    var e, c := s.row, NextClaim(s.row, now).claim;
    ClaimIsNext(e, now);
    ClaimKeepsValid(e, now);
    OneEventAgrees(s, AfterClaim(e, now), c.index, ClaimedPart(e.parts[c.index], now), ClaimEvents(e, now)[0]);
    assert PhaseOf(s.log, e.window, c.index) == Open;
    forall j | 0 <= j < c.index
      ensures PhaseOf(s.log, e.window, j) == Done
    {
      assert e.parts[j].state == Confirmed;
    }
  }

  /** The event of a finish, if it records one, is orderly, and legal exactly when the call
      is justified. */
  lemma FinishCallLegal(s: Shared, call: Call, delay: int)
    requires Agrees(s) && call.FinishCall?
    ensures Agrees(Made(s, call)) && |EventsOf(s.row, call)| <= 1
    ensures forall k :: 0 <= k < |EventsOf(s.row, call)| ==> Orderly(s.log, EventsOf(s.row, call)[k])
    ensures (forall k :: 0 <= k < |EventsOf(s.row, call)| ==> Legal(s.log, EventsOf(s.row, call)[k], delay))
            <==> IsJustified(s.row, call, delay)
  {
    var e, c := s.row, call.claim;
    var after := AfterFinish(e, c, call.outcome, call.now);
    FinishKeepsValid(e, c, call.outcome, call.now);
    if StillOpen(e, c) {
      var p := FinishedPart(e.parts[c.index], call.outcome, call.now);
      assert PhaseOf(s.log, e.window, c.index) == PhaseOfPart(e.parts[c.index]);
      match call.outcome
      case Accepted => OneEventAgrees(s, after, c.index, p, Arrived(e.window, c.index));
      case Rejected =>
        OneEventAgrees(s, after, c.index, p, Refused(e.window, c.index, call.attempt));
        OneEventOf(s, call, Refused(e.window, c.index, call.attempt), delay);
      case OutcomeUnknown => SilentAgrees(s, after);
    } else {
      SilentAgrees(s, after);
    }
  }

  /** What is said of all events of a call that records one is said of that one. */
  lemma OneEventOf(s: Shared, call: Call, event: Event, delay: int)
    requires EventsOf(s.row, call) == [event]
    ensures (forall k :: 0 <= k < |EventsOf(s.row, call)| ==> Legal(s.log, EventsOf(s.row, call)[k], delay))
            <==> Legal(s.log, event, delay)
    ensures (forall k :: 0 <= k < |EventsOf(s.row, call)| ==> Orderly(s.log, EventsOf(s.row, call)[k]))
            <==> Orderly(s.log, event)
  {
    var events := EventsOf(s.row, call);
    assert events[0] == event;
  }

  lemma {:induction false} NoReconcileEvents(e: Execution, found: set<string>, search: Search, n: nat)
    requires n <= |e.parts|
    requires e.state != Pending || forall i :: 0 <= i < |e.parts| ==> !InFlight(e.parts[i])
    ensures ReconcileEvents(e, found, search, n) == []
  {
    if n > 0 {
      NoReconcileEvents(e, found, search, n - 1);
    }
  }

  /** The event of a reconciliation is orderly, and legal exactly when the call is justified. */
  lemma ReconcileCallLegal(s: Shared, call: Call, delay: int)
    requires Agrees(s) && call.ReconcileCall?
    ensures Agrees(Made(s, call)) && |EventsOf(s.row, call)| <= 1
    ensures forall k :: 0 <= k < |EventsOf(s.row, call)| ==> Orderly(s.log, EventsOf(s.row, call)[k])
    ensures (forall k :: 0 <= k < |EventsOf(s.row, call)| ==> Legal(s.log, EventsOf(s.row, call)[k], delay))
            <==> IsJustified(s.row, call, delay)
  {
    var e := s.row;
    if e.state == Pending && exists i :: 0 <= i < |e.parts| && InFlight(e.parts[i]) {
      var i :| 0 <= i < |e.parts| && InFlight(e.parts[i]);
      ReconcileInFlight(s, call, i, delay);
      OneEventOf(s, call, EventsOf(e, call)[0], delay);
    } else {
      NoReconcileEvents(e, call.found, call.search, |e.parts|);
      ReconcileKeepsValid(e, call.found, call.now);
      SilentAgrees(s, AfterReconcile(e, call.found, call.now));
    }
  }

  /** The one part in flight is confirmed or reopened, which is what the call records. */
  lemma ReconcileInFlight(s: Shared, call: Call, i: nat, delay: int)
    requires Agrees(s) && call.ReconcileCall? && s.row.state == Pending
    requires i < |s.row.parts| && InFlight(s.row.parts[i])
    ensures var p := s.row.parts[i];
      var event := if p.header in call.found then Arrived(s.row.window, i)
                   else NotFound(s.row.window, i, call.search);
      && EventsOf(s.row, call) == [event] && Orderly(s.log, event)
      && (Legal(s.log, event, delay) <==> p.header in call.found || WasSearched(p, i, call.search, delay))
      && (IsJustified(s.row, call, delay) <==> p.header in call.found || WasSearched(p, i, call.search, delay))
    ensures Agrees(Made(s, call))
  {
    var e := s.row;
    var after := AfterReconcile(e, call.found, call.now);
    ReconcileKeepsValid(e, call.found, call.now);
    OneReconcileEvent(e, call.found, call.search, i, |e.parts|);
    ReconcileReplacesOne(e.parts, i, call.found, call.now);
    OneEventAgrees(s, after, i, ReconciledPart(e.parts[i], call.found, call.now), EventsOf(e, call)[0]);
    OneInFlight(e, call.search.askedAt, delay, i);
    assert PhaseOf(s.log, e.window, i) == PhaseOfPart(e.parts[i]);
  }

  lemma ExpireCallLegal(s: Shared, call: Call)
    requires Agrees(s) && call.ExpireCall?
    ensures Agrees(Made(s, call)) && EventsOf(s.row, call) == []
  {
    ExpiredIsValid(s.row, call.cutoff);
    SilentAgrees(s, Expired(s.row, call.cutoff));
  }

  /** Every call, by whomever, keeps the row and the history in agreement; it records at
      most one event, orderly always and legal exactly when the call is justified. */
  lemma CallLegal(s: Shared, call: Call, delay: int)
    requires Agrees(s)
    ensures Agrees(Made(s, call)) && |EventsOf(s.row, call)| <= 1
    ensures forall k :: 0 <= k < |EventsOf(s.row, call)| ==> Orderly(s.log, EventsOf(s.row, call)[k])
    ensures (forall k :: 0 <= k < |EventsOf(s.row, call)| ==> Legal(s.log, EventsOf(s.row, call)[k], delay))
            <==> IsJustified(s.row, call, delay)
  {
    match call
    case ClaimCall(now) =>
      if NextClaim(s.row, now).Taken? {
        ClaimCallLegal(s, now, delay);
      } else {
        SilentAgrees(s, s.row);
      }
    case FinishCall(_, _, _, _) => FinishCallLegal(s, call, delay);
    case ReconcileCall(_, _, _) => ReconcileCallLegal(s, call, delay);
    case ExpireCall(_) => ExpireCallLegal(s, call);
  }

  // ---------------------------------------------------------- exact condition

  lemma LegalFront(log: seq<Event>, events: seq<Event>, delay: int)
    requires |events| <= 1
    ensures IsLegal(log + events, delay) <==>
            IsLegal(log, delay) && forall k :: 0 <= k < |events| ==> Legal(log, events[k], delay)
  {
    if events == [] {
      assert log + events == log;
    } else {
      var all := log + events;
      assert all == log + [events[0]];
      if IsLegal(all, delay) {
        forall k | 0 <= k < |log|
          ensures Legal(log[..k], log[k], delay)
        {
          assert all[..k] == log[..k];
          assert Legal(all[..k], all[k], delay);
        }
        assert all[..|log|] == log;
        assert Legal(all[..|log|], all[|log|], delay);
      } else if IsLegal(log, delay) && Legal(log, events[0], delay) {
        LegalSnoc(log, events[0], delay);
      }
    }
  }

  /** However many schedulers interleave their calls: the history is legal exactly when every
      rejection that reopens a part is of the attempt in flight, and every search that
      reopens one asked about the attempt in flight, at least the delay after it. */
  lemma {:induction false} LegalIffJustified(s: Shared, calls: seq<Call>, delay: int)
    requires Agrees(s) && IsLegal(s.log, delay)
    ensures Agrees(MadeAll(s, calls))
    ensures IsLegal(MadeAll(s, calls).log, delay) <==> AllJustified(s, calls, delay)
  {
    if calls != [] {
      var n := |calls| - 1;
      var before := MadeAll(s, calls[..n]);
      LegalIffJustified(s, calls[..n], delay);
      CallLegal(before, calls[n], delay);
      LegalFront(before.log, EventsOf(before.row, calls[n]), delay);
    }
  }

  // -------------------------------------------- what holds without the guard

  lemma {:induction false} InterleavingIsOrderly(s: Shared, calls: seq<Call>)
    requires Agrees(s) && IsOrderly(s.log)
    ensures Agrees(MadeAll(s, calls)) && IsOrderly(MadeAll(s, calls).log)
  {
    if calls != [] {
      var n := |calls| - 1;
      var before := MadeAll(s, calls[..n]);
      InterleavingIsOrderly(s, calls[..n]);
      CallLegal(before, calls[n], 0);
      var events := EventsOf(before.row, calls[n]);
      if events == [] {
        assert before.log + events == before.log;
      } else {
        assert events == [events[0]];
        OrderlySnoc(before.log, events[0]);
      }
    }
  }

  /** Whatever the interleaving and with no guard at all: parts are claimed in order, and a
      confirmed part is never claimed again. */
  lemma OrderNeedsNoGuard(s: Shared, calls: seq<Call>)
    requires Agrees(s) && s.log == []
    ensures IsOrdered(MadeAll(s, calls).log)
  {
    InterleavingIsOrderly(s, calls);
    OrderlyHistory(MadeAll(s, calls).log);
  }

  /** No claim's number is beyond the attempts of its part. */
  ghost predicate NumbersBounded(s: Shared) {
    forall k :: 0 <= k < |s.log| && s.log[k].Attempted? ==>
      && s.log[k].window == s.row.window && s.log[k].index < |s.row.parts|
      && s.log[k].attempt <= s.row.parts[s.log[k].index].attempts
  }

  /** Claims of one part carry increasing numbers. */
  ghost predicate NumbersIncrease(log: seq<Event>) {
    forall p, q :: 0 <= p < q < |log| && log[p].Attempted? && log[q].Attempted? && log[p].index == log[q].index ==>
      log[p].attempt < log[q].attempt
  }

  lemma NumbersStayBounded(s: Shared, call: Call)
    requires Agrees(s) && NumbersBounded(s)
    ensures NumbersBounded(Made(s, call))
  {
    var t := Made(s, call);
    KeepsAttempts(s.row, call);
    ClaimsAreNumbered(s.row, call);
    forall k | 0 <= k < |t.log| && t.log[k].Attempted?
      ensures t.log[k].window == t.row.window && t.log[k].index < |t.row.parts|
      ensures t.log[k].attempt <= t.row.parts[t.log[k].index].attempts
    {
      if k < |s.log| {
        assert t.log[k] == s.log[k];
      } else {
        assert t.log[k] in EventsOf(s.row, call);
      }
    }
  }

  lemma NumbersStillIncrease(s: Shared, call: Call)
    requires Agrees(s) && NumbersBounded(s) && NumbersIncrease(s.log)
    ensures NumbersIncrease(Made(s, call).log)
  {
    var log := Made(s, call).log;
    CallLegal(s, call, 0);
    ClaimsAreNumbered(s.row, call);
    forall p, q | 0 <= p < q < |log| && log[p].Attempted? && log[q].Attempted? && log[p].index == log[q].index
      ensures log[p].attempt < log[q].attempt
    {
      assert log[p] == s.log[p];
      if q < |s.log| {
        assert log[q] == s.log[q];
      } else {
        assert log[q] in EventsOf(s.row, call);
      }
    }
  }

  lemma KeepsAttempts(e: Execution, call: Call)
    requires Valid(e)
    ensures var after := RowAfter(e, call);
      && after.window == e.window && |after.parts| == |e.parts|
      && forall i :: 0 <= i < |e.parts| ==> e.parts[i].attempts <= after.parts[i].attempts
  {
  }

  /** A claim is numbered one beyond the attempts before it. */
  lemma ClaimsAreNumbered(e: Execution, call: Call)
    requires Valid(e)
    ensures forall event :: event in EventsOf(e, call) && event.Attempted? ==>
      && event.window == e.window && event.index < |e.parts| == |RowAfter(e, call).parts|
      && e.parts[event.index].attempts < event.attempt == RowAfter(e, call).parts[event.index].attempts
  {
    match call
    case ReconcileCall(search, found, _) => NoAttemptedEvents(e, found, search, |e.parts|);
    case ClaimCall(_) =>
    case FinishCall(_, _, _, _) =>
    case ExpireCall(_) =>
  }

  lemma {:induction false} NoAttemptedEvents(e: Execution, found: set<string>, search: Search, n: nat)
    requires n <= |e.parts|
    ensures forall k :: 0 <= k < |ReconcileEvents(e, found, search, n)| ==>
      !ReconcileEvents(e, found, search, n)[k].Attempted?
  {
    if n > 0 {
      NoAttemptedEvents(e, found, search, n - 1);
    }
  }

  /** So a number names one claim: whatever the interleaving, two claims of one part have
      different numbers. */
  lemma {:induction false} NumbersNameClaims(s: Shared, calls: seq<Call>)
    requires Agrees(s) && s.log == []
    ensures NumbersBounded(MadeAll(s, calls)) && NumbersIncrease(MadeAll(s, calls).log)
  {
    if calls != [] {
      var n := |calls| - 1;
      NumbersNameClaims(s, calls[..n]);
      InterleavingIsOrderly(s, calls[..n]);
      NumbersStayBounded(MadeAll(s, calls[..n]), calls[n]);
      NumbersStillIncrease(MadeAll(s, calls[..n]), calls[n]);
    }
  }

  // --------------------------------------------- spacing, exactly when guarded

  /** The guard is enough: it spaces the claims of every interleaving. */
  lemma GuardSpacesClaims(s: Shared, calls: seq<Call>, delay: int)
    requires Agrees(s) && s.log == [] && AllJustified(s, calls, delay)
    ensures IsSpaced(MadeAll(s, calls).log, delay)
  {
    LegalIffJustified(s, calls, delay);
    LegalHistory(MadeAll(s, calls).log, delay);
  }

  /** The attempt that a part in flight came from, with nothing about the part since. */
  lemma {:induction false} LastAttempt(log: seq<Event>, w: Window, i: nat) returns (p: nat)
    requires PhaseOf(log, w, i).Flight?
    ensures p < |log| && log[p] == Attempted(w, i, PhaseOf(log, w, i).attempt, PhaseOf(log, w, i).since)
    ensures forall k :: p < k < |log| ==> log[k].window != w || log[k].index != i
  {
    var n := |log| - 1;
    if log[n].window == w && log[n].index == i {
      p := n;
    } else {
      p := LastAttempt(log[..n], w, i);
      assert forall k :: 0 <= k < n ==> log[..n][k] == log[k];
    }
  }

  /** What does not settle the attempt in flight, between two claims, does not space them. */
  lemma UnsettledBreaksSpacing(log: seq<Event>, e: Event, again: Event, delay: int)
    requires PhaseOf(log, e.window, e.index).Flight? && !e.Attempted?
    requires var phase := PhaseOf(log, e.window, e.index); !Settles(e, phase.attempt, phase.since, delay)
    requires again.Attempted? && again.window == e.window && again.index == e.index
    ensures !IsSpaced(log + [e] + [again], delay)
  {
    var p := LastAttempt(log, e.window, e.index);
    var after := log + [e] + [again];
    var q := |log| + 1;
    assert after[p] == log[p] && after[q] == again;
    forall k | p < k < q
      ensures !Reopens(after[k], after[p], delay)
    {
      assert after[k] == if k < |log| then log[k] else e;
    }
  }

  lemma PrefixIs(parts: seq<Part>, i: nat)
    requires i < |parts| && parts[i].state != Confirmed && forall j :: 0 <= j < i ==> parts[j].state == Confirmed
    ensures ConfirmedPrefix(parts) == i
  {
  }

  /** A part in flight that is put back is the next one claimed, once its retry is due. */
  lemma PutBackIsNext(e: Execution, i: nat, p: Part, later: int)
    requires Valid(e) && e.state == Pending && i < |e.parts| && InFlight(e.parts[i])
    requires SameMessage(p, e.parts[i]) && p.state == Waiting
    requires p.nextAttemptAt.Some? && p.nextAttemptAt.value <= later
    ensures var after := Refreshed(e, e.parts[i := p]);
      NextClaim(after, later).Taken? && NextClaim(after, later).claim.index == i
  {
    PrefixIs(e.parts, i);
    PrefixIs(e.parts[i := p], i);
    assert !AllConfirmed(e.parts[i := p]) by {
      assert e.parts[i := p][i].state == Waiting;
    }
  }

  /** When the part that a call reopens can be claimed again. */
  function RetryAt(call: Call): int {
    match call
    case FinishCall(_, _, _, now) => now + MINUTE
    case ReconcileCall(_, _, now) => now
    case ClaimCall(now) => now
    case ExpireCall(cutoff) => cutoff
  }

  /** A call that is not justified reopens a part and records what does not settle the
      attempt in flight; the part is the next one claimed. */
  lemma UnjustifiedReopens(s: Shared, call: Call, later: int, delay: int) returns (event: Event)
    requires Agrees(s) && !IsJustified(s.row, call, delay) && later >= RetryAt(call)
    ensures EventsOf(s.row, call) == [event] && !event.Attempted?
    ensures var phase := PhaseOf(s.log, event.window, event.index);
      phase.Flight? && !Settles(event, phase.attempt, phase.since, delay)
    ensures var row := RowAfter(s.row, call);
      && row.window == event.window
      && NextClaim(row, later).Taken? && NextClaim(row, later).claim.index == event.index
  {
    var e := s.row;
    if call.FinishCall? {
      var c := call.claim;
      event := Refused(e.window, c.index, call.attempt);
      PutBackIsNext(e, c.index, FinishedPart(e.parts[c.index], Rejected, call.now), later);
    } else {
      var i: nat :| i < |e.parts| && InFlight(e.parts[i]) && e.parts[i].header !in call.found
        && !WasSearched(e.parts[i], i, call.search, delay);
      event := NotFound(e.window, i, call.search);
      ReconcileInFlight(s, call, i, delay);
      ReconcileReplacesOne(e.parts, i, call.found, call.now);
      PutBackIsNext(e, i, ReconciledPart(e.parts[i], call.found, call.now), later);
    }
    assert PhaseOf(s.log, e.window, event.index) == PhaseOfPart(e.parts[event.index]);
  }

  /** The guard is needed: after a call that fails it, the next claim, at any instant once
      the retry is due, is of the part attempted before and breaks the spacing. */
  lemma UnjustifiedBreaksSpacing(s: Shared, call: Call, later: int, delay: int)
    requires Agrees(s) && !IsJustified(s.row, call, delay) && later >= RetryAt(call)
    ensures NextClaim(Made(s, call).row, later).Taken?
    ensures !IsSpaced(Made(Made(s, call), ClaimCall(later)).log, delay)
  {
    var event := UnjustifiedReopens(s, call, later, delay);
    UnsettledBreaksSpacing(s.log, event, ClaimEvents(Made(s, call).row, later)[0], delay);
  }

  /** The next claim, whenever it comes, is spaced. */
  ghost predicate ClaimsSpaced(s: Shared, delay: int) {
    forall later :: IsSpaced(Made(s, ClaimCall(later)).log, delay)
  }

  /** A call may be followed by any claim without breaking the spacing exactly when it is
      justified. */
  lemma GuardIsExact(s: Shared, call: Call, delay: int)
    requires Agrees(s) && IsLegal(s.log, delay)
    ensures IsJustified(s.row, call, delay) <==> ClaimsSpaced(Made(s, call), delay)
  {
    if IsJustified(s.row, call, delay) {
      forall later
        ensures IsSpaced(Made(Made(s, call), ClaimCall(later)).log, delay)
      {
        JustifiedStaysLegal(s, call, delay);
        JustifiedStaysLegal(Made(s, call), ClaimCall(later), delay);
        LegalHistory(Made(Made(s, call), ClaimCall(later)).log, delay);
      }
    } else {
      UnjustifiedBreaksSpacing(s, call, RetryAt(call), delay);
    }
  }

  lemma JustifiedStaysLegal(s: Shared, call: Call, delay: int)
    requires Agrees(s) && IsLegal(s.log, delay) && IsJustified(s.row, call, delay)
    ensures Agrees(Made(s, call)) && IsLegal(Made(s, call).log, delay)
  {
    CallLegal(s, call, delay);
    LegalFront(s.log, EventsOf(s.row, call), delay);
  }

  /** Every claim that could come at any point of the interleaving is spaced. */
  ghost predicate AlwaysSpaced(s: Shared, calls: seq<Call>, delay: int) {
    && ClaimsSpaced(MadeAll(s, calls), delay)
    && (calls != [] ==> AlwaysSpaced(s, calls[..|calls| - 1], delay))
  }

  /** The exact condition: at every point of an interleaving the next claim, whenever it
      comes, is spaced, if and only if every call of it is justified. */
  lemma {:induction false} SpacedExactlyWhenJustified(s: Shared, calls: seq<Call>, delay: int)
    requires Agrees(s) && s.log == []
    ensures AlwaysSpaced(s, calls, delay) <==> AllJustified(s, calls, delay)
  {
    if calls == [] {
      FirstClaimSpaced(s, delay);
    } else {
      var n := |calls| - 1;
      SpacedExactlyWhenJustified(s, calls[..n], delay);
      if AllJustified(s, calls[..n], delay) {
        LegalIffJustified(s, calls[..n], delay);
        GuardIsExact(MadeAll(s, calls[..n]), calls[n], delay);
      }
    }
  }

  lemma FirstClaimSpaced(s: Shared, delay: int)
    requires Agrees(s) && s.log == []
    ensures ClaimsSpaced(s, delay)
  {
    forall later
      ensures IsSpaced(Made(s, ClaimCall(later)).log, delay)
    {
      JustifiedStaysLegal(s, ClaimCall(later), delay);
      LegalHistory(Made(s, ClaimCall(later)).log, delay);
    }
  }

  // --------------------------------------------------------- a late rejection

  /** Attempt `attempt` of the claimed part is in flight and overdue at `at`. */
  ghost predicate HasFlight(s: Shared, c: Claim, attempt: nat, at: int, delay: int) {
    && Agrees(s) && StillOpen(s.row, c) && IsOverdue(s.row.parts[c.index], at, delay)
    && var p := s.row.parts[c.index];
       c == Claim(c.index, p.header, p.text, p.request) && attempt == p.attempts
  }

  /** Every claim leads there, the delay later. */
  lemma ClaimPutsInFlight(s: Shared, c: Claim, now: int, delay: int)
    requires Agrees(s) && NextClaim(s.row, now) == Taken(c)
    ensures c.index < |s.row.parts|
    ensures HasFlight(Made(s, ClaimCall(now)), c, s.row.parts[c.index].attempts + 1, now + delay, delay)
  {
    ClaimIsNext(s.row, now);
    CallLegal(s, ClaimCall(now), delay);
  }

  /** An overdue part is searched for, not found, and can be claimed again at once. */
  lemma SearchPutsBack(s: Shared, i: nat, at: int, delay: int)
    requires Agrees(s) && s.row.state == Pending && i < |s.row.parts| && IsOverdue(s.row.parts[i], at, delay)
    ensures var p := s.row.parts[i];
      var search := Search(at, {Attempt(i, p.attempts)});
      var t := Made(s, ReconcileCall(search, {}, at));
      && search == SearchFor(s.row, at, delay)
      && IsJustified(s.row, ReconcileCall(search, {}, at), delay)
      && Agrees(t) && t.row.parts == s.row.parts[i := ReconciledPart(p, {}, at)]
      && NextClaim(t.row, at) == Taken(Claim(i, p.header, p.text, p.request))
  {
    var p := s.row.parts[i];
    var search := Search(at, {Attempt(i, p.attempts)});
    OneInFlight(s.row, at, delay, i);
    assert SearchFor(s.row, at, delay).asked == search.asked;
    CallLegal(s, ReconcileCall(search, {}, at), delay);
    ReconcileReplacesOne(s.row.parts, i, {}, at);
    PutBackIsNext(s.row, i, ReconciledPart(p, {}, at), at);
  }

  /** The next claim is `c` again; a rejection of attempt `attempt`, which is not justified,
      then reopens the part, and the claim a minute later breaks the spacing. */
  ghost predicate ResentEarly(s: Shared, c: Claim, attempt: nat, at: int, delay: int) {
    var again := Made(s, ClaimCall(at));
    var reopened := Made(again, FinishCall(c, attempt, Rejected, at));
    && NextClaim(s.row, at) == Taken(c) && !IsJustified(again.row, FinishCall(c, attempt, Rejected, at), delay)
    && NextClaim(reopened.row, at + MINUTE).Taken?
    && !IsSpaced(Made(reopened, ClaimCall(at + MINUTE)).log, delay)
  }

  lemma LateRejectionUnjustified(e: Execution, c: Claim, attempt: nat, at: int, delay: int)
    requires StillOpen(e, c) && attempt < e.parts[c.index].attempts
    ensures !IsJustified(e, FinishCall(c, attempt, Rejected, at), delay)
  {
  }

  /** A rejection of an earlier attempt reopens the part. */
  lemma LateRejectionReopens(s: Shared, c: Claim, attempt: nat, at: int, delay: int)
    requires Agrees(s) && StillOpen(s.row, c) && attempt < s.row.parts[c.index].attempts
    ensures var reopened := Made(s, FinishCall(c, attempt, Rejected, at));
      && !IsJustified(s.row, FinishCall(c, attempt, Rejected, at), delay)
      && NextClaim(reopened.row, at + MINUTE).Taken?
      && !IsSpaced(Made(reopened, ClaimCall(at + MINUTE)).log, delay)
  {
    LateRejectionUnjustified(s.row, c, attempt, at, delay);
    UnjustifiedBreaksSpacing(s, FinishCall(c, attempt, Rejected, at), at + MINUTE, delay);
  }

  lemma ClaimedAgainResentEarly(s: Shared, c: Claim, attempt: nat, at: int, delay: int)
    requires Agrees(s) && NextClaim(s.row, at) == Taken(c)
    requires c.index < |s.row.parts| && attempt <= s.row.parts[c.index].attempts
    ensures ResentEarly(s, c, attempt, at, delay)
  {
    ClaimPutsInFlight(s, c, at, delay);
    LateRejectionReopens(Made(s, ClaimCall(at)), c, attempt, at, delay);
  }

  /** A search for the claim's attempt, as the row calls for it, is justified and finds
      nothing; and then a rejection of the same attempt comes late. */
  ghost predicate SearchedThenResentEarly(s: Shared, c: Claim, attempt: nat, at: int, delay: int) {
    var search := ReconcileCall(Search(at, {Attempt(c.index, attempt)}), {}, at);
    && search.search == SearchFor(s.row, at, delay) && IsJustified(s.row, search, delay)
    && ResentEarly(Made(s, search), c, attempt, at, delay)
  }

  /** A rejection that comes late is enough: an attempt, in flight since its claim, is
      searched for and not found, the part is claimed again, and the first attempt's
      rejection then reopens it, since a request's name is that of the part. A minute later
      it is claimed a third time, with nothing known of the second attempt. */
  lemma LateRejectionResendsEarly(s: Shared, c: Claim, attempt: nat, at: int, delay: int)
    requires HasFlight(s, c, attempt, at, delay)
    ensures SearchedThenResentEarly(s, c, attempt, at, delay)
  {
    SearchPutsBack(s, c.index, at, delay);
    var search := ReconcileCall(Search(at, {Attempt(c.index, attempt)}), {}, at);
    ClaimedAgainResentEarly(Made(s, search), c, attempt, at, delay);
  }
}
