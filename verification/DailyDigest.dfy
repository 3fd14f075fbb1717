/** The digest repository over its stored rows, and the scheduler loop that drives it. */
module DailyDigest {
  import opened Wrappers
  import opened DigestExecutions
  import opened DigestTables
  import opened DigestRuns
  import opened DigestCalendar
  import DigestMessages
  import DigestRender

  /** A clock reading whose latest completed window has wall-clock ends. */
  predicate IsClock(now: int) {
    IsInstant(LatestCompleted(now).start) && IsInstant(LatestCompleted(now).end)
  }

  datatype Candidates = Candidates(headers: set<string>, notBefore: int)

  class DailyDigestRepository {
    var table: Table

    constructor ()
      ensures table == map[]
    {
      table := map[];
    }

    method MarkExpiredExecutionsMissed(cutoff: int)
      modifies this
      ensures table == ExpireAll(old(table), cutoff)
    {
      table := map v | v in table :: Expired(table[v], cutoff);
    }

    /** Renders the lines of a snapshot under the window's own label and stores the
        messages; false when rendering refuses. A row already there is kept. */
    method EnsureExecution(w: Window, lines: seq<string>, listed: set<Window>, maxBytes: int)
      returns (ok: bool, ghost messages: seq<Message>)
      requires lines != [] && IsInstant(w.start) && IsInstant(w.end)
      modifies this
      ensures ok ==> DigestMessages.IsBundle(WindowLabel(w), lines, maxBytes, messages)
      ensures ok ==> Storable(messages) && table == Ensured(old(table), w, messages, listed)
      ensures !ok ==> table == old(table)
    {
      var start, end := StampOf(w.start), StampOf(w.end);
      var rendered := DigestMessages.Render(start, end, lines, maxBytes);
      if rendered.ValueError? {
        return false, [];
      }
      messages := rendered.value;
      RenderedIsStorable(start, end, lines, maxBytes, rendered.value);
      if w !in table {
        table := table[w := NewExecution(w, rendered.value, listed)];
      }
      ok := true;
    }

    /** The headers overdue for reconciliation, and a minute before the earliest of
        their attempts. */
    method ReconciliationCandidates(w: Window, now: int, delay: int) returns (c: Option<Candidates>)
      ensures c.None? <==> w !in table || OverdueHeaders(table[w], now, delay) == {}
      ensures c.Some? ==> c.value.headers == OverdueHeaders(table[w], now, delay)
      ensures c.Some? ==>
        && (forall i :: 0 <= i < |table[w].parts| && IsOverdue(table[w].parts[i], now, delay) ==>
              c.value.notBefore <= table[w].parts[i].lastAttemptAt.value - MINUTE)
        && (exists i :: 0 <= i < |table[w].parts| && IsOverdue(table[w].parts[i], now, delay)
                        && c.value.notBefore == table[w].parts[i].lastAttemptAt.value - MINUTE)
    {
      if w !in table || table[w].state != Pending {
        return None;
      }
      var parts := table[w].parts;
      var headers: set<string>, earliest: Option<int> := {}, None;
      for i := 0 to |parts|
        invariant headers == set k | 0 <= k < i && IsOverdue(parts[k], now, delay) :: parts[k].header
        invariant earliest.None? <==> forall k :: 0 <= k < i ==> !IsOverdue(parts[k], now, delay)
        invariant earliest.Some? ==>
          && (forall k :: 0 <= k < i && IsOverdue(parts[k], now, delay) ==>
                earliest.value <= parts[k].lastAttemptAt.value)
          && exists k :: 0 <= k < i && IsOverdue(parts[k], now, delay) && earliest.value == parts[k].lastAttemptAt.value
      {
        if IsOverdue(parts[i], now, delay) {
          var at := parts[i].lastAttemptAt.value;
          headers := headers + {parts[i].header};
          earliest := Some(if earliest.Some? && earliest.value < at then earliest.value else at);
        }
      }
      assert headers == OverdueHeaders(table[w], now, delay);
      if earliest.None? {
        assert headers == {};
        return None;
      }
      ghost var k :| 0 <= k < |parts| && IsOverdue(parts[k], now, delay);
      assert parts[k].header in headers;
      c := Some(Candidates(headers, earliest.value - MINUTE));
    }

    method ReconcileParts(w: Window, found: set<string>, now: int)
      modifies this
      ensures table == if w in old(table) then ReconcileTable(old(table), w, found, now) else old(table)
    {
      if w !in table || table[w].state != Pending {
        return;
      }
      var e := table[w];
      var parts := new Part[|e.parts|](i requires 0 <= i < |e.parts| => e.parts[i]);
      var changed := false;
      for i := 0 to parts.Length
        invariant forall k :: 0 <= k < i ==> parts[k] == ReconciledPart(e.parts[k], found, now)
        invariant forall k :: i <= k < parts.Length ==> parts[k] == e.parts[k]
        invariant changed <==> exists k :: 0 <= k < i && InFlight(e.parts[k])
        invariant table == old(table)
      {
        var part := parts[i];
        if InFlight(part) {
          if part.header in found {
            part := part.(state := Confirmed, confirmedAt := Some(now));
          } else {
            part := part.(state := Waiting, nextAttemptAt := Some(now));
          }
          changed := true;
        }
        parts[i] := part;
      }
      if changed {
        assert parts[..] == ReconciledParts(e.parts, found, now);
        WritePartsAndRefreshState(w, parts[..]);
      }
    }

    method WritePartsAndRefreshState(w: Window, parts: seq<Part>)
      requires w in table
      modifies this
      ensures table == StoreRefreshed(old(table), Refreshed(old(table)[w], parts))
    {
      var e := Refreshed(table[w], parts);
      table := StoreRefreshed(table, e);
    }

    /** Claims the first unconfirmed part, if it is waiting and due. */
    method ClaimNextPart(w: Window, now: int) returns (r: Claimed)
      modifies this
      ensures w !in old(table) ==> r == Nothing && table == old(table)
      ensures w in old(table) ==> r == NextClaim(old(table)[w], now)
      ensures w in old(table) ==> table == old(table)[w := AfterClaim(old(table)[w], now)]
    {
      if w !in table || table[w].state != Pending {
        return Nothing;
      }
      var e := table[w];
      var parts := new Part[|e.parts|](i requires 0 <= i < |e.parts| => e.parts[i]);
      for i := 0 to parts.Length
        invariant table == old(table) && parts[..] == e.parts
        invariant forall k :: 0 <= k < i ==> e.parts[k].state == Confirmed
      {
        var part := parts[i];
        if part.state == Confirmed {
          continue;
        }
        assert ConfirmedPrefix(e.parts) == i;
        if InFlight(part) || (part.nextAttemptAt.Some? && part.nextAttemptAt.value > now) {
          return Nothing;
        }
        if part.header == "" || part.text == "" {
          return Invalid;
        }
        parts[i] := ClaimedPart(part, now);
        assert parts[..] == e.parts[i := ClaimedPart(part, now)];
        table := table[w := e.(parts := parts[..], attemptCount := e.attemptCount + 1)];
        return Taken(Claim(i, part.header, part.text, part.request));
      }
      return Nothing;
    }

    /** Records how a claimed part ended, if the claim is still open; false when the
        claim names no part. */
    method FinishClaimedPart(w: Window, c: Claim, outcome: Delivery, now: int) returns (ok: bool)
      modifies this
      ensures !ok <==> w in old(table) && old(table)[w].state == Pending && c.index >= |old(table)[w].parts|
      ensures table == if w in old(table) then FinishTable(old(table), w, c, outcome, now) else old(table)
    {
      if w !in table || table[w].state != Pending {
        return true;
      }
      var e := table[w];
      var parts := new Part[|e.parts|](i requires 0 <= i < |e.parts| => e.parts[i]);
      if c.index >= parts.Length {
        return false;
      }
      var part := parts[c.index];
      if part.state != Sending || part.request != c.request {
        return true;
      }
      parts[c.index] := FinishedPart(part, outcome, now);
      assert parts[..] == e.parts[c.index := FinishedPart(part, outcome, now)];
      WritePartsAndRefreshState(w, parts[..]);
      return true;
    }
  }

  class DailyDigestScheduler {
    const repository: DailyDigestRepository
    const delay: int
    const maxBytes: int
    var clock: int
    ghost const birth: int
    /** The steps taken so far, stops included. */
    ghost var trace: seq<Action>

    ghost function State(): World
      requires LegalRun(Fresh(birth), trace, delay)
      reads this
    {
      RunFrom(Fresh(birth), trace, delay)
    }

    /** The stored rows are those after a legal run. */
    ghost predicate Valid()
      reads this, repository
    {
      && LegalRun(Fresh(birth), trace, delay)
      && State().table == repository.table
      && State().clock == clock && IsClock(clock)
    }

    constructor (clock: int, delay: int, maxBytes: int)
      requires IsClock(clock)
      ensures Valid() && State().place == Idle && fresh(repository) && trace == [] && this.delay == delay
    {
      this.repository := new DailyDigestRepository();
      this.clock, this.delay, this.maxBytes := clock, delay, maxBytes;
      this.birth, this.trace := clock, [];
    }

    ghost method Advance(a: Action)
      requires LegalRun(Fresh(birth), trace, delay) && Enabled(State(), a, delay)
      modifies this`trace
      ensures trace == old(trace) + [a]
      ensures LegalRun(Fresh(birth), trace, delay) && State() == Step(old(State()), a, delay)
    {
      RunSnoc(Fresh(birth), trace, a, delay);
      trace := trace + [a];
    }

    method ReadClock() returns (now: int)
      requires IsClock(clock)
      ensures now >= clock && IsClock(now)
    {
      now :| now >= clock && IsClock(now);
    }

    /** One pass. The process may stop between any two steps, and a new pass starts from
        the stored rows. However it goes, the rows stay those of a legal run. */
    method RunDue(lines: seq<string>)
      requires Valid() && State().place == Idle && lines != []
      modifies this, repository
      ensures Valid() && State().place == Idle && old(trace) <= trace
    {
      var now := ReadClock();
      var w := LatestCompleted(now);
      Advance(Wake(now));
      clock := now;
      if * {
        Advance(Stop);
        return;
      }
      repository.MarkExpiredExecutionsMissed(w.start);
      Advance(Expire);
      RunWindow(w, lines);
    }

    /** The pass on its window, once earlier ones are closed. */
    method RunWindow(w: Window, lines: seq<string>)
      requires Valid() && State().place == Closed(w) && lines != [] && IsInstant(w.start) && IsInstant(w.end)
      modifies this, repository
      ensures Valid() && State().place == Idle && old(trace) <= trace
    {
      if * {
        Advance(Stop);
        return;
      }
      Advance(Look);
      if w !in repository.table {
        var stored := StoreDigest(w, lines, Unreported(repository.table, w.start));
        if !stored {
          return;
        }
      }
      if repository.table[w].state == Pending {
        DeliverPendingExecution(w);
      } else {
        Advance(Stop);
      }
    }

    /** Stores the window's digest, unless the process stops or rendering refuses. */
    method StoreDigest(w: Window, lines: seq<string>, listed: set<Window>) returns (stored: bool)
      requires Valid() && State().place == Drafted(w, listed) && w !in repository.table
      requires lines != [] && IsInstant(w.start) && IsInstant(w.end)
      modifies this, repository
      ensures Valid() && old(trace) <= trace
      ensures !stored ==> State().place == Idle
      ensures stored ==>
        State().place == Delivering(w) && w in repository.table && repository.table[w].state == Pending
    {
      if * {
        Advance(Stop);
        return false;
      }
      var ok, messages := EnsureRow(w, lines, listed);
      if !ok {
        Advance(Stop);
        return false;
      }
      Advance(Ensure(messages));
      return true;
    }

    method EnsureRow(w: Window, lines: seq<string>, listed: set<Window>)
      returns (ok: bool, ghost messages: seq<Message>)
      requires lines != [] && IsInstant(w.start) && IsInstant(w.end)
      modifies repository
      ensures ok ==> Storable(messages) && repository.table == Ensured(old(repository.table), w, messages, listed)
      ensures !ok ==> repository.table == old(repository.table)
    {
      ok, messages := repository.EnsureExecution(w, lines, listed, maxBytes);
    }

    /** The delivery loop. It ends for every behaviour of the chat: each turn that goes on
        confirms a part or takes one out of flight. */
    method DeliverPendingExecution(w: Window)
      requires Valid() && State().place == Delivering(w)
      modifies this, repository
      ensures Valid() && State().place == Idle && old(trace) <= trace
    {
      Reachable(birth, trace, delay);
      var ended := false;
      while !ended
        invariant Valid() && old(trace) <= trace
        invariant State().place == if ended then Idle else Delivering(w)
        invariant ended || w in repository.table
        decreases !ended,
          if ended then 0 else Unconfirmed(repository.table[w].parts),
          if ended then 0 else Flying(repository.table[w].parts)
      {
        ended := DeliverTurn(w);
      }
    }

    /** One turn: overdue parts first, otherwise the next part. */
    method DeliverTurn(w: Window) returns (ended: bool)
      requires Valid() && State().place == Delivering(w) && w in repository.table
      modifies this, repository
      ensures Valid() && old(trace) <= trace
      ensures ended ==> State().place == Idle
      ensures !ended ==>
        && State().place == Delivering(w) && w in repository.table
        && var now, was := repository.table[w].parts, old(repository.table[w].parts);
           Unconfirmed(now) < Unconfirmed(was) || (Unconfirmed(now) == Unconfirmed(was) && Flying(now) < Flying(was))
    {
      Reachable(birth, trace, delay);
      if * {
        Advance(Stop);
        return true;
      }
      var instant := ReadClock();
      var candidates := repository.ReconciliationCandidates(w, instant, delay);
      if candidates.Some? {
        ended := ReconcileOverdue(w, instant);
      } else {
        ended := AttemptNextPart(w, instant);
      }
    }

    /** Asks the chat for the overdue headers and applies its answer; true when there was
        none. */
    method ReconcileOverdue(w: Window, instant: int) returns (unavailable: bool)
      requires Valid() && State().place == Delivering(w) && w in repository.table && Inv(State(), delay)
      requires instant >= clock && IsClock(instant) && OverdueHeaders(repository.table[w], instant, delay) != {}
      modifies this, repository
      ensures Valid() && old(trace) <= trace
      ensures unavailable ==> State().place == Idle
      ensures !unavailable ==>
        && State().place == Delivering(w) && w in repository.table
        && var now, was := repository.table[w].parts, old(repository.table[w].parts);
           Unconfirmed(now) < Unconfirmed(was) || (Unconfirmed(now) == Unconfirmed(was) && Flying(now) < Flying(was))
    {
      var answer: Option<set<string>> := *;
      if !answer.Some? {
        Advance(Stop);
        return true;
      }
      Advance(Ask(instant, answer.value));
      clock := instant;
      if * {
        Advance(Stop);
        return true;
      }
      var later := ReadClock();
      ReconcileProgress(repository.table, w, instant, answer.value, later, delay);
      repository.ReconcileParts(w, answer.value, later);
      Advance(Reconcile(later));
      clock := later;
      return false;
    }

    /** Claims the next part and sends it; false when the part was accepted and the loop
        goes on. */
    method AttemptNextPart(w: Window, instant: int) returns (ended: bool)
      requires Valid() && State().place == Delivering(w) && w in repository.table && Inv(State(), delay)
      requires instant >= clock && IsClock(instant) && OverdueHeaders(repository.table[w], instant, delay) == {}
      modifies this, repository
      ensures Valid() && old(trace) <= trace
      ensures ended ==> State().place == Idle
      ensures !ended ==>
        && State().place == Delivering(w) && w in repository.table
        && Unconfirmed(repository.table[w].parts) < Unconfirmed(old(repository.table[w].parts))
    {
      ghost var before := repository.table;
      NeverInvalid(before[w], instant);
      var claimed := repository.ClaimNextPart(w, instant);
      Advance(ClaimNext(instant));
      clock := instant;
      if !claimed.Taken? {
        return true;
      }
      if * {
        Advance(Stop);
        return true;
      }
      var outcome: Delivery := *;
      if * {
        Advance(Stop);
        return true;
      }
      AttemptProgress(before, w, instant);
      ended := RecordOutcome(w, claimed.claim, outcome);
    }

    method RecordOutcome(w: Window, c: Claim, outcome: Delivery) returns (ended: bool)
      requires Valid() && State().place.Claiming? && State().place.window == w && State().place.claim == c
      requires w in repository.table
      modifies this, repository
      ensures Valid() && old(trace) <= trace && ended == (outcome != Accepted)
      ensures State().place == if ended then Idle else Delivering(w)
      ensures exists later :: repository.table == FinishTable(old(repository.table), w, c, outcome, later)
    {
      var later := ReadClock();
      var _ := repository.FinishClaimedPart(w, c, outcome, later);
      Advance(Finish(outcome, later));
      clock := later;
      ended := outcome != Accepted;
    }
  }
}
