/** Reporting windows, and one stored digest execution: an ordered list of message parts
    and what claiming, finishing, reconciling and expiring do to it. */
module DigestExecutions {
  import opened Wrappers

  // --------------------------------------------------------------- windows

  /** Instants and durations count microseconds; Asia/Shanghai is UTC+8 throughout. */
  const HOUR := 3_600_000_000
  const DAY := 24 * HOUR
  const MINUTE := HOUR / 60
  const ZONE := 8 * HOUR
  const REPORT_HOUR := 18 * HOUR

  datatype Window = Window(start: int, end: int)

  function LatestCompleted(now: int): Window {
    var local := now + ZONE;
    var today := local - local % DAY + REPORT_HOUR;
    var boundary := if local < today then today - DAY else today;
    Window(boundary - DAY - ZONE, boundary - ZONE)
  }

  /** A day that ends at 18:00 Shanghai time. */
  predicate IsReportWindow(w: Window) {
    w.end - w.start == DAY && (w.end + ZONE) % DAY == REPORT_HOUR
  }

  /** The latest completed window is the only report window that ended less than a day ago. */
  lemma LatestIsUnique(now: int, w: Window)
    ensures w == LatestCompleted(now) <==> IsReportWindow(w) && w.end <= now < w.end + DAY
  {
    var local := now + ZONE;
    if IsReportWindow(w) && w.end <= now < w.end + DAY {
      var day := (w.end + ZONE) / DAY;
      assert w.end + ZONE == day * DAY + REPORT_HOUR;
      if local < (day + 1) * DAY {
        assert local / DAY == day;
      } else {
        assert local / DAY == day + 1;
      }
    }
  }

  /** Report windows tile time: two of them are equal or do not overlap. */
  lemma WindowsTile(v: Window, w: Window)
    requires IsReportWindow(v) && IsReportWindow(w)
    ensures v == w || v.end <= w.start || w.end <= v.start
  {
    var i, j := (v.end + ZONE) / DAY, (w.end + ZONE) / DAY;
    assert v.end + ZONE == i * DAY + REPORT_HOUR && w.end + ZONE == j * DAY + REPORT_HOUR;
    if i < j {
      assert (j - i) * DAY >= DAY;
    } else if j < i {
      assert (i - j) * DAY >= DAY;
    }
  }

  /** Every instant lies in exactly one report window, the one completed a day later. */
  lemma EveryInstantIsReported(t: int, w: Window)
    ensures w == LatestCompleted(t + DAY) <==> IsReportWindow(w) && w.start <= t < w.end
  {
    LatestIsUnique(t + DAY, w);
  }

  // ----------------------------------------------------------------- parts

  datatype PartState = Waiting | Sending | Unknown | Confirmed

  /** `uuid5` is taken to be injective: a request is named by its window and index. */
  datatype RequestId = RequestId(window: Window, index: nat)

  datatype Part = Part(
    header: string,
    text: string,
    request: RequestId,
    state: PartState,
    attempts: nat,
    lastAttemptAt: Option<int>,
    nextAttemptAt: Option<int>,
    confirmedAt: Option<int>)

  datatype ExecutionState = Pending | Delivered | Missed

  /** `listed`: the windows that the stored text reports as missed. */
  datatype Execution = Execution(
    window: Window,
    state: ExecutionState,
    parts: seq<Part>,
    listed: set<Window>,
    attemptCount: nat,
    reported: bool)

  predicate InFlight(p: Part) {
    p.state == Sending || p.state == Unknown
  }

  predicate AllConfirmed(parts: seq<Part>) {
    parts != [] && forall i :: 0 <= i < |parts| ==> parts[i].state == Confirmed
  }

  function Attempts(parts: seq<Part>): nat {
    if parts == [] then 0 else Attempts(parts[..|parts| - 1]) + parts[|parts| - 1].attempts
  }

  /** The number of confirmed parts at the front. */
  function ConfirmedPrefix(parts: seq<Part>): (n: nat)
    ensures n <= |parts|
    ensures forall i :: 0 <= i < n ==> parts[i].state == Confirmed
    ensures n < |parts| ==> parts[n].state != Confirmed
  {
    if parts == [] || parts[0].state != Confirmed then 0 else 1 + ConfirmedPrefix(parts[1..])
  }

  /** Confirmed parts, then at most one in flight, then waiting ones. */
  ghost predicate Shape(parts: seq<Part>) {
    forall i, j :: 0 <= i < j < |parts| ==> parts[i].state == Confirmed || parts[j].state == Waiting
  }

  ghost predicate WellFormedParts(w: Window, parts: seq<Part>) {
    && parts != []
    && (forall i :: 0 <= i < |parts| ==>
          && parts[i].header != "" && parts[i].text != ""
          && parts[i].request == RequestId(w, i)
          && (InFlight(parts[i]) ==> parts[i].lastAttemptAt.Some?))
    && (forall i, j :: 0 <= i < j < |parts| ==> parts[i].header != parts[j].header)
  }

  ghost predicate Valid(e: Execution) {
    && WellFormedParts(e.window, e.parts)
    && Shape(e.parts)
    && e.attemptCount == Attempts(e.parts)
    && (e.state == Delivered <==> AllConfirmed(e.parts))
  }

  // ------------------------------------------------------------ operations

  datatype Claim = Claim(index: nat, header: string, text: string, request: RequestId)

  datatype Claimed = Nothing | Taken(claim: Claim) | Invalid

  function ClaimedPart(p: Part, now: int): Part {
    p.(state := Sending, attempts := p.attempts + 1, lastAttemptAt := Some(now), nextAttemptAt := None)
  }

  /** What `claim_next_part` answers for a part list. */
  function NextClaim(e: Execution, now: int): Claimed {
    var k := ConfirmedPrefix(e.parts);
    if e.state != Pending || k == |e.parts| || InFlight(e.parts[k]) then Nothing
    else
      var p := e.parts[k];
      if p.nextAttemptAt.Some? && p.nextAttemptAt.value > now then Nothing
      else if p.header == "" || p.text == "" then Invalid
      else Taken(Claim(k, p.header, p.text, p.request))
  }

  function AfterClaim(e: Execution, now: int): Execution {
    if NextClaim(e, now).Taken? then
      var k := NextClaim(e, now).claim.index;
      e.(parts := e.parts[k := ClaimedPart(e.parts[k], now)], attemptCount := e.attemptCount + 1)
    else e
  }

  /** `_write_parts_and_refresh_state` on the row itself. */
  function Refreshed(e: Execution, parts: seq<Part>): Execution {
    e.(parts := parts, state := if AllConfirmed(parts) then Delivered else e.state)
  }

  datatype Delivery = Accepted | Rejected | OutcomeUnknown

  function FinishedPart(p: Part, outcome: Delivery, now: int): Part {
    match outcome
    case Accepted => p.(state := Confirmed, confirmedAt := Some(now))
    case Rejected => p.(state := Waiting, nextAttemptAt := Some(now + MINUTE))
    case OutcomeUnknown => p.(state := Unknown)
  }

  /** Whether `_finish_claimed_part` finds the claim still open. An index out of range is
      the caller's mistake and raises. */
  predicate StillOpen(e: Execution, c: Claim) {
    e.state == Pending && c.index < |e.parts|
    && e.parts[c.index].state == Sending && e.parts[c.index].request == c.request
  }

  function AfterFinish(e: Execution, c: Claim, outcome: Delivery, now: int): Execution {
    if StillOpen(e, c) then Refreshed(e, e.parts[c.index := FinishedPart(e.parts[c.index], outcome, now)]) else e
  }

  function ReconciledPart(p: Part, found: set<string>, now: int): Part {
    if !InFlight(p) then p
    else if p.header in found then p.(state := Confirmed, confirmedAt := Some(now))
    else p.(state := Waiting, nextAttemptAt := Some(now))
  }

  function ReconciledParts(parts: seq<Part>, found: set<string>, now: int): (r: seq<Part>)
    ensures |r| == |parts|
  {
    seq(|parts|, i requires 0 <= i < |parts| => ReconciledPart(parts[i], found, now))
  }

  function AfterReconcile(e: Execution, found: set<string>, now: int): Execution {
    if e.state == Pending && exists i :: 0 <= i < |e.parts| && InFlight(e.parts[i]) then
      Refreshed(e, ReconciledParts(e.parts, found, now))
    else e
  }

  predicate IsOverdue(p: Part, now: int, delay: int) {
    InFlight(p) && p.lastAttemptAt.Some? && p.lastAttemptAt.value + delay <= now
  }

  /** The headers that `reconciliation_candidates` asks for. */
  function OverdueHeaders(e: Execution, now: int, delay: int): set<string> {
    if e.state != Pending then {}
    else set i | 0 <= i < |e.parts| && IsOverdue(e.parts[i], now, delay) :: e.parts[i].header
  }

  /** An attempt of a part, by its number. Neither claims nor searches carry the number;
      it says which attempt the answer to one of them is about. */
  datatype Attempt = Attempt(index: nat, number: nat)

  /** A search of the chat, begun at an instant for the headers of some parts in flight. */
  datatype Search = Search(askedAt: int, asked: set<Attempt>)

  /** The search that `reconciliation_candidates` calls for. */
  function SearchFor(e: Execution, now: int, delay: int): Search {
    Search(now, if e.state != Pending then {}
                else set i: nat | i < |e.parts| && IsOverdue(e.parts[i], now, delay) ::
                       Attempt(i, e.parts[i].attempts))
  }

  /** The search asked about the attempt in flight, overdue when it began. */
  predicate WasSearched(p: Part, i: nat, search: Search, delay: int) {
    Attempt(i, p.attempts) in search.asked && IsOverdue(p, search.askedAt, delay)
  }

  // --------------------------------------------------- what they preserve

  lemma {:induction false} AttemptsUpdate(parts: seq<Part>, k: nat, p: Part)
    requires k < |parts|
    ensures Attempts(parts[k := p]) == Attempts(parts) - parts[k].attempts + p.attempts
  {
    var n := |parts| - 1;
    if k == n {
      assert parts[k := p][..n] == parts[..n];
    } else {
      assert parts[k := p][..n] == parts[..n][k := p];
      AttemptsUpdate(parts[..n], k, p);
    }
  }

  /** A claim is of the first unconfirmed part, which was waiting and due. */
  lemma ClaimIsNext(e: Execution, now: int)
    requires Valid(e) && NextClaim(e, now).Taken?
    ensures var c := NextClaim(e, now).claim;
      && e.state == Pending && c.index < |e.parts| && c.request == RequestId(e.window, c.index)
      && (forall i :: 0 <= i < c.index ==> e.parts[i].state == Confirmed)
      && (forall i :: c.index <= i < |e.parts| ==> e.parts[i].state == Waiting)
      && StillOpen(AfterClaim(e, now), c)
  {
    var k := NextClaim(e, now).claim.index;
    assert e.parts[k].state == Waiting;
  }

  lemma NeverInvalid(e: Execution, now: int)
    requires Valid(e)
    ensures !NextClaim(e, now).Invalid?
  {
  }

  predicate SameMessage(p: Part, q: Part) {
    p.header == q.header && p.text == q.text && p.request == q.request
  }

  /** Replacing the first unconfirmed part, when it is followed by waiting parts only. */
  lemma ReplaceNext(w: Window, parts: seq<Part>, k: nat, p: Part)
    requires WellFormedParts(w, parts) && Shape(parts) && k < |parts|
    requires parts[k].state != Confirmed && (InFlight(parts[k]) || k == ConfirmedPrefix(parts))
    requires SameMessage(p, parts[k]) && (InFlight(p) ==> p.lastAttemptAt.Some?)
    ensures WellFormedParts(w, parts[k := p]) && Shape(parts[k := p])
    ensures AllConfirmed(parts[k := p]) <==> p.state == Confirmed && k == |parts| - 1
  {
    assert forall j :: k < j < |parts| ==> parts[j].state == Waiting;
    assert forall i :: 0 <= i < k ==> parts[i].state == Confirmed;
    var after := parts[k := p];
    assert after[k] == p;
    forall i, j | 0 <= i < j < |after|
      ensures after[i].header != after[j].header
      ensures after[i].state == Confirmed || after[j].state == Waiting
    {
      assert parts[i].header != parts[j].header;
    }
    if p.state == Confirmed && k < |parts| - 1 {
      assert after[k + 1].state == Waiting;
    }
  }

  lemma ClaimKeepsValid(e: Execution, now: int)
    requires Valid(e)
    ensures Valid(AfterClaim(e, now))
  {
    if NextClaim(e, now).Taken? {
      var k := NextClaim(e, now).claim.index;
      AttemptsUpdate(e.parts, k, ClaimedPart(e.parts[k], now));
      ReplaceNext(e.window, e.parts, k, ClaimedPart(e.parts[k], now));
    }
  }

  lemma RefreshKeepsValid(e: Execution, k: nat, p: Part)
    requires Valid(e) && e.state == Pending && k < |e.parts| && InFlight(e.parts[k])
    requires SameMessage(p, e.parts[k]) && p.attempts == e.parts[k].attempts && (InFlight(p) ==> p.lastAttemptAt.Some?)
    ensures Valid(Refreshed(e, e.parts[k := p]))
  {
    AttemptsUpdate(e.parts, k, p);
    ReplaceNext(e.window, e.parts, k, p);
  }

  lemma FinishKeepsValid(e: Execution, c: Claim, outcome: Delivery, now: int)
    requires Valid(e)
    ensures Valid(AfterFinish(e, c, outcome, now))
  {
    if StillOpen(e, c) {
      RefreshKeepsValid(e, c.index, FinishedPart(e.parts[c.index], outcome, now));
    }
  }

  /** In a list of the permitted shape a reconciliation touches one part. */
  lemma ReconcileReplacesOne(parts: seq<Part>, i: nat, found: set<string>, now: int)
    requires Shape(parts) && i < |parts| && InFlight(parts[i])
    ensures ReconciledParts(parts, found, now) == parts[i := ReconciledPart(parts[i], found, now)]
  {
  }

  lemma ReconcileKeepsValid(e: Execution, found: set<string>, now: int)
    requires Valid(e)
    ensures Valid(AfterReconcile(e, found, now))
  {
    if e.state == Pending && exists i :: 0 <= i < |e.parts| && InFlight(e.parts[i]) {
      var i :| 0 <= i < |e.parts| && InFlight(e.parts[i]);
      var p := ReconciledPart(e.parts[i], found, now);
      ReconcileReplacesOne(e.parts, i, found, now);
      RefreshKeepsValid(e, i, p);
    }
  }

  /** A list of the permitted shape has at most one part in flight, so what a
      reconciliation asked for is the only part it can change. */
  lemma OneInFlight(e: Execution, now: int, delay: int, i: nat)
    requires Valid(e) && i < |e.parts| && InFlight(e.parts[i])
    ensures OverdueHeaders(e, now, delay) != {} ==>
      && OverdueHeaders(e, now, delay) == {e.parts[i].header}
      && e.parts[i].lastAttemptAt.value + delay <= now
    ensures forall j :: 0 <= j < |e.parts| && j != i ==> !InFlight(e.parts[j])
  {
  }

  // ----------------------------------------------------------- termination

  function Unconfirmed(parts: seq<Part>): nat {
    if parts == [] then 0
    else Unconfirmed(parts[..|parts| - 1]) + if parts[|parts| - 1].state == Confirmed then 0 else 1
  }

  function Flying(parts: seq<Part>): nat {
    if parts == [] then 0
    else Flying(parts[..|parts| - 1]) + if InFlight(parts[|parts| - 1]) then 1 else 0
  }

  lemma {:induction false} MeasureUpdate(parts: seq<Part>, k: nat, p: Part)
    requires k < |parts|
    ensures Unconfirmed(parts[k := p]) ==
            Unconfirmed(parts) - (if parts[k].state == Confirmed then 0 else 1)
            + (if p.state == Confirmed then 0 else 1)
    ensures Flying(parts[k := p]) ==
            Flying(parts) - (if InFlight(parts[k]) then 1 else 0) + (if InFlight(p) then 1 else 0)
  {
    var n := |parts| - 1;
    if k == n {
      assert parts[k := p][..n] == parts[..n];
    } else {
      assert parts[k := p][..n] == parts[..n][k := p];
      MeasureUpdate(parts[..n], k, p);
    }
  }

  /** A reconciliation of a list with a part in flight confirms it or takes it out of flight. */
  lemma ReconcileMakesProgress(e: Execution, found: set<string>, now: int, i: nat)
    requires Valid(e) && e.state == Pending && i < |e.parts| && InFlight(e.parts[i])
    ensures var after := AfterReconcile(e, found, now).parts;
      || Unconfirmed(after) < Unconfirmed(e.parts)
      || (Unconfirmed(after) == Unconfirmed(e.parts) && Flying(after) < Flying(e.parts))
  {
    MeasureUpdate(e.parts, i, ReconciledPart(e.parts[i], found, now));
    ReconcileReplacesOne(e.parts, i, found, now);
  }

  /** Claiming a part and seeing it accepted leaves one unconfirmed part fewer. */
  lemma AcceptedMakesProgress(e: Execution, now: int, later: int)
    requires Valid(e) && NextClaim(e, now).Taken?
    ensures Unconfirmed(AfterFinish(AfterClaim(e, now), NextClaim(e, now).claim, Accepted, later).parts)
            < Unconfirmed(e.parts)
  {
    ClaimIsNext(e, now);
    var c := NextClaim(e, now).claim;
    var claimed := AfterClaim(e, now);
    MeasureUpdate(e.parts, c.index, ClaimedPart(e.parts[c.index], now));
    MeasureUpdate(claimed.parts, c.index, FinishedPart(claimed.parts[c.index], Accepted, later));
  }
}
