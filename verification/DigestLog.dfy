/** The history of delivery attempts, and what a legal history excludes. */
module DigestLog {
  import opened DigestExecutions

  /** What a run records about part `index` of window `window`: a numbered attempt claimed
      at an instant, a rejection the chat reported of some attempt, a search that did not
      find the part's header, and a confirmation. */
  datatype Event =
    | Attempted(window: Window, index: nat, attempt: nat, at: int)
    | Refused(window: Window, index: nat, attempt: nat)
    | NotFound(window: Window, index: nat, search: Search)
    | Arrived(window: Window, index: nat)

  datatype Phase = Open | Flight(attempt: nat, since: int) | Done

  function NextPhase(e: Event): Phase {
    match e
    case Attempted(_, _, attempt, at) => Flight(attempt, at)
    case Refused(_, _, _) => Open
    case NotFound(_, _, _) => Open
    case Arrived(_, _) => Done
  }

  function PhaseOf(log: seq<Event>, w: Window, i: nat): Phase {
    if log == [] then Open
    else
      var e := log[|log| - 1];
      if e.window == w && e.index == i then NextPhase(e) else PhaseOf(log[..|log| - 1], w, i)
  }

  /** A part is attempted when it is open and all before it are done, and answered only
      while an attempt of it is in flight. */
  predicate Orderly(log: seq<Event>, e: Event) {
    if e.Attempted? then
      && PhaseOf(log, e.window, e.index) == Open
      && forall j :: 0 <= j < e.index ==> PhaseOf(log, e.window, j) == Done
    else PhaseOf(log, e.window, e.index).Flight?
  }

  /** Whether `e` settles that attempt `attempt`, claimed at `since`, did not arrive: a
      rejection of this very attempt, or a search that asked about it, begun `delay` after
      it, and found nothing. */
  predicate Settles(e: Event, attempt: nat, since: int, delay: int) {
    match e
    case Refused(_, _, refused) => refused == attempt
    case NotFound(_, i, search) => Attempt(i, attempt) in search.asked && since + delay <= search.askedAt
    case _ => false
  }

  /** What reopens a part settles the attempt in flight. */
  predicate Legal(log: seq<Event>, e: Event, delay: int) {
    && Orderly(log, e)
    && var phase := PhaseOf(log, e.window, e.index);
       e.Refused? || e.NotFound? ==> Settles(e, phase.attempt, phase.since, delay)
  }

  ghost predicate IsOrderly(log: seq<Event>) {
    forall k :: 0 <= k < |log| ==> Orderly(log[..k], log[k])
  }

  ghost predicate IsLegal(log: seq<Event>, delay: int) {
    forall k :: 0 <= k < |log| ==> Legal(log[..k], log[k], delay)
  }

  lemma LegalIsOrderly(log: seq<Event>, delay: int)
    requires IsLegal(log, delay)
    ensures IsOrderly(log)
  {
    forall k | 0 <= k < |log|
      ensures Orderly(log[..k], log[k])
    {
      assert Legal(log[..k], log[k], delay);
    }
  }

  lemma OrderlySnoc(log: seq<Event>, e: Event)
    requires IsOrderly(log) && Orderly(log, e)
    ensures IsOrderly(log + [e])
  {
    forall k | 0 <= k < |log + [e]|
      ensures Orderly((log + [e])[..k], (log + [e])[k])
    {
      assert (log + [e])[..k] == if k < |log| then log[..k] else log;
    }
  }

  lemma LegalSnoc(log: seq<Event>, e: Event, delay: int)
    requires IsLegal(log, delay) && Legal(log, e, delay)
    ensures IsLegal(log + [e], delay)
  {
    forall k | 0 <= k < |log + [e]|
      ensures Legal((log + [e])[..k], (log + [e])[k], delay)
    {
      if k < |log| {
        assert (log + [e])[..k] == log[..k];
      } else {
        assert (log + [e])[..k] == log;
      }
    }
  }

  lemma PhaseSnoc(log: seq<Event>, e: Event, w: Window, i: nat)
    ensures PhaseOf(log + [e], w, i) == if e.window == w && e.index == i then NextPhase(e) else PhaseOf(log, w, i)
  {
    assert (log + [e])[..|log|] == log;
  }

  lemma {:induction false} DoneHasArrived(log: seq<Event>, w: Window, i: nat)
    requires PhaseOf(log, w, i) == Done
    ensures exists k :: 0 <= k < |log| && log[k] == Arrived(w, i)
  {
    var n := |log| - 1;
    if log[n] != Arrived(w, i) {
      DoneHasArrived(log[..n], w, i);
      var k :| 0 <= k < n && log[..n][k] == Arrived(w, i);
      assert log[k] == Arrived(w, i);
    }
  }

  /** Part i + 1 is never claimed before part i, and every earlier one, is confirmed. */
  lemma ClaimedInOrder(log: seq<Event>, k: nat, j: nat)
    requires IsOrderly(log) && k < |log| && log[k].Attempted? && j < log[k].index
    ensures exists q :: 0 <= q < k && log[q] == Arrived(log[k].window, j)
  {
    var w := log[k].window;
    assert Orderly(log[..k], log[k]);
    assert PhaseOf(log[..k], w, j) == Done;
    DoneHasArrived(log[..k], w, j);
    var q :| 0 <= q < k && log[..k][q] == Arrived(w, j);
    assert log[q] == Arrived(w, j);
  }

  lemma {:induction false} DoneForever(log: seq<Event>, p: nat, q: nat)
    requires IsOrderly(log) && p < q <= |log| && log[p].Arrived?
    ensures PhaseOf(log[..q], log[p].window, log[p].index) == Done
    decreases q
  {
    var n := q - 1;
    assert log[..q][..n] == log[..n];
    if n > p {
      DoneForever(log, p, n);
      assert Orderly(log[..n], log[n]);
    }
  }

  /** A confirmed part is never claimed again. */
  lemma ConfirmedNeverReclaimed(log: seq<Event>, p: nat, q: nat)
    requires IsOrderly(log) && p < q < |log| && log[p].Arrived?
    ensures !(log[q].Attempted? && log[q].window == log[p].window && log[q].index == log[p].index)
  {
    DoneForever(log, p, q);
    assert Orderly(log[..q], log[q]);
  }

  /** Whether `e` allows another attempt after `first`. */
  predicate Reopens(e: Event, first: Event, delay: int)
    requires first.Attempted?
  {
    e.window == first.window && e.index == first.index && Settles(e, first.attempt, first.at, delay)
  }

  lemma {:induction false} StaysTaken(log: seq<Event>, delay: int, p: nat, q: nat)
    requires IsLegal(log, delay) && p < q <= |log| && log[p].Attempted?
    requires forall k :: p < k < q ==> !Reopens(log[k], log[p], delay)
    ensures PhaseOf(log[..q], log[p].window, log[p].index) in {Flight(log[p].attempt, log[p].at), Done}
    decreases q
  {
    var n := q - 1;
    assert log[..q][..n] == log[..n];
    if n > p {
      StaysTaken(log, delay, p, n);
      assert Legal(log[..n], log[n], delay);
      assert !Reopens(log[n], log[p], delay);
    }
  }

  /** Between two claims of one part the first is settled: a known rejection of it, or a
      search for it, begun at least the delay after it, that did not find the header. */
  lemma ReclaimedOnlyAfter(log: seq<Event>, delay: int, p: nat, q: nat)
    requires IsLegal(log, delay) && p < q < |log| && log[p].Attempted? && log[q].Attempted?
    requires log[q].window == log[p].window && log[q].index == log[p].index
    ensures exists k :: p < k < q && Reopens(log[k], log[p], delay)
  {
    if forall k :: p < k < q ==> !Reopens(log[k], log[p], delay) {
      assert Legal(log[..q], log[q], delay);
      StaysTaken(log, delay, p, q);
    }
  }

  /** Order: a claim follows the confirmation of every earlier part, and none follows the
      confirmation of its own. */
  ghost predicate IsOrdered(log: seq<Event>) {
    && (forall k, j: nat :: 0 <= k < |log| && log[k].Attempted? && j < log[k].index ==>
          Arrived(log[k].window, j) in log[..k])
    && (forall p, q :: 0 <= p < q < |log| && log[p].Arrived? && log[q].Attempted? ==>
          log[q].window != log[p].window || log[q].index != log[p].index)
  }

  /** Spacing: of two claims of one part, the first was settled before the second. */
  ghost predicate IsSpaced(log: seq<Event>, delay: int) {
    forall p, q ::
      && 0 <= p < q < |log| && log[p].Attempted? && log[q].Attempted?
      && log[q].window == log[p].window && log[q].index == log[p].index ==>
      exists k :: p < k < q && Reopens(log[k], log[p], delay)
  }

  lemma OrderlyHistory(log: seq<Event>)
    requires IsOrderly(log)
    ensures IsOrdered(log)
  {
    forall k, j: nat | 0 <= k < |log| && log[k].Attempted? && j < log[k].index
      ensures Arrived(log[k].window, j) in log[..k]
    {
      ClaimedInOrder(log, k, j);
      var q :| 0 <= q < k && log[q] == Arrived(log[k].window, j);
      assert log[..k][q] == Arrived(log[k].window, j);
    }
    forall p, q | 0 <= p < q < |log| && log[p].Arrived? && log[q].Attempted?
      ensures log[q].window != log[p].window || log[q].index != log[p].index
    {
      ConfirmedNeverReclaimed(log, p, q);
    }
  }

  /** What a legal history says of all its claims together. */
  lemma LegalHistory(log: seq<Event>, delay: int)
    requires IsLegal(log, delay)
    ensures IsOrdered(log) && IsSpaced(log, delay)
  {
    LegalIsOrderly(log, delay);
    OrderlyHistory(log);
    forall p, q | 0 <= p < q < |log| && log[p].Attempted? && log[q].Attempted?
                  && log[q].window == log[p].window && log[q].index == log[p].index
      ensures exists k :: p < k < q && Reopens(log[k], log[p], delay)
    {
      ReclaimedOnlyAfter(log, delay, p, q);
    }
  }
}
