/** The monotone decision taken for each event about one email, folded over any sequence
    of events interleaved with the steps of the worker that processes the email. */
module EmailEvents {
  import opened Wrappers

  datatype EmailStatus =
    | Ingested | Processing | RetryWait | ManualReview | WaitingApproval | NotifiedReadonly
    | SendQueued | Sending | Accepted | Sent | SendFailed | DeliveryFailed | SendUnknown
    | NoAction | Archived | Rejected | DraftSaved | Expired | Cancelled | DeadLetter

  datatype ChangeKind = Create | Update | Read | Delete

  datatype Reason =
    | FirstCreate | ProcessingResumed | MetadataEvent | DuplicateCreate | SourceTombstone
    | SourceDeleteCancelled | SourceDeleteRecorded | SourceDeletedPreserved

  datatype Decision = Decision(
    shouldProcess: bool, shouldCancel: bool, newStatus: EmailStatus,
    cancelPendingSideEffects: bool, createSeen: bool, reason: Reason)

  /** The two columns of `EMAIL_STATUS_TRANSITIONS`. */
  predicate CancelOnDelete(s: EmailStatus) {
    s in {Ingested, Processing, RetryWait, ManualReview, WaitingApproval, SendQueued}
  }

  predicate MayResumeProcessing(s: EmailStatus) {
    s in {Processing, RetryWait}
  }

  function Decide(current: Option<EmailStatus>, createSeen: bool, kind: ChangeKind,
                  ownerMatches: bool, effectsStarted: bool, sourceDeleted: bool): Decision
  {
    match current
    case None =>
      (match kind
       case Create => Decision(true, false, Processing, false, true, FirstCreate)
       case Update => Decision(false, false, Ingested, false, false, MetadataEvent)
       case Read => Decision(false, false, Ingested, false, false, MetadataEvent)
       case Delete => Decision(false, true, Cancelled, false, false, SourceTombstone))
    case Some(status) =>
      if sourceDeleted then
        Decision(false, false, status, false, createSeen, SourceDeletedPreserved)
      else match kind
        case Create =>
          if status == Ingested && !createSeen then
            Decision(true, false, Processing, false, true, FirstCreate)
          else if MayResumeProcessing(status) && createSeen && ownerMatches && !effectsStarted then
            Decision(true, false, Processing, false, true, ProcessingResumed)
          else
            Decision(false, false, status, false, createSeen, DuplicateCreate)
        case Update => Decision(false, false, status, false, createSeen, MetadataEvent)
        case Read => Decision(false, false, status, false, createSeen, MetadataEvent)
        case Delete =>
          if effectsStarted then
            Decision(false, false, status, false, createSeen, SourceDeleteRecorded)
          else if CancelOnDelete(status) then
            Decision(false, true, Cancelled, !(status == Ingested && !createSeen), createSeen, SourceDeleteCancelled)
          else
            Decision(false, false, status, false, createSeen, SourceDeleteRecorded)
  }

  /** The checks of `EmailEventDecision.__post_init__`. */
  predicate IsConsistent(d: Decision) {
    && !(d.shouldProcess && d.shouldCancel)
    && (d.cancelPendingSideEffects ==> d.shouldCancel)
    && (d.shouldProcess ==> d.newStatus == Processing && d.createSeen)
    && (d.shouldCancel ==> d.newStatus == Cancelled)
  }

  datatype Disposition =
    | CreatorElected | ResumedDisposition | MetadataShellCreated | TombstoneCreated | AggregateUpdated | AggregateNoop

  /** A row of the application manifest, without its last column, that has this
      disposition and matches the decision. */
  predicate InManifest(x: Disposition, d: Decision) {
    match x
    case CreatorElected =>
      d.reason == FirstCreate && d.newStatus == Processing && d.shouldProcess && !d.shouldCancel
      && !d.cancelPendingSideEffects && d.createSeen
    case ResumedDisposition =>
      d.reason == ProcessingResumed && d.newStatus == Processing && d.shouldProcess && !d.shouldCancel
      && !d.cancelPendingSideEffects && d.createSeen
    case MetadataShellCreated =>
      d.reason == MetadataEvent && d.newStatus == Ingested && !d.shouldProcess && !d.shouldCancel
      && !d.cancelPendingSideEffects && !d.createSeen
    case TombstoneCreated =>
      d.reason == SourceTombstone && d.newStatus == Cancelled && !d.shouldProcess && d.shouldCancel
      && !d.cancelPendingSideEffects && !d.createSeen
    case AggregateUpdated =>
      !d.shouldProcess &&
      ((d.reason == MetadataEvent && !d.shouldCancel && !d.cancelPendingSideEffects)
       || (d.reason == SourceDeleteCancelled && d.newStatus == Cancelled && d.shouldCancel
           && (d.createSeen ==> d.cancelPendingSideEffects))
       || (d.reason == SourceDeleteRecorded && !d.shouldCancel && !d.cancelPendingSideEffects))
    case AggregateNoop =>
      !d.shouldProcess && !d.shouldCancel && !d.cancelPendingSideEffects &&
      (d.reason == SourceDeletedPreserved || d.reason == MetadataEvent
       || (d.reason == DuplicateCreate && (d.createSeen || d.newStatus != Ingested)))
  }

  /** No input makes the decision fail its own validation or fall outside the manifest. */
  lemma DecisionsAreLegal(current: Option<EmailStatus>, createSeen: bool, kind: ChangeKind,
                          ownerMatches: bool, effectsStarted: bool, sourceDeleted: bool)
    ensures var d := Decide(current, createSeen, kind, ownerMatches, effectsStarted, sourceDeleted);
      IsConsistent(d) && exists x :: InManifest(x, d)
  {
    var d := Decide(current, createSeen, kind, ownerMatches, effectsStarted, sourceDeleted);
    var x := match d.reason
      case FirstCreate => CreatorElected
      case ProcessingResumed => ResumedDisposition
      case MetadataEvent => AggregateUpdated
      case DuplicateCreate => AggregateNoop
      case SourceTombstone => TombstoneCreated
      case SourceDeleteCancelled => AggregateUpdated
      case SourceDeleteRecorded => AggregateUpdated
      case SourceDeletedPreserved => AggregateNoop;
    assert InManifest(x, d);
  }

  // -------------------------------------------------------------------- runs

  /** The stored aggregate; `status` is None until the first event creates it. */
  datatype Aggregate = Aggregate(
    status: Option<EmailStatus>, createSeen: bool, effectsStarted: bool, sourceDeleted: bool)

  const NOTHING := Aggregate(None, false, false, false)

  /** A source event, or a step of the worker elected by a CREATE: it moves the status and
      starts external effects only while processing. */
  datatype Step =
    | Event(kind: ChangeKind, ownerMatches: bool)
    | Worker(status: EmailStatus, startsEffects: bool)

  function DecideOn(a: Aggregate, e: Step): Decision
    requires e.Event?
  {
    Decide(a.status, a.createSeen, e.kind, e.ownerMatches, a.effectsStarted, a.sourceDeleted)
  }

  function Apply(a: Aggregate, e: Step): Aggregate {
    match e
    case Event(kind, _) =>
      var d := DecideOn(a, e);
      Aggregate(Some(d.newStatus), d.createSeen, a.effectsStarted, a.sourceDeleted || kind == Delete)
    case Worker(status, startsEffects) =>
      if a.status.None? || !a.createSeen then a
      else a.(status := Some(status),
              effectsStarted := a.effectsStarted || (startsEffects && a.status == Some(Processing)))
  }

  function Fold(a: Aggregate, steps: seq<Step>): Aggregate
    decreases steps
  {
    if steps == [] then a else Fold(Apply(a, steps[0]), steps[1..])
  }

  /** What the callers act on, for each event in turn. */
  datatype Output = Output(shouldProcess: bool, shouldCancel: bool, cancelPendingSideEffects: bool)

  function OutputOf(d: Decision): Output {
    Output(d.shouldProcess, d.shouldCancel, d.cancelPendingSideEffects)
  }

  function Reasons(a: Aggregate, steps: seq<Step>): seq<Reason>
    decreases steps
  {
    if steps == [] then []
    else (if steps[0].Event? then [DecideOn(a, steps[0]).reason] else []) + Reasons(Apply(a, steps[0]), steps[1..])
  }

  predicate IsMetadata(e: Step) {
    e.Event? && e.kind in {Update, Read}
  }

  /** The outputs of the events that are not UPDATE or READ. */
  function Outputs(a: Aggregate, steps: seq<Step>): seq<Output>
    decreases steps
  {
    if steps == [] then []
    else
      (if steps[0].Event? && !IsMetadata(steps[0]) then [OutputOf(DecideOn(a, steps[0]))] else [])
      + Outputs(Apply(a, steps[0]), steps[1..])
  }

  function WithoutMetadata(steps: seq<Step>): seq<Step> {
    if steps == [] then []
    else (if IsMetadata(steps[0]) then [] else [steps[0]]) + WithoutMetadata(steps[1..])
  }

  function Count(reasons: seq<Reason>, r: Reason): nat {
    if reasons == [] then 0 else (if reasons[0] == r then 1 else 0) + Count(reasons[1..], r)
  }

  /** Aggregates that a run from `NOTHING` can reach. */
  predicate Reachable(a: Aggregate) {
    && (a.status.None? ==> a == NOTHING)
    && (!a.createSeen && a.status.Some? && !a.sourceDeleted ==> a.status == Some(Ingested))
    && (a.effectsStarted ==> a.createSeen)
  }

  lemma {:induction false} FirstCreateOnceFrom(a: Aggregate, steps: seq<Step>)
    requires Reachable(a)
    ensures Count(Reasons(a, steps), FirstCreate) <= (if a.createSeen || a.sourceDeleted then 0 else 1)
    decreases steps
  {
    if steps != [] {
      FirstCreateOnceFrom(Apply(a, steps[0]), steps[1..]);
      var tail := Reasons(Apply(a, steps[0]), steps[1..]);
      if steps[0].Event? {
        assert Reasons(a, steps)[1..] == tail;
      } else {
        assert Reasons(a, steps) == tail;
      }
    }
  }

  /** At most one event of any run is decided as the first CREATE. */
  lemma FirstCreateAtMostOnce(steps: seq<Step>)
    ensures Count(Reasons(NOTHING, steps), FirstCreate) <= 1
  {
    FirstCreateOnceFrom(NOTHING, steps);
  }

  lemma {:induction false} NothingProcessesOnceDeleted(a: Aggregate, steps: seq<Step>)
    requires a.sourceDeleted && a.status.Some?
    ensures forall i :: 0 <= i < |Outputs(a, steps)| ==> Outputs(a, steps)[i] == Output(false, false, false)
    ensures Fold(a, steps).sourceDeleted
    decreases steps
  {
    if steps != [] {
      NothingProcessesOnceDeleted(Apply(a, steps[0]), steps[1..]);
    }
  }

  lemma {:induction false} FoldAppend(a: Aggregate, before: seq<Step>, after: seq<Step>)
    ensures Fold(a, before + after) == Fold(Fold(a, before), after)
    decreases before
  {
    if before == [] {
      assert before + after == after;
    } else {
      assert (before + after)[1..] == before[1..] + after;
      FoldAppend(Apply(a, before[0]), before[1..], after);
    }
  }

  /** After a DELETE no event elects processing or cancels anything more. */
  lemma NothingProcessesAfterDelete(before: seq<Step>, ownerMatches: bool, after: seq<Step>)
    ensures var a := Fold(NOTHING, before + [Event(Delete, ownerMatches)]);
      forall i :: 0 <= i < |Outputs(a, after)| ==> Outputs(a, after)[i] == Output(false, false, false)
  {
    var e := [Event(Delete, ownerMatches)];
    FoldAppend(NOTHING, before, e);
    var a := Fold(NOTHING, before);
    assert Fold(a, e) == Fold(Apply(a, e[0]), e[1..]);
    NothingProcessesOnceDeleted(Fold(a, e), after);
  }

  /** Once external effects have started, no event elects processing again and none
      cancels: the effects are never repeated nor silently withdrawn. */
  lemma {:induction false} StartedEffectsStand(a: Aggregate, steps: seq<Step>)
    requires Reachable(a) && a.effectsStarted
    ensures forall i :: 0 <= i < |Outputs(a, steps)| ==> Outputs(a, steps)[i] == Output(false, false, false)
    decreases steps
  {
    if steps != [] {
      StartedEffectsStand(Apply(a, steps[0]), steps[1..]);
    }
  }

  lemma {:induction false} FoldReachable(a: Aggregate, steps: seq<Step>)
    requires Reachable(a)
    ensures Reachable(Fold(a, steps))
    decreases steps
  {
    if steps != [] {
      FoldReachable(Apply(a, steps[0]), steps[1..]);
    }
  }

  /** The same from the start of any run. */
  lemma EffectsNeitherRepeatedNorCancelled(before: seq<Step>, after: seq<Step>)
    requires Fold(NOTHING, before).effectsStarted
    ensures var a := Fold(NOTHING, before);
      forall i :: 0 <= i < |Outputs(a, after)| ==> Outputs(a, after)[i] == Output(false, false, false)
  {
    FoldReachable(NOTHING, before);
    StartedEffectsStand(Fold(NOTHING, before), after);
  }

  /** `b` is `a` with the metadata events left out: equal, or `a` is still the shell that
      metadata created and `b` nothing at all. */
  predicate SameWithoutMetadata(a: Aggregate, b: Aggregate) {
    || a == b
    || (a == Aggregate(Some(Ingested), false, false, false) && b == NOTHING)
  }

  predicate Decisive(steps: seq<Step>) {
    exists i :: 0 <= i < |steps| && steps[i].Event? && !IsMetadata(steps[i])
  }

  lemma {:induction false} ErasureFrom(a: Aggregate, b: Aggregate, steps: seq<Step>)
    requires Reachable(a) && SameWithoutMetadata(a, b)
    ensures Outputs(a, steps) == Outputs(b, WithoutMetadata(steps))
    ensures SameWithoutMetadata(Fold(a, steps), Fold(b, WithoutMetadata(steps)))
    ensures Decisive(steps) || (a == b && a.status.Some?) ==> Fold(a, steps) == Fold(b, WithoutMetadata(steps))
    decreases steps
  {
    if steps != [] {
      var e := steps[0];
      var rest := WithoutMetadata(steps[1..]);
      assert Reachable(Apply(a, e));
      if IsMetadata(e) {
        assert WithoutMetadata(steps) == rest;
        assert SameWithoutMetadata(Apply(a, e), b);
        ErasureFrom(Apply(a, e), b, steps[1..]);
      } else {
        assert WithoutMetadata(steps)[0] == e && WithoutMetadata(steps)[1..] == rest;
        assert SameWithoutMetadata(Apply(a, e), Apply(b, e));
        ErasureFrom(Apply(a, e), Apply(b, e), steps[1..]);
      }
      if Decisive(steps) && !(e.Event? && !IsMetadata(e)) {
        var i :| 0 <= i < |steps| && steps[i].Event? && !IsMetadata(steps[i]);
        assert steps[1..][i - 1] == steps[i];
      }
    }
  }

  /** UPDATE and READ events never matter: with them erased, the remaining events elect and
      cancel exactly as before, and once one has occurred the final aggregate is the same. */
  lemma MetadataIsInert(steps: seq<Step>)
    ensures Outputs(NOTHING, steps) == Outputs(NOTHING, WithoutMetadata(steps))
    ensures Decisive(steps) ==> Fold(NOTHING, steps) == Fold(NOTHING, WithoutMetadata(steps))
  {
    ErasureFrom(NOTHING, NOTHING, steps);
  }

  /** What metadata alone creates. */
  const SHELL := Aggregate(Some(Ingested), false, false, false)

  predicate HasMetadata(steps: seq<Step>) {
    exists i :: 0 <= i < |steps| && IsMetadata(steps[i])
  }

  lemma {:induction false} NothingToErase(steps: seq<Step>)
    requires !HasMetadata(steps)
    ensures WithoutMetadata(steps) == steps
  {
    if steps != [] {
      assert !IsMetadata(steps[0]);
      assert forall i :: 0 <= i < |steps[1..]| ==> !IsMetadata(steps[1..][i]) by {
        assert forall i :: 0 <= i < |steps[1..]| ==> steps[1..][i] == steps[i + 1];
      }
      NothingToErase(steps[1..]);
    }
  }

  /** Without a CREATE or DELETE no worker is elected: the aggregate is nothing, or the shell
      as soon as there was metadata. */
  lemma {:induction false} OnlyShells(a: Aggregate, steps: seq<Step>)
    requires !Decisive(steps) && a in {NOTHING, SHELL}
    ensures Fold(a, steps) == if HasMetadata(steps) then SHELL else a
    ensures Fold(NOTHING, WithoutMetadata(steps)) == NOTHING
    decreases steps
  {
    if steps != [] {
      var e, rest := steps[0], steps[1..];
      assert forall i :: 0 <= i < |rest| ==> rest[i] == steps[i + 1];
      assert IsMetadata(e) || e.Worker?;
      assert !Decisive(rest);
      OnlyShells(Apply(a, e), rest);
      assert HasMetadata(steps) <==> IsMetadata(e) || HasMetadata(rest);
      if !IsMetadata(e) {
        assert WithoutMetadata(steps)[0] == e && WithoutMetadata(steps)[1..] == WithoutMetadata(rest);
        assert Apply(NOTHING, e) == NOTHING;
      } else {
        assert WithoutMetadata(steps) == WithoutMetadata(rest);
      }
    }
  }

  /** Erasing UPDATE and READ events leaves the final aggregate the same exactly when a
      CREATE or DELETE has occurred or there was nothing to erase. */
  lemma ErasureIsExact(steps: seq<Step>)
    ensures Fold(NOTHING, steps) == Fold(NOTHING, WithoutMetadata(steps)) <==> Decisive(steps) || !HasMetadata(steps)
  {
    if Decisive(steps) {
      MetadataIsInert(steps);
    } else if HasMetadata(steps) {
      OnlyShells(NOTHING, steps);
    } else {
      NothingToErase(steps);
    }
  }
}
