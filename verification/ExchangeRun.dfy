/** The end of one email's processing run: delivering its card, marking it read, closing
    its handoff, and what the run then reports. */
module ExchangeRun {
  import opened Wrappers
  import opened EmailFeishuDelivery

  datatype Route = Reply | Forward | ReadOnly | NoAction | ManualReviewRoute

  datatype ProcessingOutcome = Processed | ManualReviewed | Failed

  class ExchangeService {
    const delivery: EmailFeishuDelivery
    /** How often the mailbox was asked to mark the email read. */
    var readRequests: nat

    constructor (delivery: EmailFeishuDelivery)
      ensures this.delivery == delivery && readRequests == 0
    {
      this.delivery, readRequests := delivery, 0;
    }

    /** Guarded, anything but success raises; otherwise failures are only logged. */
    method MarkEmailRead() returns (r: Flow<()>)
      modifies this`readRequests
      ensures readRequests <= old(readRequests) + 1
      ensures r.Raised? && !delivery.guarded ==> r.fault == Cancelled
    {
      var _ :- delivery.Authorize();
      readRequests := readRequests + 1;
      var answered := delivery.Await();
      var success: bool := *;
      if answered.Raised? && answered.fault == Cancelled {
        return Raised(Cancelled);
      }
      if delivery.guarded && (answered.Raised? || !success) {
        return Raised(AuthorityFault);
      }
      return Returned(());
    }

    method AdvanceCanonicalHandoff(expected: Handoff, next: Handoff) returns (r: Flow<()>)
      modifies delivery`handoff
      ensures r.Returned? && delivery.guarded ==> delivery.handoff == next
      ensures !delivery.guarded ==> r.Returned? && delivery.handoff == old(delivery.handoff)
    {
      if !delivery.guarded {
        return Returned(());
      }
      r := delivery.AdvanceHandoff(expected, next);
    }

    /** No outcome is the deliberate no-notification route, which sends no card. */
    method DeliverPipelineResult(route: Route, manual: bool, attachmentsRequested: bool,
                                 admitted: seq<bool>, pdf: PdfResult)
      returns (r: Flow<Option<Outcome>>)
      requires delivery.Valid()
      modifies delivery
      ensures delivery.Valid()
      ensures old(delivery.cards) <= delivery.cards && |delivery.cards| <= |old(delivery.cards)| + 1
      ensures |delivery.cards| > |old(delivery.cards)| && delivery.cards[|old(delivery.cards)|] != CardRejected ==>
        pdf.PdfFile? && delivery.StillShows(|old(delivery.cards)|, pdf.token)
      ensures r.Returned? && r.value.None? ==>
        && route == NoAction && !manual
        && delivery.cards == old(delivery.cards) && delivery.handoff == old(delivery.handoff)
      ensures r.Returned? && r.value.Some? ==>
        && delivery.Reports(old(delivery.cards), delivery.cards, r.value.value.disposition)
        && (r.value.value.disposition == KnownFailure ==> delivery.handoff == old(delivery.handoff))
        && match r.value.value.kind
           case ManualReview => manual
           case Approval => !manual && route in {Reply, Forward} && !attachmentsRequested
           case ReadNotification => !manual && route == ReadOnly
      ensures r.Raised? && !r.fault.SideEffectCommitted? && r.fault != Cancelled ==>
        && delivery.handoff == old(delivery.handoff)
        && (delivery.cards == old(delivery.cards) || delivery.cards == old(delivery.cards) + [CardRejected])
    {
      var _ :- delivery.Await();
      if manual {
        var sent := delivery.Deliver(ManualReview, admitted, pdf);
        return Wrapped(sent);
      }
      var _ :- delivery.Await();
      var _ :- delivery.Authorize();
      var labelled := delivery.Await();
      if labelled.Raised? {
        if labelled.fault == Cancelled {
          return Raised(Cancelled);
        }
        if delivery.guarded || labelled.fault == AuthorityFault {
          return Raised(AuthorityFault);
        }
      }
      match route
      case NoAction =>
        var _ :- delivery.Await();
        return Returned(None);
      case ManualReviewRoute =>
        return Raised(OtherFault);
      case ReadOnly =>
        var sent := delivery.Deliver(ReadNotification, admitted, pdf);
        return Wrapped(sent);
      case _ =>
        if attachmentsRequested {
          return Raised(OtherFault);
        }
        var sent := delivery.Deliver(Approval, admitted, pdf);
        return Wrapped(sent);
    }

    function Wrapped(sent: Flow<Outcome>): Flow<Option<Outcome>> {
      if sent.Returned? then Returned(Some(sent.value)) else Raised(sent.fault)
    }

    /** One run, from the finished draft on. It sends at most one card; an accepted card or
        one of unknown outcome is never reported as a failure; the email is marked read
        only after a no-action route or a confirmed approval or read-only card; and when a
        guarded run reports at all, the handoff is completed unless it reports failure,
        in which case the run left the handoff alone. */
    method RunAiPath(drafted: bool, route: Route, manual: bool, attachmentsRequested: bool,
                     admitted: seq<bool>, pdf: PdfResult)
      returns (r: Flow<ProcessingOutcome>)
      requires delivery.Valid()
      modifies this`readRequests, delivery
      ensures delivery.Valid()
      ensures old(delivery.cards) <= delivery.cards && |delivery.cards| <= |old(delivery.cards)| + 1
      ensures |delivery.cards| > |old(delivery.cards)| && delivery.cards[|old(delivery.cards)|] != CardRejected ==>
        pdf.PdfFile? && delivery.StillShows(|old(delivery.cards)|, pdf.token)
      ensures r == Returned(Failed) ==>
        delivery.cards == old(delivery.cards) || delivery.cards == old(delivery.cards) + [CardRejected]
      ensures r == Returned(Processed) ==>
        || (delivery.cards == old(delivery.cards) && route == NoAction && !manual)
        || (delivery.cards == old(delivery.cards) + [CardAccepted] && !manual)
      ensures r == Returned(ManualReviewed) ==>
        || delivery.cards == old(delivery.cards) + [CardUnknown]
        || (delivery.cards == old(delivery.cards) + [CardAccepted] && manual)
      ensures readRequests > old(readRequests) ==>
        && !manual && readRequests == old(readRequests) + 1
        && (|| (route == NoAction && delivery.cards == old(delivery.cards))
            || (route in {Reply, Forward, ReadOnly} && delivery.cards == old(delivery.cards) + [CardAccepted]))
      ensures delivery.guarded && r.Returned? ==>
        if r.value == Failed then delivery.handoff == old(delivery.handoff) else delivery.handoff == Completed
    {
      var ended := RunToEnd(drafted, route, manual, attachmentsRequested, admitted, pdf);
      if ended.Returned? {
        return ended;
      }
      match ended.fault
      case SideEffectCommitted(cause) => return Raised(cause);
      case Cancelled => return ended;
      case DatabaseFault => return ended;
      case AuthorityFault => return ended;
      case OtherFault =>
        if delivery.guarded {
          return Raised(AuthorityFault);
        }
        var _ :- delivery.Await();
        return Returned(Failed);
    }

    method RunToEnd(drafted: bool, route: Route, manual: bool, attachmentsRequested: bool,
                    admitted: seq<bool>, pdf: PdfResult)
      returns (r: Flow<ProcessingOutcome>)
      requires delivery.Valid()
      modifies this`readRequests, delivery
      ensures delivery.Valid()
      ensures old(delivery.cards) <= delivery.cards && |delivery.cards| <= |old(delivery.cards)| + 1
      ensures |delivery.cards| > |old(delivery.cards)| && delivery.cards[|old(delivery.cards)|] != CardRejected ==>
        pdf.PdfFile? && delivery.StillShows(|old(delivery.cards)|, pdf.token)
      ensures r == Returned(Failed) || (r == Raised(OtherFault) && !delivery.guarded) ==>
        delivery.cards == old(delivery.cards) || delivery.cards == old(delivery.cards) + [CardRejected]
      ensures r == Returned(Processed) ==>
        || (delivery.cards == old(delivery.cards) && route == NoAction && !manual)
        || (delivery.cards == old(delivery.cards) + [CardAccepted] && !manual)
      ensures r == Returned(ManualReviewed) ==>
        || delivery.cards == old(delivery.cards) + [CardUnknown]
        || (delivery.cards == old(delivery.cards) + [CardAccepted] && manual)
      ensures readRequests > old(readRequests) ==>
        && !manual && readRequests == old(readRequests) + 1
        && (|| (route == NoAction && delivery.cards == old(delivery.cards))
            || (route in {Reply, Forward, ReadOnly} && delivery.cards == old(delivery.cards) + [CardAccepted]))
      ensures delivery.guarded && r.Returned? ==>
        if r.value == Failed then delivery.handoff == old(delivery.handoff) else delivery.handoff == Completed
    {
      var _ :- delivery.Await();
      if !drafted {
        if delivery.guarded {
          return Raised(AuthorityFault);
        }
        var _ :- delivery.Await();
        return Returned(Failed);
      }
      var _ :- delivery.Await();
      var delivered :- DeliverPipelineResult(route, manual, attachmentsRequested, admitted, pdf);
      if delivered.None? {
        var _ :- MarkEmailRead();
        var _ :- AdvanceCanonicalHandoff(Planned, Completed);
        return Returned(Processed);
      }
      var outcome := delivered.value;
      if outcome.disposition == KnownFailure {
        return Returned(Failed);
      }
      if outcome.kind == ManualReview || outcome.disposition == Unknown {
        var _ :- AdvanceCanonicalHandoff(EffectCommitted, Completed);
        return Returned(ManualReviewed);
      }
      var _ :- MarkEmailRead();
      var _ :- AdvanceCanonicalHandoff(EffectCommitted, Completed);
      return Returned(Processed);
    }
  }
}
