/** Delivering one card for an email: the bounded checkpoint of remote file handles, the
    three-valued card outcome, and what survives when any call along the way fails. */
module EmailFeishuDelivery {
  import opened Wrappers
  import opened StateFactory
  import opened Utf8

  /** What can come out of an awaited call instead of a value. */
  datatype Fault =
    | Cancelled
    | DatabaseFault
    | AuthorityFault
    | OtherFault
    | SideEffectCommitted(cause: Fault)

  datatype Flow<+T> = Returned(value: T) | Raised(fault: Fault) {
    predicate IsFailure() {
      Raised?
    }

    function PropagateFailure<U>(): Flow<U>
      requires IsFailure()
    {
      Raised(fault)
    }

    function Extract(): T
      requires !IsFailure()
    {
      value
    }
  }

  datatype Kind = Approval | ReadNotification | ManualReview

  datatype Disposition = Confirmed | KnownFailure | Unknown

  datatype Outcome = Outcome(kind: Kind, disposition: Disposition, pdfToken: Option<string>)

  /** The chat's answer to one card: accepted, refused, or no usable answer. */
  datatype CardAnswer = CardAccepted | CardRejected | CardUnknown

  datatype Handoff = Planned | EffectCommitted | Completed | HandoffFailed

  datatype Checkpoint = Checkpoint(pdfToken: Option<string>, tokens: seq<string>)

  datatype PdfUpdate = Keep | Set(token: Option<string>)

  /** What PDF generation hands back: a file, an outcome to reconcile, or nothing usable. */
  datatype PdfResult =
    | PdfFile(token: Option<string>, url: Option<string>)
    | PdfFlow(cleanupTokens: seq<string>, protectedTokens: seq<string>)
    | PdfUnusable

  datatype StageError =
    | NoError
    | ReconciliationRequired
    | CleanupUntracked
    | GenerationFailed
    | StateUnavailable
    | ReplacementCapacityExhausted
    | StateWriteUnconfirmed
    | StateWriteFailed

  datatype PdfStage = PdfStage(ready: bool, oldToken: Option<string>, newToken: Option<string>, error: StageError)

  const MAX_URL_BYTES := 2048

  predicate IsHandle(t: Option<string>) {
    t.Some? && t.value != ""
  }

  function Handles(pdfToken: Option<string>, tokens: seq<string>): set<string> {
    (set t | t in tokens && t != "") + if IsHandle(pdfToken) then {pdfToken.value} else {}
  }

  function Without(tokens: seq<string>, token: string): (r: seq<string>)
    ensures |r| <= |tokens|
    ensures forall t :: t in r <==> t in tokens && t != token
  {
    if tokens == [] then []
    else if tokens[0] == token then Without(tokens[1..], token)
    else [tokens[0]] + Without(tokens[1..], token)
  }

  class EmailFeishuDelivery {
    const guarded: bool
    /** The checkpoint. */
    var pdfToken: Option<string>
    var attachmentTokens: seq<string>
    var handoff: Handoff
    /** Handles that were ever tracked; those whose remote delete returned true; every
        delete attempted; every handle an upload returned; every card answer. */
    ghost var ever: set<string>
    ghost var deleted: set<string>
    ghost var attempted: seq<string>
    ghost var uploaded: set<string>
    ghost var cards: seq<CardAnswer>
    /** For each card, how many deletes had been attempted when it was sent. */
    ghost var sentAfter: seq<nat>

    ghost function Tracked(): set<string>
      reads this
    {
      Handles(pdfToken, attachmentTokens)
    }

    /** A handle once tracked stays tracked until its remote delete returned true. */
    ghost predicate Valid()
      reads this
    {
      && |attachmentTokens| <= MAX_TOKENS
      && Tracked() <= ever
      && ever <= Tracked() + deleted
      && |sentAfter| == |cards|
      && forall k :: 0 <= k < |sentAfter| ==> sentAfter[k] <= |attempted|
    }

    /** Since card `k` was sent, its PDF is the active one and no delete of it was attempted. */
    ghost predicate StillShows(k: nat, token: Option<string>)
      requires Valid() && k < |cards|
      reads this
    {
      token.Some? && pdfToken == token && token.value !in attempted[sentAfter[k]..]
    }

    constructor (guarded: bool, stored: Checkpoint, handoff: Handoff)
      requires |stored.tokens| <= MAX_TOKENS
      ensures Valid() && this.guarded == guarded && this.handoff == handoff
      ensures pdfToken == stored.pdfToken && attachmentTokens == stored.tokens && cards == []
    {
      this.guarded, this.handoff := guarded, handoff;
      pdfToken, attachmentTokens := stored.pdfToken, stored.tokens;
      ever := Handles(stored.pdfToken, stored.tokens);
      deleted, attempted, uploaded, cards, sentAfter := {}, [], {}, [], [];
    }

    // ------------------------------------------------------------- the world

    /** Any awaited call may be cancelled or raise. */
    method Await() returns (r: Flow<()>)
    {
      var f: Fault := *;
      if * {
        return Returned(());
      }
      return Raised(f);
    }

    method Authorize() returns (r: Flow<()>)
      ensures !guarded ==> r.Returned?
    {
      if !guarded {
        return Returned(());
      }
      r := Await();
    }

    /** A read raises, yields something that is not a state, or yields the state. */
    method ReadState() returns (r: Flow<Option<Checkpoint>>)
      ensures r.Returned? && r.value.Some? ==> r.value.value == Checkpoint(pdfToken, attachmentTokens)
    {
      var _ :- Await();
      if * {
        return Returned(None);
      }
      return Returned(Some(Checkpoint(pdfToken, attachmentTokens)));
    }

    /** Sanitises and writes. Sanitising refuses before anything is written; the write may
        land or not, whatever is reported. */
    method UpdateState(pdf: PdfUpdate, tokens: seq<string>) returns (r: Flow<()>)
      requires Valid()
      requires Tracked() <= Handles(if pdf.Keep? then pdfToken else pdf.token, tokens) + deleted
      modifies this`pdfToken, this`attachmentTokens, this`ever
      ensures Valid() && old(ever) <= ever
      ensures
        || (pdfToken == old(pdfToken) && attachmentTokens == old(attachmentTokens))
        || (pdfToken == (if pdf.Keep? then old(pdfToken) else pdf.token) && attachmentTokens == tokens)
    {
      if SanitizedTokens(tokens).ValueError? {
        return Raised(OtherFault);
      }
      if pdf.Set? && pdf.token.Some? && !IsIdentifier(pdf.token.value, MAX_ID_BYTES) {
        return Raised(OtherFault);
      }
      if * {
        pdfToken := if pdf.Keep? then pdfToken else pdf.token;
        attachmentTokens := tokens;
        ever := ever + Tracked();
      }
      r := Await();
    }

    /** The remote delete. It may be attempted only on a handle recorded for cleanup. */
    method DeleteFile(token: string) returns (r: Flow<bool>)
      requires Valid() && token in attachmentTokens
      modifies this`deleted, this`attempted
      ensures Valid() && attempted == old(attempted) + [token]
      ensures deleted == if r == Returned(true) then old(deleted) + {token} else old(deleted)
    {
      attempted := attempted + [token];
      var _ :- Await();
      var confirmed: bool := *;
      if confirmed {
        deleted := deleted + {token};
      }
      return Returned(confirmed);
    }

    method AdvanceEffectCommitted() returns (r: Flow<()>)
      modifies this`handoff
      ensures r.Returned? && guarded ==> handoff == EffectCommitted
      ensures !guarded ==> handoff == old(handoff)
    {
      if !guarded {
        return Returned(());
      }
      r := AdvanceHandoff(Planned, EffectCommitted);
    }

    /** A compare-and-set on the handoff row. A statement that raises may have taken effect. */
    method AdvanceHandoff(expected: Handoff, next: Handoff) returns (r: Flow<()>)
      modifies this`handoff
      ensures r.Returned? ==> old(handoff) == expected && handoff == next
      ensures handoff == old(handoff) || (old(handoff) == expected && handoff == next)
    {
      var early := Await();
      if early.Raised? {
        return Raised(early.fault);
      }
      if handoff != expected {
        return Raised(DatabaseFault);
      }
      handoff := next;
      r := Await();
    }

    // ------------------------------------------------------- cleanup handles

    /** Persists one handle; true only when the handle is recorded. Only a cancellation
        escapes. */
    method RetainCleanupToken(token: string) returns (r: Flow<bool>)
      requires Valid()
      modifies this`pdfToken, this`attachmentTokens, this`ever
      ensures Valid() && pdfToken == old(pdfToken) && old(ever) <= ever
      ensures old(attachmentTokens) <= attachmentTokens <= old(attachmentTokens) + [token]
      ensures r == Returned(true) ==> token in attachmentTokens
      ensures r.Raised? ==> r.fault == Cancelled
    {
      var inner := TryRetain(token);
      if inner.Raised? && inner.fault != Cancelled {
        return Returned(false);
      }
      return inner;
    }

    method TryRetain(token: string) returns (r: Flow<bool>)
      requires Valid()
      modifies this`pdfToken, this`attachmentTokens, this`ever
      ensures Valid() && pdfToken == old(pdfToken) && old(ever) <= ever
      ensures old(attachmentTokens) <= attachmentTokens <= old(attachmentTokens) + [token]
      ensures r == Returned(true) ==> token in attachmentTokens
    {
      var values :- ReadState();
      if values.None? {
        return Returned(false);
      }
      var tokens := values.value.tokens;
      if token in tokens {
        return Returned(true);
      }
      if |tokens| >= MAX_TOKENS {
        return Returned(false);
      }
      var _ :- UpdateState(Keep, tokens + [token]);
      var confirmed :- ReadState();
      return Returned(confirmed.Some? && token in confirmed.value.tokens);
    }

    /** Forgets a handle whose remote file is gone. */
    method RemoveCleanupToken(token: string) returns (r: Flow<()>)
      requires Valid() && token in deleted
      modifies this`pdfToken, this`attachmentTokens, this`ever
      ensures Valid() && pdfToken == old(pdfToken) && old(ever) <= ever
      ensures forall t :: t in old(attachmentTokens) && t != token ==> t in attachmentTokens
      ensures attachmentTokens == old(attachmentTokens) || attachmentTokens == Without(old(attachmentTokens), token)
    {
      var values :- ReadState();
      if values.None? {
        return Returned(());
      }
      var tokens := Without(values.value.tokens, token);
      if tokens == values.value.tokens {
        return Returned(());
      }
      r := UpdateState(Keep, tokens);
    }

    /** Records the handle, then deletes the file, then forgets the handle. True exactly
        when the handle was recorded: it is deleted or still there to retry. */
    method DeleteOrRetainToken(token: string) returns (r: Flow<bool>)
      requires Valid() && token != ""
      modifies this`pdfToken, this`attachmentTokens, this`ever, this`deleted, this`attempted
      ensures Valid() && pdfToken == old(pdfToken) && old(ever) <= ever && old(deleted) <= deleted
      ensures r == Returned(true) ==> token in ever
      ensures r == Returned(false) ==> attempted == old(attempted)
      ensures attempted == old(attempted) || attempted == old(attempted) + [token]
      ensures forall t :: t in old(attachmentTokens) && t != token ==> t in attachmentTokens
    {
      var retained :- RetainCleanupToken(token);
      if !retained {
        return Returned(false);
      }
      var _ :- Authorize();
      var outcome := DeleteFile(token);
      if outcome.Raised? && outcome.fault == Cancelled {
        return Raised(Cancelled);
      }
      if outcome == Returned(true) {
        var _ :- RemoveCleanupToken(token);
      }
      return Returned(true);
    }

    /** Moves an unsent PDF from active to cleanup, then deletes it. */
    method RetireUnpublishedPdf(token: string) returns (r: Flow<bool>)
      requires Valid() && token != ""
      modifies this`pdfToken, this`attachmentTokens, this`ever, this`deleted, this`attempted
      ensures Valid() && old(ever) <= ever && old(deleted) <= deleted && old(attempted) <= attempted
      ensures pdfToken == old(pdfToken) || (old(pdfToken) == Some(token) && pdfToken == None)
      ensures r == Returned(true) ==> token in ever
    {
      var values :- ReadState();
      if values.None? {
        return Returned(false);
      }
      var tokens := values.value.tokens;
      if token !in tokens {
        if |tokens| >= MAX_TOKENS {
          return Returned(false);
        }
        tokens := tokens + [token];
      }
      var pdf := if values.value.pdfToken == Some(token) then Set(None) else Keep;
      var _ :- UpdateState(pdf, tokens);
      r := DeleteOrRetainToken(token);
    }

    /** Retires the PDF that a confirmed card has replaced, and no other. */
    method DeleteReplacedPdf(oldToken: Option<string>, newToken: string) returns (r: Flow<bool>)
      requires Valid() && (oldToken.Some? ==> oldToken.value != "")
      modifies this`pdfToken, this`attachmentTokens, this`ever, this`deleted, this`attempted
      ensures Valid() && pdfToken == old(pdfToken) && old(ever) <= ever && old(deleted) <= deleted
      ensures old(attempted) <= attempted && newToken !in attempted[|old(attempted)|..]
    {
      if oldToken.None? || oldToken.value == newToken {
        return Returned(true);
      }
      r := DeleteOrRetainToken(oldToken.value);
    }

    // ------------------------------------------------------------ PDF staging

    /** Makes a new PDF active and protects its predecessor. A ready stage means both are
        recorded; a capacity or write error that claims cleanup means the new handle is. */
    method StageReviewPdf(pdf: PdfResult) returns (r: Flow<PdfStage>)
      requires Valid()
      modifies this`pdfToken, this`attachmentTokens, this`ever, this`deleted, this`attempted
      ensures Valid() && old(ever) <= ever && old(deleted) <= deleted && old(attempted) <= attempted
      ensures r.Returned? ==> (r.value.ready <==> r.value.error == NoError)
      ensures r.Returned? && r.value.ready ==>
        && pdf.PdfFile? && r.value.newToken == pdf.token && IsHandle(pdf.token) && pdfToken == pdf.token
        && (r.value.oldToken.None? || r.value.oldToken == pdf.token || r.value.oldToken.value in attachmentTokens)
      ensures r.Returned? && r.value.oldToken.Some? ==> r.value.oldToken.value != ""
      ensures r.Returned? && r.value.newToken.Some? ==>
        IsHandle(r.value.newToken) && pdf.PdfFile? && r.value.newToken == pdf.token
      ensures r.Returned? && r.value.error in {ReplacementCapacityExhausted, StateWriteFailed} ==>
        pdf.PdfFile? && IsHandle(pdf.token) && pdf.token.value in ever
      ensures r.Returned? && r.value.error == ReconciliationRequired ==>
        pdf.PdfFlow? && forall t :: t in pdf.cleanupTokens && t != "" ==> t in ever
    {
      match pdf
      case PdfFlow(cleanup, protected) =>
        r := ReconcilePdfFlow(cleanup, protected);
      case PdfUnusable =>
        return Returned(NotReady(GenerationFailed));
      case PdfFile(token, url) =>
        var validToken := IsHandle(token) && Size(token.value) <= MAX_ID_BYTES;
        var validUrl := IsHandle(url) && Size(url.value) <= MAX_URL_BYTES;
        if !validToken || !validUrl {
          if IsHandle(token) {
            var _ :- DeleteOrRetainToken(token.value);
          }
          return Returned(NotReady(GenerationFailed));
        }
        var stage, oldToken := TryStage(token.value);
        if stage.Returned? || stage.fault == Cancelled {
          return stage;
        }
        r := RecoverStage(token.value, oldToken);
    }

    function NotReady(error: StageError): PdfStage {
      PdfStage(false, None, None, error)
    }

    method ReconcilePdfFlow(cleanup: seq<string>, protected: seq<string>) returns (r: Flow<PdfStage>)
      requires Valid()
      modifies this`pdfToken, this`attachmentTokens, this`ever
      ensures Valid() && pdfToken == old(pdfToken) && old(ever) <= ever
      ensures r.Returned? ==> r.value in {NotReady(ReconciliationRequired), NotReady(CleanupUntracked)}
      ensures r == Returned(NotReady(ReconciliationRequired)) ==> forall t :: t in cleanup && t != "" ==> t in ever
    {
      var tracked := true;
      for i := 0 to |cleanup|
        invariant Valid() && pdfToken == old(pdfToken) && old(ever) <= ever
        invariant tracked ==> forall k :: 0 <= k < i && cleanup[k] != "" ==> cleanup[k] in ever
      {
        var retained :- RetainCleanupToken(cleanup[i]);
        tracked := retained && tracked;
      }
      if protected != [] {
        var values := ReadState();
        if values.Raised? && values.fault == Cancelled {
          return Raised(Cancelled);
        }
        tracked := tracked && values.Returned? && values.value.Some?
          && forall t :: t in protected ==> t in values.value.value.tokens || values.value.value.pdfToken == Some(t);
      }
      return Returned(NotReady(if tracked then ReconciliationRequired else CleanupUntracked));
    }

    method TryStage(token: string) returns (r: Flow<PdfStage>, oldToken: Option<string>)
      requires Valid() && token != ""
      modifies this`pdfToken, this`attachmentTokens, this`ever, this`deleted, this`attempted
      ensures Valid() && old(ever) <= ever && old(deleted) <= deleted && old(attempted) <= attempted
      ensures oldToken.Some? ==> oldToken.value != ""
      ensures r.Returned? ==>
        var stage := r.value;
        && (stage.ready <==> stage.error == NoError)
        && (stage.newToken.Some? ==> stage.newToken == Some(token))
        && (stage.oldToken.Some? ==> stage.oldToken == oldToken)
        && (stage.ready ==> stage.newToken == Some(token) && pdfToken == Some(token)
                            && (oldToken.None? || oldToken == Some(token) || oldToken.value in attachmentTokens))
        && (stage.ready ==> stage.oldToken == oldToken)
        && (stage.error == ReplacementCapacityExhausted ==> token in ever)
        && stage.error !in {StateWriteFailed, ReconciliationRequired}
    {
      oldToken := None;
      var read := ReadState();
      if read.Raised? {
        return Raised(read.fault), None;
      }
      if read.value.None? {
        return Returned(NotReady(StateUnavailable)), None;
      }
      var state := read.value.value;
      oldToken := if IsHandle(state.pdfToken) then state.pdfToken else None;
      var cleanup := Without(state.tokens, token);
      if oldToken.Some? && oldToken.value != token && oldToken.value !in cleanup {
        if |cleanup| >= MAX_TOKENS {
          var retained := DeleteOrRetainToken(token);
          if retained.Raised? {
            return Raised(retained.fault), oldToken;
          }
          return Returned(NotReady(if retained.value then ReplacementCapacityExhausted else CleanupUntracked)),
                 oldToken;
        }
        cleanup := cleanup + [oldToken.value];
      }
      var written := UpdateState(Set(Some(token)), cleanup);
      if written.Raised? {
        return Raised(written.fault), oldToken;
      }
      var confirmed := ReadState();
      if confirmed.Raised? {
        return Raised(confirmed.fault), oldToken;
      }
      if confirmed.value.Some? && confirmed.value.value.pdfToken == Some(token)
         && token !in confirmed.value.value.tokens
         && (oldToken.None? || oldToken == Some(token) || oldToken.value in confirmed.value.value.tokens) {
        return Returned(PdfStage(true, oldToken, Some(token), NoError)), oldToken;
      }
      return Returned(PdfStage(false, None, Some(token), StateWriteUnconfirmed)), oldToken;
    }

    /** After a fault while staging: look at what landed, and clean up what did not. */
    method RecoverStage(token: string, oldToken: Option<string>) returns (r: Flow<PdfStage>)
      requires Valid() && token != "" && (oldToken.Some? ==> oldToken.value != "")
      modifies this`pdfToken, this`attachmentTokens, this`ever, this`deleted, this`attempted
      ensures Valid() && old(ever) <= ever && old(deleted) <= deleted && old(attempted) <= attempted
      ensures r.Returned? ==>
        var stage := r.value;
        && (stage.ready <==> stage.error == NoError)
        && (stage.newToken.Some? ==> stage.newToken == Some(token))
        && (stage.oldToken.Some? ==> stage.oldToken == oldToken)
        && (stage.ready ==> stage.newToken == Some(token) && pdfToken == Some(token)
                            && (oldToken.None? || oldToken == Some(token) || oldToken.value in attachmentTokens))
        && (stage.ready ==> stage.oldToken == oldToken)
        && (stage.error == StateWriteFailed ==> token in ever)
        && stage.error !in {ReplacementCapacityExhausted, ReconciliationRequired}
    {
      var current := ReadState();
      if current.Raised? && current.fault == Cancelled {
        return Raised(Cancelled);
      }
      var active, tokens := None, [];
      if current.Returned? && current.value.Some? {
        active, tokens := current.value.value.pdfToken, current.value.value.tokens;
      }
      if active == Some(token) && (oldToken.None? || oldToken == Some(token) || oldToken.value in tokens) {
        return Returned(PdfStage(true, oldToken, Some(token), NoError));
      }
      if active == Some(token) {
        return Returned(PdfStage(false, None, Some(token), StateWriteUnconfirmed));
      }
      var retained :- DeleteOrRetainToken(token);
      return Returned(NotReady(if retained then StateWriteFailed else CleanupUntracked));
    }

    // ------------------------------------------------------------ attachments

    /** Uploads the admitted attachments. A normal return means every handle an upload
        returned was recorded, so it is tracked still or deleted. */
    method UploadBusinessAttachments(kind: Kind, admitted: seq<bool>) returns (r: Flow<seq<string>>)
      requires Valid()
      modifies this`pdfToken, this`attachmentTokens, this`ever, this`deleted, this`attempted, this`uploaded
      ensures Valid() && pdfToken == old(pdfToken) && old(ever) <= ever && old(attempted) <= attempted
      ensures r.Returned? ==> uploaded - old(uploaded) <= ever
      ensures r.Returned? ==> forall t :: t in r.value ==> t != "" && t in ever
      ensures kind == ManualReview ==> r == Returned([]) && attempted == old(attempted)
    {
      if kind == ManualReview {
        return Returned([]);
      }
      var tokens: seq<string> := [];
      for i := 0 to |admitted|
        invariant Valid() && pdfToken == old(pdfToken) && old(ever) <= ever && old(attempted) <= attempted
        invariant uploaded - old(uploaded) <= ever
        invariant forall t :: t in tokens ==> t != "" && t in ever
      {
        if !admitted[i] {
          continue;
        }
        var _ :- Authorize();
        var token :- UploadFile();
        if !IsHandle(token) {
          continue;
        }
        var retained :- RetainCleanupToken(token.value);
        if !retained {
          var recorded :- DeleteOrRetainToken(token.value);
          if !recorded {
            return Raised(OtherFault);
          }
          continue;
        }
        if token.value !in tokens {
          tokens := tokens + [token.value];
        }
      }
      return Returned(tokens);
    }

    /** An upload is cancelled, fails or answers without a handle, or returns one. */
    method UploadFile() returns (r: Flow<Option<string>>)
      modifies this`uploaded
      ensures r.Raised? ==> r.fault == Cancelled && uploaded == old(uploaded)
      ensures r.Returned? ==> uploaded == old(uploaded) + if IsHandle(r.value) then {r.value.value} else {}
    {
      var sent := Await();
      if sent.Raised? {
        if sent.fault == Cancelled {
          return Raised(Cancelled);
        }
        return Returned(None);
      }
      var token: string := *;
      if token != "" {
        uploaded := uploaded + {token};
      }
      return Returned(Some(token));
    }

    // --------------------------------------------------------------- delivery

    method RecordKnownFailure(pdf: Option<string>, attachments: seq<string>) returns (r: Flow<()>)
      requires Valid() && (pdf.Some? ==> pdf.value != "")
      requires forall t :: t in attachments ==> t != ""
      modifies this`pdfToken, this`attachmentTokens, this`ever, this`deleted, this`attempted
      ensures Valid() && old(ever) <= ever && old(attempted) <= attempted
      ensures r.Returned? && guarded ==>
        (pdf.Some? ==> pdf.value in ever) && forall t :: t in attachments ==> t in ever
    {
      var _ :- Await();
      if pdf.Some? {
        var retained :- RetireUnpublishedPdf(pdf.value);
        if guarded && !retained {
          return Raised(OtherFault);
        }
      }
      for i := 0 to |attachments|
        invariant Valid() && old(ever) <= ever && old(attempted) <= attempted
        invariant guarded && pdf.Some? ==> pdf.value in ever
        invariant guarded ==> forall k :: 0 <= k < i ==> attachments[k] in ever
      {
        assert attachments[i] in attachments;
        var retained :- DeleteOrRetainToken(attachments[i]);
        if guarded && !retained {
          return Raised(OtherFault);
        }
      }
      return Returned(());
    }

    /** Sends the card once. A transport fault leaves its outcome unknown; so does a
        cancellation, which is also raised. */
    method SendCard() returns (r: Flow<CardAnswer>)
      requires Valid()
      modifies this`cards, this`sentAfter
      ensures Valid() && sentAfter == old(sentAfter) + [|attempted|]
      ensures r.Returned? ==> cards == old(cards) + [r.value]
      ensures r.Raised? ==> r.fault == Cancelled && cards == old(cards) + [CardUnknown]
    {
      sentAfter := sentAfter + [|attempted|];
      var sent := Await();
      var answer: CardAnswer := *;
      if sent.Raised? {
        cards := cards + [CardUnknown];
        if sent.fault == Cancelled {
          return Raised(Cancelled);
        }
        return Returned(CardUnknown);
      }
      cards := cards + [answer];
      return Returned(answer);
    }

    /** What one delivery attempt amounts to, read off the card it sent, if any. */
    ghost predicate Reports(before: seq<CardAnswer>, after: seq<CardAnswer>, d: Disposition) {
      match d
      case Confirmed => after == before + [CardAccepted]
      case Unknown => after == before + [CardUnknown]
      case KnownFailure => after == before || after == before + [CardRejected]
    }

    /** One delivery. At most one card is sent; the disposition returned is what the card's
        answer was; and once a card is accepted or its outcome is unknown, the PDF it shows
        stays active and is not deleted, whatever fails afterwards. */
    method Deliver(kind: Kind, admitted: seq<bool>, pdf: PdfResult) returns (r: Flow<Outcome>)
      requires Valid()
      modifies this
      ensures Valid() && old(ever) <= ever
      ensures old(cards) <= cards && |cards| <= |old(cards)| + 1
      ensures r.Returned? ==> r.value.kind == kind && Reports(old(cards), cards, r.value.disposition)
      ensures old(sentAfter) <= sentAfter && old(attempted) <= attempted
      ensures |cards| > |old(cards)| && cards[|old(cards)|] != CardRejected ==>
        pdf.PdfFile? && StillShows(|old(cards)|, pdf.token)
      ensures r.Raised? && !r.fault.SideEffectCommitted? && r.fault != Cancelled ==>
        cards == old(cards) || cards == old(cards) + [CardRejected]
      ensures cards == old(cards) || cards == old(cards) + [CardRejected] ==> handoff == old(handoff)
      ensures r.Returned? && guarded && r.value.disposition != KnownFailure ==> handoff == EffectCommitted
      ensures r.Returned? && guarded ==> uploaded - old(uploaded) <= ever
      ensures r.Returned? && guarded && r.value.pdfToken.Some? ==> r.value.pdfToken.value in ever
    {
      var attachments :- UploadBusinessAttachments(kind, admitted);
      r := DeliverUploaded(kind, attachments, pdf);
    }

    /** From the uploaded attachments on. */
    method DeliverUploaded(kind: Kind, attachments: seq<string>, pdf: PdfResult)
      returns (r: Flow<Outcome>)
      requires Valid() && forall t :: t in attachments ==> t != ""
      modifies this`pdfToken, this`attachmentTokens, this`ever, this`deleted, this`attempted, this`handoff, this`cards,
        this`sentAfter
      ensures Valid() && old(ever) <= ever
      ensures old(cards) <= cards && |cards| <= |old(cards)| + 1
      ensures r.Returned? ==> r.value.kind == kind && Reports(old(cards), cards, r.value.disposition)
      ensures old(sentAfter) <= sentAfter && old(attempted) <= attempted
      ensures |cards| > |old(cards)| && cards[|old(cards)|] != CardRejected ==>
        pdf.PdfFile? && StillShows(|old(cards)|, pdf.token)
      ensures r.Raised? && !r.fault.SideEffectCommitted? && r.fault != Cancelled ==>
        cards == old(cards) || cards == old(cards) + [CardRejected]
      ensures cards == old(cards) || cards == old(cards) + [CardRejected] ==> handoff == old(handoff)
      ensures r.Returned? && guarded && r.value.disposition != KnownFailure ==> handoff == EffectCommitted
      ensures r.Returned? && guarded && r.value.pdfToken.Some? ==> r.value.pdfToken.value in ever
    {
      var _ :- Await();
      if kind == Approval && guarded {
        var _ :- Await();
      }
      var _ :- Authorize();
      var generated := Await();
      if generated.Raised? {
        if generated.fault == Cancelled {
          return Raised(Cancelled);
        }
        var _ :- RecordKnownFailure(None, attachments);
        return Returned(Outcome(kind, KnownFailure, None));
      }
      var stage :- StageReviewPdf(pdf);
      if !stage.ready {
        var _ :- RecordKnownFailure(stage.newToken, attachments);
        return Returned(Outcome(kind, KnownFailure, None));
      }
      var _ :- Authorize();
      r := Publish(kind, stage.oldToken, stage.newToken.value, attachments);
    }

    /** From sending the card on. */
    method Publish(kind: Kind, oldToken: Option<string>, newToken: string, attachments: seq<string>)
      returns (r: Flow<Outcome>)
      requires Valid() && newToken != "" && pdfToken == Some(newToken)
      requires oldToken.Some? ==> oldToken.value != ""
      requires forall t :: t in attachments ==> t != ""
      modifies this`pdfToken, this`attachmentTokens, this`ever, this`deleted, this`attempted, this`handoff, this`cards,
        this`sentAfter
      ensures Valid() && old(ever) <= ever
      ensures |cards| == |old(cards)| + 1 && old(cards) <= cards
      ensures r.Returned? ==> r.value.kind == kind && Reports(old(cards), cards, r.value.disposition)
      ensures r.Returned? ==> (r.value.disposition == KnownFailure ==> cards == old(cards) + [CardRejected])
      ensures old(sentAfter) <= sentAfter && old(attempted) <= attempted
      ensures cards[|old(cards)|] != CardRejected ==> StillShows(|old(cards)|, Some(newToken))
      ensures r.Returned? && guarded && r.value.pdfToken.Some? ==> r.value.pdfToken.value in ever
      ensures r.Raised? && !r.fault.SideEffectCommitted? && r.fault != Cancelled ==>
        cards == old(cards) + [CardRejected]
      ensures cards == old(cards) + [CardRejected] ==> handoff == old(handoff)
      ensures r.Returned? && guarded && r.value.disposition != KnownFailure ==> handoff == EffectCommitted
    {
      var answer :- SendCard();
      match answer
      case CardUnknown =>
        var closed := Quarantine();
        if closed.Raised? {
          return Raised(if closed.fault == Cancelled then Cancelled else SideEffectCommitted(closed.fault));
        }
        return Returned(Outcome(kind, Unknown, Some(newToken)));
      case CardRejected =>
        var recorded := RecordKnownFailure(Some(newToken), attachments);
        if recorded.Raised? {
          return Raised(recorded.fault);
        }
        return Returned(Outcome(kind, KnownFailure, Some(newToken)));
      case CardAccepted =>
        var settled := Settle(oldToken, newToken);
        if settled.Raised? {
          return Raised(SideEffectCommitted(settled.fault));
        }
        return Returned(Outcome(kind, Confirmed, Some(newToken)));
    }

    /** An unknown outcome closes the attempt instead of allowing another card. */
    method Quarantine() returns (r: Flow<()>)
      modifies this`handoff
      ensures r.Returned? && guarded ==> handoff == EffectCommitted
    {
      var _ :- AdvanceEffectCommitted();
      r := Await();
    }

    /** The local consequences of a visible card. */
    method Settle(oldToken: Option<string>, newToken: string) returns (r: Flow<()>)
      requires Valid() && (oldToken.Some? ==> oldToken.value != "")
      modifies this`pdfToken, this`attachmentTokens, this`ever, this`deleted, this`attempted, this`handoff
      ensures Valid() && pdfToken == old(pdfToken) && old(ever) <= ever
      ensures old(attempted) <= attempted && newToken !in attempted[|old(attempted)|..]
      ensures r.Returned? && guarded ==> handoff == EffectCommitted
    {
      var _ :- AdvanceEffectCommitted();
      var _ :- Await();
      var cleaned :- DeleteReplacedPdf(oldToken, newToken);
      if guarded && !cleaned {
        return Raised(OtherFault);
      }
      return Returned(());
    }
  }
}
