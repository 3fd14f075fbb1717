/** Any number of workers claiming the content reference of one email without a lock: put
    an object, compare-and-set the reference, read back when the outcome is unclear, and
    delete a candidate that lost. Each worker step is one call whose answer is arbitrary. */
module ContentClaim {
  import opened Wrappers

  datatype Ref = Ref(accountId: int, objectId: nat)

  /** The email's stored reference; the row itself may be missing. */
  datatype Cell = MissingRow | Unset | Set(ref: Ref)

  datatype End = Returned(ref: Ref) | Raised | Cancelled

  /** Why the stored reference is read back: the compare-and-set was cancelled, raised, or
      returned false. */
  datatype Why = AfterCancel | AfterError | AfterLoss

  datatype Pc = Start | Putting | Claiming | ReadBack(why: Why) | Deleting(next: End) | Finished(end: End)

  /** What a worker has learned about its own compare-and-set. */
  datatype Knowledge = NotTried | Unlearned | Won | Lost

  datatype Worker = Worker(
    guarded: bool, reuseExisting: bool, pc: Pc, candidate: Option<Ref>, cas: Knowledge, deleteFailed: bool)

  /** How a call ends. `landed`: it took effect although it did not return. */
  datatype Answer =
    | Returns
    | ReturnsForeign
    | Fails(landed: bool, cancelled: bool)
    | Denied

  datatype State = State(
    account: int, cell: Cell, objects: set<Ref>, deleted: set<Ref>, nextObject: nat, workers: map<nat, Worker>)

  predicate Owned(s: State, r: Ref) {
    r.accountId == s.account
  }

  function Failure(cancelled: bool): End {
    if cancelled then Cancelled else Raised
  }

  function Goto(s: State, i: nat, w: Worker): State {
    s.(workers := s.workers[i := w])
  }

  function Finish(w: Worker, end: End): Worker {
    w.(pc := Finished(end))
  }

  // ---------------------------------------------------------- steps of a worker

  /** Reads an existing reference when asked to reuse one. */
  function StartStep(s: State, i: nat, w: Worker, answer: Answer): State {
    if !w.reuseExisting then Goto(s, i, w.(pc := Putting))
    else match answer
      case Fails(_, cancelled) => Goto(s, i, Finish(w, Failure(cancelled)))
      case Returns =>
        if !s.cell.Set? then Goto(s, i, w.(pc := Putting))
        else if Owned(s, s.cell.ref) then Goto(s, i, Finish(w, Returned(s.cell.ref)))
        else Goto(s, i, Finish(w, Raised))
      case _ => s
  }

  /** Stores the content under a fresh reference. */
  function PutStep(s: State, i: nat, w: Worker, answer: Answer): State {
    var mine := Ref(s.account, s.nextObject);
    var foreign := Ref(s.account + 1, s.nextObject);
    match answer
    case Denied => if w.guarded then Goto(s, i, Finish(w, Raised)) else s
    case Returns =>
      Goto(s, i, w.(pc := Claiming, candidate := Some(mine))).(
        objects := s.objects + {mine}, nextObject := s.nextObject + 1)
    case ReturnsForeign =>
      Goto(s, i, Finish(w, Raised)).(objects := s.objects + {foreign}, nextObject := s.nextObject + 1)
    case Fails(landed, cancelled) =>
      Goto(s, i, Finish(w, Failure(cancelled))).(
        objects := if landed then s.objects + {mine} else s.objects, nextObject := s.nextObject + 1)
  }

  /** `set_content_ref_if_absent`. */
  function ClaimStep(s: State, i: nat, w: Worker, c: Ref, answer: Answer): State {
    match answer
    case Returns =>
      if s.cell == Unset then Goto(s, i, Finish(w, Returned(c)).(cas := Won)).(cell := Set(c))
      else Goto(s, i, w.(pc := ReadBack(AfterLoss), cas := Lost))
    case Fails(landed, cancelled) =>
      var pc := if w.guarded then Finished(Failure(cancelled))
                else ReadBack(if cancelled then AfterCancel else AfterError);
      Goto(s, i, w.(pc := pc, cas := Unlearned)).(
        cell := if landed && s.cell == Unset then Set(c) else s.cell)
    case _ => s
  }

  function ReadBackStep(s: State, i: nat, w: Worker, c: Ref, why: Why, answer: Answer): State {
    match answer
    case Fails(_, cancelled) =>
      (match why
       case AfterCancel => Goto(s, i, Finish(w, Cancelled))
       case AfterError => Goto(s, i, Finish(w, Failure(cancelled)))
       case AfterLoss =>
         if w.guarded then Goto(s, i, Finish(w, Failure(cancelled)))
         else Goto(s, i, w.(pc := Deleting(Failure(cancelled)))))
    case Returns =>
      var abandon := if why == AfterCancel then Cancelled else Raised;
      if !s.cell.Set? || !Owned(s, s.cell.ref) then
        Goto(s, i, w.(pc := Deleting(abandon), cas := Lost))
      else if s.cell.ref == c then
        Goto(s, i, Finish(w, if why == AfterCancel then Cancelled else Returned(c)).(cas := Won))
      else
        Goto(s, i, w.(pc := Deleting(if why == AfterCancel then Cancelled else Returned(s.cell.ref)), cas := Lost))
    case _ => s
  }

  /** `_delete_unclaimed_content_candidate`. */
  function DeleteStep(s: State, i: nat, w: Worker, c: Ref, next: End, answer: Answer): State {
    match answer
    case Denied => if w.guarded then Goto(s, i, Finish(w, Raised).(deleteFailed := true)) else s
    case Returns => Goto(s, i, Finish(w, next)).(objects := s.objects - {c}, deleted := s.deleted + {c})
    case Fails(landed, cancelled) =>
      Goto(s, i, Finish(w, if w.guarded then Failure(cancelled) else next).(deleteFailed := true)).(
        objects := if landed then s.objects - {c} else s.objects,
        deleted := if landed then s.deleted + {c} else s.deleted)
    case _ => s
  }

  function Step(s: State, i: nat, answer: Answer): State {
    if i !in s.workers then s
    else
      var w := s.workers[i];
      match w.pc
      case Start => StartStep(s, i, w, answer)
      case Putting => PutStep(s, i, w, answer)
      case Claiming => if w.candidate.None? then s else ClaimStep(s, i, w, w.candidate.value, answer)
      case ReadBack(why) => if w.candidate.None? then s else ReadBackStep(s, i, w, w.candidate.value, why, answer)
      case Deleting(end) => if w.candidate.None? then s else DeleteStep(s, i, w, w.candidate.value, end, answer)
      case Finished(_) => s
  }

  function Run(s: State, events: seq<(nat, Answer)>): State {
    if events == [] then s
    else
      var n := |events| - 1;
      Step(Run(s, events[..n]), events[n].0, events[n].1)
  }

  // ---------------------------------------------------------------- invariant

  /** Before any worker has started: the reference may already be set, to anything. */
  predicate Initial(s: State) {
    && (forall i :: i in s.workers ==>
          s.workers[i] == Worker(s.workers[i].guarded, s.workers[i].reuseExisting, Start, None, NotTried, false))
    && (forall r :: r in s.objects ==> r.objectId < s.nextObject)
    && (s.cell.Set? ==> s.cell.ref.objectId < s.nextObject)
    && s.deleted == {}
  }

  /** One worker, given everything shared. */
  predicate WorkerOk(s: State, w: Worker) {
    match w.candidate
    case None =>
      && w.cas == NotTried
      && (w.pc in {Start, Putting} || (w.pc.Finished? && (w.pc.end.Returned? ==> s.cell == Set(w.pc.end.ref))))
    case Some(c) =>
      && c.objectId < s.nextObject && Owned(s, c)
      && (w.cas == Won ==> s.cell == Set(c))
      && (w.cas == Lost ==> s.cell != Set(c))
      && (c in s.deleted ==> w.cas == Lost)
      && (match w.pc
          case Start => false
          case Putting => false
          case Claiming => w.cas == NotTried && s.cell != Set(c)
          case ReadBack(why) =>
            if why == AfterLoss then w.cas == Lost else w.cas == Unlearned && !w.guarded
          case Deleting(end) => w.cas == Lost && (end.Returned? ==> s.cell == Set(end.ref))
          case Finished(end) =>
            && w.cas != NotTried
            && (end.Returned? ==> s.cell == Set(end.ref))
            && (!w.guarded && w.cas == Lost ==> c !in s.objects || w.deleteFailed))
  }

  predicate SharedOk(s: State) {
    && (forall r :: r in s.objects ==> r.objectId < s.nextObject)
    && (forall r :: r in s.deleted ==> r.objectId < s.nextObject && s.cell != Set(r))
    && (s.cell.Set? ==> s.cell.ref.objectId < s.nextObject)
  }

  predicate Inv(s: State) {
    && SharedOk(s)
    && (forall i :: i in s.workers ==> WorkerOk(s, s.workers[i]))
    && (forall i, j :: i in s.workers && j in s.workers && i != j && s.workers[i].candidate.Some? ==>
          s.workers[i].candidate != s.workers[j].candidate)
  }

  /** What no step undoes: a set reference, the object it names, and a worker's end. */
  predicate Keeps(s: State, t: State) {
    && t.account == s.account && t.workers.Keys == s.workers.Keys
    && (s.cell != Unset ==> t.cell == s.cell)
    && (s.cell.Set? && s.cell.ref in s.objects ==> s.cell.ref in t.objects)
    && (forall i :: i in s.workers && s.workers[i].pc.Finished? ==> t.workers[i] == s.workers[i])
  }

  /** A worker may add a fresh object, set the reference to its own candidate while it is
      unset, and delete its own candidate; the other workers cannot tell. */
  predicate OwnEffect(s: State, t: State, i: nat) {
    && i in s.workers && i in t.workers && t.workers == s.workers[i := t.workers[i]]
    && t.account == s.account && t.nextObject >= s.nextObject
    && var c := t.workers[i].candidate;
    && (t.cell == s.cell || (s.cell == Unset && c.Some? && t.cell == Set(c.value)))
    && (forall r :: r in t.objects ==> r in s.objects || r.objectId >= s.nextObject)
    && (forall r :: r in s.objects ==> r in t.objects || (c == Some(r) && s.cell != Set(r)))
    && (forall r :: r in t.deleted ==> r in s.deleted || c == Some(r))
    && (c == s.workers[i].candidate || (c.Some? && c.value.objectId >= s.nextObject))
  }

  lemma OtherWorkerOk(s: State, t: State, i: nat, j: nat)
    requires Inv(s) && OwnEffect(s, t, i) && j in s.workers && j != i
    ensures WorkerOk(t, t.workers[j])
    ensures t.workers[j].candidate.Some? ==> t.workers[j].candidate != t.workers[i].candidate
  {
    assert WorkerOk(s, s.workers[j]);
  }

  lemma OwnEffectOk(s: State, t: State, i: nat)
    requires Inv(s) && OwnEffect(s, t, i) && SharedOk(t) && WorkerOk(t, t.workers[i])
    requires !s.workers[i].pc.Finished?
    ensures Inv(t) && Keeps(s, t)
  {
    forall j | j in t.workers && j != i
      ensures WorkerOk(t, t.workers[j])
      ensures t.workers[j].candidate.Some? ==> t.workers[j].candidate != t.workers[i].candidate
    {
      OtherWorkerOk(s, t, i, j);
    }
    assert forall j, k :: j in t.workers && k in t.workers && j != i && k != i ==>
      t.workers[j] == s.workers[j] && t.workers[k] == s.workers[k];
  }

  lemma StartOk(s: State, i: nat, answer: Answer)
    requires Inv(s) && i in s.workers && s.workers[i].pc == Start
    ensures var t := StartStep(s, i, s.workers[i], answer); Inv(t) && Keeps(s, t)
  {
    var t := StartStep(s, i, s.workers[i], answer);
    assert WorkerOk(s, s.workers[i]);
    OwnEffectOk(s, t, i);
  }

  lemma PutOk(s: State, i: nat, answer: Answer)
    requires Inv(s) && i in s.workers && s.workers[i].pc == Putting
    ensures var t := PutStep(s, i, s.workers[i], answer); Inv(t) && Keeps(s, t)
  {
    OwnEffectOk(s, PutStep(s, i, s.workers[i], answer), i);
  }

  lemma ClaimOk(s: State, i: nat, answer: Answer)
    requires Inv(s) && i in s.workers && s.workers[i].pc == Claiming
    ensures s.workers[i].candidate.Some?
    ensures var t := ClaimStep(s, i, s.workers[i], s.workers[i].candidate.value, answer); Inv(t) && Keeps(s, t)
  {
    assert WorkerOk(s, s.workers[i]);
    OwnEffectOk(s, ClaimStep(s, i, s.workers[i], s.workers[i].candidate.value, answer), i);
  }

  lemma ReadBackOk(s: State, i: nat, answer: Answer)
    requires Inv(s) && i in s.workers && s.workers[i].pc.ReadBack?
    ensures s.workers[i].candidate.Some?
    ensures var t := ReadBackStep(s, i, s.workers[i], s.workers[i].candidate.value, s.workers[i].pc.why, answer);
      Inv(t) && Keeps(s, t)
  {
    assert WorkerOk(s, s.workers[i]);
    OwnEffectOk(s, ReadBackStep(s, i, s.workers[i], s.workers[i].candidate.value, s.workers[i].pc.why, answer), i);
  }

  lemma DeleteOk(s: State, i: nat, answer: Answer)
    requires Inv(s) && i in s.workers && s.workers[i].pc.Deleting?
    ensures s.workers[i].candidate.Some?
    ensures var t := DeleteStep(s, i, s.workers[i], s.workers[i].candidate.value, s.workers[i].pc.next, answer);
      Inv(t) && Keeps(s, t)
  {
    assert WorkerOk(s, s.workers[i]);
    OwnEffectOk(s, DeleteStep(s, i, s.workers[i], s.workers[i].candidate.value, s.workers[i].pc.next, answer), i);
  }

  lemma StepOk(s: State, i: nat, answer: Answer)
    requires Inv(s)
    ensures Inv(Step(s, i, answer)) && Keeps(s, Step(s, i, answer))
  {
    if i in s.workers {
      match s.workers[i].pc
      case Start => StartOk(s, i, answer);
      case Putting => PutOk(s, i, answer);
      case Claiming => ClaimOk(s, i, answer);
      case ReadBack(_) => ReadBackOk(s, i, answer);
      case Deleting(_) => DeleteOk(s, i, answer);
      case Finished(_) =>
    }
  }

  lemma {:induction false} RunOk(s: State, events: seq<(nat, Answer)>)
    requires Inv(s)
    ensures Inv(Run(s, events)) && Keeps(s, Run(s, events))
  {
    if events != [] {
      var n := |events| - 1;
      RunOk(s, events[..n]);
      StepOk(Run(s, events[..n]), events[n].0, events[n].1);
    }
  }

  // ------------------------------------------------------------- main results

  /** However many workers interleave and however their calls end: a reference once set
      never changes, the object it names is never deleted, and what a worker returned is
      the stored reference, then and at every later time. */
  lemma ClaimIsStable(s: State, events: seq<(nat, Answer)>, later: seq<(nat, Answer)>)
    requires Initial(s)
    ensures var t, u := Run(s, events), Run(Run(s, events), later);
      && (t.cell.Set? ==> u.cell == t.cell && t.cell.ref !in u.deleted)
      && (t.cell.Set? && t.cell.ref in t.objects ==> t.cell.ref in u.objects)
      && (forall i :: i in t.workers && t.workers[i].pc.Finished? && t.workers[i].pc.end.Returned? ==>
            u.cell == Set(t.workers[i].pc.end.ref))
  {
    RunOk(s, events);
    RunOk(Run(s, events), later);
  }

  /** At most one worker ever wins, and its reference is the stored one. */
  lemma AtMostOneWinner(s: State, events: seq<(nat, Answer)>, i: nat, j: nat)
    requires Initial(s)
    requires var t := Run(s, events);
      i in t.workers && j in t.workers && t.workers[i].cas == Won && t.workers[j].cas == Won
    ensures i == j
  {
    RunOk(s, events);
  }

  /** In unguarded mode a finished worker's candidate that is not the stored reference is
      still in the store only if the worker never learned how its compare-and-set ended
      or its delete failed. */
  lemma SurvivingLosers(s: State, events: seq<(nat, Answer)>, i: nat)
    requires Initial(s)
    requires var t := Run(s, events); i in t.workers && t.workers[i].pc.Finished? && !t.workers[i].guarded
    ensures var t := Run(s, events);
      var w := t.workers[i];
      w.candidate.Some? && w.candidate.value in t.objects && t.cell != Set(w.candidate.value) ==>
        w.cas == Unlearned || w.deleteFailed
  {
    RunOk(s, events);
  }

  /** Only a worker that knows it lost deletes, and only its own candidate. */
  lemma DeletesOnlyLosers(s: State, events: seq<(nat, Answer)>, i: nat)
    requires Initial(s) && i in Run(s, events).workers
    ensures var t := Run(s, events);
      var w := t.workers[i];
      w.candidate.Some? && w.candidate.value in t.deleted ==> w.cas == Lost
  {
    RunOk(s, events);
  }
}
