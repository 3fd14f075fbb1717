/** The stored executions of one account and chat: one row a window, what the repository's
    statements do to all rows, and what they keep. */
module DigestTables {
  import opened Wrappers
  import opened DigestExecutions
  import DigestMessages

  type Table = map<Window, Execution>

  type Message = DigestMessages.Message

  // ------------------------------------------------------------ statements

  function Expired(e: Execution, cutoff: int): Execution {
    if e.state == Pending && e.window.end <= cutoff then e.(state := Missed) else e
  }

  /** `mark_expired_executions_missed`. */
  function ExpireAll(t: Table, cutoff: int): Table {
    map v | v in t :: Expired(t[v], cutoff)
  }

  /** The missed windows that `build_snapshot` reads. */
  function Unreported(t: Table, before: int): set<Window> {
    set v | v in t && t[v].state == Missed && !t[v].reported && v.end <= before
  }

  function Marked(e: Execution, before: int): Execution {
    if e.state == Missed && e.window.end <= before then e.(reported := true) else e
  }

  /** `_write_parts_and_refresh_state`: the row, and when all its parts are confirmed the
      mark on every missed row before it. */
  function StoreRefreshed(t: Table, e: Execution): Table {
    var stored := t[e.window := e];
    if AllConfirmed(e.parts) then map v | v in stored :: Marked(stored[v], e.window.start) else stored
  }

  function NewPart(w: Window, m: Message, i: nat): Part {
    Part(m.header, m.text, RequestId(w, i), Waiting, 0, None, None, None)
  }

  function NewExecution(w: Window, messages: seq<Message>, listed: set<Window>): Execution {
    Execution(w, Pending, seq(|messages|, i requires 0 <= i < |messages| => NewPart(w, messages[i], i)),
              listed, 0, false)
  }

  /** `ensure_execution`: an existing row wins. */
  function Ensured(t: Table, w: Window, messages: seq<Message>, listed: set<Window>): Table {
    if w in t then t else t[w := NewExecution(w, messages, listed)]
  }

  // ------------------------------------------------------------- invariant

  ghost predicate RowsOk(t: Table) {
    forall v :: v in t ==>
      t[v].window == v && IsReportWindow(v) && Valid(t[v]) && (t[v].reported ==> t[v].state == Missed)
  }

  /** Only the latest row can be pending. */
  ghost predicate EarlierClosed(t: Table) {
    forall u, v :: u in t && v in t && v.end < u.end ==> t[v].state != Pending
  }

  /** A pending digest lists every missed window that its confirmation would report. */
  ghost predicate ListsUnreported(t: Table) {
    forall u :: u in t && t[u].state == Pending ==> Unreported(t, u.start) <= t[u].listed
  }

  ghost predicate TableOk(t: Table) {
    RowsOk(t) && EarlierClosed(t) && ListsUnreported(t)
  }

  /** No row is later than `w`, and none but `w` is pending. */
  ghost predicate OnlyOpen(t: Table, w: Window) {
    forall v :: v in t ==> v == w || (v.end <= w.start && t[v].state != Pending)
  }

  ghost predicate UpTo(t: Table, w: Window) {
    IsReportWindow(w) && forall v :: v in t ==> v == w || v.end <= w.start
  }

  ghost predicate Storable(messages: seq<Message>) {
    && messages != []
    && (forall i :: 0 <= i < |messages| ==> messages[i].header != "" && messages[i].text != "")
    && (forall i, j :: 0 <= i < j < |messages| ==> messages[i].header != messages[j].header)
  }

  // ---------------------------------------------------------- preservation

  lemma ExpireKeeps(t: Table, w: Window)
    requires TableOk(t) && UpTo(t, w)
    ensures TableOk(ExpireAll(t, w.start)) && OnlyOpen(ExpireAll(t, w.start), w)
  {
    ExpireKeepsRows(t, w.start);
    ExpireKeepsLists(t, w.start);
  }

  lemma ExpiredIsValid(e: Execution, cutoff: int)
    requires Valid(e)
    ensures Valid(Expired(e, cutoff))
  {
  }

  lemma ExpireKeepsRows(t: Table, cutoff: int)
    requires RowsOk(t)
    ensures RowsOk(ExpireAll(t, cutoff))
  {
    var after := ExpireAll(t, cutoff);
    forall v | v in after
      ensures after[v].window == v && IsReportWindow(v) && Valid(after[v])
      ensures after[v].reported ==> after[v].state == Missed
    {
      ExpiredIsValid(t[v], cutoff);
    }
  }

  lemma ExpireKeepsLists(t: Table, cutoff: int)
    requires RowsOk(t) && EarlierClosed(t) && ListsUnreported(t)
    ensures ListsUnreported(ExpireAll(t, cutoff))
  {
    var after := ExpireAll(t, cutoff);
    forall u | u in after && after[u].state == Pending
      ensures Unreported(after, u.start) <= after[u].listed
    {
      assert t[u].state == Pending;
      assert Unreported(after, u.start) <= Unreported(t, u.start) by {
        forall v | v in Unreported(after, u.start)
          ensures v in Unreported(t, u.start)
        {
          assert v.end < u.end;
        }
      }
    }
  }

  lemma NewIsValid(w: Window, messages: seq<Message>, listed: set<Window>)
    requires Storable(messages)
    ensures Valid(NewExecution(w, messages, listed))
  {
    var e := NewExecution(w, messages, listed);
    assert e.parts[0].state == Waiting;
    NoAttempts(e.parts);
  }

  lemma {:induction false} NoAttempts(parts: seq<Part>)
    requires forall i :: 0 <= i < |parts| ==> parts[i].attempts == 0
    ensures Attempts(parts) == 0
  {
    if parts != [] {
      NoAttempts(parts[..|parts| - 1]);
    }
  }

  lemma EnsureKeeps(t: Table, w: Window, messages: seq<Message>)
    requires TableOk(t) && UpTo(t, w) && OnlyOpen(t, w) && w !in t && Storable(messages)
    ensures TableOk(Ensured(t, w, messages, Unreported(t, w.start)))
    ensures OnlyOpen(Ensured(t, w, messages, Unreported(t, w.start)), w)
  {
    var listed := Unreported(t, w.start);
    EnsureKeepsRows(t, w, messages, listed);
    EnsureKeepsLists(t, w, messages);
  }

  lemma EnsureKeepsRows(t: Table, w: Window, messages: seq<Message>, listed: set<Window>)
    requires RowsOk(t) && IsReportWindow(w) && w !in t && Storable(messages)
    ensures RowsOk(Ensured(t, w, messages, listed))
  {
    NewIsValid(w, messages, listed);
  }

  lemma EnsureKeepsLists(t: Table, w: Window, messages: seq<Message>)
    requires ListsUnreported(t) && OnlyOpen(t, w) && w !in t
    ensures ListsUnreported(Ensured(t, w, messages, Unreported(t, w.start)))
  {
    var after := Ensured(t, w, messages, Unreported(t, w.start));
    forall u | u in after && after[u].state == Pending
      ensures Unreported(after, u.start) <= after[u].listed
    {
      assert u == w;
      assert Unreported(after, w.start) <= Unreported(t, w.start);
    }
  }

  /** `after` is `t` with the row of `e` replaced and some missed rows marked. */
  ghost predicate Touched(t: Table, e: Execution, after: Table) {
    && after.Keys == t.Keys && e.window in t && after[e.window] == e
    && forall v :: v in t && v != e.window ==>
      after[v] == t[v] || (t[v].state == Missed && after[v] == t[v].(reported := true))
  }

  lemma StoreTouches(t: Table, e: Execution)
    requires RowsOk(t) && e.window in t && e.state != Missed
    ensures Touched(t, e, StoreRefreshed(t, e))
  {
  }

  lemma MarkKeepsValid(e: Execution)
    requires Valid(e)
    ensures Valid(e.(reported := true))
  {
  }

  lemma TouchedRowsOk(t: Table, e: Execution, after: Table)
    requires RowsOk(t) && Touched(t, e, after) && Valid(e) && !e.reported
    ensures RowsOk(after)
  {
    forall v | v in after
      ensures after[v].window == v && IsReportWindow(v) && Valid(after[v])
      ensures after[v].reported ==> after[v].state == Missed
    {
      MarkKeepsValid(t[v]);
    }
  }

  lemma TouchedLists(t: Table, e: Execution, after: Table)
    requires ListsUnreported(t) && Touched(t, e, after)
    requires t[e.window].state == Pending && e.listed == t[e.window].listed && e.state != Missed
    ensures ListsUnreported(after)
  {
    forall u | u in after && after[u].state == Pending
      ensures Unreported(after, u.start) <= after[u].listed
    {
      assert t[u].state == Pending && after[u].listed == t[u].listed;
      assert Unreported(after, u.start) <= Unreported(t, u.start);
    }
  }

  lemma TouchedStaysClosed(t: Table, e: Execution, after: Table)
    requires TableOk(t) && Touched(t, e, after) && t[e.window].state == Pending
    ensures EarlierClosed(after)
    ensures forall w :: OnlyOpen(t, w) ==> OnlyOpen(after, w)
  {
  }

  lemma StoreKeeps(t: Table, e: Execution)
    requires TableOk(t) && e.window in t && t[e.window].state == Pending
    requires Valid(e) && e.listed == t[e.window].listed && !e.reported && e.state != Missed
    ensures TableOk(StoreRefreshed(t, e))
    ensures Touched(t, e, StoreRefreshed(t, e))
    ensures forall w :: OnlyOpen(t, w) ==> OnlyOpen(StoreRefreshed(t, e), w)
  {
    var after := StoreRefreshed(t, e);
    StoreTouches(t, e);
    TouchedRowsOk(t, e, after);
    TouchedLists(t, e, after);
    TouchedStaysClosed(t, e, after);
  }

  /** Whatever the renderer yields can be stored. */
  lemma RenderedIsStorable(start: DigestMessages.Stamp, end: DigestMessages.Stamp, lines: seq<string>, maxBytes: int,
                           messages: seq<Message>)
    requires lines != [] && DigestMessages.MIN_BYTES <= maxBytes <= DigestMessages.MAX_BYTES
    requires DigestMessages.IsBundle(DigestMessages.Label(start, end), lines, maxBytes, messages)
    ensures Storable(messages)
  {
    DigestMessages.BundleFits(start, end, lines, maxBytes, messages);
    DigestMessages.BundleIsFilled(DigestMessages.Label(start, end), lines, maxBytes, messages);
  }

  // ------------------------------------------------------------- reporting

  /** A missed window is marked reported only by the full confirmation of a later digest
      whose stored text lists it. */
  lemma MarkedOnlyIfListed(t: Table, e: Execution, v: Window)
    requires TableOk(t) && e.window in t && t[e.window].state == Pending && e.listed == t[e.window].listed
    requires !e.reported
    requires v in t && !t[v].reported && StoreRefreshed(t, e)[v].reported
    ensures AllConfirmed(e.parts) && v.end <= e.window.start && t[v].state == Missed && v in e.listed
  {
    assert v != e.window;
    assert v in Unreported(t, e.window.start);
  }

  /** And such a confirmation leaves no missed window before it unreported. */
  lemma ConfirmationReportsAll(t: Table, e: Execution)
    requires TableOk(t) && e.window in t && e.state != Missed && AllConfirmed(e.parts)
    ensures Unreported(StoreRefreshed(t, e), e.window.start) == {}
  {
    var after := StoreRefreshed(t, e);
    forall v | v in after && after[v].state == Missed && v.end <= e.window.start
      ensures after[v].reported
    {
      assert t[e.window := e][v].window.end <= e.window.start;
    }
  }

  /** A digest stored for the first time lists every missed window that is unreported. */
  lemma NewDigestListsAll(t: Table, w: Window, messages: seq<Message>, v: Window)
    requires TableOk(t) && OnlyOpen(t, w) && w !in t
    requires v in t && t[v].state == Missed && !t[v].reported
    ensures v in Ensured(t, w, messages, Unreported(t, w.start))[w].listed
  {
  }
}
