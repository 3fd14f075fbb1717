/** The reporting of missed windows under any number of schedulers: their statements on the
    table interleave, so a digest may be stored after others have closed its day and drawn up
    later digests. */
module DigestReporting {
  import opened DigestExecutions
  import opened DigestTables

  /** A statement by any scheduler: it closes expired rows, stores a digest drawn up at any
      earlier time, or writes a pending row back. */
  datatype TableCall =
    | CloseCall(cutoff: int)
    | StoreCall(window: Window, messages: seq<Message>, listed: set<Window>)
    | WriteCall(row: Execution)

  /** A pending row is written back with other parts: what any number of claims, finishes and
      reconciliations make of it. */
  predicate IsWrite(t: Table, e: Execution) {
    && e.window in t && t[e.window].state == Pending && e.listed == t[e.window].listed
    && e.parts != [] && !e.reported && e.state == if AllConfirmed(e.parts) then Delivered else Pending
  }

  function TableAfter(t: Table, call: TableCall): Table {
    match call
    case CloseCall(cutoff) => ExpireAll(t, cutoff)
    case StoreCall(w, messages, listed) => Ensured(t, w, messages, listed)
    case WriteCall(e) => if IsWrite(t, e) then StoreRefreshed(t, e) else t
  }

  ghost predicate RowsNamed(t: Table) {
    forall v :: v in t ==>
      && t[v].window == v && v.start < v.end && t[v].parts != []
      && (t[v].reported ==> t[v].state == Missed)
  }

  predicate IsStorable(call: TableCall) {
    call.StoreCall? ==> call.messages != [] && call.window.start < call.window.end
  }

  lemma CallKeepsNames(t: Table, call: TableCall)
    requires RowsNamed(t) && IsStorable(call)
    ensures RowsNamed(TableAfter(t, call))
  {
  }

  /** The call marks a window reported only when it confirms the last part of a digest whose
      stored text lists the window. */
  ghost predicate MarksListed(t: Table, call: TableCall) {
    forall v :: v in t && !t[v].reported && v in TableAfter(t, call) && TableAfter(t, call)[v].reported ==>
      call.WriteCall? && AllConfirmed(call.row.parts) && v in call.row.listed
  }

  ghost predicate AllMarkListed(t: Table, calls: seq<TableCall>)
    decreases |calls|
  {
    calls == [] || (MarksListed(t, calls[0]) && AllMarkListed(TableAfter(t, calls[0]), calls[1..]))
  }

  // -------------------------------------------------------------- condition

  /** The earlier windows that a full confirmation would report, now or once they are closed. */
  function Owed(t: Table, before: int): set<Window> {
    set v | v in t && t[v].state != Delivered && !t[v].reported && v.end <= before
  }

  /** Every pending digest lists all it could come to report. */
  ghost predicate IsComplete(t: Table) {
    forall u :: u in t && t[u].state == Pending ==> Owed(t, u.start) <= t[u].listed
  }

  /** What `ensure_execution` could test as it stores a row: the digest lists every earlier
      window not yet dealt with, and every pending later digest lists this one. */
  ghost predicate IsInTime(t: Table, call: TableCall) {
    call.StoreCall? && call.window !in t ==>
      && Owed(t, call.window.start) <= call.listed
      && forall u :: u in t && t[u].state == Pending && call.window.end <= u.start ==> call.window in t[u].listed
  }

  ghost predicate AllInTime(t: Table, calls: seq<TableCall>) {
    calls == []
    || (var n := |calls| - 1; AllInTime(t, calls[..n]) && IsInTime(TableAfterAll(t, calls[..n]), calls[n]))
  }

  function TableAfterAll(t: Table, calls: seq<TableCall>): Table {
    if calls == [] then t else TableAfter(TableAfterAll(t, calls[..|calls| - 1]), calls[|calls| - 1])
  }

  /** Closing and writing back keep a complete table complete. */
  lemma ClosingStaysComplete(t: Table, cutoff: int)
    requires RowsNamed(t) && IsComplete(t)
    ensures IsComplete(ExpireAll(t, cutoff))
  {
    var after := ExpireAll(t, cutoff);
    forall u | u in after && after[u].state == Pending
      ensures Owed(after, u.start) <= after[u].listed
    {
      assert Owed(after, u.start) <= Owed(t, u.start);
    }
  }

  lemma WritingStaysComplete(t: Table, e: Execution)
    requires RowsNamed(t) && IsComplete(t) && IsWrite(t, e)
    ensures IsComplete(StoreRefreshed(t, e))
  {
    var after := StoreRefreshed(t, e);
    forall u | u in after && after[u].state == Pending
      ensures Owed(after, u.start) <= after[u].listed
    {
      assert t[u].state == Pending && after[u].listed == t[u].listed;
      assert Owed(after, u.start) <= Owed(t, u.start);
    }
  }

  /** Storing a row keeps the table complete exactly when the row comes in time. */
  lemma StoringStaysComplete(t: Table, call: TableCall)
    requires RowsNamed(t) && IsComplete(t) && call.StoreCall? && IsStorable(call)
    ensures IsComplete(TableAfter(t, call)) <==> IsInTime(t, call)
  {
    var w, after := call.window, TableAfter(t, call);
    if w !in t {
      assert after[w].state == Pending && Owed(after, w.start) == Owed(t, w.start);
      forall u | u in t && t[u].state == Pending
        ensures Owed(after, u.start) == Owed(t, u.start) + if w.end <= u.start then {w} else {}
      {
      }
    }
  }

  lemma CallStaysComplete(t: Table, call: TableCall)
    requires RowsNamed(t) && IsComplete(t) && IsStorable(call)
    ensures IsComplete(TableAfter(t, call)) <==> IsInTime(t, call)
  {
    match call
    case CloseCall(cutoff) => ClosingStaysComplete(t, cutoff);
    case StoreCall(_, _, _) => StoringStaysComplete(t, call);
    case WriteCall(e) =>
      if IsWrite(t, e) {
        WritingStaysComplete(t, e);
      }
  }

  // ------------------------------------------------------------- main results

  lemma CompleteMarksListed(t: Table, call: TableCall)
    requires RowsNamed(t) && IsComplete(t)
    ensures MarksListed(t, call)
  {
    if call.WriteCall? && IsWrite(t, call.row) {
      forall v | v in t && !t[v].reported && StoreRefreshed(t, call.row)[v].reported
        ensures AllConfirmed(call.row.parts) && v in call.row.listed
      {
        assert v != call.row.window;
        assert v in Owed(t, call.row.window.start);
      }
    }
  }

  ghost predicate StoresNothing(calls: seq<TableCall>) {
    forall i :: 0 <= i < |calls| ==> !calls[i].StoreCall?
  }

  lemma {:induction false} CompleteMarksListedOn(t: Table, calls: seq<TableCall>)
    requires RowsNamed(t) && IsComplete(t) && StoresNothing(calls)
    ensures AllMarkListed(t, calls)
    decreases |calls|
  {
    if calls != [] {
      CompleteMarksListed(t, calls[0]);
      CallKeepsNames(t, calls[0]);
      CallStaysComplete(t, calls[0]);
      CompleteMarksListedOn(TableAfter(t, calls[0]), calls[1..]);
    }
  }

  function FullyConfirmed(e: Execution): Execution {
    e.(state := Delivered, parts := seq(|e.parts|, i requires 0 <= i < |e.parts| => e.parts[i].(state := Confirmed)))
  }

  /** A pending digest that does not list a window it could come to report does report it,
      once the window is closed and the digest fully confirmed. */
  lemma UnlistedGetsMarked(t: Table, u: Window, v: Window)
    requires RowsNamed(t) && u in t && t[u].state == Pending && v in Owed(t, u.start) && v !in t[u].listed
    ensures !AllMarkListed(t, [CloseCall(u.start), WriteCall(FullyConfirmed(t[u]))])
  {
    var closed, e := ExpireAll(t, u.start), FullyConfirmed(t[u]);
    var calls := [CloseCall(u.start), WriteCall(e)];
    assert closed[u] == t[u] && closed[v].state == Missed && !closed[v].reported;
    assert IsWrite(closed, e) && AllConfirmed(e.parts);
    assert StoreRefreshed(closed, e)[v].reported;
    assert !MarksListed(closed, WriteCall(e));
    assert calls[1..][0] == WriteCall(e) && calls[0] == CloseCall(u.start);
  }

  /** From here on, as long as nothing is stored, a window is marked only when it is listed. */
  ghost predicate WillMarkListed(t: Table) {
    forall calls :: StoresNothing(calls) ==> AllMarkListed(t, calls)
  }

  /** A table will mark only listed windows exactly when it is complete. */
  lemma CompleteIsExact(t: Table)
    requires RowsNamed(t)
    ensures IsComplete(t) <==> WillMarkListed(t)
  {
    if IsComplete(t) {
      forall calls | StoresNothing(calls)
        ensures AllMarkListed(t, calls)
      {
        CompleteMarksListedOn(t, calls);
      }
    } else {
      var u :| u in t && t[u].state == Pending && !(Owed(t, u.start) <= t[u].listed);
      var v :| v in Owed(t, u.start) && v !in t[u].listed;
      UnlistedGetsMarked(t, u, v);
      assert StoresNothing([CloseCall(u.start), WriteCall(FullyConfirmed(t[u]))]);
    }
  }

  /** At every point of the interleaving. */
  ghost predicate AlwaysMarksListed(t: Table, calls: seq<TableCall>) {
    && WillMarkListed(TableAfterAll(t, calls))
    && (calls != [] ==> AlwaysMarksListed(t, calls[..|calls| - 1]))
  }

  ghost predicate AreStorable(calls: seq<TableCall>) {
    forall i :: 0 <= i < |calls| ==> IsStorable(calls[i])
  }

  /** The exact condition, from any complete table, the empty one among them: whatever the
      interleaving, every mark at any point and from there on is of a listed window if and
      only if every digest is stored in time. */
  lemma {:induction false} MarksListedExactlyInTime(t: Table, calls: seq<TableCall>)
    requires RowsNamed(t) && IsComplete(t) && AreStorable(calls)
    ensures RowsNamed(TableAfterAll(t, calls))
    ensures AlwaysMarksListed(t, calls) <==> AllInTime(t, calls)
    ensures AllInTime(t, calls) ==> IsComplete(TableAfterAll(t, calls))
  {
    if calls == [] {
      CompleteIsExact(t);
    } else {
      var n := |calls| - 1;
      var before := TableAfterAll(t, calls[..n]);
      MarksListedExactlyInTime(t, calls[..n]);
      CallKeepsNames(before, calls[n]);
      CompleteIsExact(TableAfter(before, calls[n]));
      if AllInTime(t, calls[..n]) {
        CallStaysComplete(before, calls[n]);
      }
    }
  }

  /** A single scheduler stores in time: it has just closed all earlier rows, and lists the
      missed ones. */
  lemma OneSchedulerIsInTime(t: Table, w: Window, messages: seq<Message>)
    requires RowsOk(t) && UpTo(t, w) && OnlyOpen(t, w)
    ensures IsInTime(t, StoreCall(w, messages, Unreported(t, w.start)))
  {
    forall u | u in t && u != w
      ensures u.end <= w.start && !(w.end <= u.start)
    {
      assert t[u].window == u && IsReportWindow(u);
    }
  }

  /** A scheduler slow across 18:00 stores its digest when a later one, which does not list
      it, is pending: closed at the next turn, it is marked reported by a text without it. */
  lemma LateStoreMarksUnlisted(t: Table, u: Window, call: TableCall)
    requires RowsNamed(t) && call.StoreCall? && IsStorable(call) && call.window !in t
    requires u in t && t[u].state == Pending && call.window.end <= u.start && call.window !in t[u].listed
    ensures !AllMarkListed(TableAfter(t, call), [CloseCall(u.start), WriteCall(FullyConfirmed(t[u]))])
  {
    CallKeepsNames(t, call);
    UnlistedGetsMarked(TableAfter(t, call), u, call.window);
  }
}
