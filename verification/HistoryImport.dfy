/** Importing historical emails: paging them out of the mailbox server, and handing them to
    the vector store in batches, each once. */
module HistoryImport {
  import opened Sequences
  import opened Wrappers

  // ----------------------------------------------------------------- paging

  /** What asking for one listed item gives: no id to ask with, no usable answer, or an email. */
  datatype Detail<+T> = NoId | Unusable | Parsed(email: T)

  /** One answer to a list request: an error, or a page with the total the server claims. */
  datatype Answer<+T> = ListError | Page(total: Option<int>, items: seq<Detail<T>>)

  datatype Fetch<+T> = Fetched(emails: seq<T>) | Incomplete

  const PAGE_SIZE := 5
  const EFFECTIVELY_UNLIMITED := 999_999

  function MaxFetch(limit: int): nat {
    if limit > 0 then limit else EFFECTIVELY_UNLIMITED
  }

  function Min(a: int, b: int): int {
    if a < b then a else b
  }

  function ParsedOf<T>(items: seq<Detail<T>>): seq<T> {
    if items == [] then []
    else ParsedOf(items[..|items| - 1]) + match items[|items| - 1]
                                           case Parsed(email) => [email]
                                           case _ => []
  }

  /** A server that holds `mailbox` and answers every request for a part of it in full. */
  ghost predicate Serves<T(!new)>(server: (nat, nat) -> Answer<T>, mailbox: seq<T>) {
    forall offset: nat, limit: nat :: offset <= |mailbox| ==>
      var part := mailbox[offset..Min(offset + limit, |mailbox|)];
      && server(offset, limit).Page?
      && server(offset, limit).total == Some(|mailbox|)
      && |server(offset, limit).items| == |part|
      && forall i :: 0 <= i < |part| ==> server(offset, limit).items[i] == Parsed(part[i])
  }

  /** The total claimed by the first answered page that claims one. */
  function FirstClaim<T>(server: (nat, nat) -> Answer<T>, requests: seq<(nat, nat)>): Option<int> {
    if requests == [] then None
    else
      var answer := server(requests[0].0, requests[0].1);
      if answer.Page? && answer.total.Some? then answer.total else FirstClaim(server, requests[1..])
  }

  function ItemsOf<T>(answer: Answer<T>): nat {
    if answer.Page? then |answer.items| else 0
  }

  function ItemsListed<T>(server: (nat, nat) -> Answer<T>, requests: seq<(nat, nat)>): nat {
    if requests == [] then 0
    else ItemsOf(server(requests[0].0, requests[0].1)) + ItemsListed(server, requests[1..])
  }

  /** Each request, from offset `start` on, asks for a page after everything listed so far. */
  ghost predicate IsTranscript<T>(server: (nat, nat) -> Answer<T>, requests: seq<(nat, nat)>, start: nat)
    decreases |requests|
  {
    requests == []
    || (&& requests[0].0 == start && 1 <= requests[0].1 <= PAGE_SIZE
        && IsTranscript(server, requests[1..], start + ItemsOf(server(requests[0].0, requests[0].1))))
  }

  // ----------------------------------------------- the reading, turn by turn

  datatype Reading<+T> = Reading(results: seq<T>, offset: nat, failures: nat, claimed: Option<int>)

  function PageSize<T>(maxFetch: nat, s: Reading<T>): (n: nat)
    requires |s.results| < maxFetch
    ensures 1 <= n <= PAGE_SIZE
  {
    Min(PAGE_SIZE, maxFetch - |s.results|)
  }

  /** The reading after one answered page. */
  function Turned<T>(s: Reading<T>, total: Option<int>, items: seq<Detail<T>>): (t: Reading<T>)
    ensures |s.results| + s.failures == s.offset ==> |t.results| + t.failures == t.offset
  {
    ParsedIsNoLonger(items);
    Reading(s.results + ParsedOf(items), s.offset + |items|, s.failures + |items| - |ParsedOf(items)|,
            if s.claimed.Some? then s.claimed else total)
  }

  /** The checks after the loop. */
  function Finished<T>(maxFetch: nat, s: Reading<T>): Fetch<T> {
    var expected := Min(if s.claimed.Some? then s.claimed.value else 0, maxFetch);
    if s.offset != expected || s.failures > 0 then Incomplete else Fetched(s.results)
  }

  /** What a reading comes to when the server answers `patience` more requests. */
  function FetchFrom<T>(server: (nat, nat) -> Answer<T>, maxFetch: nat, patience: nat, s: Reading<T>): Fetch<T>
    decreases patience
  {
    if |s.results| >= maxFetch then Finished(maxFetch, s)
    else if patience == 0 then Incomplete
    else match server(s.offset, PageSize(maxFetch, s))
      case ListError => Incomplete
      case Page(total, items) =>
        var t := Turned(s, total, items);
        if |items| < PageSize(maxFetch, s) then Finished(maxFetch, t)
        else FetchFrom(server, maxFetch, patience - 1, t)
  }

  /** The list requests that takes. */
  function RequestsFrom<T>(server: (nat, nat) -> Answer<T>, maxFetch: nat, patience: nat, s: Reading<T>)
    : seq<(nat, nat)>
    decreases patience
  {
    if |s.results| >= maxFetch || patience == 0 then []
    else
      var size := PageSize(maxFetch, s);
      [(s.offset, size)] +
      match server(s.offset, size)
      case ListError => []
      case Page(total, items) =>
        if |items| < size then [] else RequestsFrom(server, maxFetch, patience - 1, Turned(s, total, items))
  }

  function NothingRead<T>(): Reading<T> {
    Reading([], 0, 0, None)
  }

  lemma {:induction false} ParsedIsNoLonger<T>(items: seq<Detail<T>>)
    ensures |ParsedOf(items)| <= |items|
  {
    if items != [] {
      ParsedIsNoLonger(items[..|items| - 1]);
    }
  }

  /** Reads pages until the limit, an empty page or a short one. The server is any answer
      for every offset and page size; after `patience` requests it stops answering. */
  method FetchExchangeEmails<T>(server: (nat, nat) -> Answer<T>, patience: nat, limit: int) returns (r: Fetch<T>)
    ensures r == FetchFrom(server, MaxFetch(limit), patience, NothingRead())
  {
    var maxFetch := MaxFetch(limit);
    var s: Reading<T> := NothingRead();
    var page := 0;
    while |s.results| < maxFetch
      invariant page <= patience
      invariant FetchFrom(server, maxFetch, patience - page, s) == FetchFrom(server, maxFetch, patience, NothingRead())
      decreases patience - page
    {
      if page == patience {
        return Incomplete;
      }
      var pageSize := PageSize(maxFetch, s);
      page := page + 1;
      var answer := server(s.offset, pageSize);
      if answer.ListError? {
        return Incomplete;
      }
      var results, failures := FetchDetails(answer.items, s.results, s.failures);
      s := Reading(results, s.offset + |answer.items|, failures, if s.claimed.Some? then s.claimed else answer.total);
      if |answer.items| < pageSize {
        return Finished(maxFetch, s);
      }
    }
    return Finished(maxFetch, s);
  }

  /** Every request asks for what follows, and a reading that is not refused holds as many
      emails as were listed: the smaller of the limit and the total that the first page to
      claim one claimed. */
  lemma {:induction false} ReadingCounts<T>(server: (nat, nat) -> Answer<T>, maxFetch: nat, patience: nat,
                                            s: Reading<T>)
    requires |s.results| + s.failures == s.offset
    ensures var requests := RequestsFrom(server, maxFetch, patience, s);
      var r := FetchFrom(server, maxFetch, patience, s);
      var total := if s.claimed.Some? then s.claimed else FirstClaim(server, requests);
      && IsTranscript(server, requests, s.offset)
      && (r.Fetched? ==>
            |r.emails| == s.offset + ItemsListed(server, requests)
            == Min(if total.Some? then total.value else 0, maxFetch))
    decreases patience
  {
    if |s.results| < maxFetch && patience > 0 {
      var size := PageSize(maxFetch, s);
      var answer := server(s.offset, size);
      if answer.Page? && |answer.items| >= size {
        var t := Turned(s, answer.total, answer.items);
        ReadingCounts(server, maxFetch, patience - 1, t);
        RequestFirst(server, (s.offset, size), RequestsFrom(server, maxFetch, patience - 1, t));
      } else {
        RequestFirst(server, (s.offset, size), []);
      }
    }
  }

  /** One request before others. */
  lemma RequestFirst<T>(server: (nat, nat) -> Answer<T>, first: (nat, nat), rest: seq<(nat, nat)>)
    requires 1 <= first.1 <= PAGE_SIZE
    requires IsTranscript(server, rest, first.0 + ItemsOf(server(first.0, first.1)))
    ensures IsTranscript(server, [first] + rest, first.0)
    ensures ItemsListed(server, [first] + rest) == ItemsOf(server(first.0, first.1)) + ItemsListed(server, rest)
    ensures var answer := server(first.0, first.1);
      FirstClaim(server, [first] + rest) ==
      if answer.Page? && answer.total.Some? then answer.total else FirstClaim(server, rest)
  {
    assert ([first] + rest)[1..] == rest;
  }

  /** If the read returns, it holds exactly the smaller of the server's total and the limit. */
  lemma FetchIsExact<T>(server: (nat, nat) -> Answer<T>, patience: nat, limit: int)
    ensures var requests := RequestsFrom(server, MaxFetch(limit), patience, NothingRead());
      var r := FetchFrom(server, MaxFetch(limit), patience, NothingRead());
      var total := FirstClaim(server, requests);
      && IsTranscript(server, requests, 0)
      && (r.Fetched? ==>
            |r.emails| == ItemsListed(server, requests)
            == Min(if total.Some? then total.value else 0, MaxFetch(limit)))
  {
    ReadingCounts<T>(server, MaxFetch(limit), patience, NothingRead());
  }

  /** A reading of a served mailbox that has come as far as `s`. */
  ghost predicate OnTrack<T>(mailbox: seq<T>, maxFetch: nat, s: Reading<T>) {
    && s.failures == 0 && s.offset <= |mailbox| && s.offset <= maxFetch && s.results == mailbox[..s.offset]
    && s.claimed in {None, Some(|mailbox|)}
    && (s.claimed.None? ==> s.offset == 0 < maxFetch)
  }

  lemma {:induction false} ServedFrom<T(!new)>(
    server: (nat, nat) -> Answer<T>, maxFetch: nat, patience: nat, s: Reading<T>, mailbox: seq<T>)
    requires Serves(server, mailbox) && OnTrack(mailbox, maxFetch, s)
    requires patience * PAGE_SIZE > |mailbox| - s.offset
    ensures FetchFrom(server, maxFetch, patience, s) == Fetched(mailbox[..Min(|mailbox|, maxFetch)])
    decreases patience
  {
    if |s.results| < maxFetch {
      var size := PageSize(maxFetch, s);
      var answer := server(s.offset, size);
      ServedTurn(server, maxFetch, s, mailbox);
      FetchStep(server, maxFetch, patience, s);
      var t := Turned(s, answer.total, answer.items);
      if t.offset == maxFetch || t.offset == |mailbox| {
        OnTrackEnds(maxFetch, t, mailbox);
      }
      if |answer.items| == size && t.offset < maxFetch {
        ServedFrom(server, maxFetch, patience - 1, t, mailbox);
      }
    } else {
      OnTrackEnds(maxFetch, s, mailbox);
    }
  }

  /** A reading goes on only after a full page that leaves room for another. */
  lemma FetchStep<T>(server: (nat, nat) -> Answer<T>, maxFetch: nat, patience: nat, s: Reading<T>)
    requires patience > 0 && |s.results| < maxFetch && server(s.offset, PageSize(maxFetch, s)).Page?
    ensures var answer := server(s.offset, PageSize(maxFetch, s));
      var t := Turned(s, answer.total, answer.items);
      FetchFrom(server, maxFetch, patience, s) ==
      if |answer.items| < PageSize(maxFetch, s) || |t.results| >= maxFetch then Finished(maxFetch, t)
      else FetchFrom(server, maxFetch, patience - 1, t)
  {
  }

  lemma OnTrackEnds<T>(maxFetch: nat, s: Reading<T>, mailbox: seq<T>)
    requires OnTrack(mailbox, maxFetch, s) && s.claimed.Some? && (s.offset == maxFetch || s.offset == |mailbox|)
    ensures Finished(maxFetch, s) == Fetched(mailbox[..Min(|mailbox|, maxFetch)])
  {
  }

  /** One page of a served mailbox. */
  lemma ServedTurn<T(!new)>(server: (nat, nat) -> Answer<T>, maxFetch: nat, s: Reading<T>, mailbox: seq<T>)
    requires Serves(server, mailbox) && OnTrack(mailbox, maxFetch, s) && |s.results| < maxFetch
    ensures var size := PageSize(maxFetch, s);
      var answer := server(s.offset, size);
      && answer.Page? && |answer.items| == Min(size, |mailbox| - s.offset)
      && var t := Turned(s, answer.total, answer.items);
        OnTrack(mailbox, maxFetch, t) && t.claimed.Some? && t.offset == s.offset + |answer.items|
  {
    ServedPage(server, mailbox, s.offset, PageSize(maxFetch, s));
  }

  /** From a server that serves a mailbox and answers often enough, the read returns the
      front of it. */
  lemma ServedMailboxIsRead<T(!new)>(server: (nat, nat) -> Answer<T>, patience: nat, limit: int, mailbox: seq<T>)
    requires Serves(server, mailbox) && patience * PAGE_SIZE > |mailbox|
    ensures FetchFrom(server, MaxFetch(limit), patience, NothingRead()) ==
            Fetched(mailbox[..Min(|mailbox|, MaxFetch(limit))])
  {
    ServedFrom(server, MaxFetch(limit), patience, NothingRead(), mailbox);
  }

  /** Fetches the listed items one by one. */
  method FetchDetails<T>(items: seq<Detail<T>>, results: seq<T>, failures: nat)
    returns (results': seq<T>, failures': nat)
    ensures results' == results + ParsedOf(items)
    ensures |results'| + failures' == |results| + failures + |items|
  {
    results', failures' := results, failures;
    for i := 0 to |items|
      invariant results' == results + ParsedOf(items[..i])
      invariant |results'| + failures' == |results| + failures + i
    {
      assert items[..i + 1][..i] == items[..i];
      match items[i]
      case Parsed(email) => results' := results' + [email];
      case _ => failures' := failures' + 1;
    }
    assert items[..|items|] == items;
  }

  lemma {:induction false} AllParsed<T>(items: seq<Detail<T>>, emails: seq<T>)
    requires |items| == |emails| && forall i :: 0 <= i < |items| ==> items[i] == Parsed(emails[i])
    ensures ParsedOf(items) == emails
  {
    if items != [] {
      var n := |items| - 1;
      AllParsed(items[..n], emails[..n]);
      assert emails == emails[..n] + [emails[n]];
    }
  }

  lemma ServedPage<T(!new)>(server: (nat, nat) -> Answer<T>, mailbox: seq<T>, offset: nat, limit: nat)
    requires Serves(server, mailbox) && offset <= |mailbox|
    ensures server(offset, limit).Page? && server(offset, limit).total == Some(|mailbox|)
    ensures forall i :: 0 <= i < |server(offset, limit).items| ==> server(offset, limit).items[i].Parsed?
    ensures var n := |server(offset, limit).items|;
      && n == Min(limit, |mailbox| - offset)
      && mailbox[..offset] + ParsedOf(server(offset, limit).items) == mailbox[..offset + n]
  {
    var part := mailbox[offset..Min(offset + limit, |mailbox|)];
    AllParsed(server(offset, limit).items, part);
  }

  // --------------------------------------------------------------- importing

  /** An email as the import sees it: whether its body is nothing but white space, and its
      source-independent identity. */
  datatype Email = Email(blank: bool, key: string)

  datatype Stats = Stats(total: nat, imported: nat, skipped: nat, duplicates: nat, failed: nat)

  /** The keys of the emails that count: not empty, and the first with their key. */
  function FirstKeys(emails: seq<Email>): seq<string> {
    if emails == [] then []
    else
      var before, last := FirstKeys(emails[..|emails| - 1]), emails[|emails| - 1];
      if last.blank || last.key in before then before else before + [last.key]
  }

  function EmptyCount(emails: seq<Email>): nat {
    if emails == [] then 0
    else EmptyCount(emails[..|emails| - 1]) + if emails[|emails| - 1].blank then 1 else 0
  }

  lemma {:induction false} FirstKeysDistinct(emails: seq<Email>)
    ensures AreDistinct(FirstKeys(emails))
    ensures forall e :: e in emails && !e.blank ==> e.key in FirstKeys(emails)
  {
    if emails != [] {
      FirstKeysDistinct(emails[..|emails| - 1]);
    }
  }

  /** A run of the import. */
  class ImportRun {
    var stats: Stats
    /** The batches handed to the processor, in order. */
    var handed: seq<seq<string>>

    constructor ()
      ensures stats == Stats(0, 0, 0, 0, 0) && handed == []
    {
      stats, handed := Stats(0, 0, 0, 0, 0), [];
    }

    /** The processor answers a number of points, positive or not, or raises. */
    method ProcessBatch(batch: seq<string>) returns (raised: bool, points: int)
      modifies this`handed
      ensures handed == old(handed) + [batch]
    {
      handed := handed + [batch];
      raised, points := *, *;
    }

    /** False when the processor raises before the last flush, which ends the import. When
        it ends normally every email is counted once: as empty, as a duplicate, or as
        imported or failed; and the processor was handed the key of every first email
        that is not empty, each once, in order. */
    method RunImport(emails: seq<Email>, batchSize: int, dryRun: bool) returns (ok: bool)
      requires stats == Stats(0, 0, 0, 0, 0) && handed == []
      modifies this
      ensures ok ==>
        && stats.total == |emails| == stats.imported + stats.skipped + stats.duplicates + stats.failed
        && stats.skipped == EmptyCount(emails)
        && stats.imported + stats.failed == |FirstKeys(emails)|
      ensures ok ==> Flatten(handed) == if dryRun then [] else FirstKeys(emails)
      ensures Flatten(handed) <= FirstKeys(emails)
      ensures dryRun ==> ok && stats.failed == 0
      ensures GoodBatches(handed, batchSize)
    {
      ghost var n;
      ok, n := ImportAll(emails, batchSize, dryRun);
      TallyIs(emails, n);
      FirstKeysGrow(emails, n);
      assert emails[..|emails|] == emails;
    }

    /** The import loop and the last flush; `n` is how many emails were read. */
    method ImportAll(emails: seq<Email>, batchSize: int, dryRun: bool)
      returns (ok: bool, ghost n: nat)
      requires stats == Stats(0, 0, 0, 0, 0) && handed == []
      modifies this
      ensures GoodBatches(handed, batchSize)
      ensures n <= |emails| && (ok ==> n == |emails|) && (dryRun ==> ok)
      ensures ok ==> Accounts(TallyOf(emails, n), |TallyOf(emails, n).keys|, dryRun, stats)
      ensures Flatten(handed) == if dryRun then [] else TallyOf(emails, n).keys
    {
      var batch: seq<string>, seen: set<string> := [], {};
      ghost var tally := Tally(0, 0, []);
      var i := 0;
      ok := true;
      while i < |emails| && ok
        invariant i <= |emails| && tally == TallyOf(emails, i)
        invariant ok ==> Progress(tally, batch, seen, batchSize, dryRun, stats, handed)
        invariant !ok ==> !dryRun && Flatten(handed) == tally.keys && GoodBatches(handed, batchSize)
      {
        var raised;
        raised, batch, seen := ImportOne(tally, emails[i], batch, seen, batchSize, dryRun);
        tally := Counted(tally, emails[i]);
        i := i + 1;
        ok := !raised;
      }
      n := i;
      if ok {
        FlushLast(tally, batch, seen, batchSize, dryRun);
      }
    }

    /** The last flush counts its batch as failed when the processor raises. */
    method FlushLast(ghost tally: Tally, batch: seq<string>, ghost seen: set<string>, ghost batchSize: int,
                     dryRun: bool)
      requires Progress(tally, batch, seen, batchSize, dryRun, stats, handed)
      modifies this
      ensures Accounts(tally, |tally.keys|, dryRun, stats) && GoodBatches(handed, batchSize)
      ensures Flatten(handed) == if dryRun then [] else tally.keys
    {
      if batch != [] && !dryRun {
        var raised := Flush(batch);
        if raised {
          stats := stats.(failed := stats.failed + |batch|);
        }
      }
    }

    /** One turn of the import loop. */
    method ImportOne(ghost tally: Tally, email: Email, batch: seq<string>, seen: set<string>, batchSize: int,
                     dryRun: bool)
      returns (raised: bool, batch': seq<string>, seen': set<string>)
      requires Progress(tally, batch, seen, batchSize, dryRun, stats, handed)
      modifies this
      ensures !raised ==> Progress(Counted(tally, email), batch', seen', batchSize, dryRun, stats, handed)
      ensures raised ==> !dryRun && Flatten(handed) == Counted(tally, email).keys && GoodBatches(handed, batchSize)
    {
      raised, batch', seen' := false, batch, seen;
      stats := stats.(total := stats.total + 1);
      if email.blank {
        stats := stats.(skipped := stats.skipped + 1);
        return;
      }
      if email.key in seen {
        stats := stats.(duplicates := stats.duplicates + 1);
        return;
      }
      seen' := seen + {email.key};
      if dryRun {
        stats := stats.(imported := stats.imported + 1);
        return;
      }
      raised, batch' := Enqueue(tally.keys, email.key, batch, batchSize);
    }

    /** Adds a key to the batch and flushes a full one. */
    method Enqueue(ghost keys: seq<string>, key: string, batch: seq<string>, batchSize: int)
      returns (raised: bool, batch': seq<string>)
      requires Flatten(handed) + batch == keys && GoodBatches(handed, batchSize) && (|batch| < batchSize || batch == [])
      modifies this
      ensures GoodBatches(handed, batchSize)
      ensures raised ==> Flatten(handed) == keys + [key]
      ensures !raised ==> Flatten(handed) + batch' == keys + [key] && (|batch'| < batchSize || batch' == [])
      ensures !raised ==>
        && stats == old(stats).(imported := stats.imported, failed := stats.failed)
        && stats.imported + stats.failed - |Flatten(handed)|
           == old(stats).imported + old(stats).failed - |Flatten(old(handed))|
    {
      raised, batch' := false, batch + [key];
      assert Flatten(handed) + batch' == keys + [key];
      if |batch'| >= batchSize {
        raised := Flush(batch');
        batch' := [];
      }
    }

    /** Hands a batch over and counts it, unless the processor raises. */
    method Flush(batch: seq<string>) returns (raised: bool)
      modifies this
      ensures handed == old(handed) + [batch] && Flatten(handed) == Flatten(old(handed)) + batch
      ensures raised ==> stats == old(stats)
      ensures !raised ==>
        || stats == old(stats).(imported := old(stats).imported + |batch|)
        || stats == old(stats).(failed := old(stats).failed + |batch|)
    {
      FlattenSnoc(handed, batch);
      var points: int;
      raised, points := ProcessBatch(batch);
      if raised {
        return;
      }
      if points > 0 {
        stats := stats.(imported := stats.imported + |batch|);
      } else {
        stats := stats.(failed := stats.failed + |batch|);
      }
    }
  }

  /** What the emails so far amount to. */
  datatype Tally = Tally(total: nat, blanks: nat, keys: seq<string>)

  /** The tally of the first `n` emails. */
  ghost function TallyOf(emails: seq<Email>, n: nat): Tally
    requires n <= |emails|
  {
    if n == 0 then Tally(0, 0, []) else Counted(TallyOf(emails, n - 1), emails[n - 1])
  }

  lemma {:induction false} TallyIs(emails: seq<Email>, n: nat)
    requires n <= |emails|
    ensures TallyOf(emails, n) == Tally(n, EmptyCount(emails[..n]), FirstKeys(emails[..n]))
  {
    if n > 0 {
      assert emails[..n][..n - 1] == emails[..n - 1];
      TallyIs(emails, n - 1);
    }
  }

  ghost function Counted(t: Tally, e: Email): Tally {
    if e.blank then t.(total := t.total + 1, blanks := t.blanks + 1)
    else if e.key in t.keys then t.(total := t.total + 1)
    else t.(total := t.total + 1, keys := t.keys + [e.key])
  }

  /** Every email so far is counted, those that wait in the batch excepted: `counted` are
      those handed over, or seen when nothing is imported. */
  ghost predicate Accounts(t: Tally, counted: nat, dryRun: bool, s: Stats) {
    && s.total == t.total && s.skipped == t.blanks
    && s.duplicates == t.total - t.blanks - |t.keys|
    && s.imported + s.failed == counted
    && (dryRun ==> s.failed == 0)
  }

  ghost predicate GoodBatches(handed: seq<seq<string>>, batchSize: int) {
    forall k :: 0 <= k < |handed| ==> 1 <= |handed[k]| && (|handed[k]| <= batchSize || |handed[k]| == 1)
  }

  ghost predicate Progress(t: Tally, batch: seq<string>, seen: set<string>, batchSize: int, dryRun: bool, s: Stats,
                           handed: seq<seq<string>>)
  {
    && (forall k :: k in seen <==> k in t.keys)
    && Flatten(handed) + batch == (if dryRun then [] else t.keys)
    && Accounts(t, if dryRun then |t.keys| else |Flatten(handed)|, dryRun, s)
    && (|batch| < batchSize || batch == [])
    && GoodBatches(handed, batchSize)
  }

  lemma {:induction false} FirstKeysGrow(emails: seq<Email>, i: nat)
    requires i <= |emails|
    ensures FirstKeys(emails[..i]) <= FirstKeys(emails)
    decreases |emails| - i
  {
    if i == |emails| {
      assert emails[..i] == emails;
    } else {
      assert emails[..i + 1][..i] == emails[..i];
      FirstKeysGrow(emails, i + 1);
    }
  }

  lemma {:induction false} FrontDistinct(keys: seq<string>, front: seq<string>)
    requires AreDistinct(keys) && front <= keys
    ensures AreDistinct(front)
  {
  }

  /** However the import ends, what was handed over holds no key twice. */
  lemma NoKeyTwice(emails: seq<Email>, handed: seq<seq<string>>)
    requires Flatten(handed) <= FirstKeys(emails)
    ensures AreDistinct(Flatten(handed))
  {
    FirstKeysDistinct(emails);
    FrontDistinct(FirstKeys(emails), Flatten(handed));
  }
}
