/** What the decisions of the vote list: which emails and actions, whatever the order in
    which the hits came. */
module HistoricalEvidence {
  import opened Sequences
  import opened HistoricalConsensus

  /** All emails that the decision could list. */
  ghost function Listable(th: Thresholds, t: Tally): set<string> {
    if Corrupt(t) != {} then Corrupt(t) else AllSupporters(t, Eligible(th, t))
  }

  /** The candidates before any is cut off. */
  ghost function AllCandidates(th: Thresholds, t: Tally, order: seq<string>): seq<Candidate> {
    var bad := Contradicted(t.votes, order);
    if bad != [] then LabelsOffered(t.votes, bad) else ActionsOffered(t.votes, order, EligibleInOrder(th, t, order))
  }

  /** `d` lists emails of `m`, none twice, as many as there are up to sixteen. */
  ghost predicate ListsUpToSixteen(evidence: seq<string>, m: set<string>) {
    && AreDistinct(evidence) && (forall e :: e in evidence ==> e in m)
    && |evidence| == (if |m| <= MAX_LISTED then |m| else MAX_LISTED)
  }

  lemma FrontLists(s: seq<string>, m: set<string>)
    requires IsEnumeration(s, m)
    ensures ListsUpToSixteen(Front(s), m)
    ensures |m| <= MAX_LISTED ==> Front(s) == s
  {
    EnumerationSize(s, m);
  }

  lemma AnyInOrder(th: Thresholds, t: Tally, order: seq<string>)
    requires IsEnumeration(order, t.votes.Keys)
    ensures IsEnumeration(Deduped(CarryingAny(t.votes, order, EligibleInOrder(th, t, order))),
                          AllSupporters(t, Eligible(th, t)))
  {
    var keys := EligibleInOrder(th, t, order);
    var all := CarryingAny(t.votes, order, keys);
    EligibleInOrderIs(th, t, order);
    CarryingAnyIs(t.votes, order, keys);
    DedupedIs(all);
    forall e
      ensures e in all <==> e in AllSupporters(t, Eligible(th, t))
    {
      if k :| k in keys && e in t.votes && t.votes[e] == {k} {
        assert e in Supporters(t, k);
      }
    }
    EnumerationIsDistinct(Deduped(all), AllSupporters(t, Eligible(th, t)));
  }

  lemma OneSupported(t: Tally, keys: set<Key>, k: Key)
    requires keys == {k}
    ensures AllSupporters(t, keys) == Supporters(t, k)
  {
  }

  /** Every decision but none lists emails that bear on it, none twice, and as many of them
      as there are up to sixteen. */
  lemma DecisionLists(th: Thresholds, t: Tally, order: seq<string>)
    requires IsEnumeration(order, t.votes.Keys)
    ensures var d := DecisionOf(th, t, order);
      d.Undecided? || ListsUpToSixteen(d.evidence, Listable(th, t))
  {
    CorruptInOrder(t, order);
    if Contradicted(t.votes, order) != [] {
      FrontLists(Contradicted(t.votes, order), Corrupt(t));
    } else {
      assert Corrupt(t) == {};
      AmongLists(th, t, order);
    }
  }

  lemma AmongLists(th: Thresholds, t: Tally, order: seq<string>)
    requires IsEnumeration(order, t.votes.Keys) && Corrupt(t) == {}
    ensures var d := DecisionAmong(t.votes, order, EligibleInOrder(th, t, order), Denominator(t));
      d.Undecided? || ListsUpToSixteen(d.evidence, AllSupporters(t, Eligible(th, t)))
  {
    var keys := EligibleInOrder(th, t, order);
    EligibleInOrderIs(th, t, order);
    if |keys| > 1 {
      AnyInOrder(th, t, order);
      FrontLists(Deduped(CarryingAny(t.votes, order, keys)), AllSupporters(t, Eligible(th, t)));
    } else if |keys| == 1 {
      OnlyMember(Eligible(th, t), keys[0]);
      OneSupported(t, Eligible(th, t), keys[0]);
      SupportersInOrder(t, order, keys[0]);
      FrontLists(Carrying(t.votes, order, {keys[0]}), Supporters(t, keys[0]));
    }
  }

  /** Some candidate of this fingerprint lists this email. */
  ghost predicate Offers(candidates: seq<Candidate>, fingerprint: string, e: string) {
    exists c :: c in candidates && c.fingerprint == fingerprint && e in c.evidence
  }

  lemma OffersEither(a: seq<Candidate>, b: seq<Candidate>, f: string, e: string)
    ensures Offers(a + b, f, e) <==> Offers(a, f, e) || Offers(b, f, e)
  {
    if c :| c in a && c.fingerprint == f && e in c.evidence {
      assert c in a + b;
    }
    if c :| c in b && c.fingerprint == f && e in c.evidence {
      assert c in a + b;
    }
  }

  /** Whether `e` carries a label of this fingerprint. */
  ghost predicate Carries(votes: Votes, e: string, fingerprint: string) {
    e in votes && exists k :: k in votes[e] && k.fingerprint == fingerprint
  }

  lemma {:induction false} LabelsOfferedIs(votes: Votes, emails: seq<string>, f: string, e: string)
    ensures Offers(LabelsOffered(votes, emails), f, e) <==> e in emails && Carries(votes, e, f)
  {
    if emails != [] {
      var n := |emails| - 1;
      LabelsOfferedIs(votes, emails[..n], f, e);
      var last := emails[n];
      var labels := if last in votes then SortedLabels(votes[last]) else [];
      var offered := seq(|labels|, i requires 0 <= i < |labels| => Candidate(labels[i].fingerprint, [last]));
      OffersEither(LabelsOffered(votes, emails[..n]), offered, f, e);
      LabelsOfOne(votes, last, labels, offered, f, e);
      assert emails == emails[..n] + [last];
    }
  }

  lemma LabelsOfOne(votes: Votes, last: string, labels: seq<Key>, offered: seq<Candidate>, f: string, e: string)
    requires labels == if last in votes then SortedLabels(votes[last]) else []
    requires |offered| == |labels|
    requires forall i :: 0 <= i < |offered| ==> offered[i] == Candidate(labels[i].fingerprint, [last])
    ensures Offers(offered, f, e) <==> e == last && Carries(votes, e, f)
  {
    if last in votes {
      SortedLabelsIs(votes[last]);
    }
    if e == last && Carries(votes, e, f) {
      var k :| k in votes[e] && k.fingerprint == f;
      var i :| 0 <= i < |labels| && labels[i] == k;
      assert offered[i] in offered;
    }
  }

  lemma {:induction false} ActionsOfferedIs(votes: Votes, order: seq<string>, keys: seq<Key>, f: string, e: string)
    ensures Offers(ActionsOffered(votes, order, keys), f, e) <==>
            exists k :: k in keys && k.fingerprint == f && e in Front(Carrying(votes, order, {k}))
  {
    if keys != [] {
      var n := |keys| - 1;
      var more := Candidate(keys[n].fingerprint, Front(Carrying(votes, order, {keys[n]})));
      ActionsOfferedIs(votes, order, keys[..n], f, e);
      OffersEither(ActionsOffered(votes, order, keys[..n]), [more], f, e);
      assert more in [more];
      assert keys == keys[..n] + [keys[n]];
    }
  }

  lemma RowsUncut(t: Tally, order: seq<string>, keys: set<Key>, k: Key)
    requires IsEnumeration(order, t.votes.Keys) && k in keys && |AllSupporters(t, keys)| <= MAX_LISTED
    ensures Front(Carrying(t.votes, order, {k})) == Carrying(t.votes, order, {k})
    ensures forall e :: e in Carrying(t.votes, order, {k}) <==> e in Supporters(t, k)
  {
    SupportersInOrder(t, order, k);
    SubsetSize(Supporters(t, k), AllSupporters(t, keys));
    EnumerationIsDistinct(Carrying(t.votes, order, {k}), Supporters(t, k));
  }

  lemma TieOffers(th: Thresholds, t: Tally, order: seq<string>, f: string, e: string)
    requires IsEnumeration(order, t.votes.Keys) && |AllSupporters(t, Eligible(th, t))| <= MAX_LISTED
    ensures Offers(ActionsOffered(t.votes, order, EligibleInOrder(th, t, order)), f, e) <==>
            e in AllSupporters(t, Eligible(th, t)) && Carries(t.votes, e, f)
  {
    var keys := EligibleInOrder(th, t, order);
    EligibleInOrderIs(th, t, order);
    ActionsOfferedIs(t.votes, order, keys, f, e);
    forall k | k in keys
      ensures Front(Carrying(t.votes, order, {k})) == Carrying(t.votes, order, {k})
      ensures e in Carrying(t.votes, order, {k}) <==> e in Supporters(t, k)
    {
      RowsUncut(t, order, Eligible(th, t), k);
    }
    if e in AllSupporters(t, Eligible(th, t)) && Carries(t.votes, e, f) {
      var k :| k in Eligible(th, t) && e in Supporters(t, k);
      assert k in keys && k.fingerprint == f;
    }
  }

  lemma CorruptOffers(t: Tally, order: seq<string>, f: string, e: string)
    requires IsEnumeration(order, t.votes.Keys)
    ensures Offers(LabelsOffered(t.votes, Contradicted(t.votes, order)), f, e) <==>
            e in Corrupt(t) && Carries(t.votes, e, f)
  {
    CorruptInOrder(t, order);
    LabelsOfferedIs(t.votes, Contradicted(t.votes, order), f, e);
  }

  lemma CandidatesAreFront(th: Thresholds, t: Tally, order: seq<string>)
    requires DecisionOf(th, t, order).InConflict?
    ensures DecisionOf(th, t, order).candidates == Front(AllCandidates(th, t, order))
  {
  }

  lemma AllOffered(th: Thresholds, t: Tally, order: seq<string>, f: string, e: string)
    requires IsEnumeration(order, t.votes.Keys) && |Listable(th, t)| <= MAX_LISTED
    ensures Offers(AllCandidates(th, t, order), f, e) <==> e in Listable(th, t) && Carries(t.votes, e, f)
  {
    CorruptInOrder(t, order);
    if Contradicted(t.votes, order) != [] {
      assert Contradicted(t.votes, order)[0] in Corrupt(t);
      CorruptOffers(t, order, f, e);
    } else {
      assert Corrupt(t) == {};
      TieOffers(th, t, order, f, e);
    }
  }

  /** When nothing is cut off, a conflict offers exactly the labels of the emails it lists,
      each with the emails that carry it. */
  lemma ConflictOffers(th: Thresholds, t: Tally, order: seq<string>, f: string, e: string)
    requires IsEnumeration(order, t.votes.Keys) && DecisionOf(th, t, order).InConflict?
    requires |Listable(th, t)| <= MAX_LISTED && |AllCandidates(th, t, order)| <= MAX_LISTED
    ensures Offers(DecisionOf(th, t, order).candidates, f, e) <==> e in Listable(th, t) && Carries(t.votes, e, f)
  {
    CandidatesAreFront(th, t, order);
    AllOffered(th, t, order, f, e);
  }

  lemma {:induction false} OrderIsEnumeration(hits: seq<Hit>)
    ensures IsEnumeration(OrderOf(hits), TallyOf(hits).votes.Keys)
  {
    if hits != [] {
      var n := |hits| - 1;
      var b := ReadHit(hits[n]);
      OrderIsEnumeration(hits[..n]);
      if b.Ballot? {
        AddsKey(TallyOf(hits[..n]), b);
        if b.email !in OrderOf(hits[..n]) {
          EnumerationSnoc(OrderOf(hits[..n]), TallyOf(hits[..n]).votes.Keys, b.email);
        }
      }
    }
  }

  lemma AddsKey(t: Tally, b: Ballot)
    requires b.Ballot?
    ensures Add(t, b).votes.Keys == t.votes.Keys + {b.email}
    ensures b.email in t.votes ==> Add(t, b).votes.Keys == t.votes.Keys
  {
  }

  /** The order of the hits changes no more than the order of the lists, as long as nothing
      is cut off: the same emails, and the same labels offered with the same emails. */
  lemma OrderOnlyReorders(th: Thresholds, a: seq<Hit>, b: seq<Hit>)
    requires multiset(a) == multiset(b)
    ensures var c, d := DecisionOf(th, TallyOf(a), OrderOf(a)), DecisionOf(th, TallyOf(b), OrderOf(b));
      && VerdictOf(c) == VerdictOf(d)
      && (!c.Undecided? ==> |c.evidence| == |d.evidence|)
      && (!c.Undecided? && |Listable(th, TallyOf(a))| <= MAX_LISTED ==>
            forall e :: e in c.evidence <==> e in d.evidence)
      && (c.InConflict? && |Listable(th, TallyOf(a))| <= MAX_LISTED
          && |AllCandidates(th, TallyOf(a), OrderOf(a))| <= MAX_LISTED
          && |AllCandidates(th, TallyOf(b), OrderOf(b))| <= MAX_LISTED ==>
            forall f, e :: Offers(c.candidates, f, e) <==> Offers(d.candidates, f, e))
  {
    PermutationTally(a, b);
    OrderIsEnumeration(a);
    OrderIsEnumeration(b);
    OrdersOnlyReorder(th, TallyOf(a), OrderOf(a), OrderOf(b));
  }

  lemma OrdersOnlyReorder(th: Thresholds, t: Tally, order: seq<string>, order': seq<string>)
    requires IsEnumeration(order, t.votes.Keys) && IsEnumeration(order', t.votes.Keys)
    ensures var c, d := DecisionOf(th, t, order), DecisionOf(th, t, order');
      && VerdictOf(c) == VerdictOf(d)
      && (!c.Undecided? ==> |c.evidence| == |d.evidence|)
      && (!c.Undecided? && |Listable(th, t)| <= MAX_LISTED ==> forall e :: e in c.evidence <==> e in d.evidence)
      && (c.InConflict? && |Listable(th, t)| <= MAX_LISTED
          && |AllCandidates(th, t, order)| <= MAX_LISTED && |AllCandidates(th, t, order')| <= MAX_LISTED ==>
            forall f, e :: Offers(c.candidates, f, e) <==> Offers(d.candidates, f, e))
  {
    var c, d := DecisionOf(th, t, order), DecisionOf(th, t, order');
    DecisionHasVerdict(th, t, order);
    DecisionHasVerdict(th, t, order');
    DecisionLists(th, t, order);
    DecisionLists(th, t, order');
    if !c.Undecided? && |Listable(th, t)| <= MAX_LISTED {
      ListsAll(c.evidence, Listable(th, t));
      ListsAll(d.evidence, Listable(th, t));
    }
    if && c.InConflict? && |Listable(th, t)| <= MAX_LISTED
       && |AllCandidates(th, t, order)| <= MAX_LISTED && |AllCandidates(th, t, order')| <= MAX_LISTED {
      forall f, e
        ensures Offers(c.candidates, f, e) <==> Offers(d.candidates, f, e)
      {
        ConflictOffers(th, t, order, f, e);
        ConflictOffers(th, t, order', f, e);
      }
    }
  }

  /** As many different members as the set has are all of them. */
  lemma {:induction false} ListsAll(s: seq<string>, m: set<string>)
    requires AreDistinct(s) && (forall e :: e in s ==> e in m) && |s| == |m|
    ensures forall e :: e in s <==> e in m
  {
    if s != [] {
      var n := |s| - 1;
      assert s[n] in s;
      forall e | e in s[..n]
        ensures e in m - {s[n]}
      {
        assert e in s;
      }
      ListsAll(s[..n], m - {s[n]});
      assert s == s[..n] + [s[n]];
    }
  }
}
