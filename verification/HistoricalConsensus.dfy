/** The vote over historical emails: which past routing decision, if any, the evidence
    agrees on. */
module HistoricalConsensus {
  import opened Wrappers
  import opened Utf8
  import opened PythonText
  import opened Sequences
  import CanonicalJson

  /** An `id` or `email_id` entry of a hit: missing or falsy, a non-empty string, or some
      other truthy value. */
  datatype Field = Falsy | Text(text: string) | OtherValue

  /** A fingerprint stands for the action it is computed from: SHA-256 is taken to be
      injective. */
  datatype Key = Key(version: nat, fingerprint: string)

  /** `key`: the version and fingerprint of the hit's label, or None when the label is
      missing, invalid, not matched or without a route. */
  datatype Hit = Hit(id: Field, emailId: Field, key: Option<Key>)

  /** A hit as the vote sees it: without a usable identity, or an email with a label or none. */
  datatype Ballot = Unidentified | Ballot(email: string, key: Option<Key>)

  /** The thresholds: at least `minHits` votes and at least `ratioNum / ratioDen` of all evidence. */
  datatype Thresholds = Thresholds(minHits: int, ratioNum: int, ratioDen: nat)

  const DEFAULT := Thresholds(2, 1, 2)

  datatype Verdict = NoConsensus | Conflict | Matched(key: Key, votes: nat, denominator: nat)

  /** An action that a conflict offers, with emails that carry it. */
  datatype Candidate = Candidate(fingerprint: string, evidence: seq<string>)

  /** A verdict with the emails and actions it lists. */
  datatype Decision =
    | Undecided
    | InConflict(evidence: seq<string>, candidates: seq<Candidate>)
    | Decided(key: Key, votes: nat, denominator: nat, evidence: seq<string>)

  function VerdictOf(d: Decision): Verdict {
    match d
    case Undecided => NoConsensus
    case InConflict(_, _) => Conflict
    case Decided(key, votes, denominator, _) => Matched(key, votes, denominator)
  }

  // ---------------------------------------------------------------- the tally

  function ReadHit(h: Hit): Ballot {
    var raw := if h.id == Falsy then h.emailId else h.id;
    if raw.Text? && Strip(raw.text) != "" && Size(raw.text) <= 512 then Ballot(raw.text, h.key)
    else Unidentified
  }

  /** The labels each identified email carries, and the hits that belong to no email. */
  datatype Tally = Tally(votes: map<string, set<Key>>, unidentified: nat)

  function VoteOf(b: Ballot): set<Key> {
    if b.Ballot? && b.key.Some? then {b.key.value} else {}
  }

  function VotesFor(t: Tally, e: string): set<Key> {
    if e in t.votes then t.votes[e] else {}
  }

  function Add(t: Tally, b: Ballot): Tally {
    if b.Unidentified? then t.(unidentified := t.unidentified + 1)
    else t.(votes := t.votes[b.email := VotesFor(t, b.email) + VoteOf(b)])
  }

  function TallyOf(hits: seq<Hit>): Tally {
    if hits == [] then Tally(map[], 0) else Add(TallyOf(hits[..|hits| - 1]), ReadHit(hits[|hits| - 1]))
  }

  // -------------------------------------------------------------- the verdict

  function Denominator(t: Tally): nat {
    if |t.votes| + t.unidentified == 0 then 1 else |t.votes| + t.unidentified
  }

  /** The emails whose only label is `k`. */
  function Supporters(t: Tally, k: Key): set<string> {
    set e | e in t.votes && t.votes[e] == {k}
  }

  /** The labels that are some email's only one. */
  function Choices(t: Tally): set<Key> {
    set e, k | e in t.votes && k in t.votes[e] && t.votes[e] == {k} :: k
  }

  predicate Meets(th: Thresholds, votes: nat, denominator: nat) {
    votes >= th.minHits && votes * th.ratioDen >= th.ratioNum * denominator
  }

  function Eligible(th: Thresholds, t: Tally): set<Key> {
    set k | k in Choices(t) && Meets(th, |Supporters(t, k)|, Denominator(t))
  }

  /** The verdict, said of the evidence as a whole: contradictory labels for one email or
      several eligible actions are a conflict. */
  ghost function Consensus(th: Thresholds, t: Tally): Verdict {
    var eligible := Eligible(th, t);
    if exists e :: e in t.votes && |t.votes[e]| > 1 then Conflict
    else if eligible == {} then NoConsensus
    else if |eligible| > 1 then Conflict
    else
      var k :| k in eligible;
      Matched(k, |Supporters(t, k)|, Denominator(t))
  }

  // ------------------------------------------------------------- the decision

  type Votes = map<string, set<Key>>

  const MAX_LISTED := 16

  function Front<T>(s: seq<T>): seq<T> {
    if |s| <= MAX_LISTED then s else s[..MAX_LISTED]
  }

  /** The identified emails in order of first sight. */
  function OrderOf(hits: seq<Hit>): seq<string> {
    if hits == [] then []
    else
      var before, b := OrderOf(hits[..|hits| - 1]), ReadHit(hits[|hits| - 1]);
      if b.Ballot? && b.email !in before then before + [b.email] else before
  }

  /** The emails whose labels are exactly these. */
  function Carrying(votes: Votes, order: seq<string>, labels: set<Key>): seq<string> {
    if order == [] then []
    else
      var e := order[|order| - 1];
      Carrying(votes, order[..|order| - 1], labels) + if e in votes && votes[e] == labels then [e] else []
  }

  /** The emails that carry several labels. */
  function Contradicted(votes: Votes, order: seq<string>): seq<string> {
    if order == [] then []
    else
      var e := order[|order| - 1];
      Contradicted(votes, order[..|order| - 1]) + if e in votes && |votes[e]| > 1 then [e] else []
  }

  /** The labels that are some email's only one, in order of the first such email. */
  ghost function ChoicesInOrder(votes: Votes, order: seq<string>): seq<Key> {
    if order == [] then []
    else
      var before, e := ChoicesInOrder(votes, order[..|order| - 1]), order[|order| - 1];
      if k :| e in votes && votes[e] == {k} && k !in before then before + [k] else before
  }

  function Meeting(th: Thresholds, votes: Votes, order: seq<string>, keys: seq<Key>, denominator: nat): seq<Key> {
    if keys == [] then []
    else
      var k := keys[|keys| - 1];
      Meeting(th, votes, order, keys[..|keys| - 1], denominator)
      + if Meets(th, |Carrying(votes, order, {k})|, denominator) then [k] else []
  }

  /** Tuples of version and fingerprint, as Python compares them. */
  predicate KeyBefore(j: Key, k: Key) {
    j.version < k.version || (j.version == k.version && CanonicalJson.Before(j.fingerprint, k.fingerprint))
  }

  predicate IsLeast(k: Key, keys: set<Key>) {
    k in keys && forall j :: j in keys && j != k ==> KeyBefore(k, j)
  }

  /** `sorted` of an email's labels. */
  function SortedLabels(keys: set<Key>): seq<Key> {
    if keys == {} then []
    else
      LeastExists(keys);
      var k :| k in keys && IsLeast(k, keys);
      [k] + SortedLabels(keys - {k})
  }

  /** One candidate for each label of each contradicted email. */
  function LabelsOffered(votes: Votes, emails: seq<string>): seq<Candidate> {
    if emails == [] then []
    else
      var e := emails[|emails| - 1];
      var labels := if e in votes then SortedLabels(votes[e]) else [];
      LabelsOffered(votes, emails[..|emails| - 1])
      + seq(|labels|, i requires 0 <= i < |labels| => Candidate(labels[i].fingerprint, [e]))
  }

  /** One candidate for each eligible label. */
  function ActionsOffered(votes: Votes, order: seq<string>, keys: seq<Key>): seq<Candidate> {
    if keys == [] then []
    else
      var k := keys[|keys| - 1];
      ActionsOffered(votes, order, keys[..|keys| - 1])
      + [Candidate(k.fingerprint, Front(Carrying(votes, order, {k})))]
  }

  /** The emails that carry one of these labels alone, label by label. */
  function CarryingAny(votes: Votes, order: seq<string>, keys: seq<Key>): seq<string> {
    if keys == [] then []
    else CarryingAny(votes, order, keys[..|keys| - 1]) + Carrying(votes, order, {keys[|keys| - 1]})
  }

  /** `list(dict.fromkeys(s))`. */
  function Deduped(s: seq<string>): seq<string> {
    if s == [] then []
    else
      var before := Deduped(s[..|s| - 1]);
      if s[|s| - 1] in before then before else before + [s[|s| - 1]]
  }

  /** The labels that the decision weighs and finds enough. */
  ghost function EligibleInOrder(th: Thresholds, t: Tally, order: seq<string>): seq<Key> {
    Meeting(th, t.votes, order, ChoicesInOrder(t.votes, order), Denominator(t))
  }

  /** The decision on evidence without contradictions. */
  function DecisionAmong(votes: Votes, order: seq<string>, eligible: seq<Key>, denominator: nat): Decision {
    if eligible == [] then Undecided
    else if |eligible| > 1 then
      InConflict(Front(Deduped(CarryingAny(votes, order, eligible))), Front(ActionsOffered(votes, order, eligible)))
    else
      var rows := Carrying(votes, order, {eligible[0]});
      Decided(eligible[0], |rows|, denominator, Front(rows))
  }

  ghost function DecisionOf(th: Thresholds, t: Tally, order: seq<string>): Decision {
    var bad := Contradicted(t.votes, order);
    if bad != [] then InConflict(Front(bad), Front(LabelsOffered(t.votes, bad)))
    else DecisionAmong(t.votes, order, EligibleInOrder(th, t, order), Denominator(t))
  }

  // --------------------------------------------------------- the vote counter

  class HistoricalRouteConsensus {
    const thresholds: Thresholds

    constructor (thresholds: Thresholds)
      ensures this.thresholds == thresholds
    {
      this.thresholds := thresholds;
    }

    /** One pass over the hits, one over the evidence, one over the groups. */
    method Decide(hits: seq<Hit>) returns (d: Decision)
      ensures d == DecisionOf(thresholds, TallyOf(hits), OrderOf(hits))
      ensures VerdictOf(d) == Consensus(thresholds, TallyOf(hits))
    {
      var votes, order, unidentified := Collect(hits);
      d := Judge(votes, order, unidentified);
      DecisionHasVerdict(thresholds, TallyOf(hits), order);
    }

    method Judge(votes: Votes, order: seq<string>, unidentified: nat) returns (d: Decision)
      requires IsEnumeration(order, votes.Keys)
      ensures d == DecisionOf(thresholds, Tally(votes, unidentified), order)
    {
      EnumerationSize(order, votes.Keys);
      var bad := CorruptEvidence(votes, order);
      if bad != [] {
        var candidates := OfferLabels(votes, bad);
        return InConflict(Front(bad), Front(candidates));
      }
      var n := |order| + unidentified;
      var denominator := if n == 0 then 1 else n;
      assert denominator == Denominator(Tally(votes, unidentified));
      d := Weigh(votes, order, denominator);
    }

    method Weigh(votes: Votes, order: seq<string>, denominator: nat) returns (d: Decision)
      ensures var eligible := Meeting(thresholds, votes, order, ChoicesInOrder(votes, order), denominator);
        d == DecisionAmong(votes, order, eligible, denominator)
    {
      var groups, keys := Group(votes, order);
      GroupsHoldRows(votes, order, groups, keys);
      var eligible := Select(votes, order, groups, keys, denominator);
      if eligible == [] {
        return Undecided;
      }
      if |eligible| > 1 {
        var evidence, candidates := OfferActions(votes, order, groups, eligible);
        return InConflict(Front(evidence), Front(candidates));
      }
      var rows := groups[eligible[0]];
      return Decided(eligible[0], |rows|, denominator, Front(rows));
    }

    /** Reads the hits into votes per email, the emails in order of first sight, and the
        number of hits without an identity. */
    method Collect(hits: seq<Hit>) returns (votes: Votes, order: seq<string>, unidentified: nat)
      ensures Tally(votes, unidentified) == TallyOf(hits) && order == OrderOf(hits)
      ensures IsEnumeration(order, votes.Keys)
    {
      votes, order, unidentified := map[], [], 0;
      for i := 0 to |hits|
        invariant Tally(votes, unidentified) == TallyOf(hits[..i]) && order == OrderOf(hits[..i])
        invariant IsEnumeration(order, votes.Keys)
      {
        var b := ReadHit(hits[i]);
        TallySnoc(hits, i);
        OrderSnoc(hits, i);
        votes, order, unidentified := Count(b, votes, order, unidentified);
      }
      assert hits[..|hits|] == hits;
    }

    method Count(b: Ballot, votes: Votes, order: seq<string>, unidentified: nat)
      returns (votes': Votes, order': seq<string>, unidentified': nat)
      requires IsEnumeration(order, votes.Keys)
      ensures Tally(votes', unidentified') == Add(Tally(votes, unidentified), b)
      ensures order' == if b.Ballot? && b.email !in order then order + [b.email] else order
      ensures IsEnumeration(order', votes'.Keys)
    {
      votes', order', unidentified' := votes, order, unidentified;
      if b.Unidentified? {
        unidentified' := unidentified + 1;
        return;
      }
      if b.email !in votes {
        EnumerationSnoc(order, votes.Keys, b.email);
        order' := order + [b.email];
        votes' := votes[b.email := {}];
      }
      votes' := votes'[b.email := votes'[b.email] + VoteOf(b)];
      assert votes'.Keys == votes.Keys + {b.email};
      assert votes' == votes[b.email := VotesFor(Tally(votes, unidentified), b.email) + VoteOf(b)];
    }

    method CorruptEvidence(votes: Votes, order: seq<string>) returns (bad: seq<string>)
      ensures bad == Contradicted(votes, order)
    {
      bad := [];
      for i := 0 to |order|
        invariant bad == Contradicted(votes, order[..i])
      {
        assert order[..i + 1][..i] == order[..i];
        if order[i] in votes && |votes[order[i]]| > 1 {
          bad := bad + [order[i]];
        }
      }
      assert order[..|order|] == order;
    }

    method OfferLabels(votes: Votes, emails: seq<string>) returns (candidates: seq<Candidate>)
      ensures candidates == LabelsOffered(votes, emails)
    {
      candidates := [];
      for i := 0 to |emails|
        invariant candidates == LabelsOffered(votes, emails[..i])
      {
        assert emails[..i + 1][..i] == emails[..i];
        var e := emails[i];
        var labels := if e in votes then SortedLabels(votes[e]) else [];
        candidates := candidates + seq(|labels|, j requires 0 <= j < |labels| => Candidate(labels[j].fingerprint, [e]));
      }
      assert emails[..|emails|] == emails;
    }

    /** Groups the emails that carry exactly one label by that label. */
    method Group(votes: Votes, order: seq<string>) returns (groups: map<Key, seq<string>>, keys: seq<Key>)
      ensures IsGrouped(votes, order, groups, keys)
    {
      groups, keys := map[], [];
      for i := 0 to |order|
        invariant IsGrouped(votes, order[..i], groups, keys)
      {
        assert order[..i + 1] == order[..i] + [order[i]];
        if order[i] in votes && |votes[order[i]]| == 1 {
          var k :| k in votes[order[i]];
          OnlyMember(votes[order[i]], k);
          GroupedStep(votes, order[..i], order[i], k, groups, keys);
          keys := if k in groups then keys else keys + [k];
          groups := groups[k := (if k in groups then groups[k] else []) + [order[i]]];
        } else {
          GroupedSkip(votes, order[..i], order[i], groups, keys);
        }
      }
      assert order[..|order|] == order;
    }

    method Select(votes: Votes, order: seq<string>, groups: map<Key, seq<string>>, keys: seq<Key>, denominator: nat)
      returns (eligible: seq<Key>)
      requires HoldRows(votes, order, groups, keys)
      ensures eligible == Meeting(thresholds, votes, order, keys, denominator)
      ensures HoldRows(votes, order, groups, eligible)
    {
      eligible := [];
      for i := 0 to |keys|
        invariant eligible == Meeting(thresholds, votes, order, keys[..i], denominator)
        invariant HoldRows(votes, order, groups, eligible)
      {
        assert keys[..i + 1][..i] == keys[..i];
        if Meets(thresholds, |groups[keys[i]]|, denominator) {
          eligible := eligible + [keys[i]];
        }
      }
      assert keys[..|keys|] == keys;
    }

    method OfferActions(votes: Votes, order: seq<string>, groups: map<Key, seq<string>>, eligible: seq<Key>)
      returns (evidence: seq<string>, candidates: seq<Candidate>)
      requires HoldRows(votes, order, groups, eligible)
      ensures evidence == Deduped(CarryingAny(votes, order, eligible))
      ensures candidates == ActionsOffered(votes, order, eligible)
    {
      var all: seq<string> := [];
      candidates := [];
      for i := 0 to |eligible|
        invariant all == CarryingAny(votes, order, eligible[..i])
        invariant candidates == ActionsOffered(votes, order, eligible[..i])
      {
        assert eligible[..i + 1][..i] == eligible[..i];
        all := all + groups[eligible[i]];
        candidates := candidates + [Candidate(eligible[i].fingerprint, Front(groups[eligible[i]]))];
      }
      assert eligible[..|eligible|] == eligible;
      evidence := Deduped(all);
    }
  }

  /** `s` lists the members of `m`, each once. */
  ghost predicate IsEnumeration<T>(s: seq<T>, m: set<T>) {
    && (forall i, j :: 0 <= i < j < |s| ==> s[i] != s[j])
    && (forall i :: 0 <= i < |s| ==> s[i] in m)
    && (forall e :: e in m ==> e in s)
  }

  /** The groups made so far, and their labels in order. */
  ghost predicate IsGrouped(votes: Votes, order: seq<string>, groups: map<Key, seq<string>>, keys: seq<Key>) {
    && keys == ChoicesInOrder(votes, order)
    && (forall k :: k in keys <==> k in groups)
    && AreRows(votes, order, groups)
  }

  ghost predicate HoldRows(votes: Votes, order: seq<string>, groups: map<Key, seq<string>>, keys: seq<Key>) {
    forall i :: 0 <= i < |keys| ==> keys[i] in groups && groups[keys[i]] == Carrying(votes, order, {keys[i]})
  }

  ghost predicate AreRows(votes: Votes, order: seq<string>, groups: map<Key, seq<string>>) {
    forall k :: Carrying(votes, order, {k}) == if k in groups then groups[k] else []
  }

  // ------------------------------------------------------------ loop lemmas

  lemma TallySnoc(hits: seq<Hit>, i: nat)
    requires i < |hits|
    ensures TallyOf(hits[..i + 1]) == Add(TallyOf(hits[..i]), ReadHit(hits[i]))
  {
    assert hits[..i + 1][..i] == hits[..i];
  }

  lemma OrderSnoc(hits: seq<Hit>, i: nat)
    requires i < |hits|
    ensures var before, b := OrderOf(hits[..i]), ReadHit(hits[i]);
      OrderOf(hits[..i + 1]) == if b.Ballot? && b.email !in before then before + [b.email] else before
  {
    assert hits[..i + 1][..i] == hits[..i];
  }

  lemma OnlyMember(s: set<Key>, k: Key)
    requires k in s && |s| == 1
    ensures s == {k}
  {
    assert |s - {k}| == 0;
    assert s == (s - {k}) + {k};
  }

  lemma {:induction false} EnumerationSize<T>(s: seq<T>, m: set<T>)
    requires IsEnumeration(s, m)
    ensures |s| == |m|
  {
    if s == [] {
      assert m == {};
    } else {
      var n := |s| - 1;
      assert IsEnumeration(s[..n], m - {s[n]}) by {
        forall e | e in m - {s[n]}
          ensures e in s[..n]
        {
          var i :| 0 <= i < |s| && s[i] == e;
        }
      }
      EnumerationSize(s[..n], m - {s[n]});
    }
  }

  lemma EnumerationSnoc<T>(s: seq<T>, m: set<T>, e: T)
    requires IsEnumeration(s, m) && e !in m
    ensures IsEnumeration(s + [e], m + {e})
  {
  }

  /** One email more. */
  lemma CarryingSnoc(votes: Votes, order: seq<string>, e: string, labels: set<Key>)
    ensures Carrying(votes, order + [e], labels) ==
            Carrying(votes, order, labels) + if e in votes && votes[e] == labels then [e] else []
  {
    assert (order + [e])[..|order|] == order;
  }

  lemma ChoicesSnoc(votes: Votes, order: seq<string>, e: string)
    ensures var before, after := ChoicesInOrder(votes, order), ChoicesInOrder(votes, order + [e]);
      && (forall k :: e in votes && votes[e] == {k} ==> after == if k in before then before else before + [k])
      && ((e !in votes || |votes[e]| != 1) ==> after == before)
  {
    assert (order + [e])[..|order|] == order && (order + [e])[|order|] == e;
    forall j, k | e in votes && votes[e] == {j} && votes[e] == {k}
      ensures j == k
    {
      assert j in {k};
    }
  }

  lemma GroupedSkip(votes: Votes, order: seq<string>, e: string, groups: map<Key, seq<string>>, keys: seq<Key>)
    requires IsGrouped(votes, order, groups, keys) && (e !in votes || |votes[e]| != 1)
    ensures IsGrouped(votes, order + [e], groups, keys)
  {
    ChoicesSnoc(votes, order, e);
    forall k: Key
      ensures Carrying(votes, order + [e], {k}) == Carrying(votes, order, {k})
    {
      CarryingSnoc(votes, order, e, {k});
      assert |{k}| == 1;
    }
  }

  lemma GroupedStep(votes: Votes, order: seq<string>, e: string, k: Key, groups: map<Key, seq<string>>,
                    keys: seq<Key>)
    requires IsGrouped(votes, order, groups, keys) && e in votes && votes[e] == {k}
    ensures IsGrouped(votes, order + [e], groups[k := (if k in groups then groups[k] else []) + [e]],
                      if k in groups then keys else keys + [k])
  {
    ChoicesSnoc(votes, order, e);
    RowsStep(votes, order, e, k, groups);
  }

  lemma GroupsHoldRows(votes: Votes, order: seq<string>, groups: map<Key, seq<string>>, keys: seq<Key>)
    requires IsGrouped(votes, order, groups, keys)
    ensures HoldRows(votes, order, groups, keys)
  {
    forall i | 0 <= i < |keys|
      ensures keys[i] in groups && groups[keys[i]] == Carrying(votes, order, {keys[i]})
    {
      assert keys[i] in keys;
    }
  }

  lemma RowsStep(votes: Votes, order: seq<string>, e: string, k: Key, groups: map<Key, seq<string>>)
    requires AreRows(votes, order, groups) && e in votes && votes[e] == {k}
    ensures AreRows(votes, order + [e], groups[k := (if k in groups then groups[k] else []) + [e]])
  {
    forall x
      ensures Carrying(votes, order + [e], {x}) == Carrying(votes, order, {x}) + if x == k then [e] else []
    {
      CarryingSnoc(votes, order, e, {x});
      assert x in {x} && k in {k};
    }
  }

  // ------------------------------------------------------------ sorted labels

  lemma KeyOrder(j: Key, k: Key, l: Key)
    ensures j != k ==> KeyBefore(j, k) != KeyBefore(k, j)
    ensures KeyBefore(j, k) && KeyBefore(k, l) ==> KeyBefore(j, l)
  {
    CanonicalJson.BeforeIsStrict(j.fingerprint, k.fingerprint);
    if CanonicalJson.Before(j.fingerprint, k.fingerprint) && CanonicalJson.Before(k.fingerprint, l.fingerprint) {
      CanonicalJson.BeforeIsTransitive(j.fingerprint, k.fingerprint, l.fingerprint);
    }
  }

  /** A set of labels that is not empty has one least label. */
  lemma {:induction false} LeastExists(keys: set<Key>)
    requires keys != {}
    ensures exists k :: k in keys && IsLeast(k, keys)
    ensures forall j, k :: IsLeast(j, keys) && IsLeast(k, keys) ==> j == k
    decreases |keys|
  {
    forall j, k | IsLeast(j, keys) && IsLeast(k, keys)
      ensures j == k
    {
      KeyOrder(j, k, k);
    }
    var k :| k in keys;
    if keys == {k} {
      assert IsLeast(k, keys);
    } else {
      var rest := keys - {k};
      assert keys == rest + {k};
      LeastExists(rest);
      var l :| l in rest && IsLeast(l, rest);
      LeastOfMore(l, k, rest);
    }
  }

  lemma LeastOfMore(l: Key, k: Key, rest: set<Key>)
    requires IsLeast(l, rest) && k !in rest
    ensures exists m :: m in rest + {k} && IsLeast(m, rest + {k})
  {
    KeyOrder(k, l, l);
    if KeyBefore(k, l) {
      forall j | j in rest
        ensures KeyBefore(k, j)
      {
        KeyOrder(k, l, j);
      }
      assert IsLeast(k, rest + {k});
    } else {
      assert IsLeast(l, rest + {k});
    }
  }

  lemma {:induction false} SortedLabelsIs(keys: set<Key>)
    ensures forall k :: k in SortedLabels(keys) <==> k in keys
    ensures |SortedLabels(keys)| == |keys|
    decreases |keys|
  {
    if keys != {} {
      LeastExists(keys);
      var k :| k in keys && IsLeast(k, keys);
      SortedLabelsIs(keys - {k});
      assert keys == (keys - {k}) + {k};
    }
  }

  // ------------------------------------------- what the ordered lists contain

  lemma {:induction false} CarryingIs(votes: Votes, order: seq<string>, labels: set<Key>)
    ensures forall e :: e in Carrying(votes, order, labels) <==> e in order && e in votes && votes[e] == labels
    ensures AreDistinct(order) ==> AreDistinct(Carrying(votes, order, labels))
  {
    if order != [] {
      CarryingIs(votes, order[..|order| - 1], labels);
    }
  }

  lemma {:induction false} ContradictedIs(votes: Votes, order: seq<string>)
    ensures forall e :: e in Contradicted(votes, order) <==> e in order && e in votes && |votes[e]| > 1
    ensures AreDistinct(order) ==> AreDistinct(Contradicted(votes, order))
  {
    if order != [] {
      ContradictedIs(votes, order[..|order| - 1]);
    }
  }

  lemma {:induction false} ChoicesInOrderIs(votes: Votes, order: seq<string>)
    ensures forall k :: k in ChoicesInOrder(votes, order) <==> exists e :: e in order && e in votes && votes[e] == {k}
    ensures AreDistinct(ChoicesInOrder(votes, order))
  {
    if order != [] {
      var n := |order| - 1;
      ChoicesInOrderIs(votes, order[..n]);
      ChoicesSnoc(votes, order[..n], order[n]);
      assert order[..n] + [order[n]] == order;
    }
  }

  lemma {:induction false} MeetingIs(th: Thresholds, votes: Votes, order: seq<string>, keys: seq<Key>, denominator: nat)
    ensures forall k :: k in Meeting(th, votes, order, keys, denominator) <==>
                        k in keys && Meets(th, |Carrying(votes, order, {k})|, denominator)
    ensures AreDistinct(keys) ==> AreDistinct(Meeting(th, votes, order, keys, denominator))
  {
    if keys != [] {
      MeetingIs(th, votes, order, keys[..|keys| - 1], denominator);
    }
  }

  lemma {:induction false} CarryingAnyIs(votes: Votes, order: seq<string>, keys: seq<Key>)
    ensures forall e :: e in CarryingAny(votes, order, keys) <==>
                        e in order && e in votes && exists k :: k in keys && votes[e] == {k}
  {
    if keys != [] {
      CarryingAnyIs(votes, order, keys[..|keys| - 1]);
      CarryingIs(votes, order, {keys[|keys| - 1]});
    }
  }

  lemma {:induction false} DedupedIs(s: seq<string>)
    ensures AreDistinct(Deduped(s)) && forall e :: e in Deduped(s) <==> e in s
  {
    if s != [] {
      DedupedIs(s[..|s| - 1]);
    }
  }

  lemma EnumerationIsDistinct<T(!new)>(s: seq<T>, m: set<T>)
    ensures IsEnumeration(s, m) <==> AreDistinct(s) && forall e :: e in s <==> e in m
  {
    if AreDistinct(s) && forall e :: e in s <==> e in m {
      assert forall i :: 0 <= i < |s| ==> s[i] in s;
    }
  }

  lemma SupportersInOrder(t: Tally, order: seq<string>, k: Key)
    requires IsEnumeration(order, t.votes.Keys)
    ensures IsEnumeration(Carrying(t.votes, order, {k}), Supporters(t, k))
    ensures |Carrying(t.votes, order, {k})| == |Supporters(t, k)|
  {
    EnumerationIsDistinct(order, t.votes.Keys);
    CarryingIs(t.votes, order, {k});
    EnumerationIsDistinct(Carrying(t.votes, order, {k}), Supporters(t, k));
    EnumerationSize(Carrying(t.votes, order, {k}), Supporters(t, k));
  }

  lemma EligibleInOrderIs(th: Thresholds, t: Tally, order: seq<string>)
    requires IsEnumeration(order, t.votes.Keys)
    ensures IsEnumeration(EligibleInOrder(th, t, order), Eligible(th, t))
    ensures |EligibleInOrder(th, t, order)| == |Eligible(th, t)|
  {
    var keys := EligibleInOrder(th, t, order);
    ChoicesInOrderIs(t.votes, order);
    MeetingIs(th, t.votes, order, ChoicesInOrder(t.votes, order), Denominator(t));
    forall k
      ensures k in keys <==> k in Eligible(th, t)
    {
      SupportersInOrder(t, order, k);
      ChoiceIsCarried(t, order, k);
    }
    EnumerationIsDistinct(keys, Eligible(th, t));
    EnumerationSize(keys, Eligible(th, t));
  }

  lemma ChoiceIsCarried(t: Tally, order: seq<string>, k: Key)
    requires IsEnumeration(order, t.votes.Keys)
    ensures k in Choices(t) <==> exists e :: e in order && e in t.votes && t.votes[e] == {k}
  {
    if e :| e in t.votes && t.votes[e] == {k} {
      assert e in order && k in t.votes[e];
    }
  }

  /** The emails with contradictory labels. */
  ghost function Corrupt(t: Tally): set<string> {
    set e | e in t.votes && |t.votes[e]| > 1
  }

  lemma CorruptInOrder(t: Tally, order: seq<string>)
    requires IsEnumeration(order, t.votes.Keys)
    ensures IsEnumeration(Contradicted(t.votes, order), Corrupt(t))
    ensures |Contradicted(t.votes, order)| == |Corrupt(t)|
  {
    EnumerationIsDistinct(order, t.votes.Keys);
    ContradictedIs(t.votes, order);
    EnumerationIsDistinct(Contradicted(t.votes, order), Corrupt(t));
    EnumerationSize(Contradicted(t.votes, order), Corrupt(t));
  }

  /** The verdict in terms of how many emails are corrupt and how many labels eligible. */
  lemma VerdictCases(th: Thresholds, t: Tally)
    ensures Corrupt(t) != {} ==> Consensus(th, t) == Conflict
    ensures Corrupt(t) == {} && Eligible(th, t) == {} ==> Consensus(th, t) == NoConsensus
    ensures Corrupt(t) == {} && |Eligible(th, t)| > 1 ==> Consensus(th, t) == Conflict
    ensures Corrupt(t) == {} ==> forall k :: Eligible(th, t) == {k} ==>
      Consensus(th, t) == Matched(k, |Supporters(t, k)|, Denominator(t))
  {
    if e :| e in t.votes && |t.votes[e]| > 1 {
      assert e in Corrupt(t);
    }
    if e :| e in Corrupt(t) {
      assert e in t.votes && |t.votes[e]| > 1;
    }
    forall k | Eligible(th, t) == {k}
      ensures Corrupt(t) == {} ==> Consensus(th, t) == Matched(k, |Supporters(t, k)|, Denominator(t))
    {
      assert |{k}| == 1;
    }
  }

  /** The decision that lists emails has the verdict on the evidence as a whole. */
  lemma DecisionHasVerdict(th: Thresholds, t: Tally, order: seq<string>)
    requires IsEnumeration(order, t.votes.Keys)
    ensures VerdictOf(DecisionOf(th, t, order)) == Consensus(th, t)
  {
    VerdictCases(th, t);
    CorruptInOrder(t, order);
    if Contradicted(t.votes, order) == [] {
      assert Corrupt(t) == {};
      EligibleInOrderIs(th, t, order);
      DecisionAmongHasVerdict(th, t, order, EligibleInOrder(th, t, order));
    }
  }

  lemma DecisionAmongHasVerdict(th: Thresholds, t: Tally, order: seq<string>, eligible: seq<Key>)
    requires IsEnumeration(order, t.votes.Keys) && Corrupt(t) == {}
    requires IsEnumeration(eligible, Eligible(th, t)) && |eligible| == |Eligible(th, t)|
    ensures VerdictOf(DecisionAmong(t.votes, order, eligible, Denominator(t))) == Consensus(th, t)
  {
    VerdictCases(th, t);
    if |eligible| == 1 {
      OnlyMember(Eligible(th, t), eligible[0]);
      SupportersInOrder(t, order, eligible[0]);
    }
  }

  // -------------------------------------------------------- order and repeats

  lemma AddCommutes(t: Tally, a: Ballot, b: Ballot)
    ensures Add(Add(t, a), b) == Add(Add(t, b), a)
  {
    if a.Ballot? && b.Ballot? {
      var x, y := Add(Add(t, a), b).votes, Add(Add(t, b), a).votes;
      assert x.Keys == t.votes.Keys + {a.email, b.email} == y.Keys;
      if a.email == b.email {
        assert x[a.email] == VotesFor(t, a.email) + VoteOf(a) + VoteOf(b) == y[a.email];
      }
      assert x == y;
    }
  }

  /** A hit counted anywhere counts the same last. */
  lemma {:induction false} CountedLast(x: seq<Hit>, h: Hit, z: seq<Hit>)
    ensures TallyOf(x + [h] + z) == Add(TallyOf(x + z), ReadHit(h))
    decreases |z|
  {
    if z == [] {
      assert x + [h] + z == x + [h] && x + z == x;
      TallyOneMore(x, h);
    } else {
      var n := |z| - 1;
      assert x + [h] + z == x + [h] + z[..n] + [z[n]];
      assert x + z == x + z[..n] + [z[n]];
      TallyOneMore(x + [h] + z[..n], z[n]);
      TallyOneMore(x + z[..n], z[n]);
      CountedLast(x, h, z[..n]);
      AddCommutes(TallyOf(x + z[..n]), ReadHit(h), ReadHit(z[n]));
    }
  }

  lemma WithoutOne<T>(a: seq<T>, j: nat)
    requires j < |a|
    ensures multiset(a) == multiset(a[..j] + a[j + 1..]) + multiset{a[j]}
  {
    assert a == a[..j] + [a[j]] + a[j + 1..];
  }

  lemma MatchLast<T>(a: seq<T>, b: seq<T>) returns (j: nat)
    requires multiset(a) == multiset(b) && a != []
    ensures j < |b| && b[j] == a[|a| - 1]
    ensures multiset(a[..|a| - 1]) == multiset(b[..j] + b[j + 1..])
  {
    var n := |a| - 1;
    assert a[n] in multiset(b) by {
      assert a[n] in multiset(a);
    }
    j :| 0 <= j < |b| && b[j] == a[n];
    WithoutOne(a, n);
    assert a[..n] + a[n + 1..] == a[..n];
    WithoutOne(b, j);
    assert multiset(a[..n]) == multiset(a) - multiset{a[n]};
  }

  lemma {:induction false} PermutationTally(a: seq<Hit>, b: seq<Hit>)
    requires multiset(a) == multiset(b)
    ensures TallyOf(a) == TallyOf(b)
    decreases |a|
  {
    if a == [] {
      assert |multiset(b)| == 0;
    } else {
      var n := |a| - 1;
      var j := MatchLast(a, b);
      PermutationTally(a[..n], b[..j] + b[j + 1..]);
      CountedLast(b[..j], b[j], b[j + 1..]);
      assert b == b[..j] + [b[j]] + b[j + 1..];
    }
  }

  /** The order of the hits does not matter: outcome, selected action, votes and
      denominator, hence confidence, are the same for every permutation. */
  lemma OrderDoesNotMatter(th: Thresholds, a: seq<Hit>, b: seq<Hit>)
    requires multiset(a) == multiset(b)
    ensures Consensus(th, TallyOf(a)) == Consensus(th, TallyOf(b))
  {
    PermutationTally(a, b);
  }

  lemma {:induction false} CountedAlready(hits: seq<Hit>, h: Hit)
    requires h in hits && ReadHit(h).Ballot?
    ensures var b := ReadHit(h);
      b.email in TallyOf(hits).votes && VoteOf(b) <= TallyOf(hits).votes[b.email]
  {
    if hits[|hits| - 1] != h {
      CountedAlready(hits[..|hits| - 1], h);
    }
  }

  lemma RepeatingAHitKeepsTally(hits: seq<Hit>, h: Hit)
    requires h in hits && ReadHit(h).Ballot?
    ensures TallyOf(hits + [h]) == TallyOf(hits)
  {
    CountedAlready(hits, h);
    TallyOneMore(hits, h);
    AddAgain(TallyOf(hits), ReadHit(h));
  }

  lemma TallyOneMore(hits: seq<Hit>, h: Hit)
    ensures TallyOf(hits + [h]) == Add(TallyOf(hits), ReadHit(h))
  {
    assert (hits + [h])[..|hits|] == hits;
  }

  lemma AddAgain(t: Tally, b: Ballot)
    requires b.Ballot? && b.email in t.votes && VoteOf(b) <= t.votes[b.email]
    ensures Add(t, b) == t
  {
    assert t.votes[b.email] + VoteOf(b) == t.votes[b.email];
    assert t.votes[b.email := t.votes[b.email]] == t.votes;
  }

  lemma {:induction false} SeenAlready(hits: seq<Hit>, h: Hit)
    requires h in hits && ReadHit(h).Ballot?
    ensures ReadHit(h).email in OrderOf(hits)
  {
    if hits[|hits| - 1] != h {
      SeenAlready(hits[..|hits| - 1], h);
    }
  }

  lemma RepeatingAHitKeepsOrder(hits: seq<Hit>, h: Hit)
    requires h in hits && ReadHit(h).Ballot?
    ensures OrderOf(hits + [h]) == OrderOf(hits)
  {
    SeenAlready(hits, h);
    assert (hits + [h])[..|hits|] == hits;
  }

  /** An email counts once however often it is hit: verdict and lists stay the same. */
  lemma RepeatingAHitChangesNothing(th: Thresholds, hits: seq<Hit>, h: Hit)
    requires h in hits && ReadHit(h).Ballot?
    ensures Consensus(th, TallyOf(hits + [h])) == Consensus(th, TallyOf(hits))
    ensures DecisionOf(th, TallyOf(hits + [h]), OrderOf(hits + [h])) == DecisionOf(th, TallyOf(hits), OrderOf(hits))
  {
    RepeatingAHitKeepsTally(hits, h);
    RepeatingAHitKeepsOrder(hits, h);
  }

  // --------------------------------------------------- how many can be eligible

  lemma SupportersDisjoint(t: Tally, j: Key, k: Key)
    requires j != k
    ensures Supporters(t, j) !! Supporters(t, k)
  {
    assert j in {j} && j !in {k};
  }

  lemma UnionSize(a: set<string>, b: set<string>)
    requires a !! b
    ensures |a + b| == |a| + |b|
  {
  }

  lemma SubsetSize(a: set<string>, b: set<string>)
    requires a <= b
    ensures |a| <= |b| && |b - a| == |b| - |a|
  {
    assert b == a + (b - a);
  }

  ghost function AllSupporters(t: Tally, keys: set<Key>): set<string> {
    set e, k | k in keys && e in Supporters(t, k) :: e
  }

  lemma AllSupportersSplit(t: Tally, keys: set<Key>, k: Key)
    requires k in keys
    ensures |AllSupporters(t, keys)| == |AllSupporters(t, keys - {k})| + |Supporters(t, k)|
  {
    var before := AllSupporters(t, keys - {k});
    assert AllSupporters(t, keys) == before + Supporters(t, k);
    forall e | e in before
      ensures e !in Supporters(t, k)
    {
      var j :| j in keys - {k} && e in Supporters(t, j);
      SupportersDisjoint(t, j, k);
    }
    UnionSize(before, Supporters(t, k));
  }

  /** If every action of `keys` has `share` of the evidence, scaled by `den`, then so has
      their union as often as there are actions. */
  lemma {:induction false} SharesAddUp(t: Tally, keys: set<Key>, den: nat, share: int)
    requires forall k :: k in keys ==> |Supporters(t, k)| * den >= share
    ensures |AllSupporters(t, keys)| * den >= |keys| * share
    decreases |keys|
  {
    if keys != {} {
      var k :| k in keys;
      SharesAddUp(t, keys - {k}, den, share);
      AllSupportersSplit(t, keys, k);
      Distribute(|AllSupporters(t, keys - {k})|, |Supporters(t, k)|, den);
      Distribute(|keys| - 1, 1, share);
    }
  }

  lemma Distribute(a: int, b: int, c: int)
    ensures (a + b) * c == a * c + b * c
  {
  }

  lemma EligibleShares(th: Thresholds, t: Tally)
    ensures forall k :: k in Eligible(th, t) ==> |Supporters(t, k)| * th.ratioDen >= th.ratioNum * Denominator(t)
  {
  }

  lemma AllSupportersAreEvidence(t: Tally, keys: set<Key>)
    ensures |AllSupporters(t, keys)| <= Denominator(t)
    ensures AllSupporters(t, keys) <= t.votes.Keys
  {
    SubsetSize(AllSupporters(t, keys), t.votes.Keys);
  }

  /** With ratio r at most 1/r actions are eligible. */
  lemma FewEligible(th: Thresholds, t: Tally)
    ensures |Eligible(th, t)| * th.ratioNum <= th.ratioDen
  {
    var keys := Eligible(th, t);
    EligibleShares(th, t);
    SharesAddUp(t, keys, th.ratioDen, th.ratioNum * Denominator(t));
    AllSupportersAreEvidence(t, keys);
    Cancel(|keys| * th.ratioNum, th.ratioDen, Denominator(t), |AllSupporters(t, keys)|, |keys|, th.ratioNum);
  }

  lemma Cancel(x: int, den: nat, d: nat, covered: nat, n: nat, num: int)
    requires x == n * num && covered <= d && d > 0
    requires covered * den >= n * (num * d)
    ensures x <= den
  {
    assert n * (num * d) == x * d;
    assert covered * den <= d * den;
    assert x * d <= den * d;
    assert (x - den) * d <= 0;
  }

  lemma PairIsAll(s: set<Key>, j: Key, k: Key)
    requires j != k && j in s && k in s && |s| <= 2
    ensures s == {j, k}
  {
    var rest := s - {j, k};
    assert s == {j, k} + rest;
    assert |s| == 2 + |rest|;
  }

  lemma Halves(a: set<string>, b: set<string>, all: set<string>, d: nat, others: nat)
    requires a !! b && a <= all && b <= all
    requires d == (if |all| + others == 0 then 1 else |all| + others)
    requires |a| * 2 >= d && |b| * 2 >= d
    ensures a + b == all && others == 0 && |a| == |b|
  {
    UnionSize(a, b);
    SubsetSize(a + b, all);
    assert all - (a + b) == {};
  }

  /** With the default thresholds two actions are eligible only when they split all of the
      evidence exactly in half, and then there is no third. */
  lemma DefaultTieIsAnExactSplit(t: Tally, j: Key, k: Key)
    requires j != k && j in Eligible(DEFAULT, t) && k in Eligible(DEFAULT, t)
    ensures Eligible(DEFAULT, t) == {j, k}
    ensures Supporters(t, j) + Supporters(t, k) == t.votes.Keys && t.unidentified == 0
    ensures |Supporters(t, j)| == |Supporters(t, k)|
  {
    FewEligible(DEFAULT, t);
    PairIsAll(Eligible(DEFAULT, t), j, k);
    EligibleShares(DEFAULT, t);
    SupportersDisjoint(t, j, k);
    assert Supporters(t, j) <= t.votes.Keys && Supporters(t, k) <= t.votes.Keys;
    Halves(Supporters(t, j), Supporters(t, k), t.votes.Keys, Denominator(t), t.unidentified);
  }
}
