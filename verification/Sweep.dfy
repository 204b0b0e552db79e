/** The threshold sweep of the retrieval calibration and the candidate it proposes (tools/retrieval-calibration.py). */
module Sweep {
  import opened Outcomes
  import opened Rounding

  /** A ranked fragment: identifier (document, index), distance, and its (source, section) payload. */
  datatype Item = Item(document: nat, index: nat, distance: real, source: string, section: Option<string>)

  /** `sources` and `expected` are the case's documents and its labelled (source, heading) pairs. */
  datatype Case = Case(sources: set<string>, expected: set<(string, string)>, items: seq<Item>)

  /** A maximum distance; none means every fragment is near enough. */
  type Threshold = Option<real>

  // ----- Retrieval -----

  predicate Before(a: Item, b: Item) {
    || a.distance < b.distance
    || (a.distance == b.distance && (a.document < b.document || (a.document == b.document && a.index < b.index)))
  }

  function Insert(item: Item, ranked: seq<Item>): seq<Item> {
    if ranked == [] || !Before(ranked[0], item) then [item] + ranked else [ranked[0]] + Insert(item, ranked[1..])
  }

  function Rank(items: seq<Item>): seq<Item> {
    if items == [] then [] else Insert(items[0], Rank(items[1..]))
  }

  predicate Near(item: Item, d: Threshold) {
    d.None? || item.distance <= d.value
  }

  function Within(ranked: seq<Item>, d: Threshold): seq<Item> {
    if ranked == [] then []
    else (if Near(ranked[0], d) then [ranked[0]] else []) + Within(ranked[1..], d)
  }

  /** The slice `s[:k]`: a negative k leaves out the last -k. */
  function Head(s: seq<Item>, k: int): seq<Item> {
    if k >= |s| then s else if k >= 0 then s[..k] else if |s| + k >= 0 then s[..|s| + k] else []
  }

  function Retrieve(items: seq<Item>, k: int, d: Threshold): seq<Item> {
    Head(Within(Rank(items), d), k)
  }

  predicate Ranked(s: seq<Item>) {
    forall i, j | 0 <= i < j < |s| :: !Before(s[j], s[i])
  }

  lemma OrderTransitive(a: Item, b: Item, c: Item)
    requires !Before(b, a) && !Before(c, b)
    ensures !Before(c, a)
  {
  }

  lemma PrependRanks(item: Item, ranked: seq<Item>)
    requires Ranked(ranked) && forall k | 0 <= k < |ranked| :: !Before(ranked[k], item)
    ensures Ranked([item] + ranked)
  {
    hide Before;
  }

  lemma {:induction false} InsertMembers(item: Item, ranked: seq<Item>)
    ensures multiset(Insert(item, ranked)) == multiset(ranked) + multiset{item}
  {
    hide Before;
    if ranked != [] && Before(ranked[0], item) {
      InsertMembers(item, ranked[1..]);
      assert ranked == [ranked[0]] + ranked[1..];
    }
  }

  lemma {:induction false} InsertRanks(item: Item, ranked: seq<Item>)
    requires Ranked(ranked)
    ensures Ranked(Insert(item, ranked))
  {
    if ranked != [] && Before(ranked[0], item) {
      var rest := Insert(item, ranked[1..]);
      assert !Before(item, ranked[0]);
      hide Before;
      InsertRanks(item, ranked[1..]);
      InsertMembers(item, ranked[1..]);
      forall k | 0 <= k < |rest|
        ensures !Before(rest[k], ranked[0])
      {
        assert rest[k] in multiset(rest);
        if rest[k] != item {
          var j :| 0 <= j < |ranked[1..]| && ranked[1..][j] == rest[k];
          assert ranked[j + 1] == rest[k];
        }
      }
      hide Ranked;
      PrependRanks(ranked[0], rest);
    } else if ranked != [] {
      hide Before;
      forall k | 0 <= k < |ranked|
        ensures !Before(ranked[k], item)
      {
        if k > 0 {
          OrderTransitive(item, ranked[0], ranked[k]);
        }
      }
      PrependRanks(item, ranked);
    }
  }

  lemma {:induction false} RankRanks(items: seq<Item>)
    ensures Ranked(Rank(items)) && multiset(Rank(items)) == multiset(items)
  {
    if items != [] {
      RankRanks(items[1..]);
      InsertRanks(items[0], Rank(items[1..]));
      InsertMembers(items[0], Rank(items[1..]));
      assert items == [items[0]] + items[1..];
    }
  }

  predicate AtMostThreshold(d: Threshold, e: Threshold) {
    e.None? || (d.Some? && d.value <= e.value)
  }

  lemma {:induction false} NoneWithin(s: seq<Item>, d: Threshold)
    requires forall i | 0 <= i < |s| :: !Near(s[i], d)
    ensures Within(s, d) == []
  {
    if s != [] {
      NoneWithin(s[1..], d);
    }
  }

  /** In a ranked list the near enough fragments come first. */
  lemma {:induction false} WithinIsPrefix(s: seq<Item>, d: Threshold)
    requires Ranked(s)
    ensures Within(s, d) <= s
    ensures forall i | |Within(s, d)| <= i < |s| :: !Near(s[i], d)
    ensures forall item | item in Within(s, d) :: Near(item, d)
  {
    if s != [] {
      WithinIsPrefix(s[1..], d);
      assert s == [s[0]] + s[1..];
      if !Near(s[0], d) {
        forall i | 0 <= i < |s|
          ensures !Near(s[i], d)
        {
          assert i == 0 || !Before(s[i], s[0]);
        }
        NoneWithin(s[1..], d);
      }
    }
  }

  lemma WithinGrows(s: seq<Item>, d: Threshold, e: Threshold)
    requires Ranked(s) && AtMostThreshold(d, e)
    ensures Within(s, d) <= Within(s, e)
  {
    WithinIsPrefix(s, d);
    WithinIsPrefix(s, e);
    assert forall i | 0 <= i < |Within(s, d)| :: Near(s[i], d) by {
      assert forall i | 0 <= i < |Within(s, d)| :: s[i] == Within(s, d)[i];
    }
  }

  /** k and l count from the same end of the list. */
  predicate SameEnd(k: int, l: int) {
    0 <= k || l < 0
  }

  /** Asking for more, or from farther away, only adds fragments after those already found. */
  lemma RetrieveGrows(items: seq<Item>, k: int, l: int, d: Threshold, e: Threshold)
    requires k <= l && SameEnd(k, l) && AtMostThreshold(d, e)
    ensures Retrieve(items, k, d) <= Retrieve(items, l, e)
  {
    RankRanks(items);
    WithinGrows(Rank(items), d, e);
    hide Rank, Within, Ranked;
    HeadGrows(Within(Rank(items), d), Within(Rank(items), e), k, l);
  }

  lemma HeadGrows(s: seq<Item>, t: seq<Item>, k: int, l: int)
    requires s <= t && k <= l && SameEnd(k, l)
    ensures Head(s, k) <= Head(t, l)
  {
  }

  /** A top_k below zero counts from the other end; against one that does not, the order is lost on some items. */
  lemma OtherEndFindsMore(item: Item, k: int, l: int)
    requires k <= l && !SameEnd(k, l)
    ensures var items := seq(l - k + 1, _ => item);
            !(Retrieve(items, k, None) <= Retrieve(items, l, None))
  {
    var items := seq(l - k + 1, _ => item);
    RankRanks(items);
    EverythingWithin(Rank(items));
    assert |Rank(items)| == |multiset(Rank(items))| == |multiset(items)| == l - k + 1;
    hide Rank, Within;
    assert |Retrieve(items, k, None)| == l + 1 && |Retrieve(items, l, None)| == l;
  }

  lemma {:induction false} EverythingWithin(s: seq<Item>)
    ensures Within(s, None) == s
  {
    if s != [] {
      EverythingWithin(s[1..]);
    }
  }

  /** Item a may stand before item b: it is nearer or, equally near, of an earlier document or fragment. */
  predicate InOrder(a: Item, b: Item) {
    a.distance <= b.distance
    && (a.distance == b.distance ==> a.document <= b.document && (a.document == b.document ==> a.index <= b.index))
  }

  /** `found` is the front of a ranked list: in order, near enough, at most k, and nothing left out comes before it. */
  ghost predicate Nearest(found: seq<Item>, rest: seq<Item>, k: nat, d: Threshold) {
    && |found| <= k
    && (forall i, j | 0 <= i < j < |found| :: InOrder(found[i], found[j]))
    && (forall i, j | 0 <= i < |found| && 0 <= j < |rest| :: InOrder(found[i], rest[j]))
    && (d.Some? ==> forall i | 0 <= i < |found| :: found[i].distance <= d.value)
    && (|found| < k ==> if d.None? then rest == [] else forall i | 0 <= i < |rest| :: rest[i].distance > d.value)
  }

  lemma RankedInOrder(a: Item, b: Item)
    ensures !Before(b, a) <==> InOrder(a, b)
  {
  }

  lemma NearIsWithin(found: seq<Item>, rest: seq<Item>, d: Threshold)
    ensures (forall i | 0 <= i < |found| :: Near(found[i], d)) && d.Some? ==>
              forall i | 0 <= i < |found| :: found[i].distance <= d.value
    ensures (forall i | 0 <= i < |rest| :: !Near(rest[i], d)) ==>
              if d.None? then rest == [] else forall i | 0 <= i < |rest| :: rest[i].distance > d.value
  {
    assert rest != [] && d.None? ==> Near(rest[0], d);
  }

  lemma FrontIsNearest(ranked: seq<Item>, n: nat, k: nat, d: Threshold)
    requires Ranked(ranked) && n <= |ranked|
    requires forall i | 0 <= i < n :: Near(ranked[i], d)
    requires forall i | n <= i < |ranked| :: !Near(ranked[i], d)
    ensures var found := Head(ranked[..n], k);
            found <= ranked && Nearest(found, ranked[|found|..], k, d)
  {
    var found := Head(ranked[..n], k);
    var rest := ranked[|found|..];
    hide Before, Near, InOrder;
    assert forall i | 0 <= i < |found| :: found[i] == ranked[i];
    assert forall j | 0 <= j < |rest| :: rest[j] == ranked[|found| + j];
    forall i, j | 0 <= i < j < |ranked|
      ensures InOrder(ranked[i], ranked[j])
    {
      RankedInOrder(ranked[i], ranked[j]);
    }
    NearIsWithin(found, rest, d);
  }

  lemma PrefixNear(ranked: seq<Item>, within: seq<Item>, d: Threshold)
    requires within <= ranked && forall item | item in within :: Near(item, d)
    ensures within == ranked[..|within|]
    ensures forall i | 0 <= i < |within| :: Near(ranked[i], d)
  {
    assert forall i | 0 <= i < |within| :: within[i] == ranked[i];
  }

  lemma PrefixSplits(front: seq<Item>, s: seq<Item>)
    requires front <= s
    ensures multiset(s) == multiset(front) + multiset(s[|front|..])
  {
    assert s == front + s[|front|..];
  }

  /** What is retrieved is, of all the items, the k nearest that are near enough. */
  lemma RetrieveIsNearest(items: seq<Item>, k: nat, d: Threshold)
    ensures exists rest: seq<Item> ::
              && multiset(items) == multiset(Retrieve(items, k, d)) + multiset(rest)
              && Nearest(Retrieve(items, k, d), rest, k, d)
  {
    hide Rank, Ranked, Within, Head, Nearest, Near;
    var ranked, found := Rank(items), Retrieve(items, k, d);
    RankRanks(items);
    WithinIsPrefix(ranked, d);
    PrefixNear(ranked, Within(ranked, d), d);
    FrontIsNearest(ranked, |Within(ranked, d)|, k, d);
    PrefixSplits(found, ranked);
    assert Nearest(found, ranked[|found|..], k, d);
  }

  // ----- Rates -----

  predicate DocumentHit(c: Case, found: seq<Item>) {
    exists item | item in found :: item.source in c.sources
  }

  predicate SectionHit(c: Case, found: seq<Item>) {
    exists item | item in found :: item.section.Some? && (item.source, item.section.value) in c.expected
  }

  datatype Tally = Tally(documents: nat, empty: nat, scored: nat, sections: nat)

  function Count(cases: seq<Case>, k: int, d: Threshold): Tally {
    if cases == [] then Tally(0, 0, 0, 0)
    else
      var c := cases[|cases| - 1];
      var found := Retrieve(c.items, k, d);
      var rest := Count(cases[..|cases| - 1], k, d);
      Tally(rest.documents + (if DocumentHit(c, found) then 1 else 0),
            rest.empty + (if found == [] then 1 else 0),
            rest.scored + (if c.expected != {} then 1 else 0),
            rest.sections + (if c.expected != {} && SectionHit(c, found) then 1 else 0))
  }

  datatype Block = Block(cases: nat, documentHitRate: Option<real>, emptyRate: Option<real>,
                         sectionCases: nat, sectionHitRate: Option<real>)

  function Summarize(cases: seq<Case>, k: int, d: Threshold): Block {
    var t := Count(cases, k, d);
    Block(|cases|, Rate(t.documents, |cases|), Rate(t.empty, |cases|), t.scored, Rate(t.sections, t.scored))
  }

  predicate FromDocument(c: Case, k: int, d: Threshold) {
    exists item | item in Retrieve(c.items, k, d) :: item.source in c.sources
  }

  predicate FromSection(c: Case, k: int, d: Threshold) {
    exists item | item in Retrieve(c.items, k, d) ::
      item.section.Some? && (item.source, item.section.value) in c.expected
  }

  /** The cases with a retrieved fragment from one of their documents. */
  function DocumentHits(cases: seq<Case>, k: int, d: Threshold): set<nat> {
    set i: nat | i < |cases| && FromDocument(cases[i], k, d)
  }

  /** The cases for which nothing is retrieved. */
  function Empties(cases: seq<Case>, k: int, d: Threshold): set<nat> {
    set i: nat | i < |cases| && Retrieve(cases[i].items, k, d) == []
  }

  /** The cases with labelled sections. */
  function Labelled(cases: seq<Case>): set<nat> {
    set i: nat | i < |cases| && cases[i].expected != {}
  }

  /** The cases with a retrieved fragment in one of their labelled sections. */
  function SectionHits(cases: seq<Case>, k: int, d: Threshold): set<nat> {
    set i: nat | i < |cases| && FromSection(cases[i], k, d)
  }

  lemma OneMore(front: set<nat>, all: set<nat>, n: nat, hit: bool)
    requires n !in front && forall i: nat :: i in all <==> i in front || (i == n && hit)
    ensures |all| == |front| + if hit then 1 else 0
  {
    assert all == if hit then front + {n} else front;
  }

  lemma OneMoreDocument(cases: seq<Case>, front: seq<Case>, c: Case, k: int, d: Threshold)
    requires cases == front + [c]
    ensures |DocumentHits(cases, k, d)| == |DocumentHits(front, k, d)| + if FromDocument(c, k, d) then 1 else 0
  {
    hide FromDocument;
    OneMore(DocumentHits(front, k, d), DocumentHits(cases, k, d), |front|, FromDocument(c, k, d));
  }

  lemma OneMoreSection(cases: seq<Case>, front: seq<Case>, c: Case, k: int, d: Threshold)
    requires cases == front + [c]
    ensures |SectionHits(cases, k, d)| == |SectionHits(front, k, d)| + if FromSection(c, k, d) then 1 else 0
  {
    hide FromSection;
    OneMore(SectionHits(front, k, d), SectionHits(cases, k, d), |front|, FromSection(c, k, d));
  }

  lemma OneMoreEmpty(cases: seq<Case>, front: seq<Case>, c: Case, k: int, d: Threshold)
    requires cases == front + [c]
    ensures |Empties(cases, k, d)| == |Empties(front, k, d)| + if Retrieve(c.items, k, d) == [] then 1 else 0
  {
    hide Retrieve;
    OneMore(Empties(front, k, d), Empties(cases, k, d), |front|, Retrieve(c.items, k, d) == []);
  }

  lemma OneMoreLabelled(cases: seq<Case>, front: seq<Case>, c: Case)
    requires cases == front + [c]
    ensures |Labelled(cases)| == |Labelled(front)| + if c.expected != {} then 1 else 0
  {
    OneMore(Labelled(front), Labelled(cases), |front|, c.expected != {});
  }

  lemma SectionsAreLabelled(c: Case, k: int, d: Threshold)
    ensures FromSection(c, k, d) ==> c.expected != {}
  {
    hide Retrieve;
  }

  lemma {:induction false} CountIsNumber(cases: seq<Case>, k: int, d: Threshold)
    ensures Count(cases, k, d) == Tally(|DocumentHits(cases, k, d)|, |Empties(cases, k, d)|, |Labelled(cases)|,
                                        |SectionHits(cases, k, d)|)
  {
    hide Retrieve, DocumentHits, Empties, Labelled, SectionHits;
    if cases == [] {
      NoCases(cases, k, d);
    } else {
      var front, c := cases[..|cases| - 1], cases[|cases| - 1];
      CountIsNumber(front, k, d);
      OneMoreDocument(cases, front, c, k, d);
      OneMoreSection(cases, front, c, k, d);
      OneMoreEmpty(cases, front, c, k, d);
      OneMoreLabelled(cases, front, c);
      SectionsAreLabelled(c, k, d);
    }
  }

  lemma NoCases(cases: seq<Case>, k: int, d: Threshold)
    requires cases == []
    ensures && |DocumentHits(cases, k, d)| == |Empties(cases, k, d)| == 0
            && |Labelled(cases)| == |SectionHits(cases, k, d)| == 0
  {
    assert DocumentHits(cases, k, d) == Empties(cases, k, d) == Labelled(cases) == SectionHits(cases, k, d) == {};
  }

  /** Each published rate is the share, to four decimals, of the cases it speaks of. */
  lemma RatesAreShares(cases: seq<Case>, k: int, d: Threshold)
    ensures var b := Summarize(cases, k, d);
            && b.cases == |cases| && b.sectionCases == |Labelled(cases)|
            && b.documentHitRate == Rate(|DocumentHits(cases, k, d)|, |cases|)
            && b.emptyRate == Rate(|Empties(cases, k, d)|, |cases|)
            && b.sectionHitRate == Rate(|SectionHits(cases, k, d)|, |Labelled(cases)|)
            && SectionHits(cases, k, d) <= Labelled(cases)
  {
    hide Rate, FromSection;
    CountIsNumber(cases, k, d);
    forall i | i in SectionHits(cases, k, d)
      ensures i in Labelled(cases)
    {
      SectionsAreLabelled(cases[i], k, d);
    }
  }

  lemma HitsGrow(c: Case, found: seq<Item>, more: seq<Item>)
    requires found <= more
    ensures DocumentHit(c, found) ==> DocumentHit(c, more)
    ensures SectionHit(c, found) ==> SectionHit(c, more)
  {
    assert forall item | item in found :: item in more;
  }

  lemma {:induction false} CountGrows(cases: seq<Case>, k: int, l: int, d: Threshold, e: Threshold)
    requires k <= l && SameEnd(k, l) && AtMostThreshold(d, e)
    ensures var a, b := Count(cases, k, d), Count(cases, l, e);
            a.documents <= b.documents && a.sections <= b.sections && a.empty >= b.empty && a.scored == b.scored
  {
    hide Retrieve, DocumentHit, SectionHit;
    if cases != [] {
      var c := cases[|cases| - 1];
      CountGrows(cases[..|cases| - 1], k, l, d, e);
      RetrieveGrows(c.items, k, l, d, e);
      HitsGrow(c, Retrieve(c.items, k, d), Retrieve(c.items, l, e));
    }
  }

  /** Over any cases, both hit rates can only rise and the empty rate can only fall. */
  lemma RatesMonotone(cases: seq<Case>, k: int, l: int, d: Threshold, e: Threshold)
    requires k <= l && SameEnd(k, l) && AtMostThreshold(d, e)
    ensures var a, b := Summarize(cases, k, d), Summarize(cases, l, e);
            && AtMost(a.documentHitRate, b.documentHitRate)
            && AtMost(a.sectionHitRate, b.sectionHitRate)
            && AtMost(b.emptyRate, a.emptyRate)
            && a.cases == b.cases && a.sectionCases == b.sectionCases
  {
    var a, b := Count(cases, k, d), Count(cases, l, e);
    CountGrows(cases, k, l, d, e);
    RateMonotone(a.documents, b.documents, |cases|);
    RateMonotone(a.sections, b.sections, a.scored);
    RateMonotone(b.empty, a.empty, |cases|);
  }

  // ----- The proposed candidate -----

  function SectionRate(cases: seq<Case>, k: int, d: Threshold): real {
    match Summarize(cases, k, d).sectionHitRate
    case None => 0.0
    case Some(rate) => rate
  }

  /** The point without a threshold, or failing that the last one. */
  function Base(thresholds: seq<Threshold>): Threshold
    requires thresholds != []
  {
    if None in thresholds then None else thresholds[|thresholds| - 1]
  }

  predicate Eligible(cases: seq<Case>, k: int, d: Threshold, ratio: real, baseline: real) {
    d.Some? && SectionRate(cases, k, d) >= Portion(ratio, baseline)
  }

  function Portion(ratio: real, baseline: real): real {
    ratio * baseline
  }

  lemma SectionRateMonotone(cases: seq<Case>, k: int, d: Threshold, e: Threshold)
    requires AtMostThreshold(d, e)
    ensures 0.0 <= SectionRate(cases, k, d) <= SectionRate(cases, k, e)
  {
    RatesMonotone(cases, k, k, d, e);
    SectionsScored(cases, k, d);
    var t := Count(cases, k, d);
    RateRange(t.sections, t.scored);
  }

  lemma {:induction false} SectionsScored(cases: seq<Case>, k: int, d: Threshold)
    ensures Count(cases, k, d).sections <= Count(cases, k, d).scored
  {
    if cases != [] {
      SectionsScored(cases[..|cases| - 1], k, d);
    }
  }

  datatype Proposal = Proposal(k: int, chosen: Threshold, sectionHitRate: Option<real>, emptyRate: Option<real>)

  /** The chosen threshold separates the sweep: at or above it the ratio is kept, below it it is not. */
  ghost predicate Separates(cases: seq<Case>, k: int, thresholds: seq<Threshold>, ratio: real, chosen: Threshold)
    requires thresholds != []
  {
    var baseline := SectionRate(cases, k, Base(thresholds));
    if baseline > 0.0 && exists d | d in thresholds :: Eligible(cases, k, d, ratio, baseline) then
      && chosen in thresholds && chosen.Some?
      && forall d | d in thresholds && d.Some? :: Eligible(cases, k, d, ratio, baseline) <==> d.value >= chosen.value
    else chosen == Base(thresholds)
  }

  /** For every top_k, the least threshold that keeps the ratio of the section hits found without one. */
  method Propose(cases: seq<Case>, topKs: seq<int>, thresholds: seq<Threshold>, ratio: real)
    returns (proposals: seq<Proposal>)
    requires thresholds != []
    ensures |proposals| == |topKs|
    ensures forall i | 0 <= i < |topKs| ::
              var p := proposals[i];
              && p.k == topKs[i] && Separates(cases, p.k, thresholds, ratio, p.chosen)
              && p.sectionHitRate == Summarize(cases, p.k, p.chosen).sectionHitRate
              && p.emptyRate == Summarize(cases, p.k, p.chosen).emptyRate
  {
    proposals := [];
    for i := 0 to |topKs|
      invariant |proposals| == i
      invariant forall j | 0 <= j < i ::
                  var p := proposals[j];
                  && p.k == topKs[j] && Separates(cases, p.k, thresholds, ratio, p.chosen)
                  && p.sectionHitRate == Summarize(cases, p.k, p.chosen).sectionHitRate
                  && p.emptyRate == Summarize(cases, p.k, p.chosen).emptyRate
    {
      hide Summarize;
      var chosen := Choose(cases, topKs[i], thresholds, ratio);
      var block := Summarize(cases, topKs[i], chosen);
      proposals := proposals + [Proposal(topKs[i], chosen, block.sectionHitRate, block.emptyRate)];
    }
  }

  method Choose(cases: seq<Case>, k: int, thresholds: seq<Threshold>, ratio: real) returns (chosen: Threshold)
    requires thresholds != []
    ensures Separates(cases, k, thresholds, ratio, chosen)
  {
    hide SectionRate, Portion;
    var base := Base(thresholds);
    var baseline := SectionRate(cases, k, base);
    var least: Threshold := None;
    for i := 0 to |thresholds|
      invariant least.None? ==> forall j | 0 <= j < i :: !Eligible(cases, k, thresholds[j], ratio, baseline)
      invariant least.Some? ==> least in thresholds && Eligible(cases, k, least, ratio, baseline)
      invariant least.Some? ==> forall j | 0 <= j < i && Eligible(cases, k, thresholds[j], ratio, baseline) ::
                  thresholds[j].value >= least.value
    {
      var d := thresholds[i];
      if d.Some? && SectionRate(cases, k, d) >= Portion(ratio, baseline) && (least.None? || d.value < least.value) {
        least := d;
      }
    }
    chosen := if least.Some? && baseline > 0.0 then least else base;
    if least.Some? {
      forall d | d in thresholds && d.Some?
        ensures Eligible(cases, k, d, ratio, baseline) <==> d.value >= least.value
      {
        if d.value >= least.value {
          SectionRateMonotone(cases, k, least, d);
        }
      }
    }
  }

  lemma ShareIsNoMore(ratio: real, x: real)
    requires ratio <= 1.0 && x >= 0.0
    ensures Portion(ratio, x) <= x
  {
    assert x - ratio * x == (1.0 - ratio) * x;
  }

  lemma ProposalKeepsPortion(cases: seq<Case>, k: int, thresholds: seq<Threshold>, ratio: real, chosen: Threshold)
    requires thresholds != [] && Separates(cases, k, thresholds, ratio, chosen) && ratio <= 1.0
    ensures SectionRate(cases, k, chosen) >= Portion(ratio, SectionRate(cases, k, Base(thresholds)))
  {
    var base := Base(thresholds);
    var baseline := SectionRate(cases, k, base);
    SectionRateMonotone(cases, k, base, base);
    ShareIsNoMore(ratio, baseline);
    hide SectionRate, Base, Portion;
    if chosen != base {
      assert Eligible(cases, k, chosen, ratio, baseline);
    }
  }

  /** Whatever is proposed keeps the ratio of what is found without a threshold, or failing that at the last point. */
  lemma ProposalKeepsRatio(cases: seq<Case>, k: int, thresholds: seq<Threshold>, ratio: real, chosen: Threshold)
    requires thresholds != [] && Separates(cases, k, thresholds, ratio, chosen) && ratio <= 1.0
    ensures var base := if None in thresholds then None else thresholds[|thresholds| - 1];
            SectionRate(cases, k, chosen) >= ratio * SectionRate(cases, k, base)
  {
    hide SectionRate, Separates;
    ProposalKeepsPortion(cases, k, thresholds, ratio, chosen);
  }
}
