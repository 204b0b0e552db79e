/** Matching injected events with detected episodes (tools/memory-indicators.py). */
module Matching {
  import opened Outcomes

  /** Dates are day numbers and ids are ordered as their text is. */
  datatype Event = Event(id: nat, service: string, start: int)

  datatype Episode = Episode(service: string, start: int)

  datatype Match = Match(tp: int, fp: int, fn: int, delays: map<nat, int>)

  predicate Before(a: Event, b: Event) {
    a.start < b.start || (a.start == b.start && a.id <= b.id)
  }

  predicate Sorted(events: seq<Event>) {
    events == [] || ((forall e | e in events[1..] :: Before(events[0], e)) && Sorted(events[1..]))
  }

  function Insert(e: Event, events: seq<Event>): seq<Event> {
    if events == [] || Before(e, events[0]) then [e] + events
    else [events[0]] + Insert(e, events[1..])
  }

  /** Stable sort by start date, then id. */
  function Sort(events: seq<Event>): seq<Event> {
    if events == [] then [] else Insert(events[0], Sort(events[1..]))
  }

  predicate Compatible(e: Event, episode: Episode, tolerance: int) {
    episode.service == e.service && 0 <= episode.start - e.start <= tolerance
  }

  predicate Available(e: Event, episodes: seq<Episode>, used: set<nat>, tolerance: int, i: nat) {
    i < |episodes| && i !in used && Compatible(e, episodes[i], tolerance)
  }

  /** Among the first n episodes, the available one that starts soonest; the earliest listed on a tie. */
  function Best(e: Event, episodes: seq<Episode>, used: set<nat>, tolerance: int, n: nat): Option<nat>
    requires n <= |episodes|
  {
    if n == 0 then None
    else
      var best := Best(e, episodes, used, tolerance, n - 1);
      if !Available(e, episodes, used, tolerance, n - 1) then best
      else if best.None? || (best.value < n && episodes[n - 1].start < episodes[best.value].start) then Some(n - 1)
      else best
  }

  /** The events matched by the greedy loop, each with the index of its episode. */
  function Greedy(events: seq<Event>, episodes: seq<Episode>, used: set<nat>, tolerance: int): map<Event, nat> {
    if events == [] then map[]
    else
      match Best(events[0], episodes, used, tolerance, |episodes|)
      case None => Greedy(events[1..], episodes, used, tolerance)
      case Some(b) => Greedy(events[1..], episodes, used + {b}, tolerance)[events[0] := b]
  }

  /** The delays it records: a later event with the same id replaces an earlier one. */
  function Delays(events: seq<Event>, episodes: seq<Episode>, used: set<nat>, tolerance: int): map<nat, int> {
    if events == [] then map[]
    else
      match Best(events[0], episodes, used, tolerance, |episodes|)
      case None => Delays(events[1..], episodes, used, tolerance)
      case Some(b) =>
        BestIsAvailable(events[0], episodes, used, tolerance, |episodes|);
        map[events[0].id := episodes[b].start - events[0].start] + Delays(events[1..], episodes, used + {b}, tolerance)
  }

  lemma {:induction false} BestIsAvailable(e: Event, episodes: seq<Episode>, used: set<nat>, tolerance: int, n: nat)
    requires n <= |episodes|
    ensures var best := Best(e, episodes, used, tolerance, n);
            && (best.Some? ==>
                  && best.value < n && Available(e, episodes, used, tolerance, best.value)
                  && (forall i | 0 <= i < n && Available(e, episodes, used, tolerance, i) ::
                        episodes[best.value].start <= episodes[i].start))
            && (best.None? ==> forall i | 0 <= i < n :: !Available(e, episodes, used, tolerance, i))
  {
    if n > 0 {
      BestIsAvailable(e, episodes, used, tolerance, n - 1);
    }
  }

  lemma DelaysStep(delays: map<nat, int>, sorted: seq<Event>, i: nat, episodes: seq<Episode>, used: set<nat>,
                   tolerance: int)
    requires i < |sorted|
    ensures var best := Best(sorted[i], episodes, used, tolerance, |episodes|);
            && (best.Some? ==> best.value < |episodes|)
            && delays + Delays(sorted[i..], episodes, used, tolerance) ==
            if best.None? then delays + Delays(sorted[i + 1..], episodes, used, tolerance)
            else delays[sorted[i].id := episodes[best.value].start - sorted[i].start]
                 + Delays(sorted[i + 1..], episodes, used + {best.value}, tolerance)
  {
    BestIsAvailable(sorted[i], episodes, used, tolerance, |episodes|);
    hide Best, Available;
    assert sorted[i..][1..] == sorted[i + 1..];
  }

  method MatchEvents(events: seq<Event>, episodes: seq<Episode>, tolerance: int) returns (m: Match)
    ensures m.delays == Delays(Sort(events), episodes, {}, tolerance)
    ensures m.tp == |m.delays| && m.fp == |episodes| - m.tp && m.fn == |events| - m.tp
  {
    hide Delays, Sort;
    var sorted := Sort(events);
    var used: set<nat> := {};
    var delays: map<nat, int> := map[];
    assert sorted[0..] == sorted;
    for i := 0 to |sorted|
      invariant Delays(sorted, episodes, {}, tolerance) == delays + Delays(sorted[i..], episodes, used, tolerance)
    {
      var item := sorted[i];
      DelaysStep(delays, sorted, i, episodes, used, tolerance);
      var best: Option<nat> := None;
      for index := 0 to |episodes|
        invariant best == Best(item, episodes, used, tolerance, index)
        invariant best.Some? ==> best.value < index
      {
        var delay := episodes[index].start - item.start;
        if index !in used && episodes[index].service == item.service && 0 <= delay <= tolerance {
          if best.None? || delay < episodes[best.value].start - item.start {
            best := Some(index);
          }
        }
      }
      if best.Some? {
        used := used + {best.value};
        delays := delays[item.id := episodes[best.value].start - item.start];
      }
    }
    assert sorted[|sorted|..] == [];
    NoDelays(episodes, used, tolerance);
    assert delays + map[] == delays;
    var tp := |delays|;
    m := Match(tp, |episodes| - tp, |events| - tp, delays);
  }

  lemma NoDelays(episodes: seq<Episode>, used: set<nat>, tolerance: int)
    ensures Delays([], episodes, used, tolerance) == map[]
  {
  }

  // ----- Sorting changes only the order -----

  function Ids(events: seq<Event>): set<nat> {
    if events == [] then {} else {events[0].id} + Ids(events[1..])
  }

  predicate DistinctIds(events: seq<Event>) {
    events == [] || (events[0].id !in Ids(events[1..]) && DistinctIds(events[1..]))
  }

  lemma {:induction false} IdOfMember(events: seq<Event>, e: Event)
    requires e in events
    ensures e.id in Ids(events)
  {
    if e != events[0] {
      IdOfMember(events[1..], e);
    }
  }

  lemma {:induction false} InsertMembers(e: Event, events: seq<Event>, f: Event)
    ensures f in Insert(e, events) <==> f == e || f in events
  {
    if events != [] && !Before(e, events[0]) {
      InsertMembers(e, events[1..], f);
    }
  }

  lemma {:induction false} InsertSorts(e: Event, events: seq<Event>)
    requires Sorted(events)
    ensures Sorted(Insert(e, events)) && |Insert(e, events)| == |events| + 1
    ensures Ids(Insert(e, events)) == Ids(events) + {e.id}
    ensures DistinctIds(events) && e.id !in Ids(events) ==> DistinctIds(Insert(e, events))
  {
    if events == [] || Before(e, events[0]) {
      assert ([e] + events)[1..] == events;
      forall f | f in events
        ensures Before(e, f)
      {
        assert f == events[0] || f in events[1..];
      }
    } else {
      var rest := Insert(e, events[1..]);
      InsertSorts(e, events[1..]);
      assert ([events[0]] + rest)[1..] == rest;
      forall f | f in rest
        ensures Before(events[0], f)
      {
        InsertMembers(e, events[1..], f);
      }
    }
  }

  /** The sorted list has the same events, each as often. */
  lemma {:induction false} SortSorts(events: seq<Event>)
    ensures Sorted(Sort(events)) && |Sort(events)| == |events| && Ids(Sort(events)) == Ids(events)
    ensures DistinctIds(events) ==> DistinctIds(Sort(events))
    ensures multiset(Sort(events)) == multiset(events)
  {
    if events != [] {
      SortSorts(events[1..]);
      InsertSorts(events[0], Sort(events[1..]));
      InsertAddsOne(events[0], Sort(events[1..]));
      assert events == [events[0]] + events[1..];
    }
  }

  lemma {:induction false} InsertAddsOne(e: Event, events: seq<Event>)
    ensures multiset(Insert(e, events)) == multiset(events) + multiset{e}
  {
    if events != [] && !Before(e, events[0]) {
      InsertAddsOne(e, events[1..]);
      assert events == [events[0]] + events[1..];
    }
  }

  // ----- Matchings -----

  ghost predicate Injective(m: map<Event, nat>) {
    forall e, f | e in m && f in m && m[e] == m[f] :: e == f
  }

  ghost predicate Fits(m: map<Event, nat>, events: seq<Event>, episodes: seq<Episode>, used: set<nat>, tolerance: int) {
    forall e | e in m :: e in events && Available(e, episodes, used, tolerance, m[e])
  }

  /** A matching of some of the events with distinct, unused, compatible episodes. */
  ghost predicate Valid(m: map<Event, nat>, events: seq<Event>, episodes: seq<Episode>, used: set<nat>, tolerance: int)
  {
    Fits(m, events, episodes, used, tolerance) && Injective(m)
  }

  lemma Without(m: map<Event, nat>, e: Event)
    requires e in m && Injective(m)
    ensures |m - {e}| == |m| - 1 && Injective(m - {e})
    ensures forall f | f in m - {e} :: m[f] != m[e]
  {
    assert (m - {e}).Keys == m.Keys - {e};
  }

  lemma With(m: map<Event, nat>, e: Event, b: nat)
    requires e !in m && Injective(m) && forall f | f in m :: m[f] != b
    ensures |m[e := b]| == |m| + 1 && Injective(m[e := b])
  {
    assert m[e := b].Keys == m.Keys + {e};
  }

  lemma {:induction false} GreedyIsValid(events: seq<Event>, episodes: seq<Episode>, used: set<nat>, tolerance: int)
    requires DistinctIds(events)
    ensures Valid(Greedy(events, episodes, used, tolerance), events, episodes, used, tolerance)
    ensures forall b | events != [] && Best(events[0], episodes, used, tolerance, |episodes|) == Some(b) ::
              |Greedy(events, episodes, used, tolerance)| == |Greedy(events[1..], episodes, used + {b}, tolerance)| + 1
    decreases |events|
  {
    if events != [] {
      var e := events[0];
      var best := Best(e, episodes, used, tolerance, |episodes|);
      BestIsAvailable(e, episodes, used, tolerance, |episodes|);
      if best.None? {
        GreedyIsValid(events[1..], episodes, used, tolerance);
      } else {
        GreedyIsValid(events[1..], episodes, used + {best.value}, tolerance);
        var tail := Greedy(events[1..], episodes, used + {best.value}, tolerance);
        if e in tail {
          IdOfMember(events[1..], e);
          assert false;
        }
        With(tail, e, best.value);
      }
    }
  }

  lemma SortedHead(events: seq<Event>, f: Event)
    requires Sorted(events) && events != [] && f in events[1..]
    ensures Before(events[0], f)
  {
  }

  lemma Spare(m: map<Event, nat>, events: seq<Event>, episodes: seq<Episode>, used: set<nat>, tolerance: int, b: nat)
    requires Fits(m, events, episodes, used, tolerance) && forall f | f in m :: m[f] != b
    ensures Fits(m, events, episodes, used + {b}, tolerance)
  {
  }

  /** A matching that leaves the first event alone loses at most the pair that used its episode. */
  lemma Release(m: map<Event, nat>, events: seq<Event>, episodes: seq<Episode>, used: set<nat>, tolerance: int, b: nat)
    returns (rest: map<Event, nat>)
    requires Valid(m, events, episodes, used, tolerance)
    ensures Valid(rest, events, episodes, used + {b}, tolerance) && |m| <= |rest| + 1
    ensures forall f | f in rest :: f in m && rest[f] == m[f]
    ensures (forall f | f in m :: m[f] != b) ==> rest == m
    ensures forall f | f in m && m[f] == b :: rest == m - {f}
  {
    hide Injective;
    rest := m;
    if f :| f in m && m[f] == b {
      Without(m, f);
      rest := m - {f};
      forall g | g in m && m[g] == b
        ensures g == f
      {
        assert g != f ==> g in m - {f};
      }
    }
    Spare(rest, events, episodes, used, tolerance, b);
  }

  /** A later event that held the soonest episode can take the one an earlier event had instead. */
  lemma CanTake(e: Event, f: Event, episodes: seq<Episode>, used: set<nat>, tolerance: int, b: nat, c: nat)
    requires Best(e, episodes, used, tolerance, |episodes|) == Some(b) && Before(e, f)
    requires Available(e, episodes, used, tolerance, c) && Available(f, episodes, used, tolerance, b) && b != c
    ensures Available(f, episodes, used + {b}, tolerance, c)
  {
    BestIsAvailable(e, episodes, used, tolerance, |episodes|);
  }

  /** Taking the soonest available episode for the first event costs any other matching at most one pair. */
  lemma Exchange(m: map<Event, nat>, events: seq<Event>, episodes: seq<Episode>, used: set<nat>, tolerance: int, b: nat)
    returns (rest: map<Event, nat>)
    requires Sorted(events) && events != []
    requires Best(events[0], episodes, used, tolerance, |episodes|) == Some(b)
    requires Valid(m, events, episodes, used, tolerance)
    ensures Valid(rest, events[1..], episodes, used + {b}, tolerance) && |m| <= |rest| + 1
  {
    hide Injective, Best, Available, Sorted;
    var e := events[0];
    if e !in m {
      rest := Release(m, events[1..], episodes, used, tolerance, b);
    } else {
      Without(m, e);
      var others := m - {e};
      assert Fits(others, events[1..], episodes, used, tolerance);
      rest := Release(others, events[1..], episodes, used, tolerance, b);
      if f :| f in others && others[f] == b {
        assert rest == others - {f};
        Without(others, f);
        SortedHead(events, f);
        CanTake(e, f, episodes, used, tolerance, b, m[e]);
        With(rest, f, m[e]);
        rest := rest[f := m[e]];
      }
    }
  }

  /** No matching into the unused episodes is larger than the greedy one. */
  lemma {:induction false} GreedyIsMaximum(m: map<Event, nat>, events: seq<Event>, episodes: seq<Episode>,
                                           used: set<nat>, tolerance: int)
    requires Sorted(events) && DistinctIds(events)
    requires Valid(m, events, episodes, used, tolerance)
    ensures |m| <= |Greedy(events, episodes, used, tolerance)|
    decreases |events|
  {
    hide Injective;
    if events == [] {
      assert m.Keys == {};
    } else {
      var best := Best(events[0], episodes, used, tolerance, |episodes|);
      BestIsAvailable(events[0], episodes, used, tolerance, |episodes|);
      if best.None? {
        assert Fits(m, events[1..], episodes, used, tolerance);
        GreedyIsMaximum(m, events[1..], episodes, used, tolerance);
      } else {
        var rest := Exchange(m, events, episodes, used, tolerance, best.value);
        GreedyIsMaximum(rest, events[1..], episodes, used + {best.value}, tolerance);
        GreedyIsValid(events, episodes, used, tolerance);
      }
    }
  }

  /** With distinct ids the recorded delays are those of the matched pairs, one each. */
  lemma {:induction false} DelaysOfGreedy(events: seq<Event>, episodes: seq<Episode>, used: set<nat>, tolerance: int)
    requires DistinctIds(events)
    ensures var m := Greedy(events, episodes, used, tolerance);
            var d := Delays(events, episodes, used, tolerance);
            && |d| == |m| && d.Keys <= Ids(events)
            && forall e | e in m :: m[e] < |episodes| && e.id in d && d[e.id] == episodes[m[e]].start - e.start
    decreases |events|
  {
    hide Injective, Best;
    if events != [] {
      var e := events[0];
      var best := Best(e, episodes, used, tolerance, |episodes|);
      BestIsAvailable(e, episodes, used, tolerance, |episodes|);
      if best.None? {
        DelaysOfGreedy(events[1..], episodes, used, tolerance);
      } else {
        DelaysOfGreedy(events[1..], episodes, used + {best.value}, tolerance);
        GreedyIsValid(events, episodes, used, tolerance);
        var d := Delays(events[1..], episodes, used + {best.value}, tolerance);
        PrependDelay(d, e.id, episodes[best.value].start - e.start);
      }
    }
  }

  lemma PrependDelay(d: map<nat, int>, id: nat, delay: int)
    requires id !in d
    ensures |map[id := delay] + d| == |d| + 1
    ensures (map[id := delay] + d).Keys == d.Keys + {id}
  {
    assert (map[id := delay] + d).Keys == d.Keys + {id};
  }

  /**
    With distinct event ids the greedy loop is a maximum matching: its pairs are valid, its delays are theirs, and no
    valid matching has more pairs. So tp is as large, and fp and fn as small, as any pairing of these events allows.
   */
  lemma MaximumMatching(events: seq<Event>, episodes: seq<Episode>, tolerance: int, other: map<Event, nat>)
    requires DistinctIds(events)
    requires Valid(other, events, episodes, {}, tolerance)
    ensures var m := Greedy(Sort(events), episodes, {}, tolerance);
            var d := Delays(Sort(events), episodes, {}, tolerance);
            && Valid(m, events, episodes, {}, tolerance) && |other| <= |m| == |d|
            && (forall e | e in m ::
                  && e in events && m[e] < |episodes| && episodes[m[e]].service == e.service
                  && e.id in d && 0 <= d[e.id] <= tolerance && e.start + d[e.id] == episodes[m[e]].start)
            && |d| <= |events| && |d| <= |episodes|
  {
    var sorted := Sort(events);
    SortSorts(events);
    assert forall e :: e in sorted <==> e in multiset(sorted);
    assert forall e :: e in events <==> e in multiset(events);
    GreedyIsValid(sorted, episodes, {}, tolerance);
    GreedyIsMaximum(other, sorted, episodes, {}, tolerance);
    DelaysOfGreedy(sorted, episodes, {}, tolerance);
    MatchingBounds(Greedy(sorted, episodes, {}, tolerance), events, episodes, tolerance);
  }

  lemma MatchingBounds(m: map<Event, nat>, events: seq<Event>, episodes: seq<Episode>, tolerance: int)
    requires Valid(m, events, episodes, {}, tolerance)
    ensures |m| <= |events| && |m| <= |episodes|
  {
    SetOfSeq(events);
    SubsetSize(m.Keys, set e | e in events);
    InjectiveSize(m, |episodes|);
  }

  lemma {:induction false} SetOfSeq(events: seq<Event>)
    ensures |set e | e in events| <= |events|
  {
    if events != [] {
      var front, last := events[..|events| - 1], events[|events| - 1];
      SetOfSeq(front);
      assert (set e | e in events) == (set e | e in front) + {last} by {
        assert events == front + [last];
      }
    }
  }

  lemma {:induction false} SubsetSize<T>(a: set<T>, b: set<T>)
    requires a <= b
    ensures |a| <= |b|
  {
    if x :| x in a {
      SubsetSize(a - {x}, b - {x});
    }
  }

  lemma {:induction false} InjectiveSize(m: map<Event, nat>, n: nat)
    requires Injective(m) && forall e | e in m :: m[e] < n
    ensures |m| <= n
    decreases n
  {
    if n == 0 {
      assert m.Keys == {};
    } else if e :| e in m && m[e] == n - 1 {
      Without(m, e);
      InjectiveSize(m - {e}, n - 1);
    } else {
      InjectiveSize(m, n - 1);
    }
  }

  lemma OnlyAvailable(e: Event, episodes: seq<Episode>, used: set<nat>, tolerance: int, b: nat)
    requires Available(e, episodes, used, tolerance, b)
    requires forall i: nat | Available(e, episodes, used, tolerance, i) :: i == b
    ensures Best(e, episodes, used, tolerance, |episodes|) == Some(b)
  {
    BestIsAvailable(e, episodes, used, tolerance, |episodes|);
  }

  lemma LastPair(b: Event, episodes: seq<Episode>)
    requires |episodes| == 2 && Available(b, episodes, {0}, 0, 1) && Best(b, episodes, {0}, 0, 2) == Some(1)
    ensures Greedy([b], episodes, {0}, 0) == map[b := 1]
    ensures Delays([b], episodes, {0}, 0) == map[b.id := episodes[1].start - b.start]
  {
    hide Best;
    assert [b][1..] == [];
  }

  lemma TwoInOrder(a: Event, b: Event)
    requires Before(a, b)
    ensures Sort([a, b]) == [a, b]
  {
    hide Before;
    assert [a, b][1..] == [b] && [b][1..] == [];
    assert Sort([]) == [] && Sort([b]) == [b] && Insert(a, [b]) == [a, b];
  }

  lemma FirstPair(a: Event, b: Event, episodes: seq<Episode>)
    requires |episodes| == 2 && Best(a, episodes, {}, 0, 2) == Some(0)
    requires Greedy([b], episodes, {0}, 0) == map[b := 1]
    requires Delays([b], episodes, {0}, 0) == map[a.id := episodes[1].start - b.start]
    ensures Greedy([a, b], episodes, {}, 0) == map[b := 1][a := 0]
    ensures Delays([a, b], episodes, {}, 0) == map[a.id := episodes[1].start - b.start]
  {
    hide Best;
    var used: set<nat> := {};
    assert [a, b][1..] == [b];
    assert used + {0} == {0};
  }

  /** With a repeated id two matched events leave one delay, so tp falls below the matching that was made. */
  lemma RepeatedIdUndercounts(service: string)
    ensures var events := [Event(1, service, 0), Event(1, service, 1)];
            var episodes := [Episode(service, 0), Episode(service, 1)];
            |Delays(Sort(events), episodes, {}, 0)| == 1 && |Greedy(Sort(events), episodes, {}, 0)| == 2
  {
    var a, b := Event(1, service, 0), Event(1, service, 1);
    var episodes := [Episode(service, 0), Episode(service, 1)];
    OnlyAvailable(a, episodes, {}, 0, 0);
    OnlyAvailable(b, episodes, {0}, 0, 1);
    LastPair(b, episodes);
    TwoInOrder(a, b);
    FirstPair(a, b, episodes);
  }

  // ----- Exactly when tp is the maximum -----

  /** A pairing of some of the listed events, by their places in the list, with distinct compatible episodes. */
  ghost predicate Pairing(pairs: map<nat, nat>, events: seq<Event>, episodes: seq<Episode>, tolerance: int) {
    && (forall i | i in pairs ::
          && i < |events| && pairs[i] < |episodes| && episodes[pairs[i]].service == events[i].service
          && 0 <= episodes[pairs[i]].start - events[i].start <= tolerance)
    && (forall i, j | i in pairs && j in pairs && pairs[i] == pairs[j] :: i == j)
  }

  /** Whatever the episodes and the tolerance, no pairing has more pairs than the loop records. */
  ghost predicate CountsMost(events: seq<Event>) {
    forall episodes, tolerance, pairs | Pairing(pairs, events, episodes, tolerance) ::
      |pairs| <= |Delays(Sort(events), episodes, {}, tolerance)|
  }

  lemma {:induction false} IdsDiffer(events: seq<Event>, i: nat, j: nat)
    requires DistinctIds(events) && i < j < |events|
    ensures events[i].id != events[j].id
  {
    if i == 0 {
      assert events[j] == events[1..][j - 1];
      IdOfMember(events[1..], events[j]);
    } else {
      IdsDiffer(events[1..], i - 1, j - 1);
    }
  }

  lemma PairIsAvailable(pairs: map<nat, nat>, events: seq<Event>, episodes: seq<Episode>, tolerance: int, i: nat)
    requires Pairing(pairs, events, episodes, tolerance) && i in pairs
    ensures i < |events| && Available(events[i], episodes, {}, tolerance, pairs[i])
    ensures Pairing(pairs - {i}, events, episodes, tolerance)
  {
  }

  /** With distinct ids a pairing of places is a matching of events. */
  lemma {:induction false} PairingIsMatching(pairs: map<nat, nat>, events: seq<Event>, episodes: seq<Episode>,
                                             tolerance: int)
    returns (m: map<Event, nat>)
    requires DistinctIds(events) && Pairing(pairs, events, episodes, tolerance)
    ensures Valid(m, events, episodes, {}, tolerance) && |m| == |pairs|
    ensures forall e | e in m :: exists i :: i in pairs && events[i] == e && pairs[i] == m[e]
    decreases |pairs|
  {
    if i :| i in pairs {
      hide Available;
      var rest := pairs - {i};
      PairIsAvailable(pairs, events, episodes, tolerance, i);
      assert pairs.Keys == rest.Keys + {i};
      var n := PairingIsMatching(rest, events, episodes, tolerance);
      forall j | j in rest
        ensures events[j] != events[i]
      {
        if j < i {
          IdsDiffer(events, j, i);
        } else {
          IdsDiffer(events, i, j);
        }
      }
      With(n, events[i], pairs[i]);
      m := n[events[i] := pairs[i]];
    } else {
      assert pairs.Keys == {};
      m := map[];
    }
  }

  lemma {:induction false} DelaysWithinIds(events: seq<Event>, episodes: seq<Episode>, used: set<nat>, tolerance: int)
    ensures Delays(events, episodes, used, tolerance).Keys <= Ids(events)
    decreases |events|
  {
    if events != [] {
      match Best(events[0], episodes, used, tolerance, |episodes|)
      case None => DelaysWithinIds(events[1..], episodes, used, tolerance);
      case Some(b) => DelaysWithinIds(events[1..], episodes, used + {b}, tolerance);
    }
  }

  lemma {:induction false} RepeatedIdsAreFewer(events: seq<Event>)
    ensures |Ids(events)| <= |events|
    ensures !DistinctIds(events) ==> |Ids(events)| < |events|
  {
    if events != [] {
      RepeatedIdsAreFewer(events[1..]);
    }
  }

  /** An episode for every event, on its own day. */
  function OwnEpisodes(events: seq<Event>): seq<Episode> {
    seq(|events|, i requires 0 <= i < |events| => Episode(events[i].service, events[i].start))
  }

  /** Each of n places paired with the episode at the same place. */
  function Places(n: nat): map<nat, nat> {
    if n == 0 then map[] else Places(n - 1)[n - 1 := n - 1]
  }

  lemma {:induction false} EveryPlace(n: nat)
    ensures |Places(n)| == n && forall i | i in Places(n) :: i < n && Places(n)[i] == i
  {
    if n > 0 {
      EveryPlace(n - 1);
      assert Places(n).Keys == Places(n - 1).Keys + {n - 1};
    }
  }

  lemma RepeatedIdLosesAPair(events: seq<Event>)
    requires !DistinctIds(events)
    ensures !CountsMost(events)
  {
    var n := |events|;
    var episodes, pairs := OwnEpisodes(events), Places(n);
    EveryPlace(n);
    assert Pairing(pairs, events, episodes, 0);
    SortSorts(events);
    DelaysWithinIds(Sort(events), episodes, {}, 0);
    RepeatedIdsAreFewer(events);
    SubsetSize(Delays(Sort(events), episodes, {}, 0).Keys, Ids(events));
  }

  /**
    The loop counts a maximum matching, whatever the episodes and the tolerance, if and only if no two events share an
    id: a repeated id always loses a pair that some episodes allow.
   */
  lemma MaximumExactly(events: seq<Event>)
    ensures DistinctIds(events) <==> CountsMost(events)
  {
    if DistinctIds(events) {
      forall episodes, tolerance, pairs | Pairing(pairs, events, episodes, tolerance)
        ensures |pairs| <= |Delays(Sort(events), episodes, {}, tolerance)|
      {
        var m := PairingIsMatching(pairs, events, episodes, tolerance);
        MaximumMatching(events, episodes, tolerance, m);
      }
    } else {
      RepeatedIdLosesAPair(events);
    }
  }
}
