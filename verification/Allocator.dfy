/**
 The cyclic search for a relay sequence number nothing is waiting on. The loop is specified by NextFree,
 which speaks of distances round the range and not of trips, and the lemmas relate the two.
 */
module Allocator {
  import opened Basics

  const WORD: nat := 0x1_0000_0000

  /** A Go uint32. */
  type Word = x: int | 0 <= x < 0x1_0000_0000

  /** One trip of the search: the number tried after `candidate`. */
  function Successor(candidate: nat, floor: nat, ceil: nat): nat {
    if candidate < floor || candidate >= ceil then floor else candidate + 1
  }

  /** The number tried on the given trip of a search from `from`. */
  function Visit(from: nat, floor: nat, ceil: nat, trip: nat): nat {
    if trip == 0 then from else Successor(Visit(from, floor, ceil, trip - 1), floor, ceil)
  }

  /** How far round the range x lies after `from`; `from` itself, when inside, lies a whole turn away. */
  function Distance(from: nat, x: nat, floor: nat, ceil: nat): (d: nat)
    requires floor <= x <= ceil
    ensures 1 <= d <= ceil - floor + 1
  {
    if from < floor || from >= ceil then x - floor + 1
    else if x > from then x - from
    else x - from + (ceil - floor + 1)
  }

  /** r is the first number in [floor, ceil], going round from the one after `from`, that is not taken. */
  ghost predicate NextFree(taken: set<nat>, from: nat, floor: nat, ceil: nat, r: Option<nat>) {
    match r
    case Some(c) =>
      && floor <= c <= ceil
      && c !in taken
      && forall x :: floor <= x <= ceil && Distance(from, x, floor, ceil) < Distance(from, c, floor, ceil) ==> x in taken
    case None =>
      forall x :: floor <= x <= ceil ==> x in taken
  }

  /** Trip i reaches a number at distance i: the trips visit the range in cyclic order, and no number twice. */
  lemma {:induction false} VisitIsAtItsDistance(from: nat, floor: nat, ceil: nat, trip: nat)
    requires floor <= ceil
    requires 1 <= trip <= ceil - floor + 1
    ensures floor <= Visit(from, floor, ceil, trip) <= ceil
    ensures Distance(from, Visit(from, floor, ceil, trip), floor, ceil) == trip
  {
    if trip > 1 {
      VisitIsAtItsDistance(from, floor, ceil, trip - 1);
    } else {
      assert Visit(from, floor, ceil, 0) == from;
    }
  }

  lemma DistanceIsInjective(from: nat, x: nat, y: nat, floor: nat, ceil: nat)
    requires floor <= x <= ceil && floor <= y <= ceil
    requires Distance(from, x, floor, ceil) == Distance(from, y, floor, ceil)
    ensures x == y
  {
  }

  /** Every number of the range is visited, on the trip that is its distance, and on no other trip of one turn. */
  lemma EveryNumberIsVisitedOnce(from: nat, x: nat, floor: nat, ceil: nat, trip: nat)
    requires floor <= x <= ceil
    requires 1 <= trip <= ceil - floor + 1
    ensures Visit(from, floor, ceil, trip) == x <==> trip == Distance(from, x, floor, ceil)
  {
    VisitIsAtItsDistance(from, floor, ceil, trip);
    if trip == Distance(from, x, floor, ceil) {
      DistanceIsInjective(from, x, Visit(from, floor, ceil, trip), floor, ceil);
    }
  }

  /** There is one right answer. */
  lemma NextFreeIsUnique(taken: set<nat>, from: nat, floor: nat, ceil: nat, r: Option<nat>, q: Option<nat>)
    requires floor <= ceil
    requires NextFree(taken, from, floor, ceil, r)
    requires NextFree(taken, from, floor, ceil, q)
    ensures r == q
  {
    if r.Some? && q.Some? {
      var dr := Distance(from, r.value, floor, ceil);
      var dq := Distance(from, q.value, floor, ceil);
      if dr == dq {
        DistanceIsInjective(from, r.value, q.value, floor, ceil);
      }
    }
  }

  /** The numbers visited before trip d. */
  ghost function VisitedBefore(from: nat, floor: nat, ceil: nat, d: nat): set<nat> {
    if d <= 1 then {} else VisitedBefore(from, floor, ceil, d - 1) + {Visit(from, floor, ceil, d - 1)}
  }

  lemma {:induction false} VisitedBeforeIsNearer(from: nat, floor: nat, ceil: nat, d: nat)
    requires floor <= ceil
    requires 1 <= d <= ceil - floor + 2
    ensures |VisitedBefore(from, floor, ceil, d)| == d - 1
    ensures forall x :: x in VisitedBefore(from, floor, ceil, d) ==>
      floor <= x <= ceil && Distance(from, x, floor, ceil) < d
  {
    if d > 1 {
      VisitedBeforeIsNearer(from, floor, ceil, d - 1);
      VisitIsAtItsDistance(from, floor, ceil, d - 1);
    }
  }

  lemma SubsetIsNoLarger<T>(a: set<T>, b: set<T>)
    requires a <= b
    ensures |a| <= |b|
  {
    assert b == a + (b - a);
  }

  /** A hand-out skips only numbers that are taken, so it moves the search on by at most one more than there are. */
  lemma HandOutSkipsOnlyTaken(taken: set<nat>, from: nat, floor: nat, ceil: nat, c: nat)
    requires NextFree(taken, from, floor, ceil, Some(c))
    ensures Distance(from, c, floor, ceil) <= |taken| + 1
  {
    var d := Distance(from, c, floor, ceil);
    VisitedBeforeIsNearer(from, floor, ceil, d);
    SubsetIsNoLarger(VisitedBefore(from, floor, ceil, d), taken);
  }

  /** The search fails exactly when the whole range is taken, which takes as many entries as it has numbers. */
  lemma ExhaustionTakesTheWholeRange(taken: set<nat>, from: nat, floor: nat, ceil: nat, r: Option<nat>)
    requires floor <= ceil
    requires NextFree(taken, from, floor, ceil, r)
    ensures r.None? <==> forall x :: floor <= x <= ceil ==> x in taken
    ensures |taken| < ceil - floor + 1 ==> r.Some?
  {
    if r.None? {
      VisitedBeforeIsNearer(from, floor, ceil, ceil - floor + 2);
      SubsetIsNoLarger(VisitedBefore(from, floor, ceil, ceil - floor + 2), taken);
    }
  }

  /** There always is an answer: the first trip that finds a free number, or none. */
  lemma {:induction false} SearchHasAnAnswer(taken: set<nat>, from: nat, floor: nat, ceil: nat, trip: nat) returns (r: Option<nat>)
    requires floor <= ceil && 1 <= trip <= ceil - floor + 2
    requires forall x :: floor <= x <= ceil && Distance(from, x, floor, ceil) < trip ==> x in taken
    ensures NextFree(taken, from, floor, ceil, r)
    decreases ceil - floor + 2 - trip
  {
    if trip == ceil - floor + 2 {
      r := None;
    } else {
      var c := Visit(from, floor, ceil, trip);
      VisitIsAtItsDistance(from, floor, ceil, trip);
      if c !in taken {
        r := Some(c);
      } else {
        forall x | floor <= x <= ceil && Distance(from, x, floor, ceil) == trip ensures x == c {
          DistanceIsInjective(from, x, c, floor, ceil);
        }
        r := SearchHasAnAnswer(taken, from, floor, ceil, trip + 1);
      }
    }
  }

  // -- Numbers found one after another ---------------------------------------------------------------

  /** Each is the next free after the one before it, which is still taken while the search runs. */
  ghost predicate Consecutive(taken: set<nat>, from: nat, floor: nat, ceil: nat, found: seq<nat>) {
    && |found| > 0 && NextFree(taken, from, floor, ceil, Some(found[0]))
    && forall i :: 0 <= i < |found| - 1 ==> NextFree(taken + {found[i]}, found[i], floor, ceil, Some(found[i + 1]))
  }

  lemma DistanceGoesRound(from: nat, a: nat, x: nat, floor: nat, ceil: nat)
    requires floor <= a <= ceil && floor <= x <= ceil
    ensures var da, dx := Distance(from, a, floor, ceil), Distance(from, x, floor, ceil);
      Distance(a, x, floor, ceil) == if dx > da then dx - da else dx - da + (ceil - floor + 1)
  {
  }

  function Numbers(found: seq<nat>): set<nat> {
    set n | n in found
  }

  lemma {:induction false} FewerNumbersThanFound(found: seq<nat>)
    ensures |Numbers(found)| <= |found|
  {
    if found == [] {
      assert Numbers(found) == {};
    } else {
      var k := |found| - 1;
      FewerNumbersThanFound(found[..k]);
      assert found == found[..k] + [found[k]];
      assert Numbers(found) == Numbers(found[..k]) + {found[k]};
    }
  }

  lemma {:induction false} DistinctNumbersAreAsMany(found: seq<nat>)
    requires forall i, j :: 0 <= i < j < |found| ==> found[i] != found[j]
    ensures |Numbers(found)| == |found|
  {
    if found == [] {
      assert Numbers(found) == {};
    } else {
      var k := |found| - 1;
      DistinctNumbersAreAsMany(found[..k]);
      assert found == found[..k] + [found[k]];
      assert Numbers(found) == Numbers(found[..k]) + {found[k]};
    }
  }

  /** x is free, and the search from `from` comes to it no later than to `last`. */
  predicate FreeUpTo(taken: set<nat>, from: nat, floor: nat, ceil: nat, x: nat, last: nat)
    requires floor <= last <= ceil
  {
    floor <= x <= ceil && x !in taken && Distance(from, x, floor, ceil) <= Distance(from, last, floor, ceil)
  }

  /** What has been found is all that is free up to the last. */
  ghost predicate Covers(taken: set<nat>, from: nat, floor: nat, ceil: nat, found: seq<nat>) {
    && |found| > 0 && floor <= found[|found| - 1] <= ceil
    && forall x :: x in Numbers(found) <==> FreeUpTo(taken, from, floor, ceil, x, found[|found| - 1])
  }

  /** While not every free number has been found, the search has not come round: it finds another, further on. */
  lemma FindsAnother(taken: set<nat>, from: nat, floor: nat, ceil: nat, last: nat, x: nat, c: nat)
    requires floor <= last <= ceil && floor <= x <= ceil
    requires x !in taken && !FreeUpTo(taken, from, floor, ceil, x, last)
    requires NextFree(taken + {last}, last, floor, ceil, Some(c))
    ensures c !in taken && Distance(from, last, floor, ceil) < Distance(from, c, floor, ceil)
    ensures forall y :: FreeUpTo(taken, from, floor, ceil, y, c) && y != c ==> FreeUpTo(taken, from, floor, ceil, y, last)
  {
    DistanceGoesRound(from, last, x, floor, ceil);
    DistanceGoesRound(from, last, c, floor, ceil);
    forall y | FreeUpTo(taken, from, floor, ceil, y, c) && y != c ensures FreeUpTo(taken, from, floor, ceil, y, last) {
      DistanceGoesRound(from, last, y, floor, ceil);
      if Distance(from, y, floor, ceil) == Distance(from, c, floor, ceil) {
        DistanceIsInjective(from, y, c, floor, ceil);
      }
    }
  }

  lemma FirstCovers(taken: set<nat>, from: nat, floor: nat, ceil: nat, c: nat)
    requires NextFree(taken, from, floor, ceil, Some(c))
    ensures Covers(taken, from, floor, ceil, [c])
  {
    forall x | FreeUpTo(taken, from, floor, ceil, x, c) ensures x == c {
      if Distance(from, x, floor, ceil) == Distance(from, c, floor, ceil) {
        DistanceIsInjective(from, x, c, floor, ceil);
      }
    }
  }

  lemma NextCovers(taken: set<nat>, free: set<nat>, from: nat, floor: nat, ceil: nat, found: seq<nat>, c: nat)
    requires forall x :: x in free ==> floor <= x <= ceil && x !in taken
    requires Covers(taken, from, floor, ceil, found) && |found| < |free|
    requires NextFree(taken + {found[|found| - 1]}, found[|found| - 1], floor, ceil, Some(c))
    ensures Covers(taken, from, floor, ceil, found + [c]) && c !in Numbers(found)
  {
    var last := found[|found| - 1];
    FewerNumbersThanFound(found);
    if free <= Numbers(found) {
      SubsetIsNoLarger(free, Numbers(found));
    }
    var x :| x in free && x !in Numbers(found);
    FindsAnother(taken, from, floor, ceil, last, x, c);
    forall y ensures y in Numbers(found + [c]) <==> FreeUpTo(taken, from, floor, ceil, y, c) {
      assert y in Numbers(found + [c]) <==> y in Numbers(found) || y == c;
    }
  }

  /** Numbers found one after another are free, and none is found twice until every free one has been. */
  lemma {:induction false} ConsecutiveAreDistinct(taken: set<nat>, free: set<nat>, from: nat, floor: nat, ceil: nat, found: seq<nat>)
    requires forall x :: x in free ==> floor <= x <= ceil && x !in taken
    requires Consecutive(taken, from, floor, ceil, found) && |found| <= |free|
    ensures Covers(taken, from, floor, ceil, found)
    ensures forall i, j :: 0 <= i < j < |found| ==> found[i] != found[j]
  {
    var k := |found| - 1;
    if k == 0 {
      FirstCovers(taken, from, floor, ceil, found[0]);
    } else {
      var before := found[..k];
      ConsecutiveAreDistinct(taken, free, from, floor, ceil, before);
      assert NextFree(taken + {found[k - 1]}, found[k - 1], floor, ceil, Some(found[k]));
      NextCovers(taken, free, from, floor, ceil, before, found[k]);
      assert before + [found[k]] == found;
      assert forall i :: 0 <= i < k ==> found[i] in Numbers(before);
    }
  }

  /**
   The trip count is computed in 32 bits. It is one per number of the range exactly when floor <= ceil and
   the range is not the whole 32-bit space, for which it wraps to zero.
   */
  lemma TripCountIsTheRangeSize(floor: Word, ceil: Word)
    requires floor <= ceil
    ensures (ceil - floor + 1) % WORD == ceil - floor + 1 <==> !(floor == 0 && ceil == WORD - 1)
    ensures floor == 0 && ceil == WORD - 1 ==> (ceil - floor + 1) % WORD == 0
  {
    if !(floor == 0 && ceil == WORD - 1) {
      assert 0 <= ceil - floor + 1 < WORD;
    }
  }

  /** The loop itself, on every uint32 input. */
  method NextFreeRelaySequence<T>(outstanding: map<nat, T>, from: Word, floor: Word, ceil: Word)
    returns (number: nat, free: bool)
    ensures floor <= ceil && !(floor == 0 && ceil == WORD - 1) ==>
      NextFree(outstanding.Keys, from, floor, ceil, if free then Some(number) else None)
    ensures floor == 0 && ceil == WORD - 1 ==> !free
    ensures floor > ceil ==> (free <==> floor > ceil + 1 && floor !in outstanding)
    ensures floor > ceil && free ==> number == floor
    ensures !free ==> number == 0
  {
    var candidate: nat := from;
    var trips := (ceil - floor + 1) % WORD;
    var trip := 0;
    if floor <= ceil {
      TripCountIsTheRangeSize(floor, ceil);
    } else if floor > ceil + 1 {
      assert trips == ceil - floor + 1 + WORD;
    }
    while trip < trips
      invariant 0 <= trip <= trips
      invariant candidate == Visit(from, floor, ceil, trip)
      invariant floor <= ceil ==> forall x :: floor <= x <= ceil && Distance(from, x, floor, ceil) <= trip ==> x in outstanding
      invariant floor > ceil && trip > 0 ==> floor in outstanding
    {
      if candidate < floor || candidate >= ceil {
        candidate := floor;
      } else {
        candidate := candidate + 1;
      }
      trip := trip + 1;
      if floor <= ceil {
        VisitIsAtItsDistance(from, floor, ceil, trip);
        forall x | floor <= x <= ceil && Distance(from, x, floor, ceil) == trip ensures x == candidate {
          DistanceIsInjective(from, x, candidate, floor, ceil);
        }
      }
      if candidate !in outstanding {
        return candidate, true;
      }
    }
    return 0, false;
  }
}
