/** Signal sanitizer: decimal-shift repair, side filter, and the longest strictly
    monotone subsequence with its three-level tie-break
    (shared/signal/sanitizer.py). */
module Sanitizer {
  import opened Common

  datatype EntrySignal = EntrySignal(symbol: string, side: Side, entry: real, stopLoss: real,
                                     leverage: int, targets: seq<real>)

  datatype Correction = Correction(original: real, corrected: real)

  datatype SanitizedSignal = SanitizedSignal(symbol: string, side: Side, entry: real, stopLoss: real,
                                             leverage: int, targetsRaw: seq<real>,
                                             targetsClean: seq<real>, dropped: seq<real>,
                                             corrections: seq<Correction>, alert: bool)

  datatype Reason = WrongSideStopLoss | NoViableTargets

  datatype Outcome = InvalidShiftRange | Rejected(reason: Reason) | Accepted(signal: SanitizedSignal)

  // ---------------------------------------------------------------- sides

  predicate ProfitableSide(side: Side, entry: real, target: real) {
    if side.Long? then target > entry else target < entry
  }

  predicate StopOnCorrectSide(side: Side, entry: real, stopLoss: real) {
    if side.Long? then stopLoss < entry else stopLoss > entry
  }

  /** a is strictly nearer to the entry than b, for two profitable prices. */
  predicate Nearer(side: Side, a: real, b: real) {
    if side.Long? then a < b else a > b
  }

  // ---------------------------------------------------------------- paths and preference

  predicate InBounds(values: seq<real>, p: seq<nat>) {
    forall i :: 0 <= i < |p| ==> p[i] < |values|
  }

  /** Index lists into `values` that increase and whose values strictly move away from the entry. */
  predicate IsPath(values: seq<real>, side: Side, p: seq<nat>) {
    && InBounds(values, p)
    && (forall i, j :: 0 <= i < j < |p| ==> p[i] < p[j] && Nearer(side, values[p[i]], values[p[j]]))
  }

  function At(values: seq<real>, p: seq<nat>): (r: seq<real>)
    requires InBounds(values, p)
    ensures |r| == |p|
  {
    seq(|p|, i requires 0 <= i < |p| => values[p[i]])
  }

  /** Python's tuple comparison of two value tuples of one length, in the side's direction. */
  predicate ValuesFirst(side: Side, a: seq<real>, b: seq<real>)
    requires |a| == |b|
  {
    |a| > 0 && (Nearer(side, a[0], b[0]) || (a[0] == b[0] && ValuesFirst(side, a[1..], b[1..])))
  }

  /** Python's tuple comparison of two index tuples of one length. */
  predicate IndicesFirst(a: seq<nat>, b: seq<nat>)
    requires |a| == |b|
  {
    |a| > 0 && (a[0] < b[0] || (a[0] == b[0] && IndicesFirst(a[1..], b[1..])))
  }

  predicate PreferPath(values: seq<real>, side: Side, candidate: seq<nat>, current: seq<nat>)
    requires InBounds(values, candidate)
    requires InBounds(values, current)
  {
    if |candidate| != |current| then
      |candidate| > |current|
    else if At(values, candidate) != At(values, current) then
      ValuesFirst(side, At(values, candidate), At(values, current))
    else
      IndicesFirst(candidate, current)
  }

  predicate AtLeastAsGood(values: seq<real>, side: Side, a: seq<nat>, b: seq<nat>) {
    InBounds(values, a) && InBounds(values, b) && (a == b || PreferPath(values, side, a, b))
  }

  /** r beats every other strictly monotone index list. */
  ghost predicate IsBestPath(values: seq<real>, side: Side, r: seq<nat>) {
    && IsPath(values, side, r)
    && forall p :: IsPath(values, side, p) ==> AtLeastAsGood(values, side, r, p)
  }

  // ---------------------------------------------------------------- the preference is a strict total order

  lemma {:induction false} ValuesFirstTransitive(side: Side, a: seq<real>, b: seq<real>, c: seq<real>)
    requires |a| == |b| == |c|
    requires ValuesFirst(side, a, b) && ValuesFirst(side, b, c)
    ensures ValuesFirst(side, a, c)
  {
    if a[0] == b[0] == c[0] {
      ValuesFirstTransitive(side, a[1..], b[1..], c[1..]);
    }
  }

  lemma {:induction false} ValuesFirstTrichotomy(side: Side, a: seq<real>, b: seq<real>)
    requires |a| == |b|
    ensures a == b || ValuesFirst(side, a, b) || ValuesFirst(side, b, a)
    ensures !(ValuesFirst(side, a, b) && ValuesFirst(side, b, a))
    ensures a == b ==> !ValuesFirst(side, a, b)
  {
    if a != [] {
      ValuesFirstTrichotomy(side, a[1..], b[1..]);
      assert a == [a[0]] + a[1..] && b == [b[0]] + b[1..];
    }
  }

  lemma {:induction false} IndicesFirstTransitive(a: seq<nat>, b: seq<nat>, c: seq<nat>)
    requires |a| == |b| == |c|
    requires IndicesFirst(a, b) && IndicesFirst(b, c)
    ensures IndicesFirst(a, c)
  {
    if a[0] == b[0] == c[0] {
      IndicesFirstTransitive(a[1..], b[1..], c[1..]);
    }
  }

  lemma {:induction false} IndicesFirstTrichotomy(a: seq<nat>, b: seq<nat>)
    requires |a| == |b|
    ensures a == b || IndicesFirst(a, b) || IndicesFirst(b, a)
    ensures !(IndicesFirst(a, b) && IndicesFirst(b, a))
    ensures a == b ==> !IndicesFirst(a, b)
  {
    if a != [] {
      IndicesFirstTrichotomy(a[1..], b[1..]);
      assert a == [a[0]] + a[1..] && b == [b[0]] + b[1..];
    }
  }

  lemma PreferenceIsTotal(values: seq<real>, side: Side, a: seq<nat>, b: seq<nat>)
    requires InBounds(values, a)
    requires InBounds(values, b)
    ensures a == b || PreferPath(values, side, a, b) || PreferPath(values, side, b, a)
    ensures !(PreferPath(values, side, a, b) && PreferPath(values, side, b, a))
  {
    if |a| == |b| {
      ValuesFirstTrichotomy(side, At(values, a), At(values, b));
      IndicesFirstTrichotomy(a, b);
    }
  }

  lemma AtLeastAsGoodTransitive(values: seq<real>, side: Side, a: seq<nat>, b: seq<nat>, c: seq<nat>)
    requires AtLeastAsGood(values, side, a, b) && AtLeastAsGood(values, side, b, c)
    ensures AtLeastAsGood(values, side, a, c)
  {
    if a != b && b != c && |a| == |b| == |c| {
      var x, y, z := At(values, a), At(values, b), At(values, c);
      if x != y && y != z {
        ValuesFirstTransitive(side, x, y, z);
        ValuesFirstTrichotomy(side, x, z);
      } else if x == y == z {
        IndicesFirstTransitive(a, b, c);
      }
    }
  }

  // ---------------------------------------------------------------- optimal substructure

  lemma {:induction false} ValuesFirstAppend(side: Side, a: seq<real>, b: seq<real>, x: real)
    requires |a| == |b|
    ensures ValuesFirst(side, a + [x], b + [x]) == ValuesFirst(side, a, b)
  {
    if a != [] {
      ValuesFirstAppend(side, a[1..], b[1..], x);
      assert (a + [x])[1..] == a[1..] + [x] && (b + [x])[1..] == b[1..] + [x];
    }
  }

  lemma {:induction false} IndicesFirstAppend(a: seq<nat>, b: seq<nat>, x: nat)
    requires |a| == |b|
    ensures IndicesFirst(a + [x], b + [x]) == IndicesFirst(a, b)
  {
    if a != [] {
      IndicesFirstAppend(a[1..], b[1..], x);
      assert (a + [x])[1..] == a[1..] + [x] && (b + [x])[1..] == b[1..] + [x];
    }
  }

  /** Appending the same index to two paths keeps their order: optimal substructure. */
  lemma PreferenceSurvivesAppend(values: seq<real>, side: Side, a: seq<nat>, b: seq<nat>, x: nat)
    requires x < |values|
    requires AtLeastAsGood(values, side, a, b)
    ensures AtLeastAsGood(values, side, a + [x], b + [x])
  {
    if a != b && |a| == |b| {
      assert At(values, a + [x]) == At(values, a) + [values[x]];
      assert At(values, b + [x]) == At(values, b) + [values[x]];
      if At(values, a) == At(values, b) {
        IndicesFirstAppend(a, b, x);
      } else {
        ValuesFirstAppend(side, At(values, a), At(values, b), values[x]);
        var i :| 0 <= i < |a| && At(values, a)[i] != At(values, b)[i];
        assert At(values, a + [x])[i] != At(values, b + [x])[i];
      }
    }
  }

  /** r is the best of the paths that end at index k. */
  ghost predicate BestEndingAt(values: seq<real>, side: Side, k: nat, r: seq<nat>) {
    && EndsAt(values, side, k, r)
    && forall p :: EndsAt(values, side, k, p) ==> AtLeastAsGood(values, side, r, p)
  }

  ghost predicate EndsAt(values: seq<real>, side: Side, k: nat, p: seq<nat>) {
    IsPath(values, side, p) && p != [] && p[|p| - 1] == k
  }

  /** A path that ends at k is [k] alone or one that ends at a smaller nearer index, plus k. */
  lemma SplitLast(values: seq<real>, side: Side, k: nat, p: seq<nat>)
    requires EndsAt(values, side, k, p) && |p| > 1
    ensures var j := p[|p| - 2];
            && j < k && Nearer(side, values[j], values[k])
            && EndsAt(values, side, j, p[..|p| - 1])
            && p == p[..|p| - 1] + [k]
  {
  }

  lemma ExtendPath(values: seq<real>, side: Side, p: seq<nat>, k: nat)
    requires IsPath(values, side, p) && p != [] && k < |values|
    requires p[|p| - 1] < k && Nearer(side, values[p[|p| - 1]], values[k])
    ensures EndsAt(values, side, k, p + [k])
  {
  }

  /** What the inner loop has established once every earlier index has been tried. */
  lemma InnerLoopIsOptimal(values: seq<real>, side: Side, k: nat, paths: seq<seq<nat>>, best: seq<nat>)
    requires k == |paths| < |values|
    requires forall j :: 0 <= j < k ==> BestEndingAt(values, side, j, paths[j])
    requires EndsAt(values, side, k, best)
    requires AtLeastAsGood(values, side, best, [k])
    requires forall j :: 0 <= j < k && Nearer(side, values[j], values[k]) ==>
               AtLeastAsGood(values, side, best, paths[j] + [k])
    ensures BestEndingAt(values, side, k, best)
  {
    forall p | EndsAt(values, side, k, p)
      ensures AtLeastAsGood(values, side, best, p)
    {
      if |p| > 1 {
        SplitLast(values, side, k, p);
        var j := p[|p| - 2];
        PreferenceSurvivesAppend(values, side, paths[j], p[..|p| - 1], k);
        AtLeastAsGoodTransitive(values, side, best, paths[j] + [k], p);
      } else {
        assert p == [k];
      }
    }
  }

  /** The inner loop: the best path ending at `index`, from the best paths ending before it. */
  method BestPathEndingAt(values: seq<real>, side: Side, paths: seq<seq<nat>>, index: nat) returns (best: seq<nat>)
    requires index == |paths| < |values|
    requires forall j :: 0 <= j < index ==> BestEndingAt(values, side, j, paths[j])
    ensures BestEndingAt(values, side, index, best)
  {
    best := [index];
    for previous := 0 to index
      invariant EndsAt(values, side, index, best)
      invariant AtLeastAsGood(values, side, best, [index])
      invariant forall j :: 0 <= j < previous && Nearer(side, values[j], values[index]) ==>
                  AtLeastAsGood(values, side, best, paths[j] + [index])
    {
      if Nearer(side, values[previous], values[index]) {
        var candidate := paths[previous] + [index];
        ExtendPath(values, side, paths[previous], index);
        PreferenceIsTotal(values, side, candidate, best);
        if PreferPath(values, side, candidate, best) {
          AtLeastAsGoodTransitive(values, side, candidate, best, [index]);
          forall j | 0 <= j < previous && Nearer(side, values[j], values[index])
            ensures AtLeastAsGood(values, side, candidate, paths[j] + [index])
          {
            AtLeastAsGoodTransitive(values, side, candidate, best, paths[j] + [index]);
          }
          best := candidate;
        }
      }
    }
    InnerLoopIsOptimal(values, side, index, paths, best);
  }

  /** The best of the per-end winners is the best of all paths. */
  lemma BestOfWinnersIsBest(values: seq<real>, side: Side, paths: seq<seq<nat>>, result: seq<nat>)
    requires |paths| == |values|
    requires forall j :: 0 <= j < |paths| ==> BestEndingAt(values, side, j, paths[j])
    requires IsPath(values, side, result) && result != []
    requires forall j :: 0 <= j < |paths| ==> AtLeastAsGood(values, side, result, paths[j])
    ensures IsBestPath(values, side, result)
  {
    forall p | IsPath(values, side, p)
      ensures AtLeastAsGood(values, side, result, p)
    {
      if p != [] {
        var k := p[|p| - 1];
        assert EndsAt(values, side, k, p);
        AtLeastAsGoodTransitive(values, side, result, paths[k], p);
      }
    }
  }

  lemma LastInBounds(values: seq<real>, side: Side, p: seq<nat>)
    requires IsPath(values, side, p) && p != []
    ensures p[|p| - 1] < |values|
  {
  }

  lemma EmptyHasOnlyTheEmptyPath(side: Side)
    ensures IsBestPath([], side, [])
  {
    forall p | IsPath([], side, p)
      ensures p == []
    {
      if p != [] {
        LastInBounds([], side, p);
        assert false;
      }
    }
  }

  /** The dynamic program over all paths. */
  method LongestMonotonicSubsequenceIndices(values: seq<real>, side: Side) returns (result: seq<nat>)
    ensures IsBestPath(values, side, result)
  {
    if values == [] {
      EmptyHasOnlyTheEmptyPath(side);
      return [];
    }
    var paths: seq<seq<nat>> := [];
    for index := 0 to |values|
      invariant |paths| == index
      invariant forall j :: 0 <= j < index ==> BestEndingAt(values, side, j, paths[j])
    {
      var best := BestPathEndingAt(values, side, paths, index);
      paths := paths + [best];
    }

    result := paths[0];
    for k := 1 to |paths|
      invariant IsPath(values, side, result) && result != []
      invariant forall j :: 0 <= j < k ==> AtLeastAsGood(values, side, result, paths[j])
    {
      PreferenceIsTotal(values, side, paths[k], result);
      if PreferPath(values, side, paths[k], result) {
        forall j | 0 <= j < k
          ensures AtLeastAsGood(values, side, paths[k], paths[j])
        {
          AtLeastAsGoodTransitive(values, side, paths[k], result, paths[j]);
        }
        result := paths[k];
      }
    }
    BestOfWinnersIsBest(values, side, paths, result);
  }

  // ---------------------------------------------------------------- what being best means

  lemma BestPathIsUnique(values: seq<real>, side: Side, a: seq<nat>, b: seq<nat>)
    requires IsBestPath(values, side, a) && IsBestPath(values, side, b)
    ensures a == b
  {
    PreferenceIsTotal(values, side, a, b);
  }

  lemma {:induction false} ValuesFirstAtFirstDifference(side: Side, a: seq<real>, b: seq<real>) returns (k: nat)
    requires |a| == |b| && ValuesFirst(side, a, b)
    ensures k < |a| && a[..k] == b[..k] && Nearer(side, a[k], b[k])
  {
    if Nearer(side, a[0], b[0]) {
      k := 0;
    } else {
      var m := ValuesFirstAtFirstDifference(side, a[1..], b[1..]);
      k := m + 1;
      assert a[..k] == [a[0]] + a[1..][..m] && b[..k] == [b[0]] + b[1..][..m];
    }
  }

  lemma {:induction false} IndicesFirstAtFirstDifference(a: seq<nat>, b: seq<nat>) returns (k: nat)
    requires |a| == |b| && IndicesFirst(a, b)
    ensures k < |a| && a[..k] == b[..k] && a[k] < b[k]
  {
    if a[0] < b[0] {
      k := 0;
    } else {
      var m := IndicesFirstAtFirstDifference(a[1..], b[1..]);
      k := m + 1;
      assert a[..k] == [a[0]] + a[1..][..m] && b[..k] == [b[0]] + b[1..][..m];
    }
  }

  /** Against any other strictly monotone index list, the best one is longer; or as long
      and nearer to the entry at the first value where they differ; or the same values
      taken from an earlier position at the first index where they differ. */
  lemma BestPathBeatsEveryOther(values: seq<real>, side: Side, r: seq<nat>, p: seq<nat>)
    requires IsBestPath(values, side, r) && IsPath(values, side, p) && p != r
    ensures || |r| > |p|
            || (&& |r| == |p|
                && exists k :: && 0 <= k < |r| && At(values, r)[..k] == At(values, p)[..k]
                               && Nearer(side, values[r[k]], values[p[k]]))
            || (&& At(values, r) == At(values, p)
                && exists k :: 0 <= k < |r| && r[..k] == p[..k] && r[k] < p[k])
  {
    if |r| == |p| {
      if At(values, r) != At(values, p) {
        var k := ValuesFirstAtFirstDifference(side, At(values, r), At(values, p));
        assert Nearer(side, values[r[k]], values[p[k]]);
      } else {
        var k := IndicesFirstAtFirstDifference(r, p);
      }
    }
  }

  // ---------------------------------------------------------------- decimal-shift repair

  function Insert(x: real, s: seq<real>): seq<real> {
    if s == [] || x <= s[0] then [x] + s else [s[0]] + Insert(x, s[1..])
  }

  /** Python's sorted() on decimals. */
  function Sorted(s: seq<real>): seq<real> {
    if s == [] then [] else Insert(s[0], Sorted(s[1..]))
  }

  predicate Ascending(s: seq<real>) {
    forall i, j :: 0 <= i < j < |s| ==> s[i] <= s[j]
  }

  lemma {:induction false} InsertKeepsElements(x: real, s: seq<real>)
    ensures multiset(Insert(x, s)) == multiset(s) + multiset{x}
  {
    if s != [] && x > s[0] {
      InsertKeepsElements(x, s[1..]);
      assert s == [s[0]] + s[1..];
    }
  }

  lemma {:induction false} InsertIsOrdered(x: real, s: seq<real>)
    requires Ascending(s)
    ensures Ascending(Insert(x, s))
  {
    if s != [] && x > s[0] {
      InsertIsOrdered(x, s[1..]);
      InsertKeepsElements(x, s[1..]);
      var rest := Insert(x, s[1..]);
      forall y | y in rest
        ensures s[0] <= y
      {
        assert y in multiset(s[1..]) + multiset{x};
        assert y == x || y in s[1..];
      }
      PrependAscending(s[0], rest);
    } else {
      PrependAscending(x, s);
    }
  }

  lemma PrependAscending(x: real, s: seq<real>)
    requires Ascending(s) && forall y :: y in s ==> x <= y
    ensures Ascending([x] + s)
  {
    assert forall j :: 0 <= j < |s| ==> s[j] in s;
  }

  lemma {:induction false} SortedIsOrdered(s: seq<real>)
    ensures Ascending(Sorted(s)) && multiset(Sorted(s)) == multiset(s) && |Sorted(s)| == |s|
  {
    if s != [] {
      SortedIsOrdered(s[1..]);
      InsertIsOrdered(s[0], Sorted(s[1..]));
      InsertKeepsElements(s[0], Sorted(s[1..]));
      assert s == [s[0]] + s[1..];
    }
    assert |multiset(Sorted(s))| == |multiset(s)|;
  }

  function Median(values: seq<real>): real
    requires values != []
  {
    SortedIsOrdered(values);
    var ordered := Sorted(values);
    var midpoint := |ordered| / 2;
    if |ordered| % 2 == 1 then ordered[midpoint] else (ordered[midpoint - 1] + ordered[midpoint]) / 2.0
  }

  function Abs(x: real): real {
    if x < 0.0 then -x else x
  }

  /** How many times the larger of two positive numbers is the smaller. */
  function ShiftRatio(target: real, median: real): real
    requires target > 0.0 && median > 0.0
  {
    Max(target / median, median / target)
  }

  function DecimalShiftCandidate(target: real, median: real, side: Side, entry: real,
                                 lo: real, hi: real): Option<real>
  {
    if target <= 0.0 || median <= 0.0 then
      None
    else
      var ratio := ShiftRatio(target, median);
      var up, down := target * 10.0, target / 10.0;
      if !(lo <= ratio <= hi) then
        None
      else if ProfitableSide(side, entry, up) && ProfitableSide(side, entry, down) then
        Some(if Abs(up - median) <= Abs(down - median) then up else down)
      else if ProfitableSide(side, entry, up) then
        Some(up)
      else if ProfitableSide(side, entry, down) then
        Some(down)
      else
        None
  }

  /** A repaired target is profitable, ten times or a tenth of the original, and no
      profitable one of the two is nearer to the median; it always differs from the original. */
  lemma RepairIsAShift(target: real, median: real, side: Side, entry: real, lo: real, hi: real)
    ensures var c := DecimalShiftCandidate(target, median, side, entry, lo, hi);
            c.Some? ==>
              && (c.value == target * 10.0 || c.value == target / 10.0)
              && c.value != target
              && ProfitableSide(side, entry, c.value)
              && forall other | other in {target * 10.0, target / 10.0} && ProfitableSide(side, entry, other) ::
                   Abs(c.value - median) <= Abs(other - median)
  {
  }

  // ---------------------------------------------------------------- when a target is repaired

  lemma FirstIsLeast(a: seq<real>, x: real)
    requires Ascending(a) && x in a
    ensures a[0] <= x
  {
  }

  lemma WithoutFirst(a: seq<real>)
    requires a != []
    ensures multiset(a[1..]) == multiset(a) - multiset{a[0]}
    ensures Ascending(a) ==> Ascending(a[1..])
  {
    assert a == [a[0]] + a[1..];
  }

  lemma SameFirst(a: seq<real>, b: seq<real>)
    requires Ascending(a) && Ascending(b) && multiset(a) == multiset(b) && a != [] && b != []
    ensures a[0] == b[0] && multiset(a[1..]) == multiset(b[1..])
  {
    assert a[0] in multiset(a) && b[0] in multiset(b);
    FirstIsLeast(a, b[0]);
    FirstIsLeast(b, a[0]);
    WithoutFirst(a);
    WithoutFirst(b);
  }

  lemma {:induction false} AscendingIsUnique(a: seq<real>, b: seq<real>)
    requires Ascending(a) && Ascending(b) && multiset(a) == multiset(b)
    ensures a == b
  {
    hide Ascending;
    assert |a| == |multiset(a)| && |b| == |multiset(b)|;
    if a != [] {
      SameFirst(a, b);
      WithoutFirst(a);
      WithoutFirst(b);
      AscendingIsUnique(a[1..], b[1..]);
      assert a == [a[0]] + a[1..] && b == [b[0]] + b[1..];
    }
  }

  /** m is in the middle of the values in ascending order, or halfway between the two there. */
  ghost predicate IsMiddle(values: seq<real>, m: real)
    requires values != []
  {
    exists ordered :: && Ascending(ordered) && multiset(ordered) == multiset(values) && |ordered| == |values|
                      && 2.0 * m == ordered[|values| / 2] + ordered[(|values| - 1) / 2]
  }

  /** The median is the one such number. */
  lemma MedianIsMiddle(values: seq<real>, m: real)
    requires values != []
    ensures IsMiddle(values, m) <==> m == Median(values)
  {
    SortedIsOrdered(values);
    var s := Sorted(values);
    assert 2.0 * Median(values) == s[|values| / 2] + s[(|values| - 1) / 2];
    if IsMiddle(values, m) {
      var ordered :| && Ascending(ordered) && multiset(ordered) == multiset(values) && |ordered| == |values|
                     && 2.0 * m == ordered[|values| / 2] + ordered[(|values| - 1) / 2];
      AscendingIsUnique(ordered, s);
    }
  }

  /** big is at least lo and at most hi times small. */
  predicate WithinFactors(small: real, big: real, lo: real, hi: real) {
    lo * small <= big <= hi * small
  }

  /** The target and the median are positive, the larger is `lo` to `hi` times the smaller, and
      ten times or a tenth of the target is on the profitable side. */
  predicate LooksShifted(target: real, median: real, side: Side, entry: real, lo: real, hi: real) {
    && target > 0.0 && median > 0.0
    && (if target <= median then WithinFactors(target, median, lo, hi) else WithinFactors(median, target, lo, hi))
    && (ProfitableSide(side, entry, 10.0 * target) || ProfitableSide(side, entry, target / 10.0))
  }

  lemma RatioWithinIff(small: real, big: real, lo: real, hi: real)
    requires 0.0 < small <= big
    ensures big / small >= small / big
    ensures lo <= big / small <= hi <==> lo * small <= big <= hi * small
  {
    var x := big / small;
    assert x * small == big;
    QuotientOrder(lo, x, small);
    QuotientOrder(x, hi, small);
    assert x >= 1.0 by { QuotientOrder(1.0, x, small); }
    var y := small / big;
    assert y * big == small;
    assert y <= 1.0 by { QuotientOrder(y, 1.0, big); }
  }

  lemma QuotientOrder(a: real, b: real, d: real)
    requires d > 0.0
    ensures a <= b <==> a * d <= b * d
  {
    if a < b {
      assert (b - a) * d > 0.0;
    } else if b < a {
      assert (a - b) * d > 0.0;
    }
  }

  /** What the repair makes of a target: a shifted-looking one moves to ten times itself, or to a
      tenth when only that is profitable or the median lies below the midpoint of the two; every
      other target stays. */
  ghost predicate RepairedTo(target: real, result: real, median: real, side: Side, entry: real, lo: real, hi: real) {
    var up, down := 10.0 * target, target / 10.0;
    result == if !LooksShifted(target, median, side, entry, lo, hi) then target
              else if && ProfitableSide(side, entry, up)
                      && (!ProfitableSide(side, entry, down) || up + down <= 2.0 * median)
              then up else down
  }

  /** Of two numbers the larger is the nearer to m exactly when m is not below their midpoint. */
  lemma LargerIsNearerIff(up: real, down: real, m: real)
    requires up > down
    ensures Abs(up - m) <= Abs(down - m) <==> up + down <= 2.0 * m
  {
  }

  /** The ratio test of the source, without division. */
  lemma RatioTestIff(target: real, median: real, lo: real, hi: real)
    requires target > 0.0 && median > 0.0
    ensures lo <= ShiftRatio(target, median) <= hi
            <==> if target <= median then WithinFactors(target, median, lo, hi)
                 else WithinFactors(median, target, lo, hi)
  {
    if target <= median {
      RatioWithinIff(target, median, lo, hi);
    } else {
      RatioWithinIff(median, target, lo, hi);
    }
  }

  lemma RepairFollowsRule(target: real, median: real, side: Side, entry: real, lo: real, hi: real)
    ensures var c := DecimalShiftCandidate(target, median, side, entry, lo, hi);
            && (c.Some? <==> LooksShifted(target, median, side, entry, lo, hi))
            && RepairedTo(target, if c.Some? then c.value else target, median, side, entry, lo, hi)
  {
    hide ShiftRatio, WithinFactors, Abs;
    if target > 0.0 && median > 0.0 {
      RatioTestIff(target, median, lo, hi);
      LargerIsNearerIff(target * 10.0, target / 10.0, median);
    }
  }

  /** A target changes exactly when it looks shifted. */
  lemma ChangesIffShifted(target: real, result: real, median: real, side: Side, entry: real, lo: real, hi: real)
    requires RepairedTo(target, result, median, side, entry, lo, hi)
    ensures result != target <==> LooksShifted(target, median, side, entry, lo, hi)
  {
  }

  /** A tenfold slip among targets around 115 for a long from 100. */
  lemma SlipIsRepaired()
    ensures DecimalShiftCandidate(11.5, 115.0, Long, 100.0, 5.0, 20.0) == Some(115.0)
    ensures DecimalShiftCandidate(110.0, 115.0, Long, 100.0, 5.0, 20.0) == None
  {
  }

  /** Read off the sent targets alone: `values` are the sent targets at `positions`, repaired. */
  ghost predicate RepairedAt(signal: EntrySignal, lo: real, hi: real, positions: seq<nat>, values: seq<real>) {
    signal.targets != []
    && exists median :: IsMiddle(signal.targets, median) && AllRepairedTo(signal, lo, hi, median, positions, values)
  }

  ghost predicate AllRepairedTo(signal: EntrySignal, lo: real, hi: real, median: real, positions: seq<nat>,
                                values: seq<real>)
  {
    && |values| == |positions|
    && forall i :: 0 <= i < |positions| ==>
         && positions[i] < |signal.targets|
         && RepairedTo(signal.targets[positions[i]], values[i], median, signal.side, signal.entry, lo, hi)
  }

  /** Nothing is left exactly when no sent target is profitable or looks shifted. */
  ghost predicate NoneViable(signal: EntrySignal, lo: real, hi: real) {
    signal.targets == []
    || exists median :: IsMiddle(signal.targets, median) && NoneViableFor(signal, lo, hi, median)
  }

  ghost predicate NoneViableFor(signal: EntrySignal, lo: real, hi: real, median: real) {
    forall i :: 0 <= i < |signal.targets| ==>
      && !ProfitableSide(signal.side, signal.entry, signal.targets[i])
      && !LooksShifted(signal.targets[i], median, signal.side, signal.entry, lo, hi)
  }

  lemma RepairedTargetsFollowRule(signal: EntrySignal, lo: real, hi: real, positions: seq<nat>)
    requires signal.targets != [] && InBounds(signal.targets, positions)
    ensures InBounds(RepairedTargets(signal, lo, hi), positions)
    ensures RepairedAt(signal, lo, hi, positions, At(RepairedTargets(signal, lo, hi), positions))
  {
    hide Median, DecimalShiftCandidate, RepairedTo, LooksShifted, IsMiddle;
    var m := Median(signal.targets);
    MedianIsMiddle(signal.targets, m);
    var values := At(RepairedTargets(signal, lo, hi), positions);
    forall i | 0 <= i < |positions|
      ensures RepairedTo(signal.targets[positions[i]], values[i], m, signal.side, signal.entry, lo, hi)
    {
      RepairFollowsRule(signal.targets[positions[i]], m, signal.side, signal.entry, lo, hi);
    }
    assert AllRepairedTo(signal, lo, hi, m, positions, values);
  }

  lemma NoneViableIff(signal: EntrySignal, lo: real, hi: real)
    ensures NoneViable(signal, lo, hi)
            <==> forall t | t in RepairedTargets(signal, lo, hi) :: !ProfitableSide(signal.side, signal.entry, t)
  {
    hide Median, DecimalShiftCandidate, IsMiddle;
    var repaired := RepairedTargets(signal, lo, hi);
    if signal.targets != [] {
      var m := Median(signal.targets);
      MedianIsMiddle(signal.targets, m);
      forall i | 0 <= i < |repaired|
        ensures ProfitableSide(signal.side, signal.entry, repaired[i])
                <==> || ProfitableSide(signal.side, signal.entry, signal.targets[i])
                     || LooksShifted(signal.targets[i], m, signal.side, signal.entry, lo, hi)
      {
        RepairFollowsRule(signal.targets[i], m, signal.side, signal.entry, lo, hi);
        RepairIsAShift(signal.targets[i], m, signal.side, signal.entry, lo, hi);
        StaysProfitable(signal, lo, hi, m, i);
      }
      assert NoneViableFor(signal, lo, hi, m) <==>
             forall i :: 0 <= i < |repaired| ==> !ProfitableSide(signal.side, signal.entry, repaired[i]);
      if NoneViable(signal, lo, hi) {
        var n :| IsMiddle(signal.targets, n) && NoneViableFor(signal, lo, hi, n);
        MedianIsMiddle(signal.targets, n);
      }
    }
  }

  lemma StaysProfitable(signal: EntrySignal, lo: real, hi: real, m: real, i: nat)
    requires i < |signal.targets| && m == Median(signal.targets)
    requires !LooksShifted(signal.targets[i], m, signal.side, signal.entry, lo, hi)
             || ProfitableSide(signal.side, signal.entry, RepairedTargets(signal, lo, hi)[i])
    ensures !LooksShifted(signal.targets[i], m, signal.side, signal.entry, lo, hi) ==>
              RepairedTargets(signal, lo, hi)[i] == signal.targets[i]
  {
    RepairFollowsRule(signal.targets[i], m, signal.side, signal.entry, lo, hi);
  }

  /** The target list after the repair step. */
  function Repaired(signal: EntrySignal, lo: real, hi: real, target: real): real
    requires signal.targets != []
  {
    match DecimalShiftCandidate(target, Median(signal.targets), signal.side, signal.entry, lo, hi)
    case None => target
    case Some(c) => c
  }

  function RepairedTargets(signal: EntrySignal, lo: real, hi: real): (r: seq<real>)
    ensures |r| == |signal.targets|
  {
    seq(|signal.targets|, i requires 0 <= i < |signal.targets| => Repaired(signal, lo, hi, signal.targets[i]))
  }

  /** The corrections recorded for the first n targets. */
  function CorrectionsOf(signal: EntrySignal, lo: real, hi: real, n: nat): seq<Correction>
    requires n <= |signal.targets|
  {
    if n == 0 then
      []
    else
      var t := signal.targets[n - 1];
      var c := Repaired(signal, lo, hi, t);
      CorrectionsOf(signal, lo, hi, n - 1) + if c == t then [] else [Correction(t, c)]
  }

  // ---------------------------------------------------------------- the selection on the repaired list

  /** A strictly monotone selection of profitable targets, in original order. */
  ghost predicate IsSelection(corrected: seq<real>, side: Side, entry: real, p: seq<nat>) {
    && IsPath(corrected, side, p)
    && forall i :: 0 <= i < |p| ==> ProfitableSide(side, entry, corrected[p[i]])
  }

  ghost predicate IsBestSelection(corrected: seq<real>, side: Side, entry: real, keep: seq<nat>) {
    && IsSelection(corrected, side, entry, keep)
    && forall p :: IsSelection(corrected, side, entry, p) ==> AtLeastAsGood(corrected, side, keep, p)
  }

  /** keep and drop split the positions 0..n, each in original order. */
  ghost predicate Splits(n: nat, keep: seq<nat>, drop: seq<nat>) {
    && Increasing(keep) && Increasing(drop)
    && ToSet(keep) !! ToSet(drop)
    && forall i: nat :: i in ToSet(keep) + ToSet(drop) <==> i < n
  }

  function Compose(outer: seq<nat>, inner: seq<nat>): (r: seq<nat>)
    requires forall i :: 0 <= i < |inner| ==> inner[i] < |outer|
    ensures |r| == |inner|
  {
    seq(|inner|, i requires 0 <= i < |inner| => outer[inner[i]])
  }

  lemma {:induction false} ComposeKeepsIndexOrder(outer: seq<nat>, a: seq<nat>, b: seq<nat>)
    requires Increasing(outer) && |a| == |b|
    requires forall i :: 0 <= i < |a| ==> a[i] < |outer|
    requires forall i :: 0 <= i < |b| ==> b[i] < |outer|
    requires IndicesFirst(a, b)
    ensures IndicesFirst(Compose(outer, a), Compose(outer, b))
  {
    if a[0] == b[0] {
      ComposeKeepsIndexOrder(outer, a[1..], b[1..]);
      assert Compose(outer, a)[1..] == Compose(outer, a[1..]);
      assert Compose(outer, b)[1..] == Compose(outer, b[1..]);
    }
  }

  lemma ComposeKeepsPreference(corrected: seq<real>, side: Side, s: seq<nat>, a: seq<nat>, b: seq<nat>)
    requires InBounds(corrected, s) && Increasing(s)
    requires AtLeastAsGood(At(corrected, s), side, a, b)
    ensures AtLeastAsGood(corrected, side, Compose(s, a), Compose(s, b))
  {
    var surviving := At(corrected, s);
    assert At(corrected, Compose(s, a)) == At(surviving, a);
    assert At(corrected, Compose(s, b)) == At(surviving, b);
    if a != b && |a| == |b| && At(surviving, a) == At(surviving, b) {
      ComposeKeepsIndexOrder(s, a, b);
    }
  }

  /** Every selection of the repaired list is a path through the surviving targets. */
  lemma SelectionComesFromSurvivors(corrected: seq<real>, side: Side, entry: real, s: seq<nat>, q: seq<nat>)
    returns (p: seq<nat>)
    requires InBounds(corrected, s) && Increasing(s)
    requires forall i :: 0 <= i < |corrected| && ProfitableSide(side, entry, corrected[i]) ==> i in s
    requires IsSelection(corrected, side, entry, q)
    ensures IsPath(At(corrected, s), side, p) && Compose(s, p) == q
  {
    p := [];
    while |p| < |q|
      invariant |p| <= |q|
      invariant forall i :: 0 <= i < |p| ==> p[i] < |s| && s[p[i]] == q[i]
    {
      var next := q[|p|];
      assert next < |corrected| && ProfitableSide(side, entry, corrected[next]);
      assert next in s;
      var k :| 0 <= k < |s| && s[k] == next;
      p := p + [k];
    }
    forall i, j | 0 <= i < j < |p|
      ensures p[i] < p[j]
    {
      assert s[p[i]] < s[p[j]];
    }
  }

  /** The best path through the survivors, read as original positions, is the best selection. */
  lemma SurvivorsGiveTheBestSelection(corrected: seq<real>, side: Side, entry: real, s: seq<nat>, kept: seq<nat>)
    requires InBounds(corrected, s) && Increasing(s)
    requires forall i :: 0 <= i < |s| ==> ProfitableSide(side, entry, corrected[s[i]])
    requires forall i :: 0 <= i < |corrected| && ProfitableSide(side, entry, corrected[i]) ==> i in s
    requires IsBestPath(At(corrected, s), side, kept)
    ensures IsBestSelection(corrected, side, entry, Compose(s, kept))
  {
    var keep := Compose(s, kept);
    forall q | IsSelection(corrected, side, entry, q)
      ensures AtLeastAsGood(corrected, side, keep, q)
    {
      var p := SelectionComesFromSurvivors(corrected, side, entry, s, q);
      ComposeKeepsPreference(corrected, side, s, kept, p);
    }
  }

  // ---------------------------------------------------------------- dropped targets in original order

  type Indexed = (nat, real)

  predicate ByIndex(s: seq<Indexed>) {
    forall i, j :: 0 <= i < j < |s| ==> s[i].0 < s[j].0
  }

  function InsertByIndex(x: Indexed, s: seq<Indexed>): seq<Indexed> {
    if s == [] || x.0 < s[0].0 then [x] + s else [s[0]] + InsertByIndex(x, s[1..])
  }

  /** Python's sorted() on (index, target) pairs whose indices are distinct. */
  function SortByIndex(s: seq<Indexed>): seq<Indexed> {
    if s == [] then [] else InsertByIndex(s[|s| - 1], SortByIndex(s[..|s| - 1]))
  }

  lemma PrependInOrder(x: Indexed, s: seq<Indexed>)
    requires ByIndex(s) && (s == [] || x.0 < s[0].0)
    ensures ByIndex([x] + s) && ToSet([x] + s) == ToSet(s) + {x}
  {
  }

  lemma {:induction false} InsertByIndexIsOrdered(x: Indexed, s: seq<Indexed>)
    requires ByIndex(s) && forall y :: y in s ==> y.0 != x.0
    ensures ByIndex(InsertByIndex(x, s)) && ToSet(InsertByIndex(x, s)) == ToSet(s) + {x}
  {
    if s != [] && x.0 > s[0].0 {
      InsertByIndexIsOrdered(x, s[1..]);
      assert s == [s[0]] + s[1..];
      var rest := InsertByIndex(x, s[1..]);
      forall y | y in rest
        ensures s[0].0 < y.0
      {
        assert y in ToSet(rest);
      }
      PrependInOrder(s[0], rest);
    } else {
      PrependInOrder(x, s);
    }
  }

  lemma {:induction false} SortByIndexIsOrdered(s: seq<Indexed>)
    requires forall i, j :: 0 <= i < j < |s| ==> s[i].0 != s[j].0
    ensures ByIndex(SortByIndex(s)) && ToSet(SortByIndex(s)) == ToSet(s)
  {
    if s != [] {
      var x, rest := s[|s| - 1], s[..|s| - 1];
      SortByIndexIsOrdered(rest);
      forall y | y in SortByIndex(rest)
        ensures y.0 != x.0
      {
        assert y in ToSet(rest);
      }
      InsertByIndexIsOrdered(x, SortByIndex(rest));
      assert s == rest + [x];
    }
  }

  // ---------------------------------------------------------------- the pipeline

  method RepairTargets(signal: EntrySignal, lo: real, hi: real)
    returns (corrected: seq<real>, corrections: seq<Correction>)
    requires signal.targets != []
    ensures corrected == RepairedTargets(signal, lo, hi)
    ensures corrections == CorrectionsOf(signal, lo, hi, |signal.targets|)
  {
    hide DecimalShiftCandidate, Median;
    var median := Median(signal.targets);
    corrected, corrections := [], [];
    for k := 0 to |signal.targets|
      invariant corrected == RepairedTargets(signal, lo, hi)[..k]
      invariant corrections == CorrectionsOf(signal, lo, hi, k)
    {
      var target := signal.targets[k];
      var candidate := DecimalShiftCandidate(target, median, signal.side, signal.entry, lo, hi);
      assert candidate.Some? ==> candidate.value != target by {
        RepairIsAShift(target, median, signal.side, signal.entry, lo, hi);
      }
      match candidate {
        case None =>
          corrected := corrected + [target];
        case Some(c) =>
          corrected := corrected + [c];
          corrections := corrections + [Correction(target, c)];
      }
    }
  }

  /** Pairs taken from `corrected` at increasing positions. */
  predicate PairsOf(corrected: seq<real>, s: seq<Indexed>) {
    ByIndex(s) && forall i :: 0 <= i < |s| ==> s[i].0 < |corrected| && s[i].1 == corrected[s[i].0]
  }

  function Positions(s: seq<Indexed>): (r: seq<nat>)
    ensures |r| == |s|
  {
    seq(|s|, i requires 0 <= i < |s| => s[i].0)
  }

  method FilterBySide(side: Side, entry: real, corrected: seq<real>)
    returns (surviving: seq<Indexed>, dropped: seq<Indexed>)
    ensures SplitBySide(side, entry, corrected, surviving, dropped)
  {
    surviving, dropped := [], [];
    for k := 0 to |corrected|
      invariant PairsOf(corrected, surviving) && PairsOf(corrected, dropped)
      invariant forall i: nat :: i in Positions(surviving) <==>
                                   i < k && ProfitableSide(side, entry, corrected[i])
      invariant forall i: nat :: i in Positions(dropped) <==>
                                   i < k && !ProfitableSide(side, entry, corrected[i])
    {
      if ProfitableSide(side, entry, corrected[k]) {
        assert forall i :: 0 <= i < |surviving| ==> surviving[i].0 == Positions(surviving)[i];
        ghost var before := Positions(surviving);
        surviving := surviving + [(k, corrected[k])];
        assert Positions(surviving) == before + [k];
      } else {
        assert forall i :: 0 <= i < |dropped| ==> dropped[i].0 == Positions(dropped)[i];
        ghost var before := Positions(dropped);
        dropped := dropped + [(k, corrected[k])];
        assert Positions(dropped) == before + [k];
      }
    }
  }

  /** The survivors not kept, appended to the targets already dropped. */
  method DropUnkept(surviving: seq<Indexed>, kept: seq<nat>, wrongSide: seq<Indexed>)
    returns (dropped: seq<Indexed>)
    requires forall i, j :: 0 <= i < j < |surviving| ==> surviving[i].0 != surviving[j].0
    requires forall i, j :: 0 <= i < j < |wrongSide| ==> wrongSide[i].0 != wrongSide[j].0
    requires forall i, j :: 0 <= i < |surviving| && 0 <= j < |wrongSide| ==> surviving[i].0 != wrongSide[j].0
    ensures DropsCollected(surviving, kept, wrongSide, dropped)
  {
    dropped := wrongSide;
    for n := 0 to |surviving|
      invariant forall i, j :: 0 <= i < j < |dropped| ==> dropped[i].0 != dropped[j].0
      invariant forall y :: y in dropped <==>
                              || y in wrongSide
                              || exists k :: 0 <= k < n && k !in kept && surviving[k] == y
    {
      if n !in kept {
        forall i | 0 <= i < |dropped|
          ensures dropped[i].0 != surviving[n].0
        {
          assert dropped[i] in dropped;
        }
        dropped := dropped + [surviving[n]];
      }
    }
  }

  /** What an accepted signal is: positions `keep` and `drop` of the repaired list. */
  ghost predicate AcceptedAs(signal: EntrySignal, lo: real, hi: real, s: SanitizedSignal,
                             keep: seq<nat>, drop: seq<nat>)
  {
    var corrected := RepairedTargets(signal, lo, hi);
    && s.symbol == signal.symbol && s.side == signal.side && s.entry == signal.entry
    && s.stopLoss == signal.stopLoss && s.leverage == signal.leverage && s.targetsRaw == signal.targets
    && InBounds(corrected, keep) && InBounds(corrected, drop)
    && keep != [] && Splits(|corrected|, keep, drop)
    && s.targetsClean == At(corrected, keep) && s.dropped == At(corrected, drop)
    && IsBestSelection(corrected, s.side, s.entry, keep)
    && s.corrections == CorrectionsOf(signal, lo, hi, |signal.targets|)
    && s.alert == (s.dropped != [] || s.corrections != [])
  }

  /** The wrong-side targets, and the survivors that were not kept. */
  ghost predicate DropsCollected(surviving: seq<Indexed>, kept: seq<nat>, wrongSide: seq<Indexed>,
                                 dropped: seq<Indexed>)
  {
    && (forall i, j :: 0 <= i < j < |dropped| ==> dropped[i].0 != dropped[j].0)
    && forall y :: y in dropped <==>
                     || y in wrongSide
                     || exists k :: 0 <= k < |surviving| && k !in kept && surviving[k] == y
  }

  /** The two lists that the side filter makes of `corrected`. */
  ghost predicate SplitBySide(side: Side, entry: real, corrected: seq<real>, surviving: seq<Indexed>,
                              wrongSide: seq<Indexed>)
  {
    && PairsOf(corrected, surviving) && PairsOf(corrected, wrongSide)
    && (forall i: nat :: i in Positions(surviving) <==> i < |corrected| && ProfitableSide(side, entry, corrected[i]))
    && (forall i: nat :: i in Positions(wrongSide) <==> i < |corrected| && !ProfitableSide(side, entry, corrected[i]))
  }

  lemma SortedDropsArePairs(corrected: seq<real>, surviving: seq<Indexed>, wrongSide: seq<Indexed>,
                            kept: seq<nat>, dropped: seq<Indexed>)
    requires PairsOf(corrected, surviving) && PairsOf(corrected, wrongSide)
    requires DropsCollected(surviving, kept, wrongSide, dropped)
    ensures PairsOf(corrected, SortByIndex(dropped))
    ensures ToSet(SortByIndex(dropped)) == ToSet(dropped)
  {
    SortByIndexIsOrdered(dropped);
    var sorted := SortByIndex(dropped);
    forall i | 0 <= i < |sorted|
      ensures sorted[i].0 < |corrected| && sorted[i].1 == corrected[sorted[i].0]
    {
      assert sorted[i] in ToSet(sorted);
      assert sorted[i] in dropped;
    }
  }

  /** No dropped pair sits at a kept position. */
  lemma KeptIsNotDropped(side: Side, entry: real, corrected: seq<real>, surviving: seq<Indexed>,
                         wrongSide: seq<Indexed>, kept: seq<nat>, dropped: seq<Indexed>, k: nat, y: Indexed)
    requires SplitBySide(side, entry, corrected, surviving, wrongSide)
    requires DropsCollected(surviving, kept, wrongSide, dropped)
    requires k in kept && k < |surviving| && y in dropped
    ensures y.0 != surviving[k].0
  {
    if y in wrongSide {
      var c :| 0 <= c < |wrongSide| && wrongSide[c] == y;
      assert Positions(wrongSide)[c] in Positions(wrongSide);
      assert Positions(surviving)[k] in Positions(surviving);
    }
  }

  /** Every position is kept or dropped. */
  lemma KeptOrDropped(side: Side, entry: real, corrected: seq<real>, surviving: seq<Indexed>,
                      wrongSide: seq<Indexed>, kept: seq<nat>, dropped: seq<Indexed>, i: nat)
    requires SplitBySide(side, entry, corrected, surviving, wrongSide)
    requires DropsCollected(surviving, kept, wrongSide, dropped)
    requires i < |corrected|
    ensures (exists k :: 0 <= k < |surviving| && k in kept && surviving[k].0 == i)
            || (exists y :: y in dropped && y.0 == i)
  {
    if ProfitableSide(side, entry, corrected[i]) {
      assert i in Positions(surviving);
      var k :| 0 <= k < |surviving| && Positions(surviving)[k] == i;
      if k !in kept {
        assert surviving[k] in dropped;
      }
    } else {
      assert i in Positions(wrongSide);
      var k :| 0 <= k < |wrongSide| && Positions(wrongSide)[k] == i;
      assert wrongSide[k] in dropped;
    }
  }

  /** The dropped pairs, sorted, list exactly the positions that were not kept. */
  lemma SortedDropsSplit(corrected: seq<real>, side: Side, entry: real, surviving: seq<Indexed>,
                         wrongSide: seq<Indexed>, kept: seq<nat>, dropped: seq<Indexed>)
    requires SplitBySide(side, entry, corrected, surviving, wrongSide)
    requires DropsCollected(surviving, kept, wrongSide, dropped)
    requires Increasing(kept) && forall i :: 0 <= i < |kept| ==> kept[i] < |surviving|
    ensures PairsOf(corrected, SortByIndex(dropped))
    ensures Splits(|corrected|, Compose(Positions(surviving), kept), Positions(SortByIndex(dropped)))
  {
    SortedDropsArePairs(corrected, surviving, wrongSide, kept, dropped);
    var sorted := SortByIndex(dropped);
    var keep, drop := Compose(Positions(surviving), kept), Positions(sorted);
    forall a, b | 0 <= a < |keep| && 0 <= b < |drop|
      ensures keep[a] != drop[b]
    {
      assert sorted[b] in ToSet(sorted);
      KeptIsNotDropped(side, entry, corrected, surviving, wrongSide, kept, dropped, kept[a], sorted[b]);
    }
    forall i: nat | i < |corrected|
      ensures i in keep || i in drop
    {
      KeptOrDropped(side, entry, corrected, surviving, wrongSide, kept, dropped, i);
      if y :| y in dropped && y.0 == i {
        PairIsListed(y, dropped, sorted);
      } else {
        var k :| 0 <= k < |surviving| && k in kept && surviving[k].0 == i;
        var a :| 0 <= a < |kept| && kept[a] == k;
        assert keep[a] == i;
      }
    }
  }

  lemma PairIsListed(y: Indexed, dropped: seq<Indexed>, sorted: seq<Indexed>)
    requires y in dropped && ToSet(sorted) == ToSet(dropped)
    ensures y.0 in Positions(sorted)
  {
    assert y in ToSet(sorted);
    var b :| 0 <= b < |sorted| && sorted[b] == y;
    assert Positions(sorted)[b] == y.0;
  }

  method SanitizeSignal(signal: EntrySignal, lo: real, hi: real)
    returns (r: Outcome, ghost keep: seq<nat>, ghost drop: seq<nat>)
    ensures r == InvalidShiftRange <==> lo <= 0.0 || hi < lo
    ensures r == Rejected(WrongSideStopLoss) <==>
              0.0 < lo <= hi && !StopOnCorrectSide(signal.side, signal.entry, signal.stopLoss)
    ensures r == Rejected(NoViableTargets) <==>
              && 0.0 < lo <= hi && StopOnCorrectSide(signal.side, signal.entry, signal.stopLoss)
              && NoneViable(signal, lo, hi)
    ensures r.Accepted? ==>
              && AcceptedAs(signal, lo, hi, r.signal, keep, drop)
              && RepairedAt(signal, lo, hi, keep, r.signal.targetsClean)
              && RepairedAt(signal, lo, hi, drop, r.signal.dropped)
  {
    keep, drop := [], [];
    if lo <= 0.0 || hi < lo {
      return InvalidShiftRange, keep, drop;
    }
    if !StopOnCorrectSide(signal.side, signal.entry, signal.stopLoss) {
      return Rejected(WrongSideStopLoss), keep, drop;
    }
    if signal.targets == [] {
      return Rejected(NoViableTargets), keep, drop;
    }
    NoneViableIff(signal, lo, hi);
    var corrected, corrections := RepairTargets(signal, lo, hi);
    var surviving, wrongSide := FilterBySide(signal.side, signal.entry, corrected);
    if surviving == [] {
      assert Positions(surviving) == [];
      return Rejected(NoViableTargets), keep, drop;
    }
    ghost var positions := Positions(surviving);
    assert positions[0] in positions;
    var values := seq(|surviving|, i requires 0 <= i < |surviving| => surviving[i].1);
    var kept := LongestMonotonicSubsequenceIndices(values, signal.side);
    var clean := At(values, kept);
    forall i, j | 0 <= i < |surviving| && 0 <= j < |wrongSide|
      ensures surviving[i].0 != wrongSide[j].0
    {
      assert positions[i] in positions && Positions(wrongSide)[j] in Positions(wrongSide);
    }
    var dropped := DropUnkept(surviving, kept, wrongSide);

    // The source checks once more for an empty list here; [0] alone is a path, so it never is.
    assert IsPath(values, signal.side, [0]);
    assert clean != [];

    SortedDropsSplit(corrected, signal.side, signal.entry, surviving, wrongSide, kept, dropped);
    assert values == At(corrected, positions);
    SurvivorsGiveTheBestSelection(corrected, signal.side, signal.entry, positions, kept);
    var sorted := SortByIndex(dropped);
    keep, drop := Compose(positions, kept), Positions(sorted);
    assert clean == At(corrected, keep);
    var droppedTargets := seq(|sorted|, i requires 0 <= i < |sorted| => sorted[i].1);
    assert droppedTargets == At(corrected, drop);
    DroppedEmptyIff(dropped, sorted);
    RepairedTargetsFollowRule(signal, lo, hi, keep);
    RepairedTargetsFollowRule(signal, lo, hi, drop);
    r := Accepted(SanitizedSignal(signal.symbol, signal.side, signal.entry, signal.stopLoss, signal.leverage,
                                  signal.targets, clean, droppedTargets, corrections,
                                  dropped != [] || corrections != []));
  }

  lemma DroppedEmptyIff(dropped: seq<Indexed>, sorted: seq<Indexed>)
    requires sorted == SortByIndex(dropped)
    requires forall i, j :: 0 <= i < j < |dropped| ==> dropped[i].0 != dropped[j].0
    ensures dropped == [] <==> sorted == []
  {
    SortByIndexIsOrdered(dropped);
    if dropped != [] {
      assert dropped[0] in ToSet(sorted);
    }
  }

  // ---------------------------------------------------------------- what an accepted signal promises

  lemma {:induction false} NoCorrectionsMeansUnchanged(signal: EntrySignal, lo: real, hi: real, n: nat)
    requires n <= |signal.targets|
    ensures CorrectionsOf(signal, lo, hi, n) == [] <==>
            forall i :: 0 <= i < n ==> RepairedTargets(signal, lo, hi)[i] == signal.targets[i]
  {
    hide Repaired;
    if n > 0 {
      NoCorrectionsMeansUnchanged(signal, lo, hi, n - 1);
      assert RepairedTargets(signal, lo, hi)[n - 1] == Repaired(signal, lo, hi, signal.targets[n - 1]);
    }
  }

  /** An increasing list of all the positions below n is 0, 1, ..., n - 1. */
  lemma {:induction false} AllPositionsInOrder(n: nat, keep: seq<nat>)
    requires Increasing(keep) && forall i: nat :: i in keep <==> i < n
    ensures |keep| == n && forall i :: 0 <= i < n ==> keep[i] == i
  {
    assert keep == [] || keep[0] in keep;
    if n > 0 {
      assert n - 1 in keep;
      var last := |keep| - 1;
      var k :| 0 <= k < |keep| && keep[k] == n - 1;
      assert keep[k] <= keep[last] && keep[last] in keep;
      var front := keep[..last];
      forall i: nat
        ensures i in front <==> i < n - 1
      {
        if i < n - 1 {
          assert i in keep;
          var j :| 0 <= j < |keep| && keep[j] == i;
          assert front[j] == i;
        }
      }
      AllPositionsInOrder(n - 1, front);
    }
  }

  /** No entry order is ever placed toward a losing target: the clean list is nonempty,
      strictly monotone away from the entry and all profitable, the stop is on the other side,
      and each kept target is the one sent at that position or that one shifted by one digit. */
  lemma AcceptedSignalIsTradable(signal: EntrySignal, lo: real, hi: real, s: SanitizedSignal,
                                 keep: seq<nat>, drop: seq<nat>)
    requires StopOnCorrectSide(signal.side, signal.entry, signal.stopLoss)
    requires AcceptedAs(signal, lo, hi, s, keep, drop)
    ensures s.targetsClean != []
    ensures forall i, j :: 0 <= i < j < |s.targetsClean| ==> Nearer(s.side, s.targetsClean[i], s.targetsClean[j])
    ensures forall i :: 0 <= i < |s.targetsClean| ==>
              && ProfitableSide(s.side, s.entry, s.targetsClean[i])
              && ProfitableSide(s.side, s.stopLoss, s.targetsClean[i])
    ensures |keep| == |s.targetsClean|
    ensures forall i :: 0 <= i < |keep| ==>
              && keep[i] < |signal.targets|
              && var t := signal.targets[keep[i]];
                 s.targetsClean[i] == t || s.targetsClean[i] == t * 10.0 || s.targetsClean[i] == t / 10.0
  {
    forall i | 0 <= i < |keep|
      ensures var t := signal.targets[keep[i]];
              s.targetsClean[i] == t || s.targetsClean[i] == t * 10.0 || s.targetsClean[i] == t / 10.0
    {
      RepairIsAShift(signal.targets[keep[i]], Median(signal.targets), signal.side, signal.entry, lo, hi);
    }
  }

  /** The alert is silent exactly when the accepted list is the list that was sent. */
  lemma AlertIffChanged(signal: EntrySignal, lo: real, hi: real, s: SanitizedSignal,
                        keep: seq<nat>, drop: seq<nat>)
    requires AcceptedAs(signal, lo, hi, s, keep, drop)
    ensures s.alert <==> s.targetsClean != s.targetsRaw
  {
    var n := |signal.targets|;
    NoCorrectionsMeansUnchanged(signal, lo, hi, n);
    if drop == [] {
      forall i: nat
        ensures i in keep <==> i < n
      {
        assert i in ToSet(keep) + ToSet(drop) <==> i < n;
      }
      AllPositionsInOrder(n, keep);
      assert s.targetsClean == RepairedTargets(signal, lo, hi);
    } else {
      KeepIsShorter(n, keep, drop);
    }
  }

  lemma KeepIsShorter(n: nat, keep: seq<nat>, drop: seq<nat>)
    requires Splits(n, keep, drop) && drop != []
    ensures |keep| < n
  {
    IncreasingIsAboveIndex(keep);
    assert drop[0] in ToSet(keep) + ToSet(drop);
    assert forall i :: 0 <= i < |keep| ==> keep[i] in ToSet(keep) + ToSet(drop);
    if |keep| >= n {
      IncreasingFillsUp(n, keep, drop[0]);
      assert false;
    }
  }

  lemma {:induction false} IncreasingIsAboveIndex(s: seq<nat>)
    requires Increasing(s)
    ensures forall i :: 0 <= i < |s| ==> i <= s[i]
  {
    if s != [] {
      IncreasingIsAboveIndex(s[..|s| - 1]);
      if |s| > 1 {
        assert s[|s| - 2] < s[|s| - 1];
      }
    }
  }

  /** n or more increasing indices below n are exactly 0, 1, ..., n - 1. */
  lemma IncreasingFillsUp(n: nat, s: seq<nat>, k: nat)
    requires Increasing(s) && |s| >= n && k < n
    requires forall i :: 0 <= i < |s| ==> i <= s[i] < n
    ensures s[k] == k
    decreases n - k
  {
    if k < n - 1 {
      IncreasingFillsUp(n, s, k + 1);
    }
  }
}
