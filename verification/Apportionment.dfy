/** Distributing an amount of cents over several bases by largest remainder
    (allocateAmount in backend/billing/service.ts), in exact integer arithmetic. */
module Apportionment {

  function Sum(xs: seq<int>): int {
    if xs == [] then 0 else Sum(xs[..|xs| - 1]) + xs[|xs| - 1]
  }

  function Positive(b: int): nat {
    if b > 0 then b else 0
  }

  function Positives(bases: seq<int>): (ps: seq<int>)
    ensures |ps| == |bases| && forall i | 0 <= i < |bases| :: ps[i] == Positive(bases[i])
  {
    seq(|bases|, i requires 0 <= i < |bases| => Positive(bases[i]))
  }

  function BaseTotal(bases: seq<int>): int {
    Sum(Positives(bases))
  }

  /******* Sums *******/

  lemma {:induction false} SumAppend(xs: seq<int>, x: int)
    ensures Sum(xs + [x]) == Sum(xs) + x
  {
    assert (xs + [x])[..|xs|] == xs;
  }

  lemma {:induction false} SumLess(xs: seq<int>, ys: seq<int>)
    requires |xs| == |ys| && forall i | 0 <= i < |xs| :: xs[i] <= ys[i]
    ensures Sum(xs) <= Sum(ys)
    ensures (exists i :: 0 <= i < |xs| && xs[i] < ys[i]) ==> Sum(xs) < Sum(ys)
  {
    if xs != [] {
      SumLess(xs[..|xs| - 1], ys[..|xs| - 1]);
      if i :| 0 <= i < |xs| && xs[i] < ys[i] {
        if i < |xs| - 1 {
          assert xs[..|xs| - 1][i] < ys[..|xs| - 1][i];
        }
      }
    }
  }

  lemma {:induction false} SumScale(xs: seq<int>, ys: seq<int>, k: int)
    requires |xs| == |ys| && forall i | 0 <= i < |xs| :: ys[i] == k * xs[i]
    ensures Sum(ys) == k * Sum(xs)
  {
    if xs != [] {
      SumScale(xs[..|xs| - 1], ys[..|xs| - 1], k);
    }
  }

  lemma {:induction false} SumPlus(xs: seq<int>, ys: seq<int>, zs: seq<int>)
    requires |xs| == |ys| == |zs| && forall i | 0 <= i < |xs| :: zs[i] == xs[i] + ys[i]
    ensures Sum(zs) == Sum(xs) + Sum(ys)
  {
    if xs != [] {
      SumPlus(xs[..|xs| - 1], ys[..|xs| - 1], zs[..|xs| - 1]);
    }
  }

  lemma {:induction false} SumConstant(xs: seq<int>, k: int)
    requires forall i | 0 <= i < |xs| :: xs[i] == k
    ensures Sum(xs) == k * |xs|
  {
    if xs != [] {
      SumConstant(xs[..|xs| - 1], k);
    }
  }

  lemma {:induction false} SumUpdate(xs: seq<int>, i: nat, x: int)
    requires i < |xs|
    ensures Sum(xs[i := x]) == Sum(xs) - xs[i] + x
  {
    var n := |xs| - 1;
    if i < n {
      SumUpdate(xs[..n], i, x);
      assert xs[i := x][..n] == xs[..n][i := x];
    } else {
      assert xs[i := x][..n] == xs[..n];
    }
  }

  /******* Shares *******/

  /** Whole cents of the exact share of base `i`. */
  function Floor(total: int, bases: seq<int>, i: nat): int
    requires i < |bases| && BaseTotal(bases) > 0
  {
    total * Positive(bases[i]) / BaseTotal(bases)
  }

  /** What the exact share of base `i` leaves over, in parts of BaseTotal. */
  function Remainder(total: int, bases: seq<int>, i: nat): int
    requires i < |bases| && BaseTotal(bases) > 0
  {
    total * Positive(bases[i]) % BaseTotal(bases)
  }

  function Floors(total: int, bases: seq<int>): (fs: seq<int>)
    requires BaseTotal(bases) > 0
    ensures |fs| == |bases| && forall i | 0 <= i < |bases| :: fs[i] == Floor(total, bases, i)
  {
    seq(|bases|, i requires 0 <= i < |bases| => Floor(total, bases, i))
  }

  function Remainders(total: int, bases: seq<int>): (rs: seq<int>)
    requires BaseTotal(bases) > 0
    ensures |rs| == |bases| && forall i | 0 <= i < |bases| :: rs[i] == Remainder(total, bases, i)
  {
    seq(|bases|, i requires 0 <= i < |bases| => Remainder(total, bases, i))
  }

  lemma ShareSplit(total: int, bases: seq<int>, i: nat)
    requires i < |bases| && BaseTotal(bases) > 0
    ensures total * Positive(bases[i]) == Floor(total, bases, i) * BaseTotal(bases) + Remainder(total, bases, i)
    ensures 0 <= Remainder(total, bases, i) < BaseTotal(bases)
  {}

  /** The cents left after handing out whole shares are the sum of the remainders, fewer than
      there are bases. */
  lemma Leftover(total: int, bases: seq<int>)
    requires BaseTotal(bases) > 0
    ensures var rest := total - Sum(Floors(total, bases));
            Sum(Remainders(total, bases)) == rest * BaseTotal(bases) && 0 <= rest < |bases|
  {
    var b, fs, rs := BaseTotal(bases), Floors(total, bases), Remainders(total, bases);
    var whole := seq(|bases|, i requires 0 <= i < |bases| => b * fs[i]);
    var shares := seq(|bases|, i requires 0 <= i < |bases| => total * Positives(bases)[i]);
    SumScale(fs, whole, b);
    SumScale(Positives(bases), shares, total);
    forall i | 0 <= i < |bases| ensures shares[i] == whole[i] + rs[i] && 0 <= rs[i] < b {
      ShareSplit(total, bases, i);
    }
    SumPlus(whole, rs, shares);
    var rest := total - Sum(fs);
    assert Sum(rs) == total * b - b * Sum(fs) == rest * b by { Distribute(total, Sum(fs), b); }
    var zeros, caps := seq(|bases|, i => 0), seq(|bases|, i => b);
    SumConstant(zeros, 0);
    SumConstant(caps, b);
    SumLess(zeros, rs);
    assert |bases| > 0 && rs[0] < caps[0];
    SumLess(rs, caps);
    MulOrder(0, rest, b);
    MulOrder(rest, |bases|, b);
  }

  lemma Distribute(x: int, y: int, k: int)
    ensures x * k - k * y == (x - y) * k
  {}

  lemma MulMono(x: int, y: int, k: int)
    requires x <= y && k >= 0
    ensures x * k <= y * k
  {
    assert (y - x) * k >= 0;
  }

  lemma MulOrder(x: int, y: int, k: int)
    requires k > 0
    ensures x * k < y * k <==> x < y
    ensures x * k <= y * k <==> x <= y
  {
    if x < y { MulMono(x + 1, y, k); }
    if y < x { MulMono(y + 1, x, k); }
  }

  /******* Who gets the leftover cents *******/

  /** Larger remainder first; equal remainders by position. */
  predicate Beats(rs: seq<int>, i: nat, j: nat) {
    i < |rs| && j < |rs| && (rs[i] > rs[j] || (rs[i] == rs[j] && i < j))
  }

  function Insert(rs: seq<int>, i: nat, sorted: seq<nat>): seq<nat> {
    if sorted == [] then [i]
    else if Beats(rs, i, sorted[0]) then [i] + sorted
    else [sorted[0]] + Insert(rs, i, sorted[1..])
  }

  /** The positions 0 to n - 1, sorted. */
  function Priority(rs: seq<int>, n: nat): seq<nat> {
    if n == 0 then [] else Insert(rs, n - 1, Priority(rs, n - 1))
  }

  ghost predicate SortedBy(rs: seq<int>, order: seq<nat>) {
    forall i, j | 0 <= i < j < |order| :: Beats(rs, order[i], order[j])
  }

  lemma {:induction false} InsertMembers(rs: seq<int>, i: nat, sorted: seq<nat>)
    ensures forall p :: p in Insert(rs, i, sorted) <==> p == i || p in sorted
    ensures |Insert(rs, i, sorted)| == |sorted| + 1
  {
    if sorted != [] {
      InsertMembers(rs, i, sorted[1..]);
    }
  }

  lemma {:induction false} InsertSorted(rs: seq<int>, i: nat, sorted: seq<nat>)
    requires i < |rs| && i !in sorted && SortedBy(rs, sorted) && forall p | p in sorted :: p < |rs|
    ensures SortedBy(rs, Insert(rs, i, sorted))
  {
    if sorted != [] {
      InsertMembers(rs, i, sorted[1..]);
      var head, rest := sorted[0], Insert(rs, i, sorted[1..]);
      forall b | 0 <= b < |sorted[1..]| ensures Beats(rs, head, sorted[1..][b]) {
        assert sorted[b + 1] == sorted[1..][b];
      }
      if Beats(rs, i, head) {
        assert forall b | 0 < b < |sorted| :: Beats(rs, head, sorted[b]);
      } else {
        assert Beats(rs, head, i) by { assert head in sorted; }
        InsertSorted(rs, i, sorted[1..]);
        assert forall b | 0 <= b < |rest| :: rest[b] in rest;
      }
    }
  }

  lemma {:induction false} PrioritySorted(rs: seq<int>, n: nat)
    requires n <= |rs|
    ensures |Priority(rs, n)| == n && SortedBy(rs, Priority(rs, n))
    ensures forall p :: p in Priority(rs, n) <==> 0 <= p < n
  {
    if n > 0 {
      PrioritySorted(rs, n - 1);
      InsertMembers(rs, n - 1, Priority(rs, n - 1));
      InsertSorted(rs, n - 1, Priority(rs, n - 1));
    }
  }

  /** The positions that get one cent beyond their whole share. */
  function Winners(total: int, bases: seq<int>): (winners: seq<nat>)
    requires BaseTotal(bases) > 0
  {
    Leftover(total, bases);
    var rs := Remainders(total, bases);
    PrioritySorted(rs, |bases|);
    Priority(rs, |bases|)[..total - Sum(Floors(total, bases))]
  }

  lemma WinnersFirst(total: int, bases: seq<int>)
    requires BaseTotal(bases) > 0
    ensures var winners := Winners(total, bases);
            && |winners| == total - Sum(Floors(total, bases)) <= |bases|
            && winners <= Priority(Remainders(total, bases), |bases|)
            && FirstOf(Remainders(total, bases), winners)
  {
    hide Floor, Remainder, Priority, Beats, Sum, BaseTotal, FirstOf;
    Leftover(total, bases);
    PrioritySorted(Remainders(total, bases), |bases|);
    TakeFirst(Remainders(total, bases), Priority(Remainders(total, bases), |bases|), total - Sum(Floors(total, bases)));
  }

  /** Distinct positions, each of which beats every position that is not among them. */
  ghost predicate FirstOf(rs: seq<int>, winners: seq<nat>) {
    && (forall p | p in winners :: p < |rs|)
    && (forall a, b | 0 <= a < b < |winners| :: winners[a] != winners[b])
    && (forall i, j: nat | i in winners && j !in winners && j < |rs| :: Beats(rs, i, j))
  }

  lemma TakeFirst(rs: seq<int>, order: seq<nat>, k: nat)
    requires SortedBy(rs, order) && k <= |order| && forall p :: p in order <==> 0 <= p < |rs|
    ensures FirstOf(rs, order[..k])
  {
    var winners := order[..k];
    forall p | p in winners ensures p < |rs| { assert p in order; }
    assert forall q | 0 <= q < k :: order[q] == winners[q] && winners[q] in winners;
    forall i, j: nat | i in winners && j !in winners && j < |rs| ensures Beats(rs, i, j) {
      var a :| 0 <= a < |winners| && winners[a] == i;
      assert j in order;
      var b :| 0 <= b < |order| && order[b] == j;
      assert order[a] == i && a < b;
    }
    forall a, b | 0 <= a < b < |winners| ensures winners[a] != winners[b] {
      assert Beats(rs, order[a], order[b]);
    }
  }

  /** The division into parts as a function: whole shares, and one cent more for the winners. */
  function Allocate(total: int, bases: seq<int>): (parts: seq<int>)
    ensures |parts| == |bases|
  {
    PositiveTotal(bases);
    if total == 0 || BaseTotal(bases) == 0 then seq(|bases|, i => 0)
    else
      var winners := Winners(total, bases);
      seq(|bases|, i requires 0 <= i < |bases| => Floor(total, bases, i) + if i in winners then 1 else 0)
  }

  lemma PositiveTotal(bases: seq<int>)
    ensures BaseTotal(bases) >= 0
  {
    var zeros := seq(|bases|, i => 0);
    SumConstant(zeros, 0);
    SumLess(zeros, Positives(bases));
  }

  /** What largest-remainder apportionment means: parts that sum to the total, each the whole
      share or one cent more, and nobody gets the extra cent before a base that beats it. */
  ghost predicate IsApportionment(total: int, bases: seq<int>, parts: seq<int>)
    requires BaseTotal(bases) > 0
  {
    && |parts| == |bases| && Sum(parts) == total
    && (forall i | 0 <= i < |parts| :: Floor(total, bases, i) <= parts[i] <= Floor(total, bases, i) + 1)
    && (forall i, j | 0 <= i < |parts| && 0 <= j < |parts| && Extra(total, bases, parts, i) == 1 && Extra(total, bases, parts, j) == 0 ::
          Beats(Remainders(total, bases), i, j))
  }

  function Extra(total: int, bases: seq<int>, parts: seq<int>, i: nat): int
    requires i < |parts| == |bases| && BaseTotal(bases) > 0
  {
    parts[i] - Floor(total, bases, i)
  }

  lemma {:induction false} DistinctCount(xs: seq<int>, winners: seq<nat>)
    requires forall i | 0 <= i < |xs| :: xs[i] == (if i in winners then 1 else 0)
    requires forall p | p in winners :: p < |xs|
    requires forall a, b | 0 <= a < b < |winners| :: winners[a] != winners[b]
    ensures Sum(xs) == |winners|
    decreases |winners|
  {
    if winners == [] {
      SumConstant(xs, 0);
    } else {
      var n := |winners| - 1;
      var p := winners[n];
      assert winners == winners[..n] + [p] && p in winners;
      assert p !in winners[..n];
      var ys := xs[p := 0];
      assert forall i :: i in winners <==> i == p || i in winners[..n];
      DistinctCount(ys, winners[..n]);
      SumUpdate(xs, p, 0);
    }
  }

  /** Allocate is an apportionment whenever there is a positive base. */
  lemma AllocateIsApportionment(total: int, bases: seq<int>)
    requires BaseTotal(bases) > 0
    ensures IsApportionment(total, bases, Allocate(total, bases))
  {
    hide Floor, Remainder, Winners, Priority, Beats, Sum;
    var parts, fs, rs := Allocate(total, bases), Floors(total, bases), Remainders(total, bases);
    if total == 0 {
      SumConstant(parts, 0);
      NothingToShare(bases);
    } else {
      WinnersFirst(total, bases);
      var winners := Winners(total, bases);
      var extras := seq(|bases|, i requires 0 <= i < |bases| => if i in winners then 1 else 0);
      DistinctCount(extras, winners);
      SumPlus(fs, extras, parts);
    }
  }

  lemma NothingToShare(bases: seq<int>)
    requires BaseTotal(bases) > 0
    ensures forall i: nat | i < |bases| :: Floor(0, bases, i) == 0
  {}

  /** There is only one apportionment. */
  lemma ApportionmentUnique(total: int, bases: seq<int>, parts: seq<int>, other: seq<int>)
    requires BaseTotal(bases) > 0 && IsApportionment(total, bases, parts) && IsApportionment(total, bases, other)
    ensures parts == other
  {
    hide Floor, Remainder, Sum;
    if i :| 0 <= i < |parts| && parts[i] < other[i] {
      SmallerSomewhere(other, parts, i);
      var j :| 0 <= j < |parts| && other[j] < parts[j];
      NotCrossed(total, bases, parts, other, i, j);
    } else if i :| 0 <= i < |parts| && other[i] < parts[i] {
      SmallerSomewhere(parts, other, i);
    }
  }

  lemma NotCrossed(total: int, bases: seq<int>, parts: seq<int>, other: seq<int>, i: nat, j: nat)
    requires BaseTotal(bases) > 0 && IsApportionment(total, bases, parts) && IsApportionment(total, bases, other)
    requires i < |bases| && j < |bases|
    ensures !(parts[i] < other[i] && other[j] < parts[j])
  {
    hide Floor, Remainder, Sum;
    var rs := Remainders(total, bases);
    assert Extra(total, bases, other, i) == 1 && Extra(total, bases, other, j) == 0 ==> Beats(rs, i, j);
    assert Extra(total, bases, parts, j) == 1 && Extra(total, bases, parts, i) == 0 ==> Beats(rs, j, i);
  }

  lemma SmallerSomewhere(xs: seq<int>, ys: seq<int>, i: nat)
    requires |xs| == |ys| && i < |xs| && ys[i] < xs[i] && Sum(xs) == Sum(ys)
    ensures exists j :: 0 <= j < |xs| && xs[j] < ys[j]
  {
    if forall j | 0 <= j < |xs| :: ys[j] <= xs[j] {
      SumLess(ys, xs);
    }
  }

  function Extras(total: int, bases: seq<int>, parts: seq<int>): (xs: seq<int>)
    requires |parts| == |bases| && BaseTotal(bases) > 0
    ensures |xs| == |bases| && forall i | 0 <= i < |bases| :: xs[i] == Extra(total, bases, parts, i)
  {
    seq(|bases|, i requires 0 <= i < |bases| => Extra(total, bases, parts, i))
  }

  function Inexact(rs: seq<int>): (xs: seq<int>)
    ensures |xs| == |rs| && forall i | 0 <= i < |rs| :: xs[i] == if rs[i] > 0 then 1 else 0
  {
    seq(|rs|, i requires 0 <= i < |rs| => if rs[i] > 0 then 1 else 0)
  }

  lemma ExtrasAtMostInexact(total: int, bases: seq<int>, parts: seq<int>)
    requires BaseTotal(bases) > 0 && IsApportionment(total, bases, parts)
    ensures Sum(Extras(total, bases, parts)) <= Sum(Inexact(Remainders(total, bases)))
  {
    var b, rs, extras := BaseTotal(bases), Remainders(total, bases), Extras(total, bases, parts);
    var inexact := Inexact(rs);
    var caps := seq(|bases|, i requires 0 <= i < |bases| => b * inexact[i]);
    forall i | 0 <= i < |bases| ensures rs[i] <= caps[i] {
      ShareSplit(total, bases, i);
    }
    SumPlus(Floors(total, bases), extras, parts);
    Leftover(total, bases);
    SumScale(inexact, caps, b);
    SumLess(rs, caps);
    MulOrder(Sum(extras), Sum(inexact), b);
  }

  lemma ExactWinnerCount(total: int, bases: seq<int>, parts: seq<int>, w: nat)
    requires BaseTotal(bases) > 0 && IsApportionment(total, bases, parts) && w < |parts|
    requires Extra(total, bases, parts, w) == 1
    ensures Remainder(total, bases, w) == 0 ==> Sum(Inexact(Remainders(total, bases))) < Sum(Extras(total, bases, parts))
  {
    hide Floor, Remainder, Sum;
    var rs, extras := Remainders(total, bases), Extras(total, bases, parts);
    var inexact := Inexact(rs);
    if rs[w] == 0 {
      forall i: nat | i < |bases| ensures inexact[i] <= extras[i] {
        assert rs[i] > 0 ==> !Beats(rs, w, i);
      }
      assert inexact[w] < extras[w];
      SumLess(inexact, extras);
    }
  }

  /** The extra cents all go to inexact shares. */
  lemma ExtraNeedsRemainder(total: int, bases: seq<int>, parts: seq<int>, w: nat)
    requires BaseTotal(bases) > 0 && IsApportionment(total, bases, parts) && w < |parts|
    requires Extra(total, bases, parts, w) == 1
    ensures Remainder(total, bases, w) > 0
  {
    ShareSplit(total, bases, w);
    ExtrasAtMostInexact(total, bases, parts);
    ExactWinnerCount(total, bases, parts, w);
  }

  /** A base that is zero or negative gets nothing. */
  lemma ZeroBaseGetsNothing(total: int, bases: seq<int>, i: nat)
    requires i < |bases| && bases[i] <= 0
    ensures Allocate(total, bases)[i] == 0
  {
    if total != 0 && BaseTotal(bases) != 0 {
      PositiveTotal(bases);
      AllocateIsApportionment(total, bases);
      var parts := Allocate(total, bases);
      if Extra(total, bases, parts, i) == 1 { ExtraNeedsRemainder(total, bases, parts, i); }
    }
  }

  /** The parts add up to the total, unless there is nothing to distribute it over. */
  lemma AllocateSums(total: int, bases: seq<int>)
    ensures Sum(Allocate(total, bases)) == if BaseTotal(bases) > 0 then total else 0
  {
    PositiveTotal(bases);
    if BaseTotal(bases) > 0 {
      AllocateIsApportionment(total, bases);
    } else {
      SumConstant(Allocate(total, bases), 0);
    }
  }

  /** No part is negative, and a total that the bases can carry never exceeds one of them. */
  lemma PartWithinBase(total: int, bases: seq<int>, i: nat)
    requires i < |bases| && 0 <= total
    ensures 0 <= Allocate(total, bases)[i]
    ensures total <= BaseTotal(bases) ==> Allocate(total, bases)[i] <= Positive(bases[i])
  {
    PositiveTotal(bases);
    if total != 0 && BaseTotal(bases) > 0 {
      var b, p := BaseTotal(bases), Positive(bases[i]);
      AllocateIsApportionment(total, bases);
      ShareSplit(total, bases, i);
      var f := Floor(total, bases, i);
      if Extra(total, bases, Allocate(total, bases), i) == 1 {
        ExtraNeedsRemainder(total, bases, Allocate(total, bases), i);
      }
      MulMono(0, total, p);
      MulOrder(-1, f, b);
      MulOrder(f, p, b);
      if total <= b { MulMono(total, b, p); }
    }
  }

  /** A larger base never gets less. */
  lemma LargerBaseGetsMore(total: int, bases: seq<int>, i: nat, j: nat)
    requires i < |bases| && j < |bases| && bases[i] < bases[j] && 0 <= total
    ensures Allocate(total, bases)[i] <= Allocate(total, bases)[j]
  {
    if bases[i] <= 0 {
      ZeroBaseGetsNothing(total, bases, i);
      PartWithinBase(total, bases, j);
    } else if total != 0 {
      SomePositive(bases, i);
      AllocateIsApportionment(total, bases);
      LargerBaseLargerShare(total, bases, i, j);
      assert Extra(total, bases, Allocate(total, bases), i) <= 1;
    }
  }

  lemma SomePositive(bases: seq<int>, i: nat)
    requires i < |bases| && bases[i] > 0
    ensures BaseTotal(bases) > 0
  {
    var zeros := seq(|bases|, k => 0);
    SumConstant(zeros, 0);
    assert zeros[i] < Positives(bases)[i];
    SumLess(zeros, Positives(bases));
  }

  lemma LargerBaseLargerShare(total: int, bases: seq<int>, i: nat, j: nat)
    requires i < |bases| && j < |bases| && 0 < bases[i] < bases[j] && 0 < total && BaseTotal(bases) > 0
    ensures Floor(total, bases, i) <= Floor(total, bases, j)
    ensures Floor(total, bases, i) == Floor(total, bases, j) ==> !Beats(Remainders(total, bases), i, j)
  {
    ShareSplit(total, bases, i);
    ShareSplit(total, bases, j);
    MulOrder(bases[i], bases[j], total);
    MulOrder(Floor(total, bases, i), Floor(total, bases, j) + 1, BaseTotal(bases));
  }

  /******* The in-place algorithm *******/

  method AllocateAmount(total: int, bases: seq<int>) returns (parts: seq<int>)
    ensures parts == Allocate(total, bases)
  {
    var baseTotal := BaseTotal(bases);
    if total == 0 || baseTotal == 0 {
      return seq(|bases|, i => 0);
    }
    PositiveTotal(bases);
    WinnersFirst(total, bases);
    var n := |bases|;
    PrioritySorted(Remainders(total, bases), n);
    ghost var floors, winners := Floors(total, bases), Winners(total, bases);
    var cents := new int[n](i requires 0 <= i < n => Floor(total, bases, i));
    assert cents[..] == floors;
    var remaining := total - Sum(cents[..]);
    var priority := Priority(Remainders(total, bases), n);
    hide *;
    for i := 0 to remaining
      invariant forall k | 0 <= k < n :: cents[k] == floors[k] + if k in winners[..i] then 1 else 0
    {
      SmallMod(i, n);
      var winner := priority[i % n];
      assert winner == winners[i] && winner in winners;
      assert winner !in winners[..i];
      assert winners[..i + 1] == winners[..i] + [winner];
      cents[winner] := cents[winner] + 1;
    }
    assert winners[..remaining] == winners;
    parts := cents[..];
    SharesAllocated(total, bases, parts);
  }

  lemma SharesAllocated(total: int, bases: seq<int>, parts: seq<int>)
    requires total != 0 && BaseTotal(bases) > 0 && |parts| == |bases|
    requires forall k | 0 <= k < |bases| :: parts[k] == Floors(total, bases)[k] + if k in Winners(total, bases) then 1 else 0
    ensures parts == Allocate(total, bases)
  {
    hide Floor, Winners, Positives, BaseTotal;
  }

  lemma SmallMod(i: nat, n: nat)
    requires i < n
    ensures i % n == i
  {}
}
