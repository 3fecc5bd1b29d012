/** The furthest-reaching points of the greedy O(ND) diff, and why the first one that covers the
    grid is its far corner, reached with the least number of insertions and deletions. */
module Myers {
  import opened CommonSubsequence

  /** The diagonals a round with `d` non-diagonal moves visits. */
  predicate InBand(d: int, k: int) {
    -d <= k <= d && (d + k) % 2 == 0
  }

  /** The point (x, x - k) starts a match. */
  predicate Matches<T(==)>(a: seq<T>, b: seq<T>, x: int, k: int)
    requires 0 <= x && k <= x
  {
    x < |a| && x - k < |b| && a[x] == b[x - k]
  }

  /** Follow equal elements from (x, x - k) along diagonal `k`. */
  function Snake<T(==)>(a: seq<T>, b: seq<T>, x: int, k: int): (r: int)
    requires 0 <= x && k <= x
    ensures x <= r && !Matches(a, b, r, k)
    ensures forall i :: x <= i < r ==> Matches(a, b, i, k)
    decreases |a| - x
  {
    if Matches(a, b, x, k) then Snake(a, b, x + 1, k) else x
  }

  /** True when round `d` reaches diagonal `k` by an insertion, from diagonal k + 1. */
  predicate Inserts<T(==)>(a: seq<T>, b: seq<T>, d: nat, k: int)
    requires d > 0 && InBand(d, k)
    decreases d, 0
  {
    -k == d || (k != d && Furthest(a, b, d - 1, k - 1) < Furthest(a, b, d - 1, k + 1))
  }

  /** Where round `d` starts following equal elements on diagonal `k`. */
  function SnakeStart<T(==)>(a: seq<T>, b: seq<T>, d: nat, k: int): (x: int)
    requires d > 0 && InBand(d, k)
    ensures 0 <= x && k <= x
    decreases d, 1
  {
    if Inserts(a, b, d, k) then Furthest(a, b, d - 1, k + 1) else Furthest(a, b, d - 1, k - 1) + 1
  }

  /** The x coordinate that round `d` stores for diagonal `k`; it may lie outside the grid. */
  function Furthest<T(==)>(a: seq<T>, b: seq<T>, d: nat, k: int): (x: int)
    requires InBand(d, k)
    ensures 0 <= x && k <= x
    decreases d, 2
  {
    if d == 0 then Snake(a, b, 0, 0) else Snake(a, b, SnakeStart(a, b, d, k), k)
  }

  /** The forward loop's exit test for one diagonal. */
  predicate Covers<T(==)>(a: seq<T>, b: seq<T>, d: nat, k: int)
    requires InBand(d, k)
  {
    Furthest(a, b, d, k) >= |a| && Furthest(a, b, d, k) - k >= |b|
  }

  /** The loop has run through all rounds before `d` without leaving. */
  ghost predicate NothingCovers<T>(a: seq<T>, b: seq<T>, d: nat) {
    forall e: nat, k: int :: e < d && InBand(e, k) ==> !Covers(a, b, e, k)
  }

  /** A round takes the better of the two moves that end on the diagonal. */
  lemma RoundAdvances<T>(a: seq<T>, b: seq<T>, d: nat, k: int)
    requires d > 0 && InBand(d, k)
    ensures InBand(d - 1, k - 1) ==> Furthest(a, b, d - 1, k - 1) + 1 <= Furthest(a, b, d, k)
    ensures InBand(d - 1, k + 1) ==> Furthest(a, b, d - 1, k + 1) <= Furthest(a, b, d, k)
  {
    assert SnakeStart(a, b, d, k) <= Furthest(a, b, d, k);
    if !Inserts(a, b, d, k) {
      assert SnakeStart(a, b, d, k) == Furthest(a, b, d - 1, k - 1) + 1;
    }
  }

  /** Leaving all but `len` of the first `x` and first `y` elements unmatched takes as many moves
      as some round has, and that round is at least at `x` on their diagonal. */
  ghost predicate Ahead<T>(a: seq<T>, b: seq<T>, x: nat, y: nat, len: nat) {
    len <= x && len <= y && InBand(x + y - 2 * len, x - y) && x <= Furthest(a, b, x + y - 2 * len, x - y)
  }

  lemma AheadAfterDelete<T>(a: seq<T>, b: seq<T>, x: nat, y: nat, len: nat)
    requires x > 0 && Ahead(a, b, x - 1, y, len)
    ensures Ahead(a, b, x, y, len)
  {
    RoundAdvances(a, b, x + y - 2 * len, x - y);
  }

  lemma AheadAfterInsert<T>(a: seq<T>, b: seq<T>, x: nat, y: nat, len: nat)
    requires y > 0 && Ahead(a, b, x, y - 1, len)
    ensures Ahead(a, b, x, y, len)
  {
    RoundAdvances(a, b, x + y - 2 * len, x - y);
  }

  lemma AheadAfterMatch<T>(a: seq<T>, b: seq<T>, x: nat, y: nat, len: nat)
    requires 0 < x <= |a| && 0 < y <= |b| && len > 0 && Ahead(a, b, x - 1, y - 1, len - 1) && a[x - 1] == b[y - 1]
    ensures Ahead(a, b, x, y, len)
  {
    assert Matches(a, b, x - 1, x - y);
  }

  /** Dominance: a matching of the first `x` and first `y` elements cannot get ahead of the round
      that has as many moves as the matching leaves elements out. */
  lemma {:induction false} FurthestDominates<T>(a: seq<T>, b: seq<T>, x: nat, y: nat, q: seq<(nat, nat)>)
    requires x <= |a| && y <= |b|
    requires IsMatching(a, b, q) && Before(q, x, y)
    ensures Ahead(a, b, x, y, |q|)
    decreases x + y
  {
    var last := |q| - 1;
    LastPair(a, b, q, x, y);
    if q != [] && q[last].0 == x - 1 && q[last].1 == y - 1 {
      MatchingEnds(a, b, q);
      FurthestDominates(a, b, x - 1, y - 1, q[..last]);
      AheadAfterMatch(a, b, x, y, |q|);
    } else if x > 0 && Before(q, x - 1, y) {
      FurthestDominates(a, b, x - 1, y, q);
      AheadAfterDelete(a, b, x, y, |q|);
    } else if y > 0 {
      FurthestDominates(a, b, x, y - 1, q);
      AheadAfterInsert(a, b, x, y, |q|);
    } else {
      AheadAtOrigin(a, b);
    }
  }

  lemma AheadAtOrigin<T>(a: seq<T>, b: seq<T>)
    ensures Ahead(a, b, 0, 0, 0)
  {
  }

  /** The corner is the last pair, or one of its coordinates is left out, or nothing is left. */
  lemma LastPair<T>(a: seq<T>, b: seq<T>, q: seq<(nat, nat)>, x: nat, y: nat)
    requires IsMatching(a, b, q) && Before(q, x, y)
    ensures || (q != [] && q[|q| - 1].0 == x - 1 && q[|q| - 1].1 == y - 1)
            || (x > 0 && Before(q, x - 1, y))
            || (y > 0 && Before(q, x, y - 1))
            || (x == 0 && y == 0 && q == [])
  {
    if x > 0 && (q == [] || q[|q| - 1].0 < x - 1) {
      BeforeFromLast(a, b, q, x - 1, y);
    } else if y > 0 && (q == [] || q[|q| - 1].1 < y - 1) {
      BeforeFromLast(a, b, q, x, y - 1);
    }
  }

  lemma BeforeFromLast<T>(a: seq<T>, b: seq<T>, q: seq<(nat, nat)>, x: int, y: int)
    requires IsMatching(a, b, q)
    requires q != [] ==> q[|q| - 1].0 < x && q[|q| - 1].1 < y
    ensures Before(q, x, y)
  {
    forall t | 0 <= t < |q|
      ensures q[t].0 < x && q[t].1 < y
    {
      if t < |q| - 1 {
        assert q[t].0 < q[|q| - 1].0 && q[t].1 < q[|q| - 1].1;
      }
    }
  }

  /** Realizability: whatever round `d` stores is witnessed by a matching; every move that is not
      a match, inside the grid or beyond it, is one of the `d` moves. */
  lemma {:induction false} FurthestIsRealized<T>(a: seq<T>, b: seq<T>, d: nat, k: int) returns (q: seq<(nat, nat)>)
    requires InBand(d, k)
    ensures IsMatching(a, b, q)
    ensures Before(q, Furthest(a, b, d, k), Furthest(a, b, d, k) - k)
    ensures 2 * Furthest(a, b, d, k) - k - 2 * |q| == d
    decreases d
  {
    var start := 0;
    if d == 0 {
      q := [];
    } else {
      start := SnakeStart(a, b, d, k);
      if Inserts(a, b, d, k) {
        q := FurthestIsRealized(a, b, d - 1, k + 1);
      } else {
        q := FurthestIsRealized(a, b, d - 1, k - 1);
      }
    }
    q := FollowSnake(a, b, q, start, k, Furthest(a, b, d, k));
  }

  lemma {:induction false} FollowSnake<T>(a: seq<T>, b: seq<T>, q: seq<(nat, nat)>, x: int, k: int, end: int)
    returns (r: seq<(nat, nat)>)
    requires IsMatching(a, b, q) && 0 <= x && k <= x <= end && Before(q, x, x - k)
    requires forall i :: x <= i < end ==> Matches(a, b, i, k)
    ensures IsMatching(a, b, r) && Before(r, end, end - k) && |r| == |q| + end - x
    decreases end - x
  {
    if x == end {
      r := q;
    } else {
      assert Matches(a, b, x, k);
      r := FollowSnake(a, b, q + [(x, x - k)], x + 1, k, end);
    }
  }

  /** Stored values are bounded by twice the number of elements, so for inputs of fewer than
      2^30 elements in all no 32-bit cell of a row ever overflows. */
  lemma StoredValuesFit<T>(a: seq<T>, b: seq<T>, d: nat, k: int)
    requires InBand(d, k) && d <= |a| + |b|
    ensures 0 <= Furthest(a, b, d, k) <= 2 * (|a| + |b|)
  {
    var q := FurthestIsRealized(a, b, d, k);
    LcsBoundsMatchings(a, b, q);
    LcsAtMostLength(a, b);
  }

  lemma LcsAtMostLength<T>(a: seq<T>, b: seq<T>)
    ensures Lcs(a, b) <= |a| && Lcs(a, b) <= |b|
  {
  }

  /** The exit test is met no later than round |a| + |b| - 2 |q|, for every matching `q`. */
  lemma CoveredBy<T>(a: seq<T>, b: seq<T>, q: seq<(nat, nat)>)
    requires IsMatching(a, b, q)
    ensures |q| <= |a| && |q| <= |b|
    ensures InBand(|a| + |b| - 2 * |q|, |a| - |b|)
    ensures Covers(a, b, |a| + |b| - 2 * |q|, |a| - |b|)
  {
    FurthestDominates(a, b, |a|, |b|, q);
  }

  /** The first diagonal that covers the grid stops exactly on its far corner. */
  lemma FirstCoverIsTheCorner<T>(a: seq<T>, b: seq<T>, d: nat, k: int)
    requires InBand(d, k) && Covers(a, b, d, k) && NothingCovers(a, b, d)
    ensures k == |a| - |b| && Furthest(a, b, d, k) == |a|
  {
    var q := FurthestIsRealized(a, b, d, k);
    CoveredBy(a, b, q);
    assert |a| + |b| - 2 * |q| >= d;
  }

  /** The round that first covers the grid is the edit distance: it leaves unmatched exactly what
      a longest common subsequence leaves unmatched. */
  lemma FirstCoverIsOptimal<T>(a: seq<T>, b: seq<T>, d: nat, k: int)
    requires InBand(d, k) && Covers(a, b, d, k) && NothingCovers(a, b, d)
    ensures d == |a| + |b| - 2 * Lcs(a, b)
  {
    FirstCoverIsTheCorner(a, b, d, k);
    var q := FurthestIsRealized(a, b, d, k);
    LcsBoundsMatchings(a, b, q);
    var best := LcsIsAttained(a, b);
    CoveredBy(a, b, best);
  }

  /** Round `d` leaves the forward loop. */
  ghost predicate SomeCovers<T>(a: seq<T>, b: seq<T>, d: nat) {
    exists k: int :: InBand(d, k) && Covers(a, b, d, k)
  }

  /** The first round to leave the forward loop does so on the far corner, and its number is the
      edit distance. */
  lemma FirstCover<T>(a: seq<T>, b: seq<T>, d: nat)
    requires SomeCovers(a, b, d) && NothingCovers(a, b, d)
    ensures d == |a| + |b| - 2 * Lcs(a, b)
    ensures InBand(d, |a| - |b|) && Furthest(a, b, d, |a| - |b|) == |a|
  {
    var k: int :| InBand(d, k) && Covers(a, b, d, k);
    FirstCoverIsTheCorner(a, b, d, k);
    FirstCoverIsOptimal(a, b, d, k);
  }

  /** The forward loop cannot run through all |a| + |b| + 1 rounds. */
  lemma SomeRoundCovers<T>(a: seq<T>, b: seq<T>)
    ensures !NothingCovers(a, b, |a| + |b| + 1)
  {
    CoveredBy(a, b, []);
  }
}
