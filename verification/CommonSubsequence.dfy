/** Common subsequences of two sequences: matchings, the length of the longest one, and how it
    behaves under the trimming of equal ends. */
module CommonSubsequence {

  /** A matching pairs equal elements, strictly increasing on both sides: it is a common
      subsequence together with the positions it occupies in `a` and in `b`. */
  ghost predicate IsMatching<T>(a: seq<T>, b: seq<T>, q: seq<(nat, nat)>) {
    && (forall t :: 0 <= t < |q| ==> q[t].0 < |a| && q[t].1 < |b| && a[q[t].0] == b[q[t].1])
    && (forall s, t :: 0 <= s < t < |q| ==> q[s].0 < q[t].0 && q[s].1 < q[t].1)
  }

  /** Every pair lies strictly before the point (x, y). */
  ghost predicate Before(q: seq<(nat, nat)>, x: int, y: int) {
    forall t :: 0 <= t < |q| ==> q[t].0 < x && q[t].1 < y
  }

  /** Every pair lies at or after the point (x, y). */
  ghost predicate From(q: seq<(nat, nat)>, x: int, y: int) {
    forall t :: 0 <= t < |q| ==> x <= q[t].0 && y <= q[t].1
  }

  /** The positions of `b` that a matching uses. */
  ghost function Columns(q: seq<(nat, nat)>): set<nat> {
    set t | 0 <= t < |q| :: q[t].1
  }

  /** `added` lists, in increasing order, exactly the positions of `b` outside the matching. */
  ghost predicate IsComplement(added: seq<nat>, q: seq<(nat, nat)>, m: nat) {
    && (forall s, t :: 0 <= s < t < |added| ==> added[s] < added[t])
    && (forall j: nat :: j in added <==> j < m && j !in Columns(q))
  }

  /** The length of a longest common subsequence. */
  function Lcs<T(==)>(a: seq<T>, b: seq<T>): nat {
    if a == [] || b == [] then 0
    else if a[0] == b[0] then 1 + Lcs(a[1..], b[1..])
    else
      var dropOld, dropNew := Lcs(a[1..], b), Lcs(a, b[1..]);
      if dropOld < dropNew then dropNew else dropOld
  }

  function Shift(q: seq<(nat, nat)>, dx: int, dy: int): (r: seq<(nat, nat)>)
    requires forall t :: 0 <= t < |q| ==> 0 <= q[t].0 + dx && 0 <= q[t].1 + dy
  {
    seq(|q|, t requires 0 <= t < |q| => (q[t].0 + dx, q[t].1 + dy))
  }

  function Diagonal(len: nat): seq<(nat, nat)> {
    seq(len, t => (t, t))
  }

  /** Shifting moves a matching between a sequence and its tail, on either side or on both. */
  lemma ShiftDown<T>(a: seq<T>, b: seq<T>, q: seq<(nat, nat)>, dx: nat, dy: nat)
    requires dx <= |a| && dy <= |b| && IsMatching(a, b, q) && From(q, dx, dy)
    ensures IsMatching(a[dx..], b[dy..], Shift(q, -(dx as int), -(dy as int)))
  {
  }

  lemma ShiftedDown<T>(a: seq<T>, b: seq<T>, q: seq<(nat, nat)>, dx: nat, dy: nat) returns (r: seq<(nat, nat)>)
    requires dx <= |a| && dy <= |b| && IsMatching(a, b, q) && From(q, dx, dy)
    ensures IsMatching(a[dx..], b[dy..], r) && |r| == |q|
  {
    ShiftDown(a, b, q, dx, dy);
    r := Shift(q, -(dx as int), -(dy as int));
  }

  lemma ShiftUp<T>(a: seq<T>, b: seq<T>, q: seq<(nat, nat)>, dx: nat, dy: nat)
    requires dx <= |a| && dy <= |b| && IsMatching(a[dx..], b[dy..], q)
    ensures IsMatching(a, b, Shift(q, dx, dy)) && From(Shift(q, dx, dy), dx, dy)
  {
  }

  lemma Prepend<T>(a: seq<T>, b: seq<T>, q: seq<(nat, nat)>, x: nat, y: nat)
    requires IsMatching(a, b, q) && From(q, x + 1, y + 1) && x < |a| && y < |b| && a[x] == b[y]
    ensures IsMatching(a, b, [(x, y)] + q) && From([(x, y)] + q, x, y)
  {
    var longer := [(x, y)] + q;
    assert forall t :: 0 < t < |longer| ==> longer[t] == q[t - 1];
  }

  /** Every pair of a matching comes after its first and before its last one. */
  lemma MatchingEnds<T>(a: seq<T>, b: seq<T>, q: seq<(nat, nat)>)
    requires IsMatching(a, b, q) && q != []
    ensures From(q, q[0].0, q[0].1) && From(q[1..], q[0].0 + 1, q[0].1 + 1)
    ensures Before(q[..|q| - 1], q[|q| - 1].0, q[|q| - 1].1) && IsMatching(a, b, q[..|q| - 1])
    ensures IsMatching(a, b, q[1..])
  {
  }

  /** No matching is longer than `Lcs`. */
  lemma {:induction false} LcsBoundsMatchings<T>(a: seq<T>, b: seq<T>, q: seq<(nat, nat)>)
    requires IsMatching(a, b, q)
    ensures |q| <= Lcs(a, b)
    decreases |a| + |b|
  {
    if q != [] {
      assert q[0].0 < |a|;
      MatchingEnds(a, b, q);
      if a[0] == b[0] {
        var r := ShiftedDown(a, b, q[1..], 1, 1);
        LcsBoundsMatchings(a[1..], b[1..], r);
      } else if q[0].0 > 0 {
        var r := ShiftedDown(a, b, q, 1, 0);
        LcsBoundsMatchings(a[1..], b[0..], r);
        assert b[0..] == b;
      } else {
        var r := ShiftedDown(a, b, q, 0, 1);
        LcsBoundsMatchings(a[0..], b[1..], r);
        assert a[0..] == a;
      }
    }
  }

  /** Some matching is as long as `Lcs`. */
  lemma {:induction false} LcsIsAttained<T>(a: seq<T>, b: seq<T>) returns (q: seq<(nat, nat)>)
    ensures IsMatching(a, b, q) && |q| == Lcs(a, b)
    decreases |a| + |b|
  {
    if a == [] || b == [] {
      q := [];
    } else if a[0] == b[0] {
      var r := LcsIsAttained(a[1..], b[1..]);
      ShiftUp(a, b, r, 1, 1);
      Prepend(a, b, Shift(r, 1, 1), 0, 0);
      q := [(0, 0)] + Shift(r, 1, 1);
    } else if Lcs(a[1..], b) < Lcs(a, b[1..]) {
      var r := LcsIsAttained(a, b[1..]);
      ShiftUp(a, b, r, 0, 1);
      q := Shift(r, 0, 1);
    } else {
      var r := LcsIsAttained(a[1..], b);
      ShiftUp(a, b, r, 1, 0);
      q := Shift(r, 1, 0);
    }
  }

  /** Equal first elements always belong to some longest common subsequence. */
  lemma {:induction false} LcsCommonPrefix<T>(p: seq<T>, a: seq<T>, b: seq<T>)
    ensures Lcs(p + a, p + b) == |p| + Lcs(a, b)
    decreases |p|
  {
    if p == [] {
      assert p + a == a && p + b == b;
    } else {
      LcsCommonPrefix(p[1..], a, b);
      assert (p + a)[1..] == p[1..] + a && (p + b)[1..] == p[1..] + b;
    }
  }

  /** Equal last elements always belong to some longest common subsequence. */
  lemma LcsCommonLast<T>(a: seq<T>, b: seq<T>, c: T)
    ensures Lcs(a + [c], b + [c]) == Lcs(a, b) + 1
  {
    var q := LcsIsAttained(a, b);
    LcsBoundsMatchings(a + [c], b + [c], q + [(|a|, |b|)]);
    var r := LcsIsAttained(a + [c], b + [c]);
    if r != [] {
      MatchingEnds(a + [c], b + [c], r);
      LcsBoundsMatchings(a, b, r[..|r| - 1]);
    }
  }

  lemma {:induction false} LcsCommonSuffix<T>(a: seq<T>, b: seq<T>, s: seq<T>)
    ensures Lcs(a + s, b + s) == Lcs(a, b) + |s|
    decreases |s|
  {
    if s == [] {
      assert a + s == a && b + s == b;
    } else {
      var init, last := s[..|s| - 1], s[|s| - 1];
      assert s == init + [last];
      LcsCommonSuffix(a, b, init);
      LcsCommonLast(a + init, b + init, last);
      assert a + s == (a + init) + [last] && b + s == (b + init) + [last];
    }
  }

  /** Trimming a common prefix and a common suffix loses nothing. */
  lemma LcsTrimmed<T>(p: seq<T>, a: seq<T>, b: seq<T>, s: seq<T>)
    ensures Lcs(p + a + s, p + b + s) == |p| + Lcs(a, b) + |s|
  {
    LcsCommonSuffix(p + a, p + b, s);
    LcsCommonPrefix(p, a, b);
  }
}
