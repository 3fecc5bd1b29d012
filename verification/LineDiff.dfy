/** The added-lines computation: trim the common ends, run the greedy diff over what is left, and
    report the lines of the new text that no longest common subsequence needs to match. */
module LineDiff {
  import opened CommonSubsequence
  import opened Myers
  import opened Lines
  import opened Prelude

  datatype AddedLine = AddedLine(line: nat, text: string)

  // ----- Rows: one array of furthest values per round, indexed by offset + diagonal -----

  function RowSize<T>(a: seq<T>, b: seq<T>): nat {
    2 * (|a| + |b|) + 3
  }

  function Offset<T>(a: seq<T>, b: seq<T>): nat {
    |a| + |b| + 1
  }

  /** `v` holds the values of all diagonals of round `d` below `limit`. */
  ghost predicate HoldsBelow<T>(a: seq<T>, b: seq<T>, v: array<int>, d: nat, limit: int)
    requires d <= |a| + |b| && v.Length == RowSize(a, b)
    reads v
  {
    forall k :: InBand(d, k) && k < limit ==> v[Offset(a, b) + k] == Furthest(a, b, d, k)
  }

  /** `v` is the row round `d` starts from: that of round d - 1, or the seed V[1] = 0. */
  ghost predicate StartsRound<T>(a: seq<T>, b: seq<T>, v: array<int>, d: nat)
    reads v
  {
    && v.Length == RowSize(a, b)
    && d <= |a| + |b| + 1
    && if d == 0 then v[Offset(a, b) + 1] == 0 else HoldsBelow(a, b, v, d - 1, d)
  }

  /** The row holds round d - 1 on the diagonals that round `d` reads for `k`. */
  lemma RowReads<T>(a: seq<T>, b: seq<T>, v: array<int>, d: nat, k: int)
    requires StartsRound(a, b, v, d) && d <= |a| + |b| && InBand(d, k)
    ensures d > 0 && -k < d ==> InBand(d - 1, k - 1) && v[Offset(a, b) + k - 1] == Furthest(a, b, d - 1, k - 1)
    ensures d > 0 && k < d ==> InBand(d - 1, k + 1) && v[Offset(a, b) + k + 1] == Furthest(a, b, d - 1, k + 1)
  {
    if d > 0 && -k < d {
      assert InBand(d - 1, k - 1);
    }
    if d > 0 && k < d {
      assert InBand(d - 1, k + 1);
    }
  }

  /** The furthest point of one diagonal: the better of the two moves, then its equal elements. */
  method ForwardCell<T(==)>(a: seq<T>, b: seq<T>, v: array<int>, d: nat, k: int) returns (x: int)
    requires d <= |a| + |b| && StartsRound(a, b, v, d) && InBand(d, k)
    ensures x == Furthest(a, b, d, k)
  {
    var offset := Offset(a, b);
    RowReads(a, b, v, d, k);
    if -k == d || (k != d && v[offset + k - 1] < v[offset + k + 1]) {
      x := v[offset + k + 1];
    } else {
      x := v[offset + k - 1] + 1;
    }
    var y := x - k;
    ghost var start := x;
    assert start == if d == 0 then 0 else SnakeStart(a, b, d, k);
    while x < |a| && y < |b| && a[x] == b[y]
      invariant start <= x && y == x - k
      invariant Snake(a, b, start, k) == Snake(a, b, x, k)
    {
      x, y := x + 1, y + 1;
    }
  }

  /** Store the value of one diagonal; the cells of the earlier diagonals keep theirs. */
  method StoreCell<T(==)>(a: seq<T>, b: seq<T>, next: array<int>, d: nat, k: int, x: int)
    requires d <= |a| + |b| && next.Length == RowSize(a, b) && InBand(d, k)
    requires HoldsBelow(a, b, next, d, k) && x == Furthest(a, b, d, k)
    modifies next
    ensures HoldsBelow(a, b, next, d, k + 2)
  {
    ghost var before := next[..];
    next[Offset(a, b) + k] := x;
    forall j | InBand(d, j) && j < k + 2
      ensures next[Offset(a, b) + j] == Furthest(a, b, d, j)
    {
      if j < k {
        assert next[Offset(a, b) + j] == before[Offset(a, b) + j];
      } else {
        assert j == k;
      }
    }
  }

  /** One round of the forward loop: fill the next row, or stop on a diagonal that covers the grid. */
  method ForwardRound<T(==)>(a: seq<T>, b: seq<T>, v: array<int>, d: nat) returns (next: array<int>, found: bool)
    requires d <= |a| + |b| && StartsRound(a, b, v, d)
    ensures fresh(next) && next.Length == RowSize(a, b)
    ensures !found ==> HoldsBelow(a, b, next, d, d + 1)
    ensures found <==> SomeCovers(a, b, d)
  {
    next := new int[RowSize(a, b)](_ => 0);
    var k := -(d as int);
    while k <= d
      invariant 0 <= d + k && k <= d + 2 && (d + k) % 2 == 0
      invariant HoldsBelow(a, b, next, d, k)
      invariant forall j :: InBand(d, j) && j < k ==> !Covers(a, b, d, j)
    {
      var x := ForwardCell(a, b, v, d, k);
      StoreCell(a, b, next, d, k, x);
      if x >= |a| && x - k >= |b| {
        assert Covers(a, b, d, k);
        found := true;
        return;
      }
      k := k + 2;
    }
    found := false;
  }

  /** The recorded rows: round `d` started from trace[d]. */
  ghost predicate Recorded<T>(a: seq<T>, b: seq<T>, trace: seq<array<int>>)
    reads trace
  {
    forall d :: 0 <= d < |trace| ==> StartsRound(a, b, trace[d], d)
  }

  lemma RecordMore<T>(a: seq<T>, b: seq<T>, trace: seq<array<int>>, v: array<int>)
    requires Recorded(a, b, trace) && StartsRound(a, b, v, |trace|)
    ensures Recorded(a, b, trace + [v])
  {
  }

  /** The forward loop. The safety net after it in the source, for a loop that finds no round,
      has no counterpart: the loop always finds one. */
  method Forward<T(==)>(a: seq<T>, b: seq<T>) returns (trace: seq<array<int>>, foundD: nat)
    ensures foundD <= |a| + |b| && |trace| == foundD + 1 && Recorded(a, b, trace)
    ensures foundD == |a| + |b| - 2 * Lcs(a, b)
    ensures InBand(foundD, |a| - |b|) && Furthest(a, b, foundD, |a| - |b|) == |a|
  {
    var max := |a| + |b|;
    var v := new int[RowSize(a, b)](_ => 0);
    trace, foundD := [], 0;
    var d := 0;
    while d <= max
      invariant d <= max + 1 && |trace| == d
      invariant StartsRound(a, b, v, d)
      invariant Recorded(a, b, trace)
      invariant NothingCovers(a, b, d)
    {
      RecordMore(a, b, trace, v);
      trace := trace + [v];
      var next, found := ForwardRound(a, b, v, d);
      if found {
        FirstCover(a, b, d);
        foundD := d;
        return;
      }
      v := next;
      d := d + 1;
    }
    SomeRoundCovers(a, b);
    assert false;
  }

  /** The diagonal holds only equal elements from `start` up to `end`. */
  ghost predicate Run<T>(a: seq<T>, b: seq<T>, start: int, end: int, k: int)
    requires 0 <= start && k <= start
  {
    forall i :: start <= i < end ==> Matches(a, b, i, k)
  }

  /** Round `d` reached (x, y) through matches only, once it had made its move. */
  lemma StepBack<T>(a: seq<T>, b: seq<T>, d: nat, x: int, y: int)
    requires d > 0 && InBand(d, x - y) && x == Furthest(a, b, d, x - y) && x <= |a| && y <= |b|
    ensures SnakeStart(a, b, d, x - y) <= x && Run(a, b, SnakeStart(a, b, d, x - y), x, x - y)
  {
  }

  /** Complement bookkeeping of the backtrack, on the reversed list it builds: below row `y`
      nothing is decided; at or above it every index is either matched or added. */
  ghost predicate Backtracked(m: nat, y: int, added: seq<nat>, q: seq<(nat, nat)>) {
    && (forall s, t :: 0 <= s < t < |added| ==> added[s] > added[t])
    && (forall j: nat :: j in added <==> y <= j < m && j !in Columns(q))
  }

  /** Walk equal elements back from (x, y) to (mx, my); the pairs join the matching. */
  method SkipSnake<T(==)>(a: seq<T>, b: seq<T>, x0: int, y0: int, mx: int, my: int, added: seq<nat>,
                          ghost q0: seq<(nat, nat)>)
    returns (x: int, y: int, ghost q: seq<(nat, nat)>)
    requires 0 <= mx <= x0 && 0 <= my <= y0 && x0 - y0 == mx - my
    requires Run(a, b, mx, x0, x0 - y0)
    requires IsMatching(a, b, q0) && From(q0, x0, y0) && Backtracked(|b|, y0, added, q0)
    ensures x == mx && y == my
    ensures IsMatching(a, b, q) && From(q, x, y) && Backtracked(|b|, y, added, q)
    ensures |q| == |q0| + x0 - mx
  {
    x, y, q := x0, y0, q0;
    while x > mx && y > my
      invariant mx <= x <= x0 && my <= y && x - y == x0 - y0
      invariant IsMatching(a, b, q) && From(q, x, y) && Backtracked(|b|, y, added, q)
      invariant |q| == |q0| + x0 - x
    {
      x, y := x - 1, y - 1;
      assert Matches(a, b, x, x0 - y0);
      Prepend(a, b, q, x, y);
      ColumnsOfPrepended(q, x, y);
      q := [(x, y)] + q;
    }
  }

  lemma ColumnsOfPrepended(q: seq<(nat, nat)>, x: nat, y: nat)
    ensures Columns([(x, y)] + q) == Columns(q) + {y}
  {
    var longer := [(x, y)] + q;
    forall j | j in Columns(q)
      ensures j in Columns(longer)
    {
      var t :| 0 <= t < |q| && q[t].1 == j;
      assert longer[t + 1].1 == j;
    }
    assert longer[0].1 == y;
  }

  /** Round 0 is the run of equal elements from the origin: all of it is matched. */
  lemma MatchFromOrigin<T>(a: seq<T>, b: seq<T>, x: nat, added: seq<nat>, q: seq<(nat, nat)>)
    requires Run(a, b, 0, x, 0)
    requires IsMatching(a, b, q) && From(q, x, x) && Backtracked(|b|, x, added, q)
    ensures IsMatching(a, b, Diagonal(x) + q) && Backtracked(|b|, 0, added, Diagonal(x) + q)
  {
    var all := Diagonal(x) + q;
    assert forall t :: 0 <= t < |all| ==> all[t] == if t < x then (t, t) else q[t - x];
    forall t | 0 <= t < |all|
      ensures all[t].0 < |a| && all[t].1 < |b| && a[all[t].0] == b[all[t].1]
    {
      assert t < x ==> Matches(a, b, t, 0);
    }
    forall j: nat | x <= j
      ensures j in Columns(all) <==> j in Columns(q)
    {
      if j in Columns(q) {
        var t :| 0 <= t < |q| && q[t].1 == j;
        assert all[t + x].1 == j;
      }
    }
    forall j: nat | j < x
      ensures j in Columns(all)
    {
      assert all[j].1 == j;
    }
  }

  /** The furthest point that round `d` continued from, and where it then started matching. */
  method Predecessor<T(==)>(a: seq<T>, b: seq<T>, prev: array<int>, d: nat, k: int)
    returns (prevX: int, prevY: int, mx: int, my: int, insertion: bool)
    requires 0 < d <= |a| + |b| && StartsRound(a, b, prev, d) && InBand(d, k)
    ensures mx == SnakeStart(a, b, d, k) && my == mx - k
    ensures InBand(d - 1, prevX - prevY) && prevX == Furthest(a, b, d - 1, prevX - prevY)
    ensures prevX == (if insertion then mx else mx - 1) && prevY == (if insertion then my - 1 else my)
  {
    var offset := Offset(a, b);
    RowReads(a, b, prev, d, k);
    var prevK: int;
    if -k == d || (k != d && prev[offset + k - 1] < prev[offset + k + 1]) {
      prevK := k + 1;
    } else {
      prevK := k - 1;
    }
    prevX := prev[offset + prevK];
    prevY := prevX - prevK;
    mx := if prevK == k + 1 then prevX else prevX + 1;
    my := if prevK == k + 1 then prevY + 1 else prevY;
    insertion := prevK == k + 1;
  }

  /** The row that an insertion moved over is added. */
  lemma InsertionJoins(m: nat, y: int, added: seq<nat>, q: seq<(nat, nat)>, x: int)
    requires 0 < y <= m && From(q, x, y) && Backtracked(m, y, added, q)
    ensures Backtracked(m, y - 1, added + [(y - 1) as nat], q)
  {
    assert forall s :: 0 <= s < |added| ==> added[s] in added;
  }

  /** Undo one round: skip its run of equal elements and classify its one move. */
  method BackRound<T(==)>(a: seq<T>, b: seq<T>, prev: array<int>, d: nat, x0: int, y0: int, added0: seq<nat>,
                          ghost q0: seq<(nat, nat)>)
    returns (x: int, y: int, added: seq<nat>, ghost q: seq<(nat, nat)>)
    requires 0 < d <= |a| + |b| && StartsRound(a, b, prev, d)
    requires 0 <= x0 <= |a| && 0 <= y0 <= |b| && InBand(d, x0 - y0) && x0 == Furthest(a, b, d, x0 - y0)
    requires IsMatching(a, b, q0) && From(q0, x0, y0) && Backtracked(|b|, y0, added0, q0)
    ensures 0 <= x <= |a| && 0 <= y <= |b| && InBand(d - 1, x - y) && x == Furthest(a, b, d - 1, x - y)
    ensures IsMatching(a, b, q) && From(q, x, y) && Backtracked(|b|, y, added, q)
    ensures 2 * |q| + x + y + 1 == 2 * |q0| + x0 + y0
  {
    var prevX, prevY, mx, my, insertion := Predecessor(a, b, prev, d, x0 - y0);
    StepBack(a, b, d, x0, y0);
    x, y, q := SkipSnake(a, b, x0, y0, mx, my, added0, q0);
    added := added0;
    if insertion {
      InsertionJoins(|b|, my, added, q, x);
      added := added + [my - 1];
    }
    x, y := prevX, prevY;
  }

  /** Backtrack over the recorded rows. */
  method Backtrack<T(==)>(a: seq<T>, b: seq<T>, trace: seq<array<int>>, foundD: nat)
    returns (added: seq<nat>, ghost q: seq<(nat, nat)>)
    requires foundD <= |a| + |b| && |trace| == foundD + 1 && Recorded(a, b, trace)
    requires InBand(foundD, |a| - |b|) && Furthest(a, b, foundD, |a| - |b|) == |a|
    ensures IsMatching(a, b, q) && IsComplement(added, q, |b|)
    ensures 2 * |q| == |a| + |b| - foundD && 2 * |added| == |b| - |a| + foundD
  {
    added, q := [], [];
    var x, y := |a|, |b|;
    var d := foundD;
    while d > 0
      invariant d <= foundD && 0 <= x <= |a| && 0 <= y <= |b|
      invariant InBand(d, x - y) && x == Furthest(a, b, d, x - y)
      invariant IsMatching(a, b, q) && From(q, x, y) && Backtracked(|b|, y, added, q)
      invariant 2 * |q| + x + y + foundD - d == |a| + |b|
    {
      x, y, added, q := BackRound(a, b, trace[d], d, x, y, added, q);
      d := d - 1;
    }
    MatchFromOrigin(a, b, x, added, q);
    q := Diagonal(x) + q;
    added := Reversed(added);
    ComplementSize(a, b, added, q);
  }

  function Reversed(s: seq<nat>): (r: seq<nat>)
    ensures |r| == |s|
    ensures forall i :: 0 <= i < |s| ==> r[i] == s[|s| - 1 - i]
    ensures forall j: nat :: j in r <==> j in s
  {
    if s == [] then [] else
      assert s == s[..|s| - 1] + [s[|s| - 1]];
      [s[|s| - 1]] + Reversed(s[..|s| - 1])
  }

  /** The indices of `newLines` that no line of `oldLines` is matched to. */
  method MyersAddedIndices<T(==)>(oldLines: seq<T>, newLines: seq<T>)
    returns (added: seq<nat>, ghost q: seq<(nat, nat)>)
    ensures IsMatching(oldLines, newLines, q) && IsComplement(added, q, |newLines|)
    ensures |q| == Lcs(oldLines, newLines) && |added| == |newLines| - Lcs(oldLines, newLines)
  {
    q := [];
    if |oldLines| == 0 {
      return UpFrom(0, |newLines|), q;
    }
    if |newLines| == 0 {
      return [], q;
    }
    var trace, foundD := Forward(oldLines, newLines);
    added, q := Backtrack(oldLines, newLines, trace, foundD);
  }

  /** How many positions a complement lists. */
  lemma {:induction false} ComplementSize<T>(a: seq<T>, b: seq<T>, added: seq<nat>, q: seq<(nat, nat)>)
    requires IsMatching(a, b, q) && IsComplement(added, q, |b|)
    ensures |added| == |b| - |q|
  {
    var s := set i | 0 <= i < |added| :: added[i];
    IncreasingSize(added, s);
    ColumnsSize(a, b, q);
    assert Columns(q) !! s;
    assert forall t :: 0 <= t < |q| ==> q[t].1 in Columns(q);
    assert forall t :: 0 <= t < |added| ==> added[t] in added;
    assert Columns(q) + s == Range(|b|);
  }

  lemma {:induction false} IncreasingSize(added: seq<nat>, s: set<nat>)
    requires forall i, j :: 0 <= i < j < |added| ==> added[i] < added[j]
    requires forall j: nat :: j in s <==> j in added
    ensures |s| == |added|
    decreases |added|
  {
    if added == [] {
      assert s == {};
    } else {
      var last := added[|added| - 1];
      var init := added[..|added| - 1];
      assert added == init + [last];
      IncreasingSize(init, s - {last});
    }
  }

  lemma {:induction false} ColumnsSize<T>(a: seq<T>, b: seq<T>, q: seq<(nat, nat)>)
    requires IsMatching(a, b, q)
    ensures |Columns(q)| == |q|
  {
    var ys := seq(|q|, t requires 0 <= t < |q| => q[t].1);
    forall j: nat
      ensures j in Columns(q) <==> j in ys
    {
      if j in Columns(q) {
        var t :| 0 <= t < |q| && q[t].1 == j;
        assert ys[t] == j;
      }
    }
    IncreasingSize(ys, Columns(q));
  }

  function Range(n: nat): (r: set<nat>)
    ensures |r| == n && forall j: nat :: j in r <==> j < n
  {
    if n == 0 then {} else Range(n - 1) + {n - 1}
  }

  // ----- The whole computation -----

  /** `report` lists the indices `added`, as 1-indexed line numbers with their texts. */
  ghost predicate Reports(report: seq<AddedLine>, added: seq<nat>, newLines: seq<string>) {
    && |report| == |added|
    && forall i :: 0 <= i < |added| ==>
         added[i] < |newLines| && report[i] == AddedLine(added[i] + 1, newLines[added[i]])
  }

  function UpFrom(start: nat, len: nat): (r: seq<nat>)
    ensures |r| == len && forall i :: 0 <= i < len ==> r[i] == start + i
    ensures forall j: nat :: j in r <==> start <= j < start + len
  {
    if len == 0 then [] else UpFrom(start, len - 1) + [start + len - 1]
  }

  /** The matching of the whole texts that a matching of the trimmed middles extends to. */
  ghost function Untrimmed(q: seq<(nat, nat)>, start: nat, endOld: nat, endNew: nat, suffix: nat): seq<(nat, nat)> {
    Diagonal(start) + Shift(q, start, start) + Shift(Diagonal(suffix), endOld, endNew)
  }

  /** The trimmed ends of two texts are equal line by line. */
  ghost predicate Trimmed<T>(a: seq<T>, b: seq<T>, start: nat, endOld: nat, endNew: nat) {
    && start <= endOld <= |a| && start <= endNew <= |b| && |a| - endOld == |b| - endNew
    && a[..start] == b[..start] && a[endOld..] == b[endNew..]
  }

  lemma UntrimmedIsMatching<T>(a: seq<T>, b: seq<T>, start: nat, endOld: nat, endNew: nat, q: seq<(nat, nat)>)
    requires Trimmed(a, b, start, endOld, endNew)
    requires IsMatching(a[start..endOld], b[start..endNew], q)
    ensures IsMatching(a, b, Untrimmed(q, start, endOld, endNew, |a| - endOld))
  {
    var r := Untrimmed(q, start, endOld, endNew, |a| - endOld);
    assert forall t :: 0 <= t < start ==> r[t] == (t, t);
    assert forall t :: start <= t < start + |q| ==> r[t] == (q[t - start].0 + start, q[t - start].1 + start);
    assert forall t :: start + |q| <= t < |r| ==> r[t] == (t - start - |q| + endOld, t - start - |q| + endNew);
    forall t | 0 <= t < |r|
      ensures r[t].0 < |a| && r[t].1 < |b| && a[r[t].0] == b[r[t].1]
    {
      if t < start {
        assert a[..start][t] == b[..start][t];
      } else if t < start + |q| {
        var u := t - start;
        assert a[start..endOld][q[u].0] == b[start..endNew][q[u].1];
      } else {
        var u := t - start - |q|;
        assert a[endOld..][u] == b[endNew..][u];
      }
    }
    UntrimmedIncreases(a, b, start, endOld, endNew, q);
  }

  lemma UntrimmedIncreases<T>(a: seq<T>, b: seq<T>, start: nat, endOld: nat, endNew: nat, q: seq<(nat, nat)>)
    requires Trimmed(a, b, start, endOld, endNew)
    requires IsMatching(a[start..endOld], b[start..endNew], q)
    ensures var r := Untrimmed(q, start, endOld, endNew, |a| - endOld);
            forall s, t :: 0 <= s < t < |r| ==> r[s].0 < r[t].0 && r[s].1 < r[t].1
  {
    var r := Untrimmed(q, start, endOld, endNew, |a| - endOld);
    forall s, t | 0 <= s < t < |r|
      ensures r[s].0 < r[t].0 && r[s].1 < r[t].1
    {
      assert start <= s < start + |q| ==> r[s] == (q[s - start].0 + start, q[s - start].1 + start);
      assert start <= t < start + |q| ==> r[t] == (q[t - start].0 + start, q[t - start].1 + start);
    }
  }

  lemma UntrimmedColumns<T>(a: seq<T>, b: seq<T>, start: nat, endOld: nat, endNew: nat, q: seq<(nat, nat)>, j: nat)
    requires Trimmed(a, b, start, endOld, endNew)
    requires IsMatching(a[start..endOld], b[start..endNew], q)
    ensures j in Columns(Untrimmed(q, start, endOld, endNew, |a| - endOld)) <==>
            j < start || (start <= j && j - start in Columns(q)) || endNew <= j < |b|
  {
    var front, mid, back := Diagonal(start), Shift(q, start, start), Shift(Diagonal(|a| - endOld), endOld, endNew);
    ColumnsOfConcat(front + mid, back, j);
    ColumnsOfConcat(front, mid, j);
    ColumnsOfShift(q, start, start, j);
    ColumnsOfShift(Diagonal(|a| - endOld), endOld, endNew, j);
    ColumnsOfDiagonal(start, j);
    if endNew <= j {
      ColumnsOfDiagonal(|a| - endOld, j - endNew);
    }
  }

  lemma ColumnsOfConcat(p: seq<(nat, nat)>, q: seq<(nat, nat)>, j: nat)
    ensures j in Columns(p + q) <==> j in Columns(p) || j in Columns(q)
  {
    if j in Columns(p) {
      var t :| 0 <= t < |p| && p[t].1 == j;
      assert (p + q)[t].1 == j;
    }
    if j in Columns(q) {
      var t :| 0 <= t < |q| && q[t].1 == j;
      assert (p + q)[|p| + t].1 == j;
    }
  }

  lemma ColumnsOfShift(q: seq<(nat, nat)>, dx: nat, dy: nat, j: nat)
    ensures j in Columns(Shift(q, dx, dy)) <==> dy <= j && j - dy in Columns(q)
  {
    if dy <= j && j - dy in Columns(q) {
      var t :| 0 <= t < |q| && q[t].1 == j - dy;
      assert Shift(q, dx, dy)[t].1 == j;
    }
  }

  lemma ColumnsOfDiagonal(len: nat, j: nat)
    ensures j in Columns(Diagonal(len)) <==> j < len
  {
    if j < len {
      assert Diagonal(len)[j].1 == j;
    }
  }

  /** The complement of the extended matching is the shifted complement of the middle's matching. */
  lemma UntrimmedComplement<T>(a: seq<T>, b: seq<T>, start: nat, endOld: nat, endNew: nat, q: seq<(nat, nat)>,
                               mid: seq<nat>, added: seq<nat>)
    requires Trimmed(a, b, start, endOld, endNew)
    requires IsMatching(a[start..endOld], b[start..endNew], q) && IsComplement(mid, q, endNew - start)
    requires |added| == |mid| && forall i :: 0 <= i < |mid| ==> added[i] == start + mid[i]
    ensures IsComplement(added, Untrimmed(q, start, endOld, endNew, |a| - endOld), |b|)
  {
    var r := Untrimmed(q, start, endOld, endNew, |a| - endOld);
    forall j: nat
      ensures j in added <==> j < |b| && j !in Columns(r)
    {
      UntrimmedColumns(a, b, start, endOld, endNew, q, j);
      if j in added {
        var i :| 0 <= i < |added| && added[i] == j;
        assert mid[i] in mid;
      }
      if start <= j && j - start in mid {
        var i :| 0 <= i < |mid| && mid[i] == j - start;
        assert added[i] == j;
      }
    }
  }

  lemma UntrimmedLength<T>(a: seq<T>, b: seq<T>, start: nat, endOld: nat, endNew: nat, q: seq<(nat, nat)>)
    requires Trimmed(a, b, start, endOld, endNew)
    requires IsMatching(a[start..endOld], b[start..endNew], q) && |q| == Lcs(a[start..endOld], b[start..endNew])
    ensures |Untrimmed(q, start, endOld, endNew, |a| - endOld)| == Lcs(a, b)
  {
    LcsTrimmed(a[..start], a[start..endOld], b[start..endNew], a[endOld..]);
    assert a == a[..start] + a[start..endOld] + a[endOld..];
    assert b == b[..start] + b[start..endNew] + b[endNew..];
  }

  /** The scan for the common ends: a maximal common prefix, then a common suffix of the rest. */
  method Trim<T(==)>(a: seq<T>, b: seq<T>) returns (start: nat, endOld: nat, endNew: nat)
    ensures Trimmed(a, b, start, endOld, endNew)
    ensures start < |a| && start < |b| ==> a[start] != b[start]
  {
    start := 0;
    while start < |a| && start < |b| && a[start] == b[start]
      invariant start <= |a| && start <= |b| && a[..start] == b[..start]
    {
      assert a[..start + 1] == a[..start] + [a[start]] && b[..start + 1] == b[..start] + [b[start]];
      start := start + 1;
    }
    endOld, endNew := |a|, |b|;
    while endOld > start && endNew > start && a[endOld - 1] == b[endNew - 1]
      invariant Trimmed(a, b, start, endOld, endNew)
    {
      assert a[endOld - 1..] == [a[endOld - 1]] + a[endOld..] && b[endNew - 1..] == [b[endNew - 1]] + b[endNew..];
      endOld, endNew := endOld - 1, endNew - 1;
    }
  }

  /** The added lines of two sequences of lines: exactly the positions that a longest common
      subsequence leaves out, so |newLines| - Lcs(oldLines, newLines) of them. */
  method AddedIndices(oldLines: seq<string>, newLines: seq<string>) returns (added: seq<nat>, ghost q: seq<(nat, nat)>)
    ensures IsMatching(oldLines, newLines, q) && |q| == Lcs(oldLines, newLines)
    ensures IsComplement(added, q, |newLines|)
    ensures |added| == |newLines| - Lcs(oldLines, newLines)
  {
    var start, endOld, endNew := Trim(oldLines, newLines);
    var mid: seq<nat>, offset: nat;
    ghost var p: seq<(nat, nat)>;
    if start == |newLines| {
      mid, p := [], [];
      UntrimmedOfNothing(oldLines, newLines, start, endOld, endNew);
    } else if start == |oldLines| {
      mid, p := UpFrom(0, |newLines| - start), [];
      UntrimmedOfNothing(oldLines, newLines, start, endOld, endNew);
    } else {
      mid, p := MyersAddedIndices(oldLines[start..endOld], newLines[start..endNew]);
    }
    added := seq(|mid|, i requires 0 <= i < |mid| => start + mid[i]);
    q := Untrimmed(p, start, endOld, endNew, |oldLines| - endOld);
    UntrimmedIsMatching(oldLines, newLines, start, endOld, endNew, p);
    UntrimmedComplement(oldLines, newLines, start, endOld, endNew, p, mid, added);
    UntrimmedLength(oldLines, newLines, start, endOld, endNew, p);
    ComplementSize(oldLines, newLines, added, q);
  }

  /** When one text is used up by the common prefix, nothing is left to match. */
  lemma UntrimmedOfNothing<T>(a: seq<T>, b: seq<T>, start: nat, endOld: nat, endNew: nat)
    requires Trimmed(a, b, start, endOld, endNew) && (start == |a| || start == |b|)
    ensures start == endOld || start == endNew
    ensures Lcs(a[start..endOld], b[start..endNew]) == 0
    ensures start == |a| ==> endNew == |b|
  {
  }

  /** The lines of the new text that are inserted or replaced. No old text: every line. */
  method ComputeAddedLines(oldText: Option<string>, newText: string) returns (report: seq<AddedLine>)
    ensures oldText.None? ==> Reports(report, UpFrom(0, |LinesOf(newText)|), LinesOf(newText))
    ensures oldText.Some? ==>
      var oldLines, newLines := LinesOf(oldText.value), LinesOf(newText);
      && |report| == |newLines| - Lcs(oldLines, newLines)
      && exists added: seq<nat>, q: seq<(nat, nat)> ::
        && IsMatching(oldLines, newLines, q)
        && IsComplement(added, q, |newLines|) && Reports(report, added, newLines)
  {
    var newLines := Splitlines(newText);
    if oldText.None? {
      return seq(|newLines|, i requires 0 <= i < |newLines| => AddedLine(i + 1, newLines[i]));
    }
    var oldLines := Splitlines(oldText.value);
    var added, q := AddedIndices(oldLines, newLines);
    assert forall i :: 0 <= i < |added| ==> added[i] in added;
    report := seq(|added|, i requires 0 <= i < |added| => AddedLine(added[i] + 1, newLines[added[i]]));
    assert Reports(report, added, newLines);
  }
}
