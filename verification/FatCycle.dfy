/** The cycle detector of file reads: a cursor compared with an anchor that moves at powers of two. */
module FatCycle {
  import opened Geometry
  import opened FatDisk
  import opened FatChains

  function Pow2(k: nat): (p: nat)
    ensures p >= 1
  {
    if k == 0 then 1 else 2 * Pow2(k - 1)
  }

  lemma {:induction false} Pow2Grows(i: nat, k: nat)
    requires i < k
    ensures 2 * Pow2(i) <= Pow2(k)
  {
    if i < k - 1 { Pow2Grows(i, k - 1); }
  }

  /** The exponent of the largest power of two that is at most j. */
  function Log(j: nat): (k: nat)
    requires j >= 1
    ensures Pow2(k) <= j < 2 * Pow2(k)
  {
    if j == 1 then 0 else 1 + Log(j / 2)
  }

  lemma LogUnique(j: nat, k: nat)
    requires Pow2(k) <= j < 2 * Pow2(k)
    ensures Log(j) == k
  {
    if Log(j) < k { Pow2Grows(Log(j), k); }
    if k < Log(j) { Pow2Grows(k, Log(j)); }
  }

  /** The link with which the j-th link is compared. */
  function Anchor(j: nat): (a: nat)
    requires j >= 1
    ensures a < j
  {
    Pow2(Log(j)) - 1
  }

  /** The detector fires at the j-th link. */
  ghost predicate Fires(g: Geo, fat: seq<nat>, c: nat, j: nat)
    requires |fat| == g.count + 2
  {
    j >= 1 && Link(g, fat, c, j) == Link(g, fat, c, Anchor(j))
  }

  /** A tail of m clusters that runs into a cycle of n clusters. */
  ghost predicate Rho(g: Geo, fat: seq<nat>, c: nat, m: nat, n: nat)
    requires |fat| == g.count + 2
  {
    && n >= 1
    && (forall j :: 0 <= j < m + n ==> Valid(g, Link(g, fat, c, j)))
    && (forall i, j :: 0 <= i < j < m + n ==> Link(g, fat, c, i) != Link(g, fat, c, j))
    && Link(g, fat, c, m + n) == Link(g, fat, c, m)
  }

  /** A link's place on the tail or in the first turn of the cycle. */
  function Fold(m: nat, n: nat, j: nat): (r: nat)
    requires n >= 1
    ensures r < m + n && (j < m + n ==> r == j) && (j >= m ==> r >= m)
  {
    if j < m + n then j else Fold(m, n, j - n)
  }

  lemma {:induction false} FoldLink(g: Geo, fat: seq<nat>, c: nat, m: nat, n: nat, j: nat)
    requires |fat| == g.count + 2 && Rho(g, fat, c, m, n)
    ensures Link(g, fat, c, j) == Link(g, fat, c, Fold(m, n, j)) && Valid(g, Link(g, fat, c, j))
  {
    hide Link;
    if j >= m + n {
      LinkAdd(g, fat, c, m + n, j - m - n);
      LinkAdd(g, fat, c, m, j - m - n);
      FoldLink(g, fat, c, m, n, j - n);
    }
  }

  lemma {:induction false} FoldAdd(m: nat, n: nat, a: nat, d: nat)
    requires n >= 1
    ensures Fold(m, n, a + d) == Fold(m, n, Fold(m, n, a) + d)
  {
    if a >= m + n { FoldAdd(m, n, a - n, d); }
  }

  /** A link repeats after d more only on the cycle, and not before a whole turn. */
  lemma NoEarlyRepeat(g: Geo, fat: seq<nat>, c: nat, m: nat, n: nat, a: nat, d: nat)
    requires |fat| == g.count + 2 && Rho(g, fat, c, m, n) && d >= 1 && (a < m || d < n)
    ensures Link(g, fat, c, a + d) != Link(g, fat, c, a)
  {
    hide Link;
    FoldLink(g, fat, c, m, n, a);
    FoldLink(g, fat, c, m, n, a + d);
    FoldAdd(m, n, a, d);
  }

  lemma RepeatsAfterTurn(g: Geo, fat: seq<nat>, c: nat, m: nat, n: nat, a: nat)
    requires |fat| == g.count + 2 && Rho(g, fat, c, m, n) && a >= m
    ensures Link(g, fat, c, a + n) == Link(g, fat, c, a)
  {
    hide Link;
    LinkAdd(g, fat, c, m, a - m);
    LinkAdd(g, fat, c, m + n, a - m);
  }

  /** k is least with 2^k at least m + 1 and at least n. */
  ghost predicate Least(m: nat, n: nat, k: nat) {
    m + 1 <= Pow2(k) && n <= Pow2(k) && (k > 0 ==> Pow2(k - 1) < m + 1 || Pow2(k - 1) < n)
  }

  /** With a tail of m and a cycle of n clusters the detector first fires at link 2^k - 1 + n, for the least
      k with 2^k >= max(m + 1, n); that is within three times the clusters there are. */
  lemma FiresExactly(g: Geo, fat: seq<nat>, c: nat, m: nat, n: nat, k: nat)
    requires |fat| == g.count + 2 && n >= 1 && Rho(g, fat, c, m, n) && Least(m, n, k)
    ensures Fires(g, fat, c, Pow2(k) - 1 + n)
    ensures forall j: nat :: j < Pow2(k) - 1 + n ==> !Fires(g, fat, c, j)
    ensures Pow2(k) - 1 + n <= 3 * (m + n)
  {
    hide Link, Rho, Pow2, Log;
    LeastBound(m, n, k);
    LogUnique(Pow2(k) - 1 + n, k);
    RepeatsAfterTurn(g, fat, c, m, n, Pow2(k) - 1);
    forall j: nat | j < Pow2(k) - 1 + n ensures !Fires(g, fat, c, j) {
      if j >= 1 { FiresNotBefore(g, fat, c, m, n, k, j); }
    }
  }

  lemma LeastBound(m: nat, n: nat, k: nat)
    requires n >= 1 && Least(m, n, k)
    ensures Pow2(k) <= 2 * (m + n) + 1
  {
  }

  lemma FiresNotBefore(g: Geo, fat: seq<nat>, c: nat, m: nat, n: nat, k: nat, j: nat)
    requires |fat| == g.count + 2 && Rho(g, fat, c, m, n) && Least(m, n, k) && 1 <= j < Pow2(k) - 1 + n
    ensures !Fires(g, fat, c, j)
  {
    hide Link, Rho;
    var i, a := Log(j), Anchor(j);
    if i < k - 1 {
      Pow2Grows(i, k - 1);
    } else if i > k {
      Pow2Grows(k, i);
    }
    NoEarlyRepeat(g, fat, c, m, n, a, j - a);
  }

  lemma {:induction false} LeastExists(m: nat, n: nat, bound: nat) returns (k: nat)
    requires m + 1 <= Pow2(bound) && n <= Pow2(bound)
    ensures k <= bound && Least(m, n, k)
    decreases bound
  {
    if bound > 0 && m + 1 <= Pow2(bound - 1) && n <= Pow2(bound - 1) {
      k := LeastExists(m, n, bound - 1);
    } else {
      k := bound;
    }
  }

  lemma {:induction false} Pow2Unbounded(n: nat) returns (k: nat)
    ensures n <= Pow2(k)
  {
    if n == 0 { k := 0; } else { k := Pow2Unbounded(n - 1); k := k + 1; }
  }

  ghost predicate AllDistinct(g: Geo, fat: seq<nat>, c: nat, b: nat)
    requires |fat| == g.count + 2
  {
    forall i, j :: 0 <= i < j < b ==> Link(g, fat, c, i) != Link(g, fat, c, j)
  }

  function Upto(n: nat): (s: set<nat>)
    ensures |s| == n && forall x :: x in s <==> 2 <= x < n + 2
  {
    if n == 0 then {} else Upto(n - 1) + {n + 1}
  }

  ghost function Seen(g: Geo, fat: seq<nat>, c: nat, b: nat): set<nat>
    requires |fat| == g.count + 2
  {
    if b == 0 then {} else Seen(g, fat, c, b - 1) + {Link(g, fat, c, b - 1)}
  }

  lemma {:induction false} NotSeen(g: Geo, fat: seq<nat>, c: nat, b: nat, k: nat)
    requires |fat| == g.count + 2 && AllDistinct(g, fat, c, k + 1) && b <= k
    ensures Link(g, fat, c, k) !in Seen(g, fat, c, b)
  {
    hide Link;
    if b > 0 { NotSeen(g, fat, c, b - 1, k); }
  }

  lemma {:induction false} SeenValid(g: Geo, fat: seq<nat>, c: nat, b: nat)
    requires |fat| == g.count + 2 && forall j :: 0 <= j < b ==> Valid(g, Link(g, fat, c, j))
    ensures forall x :: x in Seen(g, fat, c, b) ==> Valid(g, x)
  {
    hide Link;
    if b > 0 { SeenValid(g, fat, c, b - 1); }
  }

  /** There are no more distinct valid links than clusters. */
  lemma {:induction false} Pigeonhole(g: Geo, fat: seq<nat>, c: nat, b: nat)
    requires |fat| == g.count + 2 && AllDistinct(g, fat, c, b)
    requires forall j :: 0 <= j < b ==> Valid(g, Link(g, fat, c, j))
    ensures |Seen(g, fat, c, b)| == b && b <= g.count
  {
    hide Link, Upto;
    if b > 0 {
      Pigeonhole(g, fat, c, b - 1);
      NotSeen(g, fat, c, b - 1, b - 1);
      SeenValid(g, fat, c, b);
      Subset(Seen(g, fat, c, b), Upto(g.count));
    }
  }

  lemma {:induction false} Subset(a: set<nat>, b: set<nat>)
    requires a <= b
    ensures |a| <= |b|
  {
    if a != {} {
      var x :| x in a;
      Subset(a - {x}, b - {x});
    }
  }

  /** Links that stay valid for long enough are a tail and a cycle. */
  lemma {:induction false} FirstRepeat(g: Geo, fat: seq<nat>, c: nat, b: nat) returns (m: nat, n: nat)
    requires |fat| == g.count + 2 && AllDistinct(g, fat, c, b)
    requires forall j :: 0 <= j <= g.count ==> Valid(g, Link(g, fat, c, j))
    requires b <= g.count + 1
    ensures n >= 1 && m + n <= g.count && Rho(g, fat, c, m, n)
    decreases g.count + 1 - b
  {
    Pigeonhole(g, fat, c, b);
    if i: nat :| i < b && Link(g, fat, c, i) == Link(g, fat, c, b) {
      m, n := i, b - i;
    } else {
      m, n := FirstRepeat(g, fat, c, b + 1);
    }
  }

  /** On every FAT content, from every start: within three times the cluster count, the links leave the
      valid clusters or the detector fires. */
  lemma ReadsEnd(g: Geo, fat: seq<nat>, c: nat) returns (j: nat)
    requires |fat| == g.count + 2
    ensures j <= 3 * g.count && (!Valid(g, Link(g, fat, c, j)) || Fires(g, fat, c, j))
  {
    if i: nat :| i <= g.count && !Valid(g, Link(g, fat, c, i)) {
      j := i;
    } else {
      var m, n := FirstRepeat(g, fat, c, 0);
      var bound := Pow2Unbounded(m + 1 + n);
      var k := LeastExists(m, n, bound);
      FiresExactly(g, fat, c, m, n, k);
      j := Pow2(k) - 1 + n;
    }
  }

  /** The detector does not fire on a chain that reaches its end mark. */
  lemma NoFalseAlarm(g: Geo, fat: seq<nat>, ch: seq<nat>, j: nat)
    requires TableOk(g, fat) && IsChain(g, fat, ch) && j < |ch|
    ensures !Fires(g, fat, ch[0], j)
  {
    if j >= 1 {
      ChainLinks(g, fat, ch, j);
      ChainLinks(g, fat, ch, Anchor(j));
      ChainDistinct(g, fat, ch, Anchor(j), j);
    }
  }
}
