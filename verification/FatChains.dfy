/** Chains of clusters: freeing them, on any FAT content, and growing them. */
module FatChains {
  import opened Geometry
  import opened FatCodec
  import opened FatDisk

  /** A table with an entry for every cluster. */
  ghost predicate TableOk(g: Geo, fat: seq<nat>) {
    |fat| == g.count + 2 && g.count + 2 <= Range(g.kind) - 9
  }

  /** What the k-th link from a cluster says; 0 once a link has left the valid clusters. */
  function Link(g: Geo, fat: seq<nat>, c: nat, k: nat): nat
    requires |fat| == g.count + 2
  {
    if k == 0 then c
    else
      var p := Link(g, fat, c, k - 1);
      if Valid(g, p) then fat[p] else 0
  }

  /** A valid cluster that links lead to. */
  ghost predicate Reaches(g: Geo, fat: seq<nat>, c: nat, x: nat)
    requires |fat| == g.count + 2
  {
    Valid(g, x) && exists k: nat :: Link(g, fat, c, k) == x
  }

  function ZeroSet(fat: seq<nat>): set<nat> {
    set c: nat | 2 <= c < |fat| && fat[c] == 0
  }

  function NonZero(fat: seq<nat>): (r: set<nat>) {
    set c: nat | 2 <= c < |fat| && fat[c] != 0
  }

  /** The driver's loop: zero an entry, go on to what it linked to. */
  function FreeChain(g: Geo, fat: seq<nat>, c: nat): (r: seq<nat>)
    requires |fat| == g.count + 2
    ensures |r| == |fat|
    decreases NonZero(fat)
  {
    if !Valid(g, c) then fat
    else if !Valid(g, fat[c]) then fat[c := 0]
    else
      assert NonZero(fat[c := 0]) < NonZero(fat) by { assert c in NonZero(fat); }
      FreeChain(g, fat[c := 0], fat[c])
  }

  /** The rounds that loop makes. */
  function FreeRounds(g: Geo, fat: seq<nat>, c: nat): nat
    requires |fat| == g.count + 2
    decreases NonZero(fat)
  {
    if !Valid(g, c) then 0
    else if !Valid(g, fat[c]) then 1
    else
      assert NonZero(fat[c := 0]) < NonZero(fat) by { assert c in NonZero(fat); }
      1 + FreeRounds(g, fat[c := 0], fat[c])
  }

  /** The loop ends at an entry that was zero already, or that it zeroed itself. */
  predicate EndsOnZero(g: Geo, fat: seq<nat>, c: nat)
    requires |fat| == g.count + 2
    decreases NonZero(fat)
  {
    Valid(g, c) && (fat[c] == 0 || (Valid(g, fat[c]) &&
      (assert NonZero(fat[c := 0]) < NonZero(fat) by { assert c in NonZero(fat); }
       EndsOnZero(g, fat[c := 0], fat[c]))))
  }

  lemma {:induction false} LinkAdd(g: Geo, fat: seq<nat>, c: nat, j: nat, k: nat)
    requires |fat| == g.count + 2
    ensures Link(g, fat, Link(g, fat, c, j), k) == Link(g, fat, c, j + k)
  {
    if k > 0 { LinkAdd(g, fat, c, j, k - 1); }
  }

  /** Once the links leave the valid clusters they stay out. */
  lemma {:induction false} ValidBefore(g: Geo, fat: seq<nat>, c: nat, j: nat, k: nat)
    requires |fat| == g.count + 2 && j <= k && Valid(g, Link(g, fat, c, k))
    ensures Valid(g, Link(g, fat, c, j))
  {
    if j < k { ValidBefore(g, fat, c, j, k - 1); }
  }

  /** Zeroing an entry only removes links. */
  lemma {:induction false} LinksKept(g: Geo, fat: seq<nat>, a: nat, c: nat, k: nat)
    requires |fat| == g.count + 2 && Valid(g, c) && Valid(g, Link(g, fat[c := 0], a, k))
    ensures Link(g, fat, a, k) == Link(g, fat[c := 0], a, k)
  {
    if k > 0 {
      ValidBefore(g, fat[c := 0], a, k - 1, k);
      LinksKept(g, fat, a, c, k - 1);
    }
  }

  /** Links that avoid the zeroed entry are kept. */
  lemma {:induction false} LinksAvoiding(g: Geo, fat: seq<nat>, a: nat, c: nat, k: nat)
    requires |fat| == g.count + 2 && Valid(g, c) && forall j: nat :: j < k ==> Link(g, fat, a, j) != c
    ensures Link(g, fat[c := 0], a, k) == Link(g, fat, a, k)
  {
    if k > 0 { LinksAvoiding(g, fat, a, c, k - 1); }
  }

  /** What can be reached after c can be reached without going through c again. */
  lemma {:induction false} ReachedWithout(g: Geo, fat: seq<nat>, c: nat, x: nat, k: nat)
    requires |fat| == g.count + 2 && Valid(g, c) && Valid(g, fat[c]) && Valid(g, x) && Link(g, fat, fat[c], k) == x
    ensures x == c || Reaches(g, fat[c := 0], fat[c], x)
    decreases k
  {
    if j: nat :| j < k && Link(g, fat, fat[c], j) == c {
      LinkAdd(g, fat, fat[c], j, k - j);
      LinkAdd(g, fat, c, 1, k - j - 1);
      ReachedWithout(g, fat, c, x, k - j - 1);
    } else {
      LinksAvoiding(g, fat, fat[c], c, k);
    }
  }

  /** Reaching from c is being c or reaching from what c links to. */
  lemma ReachesStep(g: Geo, fat: seq<nat>, c: nat, x: nat)
    requires |fat| == g.count + 2 && Valid(g, c) && Valid(g, fat[c])
    ensures Reaches(g, fat, c, x) <==> (x == c || Reaches(g, fat[c := 0], fat[c], x))
  {
    assert Link(g, fat, c, 0) == c && Link(g, fat, c, 1) == fat[c];
    if Reaches(g, fat, c, x) && x != c {
      var k: nat :| Link(g, fat, c, k) == x;
      LinkAdd(g, fat, c, 1, k - 1);
      ReachedWithout(g, fat, c, x, k - 1);
    }
    if Reaches(g, fat[c := 0], fat[c], x) {
      var k: nat :| Link(g, fat[c := 0], fat[c], k) == x;
      LinksKept(g, fat, fat[c], c, k);
      LinkAdd(g, fat, c, 1, k);
      assert Link(g, fat, c, 1 + k) == x;
    }
  }

  lemma ReachesLast(g: Geo, fat: seq<nat>, c: nat, x: nat)
    requires |fat| == g.count + 2 && (!Valid(g, c) || !Valid(g, fat[c]))
    ensures Reaches(g, fat, c, x) <==> x == c && Valid(g, c)
  {
    assert Link(g, fat, c, 0) == c && Link(g, fat, c, 1) == if Valid(g, c) then fat[c] else 0;
    if Reaches(g, fat, c, x) {
      var k: nat :| Link(g, fat, c, k) == x;
      if k > 0 { ValidBefore(g, fat, c, 1, k); }
    }
  }

  /** On every FAT content, cyclic or corrupt, exactly the valid clusters reached from the start are zeroed. */
  lemma {:induction false} FreesExactlyReached(g: Geo, fat: seq<nat>, c: nat)
    requires |fat| == g.count + 2
    ensures forall x :: 0 <= x < |fat| ==> FreeChain(g, fat, c)[x] == if Reaches(g, fat, c, x) then 0 else fat[x]
    decreases NonZero(fat)
  {
    if !Valid(g, c) || !Valid(g, fat[c]) {
      forall x: nat ensures Reaches(g, fat, c, x) <==> x == c && Valid(g, c) { ReachesLast(g, fat, c, x); }
    } else {
      assert NonZero(fat[c := 0]) < NonZero(fat) by { assert c in NonZero(fat); }
      FreesExactlyReached(g, fat[c := 0], fat[c]);
      forall x: nat
        ensures Reaches(g, fat, c, x) <==> (x == c || Reaches(g, fat[c := 0], fat[c], x))
      {
        ReachesStep(g, fat, c, x);
      }
    }
  }

  lemma ZeroOne(g: Geo, fat: seq<nat>, c: nat)
    requires |fat| == g.count + 2 && Valid(g, c)
    ensures |ZeroSet(fat[c := 0])| == |ZeroSet(fat)| + if fat[c] == 0 then 0 else 1
  {
    if fat[c] == 0 {
      assert fat[c := 0] == fat;
    } else {
      assert c !in ZeroSet(fat);
      assert ZeroSet(fat[c := 0]) == ZeroSet(fat) + {c};
    }
  }

  /** The loop makes one round per entry it frees, and one more exactly when it ends on a zero entry. */
  lemma {:induction false} RoundsCountFreed(g: Geo, fat: seq<nat>, c: nat)
    requires |fat| == g.count + 2
    ensures |ZeroSet(FreeChain(g, fat, c))| + (if EndsOnZero(g, fat, c) then 1 else 0) ==
      |ZeroSet(fat)| + FreeRounds(g, fat, c)
    decreases NonZero(fat)
  {
    if Valid(g, c) {
      ZeroOne(g, fat, c);
      if Valid(g, fat[c]) {
        assert NonZero(fat[c := 0]) < NonZero(fat) by { assert c in NonZero(fat); }
        RoundsCountFreed(g, fat[c := 0], fat[c]);
      }
    }
  }

  /** A start whose links end properly: in an entry that is neither a link nor zero. */
  ghost predicate EndsProperly(g: Geo, fat: seq<nat>, c: nat)
    requires |fat| == g.count + 2
  {
    exists x: nat :: Reaches(g, fat, c, x) && !Valid(g, fat[x]) && fat[x] != 0
  }

  /** The extra round is made exactly for a valid start whose links run into a cycle or a free cluster. */
  lemma {:induction false} ExtraRoundExactly(g: Geo, fat: seq<nat>, c: nat)
    requires |fat| == g.count + 2
    ensures EndsOnZero(g, fat, c) <==> Valid(g, c) && !EndsProperly(g, fat, c)
    decreases NonZero(fat)
  {
    if !Valid(g, c) || !Valid(g, fat[c]) {
      forall x: nat ensures Reaches(g, fat, c, x) <==> x == c && Valid(g, c) { ReachesLast(g, fat, c, x); }
    } else {
      var t := fat[c := 0];
      assert NonZero(t) < NonZero(fat) by { assert c in NonZero(fat); }
      ExtraRoundExactly(g, t, fat[c]);
      forall x: nat
        ensures Reaches(g, fat, c, x) <==> (x == c || Reaches(g, t, fat[c], x))
      {
        ReachesStep(g, fat, c, x);
      }
      if x: nat :| Reaches(g, t, fat[c], x) && !Valid(g, t[x]) && t[x] != 0 {
        assert Reaches(g, fat, c, x) && !Valid(g, fat[x]) && fat[x] != 0;
      }
      if x: nat :| Reaches(g, fat, c, x) && !Valid(g, fat[x]) && fat[x] != 0 {
        assert Reaches(g, t, fat[c], x) && !Valid(g, t[x]) && t[x] != 0;
      }
    }
  }

  /** A chain of a file or directory: valid clusters, each linked to the next, the last to the end mark. */
  ghost predicate IsChain(g: Geo, fat: seq<nat>, ch: seq<nat>)
    requires |fat| == g.count + 2
  {
    && |ch| > 0 && (forall i :: 0 <= i < |ch| ==> Valid(g, ch[i]))
    && (forall i :: 0 <= i < |ch| - 1 ==> fat[ch[i]] == ch[i + 1])
    && IsEoc(g.kind, fat[ch[|ch| - 1]])
  }

  lemma {:induction false} ChainLinks(g: Geo, fat: seq<nat>, ch: seq<nat>, k: nat)
    requires TableOk(g, fat) && IsChain(g, fat, ch)
    ensures k < |ch| ==> Link(g, fat, ch[0], k) == ch[k]
    ensures k >= |ch| ==> !Valid(g, Link(g, fat, ch[0], k))
  {
    if k > 0 { ChainLinks(g, fat, ch, k - 1); }
  }

  /** A chain that reaches its end mark cannot repeat a cluster. */
  lemma ChainDistinct(g: Geo, fat: seq<nat>, ch: seq<nat>, i: nat, j: nat)
    requires TableOk(g, fat) && IsChain(g, fat, ch) && i < j < |ch|
    ensures ch[i] != ch[j]
  {
    if ch[i] == ch[j] {
      var d := |ch| - 1 - j;
      ChainLinks(g, fat, ch, i);
      ChainLinks(g, fat, ch, j);
      LinkAdd(g, fat, ch[0], i, d + 1);
      LinkAdd(g, fat, ch[0], j, d + 1);
      ChainLinks(g, fat, ch, i + d + 1);
      ChainLinks(g, fat, ch, |ch|);
    }
  }

  /** Freeing a chain zeroes exactly its clusters, in as many rounds, and ends properly. */
  lemma FreesChain(g: Geo, fat: seq<nat>, ch: seq<nat>)
    requires TableOk(g, fat) && IsChain(g, fat, ch)
    ensures forall x :: 0 <= x < |fat| ==> FreeChain(g, fat, ch[0])[x] == if x in ch then 0 else fat[x]
    ensures !EndsOnZero(g, fat, ch[0])
  {
    FreesExactlyReached(g, fat, ch[0]);
    forall x: nat ensures Reaches(g, fat, ch[0], x) <==> x in ch {
      if Reaches(g, fat, ch[0], x) {
        var k: nat :| Link(g, fat, ch[0], k) == x;
        ChainLinks(g, fat, ch, k);
      }
      if x in ch {
        var k: nat :| k < |ch| && ch[k] == x;
        ChainLinks(g, fat, ch, k);
      }
    }
    ExtraRoundExactly(g, fat, ch[0]);
    var z := ch[|ch| - 1];
    assert Reaches(g, fat, ch[0], z) && !Valid(g, fat[z]) && fat[z] != 0;
  }

  /** The clusters of a chain are not free. */
  lemma ChainInUse(g: Geo, fat: seq<nat>, ch: seq<nat>)
    requires TableOk(g, fat) && IsChain(g, fat, ch)
    ensures forall x :: x in ch ==> Valid(g, x) && fat[x] != 0
  {
    forall i | 0 <= i < |ch| ensures fat[ch[i]] != 0 {
      if i < |ch| - 1 { assert fat[ch[i]] == ch[i + 1]; }
    }
  }

  /** A free cluster lies on no chain. */
  lemma FreeOffChain(g: Geo, fat: seq<nat>, ch: seq<nat>, c: nat)
    requires TableOk(g, fat) && IsChain(g, fat, ch) && Valid(g, c) && fat[c] == 0
    ensures c !in ch && fat[ch[|ch| - 1]] != 0
  {
    ChainInUse(g, fat, ch);
  }

  /** The table after a free cluster is linked to the end of a chain. */
  function Linked(g: Geo, fat: seq<nat>, ch: seq<nat>, c: nat): seq<nat>
    requires c < |fat| && |ch| > 0 && ch[|ch| - 1] < |fat|
  {
    fat[c := Eoc(g.kind)][ch[|ch| - 1] := c]
  }

  /** A chain can be grown by a free cluster. */
  lemma ChainGrows(g: Geo, fat: seq<nat>, ch: seq<nat>, c: nat)
    requires TableOk(g, fat) && IsChain(g, fat, ch) && Valid(g, c) && fat[c] == 0
    ensures IsChain(g, Linked(g, fat, ch, c), ch + [c])
  {
    FreeOffChain(g, fat, ch, c);
    var t, d, n := Linked(g, fat, ch, c), ch + [c], |ch|;
    forall i | 0 <= i < n ensures t[d[i]] == d[i + 1] {
      if i < n - 1 { ChainDistinct(g, fat, ch, i, n - 1); }
    }
  }
}
