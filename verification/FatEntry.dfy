/** Directory entries built and changed by the driver, and the files that such changes leave alone. */
module FatEntry {
  import opened Bytes
  import opened Geometry
  import opened FatCodec
  import opened FatDisk
  import opened FatChains
  import opened FatDir
  import opened FatName
  import opened FatLookup
  import opened FatTree
  import opened FatRead

  const FILE: Byte := 0x20
  const DIRECTORY: Byte := 0x10

  /** A fresh entry with a name and an attribute. */
  function FreshEntry(name: seq<Byte>, attr: Byte): (e: Slot)
    requires |name| == 11
    ensures |e| == SLOT && e[..11] == name && e[11] == attr && FirstCluster(Fat32, e) == 0 && SizeOf(e) == 0
  {
    name + [attr] + Zeros(20)
  }

  function SetCluster(k: Kind, e: Slot, c: nat): (r: Slot)
    requires |e| == SLOT
    ensures |r| == SLOT
  {
    Splice(Splice(e, 26, Bytes16(c)), 20, Bytes16(if k == Fat32 then c / 0x1_0000 else 0))
  }

  function SetSize(e: Slot, size: nat): (r: Slot)
    requires |e| == SLOT
    ensures |r| == SLOT
  {
    Splice(e, 28, Bytes32(size))
  }

  /** The cluster fields hold any cluster of the volume. */
  lemma ClusterSet(k: Kind, e: Slot, c: nat)
    requires |e| == SLOT && c < Range(k)
    ensures FirstCluster(k, SetCluster(k, e, c)) == c
    ensures SetCluster(k, e, c)[..12] == e[..12] && SizeOf(SetCluster(k, e, c)) == SizeOf(e)
  {
    hide Splice, Bytes16;
    var low := Bytes16(c);
    var high := Bytes16(if k == Fat32 then c / 0x1_0000 else 0);
    SpliceAt(e, 26, low);
    SpliceAt(Splice(e, 26, low), 20, high);
    var r := SetCluster(k, e, c);
    assert Le16(r, 26) == Le16(low, 0);
    assert Le16(r, 20) == Le16(high, 0);
  }

  lemma SizeSet(k: Kind, e: Slot, size: nat)
    requires |e| == SLOT && size < 0x1_0000_0000
    ensures SizeOf(SetSize(e, size)) == size && SetSize(e, size)[..12] == e[..12]
    ensures FirstCluster(k, SetSize(e, size)) == FirstCluster(k, e)
  {
    hide Splice, Bytes32;
    SpliceAt(e, 28, Bytes32(size));
    assert Le32(SetSize(e, size), 28) == Le32(Bytes32(size), 0);
  }

  /** The entry of a file after its bytes were written. */
  function FileEntry(k: Kind, e: Slot, c: nat, size: nat): (r: Slot)
    requires |e| == SLOT
    ensures |r| == SLOT
  {
    SetSize(SetCluster(k, e, c), size)
  }

  lemma FileEntryIs(k: Kind, e: Slot, c: nat, size: nat)
    requires |e| == SLOT && c < Range(k) && size < 0x1_0000_0000
    ensures var r := FileEntry(k, e, c, size);
      r[..12] == e[..12] && FirstCluster(k, r) == c && SizeOf(r) == size
    ensures var r := FileEntry(k, e, c, size);
      forall i :: 12 <= i < 20 || 22 <= i < 26 ==> r[i] == e[i]
  {
    SpliceAt(e, 26, Bytes16(c));
    SpliceAt(Splice(e, 26, Bytes16(c)), 20, Bytes16(if k == Fat32 then c / 0x1_0000 else 0));
    SpliceAt(SetCluster(k, e, c), 28, Bytes32(size));
    ClusterSet(k, e, c);
    SizeSet(k, SetCluster(k, e, c), size);
  }

  /** Files, other than those gone, whose clusters are as before. */
  ghost predicate FilesKept(t: Tree, m: Vol, after: Vol, gone: set<nat>) {
    && |after.fat| == |m.fat| && |after.data| == |m.data| == |m.fat|
    && forall c, x :: c in t.chains && c !in t.dirs && c !in gone && x in t.chains[c] && x < |m.fat| ==>
         after.fat[x] == m.fat[x] && after.data[x] == m.data[x]
  }

  /** The files of one tree, other than those gone, are files of the other with the same chains. */
  ghost predicate SameFiles(t: Tree, u: Tree, gone: set<nat>) {
    forall c :: c in t.chains && c !in t.dirs && c !in gone ==>
      c in u.chains && c !in u.dirs && u.chains[c] == t.chains[c]
  }

  lemma FilesKeptThen(t: Tree, u: Tree, m: Vol, mid: Vol, after: Vol, gone: set<nat>)
    requires FilesKept(t, m, mid, gone) && SameFiles(t, u, gone) && FilesKept(u, mid, after, {})
    ensures FilesKept(t, m, after, gone)
  {
  }

  /** Writing a slot of a directory keeps all files. */
  lemma PutKeepsFiles(g: Geo, m: Vol, after: Vol, t: Tree, d: nat, i: nat, e: Slot)
    requires Shape(g, m) && Shape(g, after) && Apart(t) && DirsOk(g, t) && d in t.dirs
    requires ListingOk(g, m, ChainOf(t, d)) && i < |Listing(g, m, ChainOf(t, d))|
    requires SlotPut(g, m, after, ChainOf(t, d), i, e)
    ensures FilesKept(t, m, after, {})
  {
    hide Listing, ListingOk, Full, FullCluster;
    forall c, x | c in t.chains && c !in t.dirs && x in t.chains[c] && x < |m.fat| ensures x !in ChainOf(t, d) {
      if d in t.chains { assert Disjoint(t.chains[c], t.chains[d]); }
    }
  }

  lemma GrowKeepsFiles(g: Geo, m: Vol, t: Tree, d: nat, c: nat)
    requires Shape(g, m) && TableOk(g, m.fat) && ChainsOk(g, m.fat, t) && Apart(t) && d in t.chains
    requires d in t.dirs && Valid(g, c) && m.fat[c] == 0
    ensures Valid(g, t.chains[d][|t.chains[d]| - 1])
    ensures FilesKept(t, m, Grown(g, m, t.chains[d], c), {}) && SameFiles(t, WithGrown(t, d, c), {})
  {
    hide IsChain, Grown, Full, FullCluster;
    GrownChains(g, m, t, d, c);
  }

  /** A name finds, in a directory of a well-formed volume, an entry whose file was kept: it reads as before. */
  lemma OutcomeKept(g: Geo, m: Vol, t: Tree, after: Vol, d: nat, now: seq<Slot>, gone: set<nat>, name: seq<Byte>,
                    max: nat)
    requires WellFormed(g, m, t, {}) && Shape(g, after) && FilesKept(t, m, after, gone) && d in t.dirs && SlotsOk(now)
    requires |name| == 11 && name[0] != DOT && FindFrom(now, name, 0) == FindFrom(DirOf(g, m, t, d), name, 0)
    requires var r := FindFrom(now, name, 0);
      r.Found? ==>
        && now[r.i] == DirOf(g, m, t, d)[r.i]
        && (FirstCluster(g.kind, now[r.i]) != 0 ==> FirstCluster(g.kind, now[r.i]) !in gone)
    ensures ReadOutcome(g, after, now, name, max) == ReadOutcome(g, m, DirOf(g, m, t, d), name, max)
  {
    hide DirOf, IsChain, Full, FullCluster, FileOutcome, FirstCluster, IsDirectory, ZeroTail, VolumeId;
    var dir := DirOf(g, m, t, d);
    var r := FindFrom(dir, name, 0);
    if r.Found? && !IsDirectory(dir[r.i]) {
      var e := dir[r.i];
      assert e[..11][0] == e[0];
      assert Object(e) && EntryOk(g, t, d, r.i, e);
      var c := FirstCluster(g.kind, e);
      if c == 0 {
        NoFileSame(g, m, after, c, SizeOf(e));
      } else {
        FileSame(g, m, after, t.chains[c], SizeOf(e));
      }
    }
  }


  /** The entry of a new file, byte by byte. */
  lemma FileBytesAre(k: Kind, name: seq<Byte>, c: nat, size: nat)
    requires |name| == 11 && c < Range(k) && size < 0x1_0000_0000
    ensures var e := FileEntry(k, FreshEntry(name, FILE), c, size);
      && e[..11] == name && e[11] == 0x20 && (forall i :: 12 <= i < 20 || 22 <= i < 26 ==> e[i] == 0)
      && e[26] == c % 0x100 && e[27] == c / 0x100 % 0x100
      && (if k == Fat32 then e[20] == c / 0x1_0000 % 0x100 && e[21] == c / 0x100_0000 else e[20] == e[21] == 0)
      && e[28] == size % 0x100 && e[29] == size / 0x100 % 0x100 && e[30] == size / 0x1_0000 % 0x100
      && e[31] == size / 0x100_0000
  {
    hide Splice;
    var f := FreshEntry(name, FILE);
    var low, high := Bytes16(c), Bytes16(if k == Fat32 then c / 0x1_0000 else 0);
    SpliceAt(f, 26, low);
    SpliceAt(Splice(f, 26, low), 20, high);
    SpliceAt(SetCluster(k, f, c), 28, Bytes32(size));
    var e := FileEntry(k, f, c, size);
    FileEntryIs(k, f, c, size);
    assert e[..11] == e[..12][..11] && e[11] == e[..12][11] && f[..11] == f[..12][..11];
  }
}
