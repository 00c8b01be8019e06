/** Looking a name up in a directory, and finding or making room for a new entry. */
module FatLookup {
  import opened Bytes
  import opened Geometry
  import opened FatDisk
  import opened FatChains
  import opened FatVolume
  import opened FatSpace
  import opened FatWrite
  import opened FatDir
  import opened FatName

  predicate VolumeId(e: Slot)
    requires |e| == SLOT
  {
    e[11] / 8 % 2 == 1
  }

  predicate IsDirectory(e: Slot)
    requires |e| == SLOT
  {
    e[11] / 16 % 2 == 1
  }

  /** An entry that lookups consider. */
  predicate Visible(e: Slot)
    requires |e| == SLOT
  {
    e[0] != 0 && e[0] != DELETED && !VolumeId(e)
  }

  predicate Matches(e: Slot, name: seq<Byte>)
    requires |e| == SLOT
  {
    Visible(e) && e[..11] == name
  }

  ghost predicate SlotsOk(dir: seq<Slot>) {
    forall i :: 0 <= i < |dir| ==> |dir[i]| == SLOT
  }

  datatype Search = Missing | Found(i: nat)

  /** The first match from slot i on, before the end mark and among the slots that are looked at. */
  function FindFrom(dir: seq<Slot>, name: seq<Byte>, i: nat): (r: Search)
    requires SlotsOk(dir)
    ensures r.Found? ==> i <= r.i < |dir| && r.i < MAX_SLOTS && Matches(dir[r.i], name)
    ensures r.Found? ==> forall j :: i <= j < r.i ==> dir[j][0] != 0 && !Matches(dir[j], name)
    decreases |dir| - i
  {
    if i >= MAX_SLOTS || i >= |dir| || dir[i][0] == 0 then Missing
    else if Matches(dir[i], name) then Found(i)
    else FindFrom(dir, name, i + 1)
  }

  /** Room for an entry: a free slot, growth at the directory's end, or none. */
  datatype Room = At(i: nat) | GrowAt(i: nat) | NoRoom

  function RoomFrom(dir: seq<Slot>, i: nat): (r: Room)
    requires SlotsOk(dir) && i <= |dir|
    ensures r.At? ==> i <= r.i < |dir| && r.i < MAX_SLOTS && (dir[r.i][0] == 0 || dir[r.i][0] == DELETED)
    ensures r.At? ==> forall j :: i <= j < r.i ==> dir[j][0] != 0 && dir[j][0] != DELETED
    ensures r.GrowAt? ==>
      r.i == |dir| < MAX_SLOTS && forall j :: i <= j < r.i ==> dir[j][0] != 0 && dir[j][0] != DELETED
    decreases |dir| - i
  {
    if i >= MAX_SLOTS then NoRoom
    else if i == |dir| then GrowAt(i)
    else if dir[i][0] == 0 || dir[i][0] == DELETED then At(i)
    else RoomFrom(dir, i + 1)
  }

  /** Finds an entry by name. */
  method FindEntry(v: Volume, dir: nat, name: seq<Byte>, ghost ch: seq<nat>) returns (r: Search, e: Slot)
    requires v.Ok() && Located(v.g, v.View(), dir, ch) && ListingOk(v.g, v.View(), ch)
    ensures r == FindFrom(Listing(v.g, v.View(), ch), Sfn(name), 0)
    ensures r.Found? ==> e == Listing(v.g, v.View(), ch)[r.i]
  {
    hide v.Ok, v.View, Listing, Located, Sfn, ListingOk, VolumeId;
    var i := 0;
    r, e := Missing, [];
    while i < MAX_SLOTS
      invariant 0 <= i <= MAX_SLOTS
      invariant FindFrom(Listing(v.g, v.View(), ch), Sfn(name), 0) == FindFrom(Listing(v.g, v.View(), ch), Sfn(name), i)
    {
      var x := DirRead(v, dir, i, ch);
      if x == NoSlot || x.e[0] == 0 { return; }
      if x.e[0] != DELETED && !VolumeId(x.e) {
        var sfn := MakeSfn(name);
        if x.e[..11] == sfn { return Found(i), x.e; }
      }
      i := i + 1;
    }
  }

  /** The last cluster of a chain, on which no link is below 2. */
  method LastOf(v: Volume, first: nat, ghost ch: seq<nat>) returns (c: nat)
    requires v.Ok() && IsChain(v.g, v.View().fat, ch) && ch[0] == first
    ensures c == ch[|ch| - 1] && Valid(v.g, c)
  {
    hide v.Ok, v.View, Shape;
    c := first;
    ghost var k := 0;
    while true
      invariant 0 <= k < |ch| && c == ch[k]
      decreases |ch| - k
    {
      var next := v.FatGet(c);
      assert k < |ch| - 1 ==> next == ch[k + 1] && Valid(v.g, next);
      if IsEoc(v.g.kind, next) { return; }
      c, k := next, k + 1;
    }
  }

  /** The volume after a directory got another cluster. */
  function Grown(g: Geo, m: Vol, ch: seq<nat>, c: nat): Vol
    requires |m.reserved| == g.reserved && Full(m.reserved) && c < |m.fat| && c < |m.data| && ch != []
    requires ch[|ch| - 1] < |m.fat|
  {
    PutFat(Alloc(g, m, c), ch[|ch| - 1], c)
  }

  /** Finds a slot for a new entry, with another cluster for the directory if it is full. */
  method FreeEntryIndex(v: Volume, dir: nat, ghost ch: seq<nat>) returns (room: Room, ghost c: nat)
    requires v.Ok() && Located(v.g, v.View(), dir, ch) && ListingOk(v.g, v.View(), ch)
    modifies v`disk
    ensures v.Ok()
    ensures room == NoRoom || room == RoomFrom(Listing(v.g, old(v.View()), ch), 0)
    ensures !room.GrowAt? ==> v.View() == old(v.View())
    ensures room.GrowAt? ==> ch != [] && Valid(v.g, ch[|ch| - 1]) && Valid(v.g, c) && old(v.View()).fat[c] == 0
    ensures room.GrowAt? ==> c == FirstFree(v.g, old(v.View()).fat, 2) && v.View() == Grown(v.g, old(v.View()), ch, c)
    ensures room == NoRoom ==> !RoomFrom(Listing(v.g, old(v.View()), ch), 0).At?
    ensures room == NoRoom && RoomFrom(Listing(v.g, old(v.View()), ch), 0) != NoRoom ==>
      ch == [] || ZeroSet(v.View().fat) == {}
  {
    hide v.Ok, v.View, Listing, Located, ListingOk, Full, FullCluster, Alloc, FirstFree;
    LocatedOk(v.g, v.View(), dir, ch);
    var i := 0;
    c := 0;
    while i < MAX_SLOTS
      invariant v.Ok() && v.View() == old(v.View()) && 0 <= i <= MAX_SLOTS && i <= |Listing(v.g, v.View(), ch)|
      invariant RoomFrom(Listing(v.g, v.View(), ch), 0) == RoomFrom(Listing(v.g, v.View(), ch), i)
    {
      var x := DirRead(v, dir, i, ch);
      if x == NoSlot {
        room, c := Grow(v, dir, i, ch);
        return;
      }
      if x.e[0] == 0 || x.e[0] == DELETED { return At(i), 0; }
      i := i + 1;
    }
    room := NoRoom;
  }

  /** Appends a cluster to a directory that is a chain. */
  method Grow(v: Volume, dir: nat, i: nat, ghost ch: seq<nat>) returns (room: Room, ghost c: nat)
    requires v.Ok() && Located(v.g, v.View(), dir, ch) && ListingOk(v.g, v.View(), ch)
    modifies v`disk
    ensures v.Ok() && (room == NoRoom || room == GrowAt(i))
    ensures room == NoRoom ==> v.View() == old(v.View()) && (ch == [] || ZeroSet(v.View().fat) == {})
    ensures room != NoRoom ==> ch != [] && Valid(v.g, ch[|ch| - 1]) && Valid(v.g, c) && old(v.View()).fat[c] == 0
    ensures room != NoRoom ==> c == FirstFree(v.g, old(v.View()).fat, 2) && v.View() == Grown(v.g, old(v.View()), ch, c)
  {
    hide v.Ok, v.View, Listing, Alloc, IsChain, FirstFree;
    LocatedOk(v.g, v.View(), dir, ch);
    c := 0;
    if dir == 0 && v.g.kind != Fat32 { return NoRoom, 0; }
    var last := LastOf(v, if dir != 0 then dir else v.g.rootCluster, ch);
    var added := AllocCluster(v);
    if added == 0 {
      NoneFree(v.g, v.View().fat);
      return NoRoom, 0;
    }
    v.FatSet(last, added);
    room, c := GrowAt(i), added;
  }


  /** Where a new entry goes: into the first free slot among those looked at, behind the last slot if none is free, and
      nowhere if that is not looked at either. */
  lemma {:induction false} RoomExactly(dir: seq<Slot>, i: nat)
    requires SlotsOk(dir) && i <= |dir| && i <= MAX_SLOTS
    ensures var n, r := if |dir| < MAX_SLOTS then |dir| else MAX_SLOTS, RoomFrom(dir, i);
      && (r.At? <==> exists j :: i <= j < n && (dir[j][0] == 0 || dir[j][0] == DELETED))
      && (r == NoRoom <==> n == MAX_SLOTS && forall j :: i <= j < n ==> dir[j][0] != 0 && dir[j][0] != DELETED)
    decreases |dir| - i
  {
    if i < |dir| && i < MAX_SLOTS && dir[i][0] != 0 && dir[i][0] != DELETED { RoomExactly(dir, i + 1); }
  }

  /** What a lookup considers: entries in use that are neither a volume label nor a piece of a long name. */
  lemma VisibleEntries(e: Slot)
    requires |e| == SLOT
    ensures Visible(e) <==> e[0] != 0 && e[0] != 0xE5 && e[11] % 16 < 8
    ensures e[11] == 0x0F || e[11] == 0x08 ==> !Visible(e)
    ensures IsDirectory(e) <==> e[11] % 32 >= 16
  {
    Bits(e[11] as nat);
  }

  lemma Bits(x: nat)
    ensures (x / 8 % 2 == 1 <==> x % 16 >= 8) && (x / 16 % 2 == 1 <==> x % 32 >= 16)
  {
    Bit3(x, x / 16, x % 16);
    Bit4(x, x / 32, x % 32);
  }

  lemma Bit3(x: nat, q: nat, r: nat)
    requires x == 16 * q + r && r < 16
    ensures x / 8 % 2 == 1 <==> r >= 8
  {
    if r < 8 { assert x / 8 == 2 * q; } else { assert x / 8 == 2 * q + 1; }
  }

  lemma Bit4(x: nat, q: nat, r: nat)
    requires x == 32 * q + r && r < 32
    ensures x / 16 % 2 == 1 <==> r >= 16
  {
    if r < 16 { assert x / 16 == 2 * q; } else { assert x / 16 == 2 * q + 1; }
  }
}
