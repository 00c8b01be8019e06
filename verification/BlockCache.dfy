/** The write-through sector cache over one ATA drive. */
module BlockCache {
  import opened Bytes

  type Sector = seq<Byte>

  datatype Entry = Entry(valid: bool, lba: nat, age: nat, data: Sector)

  const EMPTY := Entry(false, 0, 0, [])
  const WRAP: nat := 0x1_0000_0000

  /** What a sector transfer to the drive comes to. A write can fail before the data reaches the drive,
      or after, while waiting for the drive to finish. */
  datatype Transfer = Done | FailedBefore | FailedAfter

  datatype ReadResult = Failed | Read(data: Sector)

  /** The drive after a write. */
  function Written(disk: map<nat, Sector>, lba: nat, data: Sector, t: Transfer): map<nat, Sector> {
    if t == FailedBefore then disk else disk[lba := data]
  }

  /** Every valid entry, but for stale sectors, holds what the drive holds, and no sector is held twice. */
  ghost predicate Coherent(entries: seq<Entry>, disk: map<nat, Sector>, stale: set<nat>) {
    && (forall i :: 0 <= i < |entries| && entries[i].valid ==>
          entries[i].lba in disk && (entries[i].lba in stale || entries[i].data == disk[entries[i].lba]))
    && (forall i, j :: 0 <= i < j < |entries| && entries[i].valid && entries[j].valid ==>
          entries[i].lba != entries[j].lba)
  }

  /** The last place a sector occurs in the list of accesses, counted from 1; 0 if it does not. */
  function LastUse(history: seq<nat>, lba: nat): (k: nat)
    ensures k <= |history|
  {
    if history == [] then 0
    else if history[|history| - 1] == lba then |history|
    else LastUse(history[..|history| - 1], lba)
  }

  lemma LastUseMore(history: seq<nat>, lba: nat, x: nat)
    ensures LastUse(history + [x], lba) == if lba == x then |history| + 1 else LastUse(history, lba)
  {
    assert (history + [x])[..|history|] == history;
  }

  /** Until the counter wraps, ages are the order of the last accesses. */
  ghost predicate AgesOk(entries: seq<Entry>, clock: nat, history: seq<nat>) {
    |history| + 1 < WRAP ==>
      && clock == |history| + 1
      && forall i :: 0 <= i < |entries| && entries[i].valid ==> entries[i].age == LastUse(history, entries[i].lba)
  }

  function FindEntry(entries: seq<Entry>, lba: nat, k: nat): (i: nat)
    requires k <= |entries|
    ensures k <= i <= |entries|
    ensures i < |entries| ==> entries[i].valid && entries[i].lba == lba
    ensures forall j :: k <= j < i ==> !(entries[j].valid && entries[j].lba == lba)
    decreases |entries| - k
  {
    if k == |entries| then k
    else if entries[k].valid && entries[k].lba == lba then k
    else FindEntry(entries, lba, k + 1)
  }

  /** No entry holds the sector with other data. */
  ghost predicate Agrees(entries: seq<Entry>, lba: nat, data: Sector) {
    forall i :: 0 <= i < |entries| && entries[i].valid && entries[i].lba == lba ==> entries[i].data == data
  }

  /** A failed write leaves the cache coherent exactly when the data never reached the drive, or the
      sector is stale anyway or not cached, or is cached with that very data. */
  lemma FailedWriteCoherence(entries: seq<Entry>, disk: map<nat, Sector>, stale: set<nat>, lba: nat, data: Sector,
                             t: Transfer)
    requires Coherent(entries, disk, stale) && t != Done
    ensures Coherent(entries, Written(disk, lba, data, t), stale) <==>
      (t == FailedBefore || lba in stale || Agrees(entries, lba, data))
    ensures Coherent(entries, Written(disk, lba, data, t), stale + {lba})
  {
  }

  ghost predicate Cached(entries: seq<Entry>, lba: nat) {
    exists i :: 0 <= i < |entries| && entries[i].valid && entries[i].lba == lba
  }

  /** The accessed sector is now cached, and a sector that left the cache left a full one in which no
      sector had gone unused for longer (as long as the tick counter has not wrapped). */
  ghost predicate EvictsLeastRecent(before: seq<Entry>, after: seq<Entry>, history: seq<nat>, lba: nat) {
    && Cached(after, lba)
    && forall i :: 0 <= i < |before| && before[i].valid && !Cached(after, before[i].lba) ==>
         forall j :: 0 <= j < |before| ==>
           && before[j].valid
           && (|history| + 1 < WRAP ==> LastUse(history, before[i].lba) <= LastUse(history, before[j].lba))
  }

  /** Refilling one slot evicts no other, so the choice of the slot decides. */
  lemma RefillEvicts(before: seq<Entry>, after: seq<Entry>, history: seq<nat>, v: nat, lba: nat)
    requires |before| == |after| && v < |after| && after[v].valid && after[v].lba == lba
    requires forall j :: 0 <= j < |after| && j != v ==> after[j] == before[j]
    requires before[v].valid && before[v].lba != lba ==>
      forall j :: 0 <= j < |before| ==>
        before[j].valid && (|history| + 1 < WRAP ==> LastUse(history, before[v].lba) <= LastUse(history, before[j].lba))
    ensures EvictsLeastRecent(before, after, history, lba)
  {
    forall i | 0 <= i < |before| && before[i].valid && i != v ensures Cached(after, before[i].lba) {
      assert after[i] == before[i];
    }
  }

  class Cache {
    const slots: array<Entry>
    var clock: nat
    var disk: map<nat, Sector>
    ghost var history: seq<nat>

    /** The cache holds what the drive holds, but for stale sectors. */
    ghost predicate ValidBut(stale: set<nat>)
      reads this, slots
    {
      slots.Length > 0 && Coherent(slots[..], disk, stale) && AgesOk(slots[..], clock, history) && clock < WRAP
    }

    ghost predicate Valid()
      reads this, slots
    {
      ValidBut({})
    }

    constructor (n: nat, disk: map<nat, Sector>)
      requires n > 0
      ensures Valid() && fresh(slots) && slots.Length == n && this.disk == disk && history == []
    {
      slots := new Entry[n](_ => EMPTY);
      clock := 1;
      this.disk := disk;
      history := [];
    }

    /** Forgets everything, as when the drive changes. */
    method Invalidate()
      requires slots.Length > 0
      modifies this`clock, this`history, slots
      ensures Valid() && history == [] && forall i :: 0 <= i < slots.Length ==> !slots[i].valid
    {
      var i := 0;
      while i < slots.Length
        invariant 0 <= i <= slots.Length
        invariant forall k :: 0 <= k < i ==> !slots[k].valid
      {
        slots[i] := EMPTY;
        i := i + 1;
      }
      clock := 1;
      history := [];
    }

    method Find(lba: nat) returns (i: nat)
      ensures i == FindEntry(slots[..], lba, 0)
    {
      i := 0;
      while i < slots.Length
        invariant 0 <= i <= slots.Length
        invariant FindEntry(slots[..], lba, 0) == FindEntry(slots[..], lba, i)
      {
        if slots[i].valid && slots[i].lba == lba { return; }
        i := i + 1;
      }
    }

    /** An empty slot if there is one; otherwise, before the counter wraps, the slot whose sector was
        used longest ago. */
    method ChooseVictim(ghost stale: set<nat>) returns (v: nat)
      requires ValidBut(stale)
      ensures v < slots.Length
      ensures slots[v].valid ==>
        forall j :: 0 <= j < slots.Length ==>
          slots[j].valid && (|history| + 1 < WRAP ==> LastUse(history, slots[v].lba) <= LastUse(history, slots[j].lba))
    {
      v := 0;
      var i := 0;
      while i < slots.Length
        invariant 0 <= i <= slots.Length && v < slots.Length
        invariant v <= i && (i > 0 ==> v < i)
        invariant forall k :: 0 <= k < i ==> slots[k].valid && slots[v].age <= slots[k].age
      {
        if !slots[i].valid { return i; }
        if slots[i].age < slots[v].age { v := i; }
        i := i + 1;
      }
    }

    /** Records an access to slot i. */
    method Touch(i: nat, lba: nat, data: Sector, ghost stale: set<nat>)
      requires slots.Length > 0 && i < slots.Length && clock < WRAP
      requires lba in disk && (lba in stale || disk[lba] == data) && AgesOk(slots[..], clock, history)
      requires forall j :: 0 <= j < slots.Length && j != i && slots[j].valid ==>
        && slots[j].lba in disk && slots[j].lba != lba
        && (slots[j].lba in stale || slots[j].data == disk[slots[j].lba])
      requires forall j, k :: 0 <= j < k < slots.Length && j != i && k != i && slots[j].valid && slots[k].valid ==>
        slots[j].lba != slots[k].lba
      modifies this`clock, this`history, slots
      ensures ValidBut(stale) && history == old(history) + [lba] && slots[i].valid && slots[i].lba == lba
      ensures slots[i].data == data
      ensures forall j :: 0 <= j < slots.Length && j != i ==> slots[j] == old(slots[j])
    {
      forall x: nat ensures LastUse(history + [lba], x) == if x == lba then |history| + 1 else LastUse(history, x) {
        LastUseMore(history, x, lba);
      }
      slots[i] := Entry(true, lba, clock, data);
      clock := (clock + 1) % WRAP;
      history := history + [lba];
    }

    /** Reads a sector. A success returns what the drive holds, whether or not it came from the cache,
        unless the sector is stale; a failed transfer changes nothing. */
    method ReadSector(lba: nat, transfer: Transfer, ghost stale: set<nat> := {}) returns (r: ReadResult)
      requires ValidBut(stale) && (transfer == Done ==> lba in disk)
      modifies this`clock, this`history, slots
      ensures ValidBut(stale)
      ensures r.Read? ==> lba in disk && (lba !in stale ==> r.data == disk[lba]) && history == old(history) + [lba]
      ensures r.Read? ==> EvictsLeastRecent(old(slots[..]), slots[..], old(history), lba)
      ensures r.Failed? <==> transfer != Done && !old(Cached(slots[..], lba))
      ensures r.Failed? ==> slots[..] == old(slots[..]) && clock == old(clock) && history == old(history)
    {
      var i := Find(lba);
      if i < slots.Length {
        var data := slots[i].data;
        Touch(i, lba, data, stale);
        RefillEvicts(old(slots[..]), slots[..], old(history), i, lba);
        return Read(data);
      }
      i := ChooseVictim(stale);
      if transfer != Done { return Failed; }
      var data := disk[lba];
      Touch(i, lba, data, stale);
      RefillEvicts(old(slots[..]), slots[..], old(history), i, lba);
      r := Read(data);
    }

    /** Writes a sector through to the drive. A success is what later reads return. A failure leaves the
        cache as it was, and coherent exactly when the data never reached the drive, or the sector is stale
        anyway or not cached, or is cached with that very data. */
    method WriteSector(lba: nat, data: Sector, transfer: Transfer, ghost stale: set<nat> := {}) returns (ok: bool)
      requires ValidBut(stale)
      modifies this, slots
      ensures ok == (transfer == Done) && disk == Written(old(disk), lba, data, transfer)
      ensures ok ==> ValidBut(stale - {lba}) && (stale == {} ==> Valid()) && history == old(history) + [lba]
      ensures ok ==> EvictsLeastRecent(old(slots[..]), slots[..], old(history), lba)
      ensures !ok ==> slots[..] == old(slots[..]) && clock == old(clock) && history == old(history)
      ensures !ok ==> (ValidBut(stale) <==> (transfer == FailedBefore || lba in stale || Agrees(slots[..], lba, data)))
      ensures !ok ==> ValidBut(stale + {lba})
    {
      if transfer != Done {
        FailedWriteCoherence(slots[..], disk, stale, lba, data, transfer);
        disk := Written(disk, lba, data, transfer);
        return false;
      }
      var i := Find(lba);
      if i == slots.Length {
        i := ChooseVictim(stale);
      }
      disk := disk[lba := data];
      Touch(i, lba, data, stale - {lba});
      RefillEvicts(old(slots[..]), slots[..], old(history), i, lba);
      assert stale == {} ==> stale - {lba} == {};
      ok := true;
    }
  }

  // ----- runs -----

  datatype Access = ReadOf(lba: nat, transfer: Transfer) | WriteOf(lba: nat, data: Sector, transfer: Transfer)

  datatype Outcome = ReadDone(r: ReadResult) | WriteDone(ok: bool)

  /** The drive after an access, as if there were no cache. */
  function Accessed(disk: map<nat, Sector>, a: Access): map<nat, Sector> {
    if a.WriteOf? then Written(disk, a.lba, a.data, a.transfer) else disk
  }

  function DiskAfter(disk: map<nat, Sector>, run: seq<Access>): map<nat, Sector> {
    if run == [] then disk else Accessed(DiskAfter(disk, run[..|run| - 1]), run[|run| - 1])
  }

  /** A write that fails after the data reached the drive may leave its sector stale, until the next one. */
  function Staled(stale: set<nat>, a: Access): set<nat> {
    if !a.WriteOf? || a.transfer == FailedBefore then stale
    else if a.transfer == FailedAfter then stale + {a.lba}
    else stale - {a.lba}
  }

  /** The sectors that were last written by a write that failed after the data reached the drive. */
  function FailedLate(run: seq<Access>): set<nat> {
    if run == [] then {} else Staled(FailedLate(run[..|run| - 1]), run[|run| - 1])
  }

  lemma RunNext(disk: map<nat, Sector>, run: seq<Access>)
    ensures DiskAfter(disk, run[..0]) == disk && FailedLate(run[..0]) == {}
    ensures forall n :: 0 <= n < |run| ==>
      && DiskAfter(disk, run[..n + 1]) == Accessed(DiskAfter(disk, run[..n]), run[n])
      && FailedLate(run[..n + 1]) == Staled(FailedLate(run[..n]), run[n])
  {
    hide Accessed, Staled;
    forall n | 0 <= n < |run|
      ensures DiskAfter(disk, run[..n + 1]) == Accessed(DiskAfter(disk, run[..n]), run[n])
      ensures FailedLate(run[..n + 1]) == Staled(FailedLate(run[..n]), run[n])
    {
      assert run[..n + 1][..n] == run[..n];
    }
  }

  /** A run in which no write fails after the data reached the drive leaves no sector stale. */
  lemma {:induction false} NoneLate(run: seq<Access>)
    requires forall k :: 0 <= k < |run| && run[k].WriteOf? ==> run[k].transfer != FailedAfter
    ensures FailedLate(run) == {}
  {
    if run != [] { NoneLate(run[..|run| - 1]); }
  }

  /** What an access comes to on a drive without a cache, except that a cached sector is read though the drive
      fails, and that nothing is said of the data of a stale sector. */
  ghost predicate AsPlain(disk: map<nat, Sector>, stale: set<nat>, a: Access, o: Outcome) {
    match a
    case WriteOf(_, _, t) => o == WriteDone(t == Done)
    case ReadOf(lba, t) =>
      && o.ReadDone? && (t == Done ==> o.r.Read?)
      && (o.r.Read? ==> lba in disk && (lba !in stale ==> o.r.data == disk[lba]))
  }

  /** One access through the cache. */
  method Perform(c: Cache, a: Access, ghost stale: set<nat>) returns (o: Outcome)
    requires c.ValidBut(stale) && (a.ReadOf? && a.transfer == Done ==> a.lba in c.disk)
    modifies c, c.slots
    ensures c.disk == Accessed(old(c.disk), a) && old(c.disk).Keys <= c.disk.Keys && c.ValidBut(Staled(stale, a))
    ensures AsPlain(old(c.disk), stale, a, o)
  {
    match a {
      case ReadOf(lba, t) =>
        var r := c.ReadSector(lba, t, stale);
        o := ReadDone(r);
      case WriteOf(lba, data, t) =>
        var ok := c.WriteSector(lba, data, t, stale);
        o := WriteDone(ok);
    }
  }

  /** A run of accesses through the cache comes to what it would on the drive alone: every read gives what was
      last written, except of a sector whose last write failed after the data reached the drive. */
  method RunThrough(c: Cache, run: seq<Access>) returns (outcomes: seq<Outcome>)
    requires c.Valid()
    requires forall k :: 0 <= k < |run| && run[k].ReadOf? && run[k].transfer == Done ==> run[k].lba in c.disk
    modifies c, c.slots
    ensures c.disk == DiskAfter(old(c.disk), run) && c.ValidBut(FailedLate(run)) && |outcomes| == |run|
    ensures forall k :: 0 <= k < |run| ==>
      AsPlain(DiskAfter(old(c.disk), run[..k]), FailedLate(run[..k]), run[k], outcomes[k])
  {
    hide c.ValidBut, Staled, AsPlain, Accessed, DiskAfter, FailedLate;
    RunNext(old(c.disk), run);
    outcomes := [];
    while |outcomes| < |run|
      invariant |outcomes| <= |run| && old(c.disk).Keys <= c.disk.Keys
      invariant c.disk == DiskAfter(old(c.disk), run[..|outcomes|]) && c.ValidBut(FailedLate(run[..|outcomes|]))
      invariant forall k :: 0 <= k < |outcomes| ==>
        AsPlain(DiskAfter(old(c.disk), run[..k]), FailedLate(run[..k]), run[k], outcomes[k])
    {
      var n := |outcomes|;
      var o := Perform(c, run[n], FailedLate(run[..n]));
      outcomes := outcomes + [o];
    }
    assert run[..|run|] == run;
  }

  /** A write that fails after the data reached the drive leaves a cached sector stale. */
  method StaleAfterFailure(n: nat, lba: nat, a: Sector, b: Sector) returns (c: Cache)
    requires n > 0 && a != b
    ensures c.disk == map[lba := b] && Cached(c.slots[..], lba) && Agrees(c.slots[..], lba, a) && !c.Valid()
  {
    c := new Cache(n, map[]);
    var ok := c.WriteSector(lba, a, Done);
    assert Agrees(c.slots[..], lba, a);
    ok := c.WriteSector(lba, b, FailedAfter);
  }
}
