/** Page-table entries. A 64-bit entry is cut at the ends of the address field (bits 12..51):
    the low twelve bits, the frame number and the high twelve bits. */
module Pte {

  const PRESENT: bv12 := 0x001
  const WRITABLE: bv12 := 0x002
  const USER: bv12 := 0x004
  const HUGE: bv12 := 0x080
  const PRIVATE_TABLE: bv12 := 0x200
  const OTHER_LOW: bv12 := 0xD78
  const NO_EXECUTE: bv12 := 0x800   // of the high bits

  /** The flag bits the page-table code looks at, and the bits it only copies. */
  datatype Flags = Flags(present: bool, writable: bool, user: bool, huge: bool, priv: bool, low: bv12, high: bv12)

  datatype Entry = Entry(frame: nat, fl: Flags)

  const NO_FLAGS := Flags(false, false, false, false, false, 0, 0)
  const ZERO := Entry(0, NO_FLAGS)

  function Decode(lo: bv12, hi: bv12): Flags {
    Flags(lo & PRESENT != 0, lo & WRITABLE != 0, lo & USER != 0, lo & HUGE != 0, lo & PRIVATE_TABLE != 0,
          lo & OTHER_LOW, hi)
  }

  /** No bit of an entry is lost in the record. */
  lemma DecodeInjective(lo: bv12, hi: bv12, lo': bv12, hi': bv12)
    requires Decode(lo, hi) == Decode(lo', hi')
    ensures lo == lo' && hi == hi'
  {
  }

  /** Flags OR-ed into every table entry on the way to a new mapping. */
  function ParentBits(user: bool): bv12 {
    if user then PRESENT | WRITABLE | USER else PRESENT | WRITABLE
  }

  /** The entry of a table that was copied for this address space. */
  function Privatised(fl: Flags, user: bool): Flags {
    fl.(present := true, writable := true, user := fl.user || user, priv := true)
  }

  /** The entry of a freshly allocated table. */
  function NewParent(user: bool): Flags {
    Flags(true, true, user, false, true, 0, 0)
  }

  function WithUser(fl: Flags): Flags {
    fl.(user := true)
  }

  /** The flags of one 4 KB piece of a 2 MB page. */
  function SplitFlags(fl: Flags): Flags {
    fl.(huge := false)
  }

  function LeafFlags(fl: Flags): Flags {
    fl.(present := true)
  }

  /** The flags of the link to a private table: those of the shared entry that it replaces, if that led to a
      table, and else those of a new table. */
  function LinkFlags(shared: Flags, user: bool): Flags {
    if shared.present && !shared.huge then Privatised(shared, user) else NewParent(user)
  }

  /** What a level of the walk can refuse, apart from the access of ring 3. */
  datatype Access = Write | Execute

  predicate Grants(fl: Flags, a: Access) {
    match a
    case Write => fl.writable
    case Execute => fl.high & NO_EXECUTE == 0
  }

  /** The top bit of a 64-bit entry refuses execution. */
  lemma ExecuteBit(lo: bv12, hi: bv12)
    ensures Grants(Decode(lo, hi), Execute) <==> hi < 0x800
  {
  }

  /** Links that replace entries which grant everything, or nothing at all, grant everything. */
  lemma LinkGrants(shared: Flags, user: bool, a: Access)
    requires shared.present && !shared.huge ==> Grants(shared, Execute)
    ensures Grants(LinkFlags(shared, user), a)
    ensures LinkFlags(shared, user).present && LinkFlags(shared, user).priv && !LinkFlags(shared, user).huge
  {
  }

  lemma PieceGrants(fl: Flags, a: Access)
    ensures Grants(SplitFlags(fl), a) == Grants(fl, a)
  {
  }

  // The record operations are the bit operations on the words.

  lemma PrivatisedBits(lo: bv12, hi: bv12, user: bool)
    ensures Decode(lo | ParentBits(user) | PRIVATE_TABLE, hi) == Privatised(Decode(lo, hi), user)
  {
  }

  lemma LinkBits(lo: bv12, hi: bv12, user: bool)
    ensures LinkFlags(Decode(lo, hi), user) ==
      if lo & PRESENT != 0 && lo & HUGE == 0 then Decode(lo | ParentBits(user) | PRIVATE_TABLE, hi)
      else Decode(ParentBits(user) | PRIVATE_TABLE, 0)
  {
  }

  lemma NewParentBits(user: bool)
    ensures Decode(ParentBits(user) | PRIVATE_TABLE, 0) == NewParent(user)
  {
  }

  lemma WithUserBits(lo: bv12, hi: bv12)
    ensures Decode(lo | USER, hi) == WithUser(Decode(lo, hi))
  {
  }

  lemma SplitBits(lo: bv12, hi: bv12)
    ensures Decode(lo & !HUGE, hi) == SplitFlags(Decode(lo, hi))
  {
  }

  lemma LeafBits(lo: bv12, hi: bv12)
    ensures Decode(lo | PRESENT, hi) == LeafFlags(Decode(lo, hi))
  {
  }
}
