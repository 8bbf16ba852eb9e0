/** The simulator's memory: 65536 pages of words created on first use, read and written as words,
    halfwords and bytes, against a flat little-endian byte memory that starts out zero. */
module PagedMemory {
  import opened Options

  const PAGES: int := 0x1_0000
  const PAGE_WORDS: int := 0x4000

  // ----- bytes of a word -----

  /** Byte `lane` of a word, the lowest first. */
  function Lane(word: bv32, lane: int): bv32
    requires 0 <= lane < 4
  {
    match lane
    case 0 => word & 0xff
    case 1 => (word >> 8) & 0xff
    case 2 => (word >> 16) & 0xff
    case _ => (word >> 24) & 0xff
  }

  /** The word with the given bytes, the lowest first. */
  function Join(b0: bv32, b1: bv32, b2: bv32, b3: bv32): bv32 {
    b0 | (b1 << 8) | (b2 << 16) | (b3 << 24)
  }

  lemma JoinLanes(word: bv32)
    ensures word == Join(Lane(word, 0), Lane(word, 1), Lane(word, 2), Lane(word, 3))
  {
  }

  // The masked updates of the source.

  function LowHalf(word: bv32, data: bv32): bv32 { (word & 0xffff_0000) | (data & 0x0000_ffff) }

  function HighHalf(word: bv32, data: bv32): bv32 { (word & 0x0000_ffff) | (data << 16) }

  function Byte0(word: bv32, data: bv32): bv32 { (word & 0xffff_ff00) | (data & 0xff) }

  function Byte1(word: bv32, data: bv32): bv32 { (word & 0xffff_00ff) | ((data & 0xff) << 8) }

  function Byte2(word: bv32, data: bv32): bv32 { (word & 0xff00_ffff) | ((data & 0xff) << 16) }

  function Byte3(word: bv32, data: bv32): bv32 { (word & 0x00ff_ffff) | ((data & 0xff) << 24) }

  function PutByte(word: bv32, lane: int, data: bv32): bv32
    requires 0 <= lane < 4
  {
    match lane
    case 0 => Byte0(word, data)
    case 1 => Byte1(word, data)
    case 2 => Byte2(word, data)
    case _ => Byte3(word, data)
  }

  lemma LowHalfLanes(word: bv32, data: bv32)
    ensures var w := LowHalf(word, data);
      Lane(w, 0) == Lane(data, 0) && Lane(w, 1) == Lane(data, 1) && Lane(w, 2) == Lane(word, 2) && Lane(w, 3) == Lane(word, 3)
  {
  }

  lemma HighHalfLanes(word: bv32, data: bv32)
    ensures var w := HighHalf(word, data);
      Lane(w, 0) == Lane(word, 0) && Lane(w, 1) == Lane(word, 1) && Lane(w, 2) == Lane(data, 0) && Lane(w, 3) == Lane(data, 1)
  {
  }

  lemma Byte0Lanes(word: bv32, data: bv32)
    ensures var w := Byte0(word, data);
      Lane(w, 0) == Lane(data, 0) && Lane(w, 1) == Lane(word, 1) && Lane(w, 2) == Lane(word, 2) && Lane(w, 3) == Lane(word, 3)
  {
  }

  lemma Byte1Lanes(word: bv32, data: bv32)
    ensures var w := Byte1(word, data);
      Lane(w, 0) == Lane(word, 0) && Lane(w, 1) == Lane(data, 0) && Lane(w, 2) == Lane(word, 2) && Lane(w, 3) == Lane(word, 3)
  {
  }

  lemma Byte2Lanes(word: bv32, data: bv32)
    ensures var w := Byte2(word, data);
      Lane(w, 0) == Lane(word, 0) && Lane(w, 1) == Lane(word, 1) && Lane(w, 2) == Lane(data, 0) && Lane(w, 3) == Lane(word, 3)
  {
  }

  lemma Byte3Lanes(word: bv32, data: bv32)
    ensures var w := Byte3(word, data);
      Lane(w, 0) == Lane(word, 0) && Lane(w, 1) == Lane(word, 1) && Lane(w, 2) == Lane(word, 2) && Lane(w, 3) == Lane(data, 0)
  {
  }

  lemma PutByteLanes(word: bv32, lane: int, data: bv32, other: int)
    requires 0 <= lane < 4 && 0 <= other < 4
    ensures Lane(PutByte(word, lane, data), other) == if other == lane then Lane(data, 0) else Lane(word, other)
  {
    hide Lane, Byte0, Byte1, Byte2, Byte3;
    match lane
    case 0 => Byte0Lanes(word, data);
    case 1 => Byte1Lanes(word, data);
    case 2 => Byte2Lanes(word, data);
    case 3 => Byte3Lanes(word, data);
  }

  lemma HalfLanes(word: bv32)
    ensures word & 0xffff == Join(Lane(word, 0), Lane(word, 1), 0, 0)
    ensures (word >> 16) & 0xffff == Join(Lane(word, 2), Lane(word, 3), 0, 0)
  {
  }

  // ----- addresses -----

  function PageNumber(addr: bv32): (page: int)
    ensures 0 <= page < PAGES
  {
    ((addr >> 16) & 0xffff) as bv16 as int
  }

  function Index(addr: bv32): (index: int)
    ensures 0 <= index < PAGE_WORDS
  {
    ((addr >> 2) & 0x3fff) as bv14 as int
  }

  /** Some of the masked bits of the address are set. */
  predicate HasBits(addr: bv32, mask: bv32) { addr & mask != 0 }

  /** Which byte of its word an address names. */
  function LaneOf(addr: bv32): (lane: int)
    ensures 0 <= lane < 4
  {
    if !HasBits(addr, 3) then 0 else if addr & 3 == 1 then 1 else if addr & 3 == 2 then 2 else 3
  }

  /** The address of the word an address lies in. */
  function WordOf(addr: bv32): bv32 { addr & 0xffff_fffc }

  function Plus(addr: bv32, n: bv32): bv32 { addr + n }

  lemma SlotBits(a: bv32, b: bv32)
    ensures (((a >> 16) & 0xffff) as bv16 == ((b >> 16) & 0xffff) as bv16
      && ((a >> 2) & 0x3fff) as bv14 == ((b >> 2) & 0x3fff) as bv14) <==> a & 0xffff_fffc == b & 0xffff_fffc
  {
  }

  lemma SamePage(a: bv16, b: bv16)
    ensures a as int == b as int <==> a == b
  {
    assert (a as int) as bv16 == a && (b as int) as bv16 == b;
  }

  lemma SameIndex(a: bv14, b: bv14)
    ensures a as int == b as int <==> a == b
  {
    assert (a as int) as bv14 == a && (b as int) as bv14 == b;
  }

  /** Two addresses name the same slot of the same page exactly when they lie in the same word. */
  lemma SameWord(a: bv32, b: bv32)
    ensures PageNumber(a) == PageNumber(b) && Index(a) == Index(b) <==> WordOf(a) == WordOf(b)
  {
    SlotBits(a, b);
    SamePage(((a >> 16) & 0xffff) as bv16, ((b >> 16) & 0xffff) as bv16);
    SameIndex(((a >> 2) & 0x3fff) as bv14, ((b >> 2) & 0x3fff) as bv14);
  }

  /** The alignment tests and the choice of a half, in terms of the byte of the word. */
  lemma LaneTests(a: bv32)
    ensures HasBits(a, 3) <==> LaneOf(a) != 0
    ensures HasBits(a, 1) <==> LaneOf(a) == 1 || LaneOf(a) == 3
    ensures HasBits(a, 2) <==> LaneOf(a) >= 2
  {
  }

  /** An address is its word and its byte. */
  lemma SameByte(a: bv32, b: bv32)
    ensures a == b <==> WordOf(a) == WordOf(b) && LaneOf(a) == LaneOf(b)
  {
  }

  lemma WordByte1(a: bv32)
    requires LaneOf(a) == 0
    ensures WordOf(Plus(a, 1)) == WordOf(a) && LaneOf(Plus(a, 1)) == 1
  {
  }

  lemma WordByte2(a: bv32)
    requires LaneOf(a) == 0
    ensures WordOf(Plus(a, 2)) == WordOf(a) && LaneOf(Plus(a, 2)) == 2
  {
  }

  lemma WordByte3(a: bv32)
    requires LaneOf(a) == 0
    ensures WordOf(Plus(a, 3)) == WordOf(a) && LaneOf(Plus(a, 3)) == 3
  {
  }

  /** The bytes of an aligned word. */
  lemma WordBytes(a: bv32)
    requires LaneOf(a) == 0
    ensures WordOf(Plus(a, 1)) == WordOf(a) && LaneOf(Plus(a, 1)) == 1
    ensures WordOf(Plus(a, 2)) == WordOf(a) && LaneOf(Plus(a, 2)) == 2
    ensures WordOf(Plus(a, 3)) == WordOf(a) && LaneOf(Plus(a, 3)) == 3
  {
    hide LaneOf, WordOf, Plus;
    WordByte1(a);
    WordByte2(a);
    WordByte3(a);
  }

  /** The bytes of an aligned halfword. */
  lemma HalfBytes(a: bv32)
    requires LaneOf(a) == 0 || LaneOf(a) == 2
    ensures WordOf(Plus(a, 1)) == WordOf(a) && LaneOf(Plus(a, 1)) == LaneOf(a) + 1
  {
  }

  /** A byte of a word after one of its halves has been updated. */
  lemma HalfByte(a: bv32, addr: bv32, data: bv32, word: bv32)
    requires LaneOf(addr) == 0 || LaneOf(addr) == 2
    requires WordOf(a) == WordOf(addr)
    ensures Lane(if LaneOf(addr) == 0 then LowHalf(word, data) else HighHalf(word, data), LaneOf(a))
         == if a == addr then Lane(data, 0) else if a == Plus(addr, 1) then Lane(data, 1) else Lane(word, LaneOf(a))
  {
    hide Lane, LaneOf, WordOf, Plus, LowHalf, HighHalf;
    HalfBytes(addr);
    SameByte(a, addr);
    SameByte(a, Plus(addr, 1));
    if LaneOf(addr) == 0 { LowHalfLanes(word, data); } else { HighHalfLanes(word, data); }
  }

  // ----- the reference: a flat byte memory -----

  type Flat = bv32 -> bv32

  function Blank(): Flat { _ => 0 }

  /** Writing the lowest `count` bytes of the data. */
  function Put(flat: Flat, addr: bv32, count: int, data: bv32): Flat
    requires 1 <= count <= 4
  {
    a =>
      if a == addr then Lane(data, 0)
      else if count > 1 && a == Plus(addr, 1) then Lane(data, 1)
      else if count > 2 && a == Plus(addr, 2) then Lane(data, 2)
      else if count > 3 && a == Plus(addr, 3) then Lane(data, 3)
      else flat(a)
  }

  /** Replacing the word an address lies in. */
  function Patched(flat: Flat, addr: bv32, word: bv32): Flat {
    a => if WordOf(a) == WordOf(addr) then Lane(word, LaneOf(a)) else flat(a)
  }

  ghost predicate SameFlat(f: Flat, g: Flat) {
    forall a: bv32 :: f(a) == g(a)
  }

  /** The word an address lies in, as its bytes in the flat memory. */
  ghost predicate Holds(flat: Flat, addr: bv32, word: bv32) {
    forall a: bv32 :: WordOf(a) == WordOf(addr) ==> flat(a) == Lane(word, LaneOf(a))
  }

  lemma PutWordBytes(flat: Flat, addr: bv32, data: bv32)
    requires !HasBits(addr, 3)
    ensures SameFlat(Patched(flat, addr, data), Put(flat, addr, 4, data))
  {
    hide Lane, LaneOf, WordOf, HasBits, Plus;
    LaneTests(addr);
    WordBytes(addr);
    forall a: bv32
      ensures Patched(flat, addr, data)(a) == Put(flat, addr, 4, data)(a)
    {
      SameByte(a, addr);
      SameByte(a, Plus(addr, 1));
      SameByte(a, Plus(addr, 2));
      SameByte(a, Plus(addr, 3));
    }
  }

  lemma PutHalfBytes(flat: Flat, addr: bv32, data: bv32, word: bv32)
    requires !HasBits(addr, 1) && Holds(flat, addr, word)
    ensures SameFlat(Patched(flat, addr, if HasBits(addr, 2) then HighHalf(word, data) else LowHalf(word, data)),
                     Put(flat, addr, 2, data))
  {
    hide Lane, LaneOf, WordOf, HasBits, Plus, LowHalf, HighHalf;
    LaneTests(addr);
    HalfBytes(addr);
    var patched := Patched(flat, addr, if HasBits(addr, 2) then HighHalf(word, data) else LowHalf(word, data));
    forall a: bv32
      ensures patched(a) == Put(flat, addr, 2, data)(a)
    {
      if WordOf(a) == WordOf(addr) { HalfByte(a, addr, data, word); }
    }
  }

  lemma PutOneByte(flat: Flat, addr: bv32, data: bv32, word: bv32)
    requires Holds(flat, addr, word)
    ensures SameFlat(Patched(flat, addr, PutByte(word, LaneOf(addr), data)), Put(flat, addr, 1, data))
  {
    hide Lane, LaneOf, WordOf, PutByte;
    var patched := Patched(flat, addr, PutByte(word, LaneOf(addr), data));
    forall a: bv32
      ensures patched(a) == Put(flat, addr, 1, data)(a)
    {
      SameByte(a, addr);
      PutByteLanes(word, LaneOf(addr), data, LaneOf(a));
    }
  }

  datatype Access =
    | WriteWord(addr: bv32, data: bv32)
    | WriteHalf(addr: bv32, data: bv32)
    | WriteByte(addr: bv32, data: bv32)
    | ReadWord(addr: bv32)
    | ReadHalf(addr: bv32)
    | ReadByte(addr: bv32)

  /** What an access gives: nothing, a value, or the end of the program on a misaligned address. */
  datatype Outcome = Written | Got(value: bv32) | Stopped

  predicate Aligned(access: Access) {
    match access
    case WriteWord(a, _) => !HasBits(a, 3)
    case ReadWord(a) => !HasBits(a, 3)
    case WriteHalf(a, _) => !HasBits(a, 1)
    case ReadHalf(a) => !HasBits(a, 1)
    case _ => true
  }

  function FlatAfter(flat: Flat, access: Access): Flat {
    if !Aligned(access) then flat
    else match access
      case WriteWord(a, data) => Put(flat, a, 4, data)
      case WriteHalf(a, data) => Put(flat, a, 2, data)
      case WriteByte(a, data) => Put(flat, a, 1, data)
      case _ => flat
  }

  function FlatOutcome(flat: Flat, access: Access): Outcome {
    if !Aligned(access) then Stopped
    else match access
      case ReadWord(a) => Got(Join(flat(a), flat(Plus(a, 1)), flat(Plus(a, 2)), flat(Plus(a, 3))))
      case ReadHalf(a) => Got(Join(flat(a), flat(Plus(a, 1)), 0, 0))
      case ReadByte(a) => Got(flat(a))
      case _ => Written
  }

  /** The outcomes of a program's accesses, up to the first misaligned one. */
  function FlatRun(flat: Flat, accesses: seq<Access>): seq<Outcome> {
    if accesses == [] then []
    else
      var outcome := FlatOutcome(flat, accesses[0]);
      if outcome == Stopped then [Stopped] else [outcome] + FlatRun(FlatAfter(flat, accesses[0]), accesses[1..])
  }

  // ----- what a program can rely on, without a memory -----

  /** The byte an access stores at `x`, if it stores one there. */
  function StoredAt(access: Access, x: bv32): Option<bv32> {
    match access
    case WriteByte(a, data) => if x == a then Some(data & 0xff) else None
    case WriteHalf(a, data) =>
      if x == a then Some(data & 0xff) else if x == Plus(a, 1) then Some((data >> 8) & 0xff) else None
    case WriteWord(a, data) =>
      if x == a then Some(data & 0xff)
      else if x == Plus(a, 1) then Some((data >> 8) & 0xff)
      else if x == Plus(a, 2) then Some((data >> 16) & 0xff)
      else if x == Plus(a, 3) then Some(data >> 24)
      else None
    case _ => None
  }

  /** The byte stored last at `x`, looking back from the latest access; 0 if there is none. */
  function LastByte(accesses: seq<Access>, x: bv32): bv32 {
    if accesses == [] then 0
    else
      match StoredAt(accesses[|accesses| - 1], x)
      case Some(byte) => byte
      case None => LastByte(accesses[..|accesses| - 1], x)
  }

  /** The bytes of a word, the lowest first. */
  predicate WordIs(word: bv32, b0: bv32, b1: bv32, b2: bv32, b3: bv32) {
    word & 0xff == b0 && (word >> 8) & 0xff == b1 && (word >> 16) & 0xff == b2 && word >> 24 == b3
  }

  /** What an access gives after those in `before`: a read gives the bytes stored last, the lowest first, and
      only a misaligned address stops the program. */
  ghost predicate Answers(before: seq<Access>, access: Access, outcome: Outcome) {
    match access
    case ReadByte(a) => outcome == Got(LastByte(before, a))
    case ReadHalf(a) =>
      if a & 1 != 0 then outcome == Stopped
      else outcome.Got? && WordIs(outcome.value, LastByte(before, a), LastByte(before, Plus(a, 1)), 0, 0)
    case ReadWord(a) =>
      if a & 3 != 0 then outcome == Stopped
      else
        && outcome.Got?
        && WordIs(outcome.value, LastByte(before, a), LastByte(before, Plus(a, 1)), LastByte(before, Plus(a, 2)), LastByte(before, Plus(a, 3)))
    case WriteByte(_, _) => outcome == Written
    case WriteHalf(a, _) => outcome == if a & 1 != 0 then Stopped else Written
    case WriteWord(a, _) => outcome == if a & 3 != 0 then Stopped else Written
  }

  predicate IsByte(b: bv32) { b & 0xff == b }

  lemma StoresBytes(access: Access, x: bv32)
    ensures StoredAt(access, x).Some? ==> IsByte(StoredAt(access, x).value)
  {
    hide Plus;
  }

  lemma {:induction false} LastIsByte(accesses: seq<Access>, x: bv32)
    ensures IsByte(LastByte(accesses, x))
  {
    hide StoredAt;
    if accesses != [] {
      StoresBytes(accesses[|accesses| - 1], x);
      LastIsByte(accesses[..|accesses| - 1], x);
    }
  }

  lemma JoinedLow(b0: bv32, b1: bv32, b2: bv32, b3: bv32)
    requires b0 & 0xff == b0 && b1 & 0xff == b1
    ensures Join(b0, b1, b2, b3) & 0xff == b0 && (Join(b0, b1, b2, b3) >> 8) & 0xff == b1
  {
  }

  lemma JoinedHigh(b0: bv32, b1: bv32, b2: bv32, b3: bv32)
    requires b0 & 0xff == b0 && b1 & 0xff == b1 && b2 & 0xff == b2
    ensures (Join(b0, b1, b2, b3) >> 16) & 0xff == b2
  {
  }

  lemma JoinedTop(b0: bv32, b1: bv32, b2: bv32, b3: bv32)
    requires b0 & 0xff == b0 && b1 & 0xff == b1 && b2 & 0xff == b2 && b3 & 0xff == b3
    ensures Join(b0, b1, b2, b3) >> 24 == b3
  {
  }

  lemma JoinedBytes(b0: bv32, b1: bv32, b2: bv32, b3: bv32)
    requires IsByte(b0) && IsByte(b1) && IsByte(b2) && IsByte(b3)
    ensures WordIs(Join(b0, b1, b2, b3), b0, b1, b2, b3)
  {
    hide Join;
    JoinedLow(b0, b1, b2, b3);
    JoinedHigh(b0, b1, b2, b3);
    JoinedTop(b0, b1, b2, b3);
  }

  ghost predicate HoldsLast(flat: Flat, before: seq<Access>) {
    forall x: bv32 :: flat(x) == LastByte(before, x)
  }

  lemma FlatAnswers(flat: Flat, before: seq<Access>, access: Access)
    requires HoldsLast(flat, before)
    ensures Answers(before, access, FlatOutcome(flat, access))
  {
    hide Join, LastByte, Plus, WordIs, IsByte;
    forall x: bv32
      ensures IsByte(flat(x))
    {
      LastIsByte(before, x);
    }
    ZeroByte();
    match access
    case ReadWord(a) => JoinedBytes(flat(a), flat(Plus(a, 1)), flat(Plus(a, 2)), flat(Plus(a, 3)));
    case ReadHalf(a) => JoinedBytes(flat(a), flat(Plus(a, 1)), 0, 0);
    case _ =>
  }

  lemma ZeroByte()
    ensures IsByte(0)
  {
  }

  lemma LaneShifts(data: bv32)
    ensures Lane(data, 0) == data & 0xff && Lane(data, 1) == (data >> 8) & 0xff
    ensures Lane(data, 2) == (data >> 16) & 0xff && Lane(data, 3) == data >> 24
  {
  }

  lemma WordStoresAt(flat: Flat, a: bv32, data: bv32, x: bv32)
    ensures Put(flat, a, 4, data)(x) == match StoredAt(WriteWord(a, data), x) case Some(byte) => byte case None => flat(x)
  {
    hide Plus, Lane;
    LaneShifts(data);
  }

  lemma HalfStoresAt(flat: Flat, a: bv32, data: bv32, x: bv32)
    ensures Put(flat, a, 2, data)(x) == match StoredAt(WriteHalf(a, data), x) case Some(byte) => byte case None => flat(x)
  {
    hide Plus, Lane;
    LaneShifts(data);
  }

  lemma ByteStoresAt(flat: Flat, a: bv32, data: bv32, x: bv32)
    ensures Put(flat, a, 1, data)(x) == match StoredAt(WriteByte(a, data), x) case Some(byte) => byte case None => flat(x)
  {
    hide Plus, Lane;
    LaneShifts(data);
  }

  lemma ReadsStoreNothing(access: Access, x: bv32)
    requires access.ReadWord? || access.ReadHalf? || access.ReadByte?
    ensures StoredAt(access, x) == None
  {
  }

  lemma FlatStoresAt(flat: Flat, access: Access, x: bv32)
    requires Aligned(access)
    ensures FlatAfter(flat, access)(x) == match StoredAt(access, x) case Some(byte) => byte case None => flat(x)
  {
    hide Aligned, Put, StoredAt;
    match access
    case WriteWord(a, data) => WordStoresAt(flat, a, data, x);
    case WriteHalf(a, data) => HalfStoresAt(flat, a, data, x);
    case WriteByte(a, data) => ByteStoresAt(flat, a, data, x);
    case _ => ReadsStoreNothing(access, x);
  }

  lemma FlatStores(flat: Flat, before: seq<Access>, access: Access)
    requires HoldsLast(flat, before) && Aligned(access)
    ensures HoldsLast(FlatAfter(flat, access), before + [access])
  {
    hide Aligned, StoredAt, FlatAfter;
    var accesses := before + [access];
    assert accesses[..|accesses| - 1] == before;
    forall x: bv32
      ensures FlatAfter(flat, access)(x) == LastByte(accesses, x)
    {
      FlatStoresAt(flat, access, x);
    }
  }

  lemma Apart(a: bv32)
    ensures a != Plus(a, 1) && a != Plus(a, 2) && a != Plus(a, 3)
    ensures Plus(a, 1) != Plus(a, 2) && Plus(a, 1) != Plus(a, 3) && Plus(a, 2) != Plus(a, 3)
  {
  }

  /** An aligned word, an even halfword and a byte are read back as they were written. */
  lemma WrittenIsRead(flat: Flat, a: bv32, data: bv32)
    ensures a & 3 == 0 ==> FlatOutcome(FlatAfter(flat, WriteWord(a, data)), ReadWord(a)) == Got(data)
    ensures a & 1 == 0 ==> FlatOutcome(FlatAfter(flat, WriteHalf(a, data)), ReadHalf(a)) == Got(data & 0xffff)
    ensures FlatOutcome(FlatAfter(flat, WriteByte(a, data)), ReadByte(a)) == Got(data & 0xff)
  {
    hide Join, Plus, Lane;
    Apart(a);
    JoinLanes(data);
    HalfLanes(data);
    LaneShifts(data);
  }

  // ----- the paged memory -----

  class Memory {
    const pages: array<array?<bv32>>
    ghost var Repr: set<object>

    ghost predicate Valid()
      reads this, pages, Repr
    {
      && pages.Length == PAGES && pages in Repr
      && (forall p :: 0 <= p < PAGES && pages[p] != null ==> pages[p] in Repr && pages[p].Length == PAGE_WORDS)
      && forall p, q :: 0 <= p < q < PAGES && pages[p] != null ==> pages[p] != pages[q]
    }

    /** The word an address lies in; a page never used is all zero. */
    ghost function Word(addr: bv32): bv32
      requires Valid()
      reads this, pages, Repr
    {
      var page := pages[PageNumber(addr)];
      if page == null then 0 else page[Index(addr)]
    }

    ghost function Byte(addr: bv32): bv32
      requires Valid()
      reads this, pages, Repr
    {
      Lane(Word(addr), LaneOf(addr))
    }

    /** The memory holds the bytes of the flat memory. */
    ghost predicate Agrees(flat: Flat)
      requires Valid()
      reads this, pages, Repr
    {
      forall a: bv32 :: Byte(a) == flat(a)
    }

    constructor ()
      ensures Valid() && fresh(Repr) && Agrees(Blank())
    {
      pages := new array?<bv32>[PAGES](_ => null);
      new;
      Repr := {pages};
    }

    /** The page of an address, created when it is not there; no value changes. */
    method GetPage(addr: bv32, ghost flat: Flat) returns (page: array<bv32>)
      requires Valid() && Agrees(flat)
      modifies pages, this`Repr
      ensures Valid() && fresh(Repr - old(Repr)) && old(Repr) <= Repr
      ensures page == pages[PageNumber(addr)]
      ensures Agrees(flat)
    {
      hide PageNumber, Index, Lane, LaneOf;
      var pageNumber := PageNumber(addr);
      if pages[pageNumber] == null {
        var blank := new bv32[PAGE_WORDS](_ => 0);
        pages[pageNumber] := blank;
        Repr := Repr + {blank};
      }
      page := pages[pageNumber];
      forall a: bv32
        ensures Byte(a) == flat(a)
      {
        assert Word(a) == old(Word(a));
      }
    }

    /** Stores into the slot of an address: no other word changes. */
    method PutWord(page: array<bv32>, addr: bv32, word: bv32, ghost flat: Flat)
      requires Valid() && page == pages[PageNumber(addr)] && Agrees(flat)
      modifies page
      ensures Valid() && Agrees(Patched(flat, addr, word))
    {
      hide PageNumber, Index, WordOf, Lane, LaneOf;
      page[Index(addr)] := word;
      forall a: bv32
        ensures Byte(a) == Patched(flat, addr, word)(a)
      {
        SameWord(a, addr);
      }
    }

    lemma AgreesToo(f: Flat, g: Flat)
      requires Valid() && Agrees(f) && SameFlat(f, g)
      ensures Agrees(g)
    {
      hide Byte;
    }

    lemma SameBytes(a: bv32, b: bv32)
      requires Valid() && WordOf(a) == WordOf(b)
      ensures Byte(a) == Lane(Word(b), LaneOf(a))
    {
      hide PageNumber, Index, WordOf, LaneOf, Lane;
      SameWord(a, b);
    }

    lemma FlatWord(addr: bv32, flat: Flat)
      requires Valid() && Agrees(flat)
      ensures Holds(flat, addr, Word(addr))
    {
      hide PageNumber, Index, WordOf, LaneOf, Lane;
      forall a: bv32 | WordOf(a) == WordOf(addr)
        ensures flat(a) == Lane(Word(addr), LaneOf(a))
      {
        SameBytes(a, addr);
      }
    }

    method WriteWord(addr: bv32, data: bv32, ghost flat: Flat) returns (ok: bool)
      requires Valid() && Agrees(flat)
      modifies Repr, this`Repr
      ensures Valid() && fresh(Repr - old(Repr)) && old(Repr) <= Repr
      ensures ok <==> !HasBits(addr, 3)
      ensures Agrees(if ok then Put(flat, addr, 4, data) else flat)
    {
      hide PageNumber, Index, HasBits, Agrees, SameFlat, Patched, Put;
      if HasBits(addr, 3) {
        return false;
      }
      var page := GetPage(addr, flat);
      PutWord(page, addr, data, flat);
      PutWordBytes(flat, addr, data);
      AgreesToo(Patched(flat, addr, data), Put(flat, addr, 4, data));
      return true;
    }

    method WriteHalf(addr: bv32, data: bv32, ghost flat: Flat) returns (ok: bool)
      requires Valid() && Agrees(flat)
      modifies Repr, this`Repr
      ensures Valid() && fresh(Repr - old(Repr)) && old(Repr) <= Repr
      ensures ok <==> !HasBits(addr, 1)
      ensures Agrees(if ok then Put(flat, addr, 2, data) else flat)
    {
      hide PageNumber, Index, HasBits, Agrees, SameFlat, Holds, Patched, Put, LowHalf, HighHalf;
      if HasBits(addr, 1) {
        return false;
      }
      var page := GetPage(addr, flat);
      var word := page[Index(addr)];
      FlatWord(addr, flat);
      PutHalfBytes(flat, addr, data, word);
      if !HasBits(addr, 2) {
        PutWord(page, addr, LowHalf(word, data), flat);
        AgreesToo(Patched(flat, addr, LowHalf(word, data)), Put(flat, addr, 2, data));
      } else {
        PutWord(page, addr, HighHalf(word, data), flat);
        AgreesToo(Patched(flat, addr, HighHalf(word, data)), Put(flat, addr, 2, data));
      }
      return true;
    }

    method WriteByte(addr: bv32, data: bv32, ghost flat: Flat)
      requires Valid() && Agrees(flat)
      modifies Repr, this`Repr
      ensures Valid() && fresh(Repr - old(Repr)) && old(Repr) <= Repr
      ensures Agrees(Put(flat, addr, 1, data))
    {
      hide PageNumber, Index, LaneOf, Agrees, SameFlat, Holds, Patched, Put, PutByte;
      var page := GetPage(addr, flat);
      var word := page[Index(addr)];
      FlatWord(addr, flat);
      PutWord(page, addr, PutByte(word, LaneOf(addr), data), flat);
      PutOneByte(flat, addr, data, word);
      AgreesToo(Patched(flat, addr, PutByte(word, LaneOf(addr), data)), Put(flat, addr, 1, data));
    }

    /** Reads create the page even when the address turns out to be misaligned. */
    method ReadWord(addr: bv32, ghost flat: Flat) returns (ok: bool, value: bv32)
      requires Valid() && Agrees(flat)
      modifies Repr, this`Repr
      ensures Valid() && fresh(Repr - old(Repr)) && old(Repr) <= Repr && Agrees(flat)
      ensures ok <==> !HasBits(addr, 3)
      ensures ok ==> value == Join(flat(addr), flat(Plus(addr, 1)), flat(Plus(addr, 2)), flat(Plus(addr, 3)))
    {
      hide Lane, Join, LaneOf, WordOf, PageNumber, Index, HasBits, Plus;
      var page := GetPage(addr, flat);
      if HasBits(addr, 3) {
        return false, 0;
      }
      LaneTests(addr);
      WordBytes(addr);
      JoinLanes(page[Index(addr)]);
      SameBytes(addr, addr);
      SameBytes(Plus(addr, 1), addr);
      SameBytes(Plus(addr, 2), addr);
      SameBytes(Plus(addr, 3), addr);
      return true, page[Index(addr)];
    }

    method ReadHalf(addr: bv32, ghost flat: Flat) returns (ok: bool, value: bv32)
      requires Valid() && Agrees(flat)
      modifies Repr, this`Repr
      ensures Valid() && fresh(Repr - old(Repr)) && old(Repr) <= Repr && Agrees(flat)
      ensures ok <==> !HasBits(addr, 1)
      ensures ok ==> value == Join(flat(addr), flat(Plus(addr, 1)), 0, 0)
    {
      hide Lane, Join, LaneOf, WordOf, PageNumber, Index, HasBits, Plus;
      var page := GetPage(addr, flat);
      var word := page[Index(addr)];
      if HasBits(addr, 1) {
        return false, 0;
      }
      LaneTests(addr);
      HalfBytes(addr);
      HalfLanes(word);
      SameBytes(addr, addr);
      SameBytes(Plus(addr, 1), addr);
      return true, if !HasBits(addr, 2) then word & 0xffff else (word >> 16) & 0xffff;
    }

    method ReadByte(addr: bv32, ghost flat: Flat) returns (value: bv32)
      requires Valid() && Agrees(flat)
      modifies Repr, this`Repr
      ensures Valid() && fresh(Repr - old(Repr)) && old(Repr) <= Repr && Agrees(flat)
      ensures value == flat(addr)
    {
      hide Lane, LaneOf, PageNumber, Index;
      var page := GetPage(addr, flat);
      value := Lane(page[Index(addr)], LaneOf(addr));
    }

    /** One access of any kind does what the flat memory does. */
    method Execute(access: Access, ghost flat: Flat) returns (outcome: Outcome)
      requires Valid() && Agrees(flat)
      modifies Repr, this`Repr
      ensures Valid() && fresh(Repr - old(Repr)) && old(Repr) <= Repr
      ensures outcome == FlatOutcome(flat, access)
      ensures Agrees(FlatAfter(flat, access))
    {
      hide Agrees, Put, Join, HasBits, Plus;
      match access
      case WriteWord(addr, data) =>
        var ok := WriteWord(addr, data, flat);
        outcome := if ok then Written else Stopped;
      case WriteHalf(addr, data) =>
        var ok := WriteHalf(addr, data, flat);
        outcome := if ok then Written else Stopped;
      case WriteByte(addr, data) =>
        WriteByte(addr, data, flat);
        outcome := Written;
      case ReadWord(addr) =>
        var ok, value := ReadWord(addr, flat);
        outcome := if ok then Got(value) else Stopped;
      case ReadHalf(addr) =>
        var ok, value := ReadHalf(addr, flat);
        outcome := if ok then Got(value) else Stopped;
      case ReadByte(addr) =>
        var value := ReadByte(addr, flat);
        outcome := Got(value);
    }
  }

  lemma FlatRunStep(flat: Flat, accesses: seq<Access>, i: nat)
    requires i < |accesses|
    ensures var outcome := FlatOutcome(flat, accesses[i]);
      FlatRun(flat, accesses[i..]) == [outcome] + if outcome == Stopped then [] else FlatRun(FlatAfter(flat, accesses[i]), accesses[i + 1..])
  {
    hide FlatOutcome, FlatAfter;
    assert accesses[i..][1..] == accesses[i + 1..];
  }

  lemma FlatRunEnd(flat: Flat, accesses: seq<Access>)
    ensures FlatRun(flat, accesses[|accesses|..]) == []
  {
  }

  lemma BlankHoldsLast()
    ensures HoldsLast(Blank(), [])
  {
  }

  /** Any sequence of accesses to a new memory gives what a zero-initialised flat byte memory gives: every
      read the bytes stored last, and an end at the first misaligned address. */
  method Run(accesses: seq<Access>) returns (outcomes: seq<Outcome>)
    ensures outcomes == FlatRun(Blank(), accesses)
    ensures |outcomes| <= |accesses|
    ensures forall i :: 0 <= i < |outcomes| ==> Answers(accesses[..i], accesses[i], outcomes[i])
    ensures forall i :: 0 <= i < |outcomes| - 1 ==> outcomes[i] != Stopped
    ensures |outcomes| < |accesses| ==> |outcomes| > 0 && outcomes[|outcomes| - 1] == Stopped
  {
    hide FlatRun, FlatOutcome, FlatAfter, Memory.Valid, Memory.Agrees, Answers, HoldsLast;
    var memory := new Memory();
    ghost var flat := Blank();
    outcomes := [];
    assert accesses[0..] == accesses;
    BlankHoldsLast();
    for i := 0 to |accesses|
      invariant memory.Valid() && fresh(memory.Repr) && memory.Agrees(flat) && HoldsLast(flat, accesses[..i])
      invariant FlatRun(Blank(), accesses) == outcomes + FlatRun(flat, accesses[i..])
      invariant |outcomes| == i && forall k :: 0 <= k < i ==> outcomes[k] != Stopped
      invariant forall k :: 0 <= k < i ==> Answers(accesses[..k], accesses[k], outcomes[k])
    {
      FlatRunStep(flat, accesses, i);
      FlatAnswers(flat, accesses[..i], accesses[i]);
      var outcome := memory.Execute(accesses[i], flat);
      outcomes := outcomes + [outcome];
      if outcome == Stopped { return; }
      OnlyMisalignedStops(flat, accesses[i]);
      FlatStores(flat, accesses[..i], accesses[i]);
      assert accesses[..i] + [accesses[i]] == accesses[..i + 1];
      flat := FlatAfter(flat, accesses[i]);
    }
    FlatRunEnd(flat, accesses);
  }

  lemma OnlyMisalignedStops(flat: Flat, access: Access)
    ensures FlatOutcome(flat, access) == Stopped <==> !Aligned(access)
  {
    hide Aligned;
  }
}
