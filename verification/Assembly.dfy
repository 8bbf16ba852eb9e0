/** The lookup table from addresses to text: open addressing that probes four slots and grows until
    every key fits. */
module Assembly {

  datatype Entry = Entry(valid: bool, addr: int, text: string)

  const NOT_FOUND: int := -1
  const PROBES: int := 4

  /** The slot at `offset` from the home slot of `addr`, wrapping at the end of the table. */
  function Probe(addr: int, offset: int, size: int): (slot: int)
    requires addr >= 0 && 0 <= offset < PROBES <= size
    ensures 0 <= slot < size
    ensures offset == 0 && addr < size ==> slot == addr
  {
    var i := addr % size + offset;
    if i >= size then i - size else i
  }

  /** Every key is a non-negative address within four probes of its home slot, and no key is there twice. */
  ghost predicate Placed(table: seq<Entry>) {
    && |table| >= PROBES
    && (forall i :: 0 <= i < |table| && table[i].valid ==> table[i].addr >= 0 && Reached(table[i].addr, i, |table|))
    && forall i, j :: 0 <= i < j < |table| && table[i].valid && table[j].valid ==> table[i].addr != table[j].addr
  }

  ghost predicate Reached(addr: int, slot: int, size: int)
    requires addr >= 0 && PROBES <= size
  {
    exists offset :: 0 <= offset < PROBES && Probe(addr, offset, size) == slot
  }

  ghost predicate Holds(table: seq<Entry>, addr: int) {
    exists i :: 0 <= i < |table| && table[i].valid && table[i].addr == addr
  }

  /** The table holds exactly the keys and texts of the map. */
  ghost predicate Represents(table: seq<Entry>, texts: map<int, string>) {
    && (forall i :: 0 <= i < |table| && table[i].valid ==> table[i].addr in texts && texts[table[i].addr] == table[i].text)
    && forall a :: a in texts ==> Holds(table, a)
  }

  /** A bound on the addresses in the table. */
  ghost predicate Below(table: seq<Entry>, bound: int) {
    forall i :: 0 <= i < |table| && table[i].valid ==> table[i].addr < bound
  }

  /** Every key sits in the slot of its own number. */
  ghost predicate AtHome(table: seq<Entry>) {
    forall i :: 0 <= i < |table| && table[i].valid ==> table[i].addr == i
  }

  /** In a table larger than every key, every key is at home: no other key can have taken its slot. */
  ghost predicate Settled(table: seq<Entry>) {
    Below(table, |table|) ==> AtHome(table)
  }

  /** One more than the largest key, or zero. */
  function Bound(table: seq<Entry>): (bound: int)
    ensures Below(table, bound) && bound >= 0
  {
    if table == [] then 0
    else
      var (b, e) := (Bound(table[..|table| - 1]), table[|table| - 1]);
      if e.valid && e.addr >= b then e.addr + 1 else b
  }

  /** The key is in the table, or one of the four slots from its home slot on is empty. */
  ghost predicate Placeable(table: seq<Entry>, addr: int)
    requires addr >= 0 && |table| >= PROBES
  {
    Holds(table, addr) || exists offset :: 0 <= offset < 4 && !table[Probe(addr, offset, |table|)].valid
  }

  /** The entries placed so far are those of the old table before position `n`. */
  ghost predicate Moved(oldTable: seq<Entry>, n: nat, table: seq<Entry>)
    requires n <= |oldTable|
  {
    && (forall i :: 0 <= i < n && oldTable[i].valid ==> oldTable[i] in table)
    && forall k :: 0 <= k < |table| && table[k].valid ==> table[k] in oldTable[..n]
  }

  /** A new key in an empty probed slot. */
  lemma PlaceKeeps(table: seq<Entry>, slot: int, e: Entry)
    requires Placed(table) && 0 <= slot < |table| && !table[slot].valid
    requires e.valid && e.addr >= 0 && Reached(e.addr, slot, |table|) && !Holds(table, e.addr)
    ensures Placed(table[slot := e])
  {
  }

  /** Writing the text of a key to its slot, or to an empty one when the key is new. */
  lemma PlaceRepresents(table: seq<Entry>, slot: int, e: Entry, texts: map<int, string>)
    requires Placed(table) && Represents(table, texts) && 0 <= slot < |table| && e.valid
    requires if table[slot].valid then table[slot].addr == e.addr else !Holds(table, e.addr)
    ensures Represents(table[slot := e], texts[e.addr := e.text])
  {
    var table' := table[slot := e];
    assert table'[slot] == e;
    forall a | a in texts && a != e.addr
      ensures Holds(table', a)
    {
      var i :| 0 <= i < |table| && table[i].valid && table[i].addr == a;
      assert table'[i] == table[i];
    }
  }

  /** A key not placed yet is not in the new table. */
  lemma NotYetMoved(entries: seq<Entry>, i: nat, table: seq<Entry>)
    requires Placed(entries) && i < |entries| && entries[i].valid && Moved(entries, i, table)
    ensures !Holds(table, entries[i].addr)
  {
    forall k | 0 <= k < |table| && table[k].valid
      ensures table[k].addr != entries[i].addr
    {
      var j :| 0 <= j < i && entries[j] == table[k];
    }
  }

  lemma MoveOne(entries: seq<Entry>, i: nat, table: seq<Entry>, slot: int)
    requires i < |entries| && entries[i].valid && Moved(entries, i, table)
    requires 0 <= slot < |table| && !table[slot].valid
    ensures Moved(entries, i + 1, table[slot := entries[i]])
  {
    var table' := table[slot := entries[i]];
    assert table'[slot] == entries[i] == entries[..i + 1][i];
    forall j | 0 <= j < i && entries[j].valid
      ensures entries[j] in table'
    {
      var k :| 0 <= k < |table| && table[k] == entries[j];
      assert table'[k] == entries[j];
    }
    forall k | 0 <= k < |table'| && table'[k].valid && k != slot
      ensures table'[k] in entries[..i + 1]
    {
      var j :| 0 <= j < i && entries[..i][j] == table[k];
      assert entries[..i + 1][j] == table'[k];
    }
  }

  lemma SkipOne(entries: seq<Entry>, i: nat, table: seq<Entry>)
    requires i < |entries| && !entries[i].valid && Moved(entries, i, table)
    ensures Moved(entries, i + 1, table)
  {
    assert entries[..i + 1] == entries[..i] + [entries[i]];
  }

  /** In a table larger than every key, where all keys are at home, the home slot of a new key is empty. */
  lemma HomeIsFree(table: seq<Entry>, addr: int)
    requires AtHome(table) && 0 <= addr < |table| && PROBES <= |table| && !Holds(table, addr)
    ensures Probe(addr, 0, |table|) == addr && !table[addr].valid
  {
  }

  /** A rehashed table represents the same map. */
  lemma MovedRepresents(oldTable: seq<Entry>, table: seq<Entry>, texts: map<int, string>)
    requires Represents(oldTable, texts) && Moved(oldTable, |oldTable|, table)
    ensures Represents(table, texts)
  {
    forall a | a in texts
      ensures Holds(table, a)
    {
      var i :| 0 <= i < |oldTable| && oldTable[i].valid && oldTable[i].addr == a;
      var k :| 0 <= k < |table| && table[k] == oldTable[i];
    }
  }

  lemma EmptyTable(entries: seq<Entry>, table: seq<Entry>)
    requires |table| >= PROBES && forall i :: 0 <= i < |table| ==> !table[i].valid
    ensures Placed(table) && Moved(entries, 0, table) && AtHome(table)
  {
  }

  lemma MoveHome(table: seq<Entry>, e: Entry)
    requires AtHome(table) && 0 <= e.addr < |table|
    ensures AtHome(table[e.addr := e])
  {
  }

  /** Keys keep their bound when they move. */
  lemma MovedBelow(entries: seq<Entry>, table: seq<Entry>, limit: int)
    requires Moved(entries, |entries|, table) && Below(entries, limit)
    ensures Below(table, limit)
  {
    forall k | 0 <= k < |table| && table[k].valid
      ensures table[k].addr < limit
    {
      var j :| 0 <= j < |entries| && entries[j] == table[k];
    }
  }

  lemma MovedBack(entries: seq<Entry>, table: seq<Entry>, limit: int)
    requires Moved(entries, |entries|, table) && Below(table, limit)
    ensures Below(entries, limit)
  {
    forall i | 0 <= i < |entries| && entries[i].valid
      ensures entries[i].addr < limit
    {
      var k :| 0 <= k < |table| && table[k] == entries[i];
    }
  }

  lemma {:induction false} BoundLeast(table: seq<Entry>, limit: int)
    requires Below(table, limit) && limit >= 0
    ensures Bound(table) <= limit
  {
    if table != [] {
      var n := |table| - 1;
      assert forall i :: 0 <= i < n ==> table[..n][i] == table[i];
      BoundLeast(table[..n], limit);
    }
  }

  /** A bound on the keys after a write is one on the keys before. */
  lemma BelowBefore(table: seq<Entry>, texts: map<int, string>, table': seq<Entry>, texts': map<int, string>, bound: int)
    requires Represents(table, texts) && Represents(table', texts') && texts.Keys <= texts'.Keys && Below(table', bound)
    ensures Below(table, bound)
  {
    forall i | 0 <= i < |table| && table[i].valid
      ensures table[i].addr < bound
    {
      assert Holds(table', table[i].addr);
    }
  }

  lemma MovedHolds(entries: seq<Entry>, table: seq<Entry>, addr: int)
    requires Moved(entries, |entries|, table) && !Holds(entries, addr)
    ensures !Holds(table, addr)
  {
    forall k | 0 <= k < |table| && table[k].valid
      ensures table[k].addr != addr
    {
      var j :| 0 <= j < |entries| && entries[j] == table[k];
    }
  }

  lemma LimitBelow(table: seq<Entry>, limit: int)
    requires Bound(table) <= limit
    ensures Below(table, limit)
  {
  }

  lemma KeyBelow(table: seq<Entry>, slot: int, bound: int)
    requires 0 <= slot < |table| && table[slot].valid && Below(table, bound)
    ensures table[slot].addr < bound
  {
  }

  /** A table at least as large as a bound on the keys has room for a new one at its home. */
  lemma RoomAtHome(table: seq<Entry>, limit: int, addr: int)
    requires Settled(table) && Below(table, limit) && 0 <= addr < limit <= |table| && PROBES <= |table| && !Holds(table, addr)
    ensures !table[Probe(addr, 0, |table|)].valid
  {
    HomeIsFree(table, addr);
  }

  /** The slot where a key may be written: its own, or an empty probed one when the key is new. */
  ghost predicate Target(table: seq<Entry>, addr: int, slot: int)
    requires addr >= 0 && |table| >= PROBES
  {
    && 0 <= slot < |table|
    && if table[slot].valid then table[slot].addr == addr
       else
         && Reached(addr, slot, |table|) && !Holds(table, addr)
         && (!table[Probe(addr, 0, |table|)].valid ==> slot == Probe(addr, 0, |table|))
  }

  lemma WriteSettled(table: seq<Entry>, addr: int, slot: int, text: string)
    requires addr >= 0 && Placed(table) && Settled(table) && Target(table, addr, slot)
    ensures Settled(table[slot := Entry(true, addr, text)])
  {
    hide Reached, Probe;
    var table' := table[slot := Entry(true, addr, text)];
    if Below(table', |table|) {
      assert table'[slot].addr == addr;
      forall i | 0 <= i < |table| && table[i].valid
        ensures table[i].addr < |table|
      {
        if i != slot { assert table'[i] == table[i]; }
      }
      if !table[slot].valid { HomeIsFree(table, addr); }
    }
  }

  lemma WriteTarget(table: seq<Entry>, addr: int, slot: int, text: string, texts: map<int, string>)
    requires addr >= 0 && Placed(table) && Represents(table, texts) && Target(table, addr, slot)
    ensures var table' := table[slot := Entry(true, addr, text)];
      Placed(table') && Represents(table', texts[addr := text])
  {
    hide Represents, Holds;
    var e := Entry(true, addr, text);
    PlaceRepresents(table, slot, e, texts);
    if !table[slot].valid { PlaceKeeps(table, slot, e); }
  }

  class Assembly {
    var lookupTable: array<Entry>
    ghost var texts: map<int, string>

    ghost predicate Valid()
      reads this, lookupTable
    {
      Placed(lookupTable[..]) && Represents(lookupTable[..], texts) && Settled(lookupTable[..])
    }

    constructor ()
      ensures Valid() && texts == map[] && fresh(lookupTable)
    {
      lookupTable := new Entry[4](_ => Entry(false, 0, ""));
      texts := map[];
    }

    /** The slot that holds `addr`, if any does. */
    method FindEntry(addr: int) returns (idx: int)
      requires Placed(lookupTable[..]) && addr >= 0
      ensures idx == NOT_FOUND <==> !Holds(lookupTable[..], addr)
      ensures idx != NOT_FOUND ==>
        0 <= idx < lookupTable.Length && lookupTable[idx].valid && lookupTable[idx].addr == addr
    {
      idx := addr % lookupTable.Length;
      for offset := 0 to 4
        invariant 0 <= idx < lookupTable.Length
        invariant offset < 4 ==> idx == Probe(addr, offset, lookupTable.Length)
        invariant forall o :: 0 <= o < offset ==>
          var e := lookupTable[Probe(addr, o, lookupTable.Length)]; !(e.valid && e.addr == addr)
      {
        var e := lookupTable[idx];
        if e.valid && e.addr == addr {
          assert e == lookupTable[..][idx];
          return;
        }
        idx := idx + 1;
        if idx == lookupTable.Length { idx := 0; }
      }
      return NOT_FOUND;
    }

    /** The first empty one of the four probed slots, if there is one. */
    method FindEmpty(addr: int) returns (idx: int)
      requires lookupTable.Length >= PROBES && addr >= 0
      ensures idx == NOT_FOUND <==> forall o :: 0 <= o < PROBES ==> lookupTable[Probe(addr, o, lookupTable.Length)].valid
      ensures idx != NOT_FOUND ==>
        0 <= idx < lookupTable.Length && !lookupTable[idx].valid && Reached(addr, idx, lookupTable.Length)
      ensures !lookupTable[Probe(addr, 0, lookupTable.Length)].valid ==> idx == Probe(addr, 0, lookupTable.Length)
    {
      idx := addr % lookupTable.Length;
      for offset := 0 to 4
        invariant 0 <= idx < lookupTable.Length
        invariant offset < 4 ==> idx == Probe(addr, offset, lookupTable.Length)
        invariant forall o :: 0 <= o < offset ==> lookupTable[Probe(addr, o, lookupTable.Length)].valid
      {
        if !lookupTable[idx].valid { return; }
        idx := idx + 1;
        if idx == lookupTable.Length { idx := 0; }
      }
      return NOT_FOUND;
    }

    /** Moves every entry to a larger table, trying larger ones until all fit. */
    method GrowAndRehash()
      requires Valid()
      modifies this`lookupTable
      ensures Valid() && fresh(lookupTable)
      ensures lookupTable.Length > 2 * old(lookupTable.Length)
      ensures lookupTable.Length == 1 + 2 * old(lookupTable.Length) || lookupTable.Length < 2 * Bound(old(lookupTable[..]))
      ensures Below(old(lookupTable[..]), lookupTable.Length) ==> AtHome(lookupTable[..])
      ensures Moved(old(lookupTable[..]), old(lookupTable.Length), lookupTable[..])
    {
      var oldTable := lookupTable;
      var newSize := 1 + 2 * oldTable.Length;
      ghost var entries := oldTable[..];
      var done := false;
      hide Bound, Below, AtHome, Moved, Represents;
      while !done
        invariant newSize == 1 + 2 * |entries| || (2 * |entries| < newSize < 2 * Bound(entries))
        invariant newSize > 2 * |entries| && entries == oldTable[..] && Placed(entries)
        invariant done ==> fresh(lookupTable) && lookupTable.Length == newSize
        invariant done ==> Placed(lookupTable[..]) && Moved(entries, |entries|, lookupTable[..])
        invariant done && Below(entries, lookupTable.Length) ==> AtHome(lookupTable[..])
        decreases !done, Bound(entries) - newSize
      {
        done, newSize := Rehash(oldTable, newSize);
      }
      MovedRepresents(entries, lookupTable[..], texts);
      if Below(lookupTable[..], lookupTable.Length) { MovedBack(entries, lookupTable[..], lookupTable.Length); }
    }

    /** One attempt; when some entry finds no empty slot, the size for the next attempt. */
    method Rehash(oldTable: array<Entry>, size: int) returns (done: bool, newSize: int)
      requires Placed(oldTable[..]) && size >= PROBES
      modifies this`lookupTable
      ensures fresh(lookupTable) && lookupTable.Length == size
      ensures done ==> newSize == size && Placed(lookupTable[..])
      ensures done ==> Moved(oldTable[..], oldTable.Length, lookupTable[..])
      ensures done && Below(oldTable[..], size) ==> AtHome(lookupTable[..])
      ensures !done ==> newSize == 1 + size * 2 && size < Bound(oldTable[..])
    {
      hide Represents, Holds, Reached, Bound, Moved, AtHome, Probe;
      done, newSize := true, size;
      lookupTable := new Entry[size](_ => Entry(false, 0, ""));
      ghost var entries := oldTable[..];
      EmptyTable(entries, lookupTable[..]);
      for i := 0 to oldTable.Length
        invariant fresh(lookupTable) && lookupTable.Length == size && entries == oldTable[..]
        invariant Placed(lookupTable[..]) && Moved(entries, i, lookupTable[..])
        invariant Below(entries, size) ==> AtHome(lookupTable[..])
      {
        if oldTable[i].valid {
          ghost var table := lookupTable[..];
          NotYetMoved(entries, i, table);
          if Below(entries, size) {
            HomeIsFree(table, oldTable[i].addr);
            MoveHome(table, oldTable[i]);
          }
          var newIdx := FindEmpty(oldTable[i].addr);
          if newIdx == NOT_FOUND {
            return false, 1 + size * 2;
          }
          MoveOne(entries, i, table, newIdx);
          PlaceKeeps(table, newIdx, oldTable[i]);
          lookupTable[newIdx] := oldTable[i];
          assert lookupTable[..] == table[newIdx := oldTable[i]];
        } else {
          SkipOne(entries, i, lookupTable[..]);
        }
      }
    }

    /** Sets the text of an address, growing the table as often as needed; a table that has grown is less
        than twice as large as any bound on the keys. */
    method Set(addr: int, text: string)
      requires Valid() && addr >= 0
      modifies this, lookupTable
      ensures Valid() && texts == old(texts)[addr := text]
      ensures if Placeable(old(lookupTable[..]), addr) then lookupTable == old(lookupTable) else fresh(lookupTable)
      ensures forall bound :: Below(lookupTable[..], bound) ==>
        lookupTable.Length == old(lookupTable.Length) || lookupTable.Length < 2 * bound
    {
      hide Placed, Represents, Holds, Settled, Bound, Below, Reached, Probe, Placeable;
      ghost var before := lookupTable[..];
      ghost var limit := if Bound(before) > addr then Bound(before) else addr + 1;
      var idx := FindSlot(addr, limit);
      ghost var table := lookupTable[..];
      WriteTarget(table, addr, idx, text, texts);
      WriteSettled(table, addr, idx, text);
      lookupTable[idx] := Entry(true, addr, text);
      texts := texts[addr := text];
      ghost var after := lookupTable[..];
      assert after == table[idx := Entry(true, addr, text)];
      forall bound | Below(after, bound)
        ensures lookupTable.Length == |before| || lookupTable.Length < 2 * bound
      {
        KeyBelow(after, idx, bound);
        BelowBefore(before, old(texts), after, texts, bound);
        BoundLeast(before, bound);
      }
    }

    /** The slot to write for an address: its own, or an empty one, in a table grown as often as needed. */
    method FindSlot(addr: int, ghost limit: int) returns (idx: int)
      requires Valid() && 0 <= addr < limit && Bound(lookupTable[..]) <= limit
      modifies this`lookupTable
      ensures Valid() && Target(lookupTable[..], addr, idx)
      ensures if Placeable(old(lookupTable[..]), addr) then lookupTable == old(lookupTable) else fresh(lookupTable)
      ensures lookupTable.Length == old(lookupTable.Length) || lookupTable.Length < 2 * limit
    {
      hide Represents, Holds, Reached, Bound, Moved, AtHome, Below, Probe;
      LimitBelow(lookupTable[..], limit);
      idx := FindEntry(addr);
      if idx == NOT_FOUND {
        idx := FindEmpty(addr);
        if limit <= lookupTable.Length { RoomAtHome(lookupTable[..], limit, addr); }
        while idx == NOT_FOUND
          invariant Valid() && !Holds(lookupTable[..], addr) && Below(lookupTable[..], limit)
          invariant if Placeable(old(lookupTable[..]), addr) then lookupTable == old(lookupTable) && idx != NOT_FOUND
            else idx == NOT_FOUND || fresh(lookupTable)
          invariant lookupTable.Length == old(lookupTable.Length) || lookupTable.Length < 2 * limit
          invariant idx == NOT_FOUND ==> lookupTable.Length < limit
          invariant idx != NOT_FOUND ==> Target(lookupTable[..], addr, idx)
          decreases idx == NOT_FOUND, limit - lookupTable.Length
        {
          ghost var entries := lookupTable[..];
          BoundLeast(entries, limit);
          GrowAndRehash();
          ghost var table := lookupTable[..];
          MovedHolds(entries, table, addr);
          MovedBelow(entries, table, limit);
          idx := FindEmpty(addr);
          if limit <= lookupTable.Length { RoomAtHome(table, limit, addr); }
        }
      }
    }

    /** The text last set for an address, or the empty string. */
    method Get(addr: int) returns (text: string)
      requires Valid() && addr >= 0
      ensures text == if addr in texts then texts[addr] else ""
    {
      var idx := FindEntry(addr);
      if idx == NOT_FOUND {
        return "";
      }
      return lookupTable[idx].text;
    }
  }
}
