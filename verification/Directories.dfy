/** The directory (filesys/directory.cc): a fixed table of named entries, and its
    layout as a file. */
module Directories {
  import opened Bytes

  const FILE_NAME_MAX_LEN := 9
  const NUM_DIR_ENTRIES := 10
  const ENTRY_SIZE := 20  // sizeof(DirectoryEntry), with its padding
  const DIRECTORY_FILE_SIZE := NUM_DIR_ENTRIES * ENTRY_SIZE

  /** `name` has room for a terminator after the nine characters that count. */
  datatype Entry = Entry(inUse: bool, sector: int, name: seq<byte>)

  predicate Storable(e: Entry) {
    IsInt32(e.sector) && |e.name| == FILE_NAME_MAX_LEN + 1
  }

  /** A C string: the terminating zero is not part of it. */
  type Name = n: seq<byte> | 0 !in n witness []

  // ----- comparing and copying names -----

  function CharAt(name: Name, i: nat): byte {
    if i < |name| then name[i] else 0
  }

  /** strncmp(field, name, FILE_NAME_MAX_LEN) == 0, from position i on. */
  predicate SameFrom(field: seq<byte>, name: Name, i: nat)
    requires |field| == FILE_NAME_MAX_LEN + 1 && i <= FILE_NAME_MAX_LEN
    decreases FILE_NAME_MAX_LEN - i
  {
    if i == FILE_NAME_MAX_LEN then true
    else if field[i] != CharAt(name, i) then false
    else if field[i] == 0 then true
    else SameFrom(field, name, i + 1)
  }

  /** A name cut to nine characters and padded with zeros. */
  function Key(name: Name): (k: seq<byte>)
    ensures |k| == FILE_NAME_MAX_LEN
  {
    seq(FILE_NAME_MAX_LEN, i requires 0 <= i < FILE_NAME_MAX_LEN => CharAt(name, i))
  }

  /** strncpy(field, name, FILE_NAME_MAX_LEN). */
  function CopyName(field: seq<byte>, name: Name): (r: seq<byte>)
    requires |field| == FILE_NAME_MAX_LEN + 1
    ensures |r| == FILE_NAME_MAX_LEN + 1
  {
    Key(name) + field[FILE_NAME_MAX_LEN..]
  }

  /** Nothing follows the end of the name, as strncpy leaves it. */
  predicate Padded(field: seq<byte>) {
    |field| == FILE_NAME_MAX_LEN + 1
    && forall i, j :: 0 <= i < j < FILE_NAME_MAX_LEN && field[i] == 0 ==> field[j] == 0
  }

  lemma {:induction false} SameFromKey(field: seq<byte>, name: Name, i: nat)
    requires Padded(field) && i <= FILE_NAME_MAX_LEN
    ensures SameFrom(field, name, i) <==> field[i..FILE_NAME_MAX_LEN] == Key(name)[i..]
    decreases FILE_NAME_MAX_LEN - i
  {
    if i == FILE_NAME_MAX_LEN {
    } else {
      var k := Key(name);
      assert field[i..FILE_NAME_MAX_LEN] == [field[i]] + field[i + 1..FILE_NAME_MAX_LEN];
      assert k[i..] == [k[i]] + k[i + 1..];
      SameFromKey(field, name, i + 1);
      if field[i] == k[i] == 0 {
        assert forall j :: i <= j < FILE_NAME_MAX_LEN ==> field[j] == k[j];
        assert field[i..FILE_NAME_MAX_LEN] == k[i..];
      }
    }
  }

  /** On stored names strncmp compares exactly the nine-character keys. */
  lemma SameIsKey(field: seq<byte>, name: Name)
    requires Padded(field)
    ensures SameFrom(field, name, 0) <==> field[..FILE_NAME_MAX_LEN] == Key(name)
  {
    SameFromKey(field, name, 0);
    assert Key(name)[0..] == Key(name) && field[0..FILE_NAME_MAX_LEN] == field[..FILE_NAME_MAX_LEN];
  }

  lemma CopiedName(field: seq<byte>, name: Name)
    requires |field| == FILE_NAME_MAX_LEN + 1
    ensures Padded(CopyName(field, name)) && CopyName(field, name)[..FILE_NAME_MAX_LEN] == Key(name)
  {
  }

  // ----- tables -----

  type Table = t: seq<Entry> | |t| == NUM_DIR_ENTRIES witness seq(NUM_DIR_ENTRIES, _ => Entry(false, 0, []))

  function KeyOf(e: Entry): seq<byte>
    requires Storable(e)
  {
    e.name[..FILE_NAME_MAX_LEN]
  }

  ghost predicate WellNamed(t: Table) {
    && (forall i :: 0 <= i < NUM_DIR_ENTRIES ==> Storable(t[i]))
    && (forall i :: 0 <= i < NUM_DIR_ENTRIES && t[i].inUse ==> Padded(t[i].name))
    && (forall i, j :: 0 <= i < j < NUM_DIR_ENTRIES && t[i].inUse && t[j].inUse ==> KeyOf(t[i]) != KeyOf(t[j]))
  }

  /** The entry in use whose key is that of `name`, or -1. */
  ghost predicate IsIndex(t: Table, name: Name, r: int)
    requires forall i :: 0 <= i < NUM_DIR_ENTRIES ==> Storable(t[i])
  {
    && -1 <= r < NUM_DIR_ENTRIES
    && (r >= 0 ==> t[r].inUse && KeyOf(t[r]) == Key(name))
    && (r == -1 ==> forall i :: 0 <= i < NUM_DIR_ENTRIES && t[i].inUse ==> KeyOf(t[i]) != Key(name))
  }

  ghost predicate IsFreeSlot(t: Table, r: int) {
    && -1 <= r < NUM_DIR_ENTRIES
    && (r >= 0 ==> !t[r].inUse && forall i :: 0 <= i < r ==> t[i].inUse)
    && (r == -1 ==> forall i :: 0 <= i < NUM_DIR_ENTRIES ==> t[i].inUse)
  }

  /** The directory as a map: the pairs of key and header sector. */
  ghost function Names(t: Table): set<(seq<byte>, int)>
    requires forall i :: 0 <= i < NUM_DIR_ENTRIES ==> Storable(t[i])
  {
    set i | 0 <= i < NUM_DIR_ENTRIES && t[i].inUse :: (KeyOf(t[i]), t[i].sector)
  }

  // ----- layout -----

  function EntryBytes(e: Entry): (b: seq<byte>)
    requires Storable(e)
    ensures |b| == ENTRY_SIZE
  {
    [if e.inUse then 1 else 0, 0, 0, 0] + IntBytes(e.sector) + e.name + [0, 0]
  }

  function BytesEntry(b: seq<byte>): (e: Entry)
    requires |b| == ENTRY_SIZE
    ensures Storable(e)
  {
    Entry(b[0] != 0, BytesInt(b[4..8]), b[8..18])
  }

  lemma EntryRoundTrip(e: Entry)
    requires Storable(e)
    ensures BytesEntry(EntryBytes(e)) == e
  {
    hide IntBytes, BytesInt;
    var b := EntryBytes(e);
    assert b[4..8] == IntBytes(e.sector);
    assert b[8..18] == e.name;
    IntRoundTrip(e.sector);
  }

  function TableBytes(t: Table): (b: seq<byte>)
    requires forall i :: 0 <= i < NUM_DIR_ENTRIES ==> Storable(t[i])
    ensures |b| == DIRECTORY_FILE_SIZE
  {
    seq(DIRECTORY_FILE_SIZE, k requires 0 <= k < DIRECTORY_FILE_SIZE => EntryBytes(t[k / ENTRY_SIZE])[k % ENTRY_SIZE])
  }

  function BytesTable(b: seq<byte>): (t: Table)
    requires |b| == DIRECTORY_FILE_SIZE
    ensures forall i :: 0 <= i < NUM_DIR_ENTRIES ==> Storable(t[i])
  {
    seq(NUM_DIR_ENTRIES,
        i requires 0 <= i < NUM_DIR_ENTRIES => BytesEntry(b[ENTRY_SIZE * i..ENTRY_SIZE * i + ENTRY_SIZE]))
  }

  lemma TableRoundTrip(t: Table)
    requires forall i :: 0 <= i < NUM_DIR_ENTRIES ==> Storable(t[i])
    ensures BytesTable(TableBytes(t)) == t
  {
    hide EntryBytes, BytesEntry;
    var b := TableBytes(t);
    forall i | 0 <= i < NUM_DIR_ENTRIES ensures BytesTable(b)[i] == t[i] {
      assert b[ENTRY_SIZE * i..ENTRY_SIZE * i + ENTRY_SIZE] == EntryBytes(t[i]);
      EntryRoundTrip(t[i]);
    }
  }

  // ----- the object -----

  class Directory {
    const table: array<Entry>

    ghost predicate Valid()
      reads table
    {
      table.Length == NUM_DIR_ENTRIES && WellNamed(table[..])
    }

    ghost function Value(): Table
      requires Valid()
      reads table
    {
      table[..]
    }

    /** An empty directory of entries that hold `junk`. */
    constructor (junk: Table)
      requires forall i :: 0 <= i < NUM_DIR_ENTRIES ==> Storable(junk[i])
      ensures Valid() && fresh(table)
      ensures forall i :: 0 <= i < NUM_DIR_ENTRIES ==> table[i] == junk[i].(inUse := false)
    {
      table := new Entry[NUM_DIR_ENTRIES](i requires 0 <= i < NUM_DIR_ENTRIES => junk[i].(inUse := false));
    }

    /** Directory::FindIndex. */
    method FindIndex(name: Name) returns (r: int)
      requires Valid()
      ensures IsIndex(Value(), name, r)
    {
      for i := 0 to NUM_DIR_ENTRIES
        invariant forall j :: 0 <= j < i && table[j].inUse ==> KeyOf(table[j]) != Key(name)
      {
        if table[i].inUse {
          SameIsKey(table[i].name, name);
          if SameFrom(table[i].name, name, 0) {
            return i;
          }
        }
      }
      return -1;
    }

    /** Directory::Find. */
    method Find(name: Name) returns (sector: int, ghost i: int)
      requires Valid()
      ensures IsIndex(Value(), name, i)
      ensures sector == if i == -1 then -1 else table[i].sector
    {
      var r := FindIndex(name);
      i := r;
      sector := if r != -1 then table[r].sector else -1;
    }

    /** Directory::Add: fails exactly when the name is there or no slot is free. */
    method Add(name: Name, newSector: int) returns (ok: bool, ghost slot: int)
      requires Valid() && IsInt32(newSector)
      modifies table
      ensures Valid()
      ensures IsFreeSlot(old(Value()), slot)
      ensures ok <==> IsIndex(old(Value()), name, -1) && slot >= 0
      ensures Value()
           == if ok then old(Value())[slot := Entry(true, newSector, CopyName(old(Value())[slot].name, name))]
              else old(Value())
    {
      var r := FindIndex(name);
      ok := false;
      for i := 0 to NUM_DIR_ENTRIES
        invariant Value() == old(Value())
        invariant forall j :: 0 <= j < i ==> table[j].inUse
      {
        if !table[i].inUse {
          slot := i;
          if r == -1 {
            CopiedName(table[i].name, name);
            table[i] := Entry(true, newSector, CopyName(table[i].name, name));
            ok := true;
          }
          return;
        }
      }
      slot := -1;
    }

    /** Directory::Remove. */
    method Remove(name: Name) returns (ok: bool, ghost i: int)
      requires Valid()
      modifies table
      ensures Valid()
      ensures IsIndex(old(Value()), name, i) && (ok <==> i >= 0)
      ensures Value() == if ok then old(Value())[i := old(Value())[i].(inUse := false)] else old(Value())
    {
      var r := FindIndex(name);
      i := r;
      ok := r != -1;
      if ok {
        table[r] := table[r].(inUse := false);
      }
    }
  }
}
