// The cuckoo hash table: nine tables indexed by tabulation hashes, inserts that evict,
// and what lookups, inserts and removes mean on the bag of entries stored.
module HashTable {
  import opened Wrappers
  import opened Tabulation

  const MAX_TRIALS: nat := 12

  // A hash function for each table, the number of slots of a table, and the bound on
  // evictions. Nothing below depends on how the hashes are made.
  datatype Config = Config(hash: (nat, Key) -> nat, size: nat, maxTrials: nat)

  function Size(c: Config): (n: nat)
    ensures n > 0
  {
    if c.size == 0 then 1 else c.size
  }

  function Hash(c: Config, i: nat, key: Key): (h: nat)
    ensures h < Size(c)
  {
    var h := c.hash(i, key);
    if h < Size(c) then h else 0
  }

  // ---------------------------------------------------------------- tables

  type Value = v: nat | v < 0x1_0000
  datatype Entry = Entry(key: Key, value: Value, valid: bool)

  type Tables = seq<seq<Entry>>

  predicate Shaped(c: Config, t: Tables) {
    |t| == NUM_TABLES && forall i :: 0 <= i < NUM_TABLES ==> |t[i]| == Size(c)
  }

  // The slot of key in table i.
  function At(c: Config, t: Tables, i: nat, key: Key): Entry
    requires Shaped(c, t) && i < NUM_TABLES
  {
    t[i][Hash(c, i, key)]
  }

  function Put(c: Config, t: Tables, i: nat, at: Key, e: Entry): (t': Tables)
    requires Shaped(c, t) && i < NUM_TABLES
    ensures Shaped(c, t')
  {
    t[i := t[i][Hash(c, i, at) := e]]
  }

  // ---------------------------------------------------------------- lookup

  predicate Matches(e: Entry, key: Key) { e.valid && e.key == key }

  // The highest table below n whose slot for key holds key.
  function FindKey(c: Config, t: Tables, key: Key, n: nat): (slot: Option<nat>)
    requires Shaped(c, t) && n <= NUM_TABLES
    ensures slot.Some? ==> slot.value < n && Matches(At(c, t, slot.value, key), key)
    decreases n
  {
    if n == 0 then None
    else if Matches(At(c, t, n - 1, key), key) then Some(n - 1)
    else FindKey(c, t, key, n - 1)
  }

  function Lookup(c: Config, t: Tables, key: Key): Option<Value>
    requires Shaped(c, t)
  {
    match FindKey(c, t, key, |t|)
    case None => None
    case Some(i) => Some(At(c, t, i, key).value)
  }

  // ---------------------------------------------------------------- insert

  // The highest table below n whose slot for key is free.
  function FindFree(c: Config, t: Tables, key: Key, n: nat): (slot: Option<nat>)
    requires Shaped(c, t) && n <= NUM_TABLES
    ensures slot.Some? ==> slot.value < n && !At(c, t, slot.value, key).valid
    decreases n
  {
    if n == 0 then None
    else if !At(c, t, n - 1, key).valid then Some(n - 1)
    else FindFree(c, t, key, n - 1)
  }

  // An insert in progress: the tables, the entry still looking for a slot, and the
  // variables that choose the next victim.
  datatype Attempt = Attempt(t: Tables, carried: Entry, done: bool, victimIdx: nat, victimBit: nat)

  function VictimPos(c: Config, key: Key, victimIdx: nat, victimBit: nat): (pos: nat)
    requires victimIdx < NUM_TABLES && victimBit < 2
    ensures pos < NUM_TABLES
  {
    Hash(c, victimIdx, key) % (NUM_TABLES - 1) + victimBit
  }

  predicate Able(c: Config, a: Attempt) {
    Shaped(c, a.t) && a.victimIdx < NUM_TABLES && a.victimBit < 2
  }

  function Trial(c: Config, a: Attempt): (a': Attempt)
    requires Able(c, a)
    ensures Able(c, a')
  {
    var bit := (a.victimBit + 1) % 2;
    match FindFree(c, a.t, a.carried.key, |a.t|)
    case Some(slot) =>
      a.(t := Put(c, a.t, slot, a.carried.key, a.carried), done := true, victimBit := bit)
    case None =>
      var pos := VictimPos(c, a.carried.key, a.victimIdx, a.victimBit);
      Attempt(Put(c, a.t, pos, a.carried.key, a.carried), At(c, a.t, pos, a.carried.key), false,
              (a.victimIdx + 1) % NUM_TABLES, bit)
  }

  function Trials(c: Config, a: Attempt, n: nat): (a': Attempt)
    requires Able(c, a)
    ensures Able(c, a')
    decreases n
  {
    if n == 0 || a.done then a else Trials(c, Trial(c, a), n - 1)
  }

  function Insert(c: Config, t: Tables, key: Key, value: Value, victimBit: nat): (a: Attempt)
    requires Shaped(c, t) && victimBit < 2
    ensures Shaped(c, a.t) && a.victimBit < 2
  {
    Trials(c, Attempt(t, Entry(key, value, true), false, 0, victimBit), c.maxTrials)
  }

  // ---------------------------------------------------------------- remove

  // Invalidates key in the tables below n.
  function Remove(c: Config, t: Tables, key: Key, n: nat): (t': Tables)
    requires Shaped(c, t) && n <= NUM_TABLES
    ensures Shaped(c, t')
    ensures forall i :: n <= i < NUM_TABLES ==> t'[i] == t[i]
    decreases n
  {
    if n == 0 then t
    else
      var t' := Remove(c, t, key, n - 1);
      var e := At(c, t', n - 1, key);
      if Matches(e, key) then Put(c, t', n - 1, key, e.(valid := false)) else t'
  }
}
