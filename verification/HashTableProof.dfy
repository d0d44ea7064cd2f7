// The hash table against the count of the entries it holds, and against a plain map.
module HashTableProof {
  import opened Wrappers
  import opened Tabulation
  import opened HashTable

  // ---------------------------------------------------------------- counting entries

  type Test = Entry -> bool

  function Counted(e: Entry, f: Test): nat { if e.valid && f(e) then 1 else 0 }

  function RowCount(row: seq<Entry>, f: Test): nat
    decreases |row|
  {
    if row == [] then 0 else RowCount(row[..|row| - 1], f) + Counted(row[|row| - 1], f)
  }

  // How many valid entries pass the test.
  function Count(t: Tables, f: Test): nat
    decreases |t|
  {
    if t == [] then 0 else Count(t[..|t| - 1], f) + RowCount(t[|t| - 1], f)
  }

  function Any(): Test { (e: Entry) => true }
  function WithKey(key: Key): Test { (e: Entry) => e.key == key }
  function WithPair(key: Key, value: Value): Test { (e: Entry) => e.key == key && e.value == value }

  function Total(t: Tables): nat { Count(t, Any()) }
  function KeyCount(t: Tables, key: Key): nat { Count(t, WithKey(key)) }
  function PairCount(t: Tables, key: Key, value: Value): nat { Count(t, WithPair(key, value)) }

  // Every valid entry stays in the slot its own hash names.
  ghost predicate Placed(c: Config, t: Tables) {
    Shaped(c, t)
    && forall i: nat, h: nat {:trigger PlacedAt(c, t, i, h)} :: i < NUM_TABLES && h < Size(c) ==> PlacedAt(c, t, i, h)
  }

  predicate PlacedAt(c: Config, t: Tables, i: nat, h: nat)
    requires Shaped(c, t) && i < NUM_TABLES && h < Size(c)
  {
    t[i][h].valid ==> h == Hash(c, i, t[i][h].key)
  }

  lemma {:induction false} RowUpdate(row: seq<Entry>, h: nat, e: Entry, f: Test)
    requires h < |row|
    ensures RowCount(row[h := e], f) + Counted(row[h], f) == RowCount(row, f) + Counted(e, f)
    decreases |row|
  {
    var n := |row| - 1;
    if h == n {
      assert row[h := e][..n] == row[..n];
    } else {
      assert row[h := e][..n] == row[..n][h := e];
      RowUpdate(row[..n], h, e, f);
    }
  }

  lemma {:induction false} CountUpdate(t: Tables, i: nat, row: seq<Entry>, f: Test)
    requires i < |t|
    ensures Count(t[i := row], f) + RowCount(t[i], f) == Count(t, f) + RowCount(row, f)
    decreases |t|
  {
    var n := |t| - 1;
    if i == n {
      assert t[i := row][..n] == t[..n];
    } else {
      assert t[i := row][..n] == t[..n][i := row];
      CountUpdate(t[..n], i, row, f);
    }
  }

  // Writing a slot exchanges its old entry for the new one.
  lemma PutCount(c: Config, t: Tables, i: nat, at: Key, e: Entry, f: Test)
    requires Shaped(c, t) && i < NUM_TABLES
    ensures Count(Put(c, t, i, at, e), f) + Counted(At(c, t, i, at), f) == Count(t, f) + Counted(e, f)
  {
    RowUpdate(t[i], Hash(c, i, at), e, f);
    CountUpdate(t, i, t[i][Hash(c, i, at) := e], f);
  }

  lemma PutPlaced(c: Config, t: Tables, i: nat, at: Key, e: Entry)
    requires Placed(c, t) && i < NUM_TABLES && (e.valid ==> e.key == at)
    ensures Placed(c, Put(c, t, i, at, e))
  {
    var t' := Put(c, t, i, at, e);
    forall i': nat, h: nat | i' < NUM_TABLES && h < Size(c) ensures PlacedAt(c, t', i', h) {
      assert PlacedAt(c, t, i', h);
    }
  }

  lemma {:induction false} InRow(row: seq<Entry>, f: Test) returns (h: nat)
    requires RowCount(row, f) > 0
    ensures h < |row| && row[h].valid && f(row[h])
    decreases |row|
  {
    var n := |row| - 1;
    if row[n].valid && f(row[n]) {
      h := n;
    } else {
      h := InRow(row[..n], f);
    }
  }

  lemma {:induction false} InTables(t: Tables, f: Test) returns (i: nat, h: nat)
    requires Count(t, f) > 0
    ensures i < |t| && h < |t[i]| && t[i][h].valid && f(t[i][h])
    decreases |t|
  {
    var n := |t| - 1;
    if RowCount(t[n], f) > 0 {
      i := n;
      h := InRow(t[n], f);
    } else {
      i, h := InTables(t[..n], f);
    }
  }

  lemma {:induction false} SlotInRow(row: seq<Entry>, h: nat, f: Test)
    requires h < |row| && row[h].valid && f(row[h])
    ensures RowCount(row, f) > 0
    decreases |row|
  {
    if h < |row| - 1 {
      SlotInRow(row[..|row| - 1], h, f);
    }
  }

  lemma {:induction false} SlotCounts(t: Tables, i: nat, h: nat, f: Test)
    requires i < |t| && h < |t[i]| && t[i][h].valid && f(t[i][h])
    ensures Count(t, f) > 0
    decreases |t|
  {
    if i == |t| - 1 {
      SlotInRow(t[i], h, f);
    } else {
      SlotCounts(t[..|t| - 1], i, h, f);
    }
  }

  // ---------------------------------------------------------------- insert: nothing is lost but what is carried

  // An insert evicts only when every slot of the key is taken.
  lemma {:induction false} FindFreeMisses(c: Config, t: Tables, key: Key, n: nat)
    requires Shaped(c, t) && n <= |t| && FindFree(c, t, key, n).None?
    ensures forall i :: 0 <= i < n ==> At(c, t, i, key).valid
    decreases n
  {
    if n > 0 {
      FindFreeMisses(c, t, key, n - 1);
    }
  }

  function Carried(a: Attempt, f: Test): nat { if a.done then 0 else Counted(a.carried, f) }

  // Where the attempt puts what it carries: a free slot, or that of its victim.
  function Chosen(c: Config, a: Attempt): (slot: nat)
    requires Able(c, a)
    ensures slot < NUM_TABLES
  {
    match FindFree(c, a.t, a.carried.key, |a.t|)
    case Some(slot) => slot
    case None => VictimPos(c, a.carried.key, a.victimIdx, a.victimBit)
  }

  lemma TrialExchanges(c: Config, a: Attempt)
    requires Able(c, a) && a.carried.valid
    ensures
      var a', was := Trial(c, a), At(c, a.t, Chosen(c, a), a.carried.key);
      && a'.t == Put(c, a.t, Chosen(c, a), a.carried.key, a.carried)
      && a'.done == !was.valid && a'.carried == if was.valid then was else a.carried
  {
    var i := Chosen(c, a);
    if FindFree(c, a.t, a.carried.key, |a.t|).None? {
      FindFreeMisses(c, a.t, a.carried.key, |a.t|);
      assert At(c, a.t, i, a.carried.key).valid;
    }
  }

  // The attempt is sound and accounts for all entries counted so far.
  ghost predicate Accounts(c: Config, f: Test, total: nat, a: Attempt) {
    Able(c, a) && a.carried.valid && Placed(c, a.t) && Count(a.t, f) + Carried(a, f) == total
  }

  lemma TrialConserves(c: Config, f: Test, total: nat, a: Attempt)
    requires Accounts(c, f, total, a) && !a.done
    ensures Accounts(c, f, total, Trial(c, a))
  {
    TrialExchanges(c, a);
    PutCount(c, a.t, Chosen(c, a), a.carried.key, a.carried, f);
    PutPlaced(c, a.t, Chosen(c, a), a.carried.key, a.carried);
  }

  // What every trial keeps, the whole insert keeps.
  lemma {:induction false} AlongTrials(c: Config, p: Attempt -> bool, a: Attempt, n: nat)
    requires forall b :: p(b) ==> Able(c, b)
    requires forall b {:trigger Trial(c, b)} :: p(b) && !b.done ==> p(Trial(c, b))
    requires p(a)
    ensures p(Trials(c, a, n))
    decreases n
  {
    if n != 0 && !a.done {
      AlongTrials(c, p, Trial(c, a), n - 1);
    }
  }

  // Whatever is counted, table plus carried entry is conserved: success adds exactly
  // the new entry, failure adds it at the price of exactly the entry carried last.
  lemma InsertConserves(c: Config, t: Tables, key: Key, value: Value, victimBit: nat, f: Test)
    requires Placed(c, t) && victimBit < 2
    ensures
      var a := Insert(c, t, key, value, victimBit);
      && Placed(c, a.t) && a.carried.valid
      && Count(a.t, f) + (if a.done then 0 else Counted(a.carried, f))
         == Count(t, f) + Counted(Entry(key, value, true), f)
  {
    var a := Attempt(t, Entry(key, value, true), false, 0, victimBit);
    var total := Count(t, f) + Counted(a.carried, f);
    var p := (b: Attempt) => Accounts(c, f, total, b);
    forall b | p(b) && !b.done ensures p(Trial(c, b)) {
      TrialConserves(c, f, total, b);
    }
    AlongTrials(c, p, a, c.maxTrials);
  }

  // ---------------------------------------------------------------- lookup

  lemma {:induction false} FindKeyMisses(c: Config, t: Tables, key: Key, n: nat)
    requires Shaped(c, t) && n <= |t| && FindKey(c, t, key, n).None?
    ensures forall i :: 0 <= i < n ==> !Matches(At(c, t, i, key), key)
    decreases n
  {
    if n > 0 {
      FindKeyMisses(c, t, key, n - 1);
    }
  }

  // A lookup hits iff the key is stored, and returns a value stored under it.
  lemma LookupIff(c: Config, t: Tables, key: Key)
    requires Placed(c, t)
    ensures Lookup(c, t, key).Some? <==> KeyCount(t, key) > 0
    ensures Lookup(c, t, key).Some? ==> PairCount(t, key, Lookup(c, t, key).value) > 0
  {
    match FindKey(c, t, key, |t|)
    case Some(i) =>
      SlotCounts(t, i, Hash(c, i, key), WithKey(key));
      SlotCounts(t, i, Hash(c, i, key), WithPair(key, At(c, t, i, key).value));
    case None =>
      FindKeyMisses(c, t, key, |t|);
      NotStored(c, t, key);
  }

  lemma NotStored(c: Config, t: Tables, key: Key)
    requires Placed(c, t) && forall i :: 0 <= i < NUM_TABLES ==> !Matches(At(c, t, i, key), key)
    ensures KeyCount(t, key) == 0
  {
    if KeyCount(t, key) > 0 {
      var i := StoredAt(c, t, key);
    }
  }

  lemma StoredAt(c: Config, t: Tables, key: Key) returns (i: nat)
    requires Placed(c, t) && KeyCount(t, key) > 0
    ensures i < NUM_TABLES && Matches(At(c, t, i, key), key)
  {
    var h;
    i, h := InTables(t, WithKey(key));
    assert PlacedAt(c, t, i, h);
  }

  // ---------------------------------------------------------------- remove

  ghost predicate Ignores(f: Test, key: Key) { forall e: Entry :: e.key == key ==> !f(e) }

  lemma {:induction false} RemoveTakes(c: Config, t: Tables, key: Key, n: nat, f: Test)
    requires Placed(c, t) && n <= NUM_TABLES && Ignores(f, key)
    ensures
      var t' := Remove(c, t, key, n);
      && Placed(c, t') && Count(t', f) == Count(t, f)
      && Total(t') + KeyCount(t, key) == Total(t) + KeyCount(t', key)
    decreases n
  {
    if n > 0 {
      RemoveTakes(c, t, key, n - 1, f);
      var t0 := Remove(c, t, key, n - 1);
      var e := At(c, t0, n - 1, key);
      if Matches(e, key) {
        PutPlaced(c, t0, n - 1, key, e.(valid := false));
        PutCount(c, t0, n - 1, key, e.(valid := false), f);
        PutCount(c, t0, n - 1, key, e.(valid := false), Any());
        PutCount(c, t0, n - 1, key, e.(valid := false), WithKey(key));
      }
    }
  }

  lemma {:induction false} RemoveClears(c: Config, t: Tables, key: Key, n: nat)
    requires Shaped(c, t) && n <= NUM_TABLES
    ensures forall i :: 0 <= i < n ==> !Matches(At(c, Remove(c, t, key, n), i, key), key)
    decreases n
  {
    if n > 0 {
      RemoveClears(c, t, key, n - 1);
      var t0, t' := Remove(c, t, key, n - 1), Remove(c, t, key, n);
      forall i | 0 <= i < n ensures !Matches(At(c, t', i, key), key) {
        if i < n - 1 {
          assert t'[i] == t0[i];
          assert At(c, t', i, key) == At(c, t0, i, key);
        } else if Matches(At(c, t0, i, key), key) {
          assert At(c, t', i, key) == At(c, t0, i, key).(valid := false);
        } else {
          assert t' == t0;
        }
      }
    }
  }

  // A remove takes out every entry under the key and nothing else.
  lemma RemoveExact(c: Config, t: Tables, key: Key, f: Test)
    requires Placed(c, t) && Ignores(f, key)
    ensures
      var t' := Remove(c, t, key, |t|);
      && Placed(c, t') && Count(t', f) == Count(t, f)
      && KeyCount(t', key) == 0 && Total(t') + KeyCount(t, key) == Total(t)
  {
    RemoveTakes(c, t, key, |t|, f);
    RemoveClears(c, t, key, |t|);
    NotStored(c, Remove(c, t, key, |t|), key);
  }

  // ---------------------------------------------------------------- the plain map

  function If(b: bool): nat { if b then 1 else 0 }

  predicate Maps(m: map<Key, Value>, key: Key, value: Value) { key in m && m[key] == value }

  // The table holds the map's pairs, each once, and nothing else.
  ghost predicate Agrees(t: Tables, m: map<Key, Value>) {
    && (forall k: Key {:trigger KeyCount(t, k)} :: KeyCount(t, k) == If(k in m))
    && (forall k: Key, v: Value {:trigger PairCount(t, k, v)} :: PairCount(t, k, v) == If(Maps(m, k, v)))
  }

  lemma LookupAgrees(c: Config, t: Tables, m: map<Key, Value>, key: Key)
    requires Placed(c, t) && Agrees(t, m)
    ensures Lookup(c, t, key) == if key in m then Some(m[key]) else None
  {
    LookupIff(c, t, key);
    assert KeyCount(t, key) == If(key in m);
    if Lookup(c, t, key).Some? {
      assert PairCount(t, key, Lookup(c, t, key).value) == If(Maps(m, key, Lookup(c, t, key).value));
    }
  }

  // What an insert of an absent key leaves of the map: all of it, or all but one pair.
  function MapAfterInsert(m: map<Key, Value>, key: Key, value: Value, a: Attempt): map<Key, Value> {
    if a.done then m[key := value] else m[key := value] - {a.carried.key}
  }

  // A failed insert gives up on a pair that was stored, or on the new one.
  lemma LostWasThere(c: Config, t: Tables, m: map<Key, Value>, key: Key, value: Value, victimBit: nat)
    requires Placed(c, t) && Agrees(t, m) && victimBit < 2 && key !in m
    requires !Insert(c, t, key, value, victimBit).done
    ensures
      var lost := Insert(c, t, key, value, victimBit).carried;
      Maps(m[key := value], lost.key, lost.value)
  {
    var lost := Insert(c, t, key, value, victimBit).carried;
    InsertConserves(c, t, key, value, victimBit, WithPair(lost.key, lost.value));
    assert PairCount(t, lost.key, lost.value) == If(Maps(m, lost.key, lost.value));
  }

  lemma InsertAgrees(c: Config, t: Tables, m: map<Key, Value>, key: Key, value: Value, victimBit: nat)
    requires Placed(c, t) && Agrees(t, m) && victimBit < 2 && key !in m
    ensures
      var a := Insert(c, t, key, value, victimBit);
      && Placed(c, a.t) && Agrees(a.t, MapAfterInsert(m, key, value, a))
      && Total(a.t) == Total(t) + If(a.done)
  {
    var a := Insert(c, t, key, value, victimBit);
    var m' := MapAfterInsert(m, key, value, a);
    InsertConserves(c, t, key, value, victimBit, Any());
    if !a.done { LostWasThere(c, t, m, key, value, victimBit); }
    forall k: Key ensures KeyCount(a.t, k) == If(k in m') {
      InsertConserves(c, t, key, value, victimBit, WithKey(k));
      assert KeyCount(t, k) == If(k in m);
    }
    forall k: Key, v: Value ensures PairCount(a.t, k, v) == If(Maps(m', k, v)) {
      InsertConserves(c, t, key, value, victimBit, WithPair(k, v));
      assert PairCount(t, k, v) == If(Maps(m, k, v));
    }
  }

  ghost predicate DistinctKeys(t: Tables) { forall k: Key :: KeyCount(t, k) <= 1 }

  // Keys stay distinct under a successful insert iff the key was absent.
  lemma DistinctIffAbsent(c: Config, t: Tables, key: Key, value: Value, victimBit: nat)
    requires Placed(c, t) && victimBit < 2 && DistinctKeys(t) && Insert(c, t, key, value, victimBit).done
    ensures DistinctKeys(Insert(c, t, key, value, victimBit).t) <==> Lookup(c, t, key).None?
  {
    var t' := Insert(c, t, key, value, victimBit).t;
    LookupIff(c, t, key);
    forall k: Key ensures KeyCount(t', k) == KeyCount(t, k) + If(k == key) {
      InsertConserves(c, t, key, value, victimBit, WithKey(k));
    }
    assert KeyCount(t', key) == KeyCount(t, key) + 1;
  }

  lemma RemoveAgrees(c: Config, t: Tables, m: map<Key, Value>, key: Key)
    requires Placed(c, t) && Agrees(t, m)
    ensures
      var t' := Remove(c, t, key, |t|);
      Placed(c, t') && Agrees(t', m - {key}) && Total(t') == Total(t) - If(key in m)
    ensures FindKey(c, t, key, |t|).Some? <==> key in m
  {
    var t', m' := Remove(c, t, key, |t|), m - {key};
    LookupAgrees(c, t, m, key);
    RemoveExact(c, t, key, (e: Entry) => false);
    assert KeyCount(t, key) == If(key in m);
    forall k: Key ensures KeyCount(t', k) == If(k in m') {
      if k != key {
        RemoveExact(c, t, key, WithKey(k));
        assert KeyCount(t, k) == If(k in m);
      }
    }
    forall k: Key, v: Value ensures PairCount(t', k, v) == If(Maps(m', k, v)) {
      if k != key {
        RemoveExact(c, t, key, WithPair(k, v));
        assert PairCount(t, k, v) == If(Maps(m, k, v));
      } else if PairCount(t', k, v) > 0 {
        var i, h := InTables(t', WithPair(k, v));
        SlotCounts(t', i, h, WithKey(k));
      }
    }
  }

  // ---------------------------------------------------------------- runs

  datatype Op = LookupOp(key: Key) | InsertOp(key: Key, value: Value) | RemoveOp(key: Key)
  datatype Reply = Found(value: Option<Value>) | Updated(success: bool)

  datatype Store = Store(t: Tables, victimBit: nat)

  predicate StoreOk(c: Config, s: Store) { Shaped(c, s.t) && s.victimBit < 2 }

  function Apply(c: Config, s: Store, op: Op): (r: (Store, Reply))
    requires StoreOk(c, s)
    ensures StoreOk(c, r.0)
  {
    match op
    case LookupOp(key) => (s, Found(Lookup(c, s.t, key)))
    case InsertOp(key, value) =>
      var a := Insert(c, s.t, key, value, s.victimBit);
      (Store(a.t, a.victimBit), Updated(a.done))
    case RemoveOp(key) =>
      (s.(t := Remove(c, s.t, key, |s.t|)), Updated(FindKey(c, s.t, key, |s.t|).Some?))
  }

  function Run(c: Config, s: Store, ops: seq<Op>): (s': Store)
    requires StoreOk(c, s)
    ensures StoreOk(c, s')
    decreases |ops|
  {
    if ops == [] then s else Apply(c, Run(c, s, ops[..|ops| - 1]), ops[|ops| - 1]).0
  }

  // The map one operation leaves. A failed insert drops the pair it gave up on.
  function MapAfter(c: Config, s: Store, m: map<Key, Value>, op: Op): map<Key, Value>
    requires StoreOk(c, s)
  {
    match op
    case LookupOp(_) => m
    case InsertOp(key, value) => MapAfterInsert(m, key, value, Insert(c, s.t, key, value, s.victimBit))
    case RemoveOp(key) => m - {key}
  }

  function MapOf(c: Config, s: Store, ops: seq<Op>): map<Key, Value>
    requires StoreOk(c, s)
    decreases |ops|
  {
    if ops == [] then map[]
    else
      var before := ops[..|ops| - 1];
      MapAfter(c, Run(c, s, before), MapOf(c, s, before), ops[|ops| - 1])
  }

  // Inserts are of absent keys only.
  predicate Fresh(c: Config, s: Store, ops: seq<Op>)
    requires StoreOk(c, s)
    decreases |ops|
  {
    if ops == [] then true
    else
      var before, op := ops[..|ops| - 1], ops[|ops| - 1];
      Fresh(c, s, before) && (op.InsertOp? ==> op.key !in MapOf(c, s, before))
  }

  // Successful inserts minus successful removes.
  function Balance(c: Config, s: Store, ops: seq<Op>): int
    requires StoreOk(c, s)
    decreases |ops|
  {
    if ops == [] then 0
    else
      var before, op := ops[..|ops| - 1], ops[|ops| - 1];
      Balance(c, s, before) + Change(op, Apply(c, Run(c, s, before), op).1)
  }

  function Change(op: Op, reply: Reply): int {
    if op.InsertOp? && reply == Updated(true) then 1
    else if op.RemoveOp? && reply == Updated(true) then -1
    else 0
  }

  predicate Empty(s: Store) {
    forall i, h :: 0 <= i < |s.t| && 0 <= h < |s.t[i]| ==> !s.t[i][h].valid
  }

  lemma EmptyCounts(t: Tables, f: Test)
    requires forall i, h :: 0 <= i < |t| && 0 <= h < |t[i]| ==> !t[i][h].valid
    ensures Count(t, f) == 0
  {
    if Count(t, f) > 0 {
      var i, h := InTables(t, f);
    }
  }

  lemma EmptyAgrees(t: Tables)
    requires forall i, h :: 0 <= i < |t| && 0 <= h < |t[i]| ==> !t[i][h].valid
    ensures Agrees(t, map[]) && Total(t) == 0
  {
    EmptyCounts(t, Any());
    forall k: Key ensures KeyCount(t, k) == 0 {
      EmptyCounts(t, WithKey(k));
    }
    forall k: Key, v: Value ensures PairCount(t, k, v) == 0 {
      EmptyCounts(t, WithPair(k, v));
    }
  }

  lemma StepAgrees(c: Config, s: Store, m: map<Key, Value>, op: Op)
    requires StoreOk(c, s) && Placed(c, s.t) && Agrees(s.t, m) && (op.InsertOp? ==> op.key !in m)
    ensures
      var (s', reply) := Apply(c, s, op);
      && Placed(c, s'.t) && Agrees(s'.t, MapAfter(c, s, m, op))
      && Total(s'.t) == Total(s.t) + Change(op, reply)
      && (op.LookupOp? ==> reply == Found(if op.key in m then Some(m[op.key]) else None))
      && (op.RemoveOp? ==> reply == Updated(op.key in m))
  {
    match op
    case LookupOp(key) => LookupAgrees(c, s.t, m, key);
    case InsertOp(key, value) => InsertAgrees(c, s.t, m, key, value, s.victimBit);
    case RemoveOp(key) => RemoveAgrees(c, s.t, m, key);
  }

  // In every run the table holds exactly the map's pairs, each once, each where its own
  // hash puts it; the number of valid entries is successful inserts minus successful
  // removes.
  lemma {:induction false} RunAgrees(c: Config, s: Store, ops: seq<Op>)
    requires StoreOk(c, s) && Empty(s) && Fresh(c, s, ops)
    ensures
      var t := Run(c, s, ops).t;
      Placed(c, t) && Agrees(t, MapOf(c, s, ops)) && Total(t) == Balance(c, s, ops)
    decreases |ops|
  {
    if ops == [] {
      EmptyAgrees(s.t);
    } else {
      var before := ops[..|ops| - 1];
      RunAgrees(c, s, before);
      StepAgrees(c, Run(c, s, before), MapOf(c, s, before), ops[|ops| - 1]);
    }
  }

  // Every reply is the map's answer.
  lemma RepliesAreTheMaps(c: Config, s: Store, ops: seq<Op>, op: Op)
    requires StoreOk(c, s) && Empty(s) && Fresh(c, s, ops) && !op.InsertOp?
    ensures
      var m := MapOf(c, s, ops);
      Apply(c, Run(c, s, ops), op).1
      == if op.LookupOp? then Found(if op.key in m then Some(m[op.key]) else None) else Updated(op.key in m)
  {
    RunAgrees(c, s, ops);
    StepAgrees(c, Run(c, s, ops), MapOf(c, s, ops), op);
  }

  // A failed insert loses exactly one pair of (old map plus new pair); all others keep
  // their values.
  lemma FailedInsertLosesOne(c: Config, s: Store, ops: seq<Op>, key: Key, value: Value) returns (lost: Key)
    requires StoreOk(c, s) && Empty(s) && Fresh(c, s, ops) && key !in MapOf(c, s, ops)
    requires !Apply(c, Run(c, s, ops), InsertOp(key, value)).1.success
    ensures lost in MapOf(c, s, ops)[key := value]
    ensures MapOf(c, s, ops + [InsertOp(key, value)]) == MapOf(c, s, ops)[key := value] - {lost}
  {
    var e, m := Run(c, s, ops), MapOf(c, s, ops);
    RunAgrees(c, s, ops);
    LostWasThere(c, e.t, m, key, value, e.victimBit);
    assert (ops + [InsertOp(key, value)])[..|ops|] == ops;
    lost := Insert(c, e.t, key, value, e.victimBit).carried.key;
  }

  // ---------------------------------------------------------------- runs without a failed insert

  function PlainMap(ops: seq<Op>): map<Key, Value>
    decreases |ops|
  {
    if ops == [] then map[]
    else
      var m := PlainMap(ops[..|ops| - 1]);
      match ops[|ops| - 1]
      case LookupOp(_) => m
      case InsertOp(key, value) => m[key := value]
      case RemoveOp(key) => m - {key}
  }

  predicate NoFailures(c: Config, s: Store, ops: seq<Op>)
    requires StoreOk(c, s)
    decreases |ops|
  {
    if ops == [] then true
    else
      var before, op := ops[..|ops| - 1], ops[|ops| - 1];
      NoFailures(c, s, before) && (op.InsertOp? ==> Apply(c, Run(c, s, before), op).1 == Updated(true))
  }

  lemma {:induction false} NoFailuresPlain(c: Config, s: Store, ops: seq<Op>)
    requires StoreOk(c, s) && NoFailures(c, s, ops)
    ensures MapOf(c, s, ops) == PlainMap(ops)
    decreases |ops|
  {
    if ops != [] {
      NoFailuresPlain(c, s, ops[..|ops| - 1]);
    }
  }

  // With no failed insert every lookup answers as the plain map does.
  lemma LookupsArePlain(c: Config, s: Store, ops: seq<Op>, key: Key)
    requires StoreOk(c, s) && Empty(s) && Fresh(c, s, ops) && NoFailures(c, s, ops)
    ensures Apply(c, Run(c, s, ops), LookupOp(key)).1
            == Found(if key in PlainMap(ops) then Some(PlainMap(ops)[key]) else None)
  {
    NoFailuresPlain(c, s, ops);
    RepliesAreTheMaps(c, s, ops, LookupOp(key));
  }

  // ---------------------------------------------------------------- which inserts succeed

  // One of the key's slots is free.
  ghost predicate HasRoom(c: Config, t: Tables, key: Key)
    requires Shaped(c, t)
  {
    exists i :: 0 <= i < 9 && !At(c, t, i, key).valid
  }

  // The entry that looks for a slot takes the victim's, and the victim looks on. The victim
  // is in one of two tables, told by the entry's hash and the bit that alternates.
  function Evicted(c: Config, a: Attempt): (a': Attempt)
    requires Able(c, a)
    ensures Able(c, a')
  {
    var table := Hash(c, a.victimIdx, a.carried.key) % 8 + a.victimBit;
    var slot := Hash(c, table, a.carried.key);
    Attempt(a.t[table := a.t[table][slot := a.carried]], a.t[table][slot], a.done,
            if a.victimIdx == 8 then 0 else a.victimIdx + 1, 1 - a.victimBit)
  }

  function EvictedBy(c: Config, a: Attempt, j: nat): (a': Attempt)
    requires Able(c, a)
    ensures Able(c, a')
    decreases j
  {
    if j == 0 then a else EvictedBy(c, Evicted(c, a), j - 1)
  }

  ghost predicate RoomAt(c: Config, a: Attempt, j: nat)
    requires Able(c, a)
  {
    var b := EvictedBy(c, a, j);
    HasRoom(c, b.t, b.carried.key)
  }

  lemma {:induction false} FindFreeIff(c: Config, t: Tables, key: Key, n: nat)
    requires Shaped(c, t) && n <= NUM_TABLES
    ensures FindFree(c, t, key, n).Some? <==> exists i :: 0 <= i < n && !At(c, t, i, key).valid
    decreases n
  {
    if n > 0 {
      FindFreeIff(c, t, key, n - 1);
      assert !At(c, t, n - 1, key).valid || At(c, t, n - 1, key).valid;
    }
  }

  lemma TrialIs(c: Config, a: Attempt)
    requires Able(c, a) && !a.done
    ensures Trial(c, a).done <==> HasRoom(c, a.t, a.carried.key)
    ensures !HasRoom(c, a.t, a.carried.key) ==> Trial(c, a) == Evicted(c, a)
  {
    FindFreeIff(c, a.t, a.carried.key, NUM_TABLES);
  }

  lemma RoomNow(c: Config, a: Attempt)
    requires Able(c, a)
    ensures RoomAt(c, a, 0) <==> HasRoom(c, a.t, a.carried.key)
  {
  }

  lemma RoomLater(c: Config, a: Attempt, n: nat)
    requires Able(c, a) && !RoomAt(c, a, 0) && n > 0
    ensures (exists j: nat :: j < n && RoomAt(c, a, j)) <==> exists j: nat :: j < n - 1 && RoomAt(c, Evicted(c, a), j)
  {
    hide HasRoom, Evicted;
    assert forall j: nat :: RoomAt(c, a, j + 1) <==> RoomAt(c, Evicted(c, a), j);
    if j: nat :| j < n && RoomAt(c, a, j) {
      assert RoomAt(c, Evicted(c, a), j - 1);
    }
    if j: nat :| j < n - 1 && RoomAt(c, Evicted(c, a), j) {
      assert RoomAt(c, a, j + 1);
    }
  }

  lemma {:induction false} SucceedsIff(c: Config, a: Attempt, n: nat)
    requires Able(c, a) && !a.done
    ensures Trials(c, a, n).done <==> exists j: nat :: j < n && RoomAt(c, a, j)
    decreases n
  {
    if n > 0 {
      hide Trial, Evicted, HasRoom, RoomAt;
      TrialIs(c, a);
      RoomNow(c, a);
      if !HasRoom(c, a.t, a.carried.key) {
        SucceedsIff(c, Evicted(c, a), n - 1);
        RoomLater(c, a, n);
      }
    }
  }

  // An insert succeeds exactly when, within eleven evictions, it comes to carry an entry
  // one of whose nine slots is free.
  lemma InsertSucceedsIff(c: Config, t: Tables, key: Key, value: Value, victimBit: nat)
    requires Shaped(c, t) && victimBit < 2 && c.maxTrials == MAX_TRIALS
    ensures
      var first := Attempt(t, Entry(key, value, true), false, 0, victimBit);
      Insert(c, t, key, value, victimBit).done <==> exists j: nat :: j < 12 && RoomAt(c, first, j)
  {
    SucceedsIff(c, Attempt(t, Entry(key, value, true), false, 0, victimBit), 12);
  }
}
