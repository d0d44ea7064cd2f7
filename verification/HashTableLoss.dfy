// A failed insert can give up an older pair than the one being inserted: a run from the
// empty table in which the tenth insert fails and its own pair stays.
module HashTableLoss {
  import opened Wrappers
  import opened Tabulation
  import opened HashTable
  import opened HashTableProof
  import opened HashTableProcess

  type Slots = n: nat | n > 2 witness 3

  // Hashes that send every key to the same slot of each table: slot 0 of the first table,
  // slot 2 of the others. The victims are then tables 0 or 1 at first, 2 or 3 later.
  function Crowd(size: Slots): Config { Config((i: nat, key: Key) => if i == 0 then 0 else 2, size, MAX_TRIALS) }

  // ---------------------------------------------------------------- words that hash so

  // All words are zero but those for the first key bit, which is 2 in tables other than
  // the first, whether that bit is set or not.
  function CrowdWord(i: nat, k: nat): Word {
    if i == 0 || k > 0 then Zeros(MAX_ADDRESS_BITS) else Zeros(MAX_ADDRESS_BITS)[1 := true]
  }

  function CrowdWords(addressBits: nat): Words {
    Words(seq(NUM_TABLES, i requires i >= 0 => seq(2, _ => seq(KEY_SIZE, k requires k >= 0 => CrowdWord(i, k)))),
          addressBits, KEY_SIZE)
  }

  lemma {:induction false} ZerosAre(n: nat)
    ensures ToNat(Zeros(n)) == 0
    decreases n
  {
    if n > 0 {
      assert Zeros(n)[1..] == Zeros(n - 1);
      ZerosAre(n - 1);
    }
  }

  lemma TwoIs(n: nat)
    requires n >= 2
    ensures ToNat(Zeros(n)[1 := true]) == 2
  {
    var w := Zeros(n)[1 := true];
    assert w[1..][1..] == Zeros(n - 2);
    ZerosAre(n - 2);
  }

  lemma XorZeros(a: Word)
    ensures Xor(a, Zeros(|a|)) == a && Xor(Zeros(|a|), a) == a
  {
  }

  lemma {:induction false} CrowdHash(addressBits: nat, i: nat, key: Key, n: nat)
    requires 2 <= addressBits <= MAX_ADDRESS_BITS && i < NUM_TABLES && 0 < n <= KEY_SIZE
    ensures HashWord(CrowdWords(addressBits), i, key, n)
            == if i == 0 then Zeros(addressBits) else Zeros(addressBits)[1 := true]
    decreases n
  {
    var w, bit := CrowdWords(addressBits), BitOf(key, n - 1);
    assert w.words[i][if bit then 1 else 0][n - 1] == CrowdWord(i, n - 1);
    if n == 1 {
      assert RandomWord(w, i, 0, bit) == if i == 0 then Zeros(addressBits) else Zeros(addressBits)[1 := true];
      assert HashWord(w, i, key, 0) == Zeros(addressBits);
      XorZeros(RandomWord(w, i, 0, bit));
    } else {
      CrowdHash(addressBits, i, key, n - 1);
      assert RandomWord(w, i, n - 1, bit) == Zeros(addressBits);
      XorZeros(HashWord(w, i, key, n - 1));
    }
  }

  lemma {:induction false} Pow2Grows(m: nat, n: nat)
    requires m <= n
    ensures Pow2(m) <= Pow2(n)
    decreases n
  {
    if m < n { Pow2Grows(m, n - 1); }
  }

  // For every width of the addresses there are tabulation words that hash like this.
  lemma CrowdIsTabulated(addressBits: nat)
    requires 2 <= addressBits <= MAX_ADDRESS_BITS
    ensures Pow2(addressBits) > 2 && Implements(CrowdWords(addressBits), Crowd(Pow2(addressBits)))
  {
    var w := CrowdWords(addressBits);
    Pow2Grows(2, addressBits);
    assert Pow2(2) == 2 * Pow2(1);
    forall i: nat, key: Key | i < NUM_TABLES ensures SameHash(w, Crowd(Pow2(addressBits)), i, key) {
      hide HashWord;
      CrowdHash(addressBits, i, key, KEY_SIZE);
      ZerosAre(addressBits);
      TwoIs(addressBits);
    }
  }

  // ---------------------------------------------------------------- the shared slots

  // What the slot of table i that all keys share holds.
  function Shared(size: Slots, t: Tables, i: nat): Entry
    requires Shaped(Crowd(size), t) && i < NUM_TABLES
  {
    t[i][if i == 0 then 0 else 2]
  }

  lemma SharedAt(size: Slots, t: Tables, i: nat, key: Key)
    requires Shaped(Crowd(size), t) && i < NUM_TABLES
    ensures At(Crowd(size), t, i, key) == Shared(size, t, i)
  {
  }

  lemma SharedPut(size: Slots, t: Tables, i: nat, at: Key, e: Entry, j: nat)
    requires Shaped(Crowd(size), t) && i < NUM_TABLES && j < NUM_TABLES
    ensures Shared(size, Put(Crowd(size), t, i, at, e), j) == if j == i then e else Shared(size, t, j)
  {
  }

  // ---------------------------------------------------------------- filling the shared slots

  // The slots from table `from` on are taken, the others free.
  predicate TakenFrom(size: Slots, t: Tables, from: nat)
    requires Shaped(Crowd(size), t)
  {
    forall i {:trigger Shared(size, t, i)} :: 0 <= i < NUM_TABLES ==> (Shared(size, t, i).valid <==> i >= from)
  }

  lemma {:induction false} FreeIs(size: Slots, t: Tables, key: Key, from: nat, n: nat)
    requires Shaped(Crowd(size), t) && TakenFrom(size, t, from) && from <= n <= NUM_TABLES
    ensures FindFree(Crowd(size), t, key, n) == if from == 0 then None else Some(from - 1)
    decreases n
  {
    if n > 0 {
      SharedAt(size, t, n - 1, key);
      assert Shared(size, t, n - 1).valid <==> n - 1 >= from;
      if n > from {
        FreeIs(size, t, key, from, n - 1);
      }
    }
  }

  // Every key in the shared slots is one of these.
  predicate Holding(size: Slots, t: Tables, keys: seq<Key>)
    requires Shaped(Crowd(size), t)
  {
    forall i {:trigger Shared(size, t, i)} :: 0 <= i < NUM_TABLES && Shared(size, t, i).valid ==>
      Shared(size, t, i).key in keys
  }

  lemma FillsOne(size: Slots, s: Store, keys: seq<Key>, key: Key, from: nat)
    requires StoreOk(Crowd(size), s) && TakenFrom(size, s.t, from) && 0 < from <= NUM_TABLES && Holding(size, s.t, keys)
    ensures
      var (s', reply) := Apply(Crowd(size), s, InsertOp(key, 0));
      reply == Updated(true) && TakenFrom(size, s'.t, from - 1) && Holding(size, s'.t, keys + [key])
  {
    var e := Entry(key, 0, true);
    var a := Attempt(s.t, e, false, 0, s.victimBit);
    FreeIs(size, s.t, key, from, NUM_TABLES);
    var a' := Trial(Crowd(size), a);
    assert a' == a.(t := Put(Crowd(size), s.t, from - 1, key, e), done := true, victimBit := (s.victimBit + 1) % 2);
    OneTrial(size, a);
    forall j | 0 <= j < NUM_TABLES
      ensures Shared(size, a'.t, j).valid <==> j >= from - 1
      ensures Shared(size, a'.t, j).valid ==> Shared(size, a'.t, j).key in keys + [key]
    {
      SharedPut(size, s.t, from - 1, key, e, j);
    }
  }

  lemma OneTrial(size: Slots, a: Attempt)
    requires Able(Crowd(size), a) && !a.done && Trial(Crowd(size), a).done
    ensures Trials(Crowd(size), a, MAX_TRIALS) == Trial(Crowd(size), a)
  {
  }

  // ---------------------------------------------------------------- the insert that fails

  // After j trials, the first of them at place b: the new entry sits at b, an older one is
  // carried, and every slot is taken.
  predicate Settled(size: Slots, a: Attempt, key: Key, b: nat, j: nat) {
    && Able(Crowd(size), a) && !a.done && b < 2 && a.victimIdx == j % NUM_TABLES && a.victimBit == (b + j) % 2
    && TakenFrom(size, a.t, 0) && a.carried.key != key && Shared(size, a.t, b).key == key
    && forall i {:trigger Shared(size, a.t, i)} :: 0 <= i < NUM_TABLES && i != b ==> Shared(size, a.t, i).key != key
  }

  lemma Evicts(size: Slots, a: Attempt)
    requires Able(Crowd(size), a) && !a.done && TakenFrom(size, a.t, 0) && a.carried.valid
    ensures
      var pos := (if a.victimIdx == 0 then 0 else 2) + a.victimBit;
      Trial(Crowd(size), a) == Attempt(Put(Crowd(size), a.t, pos, a.carried.key, a.carried), Shared(size, a.t, pos), false,
                                   (a.victimIdx + 1) % NUM_TABLES, (a.victimBit + 1) % 2)
  {
    FreeIs(size, a.t, a.carried.key, 0, NUM_TABLES);
    SharedAt(size, a.t, (if a.victimIdx == 0 then 0 else 2) + a.victimBit, a.carried.key);
  }

  lemma SettledStep(size: Slots, a: Attempt, key: Key, b: nat, j: nat)
    requires Settled(size, a, key, b, j) && a.carried.valid && 1 <= j < MAX_TRIALS
    ensures Settled(size, Trial(Crowd(size), a), key, b, j + 1) && Trial(Crowd(size), a).carried.valid
  {
    Evicts(size, a);
    var pos := (if a.victimIdx == 0 then 0 else 2) + a.victimBit;
    assert pos != b;
    forall i | 0 <= i < NUM_TABLES
      ensures Shared(size, Trial(Crowd(size), a).t, i) == if i == pos then a.carried else Shared(size, a.t, i)
    {
      SharedPut(size, a.t, pos, a.carried.key, a.carried, i);
    }
    assert Shared(size, a.t, pos).key != key && Shared(size, a.t, pos).valid;
  }

  lemma {:induction false} StaysSettled(size: Slots, a: Attempt, key: Key, b: nat, j: nat)
    requires Settled(size, a, key, b, j) && a.carried.valid && 1 <= j <= MAX_TRIALS
    ensures Settled(size, Trials(Crowd(size), a, MAX_TRIALS - j), key, b, MAX_TRIALS)
    decreases MAX_TRIALS - j
  {
    if j < MAX_TRIALS {
      SettledStep(size, a, key, b, j);
      StaysSettled(size, Trial(Crowd(size), a), key, b, j + 1);
    }
  }

  // With all shared slots taken, inserting another key fails, keeps that key and gives up
  // on an older one.
  lemma GivesUpOlder(size: Slots, s: Store, keys: seq<Key>, key: Key)
    requires StoreOk(Crowd(size), s) && TakenFrom(size, s.t, 0) && Holding(size, s.t, keys) && key !in keys
    ensures
      var a := Insert(Crowd(size), s.t, key, 0, s.victimBit);
      !a.done && a.carried.key != key
  {
    var first := Attempt(s.t, Entry(key, 0, true), false, 0, s.victimBit);
    Evicts(size, first);
    var a := Trial(Crowd(size), first);
    forall i | 0 <= i < NUM_TABLES
      ensures Shared(size, a.t, i) == if i == s.victimBit then first.carried else Shared(size, s.t, i)
    {
      SharedPut(size, s.t, s.victimBit, key, first.carried, i);
    }
    forall i | 0 <= i < NUM_TABLES ensures Shared(size, s.t, i).valid && Shared(size, s.t, i).key != key {
      assert Shared(size, s.t, i).key in keys;
    }
    StaysSettled(size, a, key, s.victimBit, 1);
    assert Trials(Crowd(size), first, MAX_TRIALS) == Trials(Crowd(size), a, MAX_TRIALS - 1);
  }

  // ---------------------------------------------------------------- the run

  function InsertAll(keys: seq<Key>): (ops: seq<Op>)
    ensures |ops| == |keys|
    decreases |keys|
  {
    if keys == [] then [] else InsertAll(keys[..|keys| - 1]) + [InsertOp(keys[|keys| - 1], 0)]
  }

  predicate Distinct(keys: seq<Key>) { forall i, j :: 0 <= i < j < |keys| ==> keys[i] != keys[j] }

  lemma {:induction false} MapKeys(keys: seq<Key>)
    ensures PlainMap(InsertAll(keys)).Keys == set k | k in keys
    decreases |keys|
  {
    if keys != [] {
      var before, key := keys[..|keys| - 1], keys[|keys| - 1];
      MapKeys(before);
      assert InsertAll(keys)[..|keys| - 1] == InsertAll(before);
      assert keys == before + [key];
      assert (set k | k in keys) == (set k | k in before) + {key};
    }
  }

  lemma {:induction false} Fills(size: Slots, s: Store, keys: seq<Key>)
    requires StoreOk(Crowd(size), s) && Empty(s) && Distinct(keys) && |keys| <= NUM_TABLES
    ensures
      var e, ops := Run(Crowd(size), s, InsertAll(keys)), InsertAll(keys);
      && TakenFrom(size, e.t, NUM_TABLES - |keys|) && Holding(size, e.t, keys)
      && NoFailures(Crowd(size), s, ops) && Fresh(Crowd(size), s, ops)
    decreases |keys|
  {
    if keys != [] {
      hide MapOf, PlainMap, TakenFrom, Holding, Empty, HashTable.Insert, HashTable.Remove, HashTable.Lookup, FindKey;
      var n := |keys| - 1;
      var before, key := keys[..n], keys[n];
      Fills(size, s, before);
      assert InsertAll(keys)[..n] == InsertAll(before);
      FillsOne(size, Run(Crowd(size), s, InsertAll(before)), before, key, NUM_TABLES - n);
      assert before + [key] == keys;
      NoFailuresPlain(Crowd(size), s, InsertAll(before));
      MapKeys(before);
    }
  }

  // With these words, in tables of any size, nine inserts fill the slots; the tenth fails,
  // the key just inserted is stored and one of the nine before it is lost.
  lemma OlderPairLost(addressBits: nat, size: Slots, s: Store, keys: seq<Key>, key: Key) returns (lost: Key)
    requires 2 <= addressBits <= MAX_ADDRESS_BITS && size == Pow2(addressBits)
    requires StoreOk(Crowd(size), s) && Empty(s) && |keys| == NUM_TABLES && Distinct(keys) && key !in keys
    ensures Implements(CrowdWords(addressBits), Crowd(size))
    ensures
      var ops := InsertAll(keys);
      && Fresh(Crowd(size), s, ops + [InsertOp(key, 0)]) && NoFailures(Crowd(size), s, ops)
      && Apply(Crowd(size), Run(Crowd(size), s, ops), InsertOp(key, 0)).1 == Updated(false)
      && lost in keys && lost !in MapOf(Crowd(size), s, ops + [InsertOp(key, 0)])
      && key in MapOf(Crowd(size), s, ops + [InsertOp(key, 0)])
  {
    CrowdIsTabulated(addressBits);
    hide Implements, CrowdWords;
    var ops := InsertAll(keys);
    Fills(size, s, keys);
    NoFailuresPlain(Crowd(size), s, ops);
    MapKeys(keys);
    var e := Run(Crowd(size), s, ops);
    GivesUpOlder(size, e, keys, key);
    assert (ops + [InsertOp(key, 0)])[..|ops|] == ops;
    lost := FailedInsertLosesOne(Crowd(size), s, ops, key, 0);
    LostIsCarried(size, s, ops, key, lost);
  }

  lemma LostIsCarried(size: Slots, s: Store, ops: seq<Op>, key: Key, lost: Key)
    requires StoreOk(Crowd(size), s) && Empty(s) && Fresh(Crowd(size), s, ops) && key !in MapOf(Crowd(size), s, ops)
    requires lost in MapOf(Crowd(size), s, ops)[key := 0]
    requires MapOf(Crowd(size), s, ops + [InsertOp(key, 0)]) == MapOf(Crowd(size), s, ops)[key := 0] - {lost}
    requires
      var e := Run(Crowd(size), s, ops);
      var a := Insert(Crowd(size), e.t, key, 0, e.victimBit);
      !a.done && a.carried.key != key
    ensures lost != key
  {
    assert (ops + [InsertOp(key, 0)])[..|ops|] == ops;
  }
}
