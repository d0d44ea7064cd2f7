// The hash table as it runs: tables updated in place, loops over them, request and
// response streams.
module HashTableProcess {
  import opened Wrappers
  import opened Tabulation
  import opened HashTable
  import opened HashTableProof

  datatype LookupReq = LookupReq(key: Key, source: nat)
  datatype LookupResp = LookupResp(key: Key, value: Option<Value>, source: nat)
  datatype UpdateReq = UpdateReq(isInsert: bool, key: Key, value: Value, source: nat)
  datatype UpdateResp = UpdateResp(req: UpdateReq, success: bool)

  function ConfigOf(w: Words): Config {
    Config((i: nat, key: Key) => if ValidWords(w) && i < NUM_TABLES then TableHash(w, i, key) else 0,
           Pow2(w.addressBits), MAX_TRIALS)
  }

  ghost predicate SameHash(w: Words, c: Config, i: nat, key: Key)
    requires ValidWords(w) && i < NUM_TABLES
  {
    Hash(c, i, key) == TableHash(w, i, key)
  }

  // The configuration hashes with these words.
  ghost predicate Implements(w: Words, c: Config) {
    ValidWords(w)
    && forall i: nat, key: Key {:trigger SameHash(w, c, i, key)} :: i < NUM_TABLES ==> SameHash(w, c, i, key)
  }

  // Addresses fit the tables, so nothing is cut off.
  lemma ConfigImplements(w: Words)
    requires ValidWords(w)
    ensures Implements(w, ConfigOf(w))
  {
    forall i: nat, key: Key | i < NUM_TABLES ensures SameHash(w, ConfigOf(w), i, key) {
    }
  }

  method CalculateHash(w: Words, i: nat, key: Key) returns (h: nat)
    requires ValidWords(w) && i < NUM_TABLES
    ensures h == TableHash(w, i, key)
  {
    var hash := Zeros(w.addressBits);
    for k := 0 to w.keySize
      invariant hash == HashWord(w, i, key, k)
    {
      var randomValue := w.words[i][if BitOf(key, k) then 1 else 0][k];
      hash := Xor(hash, randomValue[..w.addressBits]);
    }
    h := ToNat(hash);
  }

  lemma TrialsStep(c: Config, a: Attempt, n: nat)
    requires Able(c, a) && n > 0 && !a.done
    ensures Trials(c, a, n) == Trials(c, Trial(c, a), n - 1)
  {
  }

  lemma TrialFills(c: Config, a: Attempt, slot: nat)
    requires Able(c, a) && FindFree(c, a.t, a.carried.key, |a.t|) == Some(slot)
    ensures Trial(c, a) == a.(t := Put(c, a.t, slot, a.carried.key, a.carried), done := true,
                              victimBit := (a.victimBit + 1) % 2)
  {
  }

  lemma TrialEvicts(c: Config, a: Attempt, pos: nat)
    requires Able(c, a) && FindFree(c, a.t, a.carried.key, |a.t|) == None
    requires pos == VictimPos(c, a.carried.key, a.victimIdx, a.victimBit)
    ensures Trial(c, a) == Attempt(Put(c, a.t, pos, a.carried.key, a.carried), At(c, a.t, pos, a.carried.key), false,
                                   if a.victimIdx + 1 == NUM_TABLES then 0 else a.victimIdx + 1,
                                   (a.victimBit + 1) % 2)
  {
  }

  lemma TrialsEnd(c: Config, a: Attempt, n: nat)
    requires Able(c, a) && (n == 0 || a.done)
    ensures Trials(c, a, n) == a
  {
  }

  class CuckooTable {
    const words: Words
    ghost const cfg: Config
    const tables: array2<Entry>
    var victimIdx: nat
    var victimBit: nat
    var insertFailureCounter: nat
    var regInsertFailureCount: nat
    var lookups: seq<LookupReq>
    var updates: seq<UpdateReq>
    var lookupResps: seq<LookupResp>
    var updateResps: seq<UpdateResp>

    ghost predicate Valid()
      reads this
    {
      && Implements(words, cfg) && cfg.maxTrials == MAX_TRIALS
      && tables.Length0 == NUM_TABLES && tables.Length1 == Size(cfg)
      && victimIdx < NUM_TABLES && victimBit < 2
    }

    ghost function Contents(): (t: Tables)
      reads tables
      ensures |t| == tables.Length0
      ensures tables.Length0 == NUM_TABLES && tables.Length1 == Size(cfg) ==> Shaped(cfg, t)
    {
      seq(tables.Length0, i requires 0 <= i < tables.Length0 reads tables =>
        seq(tables.Length1, h requires 0 <= h < tables.Length1 reads tables => tables[i, h]))
    }

    constructor (w: Words)
      requires ValidWords(w)
      ensures Valid() && words == w && cfg == ConfigOf(w) && fresh(tables)
      ensures HashTableProof.Empty(Store(Contents(), victimBit)) && insertFailureCounter == 0
      ensures lookups == [] && updates == [] && lookupResps == [] && updateResps == []
    {
      words, cfg := w, ConfigOf(w);
      tables := new Entry[NUM_TABLES, Pow2(w.addressBits)]((_, _) => Entry(Key([]), 0, false));
      victimIdx, victimBit, insertFailureCounter, regInsertFailureCount := 0, 0, 0, 0;
      lookups, updates, lookupResps, updateResps := [], [], [], [];
      ConfigImplements(w);
    }

    method CalculateHashes(key: Key) returns (hashes: seq<nat>)
      requires Valid()
      ensures |hashes| == NUM_TABLES && forall i :: 0 <= i < NUM_TABLES ==> hashes[i] == Hash(cfg, i, key)
    {
      hide Tabulation.HashWord;
      hashes := [];
      for i := 0 to NUM_TABLES
        invariant |hashes| == i && forall j :: 0 <= j < i ==> hashes[j] == Hash(cfg, j, key)
      {
        var hash := CalculateHash(words, i, key);
        assert SameHash(words, cfg, i, key);
        hashes := hashes + [hash];
      }
    }

    method Lookup(key: Key) returns (value: Option<Value>)
      requires Valid()
      ensures value == HashTable.Lookup(cfg, Contents(), key)
    {
      var hashes := CalculateHashes(key);
      var slot: Option<nat> := None;
      for i := 0 to NUM_TABLES
        invariant slot == FindKey(cfg, Contents(), key, i)
      {
        var current := tables[i, hashes[i]];
        assert current == At(cfg, Contents(), i, key);
        if current.valid && current.key == key {
          slot := Some(i);
        }
      }
      value := match slot case None => None case Some(i) => Some(tables[i, hashes[i]].value);
    }

    // Reads the slot of the key in every table.
    method ReadSlots(key: Key, hashes: seq<nat>) returns (current: seq<Entry>, slot: Option<nat>)
      requires Valid() && |hashes| == NUM_TABLES
      requires forall i :: 0 <= i < NUM_TABLES ==> hashes[i] == Hash(cfg, i, key)
      ensures |current| == NUM_TABLES
      ensures forall i :: 0 <= i < NUM_TABLES ==> current[i] == At(cfg, Contents(), i, key)
      ensures slot == FindFree(cfg, Contents(), key, tables.Length0)
    {
      current, slot := [], None;
      for i := 0 to NUM_TABLES
        invariant |current| == i && forall j :: 0 <= j < i ==> current[j] == At(cfg, Contents(), j, key)
        invariant slot == FindFree(cfg, Contents(), key, i)
      {
        current := current + [tables[i, hashes[i]]];
        if !current[i].valid {
          slot := Some(i);
        }
      }
    }

    // Writes all slots of the key back; only the one at pos has changed.
    method WriteSlots(key: Key, hashes: seq<nat>, current: seq<Entry>, pos: nat)
      requires Valid() && |hashes| == |current| == NUM_TABLES && pos < NUM_TABLES
      requires forall i :: 0 <= i < NUM_TABLES ==> hashes[i] == Hash(cfg, i, key)
      requires forall i :: 0 <= i < NUM_TABLES && i != pos ==> current[i] == At(cfg, Contents(), i, key)
      modifies tables
      ensures Contents() == Put(cfg, old(Contents()), pos, key, current[pos])
    {
      for i := 0 to NUM_TABLES
        invariant forall j, h :: 0 <= j < NUM_TABLES && 0 <= h < tables.Length1 ==>
                    tables[j, h] == if j < i && h == hashes[j] then current[j] else old(tables[j, h])
      {
        tables[i, hashes[i]] := current[i];
      }
      ghost var t, t' := Contents(), Put(cfg, old(Contents()), pos, key, current[pos]);
      forall j | 0 <= j < NUM_TABLES ensures t[j] == t'[j] {
        assert old(At(cfg, Contents(), j, key)) == old(tables[j, hashes[j]]);
      }
    }

    // One turn of the insert loop.
    method TryInsert(entry: Entry) returns (carried: Entry, success: bool)
      requires Valid()
      modifies this`victimIdx, this`victimBit, tables
      ensures Valid()
      ensures Attempt(Contents(), carried, success, victimIdx, victimBit)
              == Trial(cfg, old(Attempt(Contents(), entry, false, victimIdx, victimBit)))
    {
      hide HashTable.Trial, HashTable.FindFree;
      var hashes := CalculateHashes(entry.key);
      var current, slot := ReadSlots(entry.key, hashes);
      success, carried := false, entry;
      ghost var a := Attempt(Contents(), entry, false, victimIdx, victimBit);
      if slot.Some? {
        TrialFills(cfg, a, slot.value);
        WriteSlots(entry.key, hashes, current[slot.value := entry], slot.value);
        success := true;
      } else {
        var victimPos := hashes[victimIdx] % (NUM_TABLES - 1) + victimBit;
        assert victimPos == VictimPos(cfg, entry.key, victimIdx, victimBit);
        TrialEvicts(cfg, a, victimPos);
        carried := current[victimPos];
        WriteSlots(entry.key, hashes, current[victimPos := entry], victimPos);
        victimIdx := victimIdx + 1;
        if victimIdx == NUM_TABLES {
          victimIdx := 0;
        }
      }
      victimBit := (victimBit + 1) % 2;
    }

    method InsertLoop(first: Entry) returns (entry: Entry, success: bool)
      requires Valid()
      modifies this`victimIdx, this`victimBit, tables
      ensures Valid()
      ensures Attempt(Contents(), entry, success, victimIdx, victimBit)
              == Trials(cfg, old(Attempt(Contents(), first, false, victimIdx, victimBit)), cfg.maxTrials)
    {
      entry, success := first, false;
      ghost var start := Attempt(Contents(), first, false, victimIdx, victimBit);
      var j := 0;
      while j < MAX_TRIALS && !success
        invariant Valid() && j <= cfg.maxTrials
        invariant Trials(cfg, Attempt(Contents(), entry, success, victimIdx, victimBit), cfg.maxTrials - j)
                  == Trials(cfg, start, cfg.maxTrials)
      {
        TrialsStep(cfg, Attempt(Contents(), entry, success, victimIdx, victimBit), cfg.maxTrials - j);
        entry, success := TryInsert(entry);
        j := j + 1;
      }
      TrialsEnd(cfg, Attempt(Contents(), entry, success, victimIdx, victimBit), cfg.maxTrials - j);
    }

    method Insert(key: Key, value: Value) returns (success: bool)
      requires Valid()
      modifies this`victimIdx, this`victimBit, this`insertFailureCounter, this`regInsertFailureCount, tables
      ensures Valid()
      ensures
        var a := HashTable.Insert(cfg, old(Contents()), key, value, old(victimBit));
        Contents() == a.t && success == a.done && victimBit == a.victimBit
      ensures regInsertFailureCount == old(insertFailureCounter)
      ensures insertFailureCounter == if success then old(insertFailureCounter) else (old(insertFailureCounter) + 1) % 0x1_0000
    {
      hide HashTable.Trial, HashTable.Trials;
      regInsertFailureCount := insertFailureCounter;
      victimIdx := 0;
      var entry;
      entry, success := InsertLoop(Entry(key, value, true));
      if !success {
        insertFailureCounter := (insertFailureCounter + 1) % 0x1_0000;
      }
    }

    method WriteSlot(key: Key, i: nat, h: nat, e: Entry)
      requires Valid() && i < NUM_TABLES && h == Hash(cfg, i, key)
      modifies tables
      ensures Contents() == Put(cfg, old(Contents()), i, key, e)
    {
      tables[i, h] := e;
      ghost var t, t' := Contents(), Put(cfg, old(Contents()), i, key, e);
      forall j | 0 <= j < NUM_TABLES ensures t[j] == t'[j] {
      }
    }

    method Remove(key: Key) returns (success: bool)
      requires Valid()
      modifies tables
      ensures Contents() == HashTable.Remove(cfg, old(Contents()), key, tables.Length0)
      ensures success == FindKey(cfg, old(Contents()), key, tables.Length0).Some?
    {
      var hashes := CalculateHashes(key);
      success := false;
      for i := 0 to NUM_TABLES
        invariant Contents() == HashTable.Remove(cfg, old(Contents()), key, i)
        invariant success == FindKey(cfg, old(Contents()), key, i).Some?
      {
        var current := tables[i, hashes[i]];
        ghost var before := Contents();
        assert current == At(cfg, before, i, key) == At(cfg, old(Contents()), i, key);
        if current.valid && current.key == key {
          current := current.(valid := false);
          success := true;
        }
        WriteSlot(key, i, hashes[i], current);
        if before[i][hashes[i]] == current {
          assert before[i][hashes[i] := current] == before[i];
        }
      }
    }

    // One call of the core: lookups before updates.
    method HashTableCore()
      requires Valid()
      modifies this, tables
      ensures Valid()
      ensures old(lookups) != [] ==>
                && Contents() == old(Contents()) && lookups == old(lookups)[1..] && updates == old(updates)
                && var req := old(lookups)[0];
                   lookupResps == old(lookupResps)
                                  + [LookupResp(req.key, HashTable.Lookup(cfg, old(Contents()), req.key), req.source)]
      ensures old(lookups) == [] && old(updates) != [] ==>
                && updates == old(updates)[1..] && lookups == []
                && var req, before := old(updates)[0], old(Store(Contents(), victimBit));
                   var op := if req.isInsert then InsertOp(req.key, req.value) else RemoveOp(req.key);
                   && Store(Contents(), victimBit) == Apply(cfg, before, op).0
                   && updateResps == old(updateResps) + [UpdateResp(req, Apply(cfg, before, op).1 == Updated(true))]
    {
      hide HashTableProof.Apply, HashTable.Lookup;
      if lookups != [] {
        var request := lookups[0];
        lookups := lookups[1..];
        var value := Lookup(request.key);
        lookupResps := lookupResps + [LookupResp(request.key, value, request.source)];
      } else if updates != [] {
        var request := updates[0];
        updates := updates[1..];
        var success := Update(request);
        updateResps := updateResps + [UpdateResp(request, success)];
      }
    }

    method Update(request: UpdateReq) returns (success: bool)
      requires Valid()
      modifies this`victimIdx, this`victimBit, this`insertFailureCounter, this`regInsertFailureCount, tables
      ensures Valid()
      ensures (Store(Contents(), victimBit), Updated(success))
              == Apply(cfg, old(Store(Contents(), victimBit)),
                       if request.isInsert then InsertOp(request.key, request.value) else RemoveOp(request.key))
    {
      if request.isInsert {
        success := Insert(request.key, request.value);
      } else {
        success := Remove(request.key);
      }
    }

    method Perform(op: Op) returns (reply: Reply)
      requires Valid()
      modifies this`victimIdx, this`victimBit, this`insertFailureCounter, this`regInsertFailureCount, tables
      ensures Valid()
      ensures (Store(Contents(), victimBit), reply) == Apply(cfg, old(Store(Contents(), victimBit)), op)
    {
      match op {
        case LookupOp(key) =>
          var value := Lookup(key);
          reply := Found(value);
        case InsertOp(key, value) =>
          var success := Update(UpdateReq(true, key, value, 0));
          reply := Updated(success);
        case RemoveOp(key) =>
          var success := Update(UpdateReq(false, key, 0, 0));
          reply := Updated(success);
      }
    }

    // Any sequence of operations inserting absent keys, from the empty table: the tables
    // end up holding exactly what the theorems say.
    method Execute(ops: seq<Op>)
      requires Valid() && HashTableProof.Empty(Store(Contents(), victimBit))
      requires Fresh(cfg, Store(Contents(), victimBit), ops)
      modifies this`victimIdx, this`victimBit, this`insertFailureCounter, this`regInsertFailureCount, tables
      ensures Valid()
      ensures Agrees(Contents(), MapOf(cfg, old(Store(Contents(), victimBit)), ops))
      ensures Total(Contents()) == Balance(cfg, old(Store(Contents(), victimBit)), ops)
    {
      hide HashTableProof.Apply;
      ghost var start := Store(Contents(), victimBit);
      for k := 0 to |ops|
        invariant Valid() && Store(Contents(), victimBit) == Run(cfg, start, ops[..k])
      {
        assert ops[..k + 1][..k] == ops[..k];
        var reply := Perform(ops[k]);
      }
      assert ops[..|ops|] == ops;
      RunAgrees(cfg, start, ops);
    }
  }
}
