// hash+.c: a table from keys to lists of strings, on top of the hash table.
// Appending to a list removes the record and adds it again.
module TextTable {
  import opened Options
  import opened TableSpec
  import opened HashTable

  // ---- What the functions compute on the table ----

  ghost predicate InsertStops(t: Table, key: string)
    requires Ok(t)
  {
    LookupStops(t.records, key) && (Gotten(t, key).None? ==> AddStops(t, key))
  }

  // A removed record leaves room for itself: adding its key again cannot grow
  // the table, cannot fail and always finds a slot.
  lemma RoomForRemoved(t: Table, key: string)
    requires Ok(t) && LookupStops(t.records, key) && Lookup(t.records, key).Some?
    ensures Ok(Removed(t, key).0) && !Overloaded(Removed(t, key).0) && AddStops(Removed(t, key).0, key)
  {
    RemovedConserves(t, key);
    assert IsFree(Removed(t, key).0.records, HashOf(key), StopOffset(t.records, key));
  }

  // hash_text_insert: the new table and the return code.
  ghost function Inserted(t: Table, key: string, data: string): (Table, int)
    requires Ok(t) && InsertStops(t, key)
  {
    var list := Gotten(t, key);
    if list.None? then Added(t, Some(key), Some([data]))
    else
      RoomForRemoved(t, key);
      Added(Removed(t, key).0, Some(key), Some(list.value + [data]))
  }

  // ---- The functions ----

  // The scan for a stored key: `c < 1` is its only test, so the key must be there.
  method FindRecord(recs: array<Record>, key: string) returns (i: nat)
    requires Chained(recs[..]) && Holds(recs[..], key)
    ensures i < recs.Length && recs[i].key == Some(key)
  {
    var code := StrHash(key);
    ghost var k :| 0 <= k < recs.Length && recs[..][k].key == Some(key);
    i := 0;
    while !(code == recs[i].hash && recs[i].key == Some(key))
      invariant i <= k
      decreases k - i
    {
      assert recs[k] == recs[..][k];
      i := i + 1;
    }
  }

  // hash_text_count_data
  method CountData(mem: Hash?, key: string) returns (found: nat)
    requires mem != null ==> mem.Valid() && LookupStops(mem.records[..], key)
    ensures found == if mem == null || Gotten(mem.Value(), key).None? then 0 else |Gotten(mem.Value(), key).value|
  {
    found := 0;
    if mem == null {
      return;
    }
    var data := mem.Get(key);
    if data.None? {
      return;
    }
    while found < |data.value|
      invariant found <= |data.value|
    {
      found := found + 1;
    }
  }

  // hash_text_get_first
  method GetFirst(mem: Hash?, key: string) returns (first: Option<string>)
    requires mem != null ==> mem.Valid() && LookupStops(mem.records[..], key)
    ensures first == if mem == null then None else FirstOf(Gotten(mem.Value(), key))
  {
    if mem == null {
      return None;
    }
    var data := mem.Get(key);
    return if data.Some? && data.value != [] then Some(data.value[0]) else None;
  }

  function FirstOf(list: Option<Value>): Option<string> {
    if list.Some? && list.value != [] then Some(list.value[0]) else None
  }

  // hash_text_insert
  method Insert(mem: Hash?, key: string, data: string) returns (ret: int)
    requires mem != null ==> mem.Valid() && InsertStops(mem.Value(), key)
    modifies mem, if mem == null then {} else {mem.records}
    ensures mem == null ==> ret == -1
    ensures mem != null ==> mem.Valid() && (mem.records == old(mem.records) || fresh(mem.records))
    ensures mem != null ==> (mem.Value(), ret) == Inserted(old(mem.Value()), key, data)
  {
    if mem == null {
      return -1;
    }
    var list := mem.Get(key);
    if list.None? {
      ret := mem.Add(Some(key), Some([data]));
    } else {
      var count := CountData(mem, key);
      assert list.value[..count] == list.value;
      ret := Replace(mem, key, list.value[..count] + [data]);
    }
  }

  // The second branch of hash_text_insert: find the stored key, remove the
  // record, add it again with the longer list.
  method Replace(mem: Hash, key: string, list: Value) returns (ret: int)
    requires mem.Valid() && LookupStops(mem.records[..], key) && Lookup(mem.records[..], key).Some?
    modifies mem, mem.records
    ensures mem.Valid() && (mem.records == old(mem.records) || fresh(mem.records))
    ensures Ok(Removed(old(mem.Value()), key).0) && AddStops(Removed(old(mem.Value()), key).0, key)
    ensures (mem.Value(), ret) == Added(Removed(old(mem.Value()), key).0, Some(key), Some(list))
  {
    RoomForRemoved(mem.Value(), key);
    var i := FindRecord(mem.records, key);
    var newKey := mem.records[i].key;
    var was := mem.Remove(key);
    ret := mem.Add(newKey, Some(list));
  }

  // hash_text_delete of a key the table holds.
  method Delete(mem: Hash?, key: string)
    requires mem != null ==> mem.Valid() && Holds(mem.records[..], key)
    modifies mem, if mem == null then {} else {mem.records}
    ensures mem != null ==> mem.Valid() && LookupStops(old(mem.records[..]), key)
    ensures mem != null ==> mem.Value() == Removed(old(mem.Value()), key).0
  {
    if mem == null {
      return;
    }
    LookupFindsHeldKeys(mem.records[..], key);
    var i := FindRecord(mem.records, key);
    var data := mem.Remove(key);
  }
}
