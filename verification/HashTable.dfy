// The hash table of hash.c: records array, count and size index changed in
// place, proved to compute the functions of TableSpec.
module HashTable {
  import opened Options
  import opened Probing
  import opened TableSpec

  method StrHash(str: string) returns (code: nat)
    ensures code == HashOf(str)
  {
    var hash := 5381;
    for i := 0 to |str|
      invariant hash == Djb2(str[..i])
    {
      hash := (hash * 33 + SignedChar(str[i])) % WORD;
      assert str[..i + 1][..i] == str[..i];
    }
    assert str[..|str|] == str;
    code := if hash % WORD == 0 then 1 else hash % WORD;
  }

  // The probe loop of hash_add: first slot without a key.
  method FindFree(records: array<Record>, code: nat) returns (ind: nat)
    requires records.Length > 0 && 0 < code < WORD && HasFree(records[..], code)
    ensures ind == Probe(code, FreeOffset(records[..], code), records.Length)
  {
    ghost var recs := records[..];
    ghost var n, free := 0, FreeOffset(recs, code);
    var size, off := records.Length, 0;
    ind := code % size;
    FirstProbe(code, size);
    while records[ind].key.Some?
      invariant off == n % WORD && n <= free && ind == Probe(code, n, size)
      decreases free - n
    {
      assert !IsFree(recs, code, n);
      NextProbe(code, n, size);
      off := (off + 1) % WORD;
      ind := WordProbe(code, off, size);
      n := n + 1;
    }
    assert IsFree(recs, code, n);
  }

  // The probe loop of hash_get and hash_remove: the slot that holds the key.
  method FindKey(records: array<Record>, key: string) returns (slot: Option<nat>)
    requires records.Length > 0 && LookupStops(records[..], key)
    ensures slot == Lookup(records[..], key)
  {
    ghost var recs := records[..];
    ghost var n, stop := 0, StopOffset(recs, key);
    var code := StrHash(key);
    var size, off := records.Length, 0;
    var ind := code % size;
    FirstProbe(code, size);
    while records[ind].hash != 0
      invariant off == n % WORD && n <= stop && ind == Probe(code, n, size)
      decreases stop - n
    {
      assert records[ind] == At(recs, code, n);
      if code == records[ind].hash && records[ind].key == Some(key) {
        assert Stops(recs, key, n);
        return Some(ind);
      }
      assert !Stops(recs, key, n);
      NextProbe(code, n, size);
      off := (off + 1) % WORD;
      ind := WordProbe(code, off, size);
      n := n + 1;
    }
    assert Stops(recs, key, n);
    return None;
  }

  class Hash {
    var records: array<Record>
    var recordsCount: nat
    var sizeIndex: nat

    ghost function Value(): Table
      reads this, records
    {
      Table(records[..], recordsCount, sizeIndex)
    }

    ghost predicate Valid()
      reads this, records
    {
      Ok(Value())
    }

    // hash_new
    constructor (capacity: nat)
      ensures Valid() && fresh(records)
      ensures SizeChosen(capacity, sizeIndex)
      ensures Value() == Table(Fresh(SIZES[sizeIndex]), 0, sizeIndex)
    {
      var needed := 20 * capacity / 13;
      var sind, i := 0, 0;
      while i < |SIZES|
        invariant 0 <= i <= |SIZES|
        invariant sind == 0
        invariant forall j :: 0 <= j < i ==> SIZES[j] <= needed
      {
        if SIZES[i] > needed {
          sind := i;
          break;
        }
        i := i + 1;
      }
      LargestIsLast(needed);
      records := new Record[SIZES[sind]](_ => BLANK);
      recordsCount := 0;
      sizeIndex := sind;
      new;
      assert records[..] == Fresh(SIZES[sind]);
      FreshIsEmpty(SIZES[sind]);
    }

    // hash_add.  The searches it makes have to end.
    method Add(key: Option<string>, value: Option<Value>) returns (rc: int)
      requires Valid() && (key.Some? ==> AddStops(Value(), key.value))
      modifies this, records
      ensures Valid() && (records == old(records) || fresh(records))
      ensures (Value(), rc) == Added(old(Value()), key, value)
      decreases |SIZES| - sizeIndex, 1
    {
      assert Ok(Added(Value(), key, value).0) by {
        AddedConserves(Value(), key, value);
      }
      if key == None || key == Some("") {
        return -2;
      }
      if 20 * recordsCount > 13 * SIZES[sizeIndex] {
        rc := Grow();
        if rc != 0 {
          return;
        }
      }
      Place(key.value, value);
      rc := 0;
    }

    // The second half of hash_add: the record goes to the first free slot.
    method Place(key: string, value: Option<Value>)
      requires records.Length > 0 && HasFree(records[..], HashOf(key))
      modifies this, records
      ensures records == old(records) && Value() == Placed(old(Value()), key, value)
    {
      var code := StrHash(key);
      var ind := FindFree(records, code);
      records[ind] := Record(code, Some(key), value);
      recordsCount := recordsCount + 1;
    }

    // hash_grow
    method Grow() returns (rc: int)
      requires Valid() && Overloaded(Value())
      requires sizeIndex + 1 < |SIZES| ==> RehashStops(Entries(records[..]), SIZES[sizeIndex + 1])
      modifies this, records
      ensures rc == (if old(sizeIndex) + 1 == |SIZES| then -1 else 0)
      ensures rc == -1 ==> Value() == old(Value()) && records == old(records)
      ensures rc == 0 ==> Value() == Regrown(old(Value())) && fresh(records)
      ensures Valid()
      decreases |SIZES| - sizeIndex, 0
    {
      ghost var was := Value();
      var oldRecs := records;
      if sizeIndex == |SIZES| - 1 {
        return -1;
      }
      sizeIndex := sizeIndex + 1;
      records := new Record[SIZES[sizeIndex]](_ => BLANK);
      recordsCount := 0;
      assert records[..] == Fresh(SIZES[sizeIndex]);
      Refill(oldRecs, was);
      RegrownOk(was);
      return 0;
    }

    // The rehash loop of hash_grow, over the old records.
    method Refill(oldRecs: array<Record>, ghost was: Table)
      requires oldRecs != records && Ok(was) && oldRecs[..] == was.records
      requires was.index + 1 < |SIZES| && RehashStops(Entries(was.records), SizeAt(was.index + 1))
      requires Value() == Table(Fresh(SIZES[was.index + 1]), 0, was.index + 1)
      modifies this, records
      ensures records == old(records) || fresh(records)
      ensures Value() == Regrown(was)
      decreases |SIZES| - sizeIndex, 2
    {
      var i := 0;
      while i < oldRecs.Length
        invariant 0 <= i <= oldRecs.Length && oldRecs != records
        invariant records == old(records) || fresh(records)
        invariant oldRecs[..] == was.records
        invariant RehashStops(Entries(was.records[..i]), SizeAt(was.index + 1))
        invariant Value() == Progress(was, i)
      {
        ProgressOk(was, i);
        ProgressStep(was, i);
        if oldRecs[i].hash != 0 && oldRecs[i].key.Some? {
          var r := Add(oldRecs[i].key, oldRecs[i].value);
        }
        i := i + 1;
      }
      assert was.records[..i] == was.records;
    }

    // hash_get
    method Get(key: string) returns (value: Option<Value>)
      requires Valid() && LookupStops(records[..], key)
      ensures value == Gotten(Value(), key)
    {
      var slot := FindKey(records, key);
      value := if slot.Some? then records[slot.value].value else None;
    }

    // hash_remove
    method Remove(key: string) returns (value: Option<Value>)
      requires Valid() && LookupStops(records[..], key)
      modifies this, records
      ensures Valid() && records == old(records)
      ensures (Value(), value) == Removed(old(Value()), key)
    {
      ghost var was := Value();
      assert Ok(Removed(was, key).0) by {
        RemovedConserves(was, key);
      }
      var slot := FindKey(records, key);
      if slot.None? {
        return None;
      }
      var ind := slot.value;
      assert recordsCount > 0 by {
        HeldMeansCounted(records[..], ind);
      }
      value := records[ind].value;
      records[ind] := Record(records[ind].hash, None, None);
      recordsCount := recordsCount - 1;
      assert records[..] == Erased(was.records, ind);
    }

    // The scan written out in every function that walks a table: it counts
    // live records instead of testing the array bound.
    method Scan() returns (es: seq<Entry>)
      requires Valid()
      ensures es == Entries(records[..])
    {
      es := [];
      var i, c := 0, 0;
      while c < recordsCount
        invariant 0 <= i <= records.Length
        invariant es == Entries(records[..i]) && c == |es|
        decreases records.Length - i
      {
        assert records[..records.Length] == records[..];
        EntriesPrefix(records[..], i);
        assert records[..][..i] == records[..i] && records[..][..i + 1] == records[..i + 1];
        if records[i].hash != 0 && records[i].key.Some? {
          c := c + 1;
          es := es + [Entry(records[i].key.value, records[i].value)];
        }
        i := i + 1;
      }
      EntriesRest(records[..], i);
      assert records[..][..i] == records[..i];
    }
  }

  // The new table once the first i old slots have been re-added.
  ghost function Progress(t: Table, i: nat): Table
    requires t.index + 1 < |SIZES| && i <= |t.records|
    requires RehashStops(Entries(t.records[..i]), SizeAt(t.index + 1))
  {
    Refilled(Entries(t.records[..i]), SizeAt(t.index + 1), t.index + 1)
  }

  ghost function Refilled(es: seq<Entry>, size: nat, index: nat): Table
    requires size > 0 && RehashStops(es, size)
  {
    Table(Rehash(es, size), |es|, index)
  }

  // Half-way through, the new table is in order and has not reached its own
  // growth threshold: hash_add never re-enters hash_grow.
  lemma ProgressOk(t: Table, i: nat)
    requires Ok(t) && t.index + 1 < |SIZES| && i <= |t.records|
    requires RehashStops(Entries(t.records[..i]), SizeAt(t.index + 1))
    ensures Ok(Progress(t, i)) && !Overloaded(Progress(t, i))
  {
    EntriesUpTo(t.records, i);
    KeysNonEmpty(t.records[..i]);
    UnderNext(t, |Entries(t.records[..i])|);
    RehashedOk(Entries(t.records[..i]), SizeAt(t.index + 1), t.index + 1);
  }

  lemma UnderNext(t: Table, n: nat)
    requires Ok(t) && t.index + 1 < |SIZES| && n <= |Entries(t.records)|
    ensures 20 * n <= 13 * SizeAt(t.index + 1)
  {
    SizesNearlyDouble(t.index);
  }

  lemma RehashedOk(es: seq<Entry>, size: nat, index: nat)
    requires index < |SIZES| && size == SizeAt(index) && 20 * |es| <= 13 * size
    requires RehashStops(es, size) && forall i :: 0 <= i < |es| ==> es[i].key != ""
    ensures Ok(Refilled(es, size, index)) && !Overloaded(Refilled(es, size, index))
  {
    RehashCount(es, size);
  }

  // A prefix of a rehash that ends does so too.
  lemma PrefixStops(recs: seq<Record>, i: nat, size: nat)
    requires size > 0 && i <= |recs| && RehashStops(Entries(recs), size)
    ensures RehashStops(Entries(recs[..i]), size)
  {
    if i == 0 {
      assert recs[..0] == [];
    } else {
      EntriesPrefix(recs, i - 1);
      RehashStopsPrefix(Entries(recs), |Entries(recs[..i])|, size);
    }
  }

  lemma ProgressStep(t: Table, i: nat)
    requires Ok(t) && t.index + 1 < |SIZES| && i < |t.records|
    requires RehashStops(Entries(t.records), SizeAt(t.index + 1))
    requires RehashStops(Entries(t.records[..i]), SizeAt(t.index + 1))
    requires Ok(Progress(t, i)) && !Overloaded(Progress(t, i))
    ensures RehashStops(Entries(t.records[..i + 1]), SizeAt(t.index + 1))
    ensures var r := t.records[i];
            if r.hash != 0 && r.key.Some?
            then AddStops(Progress(t, i), r.key.value) &&
                 Progress(t, i + 1) == Added(Progress(t, i), r.key, r.value).0
            else Progress(t, i + 1) == Progress(t, i)
  {
    var r, size := t.records[i], SizeAt(t.index + 1);
    EntriesPrefix(t.records, i);
    PrefixStops(t.records, i + 1, size);
    if r.key.Some? {
      StepAdds(t, i, r.key.value, r.value);
    } else {
      assert Entries(t.records[..i + 1]) == Entries(t.records[..i]);
    }
  }

  lemma StepAdds(t: Table, i: nat, key: string, value: Option<Value>)
    requires Ok(t) && t.index + 1 < |SIZES| && i < |t.records| && key != ""
    requires Entries(t.records[..i + 1]) == Entries(t.records[..i]) + [Entry(key, value)]
    requires RehashStops(Entries(t.records[..i]), SizeAt(t.index + 1))
    requires RehashStops(Entries(t.records[..i + 1]), SizeAt(t.index + 1))
    requires Ok(Progress(t, i)) && !Overloaded(Progress(t, i))
    ensures AddStops(Progress(t, i), key) && Progress(t, i + 1) == Added(Progress(t, i), Some(key), value).0
  {
    RefillGrows(Entries(t.records[..i]), Entry(key, value), Entries(t.records[..i + 1]),
                SizeAt(t.index + 1), t.index + 1);
    AddedPlain(Progress(t, i), key, value);
  }

  lemma RefillGrows(es: seq<Entry>, e: Entry, more: seq<Entry>, size: nat, index: nat)
    requires size > 0 && more == es + [e] && RehashStops(more, size) && RehashStops(es, size)
    ensures HasFree(Rehash(es, size), HashOf(e.key))
    ensures Refilled(more, size, index) == Table(Filled(Rehash(es, size), e.key, e.value), |es| + 1, index)
  {
    RehashAppends(es, e, size);
  }

  lemma AddedPlain(t: Table, key: string, value: Option<Value>)
    requires Ok(t) && !Overloaded(t) && key != "" && HasFree(t.records, HashOf(key))
    ensures AddStops(t, key)
    ensures Added(t, Some(key), value).0 == Table(Filled(t.records, key, value), t.count + 1, t.index)
  {
  }

  lemma RehashAppends(es: seq<Entry>, e: Entry, size: nat)
    requires size > 0 && RehashStops(es + [e], size) && RehashStops(es, size)
    ensures HasFree(Rehash(es, size), HashOf(e.key))
    ensures Rehash(es + [e], size) == Filled(Rehash(es, size), e.key, e.value)
  {
    assert (es + [e])[..|es + [e]| - 1] == es;
  }

  lemma EntriesUpTo(recs: seq<Record>, i: nat)
    requires i <= |recs|
    ensures |Entries(recs[..i])| <= |Entries(recs)|
  {
    assert recs == recs[..i] + recs[i..];
    EntriesConcat(recs[..i], recs[i..]);
  }

  lemma LargestIsLast(needed: nat)
    ensures (exists i :: 0 <= i < |SIZES| && SIZES[i] > needed) <==> needed < SIZES[|SIZES| - 1]
  {
    forall i | 0 <= i < |SIZES| ensures SIZES[i] <= SIZES[|SIZES| - 1] {
      SizesIncrease(i, |SIZES| - 1);
    }
  }

  lemma EntriesPrefix(recs: seq<Record>, i: nat)
    requires i < |recs|
    ensures Entries(recs[..i + 1]) ==
            Entries(recs[..i]) + (if recs[i].key.Some? then [Entry(recs[i].key.value, recs[i].value)] else [])
    ensures Entries(recs[..i + 1]) <= Entries(recs)
    ensures Entries(recs[..i + 1]) == Entries(recs)[..|Entries(recs[..i + 1])|]
  {
    assert recs[..i + 1][..i] == recs[..i];
    assert recs == recs[..i + 1] + recs[i + 1..];
    EntriesConcat(recs[..i + 1], recs[i + 1..]);
  }

  // Once all live records have been counted the rest of the array has none.
  lemma EntriesRest(recs: seq<Record>, i: nat)
    requires i <= |recs| && |Entries(recs[..i])| >= |Entries(recs)|
    ensures Entries(recs) == Entries(recs[..i])
  {
    assert recs == recs[..i] + recs[i..];
    EntriesConcat(recs[..i], recs[i..]);
  }
}
