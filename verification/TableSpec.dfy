// What the open-addressing table of hash.c computes, as functions on the
// sequence of records, and the laws of those functions.
module TableSpec {
  import opened Options
  import opened Probing

  const SIZES: seq<nat> := [
    53, 97, 193, 389, 769, 1543, 3079, 6151, 12289, 24593, 49157, 98317,
    196613, 393241, 786433, 1572869, 3145739, 6291469, 12582917, 25165843,
    50331653, 100663319, 201326611, 402653189, 805306457, 1610612741
  ]

  function SizeAt(index: nat): (size: nat)
    requires index < |SIZES|
    ensures 53 <= size < WORD
  {
    SIZES[index]
  }

  // The only values stored are NULL-terminated lists of strings.
  type Value = seq<string>

  // One slot.  A fresh slot has hash 0; a removed record keeps its hash word.
  datatype Record = Record(hash: nat, key: Option<string>, value: Option<Value>)

  const BLANK := Record(0, None, None)

  datatype Entry = Entry(key: string, value: Option<Value>)

  // ---- djb2 ----

  // `char` is signed on the supported machines.
  function SignedChar(c: char): int {
    var b := c as int % 256;
    if b < 128 then b else b - 256
  }

  function Djb2(str: string): nat {
    if str == "" then 5381
    else (Djb2(str[..|str| - 1]) * 33 + SignedChar(str[|str| - 1])) % WORD
  }

  // Zero is the hash word of a never used slot, so no key hashes to it.
  function HashOf(str: string): (code: nat)
    ensures 0 < code < WORD
  {
    if Djb2(str) % WORD == 0 then 1 else Djb2(str) % WORD
  }

  // ---- Live records ----

  // The bindings held by a run of slots, in slot order.
  function Entries(recs: seq<Record>): (es: seq<Entry>)
    ensures |es| <= |recs|
  {
    if recs == [] then []
    else
      var r := recs[|recs| - 1];
      Entries(recs[..|recs| - 1]) + (if r.key.Some? then [Entry(r.key.value, r.value)] else [])
  }

  lemma {:induction false} EntriesConcat(a: seq<Record>, b: seq<Record>)
    ensures Entries(a + b) == Entries(a) + Entries(b)
  {
    if b == [] {
      assert a + b == a;
    } else {
      var c := b[..|b| - 1];
      EntriesConcat(a, c);
      assert (a + b)[..|a + b| - 1] == a + c;
    }
  }

  lemma CutOut(recs: seq<Record>, i: nat)
    requires i < |recs|
    ensures recs == recs[..i] + [recs[i]] + recs[i + 1..]
  {
  }

  lemma EntriesSplit(recs: seq<Record>, i: nat)
    requires i < |recs|
    ensures Entries(recs) == Entries(recs[..i]) + Entries([recs[i]]) + Entries(recs[i + 1..])
  {
    var a, r, b := recs[..i], [recs[i]], recs[i + 1..];
    CutOut(recs, i);
    EntriesConcat(a + r, b);
    EntriesConcat(a, r);
  }

  lemma EntriesOne(r: Record)
    ensures Entries([r]) == if r.key.Some? then [Entry(r.key.value, r.value)] else []
  {
    assert [r][..0] == [];
  }

  // Filling a free slot adds one binding and touches no other.
  lemma EntriesFill(recs: seq<Record>, i: nat, r: Record)
    requires i < |recs| && recs[i].key.None? && r.key.Some?
    ensures multiset(Entries(recs[i := r])) == multiset(Entries(recs)) + multiset{Entry(r.key.value, r.value)}
    ensures |Entries(recs[i := r])| == |Entries(recs)| + 1
  {
    EntriesSplit(recs, i);
    EntriesSplit(recs[i := r], i);
    EntriesOne(recs[i]);
    EntriesOne(r);
    assert recs[i := r][..i] == recs[..i];
    assert recs[i := r][i + 1..] == recs[i + 1..];
    Squeeze(Entries(recs[..i]), Entry(r.key.value, r.value), Entries(recs[i + 1..]));
  }

  lemma Squeeze(a: seq<Entry>, e: Entry, b: seq<Entry>)
    ensures multiset(a + [e] + b) == multiset(a + [] + b) + multiset{e}
    ensures |a + [e] + b| == |a + [] + b| + 1
  {
    assert a + [] + b == a + b;
  }

  ghost predicate Carries(recs: seq<Record>, i: nat, e: Entry) {
    i < |recs| && recs[i].key == Some(e.key) && recs[i].value == e.value
  }

  lemma {:induction false} EntriesMember(recs: seq<Record>, e: Entry)
    ensures e in Entries(recs) <==> exists i: nat :: Carries(recs, i, e)
  {
    if recs == [] {
    } else {
      var n := |recs| - 1;
      EntriesMember(recs[..n], e);
      if i: nat :| Carries(recs[..n], i, e) {
        assert Carries(recs, i, e);
      }
      if i: nat :| Carries(recs, i, e) {
        assert i == n || Carries(recs[..n], i, e);
      }
      assert Carries(recs, n, e) <==> recs[n].key == Some(e.key) && recs[n].value == e.value;
    }
  }

  // ---- Probe paths ----

  function At(recs: seq<Record>, code: nat, off: nat): Record
    requires recs != []
  {
    recs[Probe(code, off, |recs|)]
  }

  // Every slot before offset `off` on the path of `code` has been used.
  ghost predicate OnPath(recs: seq<Record>, code: nat, off: nat)
    requires recs != []
  {
    forall o :: 0 <= o < off ==> At(recs, code, o).hash != 0
  }

  // A lookup of the record's key is not stopped before it gets to slot i.
  ghost predicate Reachable(recs: seq<Record>, i: nat)
    requires i < |recs|
  {
    exists off: nat :: OnPath(recs, recs[i].hash, off) && Probe(recs[i].hash, off, |recs|) == i
  }

  // The probe-chain invariant.
  ghost predicate Chained(recs: seq<Record>) {
    recs != [] &&
    forall i :: 0 <= i < |recs| && recs[i].key.Some? ==>
      recs[i].key.value != "" && recs[i].hash == HashOf(recs[i].key.value) && Reachable(recs, i)
  }

  // ---- Insertion ----

  ghost predicate IsFree(recs: seq<Record>, code: nat, off: nat)
    requires recs != []
  {
    At(recs, code, off).key.None?
  }

  // The search for a free slot ends.
  ghost predicate HasFree(recs: seq<Record>, code: nat)
    requires recs != []
  {
    exists off: nat :: IsFree(recs, code, off)
  }

  ghost function FreeFrom(recs: seq<Record>, code: nat, o: nat, bound: nat): (off: nat)
    requires recs != [] && o <= bound && IsFree(recs, code, bound)
    ensures o <= off <= bound && IsFree(recs, code, off)
    ensures forall k :: o <= k < off ==> !IsFree(recs, code, k)
    decreases bound - o
  {
    if IsFree(recs, code, o) then o else FreeFrom(recs, code, o + 1, bound)
  }

  // Offset of the first slot without a key.
  ghost function FreeOffset(recs: seq<Record>, code: nat): (off: nat)
    requires recs != [] && HasFree(recs, code)
    ensures IsFree(recs, code, off)
    ensures forall k :: 0 <= k < off ==> !IsFree(recs, code, k)
  {
    var bound: nat :| IsFree(recs, code, bound);
    FreeFrom(recs, code, 0, bound)
  }

  ghost function Filled(recs: seq<Record>, key: string, value: Option<Value>): seq<Record>
    requires recs != [] && HasFree(recs, HashOf(key))
  {
    var code := HashOf(key);
    recs[Probe(code, FreeOffset(recs, code), |recs|) := Record(code, Some(key), value)]
  }

  // Paths survive any change that leaves used slots used.
  lemma StillReachable(recs: seq<Record>, recs': seq<Record>, i: nat)
    requires |recs| == |recs'| && i < |recs| && recs'[i].hash == recs[i].hash
    requires forall s :: 0 <= s < |recs| && recs[s].hash != 0 ==> recs'[s].hash != 0
    requires Reachable(recs, i)
    ensures Reachable(recs', i)
  {
    var code := recs[i].hash;
    var off: nat :| OnPath(recs, code, off) && Probe(code, off, |recs|) == i;
    forall o | 0 <= o < off ensures At(recs', code, o).hash != 0 {
      assert At(recs, code, o).hash != 0;
    }
    assert OnPath(recs', code, off);
  }

  // The slots probed before the filled one hold keys, hence non-zero hashes.
  lemma FilledReachable(recs: seq<Record>, key: string, value: Option<Value>)
    requires Chained(recs) && HasFree(recs, HashOf(key))
    ensures Reachable(Filled(recs, key, value), Probe(HashOf(key), FreeOffset(recs, HashOf(key)), |recs|))
  {
    var code := HashOf(key);
    var f := FreeOffset(recs, code);
    var slot := Probe(code, f, |recs|);
    var recs' := recs[slot := Record(code, Some(key), value)];
    assert recs' == Filled(recs, key, value);
    forall o | 0 <= o < f ensures At(recs', code, o).hash != 0 {
      assert !IsFree(recs, code, o);
      var s := Probe(code, o, |recs|);
      assert s != slot && recs'[s] == recs[s] && recs[s].key.Some?;
    }
    assert OnPath(recs', code, f);
    assert recs'[slot].hash == code;
  }

  lemma FilledKeepsChain(recs: seq<Record>, key: string, value: Option<Value>)
    requires Chained(recs) && key != "" && HasFree(recs, HashOf(key))
    ensures Chained(Filled(recs, key, value))
  {
    var recs' := Filled(recs, key, value);
    var slot := Probe(HashOf(key), FreeOffset(recs, HashOf(key)), |recs|);
    FilledReachable(recs, key, value);
    forall i | 0 <= i < |recs'| && i != slot && recs'[i].key.Some? ensures Reachable(recs', i) {
      StillReachable(recs, recs', i);
    }
  }

  lemma FilledEntries(recs: seq<Record>, key: string, value: Option<Value>)
    requires recs != [] && HasFree(recs, HashOf(key))
    ensures multiset(Entries(Filled(recs, key, value))) == multiset(Entries(recs)) + multiset{Entry(key, value)}
    ensures |Entries(Filled(recs, key, value))| == |Entries(recs)| + 1
  {
    var code := HashOf(key);
    EntriesFill(recs, Probe(code, FreeOffset(recs, code), |recs|), Record(code, Some(key), value));
  }

  // ---- Lookup ----

  predicate Bears(r: Record, key: string) {
    r.hash == HashOf(key) && r.key == Some(key)
  }

  // A lookup stops at a slot that was never used or that holds the key.
  ghost predicate Stops(recs: seq<Record>, key: string, off: nat)
    requires recs != []
  {
    At(recs, HashOf(key), off).hash == 0 || Bears(At(recs, HashOf(key), off), key)
  }

  ghost predicate LookupStops(recs: seq<Record>, key: string)
    requires recs != []
  {
    exists off: nat :: Stops(recs, key, off)
  }

  ghost function StopFrom(recs: seq<Record>, key: string, o: nat, bound: nat): (off: nat)
    requires recs != [] && o <= bound && Stops(recs, key, bound)
    ensures o <= off <= bound && Stops(recs, key, off)
    ensures forall k :: o <= k < off ==> !Stops(recs, key, k)
    decreases bound - o
  {
    if Stops(recs, key, o) then o else StopFrom(recs, key, o + 1, bound)
  }

  ghost function StopOffset(recs: seq<Record>, key: string): (off: nat)
    requires recs != [] && LookupStops(recs, key)
    ensures Stops(recs, key, off)
    ensures forall k :: 0 <= k < off ==> !Stops(recs, key, k)
  {
    var bound: nat :| Stops(recs, key, bound);
    StopFrom(recs, key, 0, bound)
  }

  // Slot a lookup ends in, if it ends in a slot that holds the key.
  ghost function Lookup(recs: seq<Record>, key: string): (slot: Option<nat>)
    requires recs != [] && LookupStops(recs, key)
    ensures slot.Some? ==> slot.value < |recs| && Bears(recs[slot.value], key)
  {
    var slot := Probe(HashOf(key), StopOffset(recs, key), |recs|);
    if recs[slot].hash != 0 then Some(slot) else None
  }

  ghost predicate Holds(recs: seq<Record>, key: string) {
    exists i :: 0 <= i < |recs| && recs[i].key == Some(key)
  }

  // A lookup finds every key that is held, tombstones or not, and always stops for it.
  lemma LookupFindsHeldKeys(recs: seq<Record>, key: string)
    requires Chained(recs)
    ensures Holds(recs, key) ==> LookupStops(recs, key)
    ensures LookupStops(recs, key) ==> (Lookup(recs, key).Some? <==> Holds(recs, key))
  {
    if Holds(recs, key) {
      var i :| 0 <= i < |recs| && recs[i].key == Some(key);
      assert Reachable(recs, i);
      var off: nat :| OnPath(recs, recs[i].hash, off) && Probe(recs[i].hash, off, |recs|) == i;
      assert Stops(recs, key, off);
      var f := StopOffset(recs, key);
      assert f <= off;
      assert At(recs, HashOf(key), f).hash != 0;
    }
  }

  // ---- Removal ----

  // The key goes, the hash word stays.
  function Erased(recs: seq<Record>, slot: nat): seq<Record>
    requires slot < |recs|
  {
    recs[slot := Record(recs[slot].hash, None, None)]
  }

  lemma ErasedKeepsChain(recs: seq<Record>, slot: nat)
    requires Chained(recs) && slot < |recs|
    ensures Chained(Erased(recs, slot))
  {
    var recs' := Erased(recs, slot);
    forall i | 0 <= i < |recs'| && recs'[i].key.Some? ensures Reachable(recs', i) {
      StillReachable(recs, recs', i);
    }
  }

  lemma {:induction false} ErasedEntries(recs: seq<Record>, slot: nat)
    requires slot < |recs| && recs[slot].key.Some?
    ensures multiset(Entries(recs)) ==
            multiset(Entries(Erased(recs, slot))) + multiset{Entry(recs[slot].key.value, recs[slot].value)}
    ensures |Entries(recs)| == |Entries(Erased(recs, slot))| + 1
  {
    EntriesFill(Erased(recs, slot), slot, recs[slot]);
    assert Erased(recs, slot)[slot := recs[slot]] == recs;
  }

  // ---- Growth ----

  function Fresh(size: nat): seq<Record> {
    seq(size, _ => BLANK)
  }

  // Every search made while re-adding `es` in order to a fresh table ends.
  ghost predicate RehashStops(es: seq<Entry>, size: nat)
    requires size > 0
    decreases |es|, 0
  {
    es == [] ||
    (RehashStops(es[..|es| - 1], size) &&
     HasFree(Rehash(es[..|es| - 1], size), HashOf(es[|es| - 1].key)))
  }

  ghost function Rehash(es: seq<Entry>, size: nat): (recs: seq<Record>)
    requires size > 0 && RehashStops(es, size)
    ensures |recs| == size
    decreases |es|, 1
  {
    if es == [] then Fresh(size)
    else Filled(Rehash(es[..|es| - 1], size), es[|es| - 1].key, es[|es| - 1].value)
  }

  lemma FreshIsEmpty(size: nat)
    ensures Entries(Fresh(size)) == []
  {
    if size == 0 {
    } else {
      FreshIsEmpty(size - 1);
      assert Fresh(size)[..size - 1] == Fresh(size - 1);
    }
  }

  // No slot has been used and emptied.
  predicate NoTombstones(recs: seq<Record>) {
    forall i :: 0 <= i < |recs| && recs[i].key.None? ==> recs[i] == BLANK
  }

  lemma {:induction false} RehashHasNoTombstones(es: seq<Entry>, size: nat)
    requires size > 0 && RehashStops(es, size)
    ensures NoTombstones(Rehash(es, size))
    decreases |es|
  {
    if es == [] {
    } else {
      RehashHasNoTombstones(es[..|es| - 1], size);
    }
  }

  // A table in order that holds exactly the bindings of `es`.
  ghost predicate Rebuilt(recs: seq<Record>, es: seq<Entry>) {
    Chained(recs) && multiset(Entries(recs)) == multiset(es)
  }

  lemma FilledRebuilt(recs: seq<Record>, es: seq<Entry>, e: Entry)
    requires Rebuilt(recs, es) && e.key != "" && HasFree(recs, HashOf(e.key))
    ensures Rebuilt(Filled(recs, e.key, e.value), es + [e])
  {
    FilledKeepsChain(recs, e.key, e.value);
    FilledEntries(recs, e.key, e.value);
  }

  lemma FreshRebuilt(size: nat)
    requires size > 0
    ensures Rebuilt(Fresh(size), [])
  {
    FreshIsEmpty(size);
  }

  lemma FrontAndLast(es: seq<Entry>)
    requires es != []
    ensures es == es[..|es| - 1] + [es[|es| - 1]]
  {
  }

  // Rehashing keeps exactly the given bindings.
  lemma {:induction false} RehashKeepsBindings(es: seq<Entry>, size: nat)
    requires size > 0 && RehashStops(es, size)
    requires forall i :: 0 <= i < |es| ==> es[i].key != ""
    ensures Rebuilt(Rehash(es, size), es)
    decreases |es|
  {
    if es == [] {
      FreshRebuilt(size);
    } else {
      RehashKeepsBindings(es[..|es| - 1], size);
      FilledRebuilt(Rehash(es[..|es| - 1], size), es[..|es| - 1], es[|es| - 1]);
      FrontAndLast(es);
    }
  }

  lemma {:induction false} RehashStopsPrefix(es: seq<Entry>, n: nat, size: nat)
    requires size > 0 && n <= |es| && RehashStops(es, size)
    ensures RehashStops(es[..n], size)
    decreases |es|
  {
    if n == |es| {
      assert es[..n] == es;
    } else {
      RehashStopsPrefix(es[..|es| - 1], n, size);
      assert es[..|es| - 1][..n] == es[..n];
    }
  }

  // ---- The table ----

  datatype Table = Table(records: seq<Record>, count: nat, index: nat)

  // What every operation keeps: the chain invariant, an exact count and a load
  // of at most one record over the growth threshold.
  ghost predicate Ok(t: Table) {
    t.index < |SIZES| && |t.records| == SIZES[t.index] && Chained(t.records) &&
    t.count == |Entries(t.records)| && 20 * t.count <= 13 * SIZES[t.index] + 20
  }

  predicate Overloaded(t: Table)
    requires t.index < |SIZES|
  {
    20 * t.count > 13 * SIZES[t.index]
  }

  ghost predicate AddStops(t: Table, key: string)
    requires Ok(t)
  {
    if key == "" then true
    else if !Overloaded(t) then HasFree(t.records, HashOf(key))
    else t.index + 1 < |SIZES| ==>
      RehashStops(Entries(t.records), SIZES[t.index + 1]) &&
      HasFree(Rehash(Entries(t.records), SIZES[t.index + 1]), HashOf(key))
  }

  ghost function Regrown(t: Table): Table
    requires Ok(t) && t.index + 1 < |SIZES|
    requires RehashStops(Entries(t.records), SIZES[t.index + 1])
  {
    Table(Rehash(Entries(t.records), SIZES[t.index + 1]), t.count, t.index + 1)
  }

  ghost function Placed(t: Table, key: string, value: Option<Value>): Table
    requires t.records != [] && HasFree(t.records, HashOf(key))
  {
    Table(Filled(t.records, key, value), t.count + 1, t.index)
  }

  // hash_add: the new table and the return code.
  ghost function Added(t: Table, key: Option<string>, value: Option<Value>): (Table, int)
    requires Ok(t) && (key.Some? ==> AddStops(t, key.value))
  {
    if key.None? || key.value == "" then (t, -2)
    else if !Overloaded(t) then (Placed(t, key.value, value), 0)
    else if t.index + 1 == |SIZES| then (t, -1)
    else (Placed(Regrown(t), key.value, value), 0)
  }

  // hash_get
  ghost function Gotten(t: Table, key: string): Option<Value>
    requires t.records != [] && LookupStops(t.records, key)
  {
    var slot := Lookup(t.records, key);
    if slot.Some? then t.records[slot.value].value else None
  }

  // hash_remove: the new table and the value removed.
  ghost function Removed(t: Table, key: string): (Table, Option<Value>)
    requires Ok(t) && LookupStops(t.records, key)
  {
    var slot := Lookup(t.records, key);
    if slot.None? then (t, None)
    else
      HeldMeansCounted(t.records, slot.value);
      (Table(Erased(t.records, slot.value), t.count - 1, t.index), t.records[slot.value].value)
  }

  lemma HeldMeansCounted(recs: seq<Record>, i: nat)
    requires i < |recs| && recs[i].key.Some?
    ensures |Entries(recs)| > 0
    ensures Entry(recs[i].key.value, recs[i].value) in Entries(recs)
  {
    assert Carries(recs, i, Entry(recs[i].key.value, recs[i].value));
    EntriesMember(recs, Entry(recs[i].key.value, recs[i].value));
  }

  lemma KeysNonEmpty(recs: seq<Record>)
    requires forall i :: 0 <= i < |recs| && recs[i].key.Some? ==> recs[i].key.value != ""
    ensures forall k :: 0 <= k < |Entries(recs)| ==> Entries(recs)[k].key != ""
  {
    var es := Entries(recs);
    forall k | 0 <= k < |es| ensures es[k].key != "" {
      EntriesMember(recs, es[k]);
      var i: nat :| Carries(recs, i, es[k]);
    }
  }

  lemma RehashCount(es: seq<Entry>, size: nat)
    requires size > 0 && RehashStops(es, size)
    requires forall i :: 0 <= i < |es| ==> es[i].key != ""
    ensures Chained(Rehash(es, size)) && |Entries(Rehash(es, size))| == |es|
  {
    RehashKeepsBindings(es, size);
    assert |multiset(Entries(Rehash(es, size)))| == |multiset(es)|;
  }

  // Growing at the load threshold makes room: the bigger table is under it.
  lemma RegrownOk(t: Table)
    requires Ok(t) && t.index + 1 < |SIZES|
    requires RehashStops(Entries(t.records), SIZES[t.index + 1])
    ensures Ok(Regrown(t)) && !Overloaded(Regrown(t))
    ensures multiset(Entries(Regrown(t).records)) == multiset(Entries(t.records))
    ensures NoTombstones(Regrown(t).records)
  {
    KeysNonEmpty(t.records);
    SizesNearlyDouble(t.index);
    RehashCount(Entries(t.records), SIZES[t.index + 1]);
    RehashKeepsBindings(Entries(t.records), SIZES[t.index + 1]);
    RehashHasNoTombstones(Entries(t.records), SIZES[t.index + 1]);
  }

  lemma SizesNearlyDouble(i: nat)
    requires i + 1 < |SIZES|
    ensures 13 * SIZES[i] + 20 <= 13 * SIZES[i + 1]
  {
  }

  // hash_add adds one binding or nothing, and fails only for an empty key or
  // when the largest table is overloaded.
  lemma AddedConserves(t: Table, key: Option<string>, value: Option<Value>)
    requires Ok(t) && (key.Some? ==> AddStops(t, key.value))
    ensures Ok(Added(t, key, value).0)
    ensures var (t', rc) := Added(t, key, value);
            && (rc == -2 <==> key == None || key == Some(""))
            && (rc == -1 <==> key.Some? && key.value != "" && 20 * t.count > 13 * SIZES[|SIZES| - 1])
            && (rc == 0 || rc == -1 || rc == -2)
            && (rc != 0 ==> t' == t)
            && (rc == 0 ==>
                 multiset(Entries(t'.records)) == multiset(Entries(t.records)) + multiset{Entry(key.value, value)})
  {
    OnlyLargestOverflows(t);
    if key == None || key == Some("") {
    } else if !Overloaded(t) {
      PlacedConserves(t, key.value, value);
    } else if t.index + 1 < |SIZES| {
      RegrownOk(t);
      PlacedConserves(Regrown(t), key.value, value);
    }
  }

  lemma PlacedConserves(t: Table, key: string, value: Option<Value>)
    requires Ok(t) && !Overloaded(t) && key != "" && HasFree(t.records, HashOf(key))
    ensures Ok(Placed(t, key, value))
    ensures multiset(Entries(Placed(t, key, value).records)) ==
            multiset(Entries(t.records)) + multiset{Entry(key, value)}
  {
    FilledKeepsChain(t.records, key, value);
    FilledEntries(t.records, key, value);
  }

  lemma OnlyLargestOverflows(t: Table)
    requires Ok(t)
    ensures 20 * t.count > 13 * SIZES[|SIZES| - 1] <==> Overloaded(t) && t.index + 1 == |SIZES|
  {
    if t.index + 1 < |SIZES| {
      SizesNearlyDouble(t.index);
      SizesIncrease(t.index + 1, |SIZES| - 1);
    }
  }

  lemma SizesIncrease(i: nat, j: nat)
    requires i <= j < |SIZES|
    ensures SIZES[i] <= SIZES[j]
    decreases j - i
  {
    if i == j {
    } else {
      SizesIncrease(i, j - 1);
      SizesNearlyDouble(j - 1);
    }
  }

  // hash_remove takes away one binding of the key, if there is one.
  lemma RemovedConserves(t: Table, key: string)
    requires Ok(t) && LookupStops(t.records, key)
    ensures Ok(Removed(t, key).0)
    ensures var (t', value) := Removed(t, key);
            if Holds(t.records, key)
            then multiset(Entries(t.records)) == multiset(Entries(t'.records)) + multiset{Entry(key, value)}
            else t' == t && value == None
  {
    LookupFindsHeldKeys(t.records, key);
    var slot := Lookup(t.records, key);
    if slot.Some? {
      ErasedKeepsChain(t.records, slot.value);
      ErasedEntries(t.records, slot.value);
    }
  }

  // ---- Initial size ----

  // Index of the first prime over capacity / 0.65, or 0 when there is none.
  ghost predicate SizeChosen(capacity: nat, index: nat) {
    index < |SIZES| &&
    (if 20 * capacity / 13 < SIZES[|SIZES| - 1]
     then SIZES[index] > 20 * capacity / 13 && forall i :: 0 <= i < index ==> SIZES[i] <= 20 * capacity / 13
     else index == 0)
  }
}
