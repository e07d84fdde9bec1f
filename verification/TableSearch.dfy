// When the probe loops of the open-addressing table end: exactly when there is
// a slot to end in, for every size up to 2^29, always while fewer than 2^29 slots
// are in use, and within half the size while the table is less than half full.
module TableSearch {
  import opened Probing
  import opened FullPath
  import opened TableSpec

  // ---- Sizes ----

  // The first 24 sizes are odd and at most 2^29, the other two are larger than
  // the number of squares modulo 2^32.
  const COVERED: nat := 24

  lemma SizesCovered(i: nat)
    requires i < |SIZES|
    ensures if i < COVERED then Covered(SIZES[i]) else SIZES[i] > SQUARES
    ensures SIZES[i] > 0
  {
    if i < 13 {
      FirstSizesCovered(i);
    } else {
      LastSizesCovered(i);
    }
  }

  lemma SizeInRange(i: nat)
    requires i < |SIZES|
    ensures SIZES[i] % 2 == 1 && 53 <= SIZES[i] < WORD
  {
    SizesIncrease(0, i);
    SizesIncrease(i, |SIZES| - 1);
    if i < 13 {
      FirstSizesCovered(i);
    } else {
      LastSizesOdd(i);
    }
  }

  lemma LastSizesOdd(i: nat)
    requires 13 <= i < |SIZES|
    ensures SIZES[i] % 2 == 1
  {
  }

  lemma FirstSizesCovered(i: nat)
    requires i < 13
    ensures Covered(SIZES[i])
  {
  }

  lemma LastSizesCovered(i: nat)
    requires 13 <= i < |SIZES|
    ensures if i < COVERED then Covered(SIZES[i]) else SIZES[i] > SQUARES
  {
  }

  // Every path visits every slot in exactly the first 24 sizes.
  lemma SlotsProbed(i: nat, code: nat)
    requires i < |SIZES| && code < WORD
    ensures SIZES[i] > 0
    ensures (forall slot :: 0 <= slot < SIZES[i] ==> Visits(code, SIZES[i], slot)) <==> i < COVERED
  {
    SizesCovered(i);
    if i < COVERED {
      forall slot | 0 <= slot < SIZES[i] ensures Visits(code, SIZES[i], slot) {
        var off := EverySlotProbed(code, slot, SIZES[i]);
      }
    } else {
      var slot := SlotNeverProbed(code, SIZES[i]);
    }
  }

  // ---- Exact conditions ----

  predicate Keyless(recs: seq<Record>) {
    exists i :: 0 <= i < |recs| && recs[i].key.None?
  }

  predicate Unused(recs: seq<Record>) {
    exists i :: 0 <= i < |recs| && recs[i].hash == 0
  }

  // The search of hash_add ends if and only if some slot has no key.
  lemma FreeSlotFound(recs: seq<Record>, code: nat)
    requires Covered(|recs|) && code < WORD
    ensures HasFree(recs, code) <==> Keyless(recs)
  {
    if i :| 0 <= i < |recs| && recs[i].key.None? {
      var off := EverySlotProbed(code, i, |recs|);
      assert IsFree(recs, code, off);
    }
  }

  // A lookup ends if and only if the key is held or some slot was never used.
  lemma LookupEnds(recs: seq<Record>, key: string)
    requires Chained(recs) && Covered(|recs|)
    ensures LookupStops(recs, key) <==> Holds(recs, key) || Unused(recs)
  {
    LookupFindsHeldKeys(recs, key);
    if i :| 0 <= i < |recs| && recs[i].hash == 0 {
      var off := EverySlotProbed(HashOf(key), i, |recs|);
      assert Stops(recs, key, off);
    }
    if LookupStops(recs, key) && !Holds(recs, key) {
      assert recs[Probe(HashOf(key), StopOffset(recs, key), |recs|)].hash == 0;
    }
  }

  // ---- Tables with room ----

  // With fewer bindings than slots on a path, hash_add meets one without a key.
  lemma RoomMeansFree(recs: seq<Record>, code: nat)
    requires |recs| % 2 == 1 && |Entries(recs)| < Reach(|recs|) && code < WORD
    ensures HasFree(recs, code)
  {
    LiveSlotsCounted(recs);
    var off := PathReaches(LiveSlots(recs), code, |recs|);
    assert IsFree(recs, code, off);
  }

  // With fewer slots ever used, hash_get and hash_remove meet one that is not.
  lemma RoomMeansStop(recs: seq<Record>, key: string)
    requires |recs| % 2 == 1 && |UsedSlots(recs)| < Reach(|recs|)
    ensures LookupStops(recs, key)
  {
    var off := PathReaches(UsedSlots(recs), HashOf(key), |recs|);
    assert Stops(recs, key, off);
  }

  // Re-adding at most as many bindings as there are slots on a path always ends.
  lemma {:induction false} RehashEnds(es: seq<Entry>, size: nat)
    requires size % 2 == 1 && |es| <= Reach(size) && forall i :: 0 <= i < |es| ==> es[i].key != ""
    ensures RehashStops(es, size)
    decreases |es|
  {
    if es == [] {
    } else {
      var front, e := es[..|es| - 1], es[|es| - 1];
      RehashEnds(front, size);
      RehashCount(front, size);
      RoomMeansFree(Rehash(front, size), HashOf(e.key));
    }
  }

  const LAST: nat := |SIZES| - 1

  // hash_add ends for every key, whether the table grows or not: in every table
  // that is not of the largest size, and in the largest up to 2^29 records.
  lemma AddEnds(t: Table, key: string)
    requires Ok(t) && (t.index < LAST || t.count < EIGHTH)
    ensures AddStops(t, key)
  {
    if !Overloaded(t) {
      UnderReach(t);
      FillEnds(t, key);
    } else if t.index < LAST {
      GrowthEnds(t);
      RegrownOk(t);
      UnderReach(t);
      ReachGrows(t.index);
      FillEnds(Regrown(t), key);
    }
  }

  lemma FillEnds(t: Table, key: string)
    requires Ok(t) && t.count < Reach(SIZES[t.index])
    ensures HasFree(t.records, HashOf(key))
  {
    SizeInRange(t.index);
    RoomMeansFree(t.records, HashOf(key));
  }

  lemma GrowthEnds(t: Table)
    requires Ok(t) && t.index < LAST
    ensures RehashStops(Entries(t.records), SIZES[t.index + 1])
  {
    SizeInRange(t.index + 1);
    KeysNonEmpty(t.records);
    UnderReach(t);
    ReachGrows(t.index);
    RehashEnds(Entries(t.records), SIZES[t.index + 1]);
  }

  lemma ReachGrows(i: nat)
    requires i < LAST
    ensures Reach(SIZES[i]) <= Reach(SIZES[i + 1])
  {
    SizesIncrease(i, i + 1);
  }

  lemma UnderReach(t: Table)
    requires Ok(t) && (t.index < LAST || t.count < EIGHTH)
    ensures t.count < Reach(SIZES[t.index])
  {
    SizeInRange(t.index);
    if t.index < LAST {
      SizesIncrease(t.index, LAST - 1);
    }
  }

  // ---- Counting slots ----

  ghost function LiveSlots(recs: seq<Record>): set<nat> {
    set i: nat | i < |recs| && recs[i].key.Some?
  }

  ghost function UsedSlots(recs: seq<Record>): set<nat> {
    set i: nat | i < |recs| && recs[i].hash != 0
  }

  lemma {:induction false} LiveSlotsCounted(recs: seq<Record>)
    ensures |LiveSlots(recs)| == |Entries(recs)|
  {
    if recs == [] {
      assert LiveSlots(recs) == {};
    } else {
      var n := |recs| - 1;
      LiveSlotsCounted(recs[..n]);
      assert LiveSlots(recs) == LiveSlots(recs[..n]) + (if recs[n].key.Some? then {n} else {});
    }
  }

  lemma LiveAreUsed(t: Table)
    requires Ok(t)
    ensures t.count <= |UsedSlots(t.records)|
  {
    LiveSlotsCounted(t.records);
    assert LiveSlots(t.records) <= UsedSlots(t.records);
    SubsetSize(LiveSlots(t.records), UsedSlots(t.records));
  }

  lemma SomeUnused(recs: seq<Record>)
    ensures |UsedSlots(recs)| < |recs| ==> Unused(recs)
  {
    if !Unused(recs) {
      assert UsedSlots(recs) == Below(|recs|);
    }
  }

  lemma NoTombstonesUsed(recs: seq<Record>)
    requires NoTombstones(recs)
    ensures UsedSlots(recs) <= LiveSlots(recs) && |UsedSlots(recs)| <= |Entries(recs)|
  {
    LiveSlotsCounted(recs);
    SubsetSize(UsedSlots(recs), LiveSlots(recs));
  }

  // ---- How many probes ----

  // No key of the path wraps the 32-bit sum in the first half of a table.
  predicate Unwrapping(key: string, size: nat)
    requires size > 0
  {
    HashOf(key) + LastSquare(size) < WORD
  }

  // Every size whose half path cannot wrap is the prime it is said to be.
  lemma SmallSizesArePrime(i: nat)
    requires i < 12
    ensures Prime(SIZES[i])
  {
    match i
    case 0 => Prime53();
    case 1 => Prime97();
    case 2 => Prime193();
    case 3 => Prime389();
    case 4 => Prime769();
    case 5 => Prime1543();
    case 6 => Prime3079();
    case 7 => Prime6151();
    case 8 => Prime12289();
    case 9 => Prime24593();
    case 10 => Prime49157();
    case 11 => Prime98317();
  }

  // hash_add finds a free slot in at most (size+1)/2 probes while fewer than
  // (size+1)/2 records are live.
  lemma FreeSlotNear(recs: seq<Record>, key: string) returns (off: nat)
    requires Prime(|recs|) && |recs| > 2 && 2 * |Entries(recs)| < |recs| + 1 && Unwrapping(key, |recs|)
    ensures off <= (|recs| - 1) / 2 && IsFree(recs, HashOf(key), off)
    ensures HasFree(recs, HashOf(key)) && FreeOffset(recs, HashOf(key)) <= (|recs| - 1) / 2
  {
    LiveSlotsCounted(recs);
    off := Coverage(LiveSlots(recs), HashOf(key), |recs|);
    assert IsFree(recs, HashOf(key), off);
  }

  // hash_get and hash_remove stop in as many while fewer than (size+1)/2 slots
  // were ever used.
  lemma LookupStopsNear(recs: seq<Record>, key: string)
    requires Prime(|recs|) && |recs| > 2 && 2 * |UsedSlots(recs)| < |recs| + 1 && Unwrapping(key, |recs|)
    ensures LookupStops(recs, key) && StopOffset(recs, key) <= (|recs| - 1) / 2
  {
    var off := Coverage(UsedSlots(recs), HashOf(key), |recs|);
    assert Stops(recs, key, off);
  }
}
