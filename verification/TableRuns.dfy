// Runs of operations on the open-addressing table: which end, and what they
// answer.
module TableRuns {
  import opened Options
  import opened Probing
  import opened FullPath
  import opened TableSpec
  import opened TableSearch
  import opened TableLaws

  // ---- Runs ----

  ghost predicate RunStops(t: Table, ops: seq<Op>)
    requires Ok(t)
    decreases |ops|
  {
    ops == [] || (OpStops(t, ops[0]) && Ok(Step(t, ops[0]).0) && RunStops(Step(t, ops[0]).0, ops[1..]))
  }

  ghost function Run(t: Table, ops: seq<Op>): (Table, seq<Answer>)
    requires Ok(t) && RunStops(t, ops)
    decreases |ops|
  {
    if ops == [] then (t, [])
    else
      var (t1, a) := Step(t, ops[0]);
      var (t2, rest) := Run(t1, ops[1..]);
      (t2, [a] + rest)
  }

  function MapRun(m: map<string, Option<Value>>, ops: seq<Op>): (map<string, Option<Value>>, seq<Answer>)
    decreases |ops|
  {
    if ops == [] then (m, [])
    else
      var (m1, a) := MapStep(m, ops[0]);
      var (m2, rest) := MapRun(m1, ops[1..]);
      (m2, [a] + rest)
  }

  predicate AddsAbsent(m: map<string, Option<Value>>, ops: seq<Op>)
    decreases |ops|
  {
    ops == [] || (Absent(m, ops[0]) && AddsAbsent(MapStep(m, ops[0]).0, ops[1..]))
  }

  lemma StepRefinesMap(t: Table, m: map<string, Option<Value>>, op: Op)
    requires Ok(t) && Represents(t, m) && OpStops(t, op) && Absent(m, op)
    ensures Ok(Step(t, op).0) && Represents(Step(t, op).0, MapStep(m, op).0)
    ensures Step(t, op).1 == MapStep(m, op).1
  {
    match op
    case Add(key, value) => AddRefinesMap(t, m, key, value);
    case Remove(key) => RemoveRefinesMap(t, m, key);
    case Get(key) => GetRefinesMap(t, m, key);
  }

  // Any run whose searches end and that adds absent keys only answers exactly
  // as a plain map does, tombstones and growth included.
  lemma {:induction false} RunRefinesMap(t: Table, m: map<string, Option<Value>>, ops: seq<Op>)
    requires Ok(t) && Represents(t, m) && RunStops(t, ops) && AddsAbsent(m, ops)
    ensures Run(t, ops).1 == MapRun(m, ops).1
    ensures Ok(Run(t, ops).0) && Represents(Run(t, ops).0, MapRun(m, ops).0)
    decreases |ops|
  {
    if ops == [] {
    } else {
      StepRefinesMap(t, m, ops[0]);
      RunRefinesMap(Step(t, ops[0]).0, MapStep(m, ops[0]).0, ops[1..]);
    }
  }

  // ---- Runs that end ----

  // One operation ends if and only if it is an add, or its key is held, or some
  // slot was never used.
  lemma OpEnds(t: Table, op: Op)
    requires Ok(t) && t.index < COVERED
    ensures OpStops(t, op) <==> op.Add? || Holds(t.records, op.key) || Unused(t.records)
  {
    SizesCovered(t.index);
    match op
    case Add(key, _) => AddEnds(t, key);
    case Remove(key) => LookupEnds(t.records, key);
    case Get(key) => LookupEnds(t.records, key);
  }

  function AddCount(ops: seq<Op>): nat {
    if ops == [] then 0 else (if ops[0].Add? then 1 else 0) + AddCount(ops[1..])
  }

  predicate NoRemoves(ops: seq<Op>) {
    forall i :: 0 <= i < |ops| ==> !ops[i].Remove?
  }

  // n more bindings are fewer than the slots of any path: 2^29 in all.
  predicate Room(t: Table, n: nat) {
    t.count + n < EIGHTH
  }

  // No slot was used and emptied.
  ghost predicate Clean(t: Table) {
    |UsedSlots(t.records)| <= t.count
  }

  // What a caller can know before a run: the adds to come cannot use up the slots
  // of a path, or nothing is ever removed.
  ghost predicate SlotLeft(t: Table, adds: nat, removes: bool) {
    |UsedSlots(t.records)| + adds < Reach(|t.records|) || (Clean(t) && !removes)
  }

  lemma SlotLeftStops(t: Table, adds: nat, removes: bool, key: string)
    requires Ok(t) && Room(t, adds) && SlotLeft(t, adds, removes)
    ensures LookupStops(t.records, key)
  {
    SizeInRange(t.index);
    UnderReach(t);
    RoomMeansStop(t.records, key);
  }

  lemma FilledUses(recs: seq<Record>, key: string, value: Option<Value>)
    requires recs != [] && HasFree(recs, HashOf(key))
    ensures |UsedSlots(Filled(recs, key, value))| <= |UsedSlots(recs)| + 1
  {
    var slot := Probe(HashOf(key), FreeOffset(recs, HashOf(key)), |recs|);
    assert UsedSlots(Filled(recs, key, value)) == UsedSlots(recs) + {slot};
  }

  lemma ErasedUses(recs: seq<Record>, slot: nat)
    requires slot < |recs|
    ensures UsedSlots(Erased(recs, slot)) == UsedSlots(recs)
  {
  }

  lemma RegrownUses(t: Table)
    requires Ok(t) && t.index + 1 < |SIZES| && RehashStops(Entries(t.records), SIZES[t.index + 1])
    ensures |UsedSlots(Regrown(t).records)| <= t.count <= |UsedSlots(t.records)|
    ensures |Regrown(t).records| >= |t.records|
  {
    RegrownOk(t);
    NoTombstonesUsed(Regrown(t).records);
    LiveAreUsed(t);
    SizesIncrease(t.index, t.index + 1);
  }

  lemma AddUses(t: Table, key: string, value: Option<Value>)
    requires Ok(t) && AddStops(t, key)
    ensures var t' := Added(t, Some(key), value).0;
            |t'.records| >= |t.records| && |UsedSlots(t'.records)| <= |UsedSlots(t.records)| + 1 &&
            (Added(t, Some(key), value).1 == 0 && Clean(t) ==> Clean(t')) &&
            t'.count <= t.count + 1 && (Added(t, Some(key), value).1 != 0 ==> t' == t)
  {
    if key == "" {
    } else if !Overloaded(t) {
      FilledUses(t.records, key, value);
    } else if t.index + 1 < |SIZES| {
      RegrownUses(t);
      FilledUses(Regrown(t).records, key, value);
    }
  }

  // What an operation leaves of the room and of the slots never used.
  lemma StepLeaves(t: Table, op: Op, adds: nat, removes: bool)
    requires Ok(t) && OpStops(t, op) && Room(t, adds) && SlotLeft(t, adds, removes)
    requires (op.Add? ==> adds > 0) && (op.Remove? ==> removes)
    ensures var t', rest := Step(t, op).0, if op.Add? then adds - 1 else adds;
            Ok(t') && Room(t', rest) && SlotLeft(t', rest, removes)
  {
    match op
    case Add(key, value) =>
      AddedConserves(t, Some(key), value);
      AddUses(t, key, value);
    case Remove(key) =>
      RemovedConserves(t, key);
      var slot := Lookup(t.records, key);
      if slot.Some? {
        ErasedUses(t.records, slot.value);
      }
    case Get(key) =>
  }

  // A run ends if the slots never used are more than the adds to come, or if it
  // removes nothing and no slot has been emptied before, whatever its lookups.
  lemma {:induction false} RunEnds(t: Table, ops: seq<Op>)
    requires Ok(t) && Room(t, AddCount(ops)) && SlotLeft(t, AddCount(ops), !NoRemoves(ops))
    ensures RunStops(t, ops)
    decreases |ops|
  {
    if ops == [] {
    } else {
      var op, rest := ops[0], ops[1..];
      if op.Add? {
        AddEnds(t, op.key);
      } else {
        SlotLeftStops(t, AddCount(ops), !NoRemoves(ops), op.key);
      }
      StepLeaves(t, op, AddCount(ops), !NoRemoves(ops));
      assert NoRemoves(ops) ==> NoRemoves(rest);
      RunEnds(Step(t, op).0, rest);
    }
  }

  // So every such run answers exactly as a plain map does.
  lemma TableIsAMap(t: Table, m: map<string, Option<Value>>, ops: seq<Op>)
    requires Ok(t) && Represents(t, m) && AddsAbsent(m, ops)
    requires Room(t, AddCount(ops)) && SlotLeft(t, AddCount(ops), !NoRemoves(ops))
    ensures RunStops(t, ops) && Run(t, ops).1 == MapRun(m, ops).1
    ensures Ok(Run(t, ops).0) && Represents(Run(t, ops).0, MapRun(m, ops).0)
  {
    RunEnds(t, ops);
    RunRefinesMap(t, m, ops);
  }

  lemma FreshTable(i: nat)
    requires i < |SIZES|
    ensures Ok(Table(Fresh(SIZES[i]), 0, i)) && Represents(Table(Fresh(SIZES[i]), 0, i), map[])
    ensures UsedSlots(Fresh(SIZES[i])) == {}
  {
    SizesIncrease(0, i);
    FreshIsEmpty(SIZES[i]);
    assert Graph(map[]) == {};
  }

  // From an empty table of any size: a run with fewer adds than slots, or any run
  // that removes nothing, up to 2^29 adds.
  lemma FreshTableIsAMap(i: nat, ops: seq<Op>)
    requires i < |SIZES| && AddsAbsent(map[], ops) && AddCount(ops) < EIGHTH
    requires AddCount(ops) < SIZES[i] || NoRemoves(ops)
    ensures var t := Table(Fresh(SIZES[i]), 0, i);
            Ok(t) && RunStops(t, ops) && Run(t, ops).1 == MapRun(map[], ops).1 &&
            Ok(Run(t, ops).0) && Represents(Run(t, ops).0, MapRun(map[], ops).0)
  {
    FreshTable(i);
    TableIsAMap(Table(Fresh(SIZES[i]), 0, i), map[], ops);
  }

  // A run that adds at most the capacity asked for (and one more) never grows.
  lemma {:induction false} RunWithoutGrowth(t: Table, ops: seq<Op>)
    requires Ok(t) && RunStops(t, ops)
    requires AddCount(ops) == 0 || 20 * (t.count + AddCount(ops) - 1) <= 13 * SIZES[t.index]
    ensures Run(t, ops).0.index == t.index
    decreases |ops|
  {
    if ops == [] {
    } else {
      var op, t' := ops[0], Step(t, ops[0]).0;
      assert t'.index == t.index && t'.count <= t.count + (if op.Add? then 1 else 0);
      RunWithoutGrowth(t', ops[1..]);
    }
  }

  predicate OnlyAdds(ops: seq<Op>) {
    forall i :: 0 <= i < |ops| ==> ops[i].Add? && ops[i].key != ""
  }

  lemma {:induction false} AllAddsSucceed(m: map<string, Option<Value>>, ops: seq<Op>, n: nat)
    requires OnlyAdds(ops) && AddsAbsent(m, ops) && |m| + |ops| <= n && 20 * n <= 13 * SIZES[|SIZES| - 1] + 20
    ensures AddCount(ops) == |ops| == |MapRun(m, ops).1|
    ensures forall i :: 0 <= i < |ops| ==> MapRun(m, ops).1[i] == Code(0)
    decreases |ops|
  {
    if ops == [] {
    } else {
      var m1, rest := MapStep(m, ops[0]).0, ops[1..];
      assert m1.Keys == m.Keys + {ops[0].key};
      AllAddsSucceed(m1, rest, n);
      assert MapRun(m, ops).1 == [Code(0)] + MapRun(m1, rest).1;
    }
  }

  // A run of adds that a table made for `capacity` keys has to take: if the
  // searches end, every add succeeds, and the table never grows.
  lemma TakesItsCapacity(capacity: nat, index: nat, ops: seq<Op>)
    requires SizeChosen(capacity, index) && 20 * capacity / 13 < SIZES[|SIZES| - 1]
    requires OnlyAdds(ops) && AddsAbsent(map[], ops) && |ops| <= capacity + 1
    ensures var t := Table(Fresh(SIZES[index]), 0, index);
            Ok(t) && (RunStops(t, ops) ==> AllTaken(Run(t, ops), index, |ops|))
  {
    var t := Table(Fresh(SIZES[index]), 0, index);
    FreshTable(index);
    CapacityFits(capacity, index);
    AllAddsSucceed(map[], ops, capacity + 1);
    AddedKeys(map[], ops);
    if RunStops(t, ops) {
      RunRefinesMap(t, map[], ops);
      RunWithoutGrowth(t, ops);
      RepresentsSize(Run(t, ops).0, MapRun(map[], ops).0);
    }
  }

  predicate AllTaken(result: (Table, seq<Answer>), index: nat, n: nat) {
    result.0.index == index && result.0.count == n && |result.1| == n &&
    forall i :: 0 <= i < n ==> result.1[i] == Code(0)
  }

  // Up to 2^29 keys they do end.
  lemma NewTableTakesItsCapacity(capacity: nat, index: nat, ops: seq<Op>)
    requires SizeChosen(capacity, index) && capacity + 1 < EIGHTH
    requires OnlyAdds(ops) && AddsAbsent(map[], ops) && |ops| <= capacity + 1
    ensures var t := Table(Fresh(SIZES[index]), 0, index);
            Ok(t) && RunStops(t, ops) && AllTaken(Run(t, ops), index, |ops|)
  {
    CapacityFits(capacity, index);
    AllAddsSucceed(map[], ops, capacity + 1);
    FreshTableIsAMap(index, ops);
    TakesItsCapacity(capacity, index, ops);
  }

  lemma {:induction false} AddedKeys(m: map<string, Option<Value>>, ops: seq<Op>)
    requires OnlyAdds(ops) && AddsAbsent(m, ops) && 20 * (|m| + |ops|) <= 13 * SIZES[|SIZES| - 1] + 20
    ensures |MapRun(m, ops).0| == |m| + |ops|
    decreases |ops|
  {
    if ops == [] {
    } else {
      var m1 := MapStep(m, ops[0]).0;
      assert m1.Keys == m.Keys + {ops[0].key};
      AddedKeys(m1, ops[1..]);
    }
  }

  lemma CapacityFits(capacity: nat, index: nat)
    requires SizeChosen(capacity, index) && 20 * capacity / 13 < SIZES[|SIZES| - 1]
    ensures index < |SIZES| && 20 * capacity <= 13 * SIZES[index] && capacity + 1 <= SIZES[index]
    ensures 20 * (capacity + 1) <= 13 * SIZES[|SIZES| - 1] + 20
  {
    SizesIncrease(0, index);
    SizesIncrease(index, |SIZES| - 1);
  }
}
