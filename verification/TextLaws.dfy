// The string-list table as a multimap: every key keeps the list of what was
// inserted for it since it was last deleted, in order.
module TextLaws {
  import opened Options
  import opened Probing
  import opened FullPath
  import opened TableSpec
  import opened TableSearch
  import opened TableLaws
  import opened TableRuns
  import opened TextTable

  type Multimap = map<string, seq<string>>

  function Stored(mm: Multimap): map<string, Option<Value>> {
    map k | k in mm :: Some(mm[k])
  }

  // The table holds one record for each key of mm, with its list.
  ghost predicate Lists(t: Table, mm: Multimap) {
    Represents(t, Stored(mm)) && forall k :: k in mm ==> mm[k] != []
  }

  function ListOf(mm: Multimap, key: string): seq<string> {
    if key in mm then mm[key] else []
  }

  lemma StoredUpdate(mm: Multimap, key: string, list: seq<string>)
    ensures Stored(mm[key := list]) == Stored(mm)[key := Some(list)]
    ensures Stored(mm)[key := Some(list)] == (Stored(mm) - {key})[key := Some(list)]
    ensures Stored(mm - {key}) == Stored(mm) - {key}
  {
  }

  lemma GottenList(t: Table, mm: Multimap, key: string)
    requires Ok(t) && Lists(t, mm) && LookupStops(t.records, key)
    ensures Gotten(t, key) == if key in mm then Some(mm[key]) else None
    ensures Lookup(t.records, key).Some? <==> key in mm
  {
    GetRefinesMap(t, Stored(mm), key);
    LookupFindsHeldKeys(t.records, key);
    RepresentsKeys(t, Stored(mm), key);
  }

  lemma NoEmptyKey(t: Table, mm: Multimap)
    requires Ok(t) && Lists(t, mm)
    ensures "" !in mm
  {
    RepresentsKeys(t, Stored(mm), "");
  }

  // Appending to an existing list succeeds without growing the table.
  lemma AppendRefines(t: Table, mm: Multimap, key: string, data: string)
    requires Ok(t) && Lists(t, mm) && key in mm && InsertStops(t, key)
    ensures var (t', rc) := Inserted(t, key, data);
            rc == 0 && Ok(t') && t'.index == t.index && t'.count == t.count &&
            Lists(t', mm[key := mm[key] + [data]])
  {
    GottenList(t, mm, key);
    NoEmptyKey(t, mm);
    RoomForRemoved(t, key);
    var t1 := Removed(t, key).0;
    RemoveRefinesMap(t, Stored(mm), key);
    AddRefinesMap(t1, Stored(mm) - {key}, key, Some(mm[key] + [data]));
    RepresentsSize(t1, Stored(mm) - {key});
    StoredUpdate(mm, key, mm[key] + [data]);
  }

  lemma FailedAddKeeps(t: Table, key: string, value: Option<Value>)
    requires Ok(t) && AddStops(t, key)
    ensures Added(t, Some(key), value).1 != 0 ==> Added(t, Some(key), value).0 == t
  {
  }

  // A new key gets a list of one; it fails only where hash_add fails.
  lemma FirstInsertRefines(t: Table, mm: Multimap, key: string, data: string)
    requires Ok(t) && Lists(t, mm) && key !in mm && InsertStops(t, key)
    ensures var (t', rc) := Inserted(t, key, data);
            Ok(t') &&
            if key == "" then rc == -2 && t' == t
            else if 20 * |mm| > 13 * SIZES[|SIZES| - 1] then rc == -1 && t' == t
            else rc == 0 && Lists(t', mm[key := [data]])
  {
    GottenList(t, mm, key);
    AddRefinesMap(t, Stored(mm), key, Some([data]));
    FailedAddKeeps(t, key, Some([data]));
    StoredUpdate(mm, key, [data]);
    assert Stored(mm).Keys == mm.Keys;
  }

  lemma DeleteRefines(t: Table, mm: Multimap, key: string)
    requires Ok(t) && Lists(t, mm) && key in mm && LookupStops(t.records, key)
    ensures Ok(Removed(t, key).0) && Lists(Removed(t, key).0, mm - {key})
  {
    RemoveRefinesMap(t, Stored(mm), key);
    StoredUpdate(mm, key, []);
  }

  // ---- Runs ----

  datatype TextOp = Insert(key: string, data: string) | Delete(key: string)

  ghost predicate TextStops(t: Table, op: TextOp)
    requires Ok(t)
  {
    match op
    case Insert(key, _) => InsertStops(t, key)
    case Delete(key) => LookupStops(t.records, key)
  }

  ghost function TextStep(t: Table, op: TextOp): Table
    requires Ok(t) && TextStops(t, op)
  {
    match op
    case Insert(key, data) => Inserted(t, key, data).0
    case Delete(key) => Removed(t, key).0
  }

  function MultiStep(mm: Multimap, op: TextOp): Multimap {
    match op
    case Insert(key, data) =>
      if key == "" then mm else mm[key := ListOf(mm, key) + [data]]
    case Delete(key) => mm - {key}
  }

  // Keys are deleted only when present, and a new one only comes while the
  // largest table has room.
  predicate Proper(mm: Multimap, op: TextOp) {
    match op
    case Insert(key, _) => key !in mm ==> 20 * |mm| <= 13 * SIZES[|SIZES| - 1]
    case Delete(key) => key in mm
  }

  lemma TextStepRefines(t: Table, mm: Multimap, op: TextOp)
    requires Ok(t) && Lists(t, mm) && TextStops(t, op) && Proper(mm, op)
    ensures Ok(TextStep(t, op)) && Lists(TextStep(t, op), MultiStep(mm, op))
  {
    NoEmptyKey(t, mm);
    match op
    case Insert(key, data) =>
      if key in mm {
        AppendRefines(t, mm, key, data);
      } else {
        FirstInsertRefines(t, mm, key, data);
        assert ListOf(mm, key) + [data] == [data];
      }
    case Delete(key) => DeleteRefines(t, mm, key);
  }

  ghost predicate TextRunStops(t: Table, ops: seq<TextOp>)
    requires Ok(t)
    decreases |ops|
  {
    ops == [] ||
    (TextStops(t, ops[0]) && Ok(TextStep(t, ops[0])) && TextRunStops(TextStep(t, ops[0]), ops[1..]))
  }

  ghost function TextRun(t: Table, ops: seq<TextOp>): Table
    requires Ok(t) && TextRunStops(t, ops)
    decreases |ops|
  {
    if ops == [] then t else TextRun(TextStep(t, ops[0]), ops[1..])
  }

  function MultiRun(mm: Multimap, ops: seq<TextOp>): Multimap
    decreases |ops|
  {
    if ops == [] then mm else MultiRun(MultiStep(mm, ops[0]), ops[1..])
  }

  predicate ProperRun(mm: Multimap, ops: seq<TextOp>)
    decreases |ops|
  {
    ops == [] || (Proper(mm, ops[0]) && ProperRun(MultiStep(mm, ops[0]), ops[1..]))
  }

  lemma {:induction false} TextRunRefines(t: Table, mm: Multimap, ops: seq<TextOp>)
    requires Ok(t) && Lists(t, mm) && TextRunStops(t, ops) && ProperRun(mm, ops)
    ensures Ok(TextRun(t, ops)) && Lists(TextRun(t, ops), MultiRun(mm, ops))
    decreases |ops|
  {
    if ops == [] {
    } else {
      TextStepRefines(t, mm, ops[0]);
      TextRunRefines(TextStep(t, ops[0]), MultiStep(mm, ops[0]), ops[1..]);
    }
  }

  // What was inserted for `key` after its last deletion, oldest first.
  function History(ops: seq<TextOp>, key: string): seq<string> {
    if ops == [] then []
    else
      var before, op := History(ops[..|ops| - 1], key), ops[|ops| - 1];
      if op.key != key then before
      else if op.Insert? then before + [op.data]
      else []
  }

  lemma {:induction false} MultiRunLast(mm: Multimap, ops: seq<TextOp>)
    requires ops != []
    ensures MultiRun(mm, ops) == MultiStep(MultiRun(mm, ops[..|ops| - 1]), ops[|ops| - 1])
    decreases |ops|
  {
    if |ops| > 1 {
      var rest := ops[1..];
      MultiRunLast(MultiStep(mm, ops[0]), rest);
      assert rest[..|rest| - 1] == ops[..|ops| - 1][1..];
    } else {
      assert ops[1..] == [] && ops[..0] == [];
    }
  }

  lemma {:induction false} MultiRunIsHistory(ops: seq<TextOp>, key: string)
    requires key != ""
    ensures ListOf(MultiRun(map[], ops), key) == History(ops, key)
    ensures key in MultiRun(map[], ops) <==> History(ops, key) != []
    decreases |ops|
  {
    if ops == [] {
    } else {
      MultiRunLast(map[], ops);
      MultiRunIsHistory(ops[..|ops| - 1], key);
    }
  }

  // ---- Runs that end ----

  // Re-adding a removed key takes a slot that was in use before.
  lemma AppendUsesNoSlot(t: Table, key: string, data: string)
    requires Ok(t) && InsertStops(t, key) && Lookup(t.records, key).Some? && Gotten(t, key).Some?
    ensures UsedSlots(Inserted(t, key, data).0.records) == UsedSlots(t.records)
  {
    RoomForRemoved(t, key);
    var code, stop := HashOf(key), StopOffset(t.records, key);
    var recs1 := Removed(t, key).0.records;
    ErasedUses(t.records, Lookup(t.records, key).value);
    assert IsFree(recs1, code, stop);
    var f := FreeOffset(recs1, code);
    assert f <= stop;
    assert f < stop ==> !Stops(t.records, key, f);
    var slot := Probe(code, f, |recs1|);
    assert slot in UsedSlots(recs1);
    assert forall v :: UsedSlots(Filled(recs1, key, v)) == UsedSlots(recs1) + {slot};
  }

  // How many inserts of the run are for a key not in the table at the time.
  function NewKeys(mm: Multimap, ops: seq<TextOp>): nat
    decreases |ops|
  {
    if ops == [] then 0
    else (if IsNew(mm, ops[0]) then 1 else 0) + NewKeys(MultiStep(mm, ops[0]), ops[1..])
  }

  // An empty key is refused and never counts.
  predicate IsNew(mm: Multimap, op: TextOp) {
    op.Insert? && op.key != "" && op.key !in mm
  }

  predicate OnlyInserts(ops: seq<TextOp>) {
    forall i :: 0 <= i < |ops| ==> ops[i].Insert?
  }

  // hash_text_delete reads past the array for a key that is not there.
  predicate DeletesPresent(mm: Multimap, ops: seq<TextOp>)
    decreases |ops|
  {
    ops == [] || ((ops[0].Delete? ==> ops[0].key in mm) && DeletesPresent(MultiStep(mm, ops[0]), ops[1..]))
  }

  // What a caller can know before a run: there is room for the new keys, and
  // either a slot is left that they cannot use up, or nothing is ever deleted.
  ghost predicate TextSlotLeft(t: Table, news: nat, deletes: bool) {
    Room(t, news) && SlotLeft(t, news, deletes)
  }

  lemma InsertEnds(t: Table, mm: Multimap, key: string, news: nat, deletes: bool)
    requires Ok(t) && Lists(t, mm) && TextSlotLeft(t, news, deletes) && (IsNew(mm, Insert(key, "")) ==> news > 0)
    ensures InsertStops(t, key) && Proper(mm, Insert(key, ""))
  {
    SlotLeftStops(t, news, deletes, key);
    GottenList(t, mm, key);
    RepresentsSize(t, Stored(mm));
    assert |Stored(mm)| == |mm| by {
      assert Stored(mm).Keys == mm.Keys;
    }
    SizesIncrease(t.index, |SIZES| - 1);
    if IsNew(mm, Insert(key, "")) {
      AddEnds(t, key);
    }
  }

  lemma AppendLeaves(t: Table, mm: Multimap, key: string, data: string, news: nat, deletes: bool)
    requires Ok(t) && Lists(t, mm) && TextSlotLeft(t, news, deletes) && key in mm && InsertStops(t, key)
    ensures TextSlotLeft(Inserted(t, key, data).0, news, deletes)
  {
    GottenList(t, mm, key);
    AppendUsesNoSlot(t, key, data);
    AppendRefines(t, mm, key, data);
    SameCounts(t, Inserted(t, key, data).0, news, deletes);
  }

  lemma SameCounts(t: Table, t': Table, news: nat, deletes: bool)
    requires Ok(t) && Ok(t') && t'.index == t.index && t'.count == t.count
    requires UsedSlots(t'.records) == UsedSlots(t.records)
    ensures TextSlotLeft(t, news, deletes) ==> TextSlotLeft(t', news, deletes)
  {
  }

  lemma InsertLeaves(t: Table, mm: Multimap, key: string, data: string, news: nat, deletes: bool)
    requires Ok(t) && Lists(t, mm) && TextSlotLeft(t, news, deletes) && key !in mm && news > 0
    requires InsertStops(t, key)
    ensures TextSlotLeft(Inserted(t, key, data).0, news - 1, deletes)
  {
    GottenList(t, mm, key);
    var op := Add(key, Some([data]));
    StepLeaves(t, op, news, deletes);
    assert Inserted(t, key, data).0 == Step(t, op).0;
  }

  lemma DeleteLeaves(t: Table, mm: Multimap, key: string, news: nat)
    requires Ok(t) && Lists(t, mm) && TextSlotLeft(t, news, true) && key in mm && LookupStops(t.records, key)
    ensures TextSlotLeft(Removed(t, key).0, news, true)
  {
    GottenList(t, mm, key);
    ErasedUses(t.records, Lookup(t.records, key).value);
  }

  // Every key deleted is there, and there is room for the run and `news` keys more.
  ghost predicate HasRoom(t: Table, mm: Multimap, ops: seq<TextOp>, news: nat, deletes: bool) {
    DeletesPresent(mm, ops) && (OnlyInserts(ops) || deletes) && TextSlotLeft(t, NewKeys(mm, ops) + news, deletes)
  }

  // A run that ends, is the same run on the map of lists, and leaves room.
  ghost predicate Succeeds(t: Table, mm: Multimap, ops: seq<TextOp>, news: nat, deletes: bool) {
    Ok(t) && TextRunStops(t, ops) && ProperRun(mm, ops) && Ok(TextRun(t, ops)) &&
    Lists(TextRun(t, ops), MultiRun(mm, ops)) && TextSlotLeft(TextRun(t, ops), news, deletes)
  }

  // No function of a run hangs, however long the lists grow, if the slots never
  // used are more than the keys to come, or if the run only inserts and no slot
  // was emptied before: what reading a configuration does.
  lemma {:induction false} TextRunEnds(t: Table, mm: Multimap, ops: seq<TextOp>, news: nat, deletes: bool)
    requires Ok(t) && Lists(t, mm) && HasRoom(t, mm, ops, news, deletes)
    ensures Succeeds(t, mm, ops, news, deletes)
    decreases |ops|
  {
    if ops == [] {
    } else {
      FirstOpEnds(t, mm, ops, news, deletes);
      TextRunEnds(TextStep(t, ops[0]), MultiStep(mm, ops[0]), ops[1..], news, deletes);
      SucceedsOn(t, mm, ops, news, deletes);
    }
  }

  lemma FirstOpEnds(t: Table, mm: Multimap, ops: seq<TextOp>, news: nat, deletes: bool)
    requires ops != [] && Ok(t) && Lists(t, mm) && HasRoom(t, mm, ops, news, deletes)
    ensures TextStops(t, ops[0]) && Proper(mm, ops[0]) && Ok(TextStep(t, ops[0]))
    ensures Lists(TextStep(t, ops[0]), MultiStep(mm, ops[0]))
    ensures HasRoom(TextStep(t, ops[0]), MultiStep(mm, ops[0]), ops[1..], news, deletes)
  {
    TextOpEnds(t, mm, ops[0], NewKeys(mm, ops) + news, deletes);
  }

  lemma SucceedsOn(t: Table, mm: Multimap, ops: seq<TextOp>, news: nat, deletes: bool)
    requires ops != [] && Ok(t) && TextStops(t, ops[0]) && Proper(mm, ops[0])
    requires Ok(TextStep(t, ops[0])) && Succeeds(TextStep(t, ops[0]), MultiStep(mm, ops[0]), ops[1..], news, deletes)
    ensures Succeeds(t, mm, ops, news, deletes)
  {
  }

  lemma TextOpEnds(t: Table, mm: Multimap, op: TextOp, news: nat, deletes: bool)
    requires Ok(t) && Lists(t, mm) && TextSlotLeft(t, news, deletes)
    requires IsNew(mm, op) ==> news > 0
    requires op.Delete? ==> op.key in mm && deletes
    ensures TextStops(t, op) && Proper(mm, op)
    ensures Ok(TextStep(t, op)) && Lists(TextStep(t, op), MultiStep(mm, op))
    ensures TextSlotLeft(TextStep(t, op), if IsNew(mm, op) then news - 1 else news, deletes)
  {
    match op
    case Insert(key, data) =>
      InsertEnds(t, mm, key, news, deletes);
      TextStepRefines(t, mm, op);
      if key in mm {
        AppendLeaves(t, mm, key, data, news, deletes);
      } else if key == "" {
        GottenList(t, mm, key);
      } else {
        InsertLeaves(t, mm, key, data, news, deletes);
      }
    case Delete(key) =>
      RepresentsKeys(t, Stored(mm), key);
      LookupFindsHeldKeys(t.records, key);
      TextStepRefines(t, mm, op);
      DeleteLeaves(t, mm, key, news);
  }

  // After any such run on an empty table, a lookup ends and returns exactly the
  // history of the key, and nothing at all when that history is empty.  Up to 2^29
  // keys, the run may delete if it inserts fewer than the table has slots.
  lemma TableKeepsHistory(i: nat, ops: seq<TextOp>, key: string)
    requires i < |SIZES| && key != "" && DeletesPresent(map[], ops) && NewKeys(map[], ops) < EIGHTH
    requires NewKeys(map[], ops) < SIZES[i] || OnlyInserts(ops)
    ensures var t := Table(Fresh(SIZES[i]), 0, i);
            Ok(t) && TextRunStops(t, ops) && Ok(TextRun(t, ops)) && LookupStops(TextRun(t, ops).records, key) &&
            Gotten(TextRun(t, ops), key) == if History(ops, key) == [] then None else Some(History(ops, key))
  {
    var t := Table(Fresh(SIZES[i]), 0, i);
    FreshTable(i);
    FreshLists(i);
    TextRunEnds(t, map[], ops, 0, !OnlyInserts(ops));
    MultiRunIsHistory(ops, key);
    var t' := TextRun(t, ops);
    SlotLeftStops(t', 0, !OnlyInserts(ops), key);
    GottenList(t', MultiRun(map[], ops), key);
  }

  lemma FreshLists(i: nat)
    requires i < |SIZES|
    ensures Lists(Table(Fresh(SIZES[i]), 0, i), map[])
  {
    FreshTable(i);
    assert Stored(map[]) == map[];
  }
}
