// Tables at the edge, each built by a run of operations: one that is empty and in
// which every lookup hangs, and full ones in which a search goes on for very long
// or for ever.
module TableExtremes {
  import opened Options
  import opened Probing
  import opened FullPath
  import opened TableSpec
  import opened TableSearch
  import opened TableLaws
  import opened TableRuns
  import opened HomeKeys

  // ---- Building a table ----

  // The run of ops ends, and ends in that table.
  ghost predicate Leads(t: Table, ops: seq<Op>, end: Table)
    decreases |ops|
  {
    Ok(t) && if ops == [] then t == end else OpStops(t, ops[0]) && Leads(Step(t, ops[0]).0, ops[1..], end)
  }

  lemma LeadsOn(t: Table, op: Op, rest: seq<Op>, end: Table)
    requires Ok(t) && OpStops(t, op) && Leads(Step(t, op).0, rest, end)
    ensures Leads(t, [op] + rest, end)
  {
    assert ([op] + rest)[1..] == rest;
  }

  lemma {:induction false} LeadsIsRun(t: Table, ops: seq<Op>, end: Table)
    ensures Leads(t, ops, end) ==> Ok(t) && RunStops(t, ops) && Run(t, ops).0 == end && Ok(end)
    decreases |ops|
  {
    if ops == [] {
    } else if Ok(t) && OpStops(t, ops[0]) {
      LeadsIsRun(Step(t, ops[0]).0, ops[1..], end);
    }
  }

  lemma {:induction false} LeadsTo(t: Table, ops: seq<Op>, op: Op, end: Table)
    requires Leads(t, ops, end)
    ensures Ok(t) && Ok(end) && (RunStops(t, ops + [op]) ==> OpStops(end, op))
    decreases |ops|
  {
    if ops == [] {
      assert ops + [op] == [op];
    } else {
      assert (ops + [op])[1..] == ops[1..] + [op];
      LeadsTo(Step(t, ops[0]).0, ops[1..], op, end);
    }
  }

  // The record of a key that sits in its home slot.
  function Settler(s: nat, size: nat, value: Option<Value>): Record
    requires s < size < WORD
  {
    Record(HomeWord(s, size), Some(HomeKey(s, size)), value)
  }

  // The key of a free slot goes there at once.
  lemma HomeIsFree(recs: seq<Record>, s: nat, value: Option<Value>)
    requires s < |recs| < WORD && recs[s].key.None?
    ensures HasFree(recs, HashOf(HomeKey(s, |recs|)))
    ensures Filled(recs, HomeKey(s, |recs|), value) == recs[s := Settler(s, |recs|, value)]
  {
    HomeOfKey(s, |recs|);
    assert IsFree(recs, HomeWord(s, |recs|), 0);
  }

  lemma HomeIsFound(recs: seq<Record>, s: nat, value: Option<Value>)
    requires s < |recs| < WORD && recs[s] == Settler(s, |recs|, value)
    ensures LookupStops(recs, HomeKey(s, |recs|)) && Lookup(recs, HomeKey(s, |recs|)) == Some(s)
  {
    HomeOfKey(s, |recs|);
    assert Stops(recs, HomeKey(s, |recs|), 0);
  }

  // ---- The run that hangs ----

  // A table once the keys of the first n slots have come and gone.
  function Graves(n: nat, size: nat): seq<Record>
    requires size < WORD
  {
    seq(size, s requires 0 <= s < size => if s < n then Record(HomeWord(s, size), None, None) else BLANK)
  }

  ghost function Graveyard(n: nat, i: nat): Table
    requires i < |SIZES|
  {
    SizeInRange(i);
    Table(Graves(n, SIZES[i]), 0, i)
  }

  function Visit(key: string, rest: seq<Op>): seq<Op> {
    [Add(key, None), Remove(key)] + rest
  }

  function Churn(n: nat, size: nat): seq<Op>
    requires n <= size < WORD
    decreases size - n
  {
    if n == size then [] else Visit(HomeKey(n, size), Churn(n + 1, size))
  }

  lemma NoKeysNoEntries(recs: seq<Record>)
    requires forall i :: 0 <= i < |recs| ==> recs[i].key.None?
    ensures Entries(recs) == []
  {
    LiveSlotsCounted(recs);
    assert LiveSlots(recs) == {};
  }

  lemma GravesOk(n: nat, i: nat)
    requires i < |SIZES|
    ensures Ok(Graveyard(n, i))
  {
    SizeInRange(i);
    NoKeysNoEntries(Graves(n, SIZES[i]));
  }

  lemma GraveDug(n: nat, size: nat, value: Option<Value>)
    requires n < size < WORD
    ensures Erased(Graves(n, size)[n := Settler(n, size, value)], n) == Graves(n + 1, size)
  {
  }

  // A key comes to a slot never used, with some value, and goes again.
  lemma ComeAndGo(n: nat, i: nat, value: Option<Value>)
    requires i < |SIZES| && n < SIZES[i] < WORD
    ensures var t, key := Graveyard(n, i), HomeKey(n, SIZES[i]);
            Ok(t) && AddStops(t, key) &&
            var t1 := Added(t, Some(key), value).0;
            Ok(t1) && LookupStops(t1.records, key) && Removed(t1, key).0 == Graveyard(n + 1, i)
  {
    var t, key := Graveyard(n, i), HomeKey(n, SIZES[i]);
    GravesOk(n, i);
    HomeIsFree(t.records, n, value);
    AddedConserves(t, Some(key), value);
    var t1 := Added(t, Some(key), value).0;
    HomeIsFound(t1.records, n, value);
    GraveDug(n, SIZES[i], value);
  }

  // A run of n adds of absent keys that leaves no key.
  predicate Futile(ops: seq<Op>, n: nat) {
    AddsAbsent(map[], ops) && MapRun(map[], ops).0 == map[] && AddCount(ops) == n
  }

  lemma VisitLeads(t: Table, key: string, t1: Table, t2: Table, rest: seq<Op>, end: Table)
    requires Ok(t) && AddStops(t, key) && t1 == Added(t, Some(key), None).0
    requires Ok(t1) && LookupStops(t1.records, key) && t2 == Removed(t1, key).0 && Leads(t2, rest, end)
    ensures Leads(t, Visit(key, rest), end)
  {
    LeadsOn(t1, Remove(key), rest, end);
    LeadsOn(t, Add(key, None), [Remove(key)] + rest, end);
    assert Visit(key, rest) == [Add(key, None)] + ([Remove(key)] + rest);
  }

  lemma ChurnFirst(n: nat, i: nat, rest: seq<Op>, end: Table)
    requires i < |SIZES| && n < SIZES[i] < WORD && Leads(Graveyard(n + 1, i), rest, end)
    ensures Leads(Graveyard(n, i), Visit(HomeKey(n, SIZES[i]), rest), end)
  {
    var t, key := Graveyard(n, i), HomeKey(n, SIZES[i]);
    ComeAndGo(n, i, None);
    VisitLeads(t, key, Added(t, Some(key), None).0, Graveyard(n + 1, i), rest, end);
  }

  lemma {:induction false} ChurnRuns(n: nat, i: nat, ops: seq<Op>)
    requires i < |SIZES| && n <= SIZES[i] < WORD && ops == Churn(n, SIZES[i])
    ensures Leads(Graveyard(n, i), ops, Graveyard(SIZES[i], i))
    decreases SIZES[i] - n
  {
    if n == SIZES[i] {
      GravesOk(n, i);
    } else {
      var rest := Churn(n + 1, SIZES[i]);
      ChurnRuns(n + 1, i, rest);
      ChurnFirst(n, i, rest, Graveyard(SIZES[i], i));
    }
  }

  lemma VisitSteps(key: string, rest: seq<Op>)
    ensures Visit(key, rest)[0] == Add(key, None) && Visit(key, rest)[1..] == [Remove(key)] + rest
    ensures ([Remove(key)] + rest)[1..] == rest
  {
  }

  lemma VisitCounts(key: string, rest: seq<Op>)
    ensures AddCount(Visit(key, rest)) == AddCount(rest) + 1
  {
    VisitSteps(key, rest);
    assert AddCount([Remove(key)] + rest) == AddCount(rest);
  }

  lemma VisitOnMap(key: string, rest: seq<Op>, n: nat)
    requires key != "" && Futile(rest, n)
    ensures Futile(Visit(key, rest), n + 1)
  {
    var none: Option<Value> := None;
    VisitSteps(key, rest);
    VisitCounts(key, rest);
    assert map[key := none] - {key} == map[];
    assert MapStep(map[], Add(key, None)).0 == map[key := none];
  }

  lemma {:induction false} ChurnOnMap(n: nat, size: nat, ops: seq<Op>)
    requires n <= size < WORD && ops == Churn(n, size)
    ensures Futile(ops, size - n)
    decreases size - n
  {
    if n == size {
    } else {
      var key, rest := HomeKey(n, size), Churn(n + 1, size);
      ChurnOnMap(n + 1, size, rest);
      VisitOnMap(key, rest, size - n - 1);
    }
  }

  // Nothing stops a lookup there, and the first slot stops an add.
  lemma GravesHang(i: nat, key: string)
    requires i < |SIZES|
    ensures Ok(Graveyard(SIZES[i], i)) && !LookupStops(Graveyard(SIZES[i], i).records, key)
    ensures AddStops(Graveyard(SIZES[i], i), key)
  {
    SizeInRange(i);
    GravesOk(SIZES[i], i);
    var recs := Graves(SIZES[i], SIZES[i]);
    assert forall off: nat :: At(recs, HashOf(key), off).hash != 0 && At(recs, HashOf(key), off).key.None?;
    assert IsFree(recs, HashOf(key), 0);
  }

  // As many keys as a new table has slots come and go, one at a time.  The table
  // is empty, and every lookup in it goes on for ever, whatever the key; an add
  // still ends.
  lemma EmptyTableHangs(i: nat, key: string)
    requires i < |SIZES|
    ensures SIZES[i] < WORD
    ensures var ops, t := Churn(0, SIZES[i]), Table(Fresh(SIZES[i]), 0, i);
            Futile(ops, SIZES[i]) && Ok(t) && RunStops(t, ops) &&
            var t' := Run(t, ops).0;
            Ok(t') && t'.count == 0 && !LookupStops(t'.records, key) && AddStops(t', key)
  {
    SizeInRange(i);
    ChurnOnMap(0, SIZES[i], Churn(0, SIZES[i]));
    ChurnFromNew(i);
    LeadsIsRun(Table(Fresh(SIZES[i]), 0, i), Churn(0, SIZES[i]), Graveyard(SIZES[i], i));
    GravesHang(i, key);
  }

  lemma ChurnFromNew(i: nat)
    requires i < |SIZES| && SIZES[i] < WORD
    ensures Leads(Table(Fresh(SIZES[i]), 0, i), Churn(0, SIZES[i]), Graveyard(SIZES[i], i))
  {
    ChurnRuns(0, i, Churn(0, SIZES[i]));
    assert Graves(0, SIZES[i]) == Fresh(SIZES[i]);
  }

  lemma {:induction false} AbsentOn(m: map<string, Option<Value>>, ops: seq<Op>, key: string)
    requires AddsAbsent(m, ops)
    ensures AddsAbsent(m, ops + [Get(key)]) && AddCount(ops + [Get(key)]) == AddCount(ops)
    decreases |ops|
  {
    if ops == [] {
      assert ops + [Get(key)] == [Get(key)];
    } else {
      assert (ops + [Get(key)])[1..] == ops[1..] + [Get(key)];
      AbsentOn(MapStep(m, ops[0]).0, ops[1..], key);
    }
  }

  // All runs with at most n adds end.
  ghost predicate AllEnd(i: nat, n: nat)
    requires i < |SIZES|
  {
    forall ops :: AddsAbsent(map[], ops) && AddCount(ops) <= n ==>
      Ok(Table(Fresh(SIZES[i]), 0, i)) && RunStops(Table(Fresh(SIZES[i]), 0, i), ops)
  }

  lemma SomeHangs(i: nat)
    requires i < |SIZES|
    ensures !AllEnd(i, SIZES[i])
  {
    SizeInRange(i);
    var ops, t := Churn(0, SIZES[i]), Table(Fresh(SIZES[i]), 0, i);
    ChurnOnMap(0, SIZES[i], ops);
    AbsentOn(map[], ops, "");
    ChurnFromNew(i);
    GravesHang(i, "");
    LeadsTo(t, ops, Get(""), Graveyard(SIZES[i], i));
  }

  // They do if and only if the new table has more slots than that.
  lemma RunsEndExactly(i: nat, n: nat)
    requires i < COVERED
    ensures AllEnd(i, n) <==> n < SIZES[i]
  {
    SizesCovered(i);
    if n < SIZES[i] {
      forall ops | AddsAbsent(map[], ops) && AddCount(ops) <= n
        ensures Ok(Table(Fresh(SIZES[i]), 0, i)) && RunStops(Table(Fresh(SIZES[i]), 0, i), ops)
      {
        FreshTableIsAMap(i, ops);
      }
    } else {
      SomeHangs(i);
    }
  }

  // ---- Full tables ----

  // The table of the keys whose home slots are `busy`, each in its own.
  function Crowd(busy: set<nat>, size: nat): seq<Record>
    requires size < WORD
  {
    seq(size, s requires 0 <= s < size => if s in busy then Settler(s, size, None) else BLANK)
  }

  lemma CrowdSlot(busy: set<nat>, size: nat, s: nat)
    requires s < size < WORD && s in busy
    ensures Crowd(busy, size)[s].hash == HashOf(HomeKey(s, size)) && Reachable(Crowd(busy, size), s)
  {
    var recs := Crowd(busy, size);
    HomeOfKey(s, size);
    assert OnPath(recs, recs[s].hash, 0);
  }

  lemma CrowdChained(busy: set<nat>, size: nat)
    requires 0 < size < WORD
    ensures Chained(Crowd(busy, size))
  {
    var recs := Crowd(busy, size);
    forall s | 0 <= s < |recs| && recs[s].key.Some?
      ensures recs[s].key.value != "" && recs[s].hash == HashOf(recs[s].key.value) && Reachable(recs, s)
    {
      CrowdSlot(busy, size, s);
    }
  }

  lemma CrowdCount(busy: set<nat>, size: nat)
    requires (forall s :: s in busy ==> s < size) && size < WORD
    ensures LiveSlots(Crowd(busy, size)) == busy && |Entries(Crowd(busy, size))| == |busy|
  {
    assert LiveSlots(Crowd(busy, size)) == busy;
    LiveSlotsCounted(Crowd(busy, size));
  }

  // The size of the table, and few enough keys for its load test, the last aside.
  ghost predicate Fits(busy: set<nat>, size: nat, i: nat) {
    i < |SIZES| && size == SIZES[i] && size < WORD && (forall s :: s in busy ==> s < size) &&
    20 * |busy| <= 13 * size + 20
  }

  ghost function Crowded(busy: set<nat>, size: nat, i: nat): Table
    requires size < WORD
  {
    Table(Crowd(busy, size), |busy|, i)
  }

  lemma CrowdOk(busy: set<nat>, size: nat, i: nat)
    requires Fits(busy, size, i)
    ensures Ok(Crowded(busy, size, i))
  {
    SizeInRange(i);
    CrowdChained(busy, size);
    CrowdCount(busy, size);
  }

  lemma NotInCrowd(busy: set<nat>, size: nat, key: string)
    requires size < WORD && HashOf(key) > size
    ensures !Holds(Crowd(busy, size), key)
  {
    forall s | 0 <= s < size ensures HomeKey(s, size) != key {
      HomeOfKey(s, size);
    }
  }

  ghost function UpTo(busy: set<nat>, n: nat): set<nat> {
    set s | s in busy && s < n
  }

  lemma UpToFits(busy: set<nat>, n: nat, size: nat, i: nat)
    requires Fits(busy, size, i)
    ensures Fits(UpTo(busy, n), size, i) && (n in busy ==> |UpTo(busy, n)| < |busy|)
  {
    SubsetSize(UpTo(busy, n), busy);
    if n in busy {
      SubsetSize(UpTo(busy, n), busy - {n});
    }
  }

  function Arrivals(busy: set<nat>, n: nat, size: nat): seq<Op>
    requires n <= size < WORD
    decreases size - n
  {
    if n == size then []
    else if n in busy then [Add(HomeKey(n, size), None)] + Arrivals(busy, n + 1, size)
    else Arrivals(busy, n + 1, size)
  }

  lemma CrowdGrows(busy: set<nat>, n: nat, size: nat)
    requires n < size < WORD && n in busy
    ensures UpTo(busy, n + 1) == UpTo(busy, n) + {n}
    ensures Crowd(UpTo(busy, n), size)[n := Settler(n, size, None)] == Crowd(UpTo(busy, n + 1), size)
  {
  }

  lemma ArriveOne(busy: set<nat>, n: nat, size: nat, i: nat)
    requires Fits(busy, size, i) && n < size && n in busy
    ensures var t, op := Crowded(UpTo(busy, n), size, i), Add(HomeKey(n, size), None);
            Ok(t) && OpStops(t, op) && Step(t, op).0 == Crowded(UpTo(busy, n + 1), size, i)
  {
    UpToFits(busy, n, size, i);
    CrowdOk(UpTo(busy, n), size, i);
    HomeIsFree(Crowd(UpTo(busy, n), size), n, None);
    CrowdGrows(busy, n, size);
  }

  lemma ArriveFirst(busy: set<nat>, n: nat, size: nat, i: nat, rest: seq<Op>, end: Table)
    requires Fits(busy, size, i) && n < size && n in busy && Leads(Crowded(UpTo(busy, n + 1), size, i), rest, end)
    ensures Leads(Crowded(UpTo(busy, n), size, i), [Add(HomeKey(n, size), None)] + rest, end)
  {
    ArriveOne(busy, n, size, i);
    LeadsOn(Crowded(UpTo(busy, n), size, i), Add(HomeKey(n, size), None), rest, end);
  }

  lemma NoneThere(busy: set<nat>, n: nat)
    requires n !in busy
    ensures UpTo(busy, n + 1) == UpTo(busy, n)
  {
  }

  // The crowd comes one key at a time, every key to its home slot.
  lemma {:induction false} ArrivalsRun(busy: set<nat>, n: nat, size: nat, i: nat, ops: seq<Op>, end: Table)
    requires Fits(busy, size, i) && n <= size && ops == Arrivals(busy, n, size)
    requires end == Crowded(UpTo(busy, size), size, i)
    ensures Leads(Crowded(UpTo(busy, n), size, i), ops, end)
    decreases size - n
  {
    if n == size {
      UpToFits(busy, n, size, i);
      CrowdOk(UpTo(busy, n), size, i);
    } else {
      var rest := Arrivals(busy, n + 1, size);
      ArrivalsRun(busy, n + 1, size, i, rest, end);
      if n in busy {
        ArriveFirst(busy, n, size, i, rest, end);
      } else {
        NoneThere(busy, n);
      }
    }
  }

  lemma {:induction false} ArrivalsAreAdds(busy: set<nat>, n: nat, size: nat)
    requires n <= size < WORD
    ensures OnlyAdds(Arrivals(busy, n, size))
    decreases size - n
  {
    if n == size {
    } else {
      ArrivalsAreAdds(busy, n + 1, size);
    }
  }

  // A run of adds that ends in t from a new table of the size.
  ghost predicate Builds(ops: seq<Op>, t: Table, i: nat) {
    i < |SIZES| && OnlyAdds(ops) && Ok(Table(Fresh(SIZES[i]), 0, i)) &&
    RunStops(Table(Fresh(SIZES[i]), 0, i), ops) && Run(Table(Fresh(SIZES[i]), 0, i), ops).0 == t
  }

  // Every such table is built by a run of adds.
  lemma CrowdArrives(busy: set<nat>, size: nat, i: nat) returns (ops: seq<Op>)
    requires Fits(busy, size, i)
    ensures Builds(ops, Crowded(busy, size, i), i)
  {
    ops := Arrivals(busy, 0, size);
    ArrivalsRun(busy, 0, size, i, ops, Crowded(UpTo(busy, size), size, i));
    ArrivalsAreAdds(busy, 0, size);
    assert UpTo(busy, size) == busy;
    assert UpTo(busy, 0) == {};
    assert Crowd({}, size) == Fresh(size);
    LeadsIsRun(Table(Fresh(size), 0, i), ops, Crowded(busy, size, i));
  }

  // ---- How many records a search can take ----

  // Every table of the size with n records has a free slot for the key.
  ghost predicate AllHaveFree(i: nat, n: nat, code: nat) {
    forall t :: Ok(t) && t.index == i && t.count == n ==> HasFree(t.records, code)
  }

  lemma BusyHasNoFree(busy: set<nat>, size: nat, code: nat)
    requires 0 < size < WORD && Path(code, size) <= busy
    ensures !HasFree(Crowd(busy, size), code)
  {
    forall off: nat ensures !IsFree(Crowd(busy, size), code, off) {
      assert Visits(code, size, Probe(code, off, size));
      assert Probe(code, off, size) in Path(code, size);
    }
  }

  // The bound is exact: with n records the search of hash_add always ends if and
  // only if its path has more than n slots.
  lemma FreeSlotExact(i: nat, n: nat, code: nat)
    requires i < |SIZES| && code < WORD && 20 * n <= 13 * SIZES[i] + 20
    ensures SIZES[i] > 0
    ensures AllHaveFree(i, n, code) <==> n < |Path(code, SIZES[i])|
  {
    SizeInRange(i);
    var path := Path(code, SIZES[i]);
    PathSize(code, SIZES[i]);
    if n < |path| {
      forall t | Ok(t) && t.index == i && t.count == n ensures HasFree(t.records, code) {
        FreeOnPath(t, code);
      }
    } else {
      var busy := Extend(path, n, SIZES[i]);
      CrowdOk(busy, SIZES[i], i);
      BusyHasNoFree(busy, SIZES[i], code);
      assert !HasFree(Crowded(busy, SIZES[i], i).records, code);
    }
  }

  lemma FreeOnPath(t: Table, code: nat)
    requires Ok(t) && 0 < SIZES[t.index] && t.count < |Path(code, SIZES[t.index])|
    ensures HasFree(t.records, code)
  {
    LiveSlotsCounted(t.records);
    var slot := Outside(Path(code, |t.records|), LiveSlots(t.records));
    var off: nat :| Probe(code, off, |t.records|) == slot;
    assert IsFree(t.records, code, off);
  }

  // In the largest size a run of adds, under the growth threshold, builds a table
  // with slots to spare in which the next add never ends.
  lemma AddHangs(key: string) returns (ops: seq<Op>, t: Table)
    requires key != ""
    ensures Builds(ops, t, LAST) && Ok(t) && t.index == LAST && !Overloaded(t) && !AddStops(t, key)
    ensures EIGHTH <= t.count <= SQUARES && Keyless(t.records)
  {
    SizeInRange(LAST);
    SizesCovered(LAST);
    var busy := Path(HashOf(key), SIZES[LAST]);
    PathSize(HashOf(key), SIZES[LAST]);
    t := Crowded(busy, SIZES[LAST], LAST);
    ops := CrowdArrives(busy, SIZES[LAST], LAST);
    CrowdOk(busy, SIZES[LAST], LAST);
    BusyHasNoFree(busy, SIZES[LAST], HashOf(key));
    assert |Entries(t.records)| < |t.records|;
    RoomMeansKeyless(t.records);
  }

  lemma RoomMeansKeyless(recs: seq<Record>)
    requires |Entries(recs)| < |recs|
    ensures Keyless(recs)
  {
    LiveSlotsCounted(recs);
    var i := Outside(Below(|recs|), LiveSlots(recs));
    assert recs[i].key.None?;
  }

  ghost predicate AllAddsEnd(i: nat) {
    forall t, key :: Ok(t) && t.index == i ==> AddStops(t, key)
  }

  // hash_add ends for every key in every table of a size if and only if the size
  // is not the largest.
  lemma AddAlwaysEnds(i: nat)
    requires i < |SIZES|
    ensures AllAddsEnd(i) <==> i < LAST
  {
    if i < LAST {
      forall t, key | Ok(t) && t.index == i ensures AddStops(t, key) {
        AddEnds(t, key);
      }
    } else {
      SomeAddHangs();
    }
  }

  lemma SomeAddHangs()
    ensures !AllAddsEnd(LAST)
  {
    var ops, t := AddHangs("j");
  }

  // ---- How long a search can get ----

  lemma StrayKey()
    ensures HashOf("j") == 177679
  {
    assert "j"[..0] == "";
    assert Djb2("j") == 177679;
  }

  // For every prime size up to 98317 and every count from half of it to the growth
  // threshold a run of adds fills the table so that hash_add of one more key
  // examines every offset up to the 32-bit wrap, more than 65000, before it meets a
  // free slot.
  lemma LoadTestDoesNotBoundProbes(i: nat, n: nat) returns (ops: seq<Op>, t: Table, key: string)
    requires i < 12 && SIZES[i] + 1 <= 2 * n && 20 * n <= 13 * SIZES[i]
    ensures Builds(ops, t, i)
    ensures Ok(t) && t.count == n && !Overloaded(t) && !Holds(t.records, key) && key != ""
    ensures HasFree(t.records, HashOf(key)) && FreeOffset(t.records, HashOf(key)) > 65_000
  {
    key := "j";
    StrayKey();
    SizeInRange(i);
    SmallSizesArePrime(i);
    HalfSquare(i);
    var busy := Trap(HashOf(key), SIZES[i], n);
    t := Crowded(busy, SIZES[i], i);
    ops := CrowdArrives(busy, SIZES[i], i);
    CrowdOk(busy, SIZES[i], i);
    NotInCrowd(busy, SIZES[i], key);
    AddEnds(t, key);
    BusyPath(busy, SIZES[i], HashOf(key));
  }

  lemma HalfSquare(i: nat)
    requires i < 12
    ensures SIZES[i] <= 98317 && 0 <= LastSquare(SIZES[i]) <= 49158 * 49158
  {
    SizesIncrease(i, 11);
    SquareMonotone((SIZES[i] - 1) / 2, 49158);
  }

  // No probe before the wrap finds a slot outside of a trap.
  lemma BusyPath(busy: set<nat>, size: nat, code: nat)
    requires 0 < size < WORD && busy <= Below(size) && !StopsBeforeWrap(busy, code, size) && code < 200_000
    requires HasFree(Crowd(busy, size), code)
    ensures FreeOffset(Crowd(busy, size), code) > 65_000
  {
    var f := FreeOffset(Crowd(busy, size), code);
    if f <= 65_000 {
      SquareMonotone(f, 65_000);
      assert false;
    }
  }

  lemma NextHash(str: string, c: char, longer: string, h: nat, h': nat)
    requires Djb2(str) == h && longer == str + [c] && h' == (h * 33 + SignedChar(c)) % WORD
    ensures Djb2(longer) == h'
  {
    assert longer[..|str|] == str;
  }

  lemma WrappedKey()
    ensures HashOf("daqpvua") == 4294966935
  {
    NextHash("", 'd', "d", 5381, 177673);
    NextHash("d", 'a', "da", 177673, 5863306);
    NextHash("da", 'q', "daq", 5863306, 193489211);
    NextHash("daq", 'p', "daqp", 193489211, 2090176779);
    NextHash("daqp", 'v', "daqpv", 2090176779, 256357089);
    NextHash("daqpv", 'u', "daqpvu", 256357089, 4164816758);
    NextHash("daqpvu", 'a', "daqpvua", 4164816758, 4294966935);
  }

  // The slots of its first 27 probes in 53 slots: 19 before the sum wraps, and only
  // three more after that.
  ghost function EarlyTrap(): set<nat> {
    PathSlots(4294966935, 19, 53) + {17, 39, 50}
  }

  lemma EarlyTrapFits()
    ensures |EarlyTrap()| <= 22 && Fits(EarlyTrap(), 53, 0)
  {
    Prime53();
    PathSlotsSize(4294966935, 19, 53);
    UnionBound(PathSlots(4294966935, 19, 53), {17, 39, 50});
  }

  lemma EarlySum(square: nat, slot: nat, k: nat)
    requires slot < 53 && 52 + square == slot + 53 * k && square <= 324
    ensures (4294966935 + square) % WORD % 53 == slot
  {
    QuotientUnique(4294966935 + square, 81037111 + k, slot, 53);
  }

  lemma EarlyProbe(off: nat, slot: nat, k: nat)
    requires off < 19 && slot < 53 && 52 + off * off == slot + 53 * k
    ensures slot in PathSlots(4294966935, 19, 53)
  {
    SquareMonotone(off, 18);
    EarlySum(off * off, slot, k);
    assert Probe(4294966935, off, 53) == slot;
  }

  lemma LateSum(square: nat, slot: nat, k: nat)
    requires slot < 53 && 361 + slot + 53 * k == square <= 676
    ensures (4294966935 + square) % WORD % 53 == slot
  {
    QuotientUnique(slot + 53 * k, k, slot, 53);
  }

  lemma LateProbe(off: nat, slot: nat, k: nat)
    requires slot < 53 && 361 + slot + 53 * k == off * off <= 676
    ensures Probe(4294966935, off, 53) == slot
  {
    LateSum(off * off, slot, k);
  }

  // The next eight probes: five of them meet slots of the first 19.
  lemma LateProbes()
    ensures forall off :: 19 <= off <= 26 ==> Probe(4294966935, off, 53) in {0, 3, 9, 17, 27, 39, 50, 52}
  {
    LateProbe(19, 0, 0);
    LateProbe(20, 39, 0);
    LateProbe(21, 27, 1);
    LateProbe(22, 17, 2);
    LateProbe(23, 9, 3);
    LateProbe(24, 3, 4);
    LateProbe(25, 52, 4);
    LateProbe(26, 50, 5);
  }

  lemma EarlySlots()
    ensures {0, 3, 9, 27, 52} <= PathSlots(4294966935, 19, 53)
  {
    EarlyProbe(0, 52, 0);
    EarlyProbe(1, 0, 1);
    EarlyProbe(2, 3, 1);
    EarlyProbe(9, 27, 2);
    EarlyProbe(13, 9, 4);
  }

  lemma CaughtEarly(off: nat)
    requires off <= 26
    ensures Probe(4294966935, off, 53) in EarlyTrap()
  {
    if off < 19 {
    } else {
      LateProbes();
      EarlySlots();
    }
  }

  // Half a table is not enough when the sum wraps early: at most 22 records in 53
  // slots, put there by a run of adds, hold the add of this key for more than 27
  // probes.
  lemma BoundNeedsNoWrap() returns (ops: seq<Op>, t: Table)
    ensures Builds(ops, t, 0) && Ok(t) && t.count <= 22 && 2 * t.count < 53 + 1
    ensures !Holds(t.records, "daqpvua") && !Unwrapping("daqpvua", 53)
    ensures HasFree(t.records, HashOf("daqpvua")) && FreeOffset(t.records, HashOf("daqpvua")) > (53 - 1) / 2
  {
    var key, busy := "daqpvua", EarlyTrap();
    WrappedKey();
    EarlyTrapFits();
    t := Crowded(busy, 53, 0);
    ops := CrowdArrives(busy, 53, 0);
    CrowdOk(busy, 53, 0);
    NotInCrowd(busy, 53, key);
    AddEnds(t, key);
    CaughtSearch(t, HashOf(key));
  }

  lemma CaughtSearch(t: Table, code: nat)
    requires Fits(EarlyTrap(), 53, 0) && t == Crowded(EarlyTrap(), 53, 0)
    requires code == 4294966935 && HasFree(t.records, code)
    ensures FreeOffset(t.records, code) > 26
  {
    var off := FreeOffset(t.records, code);
    if off <= 26 {
      CaughtEarly(off);
      assert false;
    }
  }
}
