// The run of inserts and deletions after which no key can be inserted, and exactly
// how many inserts a new table can take before one can hang.
module TextExtremes {
  import opened Options
  import opened Probing
  import opened TableSpec
  import opened TableSearch
  import opened HomeKeys
  import opened TableExtremes
  import opened TextTable
  import opened TextLaws

  // The run of ops ends, and ends in that table.
  ghost predicate TextLeads(t: Table, ops: seq<TextOp>, end: Table)
    decreases |ops|
  {
    Ok(t) && if ops == [] then t == end else TextStops(t, ops[0]) && TextLeads(TextStep(t, ops[0]), ops[1..], end)
  }

  lemma TextLeadsOn(t: Table, op: TextOp, rest: seq<TextOp>, end: Table)
    requires Ok(t) && TextStops(t, op) && TextLeads(TextStep(t, op), rest, end)
    ensures TextLeads(t, [op] + rest, end)
  {
    assert ([op] + rest)[1..] == rest;
  }

  lemma {:induction false} TextLeadsIsRun(t: Table, ops: seq<TextOp>, end: Table)
    ensures TextLeads(t, ops, end) ==> Ok(t) && TextRunStops(t, ops) && TextRun(t, ops) == end && Ok(end)
    decreases |ops|
  {
    if ops == [] {
    } else if Ok(t) && TextStops(t, ops[0]) {
      TextLeadsIsRun(TextStep(t, ops[0]), ops[1..], end);
    }
  }

  lemma {:induction false} TextLeadsTo(t: Table, ops: seq<TextOp>, op: TextOp, end: Table)
    requires TextLeads(t, ops, end)
    ensures Ok(t) && Ok(end) && (TextRunStops(t, ops + [op]) ==> TextStops(end, op))
    decreases |ops|
  {
    if ops == [] {
      assert ops + [op] == [op];
    } else {
      assert (ops + [op])[1..] == ops[1..] + [op];
      TextLeadsTo(TextStep(t, ops[0]), ops[1..], op, end);
    }
  }

  // ---- Keys that come and go ----

  function TextVisit(key: string, rest: seq<TextOp>): seq<TextOp> {
    [Insert(key, ""), Delete(key)] + rest
  }

  function TextChurn(n: nat, size: nat): seq<TextOp>
    requires n <= size < WORD
    decreases size - n
  {
    if n == size then [] else TextVisit(HomeKey(n, size), TextChurn(n + 1, size))
  }

  lemma TextVisitSteps(key: string, rest: seq<TextOp>)
    ensures TextVisit(key, rest)[0] == Insert(key, "") && TextVisit(key, rest)[1..] == [Delete(key)] + rest
    ensures ([Delete(key)] + rest)[1..] == rest
  {
  }

  lemma TextVisitLeads(t: Table, key: string, t1: Table, t2: Table, rest: seq<TextOp>, end: Table)
    requires Ok(t) && InsertStops(t, key) && t1 == Inserted(t, key, "").0
    requires Ok(t1) && LookupStops(t1.records, key) && t2 == Removed(t1, key).0 && TextLeads(t2, rest, end)
    ensures TextLeads(t, TextVisit(key, rest), end)
  {
    TextLeadsOn(t1, Delete(key), rest, end);
    TextLeadsOn(t, Insert(key, ""), [Delete(key)] + rest, end);
    assert TextVisit(key, rest) == [Insert(key, "")] + ([Delete(key)] + rest);
  }

  // A slot never used stops the lookup that comes before the insert.
  lemma FirstTime(n: nat, i: nat)
    requires i < |SIZES| && n < SIZES[i] < WORD
    ensures Ok(Graveyard(n, i)) && LookupStops(Graveyard(n, i).records, HomeKey(n, SIZES[i]))
    ensures Gotten(Graveyard(n, i), HomeKey(n, SIZES[i])) == None
  {
    var recs, key := Graveyard(n, i).records, HomeKey(n, SIZES[i]);
    GravesOk(n, i);
    HomeOfKey(n, SIZES[i]);
    assert Stops(recs, key, 0);
    LookupFindsHeldKeys(recs, key);
  }

  lemma TextChurnFirst(n: nat, i: nat, rest: seq<TextOp>, end: Table)
    requires i < |SIZES| && n < SIZES[i] < WORD && TextLeads(Graveyard(n + 1, i), rest, end)
    ensures TextLeads(Graveyard(n, i), TextVisit(HomeKey(n, SIZES[i]), rest), end)
  {
    var t, key := Graveyard(n, i), HomeKey(n, SIZES[i]);
    FirstTime(n, i);
    ComeAndGo(n, i, Some([""]));
    TextVisitLeads(t, key, Added(t, Some(key), Some([""])).0, Graveyard(n + 1, i), rest, end);
  }

  lemma {:induction false} TextChurnRuns(n: nat, i: nat, ops: seq<TextOp>)
    requires i < |SIZES| && n <= SIZES[i] < WORD && ops == TextChurn(n, SIZES[i])
    ensures TextLeads(Graveyard(n, i), ops, Graveyard(SIZES[i], i))
    decreases SIZES[i] - n
  {
    if n == SIZES[i] {
      GravesOk(n, i);
    } else {
      var rest := TextChurn(n + 1, SIZES[i]);
      TextChurnRuns(n + 1, i, rest);
      TextChurnFirst(n, i, rest, Graveyard(SIZES[i], i));
    }
  }

  lemma TextChurnFromNew(i: nat)
    requires i < |SIZES| && SIZES[i] < WORD
    ensures TextLeads(Table(Fresh(SIZES[i]), 0, i), TextChurn(0, SIZES[i]), Graveyard(SIZES[i], i))
  {
    TextChurnRuns(0, i, TextChurn(0, SIZES[i]));
    assert Graves(0, SIZES[i]) == Fresh(SIZES[i]);
  }

  // A run of n new keys that deletes only what is there and leaves no key.
  predicate TextFutile(ops: seq<TextOp>, n: nat) {
    DeletesPresent(map[], ops) && MultiRun(map[], ops) == map[] && NewKeys(map[], ops) == n
  }

  lemma TextVisitOnMap(key: string, rest: seq<TextOp>, n: nat)
    requires key != "" && TextFutile(rest, n)
    ensures TextFutile(TextVisit(key, rest), n + 1)
  {
    var mm: Multimap := map[key := [""]];
    TextVisitSteps(key, rest);
    assert [] + [""] == [""] && MultiStep(map[], Insert(key, "")) == mm;
    assert mm - {key} == map[];
    assert DeletesPresent(mm, [Delete(key)] + rest) && MultiRun(mm, [Delete(key)] + rest) == map[];
    assert NewKeys(mm, [Delete(key)] + rest) == n;
  }

  lemma {:induction false} TextChurnOnMap(n: nat, size: nat, ops: seq<TextOp>)
    requires n <= size < WORD && ops == TextChurn(n, size)
    ensures TextFutile(ops, size - n)
    decreases size - n
  {
    if n == size {
    } else {
      var key, rest := HomeKey(n, size), TextChurn(n + 1, size);
      TextChurnOnMap(n + 1, size, rest);
      TextVisitOnMap(key, rest, size - n - 1);
    }
  }

  // As many keys as a new table has slots are inserted and deleted, one at a time.
  // After that no key can be inserted.
  lemma InsertHangs(i: nat, key: string)
    requires i < |SIZES|
    ensures SIZES[i] < WORD
    ensures var ops, t := TextChurn(0, SIZES[i]), Table(Fresh(SIZES[i]), 0, i);
            TextFutile(ops, SIZES[i]) && Ok(t) && TextRunStops(t, ops) &&
            Ok(TextRun(t, ops)) && !InsertStops(TextRun(t, ops), key)
  {
    SizeInRange(i);
    TextChurnOnMap(0, SIZES[i], TextChurn(0, SIZES[i]));
    TextChurnFromNew(i);
    TextLeadsIsRun(Table(Fresh(SIZES[i]), 0, i), TextChurn(0, SIZES[i]), Graveyard(SIZES[i], i));
    GravesHang(i, key);
  }

  // ---- Exactly ----

  // All runs end that delete only what is there and insert at most n new keys.
  ghost predicate AllTextEnd(i: nat, n: nat)
    requires i < |SIZES|
  {
    forall ops :: DeletesPresent(map[], ops) && NewKeys(map[], ops) <= n ==>
      Ok(Table(Fresh(SIZES[i]), 0, i)) && TextRunStops(Table(Fresh(SIZES[i]), 0, i), ops)
  }

  lemma {:induction false} PresentOn(mm: Multimap, ops: seq<TextOp>)
    requires DeletesPresent(mm, ops)
    ensures DeletesPresent(mm, ops + [Insert("", "")]) && NewKeys(mm, ops + [Insert("", "")]) == NewKeys(mm, ops)
    decreases |ops|
  {
    var op := Insert("", "");
    if ops == [] {
      assert ops + [op] == [op];
    } else {
      assert (ops + [op])[1..] == ops[1..] + [op];
      PresentOn(MultiStep(mm, ops[0]), ops[1..]);
    }
  }

  lemma SomeTextHangs(i: nat)
    requires i < |SIZES|
    ensures !AllTextEnd(i, SIZES[i])
  {
    SizeInRange(i);
    var ops, t := TextChurn(0, SIZES[i]), Table(Fresh(SIZES[i]), 0, i);
    TextChurnOnMap(0, SIZES[i], ops);
    PresentOn(map[], ops);
    TextChurnFromNew(i);
    GravesHang(i, "");
    TextLeadsTo(t, ops, Insert("", ""), Graveyard(SIZES[i], i));
  }

  // They do if and only if the new table has more slots than that.
  lemma TextRunsEndExactly(i: nat, n: nat)
    requires i < COVERED
    ensures AllTextEnd(i, n) <==> n < SIZES[i]
  {
    SizesCovered(i);
    if n < SIZES[i] {
      forall ops | DeletesPresent(map[], ops) && NewKeys(map[], ops) <= n
        ensures Ok(Table(Fresh(SIZES[i]), 0, i)) && TextRunStops(Table(Fresh(SIZES[i]), 0, i), ops)
      {
        TableKeepsHistory(i, ops, "x");
      }
    } else {
      SomeTextHangs(i);
    }
  }
}
