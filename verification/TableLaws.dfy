// The open-addressing table as a map: what one operation does to the bindings.
module TableLaws {
  import opened Options
  import opened TableSpec

  // ---- The table as a map ----

  ghost function Graph(m: map<string, Option<Value>>): (g: set<Entry>)
    ensures forall e :: e in g <==> e.key in m && m[e.key] == e.value
  {
    var g := set k | k in m :: Entry(k, m[k]);
    assert forall e :: e in g ==> e.key in m && m[e.key] == e.value;
    assert forall e: Entry :: e.key in m && m[e.key] == e.value ==> e == Entry(e.key, m[e.key]);
    g
  }

  // The live records are the bindings of m, each exactly once.
  ghost predicate Represents(t: Table, m: map<string, Option<Value>>) {
    multiset(Entries(t.records)) == multiset(Graph(m))
  }

  lemma GraphInsert(m: map<string, Option<Value>>, key: string, value: Option<Value>)
    requires key !in m
    ensures multiset(Graph(m[key := value])) == multiset(Graph(m)) + multiset{Entry(key, value)}
  {
    assert Graph(m[key := value]) == Graph(m) + {Entry(key, value)};
  }

  lemma GraphRemove(m: map<string, Option<Value>>, key: string)
    requires key in m
    ensures multiset(Graph(m)) == multiset(Graph(m - {key})) + multiset{Entry(key, m[key])}
  {
    GraphInsert(m - {key}, key, m[key]);
    assert (m - {key})[key := m[key]] == m;
  }

  lemma {:induction false} GraphSize(m: map<string, Option<Value>>)
    ensures |multiset(Graph(m))| == |m|
  {
    if m == map[] {
      assert Graph(m) == {};
    } else {
      var k :| k in m;
      GraphSize(m - {k});
      GraphRemove(m, k);
      assert m.Keys == (m - {k}).Keys + {k};
    }
  }

  lemma RepresentsSize(t: Table, m: map<string, Option<Value>>)
    requires Ok(t) && Represents(t, m)
    ensures t.count == |m|
  {
    GraphSize(m);
    assert |multiset(Entries(t.records))| == |multiset(Graph(m))|;
  }

  lemma RepresentsKeys(t: Table, m: map<string, Option<Value>>, key: string)
    requires Represents(t, m)
    ensures Holds(t.records, key) <==> key in m
    ensures forall i :: 0 <= i < |t.records| && t.records[i].key == Some(key) ==>
              key in m && m[key] == t.records[i].value
  {
    forall i | 0 <= i < |t.records| && t.records[i].key == Some(key)
      ensures key in m && m[key] == t.records[i].value
    {
      HeldMeansCounted(t.records, i);
      assert Entry(key, t.records[i].value) in multiset(Entries(t.records));
    }
    if key in m {
      assert Entry(key, m[key]) in multiset(Graph(m));
      EntriesMember(t.records, Entry(key, m[key]));
      var i: nat :| Carries(t.records, i, Entry(key, m[key]));
    }
  }

  // ---- One operation ----

  datatype Op = Add(key: string, value: Option<Value>) | Remove(key: string) | Get(key: string)
  datatype Answer = Code(rc: int) | Found(value: Option<Value>)

  ghost predicate OpStops(t: Table, op: Op)
    requires Ok(t)
  {
    match op
    case Add(key, _) => AddStops(t, key)
    case Remove(key) => LookupStops(t.records, key)
    case Get(key) => LookupStops(t.records, key)
  }

  ghost function Step(t: Table, op: Op): (Table, Answer)
    requires Ok(t) && OpStops(t, op)
  {
    match op
    case Add(key, value) => (Added(t, Some(key), value).0, Code(Added(t, Some(key), value).1))
    case Remove(key) => (Removed(t, key).0, Found(Removed(t, key).1))
    case Get(key) => (t, Found(Gotten(t, key)))
  }

  // A plain map that refuses an empty key and a key over the largest capacity.
  function MapStep(m: map<string, Option<Value>>, op: Op): (map<string, Option<Value>>, Answer) {
    match op
    case Add(key, value) =>
      if key == "" then (m, Code(-2))
      else if 20 * |m| > 13 * SIZES[|SIZES| - 1] then (m, Code(-1))
      else (m[key := value], Code(0))
    case Remove(key) => (m - {key}, Found(if key in m then m[key] else None))
    case Get(key) => (m, Found(if key in m then m[key] else None))
  }

  predicate Absent(m: map<string, Option<Value>>, op: Op) {
    op.Add? ==> op.key !in m
  }

  lemma AddRefinesMap(t: Table, m: map<string, Option<Value>>, key: string, value: Option<Value>)
    requires Ok(t) && Represents(t, m) && AddStops(t, key) && key !in m
    ensures Ok(Added(t, Some(key), value).0)
    ensures Represents(Added(t, Some(key), value).0, MapStep(m, Add(key, value)).0)
    ensures Code(Added(t, Some(key), value).1) == MapStep(m, Add(key, value)).1
  {
    AddedConserves(t, Some(key), value);
    RepresentsSize(t, m);
    GraphInsert(m, key, value);
  }

  lemma GetRefinesMap(t: Table, m: map<string, Option<Value>>, key: string)
    requires Ok(t) && Represents(t, m) && LookupStops(t.records, key)
    ensures Gotten(t, key) == if key in m then m[key] else None
  {
    LookupFindsHeldKeys(t.records, key);
    RepresentsKeys(t, m, key);
  }

  lemma RemoveRefinesMap(t: Table, m: map<string, Option<Value>>, key: string)
    requires Ok(t) && Represents(t, m) && LookupStops(t.records, key)
    ensures Ok(Removed(t, key).0) && Represents(Removed(t, key).0, m - {key})
    ensures Removed(t, key).1 == if key in m then m[key] else None
  {
    RepresentsKeys(t, m, key);
    RemovedValue(t, m, key);
    RemovedConserves(t, key);
    var t' := Removed(t, key).0;
    if key in m {
      GraphRemove(m, key);
      CancelOne(multiset(Entries(t'.records)), multiset(Graph(m - {key})), Entry(key, m[key]));
    } else {
      assert m - {key} == m;
    }
  }

  lemma CancelOne(a: multiset<Entry>, b: multiset<Entry>, e: Entry)
    requires a + multiset{e} == b + multiset{e}
    ensures a == b
  {
    assert a == a + multiset{e} - multiset{e};
    assert b == b + multiset{e} - multiset{e};
  }

  lemma RemovedValue(t: Table, m: map<string, Option<Value>>, key: string)
    requires Ok(t) && Represents(t, m) && LookupStops(t.records, key)
    ensures Removed(t, key).1 == if key in m then m[key] else None
  {
    LookupFindsHeldKeys(t.records, key);
    RepresentsKeys(t, m, key);
  }

  // hash_add does not look for the key: the table still represents some map
  // after a successful add if and only if the key was absent.
  lemma DuplicateBreaksTheMap(t: Table, m: map<string, Option<Value>>, key: string, value: Option<Value>)
    requires Ok(t) && Represents(t, m) && AddStops(t, key) && Added(t, Some(key), value).1 == 0
    ensures (exists m' :: Represents(Added(t, Some(key), value).0, m')) <==> key !in m
  {
    var t' := Added(t, Some(key), value).0;
    AddedConserves(t, Some(key), value);
    if key !in m {
      GraphInsert(m, key, value);
      assert Represents(t', m[key := value]);
    } else {
      assert Entry(key, m[key]) in Graph(m);
      forall m' ensures !Represents(t', m') {
        OneBindingPerKey(m', key, m[key], value);
      }
    }
  }

  lemma OneBindingPerKey(m: map<string, Option<Value>>, key: string, v: Option<Value>, w: Option<Value>)
    ensures !(multiset{Entry(key, v), Entry(key, w)} <= multiset(Graph(m)))
  {
    var a, b := Entry(key, v), Entry(key, w);
    assert a in Graph(m) && b in Graph(m) ==> a == b;
    assert multiset(Graph(m))[a] <= 1;
    assert multiset{a, b}[a] >= 1 && multiset{a, b}[b] >= 1;
  }
}
