// cmd_search_hooks (cmd.c): which IRC commands are handed to hooks.  The table
// of commands is walked record by record, yet a command runs at most once.
module HookCommands {
  import opened Options
  import opened TableSpec
  import opened TableLaws
  import opened HashTable
  import opened TextTable
  import opened TextLaws
  import opened IniRoundTrip

  const YES: seq<string> := ["yes", "true", "1", "oui"]
  const NO: seq<string> := ["no", "false", "0", "non"]

  // A setting that names a hook rather than switching one on or off.
  predicate NamesHook(list: Value) {
    list == [] || (list[0] !in YES && list[0] !in NO)
  }

  lemma SwitchWords(word: string)
    ensures !NamesHook([word]) <==>
            word == "yes" || word == "true" || word == "1" || word == "oui" ||
            word == "no" || word == "false" || word == "0" || word == "non"
  {
  }

  // hash_text_is_true and hash_text_is_false
  method IsTrue(mem: Hash, key: string) returns (r: bool)
    requires mem.Valid() && LookupStops(mem.records[..], key)
    ensures r <==> FirstOf(Gotten(mem.Value(), key)).Some? && FirstOf(Gotten(mem.Value(), key)).value in YES
  {
    var tmp := GetFirst(mem, key);
    return tmp.Some? && (tmp.value == "yes" || tmp.value == "true" || tmp.value == "1" || tmp.value == "oui");
  }

  method IsFalse(mem: Hash, key: string) returns (r: bool)
    requires mem.Valid() && LookupStops(mem.records[..], key)
    ensures r <==> FirstOf(Gotten(mem.Value(), key)).Some? && FirstOf(Gotten(mem.Value(), key)).value in NO
  {
    var tmp := GetFirst(mem, key);
    return tmp.Some? && (tmp.value == "no" || tmp.value == "false" || tmp.value == "0" || tmp.value == "non");
  }

  predicate Seen(es: seq<Entry>, name: string) {
    exists k :: 0 <= k < |es| && es[k].key == name
  }

  lemma SeenOnce(all: seq<Entry>, es: seq<Entry>, e: Entry, name: string)
    requires DistinctKeys(all) && es + [e] <= all
    ensures e.key == name ==> !Seen(es, name)
    ensures Seen(es + [e], name) <==> Seen(es, name) || e.key == name
  {
    assert (es + [e])[|es|] == e && all[|es|] == (es + [e])[|es|];
    assert forall k :: 0 <= k < |es| ==> (es + [e])[k] == es[k] && all[k] == (es + [e])[k];
  }

  // The test on one live record.
  method LooksLikeHook(cmd: Hash, key: string, name: string, ghost mm: Multimap) returns (r: bool)
    requires cmd.Valid() && Lists(cmd.Value(), mm) && Holds(cmd.records[..], key)
    ensures r <==> name == key && key in mm && NamesHook(mm[key])
  {
    LookupFindsHeldKeys(cmd.records[..], key);
    GetRefinesMap(cmd.Value(), Stored(mm), key);
    RepresentsKeys(cmd.Value(), Stored(mm), key);
    if name != key {
      return false;
    }
    var yes := IsTrue(cmd, key);
    var no := IsFalse(cmd, key);
    return !yes && !no;
  }

  lemma LiveMeansKey(recs: seq<Record>, i: nat)
    requires Chained(recs) && i < |recs|
    ensures recs[i].hash != 0 && recs[i].key.Some? <==> recs[i].key.Some?
  {
  }

  // How often the command has been run once these records are behind.
  function Runs(es: seq<Entry>, name: string, names: bool): nat {
    if Seen(es, name) && names then 1 else 0
  }

  lemma RunsStep(recs: seq<Record>, i: nat, name: string, names: bool)
    requires i < |recs| && DistinctKeys(Entries(recs))
    ensures Runs(Entries(recs[..i + 1]), name, names) ==
            Runs(Entries(recs[..i]), name, names) + (if recs[i].key == Some(name) && names then 1 else 0)
  {
    EntriesPrefix(recs, i);
    if recs[i].key.Some? {
      SeenOnce(Entries(recs), Entries(recs[..i]), Entry(recs[i].key.value, recs[i].value), name);
    } else {
      assert Entries(recs[..i]) + [] == Entries(recs[..i]);
    }
  }

  // cmd_search_hooks: how often the command is handed to its hook.
  method SearchHooks(cmd: Hash, name: string, ghost mm: Multimap) returns (switched: nat)
    requires cmd.Valid() && Lists(cmd.Value(), mm)
    ensures switched == if name in mm && NamesHook(mm[name]) then 1 else 0
  {
    ghost var recs, all := cmd.records[..], Entries(cmd.records[..]);
    ghost var names := name in mm && NamesHook(mm[name]);
    EntriesDistinct(all, Stored(mm));
    HeldAreSeen(recs, name);
    RepresentsKeys(cmd.Value(), Stored(mm), name);
    switched := 0;
    var i, c := 0, 0;
    while c < cmd.recordsCount
      invariant 0 <= i <= cmd.records.Length
      invariant c == |Entries(recs[..i])|
      invariant switched == Runs(Entries(recs[..i]), name, names)
      decreases cmd.records.Length - i
    {
      assert recs[..cmd.records.Length] == recs;
      EntriesPrefix(recs, i);
      LiveMeansKey(recs, i);
      RunsStep(recs, i, name, names);
      if cmd.records[i].hash != 0 && cmd.records[i].key.Some? {
        c := c + 1;
        var key := cmd.records[i].key.value;
        assert recs[i].key == Some(key);
        var hook := LooksLikeHook(cmd, key, name, mm);
        if hook {
          switched := switched + 1;
        }
      }
      i := i + 1;
    }
    EntriesRest(recs, i);
  }

  lemma {:induction false} HeldAreSeen(recs: seq<Record>, name: string)
    ensures Seen(Entries(recs), name) <==> Holds(recs, name)
    decreases |recs|
  {
    if recs == [] {
    } else {
      var n := |recs| - 1;
      HeldAreSeen(recs[..n], name);
      assert forall k :: 0 <= k < n ==> recs[..n][k] == recs[k];
      var es := Entries(recs[..n]);
      assert Entries(recs) == es + (if recs[n].key.Some? then [Entry(recs[n].key.value, recs[n].value)] else []);
      assert forall k :: 0 <= k < |es| ==> Entries(recs)[k] == es[k];
      if recs[n].key == Some(name) {
        assert Entries(recs)[|es|].key == name;
      }
    }
  }
}
