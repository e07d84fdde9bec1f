// Routing of syslog messages (rfc3164.c): four lookups instead of a scan of
// every configured pattern.
module Syslog {
  import opened Options
  import opened CString
  import opened TableSpec
  import opened TableRuns
  import opened TableLaws
  import opened TextLaws
  import opened HashTable
  import opened IniRoundTrip
  import Ini
  import IniPrinter
  import HookWire
  import IrcText
  import Framing

  const FACILITIES: seq<string> := [
    "kern", "user", "mail", "daemon", "auth", "syslog", "lpr", "news", "uucp", "cron", "auth", "ftp",
    "ntp", "authpriv", "authpriv", "cron",
    "local0", "local1", "local2", "local3", "local4", "local5", "local6", "local7"
  ]
  const SEVERITIES: seq<string> := ["emerg", "alert", "crit", "err", "warning", "notice", "info", "debug"]
  const COLORS: seq<string> := ["5", "5", "4", "7", "8", "9", "11", "15"]
  const PRI_TXT: nat := 16

  // ---- Patterns ----

  // A name that may stand in a pattern: longer than the wildcard, without a dot.
  predicate Name(s: string) {
    3 <= |s| <= 8 && IniPrinter.Free(s, ".")
  }

  lemma FacilityNames(f: nat)
    requires f < 24
    ensures Name(FACILITIES[f])
  {
  }

  lemma SeverityNames(s: nat)
    requires s < 8
    ensures Name(SEVERITIES[s]) && |SEVERITIES[s]| <= 7
  {
  }

  function Pattern(a: string, b: string): string {
    a + "." + b
  }

  // The keys looked up, in order.
  function Searches(fac: string, sev: string): seq<string> {
    [Pattern("*", "*"), Pattern(fac, "*"), Pattern("*", sev), Pattern(fac, sev)]
  }

  // Every search string fits the RFC3164_PRI_TXT + 1 bytes of its buffer; the
  // longest, "authpriv.warning", fills it.
  lemma SearchesFit(f: nat, s: nat)
    requires f < 24 && s < 8
    ensures forall i :: 0 <= i < 4 ==> |Searches(FACILITIES[f], SEVERITIES[s])[i]| + 1 <= PRI_TXT + 1
  {
    FacilityNames(f);
    SeverityNames(s);
  }

  // A configured key matches when both its halves are the name or the wildcard.
  predicate Matches(key: string, fac: string, sev: string) {
    var a, b := Before(key, "."), After(key, ".");
    (a == fac || a == "*") && (b == Some(sev) || b == Some("*"))
  }

  lemma PatternSplits(a: string, b: string)
    requires IniPrinter.Free(a, ".")
    ensures Before(Pattern(a, b), ".") == a && After(Pattern(a, b), ".") == Some(b)
  {
    assert Pattern(a, b) == a + ['.'] + b;
    SplitToken(a, '.', b, ".");
  }

  lemma KeySplits(key: string)
    requires After(key, ".").Some?
    ensures key == Pattern(Before(key, "."), After(key, ".").value)
  {
    var n := |Before(key, ".")|;
    assert key[..n] == Before(key, ".");
  }

  lemma PatternsDiffer(a: string, b: string, a': string, b': string)
    requires IniPrinter.Free(a, ".") && IniPrinter.Free(a', ".")
    ensures Pattern(a, b) == Pattern(a', b') <==> a == a' && b == b'
  {
    PatternSplits(a, b);
    PatternSplits(a', b');
  }

  lemma SearchMatches(a: string, b: string, fac: string, sev: string)
    requires Name(fac) && Name(sev) && (a == fac || a == "*") && (b == sev || b == "*")
    ensures Matches(Pattern(a, b), fac, sev)
  {
    PatternSplits(a, b);
  }

  lemma MatchIsSearch(key: string, fac: string, sev: string)
    requires Matches(key, fac, sev)
    ensures key in Searches(fac, sev)
  {
    KeySplits(key);
  }

  // The searches are all the keys that can match.
  lemma MatchesAreSearches(key: string, fac: string, sev: string)
    requires Name(fac) && Name(sev)
    ensures Matches(key, fac, sev) <==> key in Searches(fac, sev)
  {
    SearchMatches("*", "*", fac, sev);
    SearchMatches("*", sev, fac, sev);
    SearchMatches(fac, "*", fac, sev);
    SearchMatches(fac, sev, fac, sev);
    if Matches(key, fac, sev) {
      MatchIsSearch(key, fac, sev);
    }
  }

  lemma SearchesDistinct(fac: string, sev: string)
    requires Name(fac) && Name(sev)
    ensures forall i, j :: 0 <= i < j < 4 ==> Searches(fac, sev)[i] != Searches(fac, sev)[j]
  {
    PatternsDiffer("*", "*", fac, "*");
    PatternsDiffer("*", "*", "*", sev);
    PatternsDiffer("*", "*", fac, sev);
    PatternsDiffer(fac, "*", "*", sev);
    PatternsDiffer(fac, "*", fac, sev);
    PatternsDiffer("*", sev, fac, sev);
  }

  // ---- What the lookups yield ----

  // The targets of the keys, key by key, each list in its own order.
  function Targets(mm: Multimap, keys: seq<string>): seq<string> {
    if keys == [] then [] else Targets(mm, keys[..|keys| - 1]) + ListOf(mm, keys[|keys| - 1])
  }

  predicate AnyHeld(mm: Multimap, keys: seq<string>) {
    exists i :: 0 <= i < |keys| && keys[i] in mm
  }

  ghost predicate LookupsStop(mem: Hash, keys: seq<string>)
    reads mem, mem.records
  {
    mem.Valid() && forall i :: 0 <= i < |keys| ==> LookupStops(mem.records[..], keys[i])
  }

  // They do in every table that reading a configuration leaves: some slot was
  // never used.
  lemma LookupsEnd(mem: Hash, mm: Multimap, keys: seq<string>)
    requires Ini.Holding(mem.Value(), mm, 0)
    ensures LookupsStop(mem, keys)
  {
    forall i | 0 <= i < |keys| ensures LookupStops(mem.records[..], keys[i]) {
      SlotLeftStops(mem.Value(), 0, false, keys[i]);
    }
  }

  // The four hash_get calls of sl_find_target_channels and sl_find_target_bots.
  method FindTargets(mem: Hash, fac: string, sev: string, ghost mm: Multimap)
    returns (found: bool, targets: seq<string>)
    requires LookupsStop(mem, Searches(fac, sev)) && Lists(mem.Value(), mm)
    ensures found == AnyHeld(mm, Searches(fac, sev))
    ensures targets == Targets(mm, Searches(fac, sev))
  {
    var keys := ["*.*", fac + ".*", "*." + sev, fac + "." + sev];
    SearchStrings(fac, sev);
    found, targets := false, [];
    var k := 0;
    while k < |keys|
      invariant 0 <= k <= |keys|
      invariant found == AnyHeld(mm, keys[..k]) && targets == Targets(mm, keys[..k])
    {
      assert keys[k] == Searches(fac, sev)[k];
      GottenList(mem.Value(), mm, keys[k]);
      TargetsSnoc(mm, keys, k);
      var tmp := mem.Get(keys[k]);
      if tmp.Some? {
        found := true;
        targets := Collect(targets, tmp.value);
      }
      k := k + 1;
    }
    assert keys[..k] == keys;
  }

  // The loop over the list found by one lookup.
  method Collect(before: seq<string>, list: seq<string>) returns (targets: seq<string>)
    ensures targets == before + list
  {
    targets := before;
    var i := 0;
    while i < |list|
      invariant 0 <= i <= |list| && targets == before + list[..i]
    {
      targets := targets + [list[i]];
      i := i + 1;
    }
    assert list[..i] == list;
  }

  lemma SearchStrings(fac: string, sev: string)
    ensures ["*.*", fac + ".*", "*." + sev, fac + "." + sev] == Searches(fac, sev)
  {
    assert "*" + "." + "*" == "*.*" && fac + "." + "*" == fac + ".*" && "*" + "." + sev == "*." + sev;
  }

  lemma TargetsSnoc(mm: Multimap, keys: seq<string>, k: nat)
    requires k < |keys|
    ensures Targets(mm, keys[..k + 1]) == Targets(mm, keys[..k]) + ListOf(mm, keys[k])
    ensures AnyHeld(mm, keys[..k + 1]) <==> AnyHeld(mm, keys[..k]) || keys[k] in mm
  {
    assert keys[..k + 1][..k] == keys[..k];
    assert keys[..k + 1] == keys[..k] + [keys[k]];
    AnyHeldSnoc(mm, keys[..k], keys[k]);
  }

  lemma AnyHeldSnoc(mm: Multimap, keys: seq<string>, key: string)
    ensures AnyHeld(mm, keys + [key]) <==> AnyHeld(mm, keys) || key in mm
  {
    var all := keys + [key];
    assert all[|keys|] == key;
    if i :| 0 <= i < |keys| && keys[i] in mm {
      assert all[i] in mm;
    }
  }

  // ---- Reference: a scan of every record ----

  // The targets of all live records whose key matches, record by record.
  function ScanTargets(es: seq<Entry>, fac: string, sev: string): seq<string> {
    if es == [] then []
    else
      ScanTargets(es[..|es| - 1], fac, sev) +
      (if Matches(es[|es| - 1].key, fac, sev) then IniPrinter.ListIn(es[|es| - 1]) else [])
  }

  // The targets of the records whose key is in ks.
  function Chosen(es: seq<Entry>, ks: set<string>): seq<string> {
    if es == [] then []
    else Chosen(es[..|es| - 1], ks) + (if es[|es| - 1].key in ks then IniPrinter.ListIn(es[|es| - 1]) else [])
  }

  lemma {:induction false} ChosenSplits(es: seq<Entry>, ks: set<string>, k: string)
    requires k !in ks
    ensures multiset(Chosen(es, ks + {k})) == multiset(Chosen(es, ks)) + multiset(Chosen(es, {k}))
    decreases |es|
  {
    if es == [] {
    } else {
      ChosenSplits(es[..|es| - 1], ks, k);
    }
  }

  lemma {:induction false} ChosenOne(es: seq<Entry>, key: string)
    requires DistinctKeys(es)
    ensures Chosen(es, {key}) == ListOf(MapOf(es), key)
    decreases |es|
  {
    if es == [] {
    } else {
      var n := |es| - 1;
      assert DistinctKeys(es[..n]);
      ChosenOne(es[..n], key);
      MapOfKeys(es[..n], es[n].key);
    }
  }

  lemma {:induction false} ChosenNone(es: seq<Entry>)
    ensures Chosen(es, {}) == []
  {
    if es == [] {
    } else {
      ChosenNone(es[..|es| - 1]);
    }
  }

  lemma {:induction false} ScanIsChosen(es: seq<Entry>, fac: string, sev: string, ks: set<string>)
    requires Name(fac) && Name(sev) && forall k :: k in ks <==> k in Searches(fac, sev)
    ensures ScanTargets(es, fac, sev) == Chosen(es, ks)
    decreases |es|
  {
    if es == [] {
    } else {
      ScanIsChosen(es[..|es| - 1], fac, sev, ks);
      MatchesAreSearches(es[|es| - 1].key, fac, sev);
    }
  }

  lemma {:induction false} TargetsAreChosen(es: seq<Entry>, keys: seq<string>, ks: set<string>)
    requires DistinctKeys(es) && (forall k :: k in ks <==> k in keys)
    requires forall i, j :: 0 <= i < j < |keys| ==> keys[i] != keys[j]
    ensures multiset(Targets(MapOf(es), keys)) == multiset(Chosen(es, ks))
    decreases |keys|
  {
    if keys == [] {
      assert ks == {};
      ChosenNone(es);
    } else {
      var n := |keys| - 1;
      var k, rest := keys[n], ks - {keys[n]};
      assert keys == keys[..n] + [k];
      assert forall x :: x in rest <==> x in keys[..n];
      TargetsAreChosen(es, keys[..n], rest);
      ChosenSplits(es, rest, k);
      ChosenOne(es, k);
      assert ks == rest + {k};
    }
  }

  // For every facility and severity the four lookups yield exactly the targets
  // a scan of all records would, once for each matching key.
  lemma LookupsAreAScan(t: Table, mm: Multimap, fac: string, sev: string)
    requires Lists(t, mm) && Name(fac) && Name(sev)
    ensures multiset(Targets(mm, Searches(fac, sev))) == multiset(ScanTargets(Entries(t.records), fac, sev))
    ensures AnyHeld(mm, Searches(fac, sev)) <==>
            exists i :: 0 <= i < |Entries(t.records)| && Matches(Entries(t.records)[i].key, fac, sev)
  {
    var es, keys := Entries(t.records), Searches(fac, sev);
    var ks := set i | 0 <= i < 4 :: keys[i];
    EntriesDistinct(es, Stored(mm));
    MapOfEntries(es, mm);
    SearchesDistinct(fac, sev);
    TargetsAreChosen(es, keys, ks);
    ScanIsChosen(es, fac, sev, ks);
    HeldMeansMatch(es, mm, fac, sev);
  }

  lemma HeldMeansMatch(es: seq<Entry>, mm: Multimap, fac: string, sev: string)
    requires multiset(es) == multiset(Graph(Stored(mm))) && Name(fac) && Name(sev)
    ensures AnyHeld(mm, Searches(fac, sev)) <==> exists i :: 0 <= i < |es| && Matches(es[i].key, fac, sev)
  {
    if i :| 0 <= i < |es| && Matches(es[i].key, fac, sev) {
      MatchesAreSearches(es[i].key, fac, sev);
      InGraph(es, Stored(mm), es[i].key);
      var j :| 0 <= j < 4 && Searches(fac, sev)[j] == es[i].key;
    }
    if j :| 0 <= j < 4 && Searches(fac, sev)[j] in mm {
      var key := Searches(fac, sev)[j];
      MatchesAreSearches(key, fac, sev);
      InGraph(es, Stored(mm), key);
    }
  }

  // ---- Forwarding ----

  function Styled(color: bool, severity: nat, tag: string, msg: string): string
    requires severity < 8
  {
    if color then
      "\U{0003}" + COLORS[severity] + "\U{0002}[\U{0002}\U{0003}" + tag +
      "\U{0003}" + COLORS[severity] + "\U{0002}]\U{0002}\U{0003} " + msg
    else "[" + tag + "] " + msg
  }

  // One PRIVMSG for each target, in order.
  function Messages(targets: seq<string>, data: string): string {
    if targets == [] then ""
    else Messages(targets[..|targets| - 1], data) + HookWire.Privmsg(targets[|targets| - 1], data)
  }

  // The messages a server should hear.
  function SaidTo(targets: seq<string>, data: string): seq<IrcText.Heard> {
    if targets == [] then [] else SaidTo(targets[..|targets| - 1], data) + [IrcText.Said(targets[|targets| - 1], data)]
  }

  predicate Fits(target: string, data: string) {
    IrcText.Word(target) && Framing.Plain(data)
  }

  predicate Deliverable(targets: seq<string>, data: string) {
    forall i :: 0 <= i < |targets| ==> Fits(targets[i], data)
  }

  lemma {:induction false} SaidToAt(targets: seq<string>, data: string)
    ensures |SaidTo(targets, data)| == |targets|
    ensures forall i :: 0 <= i < |targets| ==> SaidTo(targets, data)[i] == IrcText.Said(targets[i], data)
    decreases |targets|
  {
    if targets == [] {
    } else {
      SaidToAt(targets[..|targets| - 1], data);
    }
  }

  lemma {:induction false} MessagesFinished(targets: seq<string>, data: string)
    ensures IrcText.Finished(Messages(targets, data))
    decreases |targets|
  {
    if targets == [] {
    } else {
      MessagesFinished(targets[..|targets| - 1], data);
      IrcText.MessageFinished(targets[|targets| - 1], data);
      IrcText.FinishedConcat(Messages(targets[..|targets| - 1], data), HookWire.Privmsg(targets[|targets| - 1], data));
    }
  }

  // What is heard of one message more.
  lemma OneMore(targets: seq<string>, data: string, last: seq<IrcText.Heard>)
    requires targets != [] && last == IrcText.HeardIn(HookWire.Privmsg(targets[|targets| - 1], data))
    ensures IrcText.HeardIn(Messages(targets, data)) ==
            IrcText.HeardIn(Messages(targets[..|targets| - 1], data)) + last
    ensures last != [] &&
            (last == [IrcText.Said(targets[|targets| - 1], data)] <==> Fits(targets[|targets| - 1], data))
  {
    var t := targets[|targets| - 1];
    MessagesFinished(targets[..|targets| - 1], data);
    IrcText.MessageHeard(t, data);
    IrcText.MessageFinished(t, data);
    IrcText.HeardConcat(Messages(targets[..|targets| - 1], data), HookWire.Privmsg(t, data), last);
  }

  // The server hears the message said to every target, once and in order, if and
  // only if every target is one word and no line end is in what is said.
  lemma {:induction false} MessagesHeard(targets: seq<string>, data: string)
    ensures |IrcText.HeardIn(Messages(targets, data))| >= |targets|
    ensures IrcText.HeardIn(Messages(targets, data)) == SaidTo(targets, data) <==> Deliverable(targets, data)
    decreases |targets|
  {
    if targets == [] {
    } else {
      var front, t := targets[..|targets| - 1], targets[|targets| - 1];
      var last := IrcText.HeardIn(HookWire.Privmsg(t, data));
      MessagesHeard(front, data);
      OneMore(targets, data, last);
      SaidToAt(front, data);
      Lengths(IrcText.HeardIn(Messages(front, data)), last, SaidTo(front, data), IrcText.Said(t, data));
      DeliverableSnoc(targets, data);
    }
  }

  lemma Lengths(a: seq<IrcText.Heard>, last: seq<IrcText.Heard>, b: seq<IrcText.Heard>, said: IrcText.Heard)
    requires |a| >= |b| && last != []
    ensures a + last == b + [said] <==> a == b && last == [said]
  {
    if a + last == b + [said] {
      assert |a| + |last| == |b| + 1;
      assert a == (a + last)[..|a|] && b == (b + [said])[..|b|];
      assert last == (a + last)[|a|..] && [said] == (b + [said])[|b|..];
    }
  }

  lemma DeliverableSnoc(targets: seq<string>, data: string)
    requires targets != []
    ensures Deliverable(targets, data) <==>
            Deliverable(targets[..|targets| - 1], data) && Fits(targets[|targets| - 1], data)
  {
    var front := targets[..|targets| - 1];
    assert forall i :: 0 <= i < |front| ==> front[i] == targets[i];
    if Deliverable(front, data) && Fits(targets[|targets| - 1], data) {
      forall i | 0 <= i < |targets| ensures Fits(targets[i], data) {
        if i < |front| {
          assert front[i] == targets[i];
        }
      }
    }
  }

  datatype Transmission = Transmission(bot: string, kind: string, data: string)

  function Transmissions(targets: seq<string>, kind: string, data: string): seq<Transmission> {
    if targets == [] then []
    else Transmissions(targets[..|targets| - 1], kind, data) + [Transmission(targets[|targets| - 1], kind, data)]
  }

  lemma {:induction false} TransmissionsAt(targets: seq<string>, kind: string, data: string)
    ensures |Transmissions(targets, kind, data)| == |targets|
    ensures forall i :: 0 <= i < |targets| ==>
              Transmissions(targets, kind, data)[i].bot == targets[i] &&
              Transmissions(targets, kind, data)[i].kind == kind && Transmissions(targets, kind, data)[i].data == data
    decreases |targets|
  {
    if targets == [] {
    } else {
      TransmissionsAt(targets[..|targets| - 1], kind, data);
    }
  }

  // ---- What arrives where ----

  // The text is heard by exactly the targets a scan of the records would name,
  // each as often as it is named, and nothing else is said; provided that every
  // target is one word and no line end is in the text.
  ghost predicate Reaches(queued: string, es: seq<Entry>, fac: string, sev: string, text: string) {
    Deliverable(ScanTargets(es, fac, sev), text) ==>
      multiset(IrcText.Recipients(IrcText.HeardIn(queued))) == multiset(ScanTargets(es, fac, sev)) &&
      forall i :: 0 <= i < |IrcText.HeardIn(queued)| ==>
        IrcText.HeardIn(queued)[i].Said? && IrcText.HeardIn(queued)[i].text == text
  }

  function Bots(sent: seq<Transmission>): seq<string> {
    seq(|sent|, i requires 0 <= i < |sent| => sent[i].bot)
  }

  // The same for the bots, whatever their names.
  ghost predicate Transmits(sent: seq<Transmission>, es: seq<Entry>, fac: string, sev: string, text: string) {
    multiset(Bots(sent)) == multiset(ScanTargets(es, fac, sev)) &&
    forall i :: 0 <= i < |sent| ==> sent[i].kind == fac + "." + sev && sent[i].data == text
  }

  lemma {:induction false} RecipientsOfSaid(targets: seq<string>, data: string, heard: seq<IrcText.Heard>)
    requires |heard| == |targets| && forall i :: 0 <= i < |targets| ==> heard[i] == IrcText.Said(targets[i], data)
    ensures IrcText.Recipients(heard) == targets
    decreases |targets|
  {
    if targets == [] {
    } else {
      RecipientsOfSaid(targets[1..], data, heard[1..]);
      assert targets == [targets[0]] + targets[1..];
    }
  }

  lemma DeliverableByCount(a: seq<string>, b: seq<string>, data: string)
    requires multiset(a) == multiset(b) && Deliverable(a, data)
    ensures Deliverable(b, data)
  {
    forall i | 0 <= i < |b| ensures Fits(b[i], data) {
      assert b[i] in multiset(b);
      assert b[i] in a;
      var j :| 0 <= j < |a| && a[j] == b[i];
    }
  }

  lemma MessagesReach(t: Table, mm: Multimap, fac: string, sev: string, text: string, targets: seq<string>)
    requires Lists(t, mm) && Name(fac) && Name(sev) && targets == Targets(mm, Searches(fac, sev))
    ensures Reaches(Messages(targets, text), Entries(t.records), fac, sev, text)
  {
    LookupsAreAScan(t, mm, fac, sev);
    var scan := ScanTargets(Entries(t.records), fac, sev);
    if Deliverable(scan, text) {
      DeliverableByCount(scan, targets, text);
      MessagesHeard(targets, text);
      SaidToAt(targets, text);
      RecipientsOfSaid(targets, text, SaidTo(targets, text));
    }
  }

  lemma TransmissionsReach(t: Table, mm: Multimap, fac: string, sev: string, text: string, targets: seq<string>)
    requires Lists(t, mm) && Name(fac) && Name(sev) && targets == Targets(mm, Searches(fac, sev))
    ensures Transmits(Transmissions(targets, Pattern(fac, sev), text), Entries(t.records), fac, sev, text)
  {
    LookupsAreAScan(t, mm, fac, sev);
    TransmissionsAt(targets, Pattern(fac, sev), text);
    assert Bots(Transmissions(targets, Pattern(fac, sev), text)) == targets;
  }

  // sl_find_target_channels
  method FindTargetChannels(forward: Hash, facility: nat, severity: nat, tag: string, msg: string, color: bool,
                            ghost mm: Multimap)
    returns (ret: int, queued: string)
    requires facility < 24 && severity < 8
    requires LookupsStop(forward, Searches(FACILITIES[facility], SEVERITIES[severity])) && Lists(forward.Value(), mm)
    ensures ret == (if AnyHeld(mm, Searches(FACILITIES[facility], SEVERITIES[severity])) then 0 else -1)
    ensures queued == Messages(Targets(mm, Searches(FACILITIES[facility], SEVERITIES[severity])),
                               Styled(color, severity, tag, msg))
    ensures Reaches(queued, Entries(forward.records[..]), FACILITIES[facility], SEVERITIES[severity],
                    Styled(color, severity, tag, msg))
  {
    var data := Styled(color, severity, tag, msg);
    FacilityNames(facility);
    SeverityNames(severity);
    var found, targets := FindTargets(forward, FACILITIES[facility], SEVERITIES[severity], mm);
    MessagesReach(forward.Value(), mm, FACILITIES[facility], SEVERITIES[severity], data, targets);
    queued := SendAll(targets, data);
    ret := if found then 0 else -1;
  }

  method SendAll(targets: seq<string>, data: string) returns (queued: string)
    ensures queued == Messages(targets, data)
  {
    queued := "";
    for i := 0 to |targets|
      invariant queued == Messages(targets[..i], data)
    {
      assert targets[..i + 1][..i] == targets[..i];
      queued := queued + HookWire.Privmsg(targets[i], data);
    }
    assert targets[..|targets|] == targets;
  }

  // sl_find_target_bots
  method FindTargetBots(transmit: Hash, facility: nat, severity: nat, tag: string, msg: string, color: bool,
                        ghost mm: Multimap)
    returns (ret: int, sent: seq<Transmission>)
    requires facility < 24 && severity < 8
    requires LookupsStop(transmit, Searches(FACILITIES[facility], SEVERITIES[severity])) && Lists(transmit.Value(), mm)
    ensures ret == (if AnyHeld(mm, Searches(FACILITIES[facility], SEVERITIES[severity])) then 0 else -1)
    ensures sent == Transmissions(Targets(mm, Searches(FACILITIES[facility], SEVERITIES[severity])),
                                  Pattern(FACILITIES[facility], SEVERITIES[severity]),
                                  Styled(color, severity, tag, msg))
    ensures Transmits(sent, Entries(transmit.records[..]), FACILITIES[facility], SEVERITIES[severity],
                      Styled(color, severity, tag, msg))
  {
    var data := Styled(color, severity, tag, msg);
    FacilityNames(facility);
    SeverityNames(severity);
    var kind := Pattern(FACILITIES[facility], SEVERITIES[severity]);
    var found, targets := FindTargets(transmit, FACILITIES[facility], SEVERITIES[severity], mm);
    TransmissionsReach(transmit.Value(), mm, FACILITIES[facility], SEVERITIES[severity], data, targets);
    sent := TransmitAll(targets, kind, data);
    ret := if found then 0 else -1;
  }

  method TransmitAll(targets: seq<string>, kind: string, data: string) returns (sent: seq<Transmission>)
    ensures sent == Transmissions(targets, kind, data)
  {
    sent := [];
    for i := 0 to |targets|
      invariant sent == Transmissions(targets[..i], kind, data)
    {
      assert targets[..i + 1][..i] == targets[..i];
      sent := sent + [Transmission(targets[i], kind, data)];
    }
    assert targets[..|targets|] == targets;
  }

  // The tag that is shown: what stands before a bracket, or `base` when that is a
  // path.
  function Shown(tag: string, base: string): string {
    var name := Before(tag, "[");
    if name != "" && name[0] == '/' then base else name
  }

  // The clean-up of sl_forward: the tag is cut at its bracket; `base` is what
  // shortening a path makes of it.
  method CleanTag(tag: array<char>, base: string) returns (name: string)
    requires IsString(tag[..], 0)
    modifies tag
    ensures name == Shown(old(Str(tag[..], 0)), base)
  {
    var start, tmp := StrSep(tag, Some(0), "[");
    EmptyAt(tag[..], 0);
    name := Str(tag[..], 0);
    if tag[0] == '/' {
      name := base;
    }
  }

  // Both tables served, channels first.
  method Serve(forward: Hash, transmit: Hash, facility: nat, severity: nat, name: string, msg: string,
               color: bool, ghost channels: Multimap, ghost bots: Multimap)
    returns (queued: string, sent: seq<Transmission>, none: bool)
    requires facility < 24 && severity < 8 && Lists(forward.Value(), channels) && Lists(transmit.Value(), bots)
    requires LookupsStop(forward, Searches(FACILITIES[facility], SEVERITIES[severity]))
    requires LookupsStop(transmit, Searches(FACILITIES[facility], SEVERITIES[severity]))
    ensures var keys, text := Searches(FACILITIES[facility], SEVERITIES[severity]), Styled(color, severity, name, msg);
            queued == Messages(Targets(channels, keys), text) &&
            sent == Transmissions(Targets(bots, keys), Pattern(FACILITIES[facility], SEVERITIES[severity]), text) &&
            (none <==> !AnyHeld(channels, keys) && !AnyHeld(bots, keys))
    ensures var fac, sev, text := FACILITIES[facility], SEVERITIES[severity], Styled(color, severity, name, msg);
            Reaches(queued, Entries(forward.records[..]), fac, sev, text) &&
            Transmits(sent, Entries(transmit.records[..]), fac, sev, text)
  {
    var ret: int;
    ret, queued := FindTargetChannels(forward, facility, severity, name, msg, color, channels);
    var ret': int;
    ret', sent := FindTargetBots(transmit, facility, severity, name, msg, color, bots);
    none := ret + ret' == -2;
  }

  // sl_forward: PRI is facility * 8 + severity (section 4.1.1 of RFC 3164); a PRI
  // over 191 is refused.
  method Forward(forward: Hash, transmit: Hash, pri: nat, tag: array<char>, base: string, msg: string,
                 color: bool, silent: bool, ghost channels: Multimap, ghost bots: Multimap)
    returns (queued: string, sent: seq<Transmission>, complaint: bool)
    requires Lists(forward.Value(), channels) && Lists(transmit.Value(), bots) && IsString(tag[..], 0)
    requires tag as object != forward.records as object && tag as object != transmit.records as object
    requires pri <= 191 ==>
      LookupsStop(forward, Searches(FACILITIES[pri / 8], SEVERITIES[pri % 8])) &&
      LookupsStop(transmit, Searches(FACILITIES[pri / 8], SEVERITIES[pri % 8]))
    modifies tag
    ensures pri > 191 ==> queued == "" && sent == [] && complaint
    ensures pri <= 191 ==>
      var keys := Searches(FACILITIES[pri / 8], SEVERITIES[pri % 8]);
      var text := Styled(color, pri % 8, Shown(old(Str(tag[..], 0)), base), msg);
      queued == Messages(Targets(channels, keys), text) &&
      sent == Transmissions(Targets(bots, keys), Pattern(FACILITIES[pri / 8], SEVERITIES[pri % 8]), text) &&
      (complaint <==> !AnyHeld(channels, keys) && !AnyHeld(bots, keys) && !silent)
    ensures pri <= 191 ==>
      var fac, sev := FACILITIES[pri / 8], SEVERITIES[pri % 8];
      var text := Styled(color, pri % 8, Shown(old(Str(tag[..], 0)), base), msg);
      Reaches(queued, Entries(forward.records[..]), fac, sev, text) &&
      Transmits(sent, Entries(transmit.records[..]), fac, sev, text)
  {
    var severity, facility := pri % 8, pri / 8;
    if severity > 7 || facility > 23 {
      return "", [], true;
    }
    var name := CleanTag(tag, base);
    var none;
    queued, sent, none := Serve(forward, transmit, facility, severity, name, msg, color, channels, bots);
    complaint := none && !silent;
  }

  // Over every PRI: the message goes to exactly the channels a scan of the
  // whole table would name, and is dropped exactly when no key matches.
  lemma RoutingIsAScan(pri: nat, t: Table, mm: Multimap)
    requires pri <= 191 && Lists(t, mm)
    ensures var fac, sev := FACILITIES[pri / 8], SEVERITIES[pri % 8];
            multiset(Targets(mm, Searches(fac, sev))) == multiset(ScanTargets(Entries(t.records), fac, sev)) &&
            (AnyHeld(mm, Searches(fac, sev)) <==>
             exists i :: 0 <= i < |Entries(t.records)| && Matches(Entries(t.records)[i].key, fac, sev))
  {
    FacilityNames(pri / 8);
    SeverityNames(pri % 8);
    LookupsAreAScan(t, mm, FACILITIES[pri / 8], SEVERITIES[pri % 8]);
  }
}
