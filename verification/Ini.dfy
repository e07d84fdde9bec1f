// conf_ini.c, reading side: parameters go into the tables of their sections, line
// by line over a whole file.
module Ini {
  import opened Options
  import opened CString
  import opened TableSpec
  import opened TableRuns
  import opened TextLaws
  import opened IniParser
  import opened HashTable
  import TextTable

  // ---- Inserting a parameter ----

  function Inserts(key: string, values: seq<string>): seq<TextOp> {
    if values == [] then [] else [Insert(key, values[0])] + Inserts(key, values[1..])
  }

  // conf_ini_check_parameter: parse the line and insert its values in order.
  method CheckParameter(buf: array<char>, mem: Hash)
    requires IsString(buf[..], 0) && mem.Valid() && buf as object != mem.records as object
    requires var r := ParseParameter(Str(buf[..], 0));
             r.Some? ==> TextRunStops(mem.Value(), Inserts(r.value.0, r.value.1))
    modifies buf, mem, mem.records
    ensures mem.Valid() && (mem.records == old(mem.records) || fresh(mem.records))
    ensures var r := ParseParameter(old(Str(buf[..], 0)));
            if r.None? then mem.Value() == old(mem.Value())
            else old(Ok(mem.Value())) && TextRunStops(old(mem.Value()), Inserts(r.value.0, r.value.1)) &&
                 mem.Value() == TextRun(old(mem.Value()), Inserts(r.value.0, r.value.1))
  {
    var r := Parse(buf);
    if r.Some? {
      InsertValues(mem, r.value.0, r.value.1);
    }
  }

  // Its last loop: one hash_text_insert for each value.
  method InsertValues(mem: Hash, key: string, data: seq<string>)
    requires mem.Valid() && TextRunStops(mem.Value(), Inserts(key, data))
    modifies mem, mem.records
    ensures mem.Valid() && (mem.records == old(mem.records) || fresh(mem.records))
    ensures mem.Value() == TextRun(old(mem.Value()), Inserts(key, data))
  {
    ghost var last := TextRun(mem.Value(), Inserts(key, data));
    assert data[0..] == data;
    var i := 0;
    while i < |data|
      invariant 0 <= i <= |data|
      invariant mem.records == old(mem.records) || fresh(mem.records)
      invariant Pending(mem.Value(), key, data, i, last)
    {
      InsertOne(mem, key, data, i, last);
      i := i + 1;
    }
  }

  method InsertOne(mem: Hash, key: string, data: seq<string>, i: nat, ghost last: Table)
    requires i < |data| && Pending(mem.Value(), key, data, i, last)
    modifies mem, mem.records
    ensures mem.records == old(mem.records) || fresh(mem.records)
    ensures Pending(mem.Value(), key, data, i + 1, last)
  {
    InsertRun(mem.Value(), key, data, i, last);
    var ret := TextTable.Insert(mem, key, data[i]);
  }

  // The inserts from the i-th value on lead to the table `last`.
  ghost predicate Pending(t: Table, key: string, data: seq<string>, i: nat, last: Table)
    requires i <= |data|
  {
    Ok(t) && TextRunStops(t, Inserts(key, data[i..])) && TextRun(t, Inserts(key, data[i..])) == last
  }

  lemma NextInsert(key: string, data: seq<string>, i: nat)
    requires i < |data|
    ensures Inserts(key, data[i..]) != [] && Inserts(key, data[i..])[0] == Insert(key, data[i])
    ensures Inserts(key, data[i..])[1..] == Inserts(key, data[i + 1..])
  {
    assert data[i..][1..] == data[i + 1..];
  }

  lemma InsertRun(t: Table, key: string, data: seq<string>, i: nat, last: Table)
    requires i < |data| && Pending(t, key, data, i, last)
    ensures TextTable.InsertStops(t, key)
    ensures Pending(TextTable.Inserted(t, key, data[i]).0, key, data, i + 1, last)
  {
    NextInsert(key, data, i);
  }

  // The same on the multimap the table stands for.
  function InsertAll(mm: Multimap, key: string, values: seq<string>): Multimap {
    MultiRun(mm, Inserts(key, values))
  }

  lemma {:induction false} InsertAllAppends(mm: Multimap, key: string, values: seq<string>)
    requires key != "" && values != []
    ensures InsertAll(mm, key, values) == mm[key := ListOf(mm, key) + values]
    decreases |values|
  {
    var mm1 := mm[key := ListOf(mm, key) + [values[0]]];
    assert values[0..] == values;
    NextInsert(key, values, 0);
    assert InsertAll(mm, key, values) == InsertAll(mm1, key, values[1..]);
    if |values| > 1 {
      InsertAllAppends(mm1, key, values[1..]);
      assert ListOf(mm, key) + [values[0]] + values[1..] == ListOf(mm, key) + values;
    } else {
      assert values == [values[0]];
    }
  }

  lemma {:induction false} InsertsAreInserts(mm: Multimap, key: string, values: seq<string>)
    ensures OnlyInserts(Inserts(key, values)) && DeletesPresent(mm, Inserts(key, values))
    decreases |values|
  {
    if values == [] {
    } else {
      InsertsAreInserts(MultiStep(mm, Insert(key, values[0])), key, values[1..]);
      assert Inserts(key, values)[1..] == Inserts(key, values[1..]);
    }
  }

  lemma {:induction false} OneNewKey(mm: Multimap, key: string, values: seq<string>)
    ensures NewKeys(mm, Inserts(key, values)) <= if key != "" && key !in mm then 1 else 0
    decreases |values|
  {
    if values == [] {
    } else {
      var mm1 := MultiStep(mm, Insert(key, values[0]));
      OneNewKey(mm1, key, values[1..]);
      assert Inserts(key, values)[1..] == Inserts(key, values[1..]);
    }
  }

  // A line needs room for one key, and every insert of it ends.
  lemma ParameterEnds(t: Table, mm: Multimap, key: string, values: seq<string>, more: nat)
    requires Ok(t) && Lists(t, mm) && TextSlotLeft(t, more + 1, false)
    ensures Succeeds(t, mm, Inserts(key, values), more, false)
  {
    InsertsAreInserts(mm, key, values);
    OneNewKey(mm, key, values);
    TextRunEnds(t, mm, Inserts(key, values), more, false);
  }

  // ---- Sections ----

  // SEC_NONE to SEC_TRANSMIT, as in the source.
  const SECTIONS: seq<string> := ["", "global", "cmd", "hooks", "forward", "transmit"]

  function SectionId(name: string): (id: nat)
    ensures id < 6 && (id > 0 ==> name == SECTIONS[id])
    ensures id == 0 ==> forall i :: 1 <= i < 6 ==> name != SECTIONS[i]
  {
    if name == "global" then 1 else if name == "cmd" then 2 else if name == "hooks" then 3
    else if name == "forward" then 4 else if name == "transmit" then 5 else 0
  }

  function SectionOf(line: string): nat
    requires line != ""
  {
    SectionId(Before(line[1..], "]"))
  }

  // conf_ini_check_section
  method CheckSection(buf: array<char>) returns (id: nat)
    requires IsString(buf[..], 0) && Str(buf[..], 0) != ""
    modifies buf
    ensures id == SectionOf(old(Str(buf[..], 0)))
  {
    ghost var line := Str(buf[..], 0);
    ghost var end := EndOf(buf[..], 0);
    StrUnique(buf[..], 1, end - 1);
    assert Str(buf[..], 1) == line[1..];
    var start, rest := StrSep(buf, Some(1), "]");
    id := FindSection(Str(buf[..], 1));
  }

  method FindSection(name: string) returns (id: nat)
    ensures id == SectionId(name)
  {
    id := 1;
    while id < 6
      invariant 1 <= id <= 6 && forall i :: 1 <= i < id ==> name != SECTIONS[i]
    {
      if name == SECTIONS[id] {
        return;
      }
      id := id + 1;
    }
    id := 0;
  }

  // ---- Reading a file ----

  function EndOfLine(content: string): (n: nat)
    ensures n <= |content| && (content != "" ==> n > 0)
  {
    if content == "" then 0 else if content[0] == '\n' then 1 else 1 + EndOfLine(content[1..])
  }

  // How many characters fgets takes.
  function Fgets(content: string): (n: nat)
    ensures n <= |content| && (content != "" ==> n > 0)
  {
    if EndOfLine(content) < BUFF_SIZE then EndOfLine(content) else BUFF_SIZE - 1
  }

  // It stops behind a line end, at the end of the file, or after 4095 characters.
  lemma FgetsStops(content: string)
    ensures var n := Fgets(content);
            n <= 4095 && (forall k :: 0 <= k < n - 1 ==> content[k] != '\n') &&
            (n == 4095 || n == |content| || content[n - 1] == '\n')
  {
    LineEnds(content);
  }

  lemma {:induction false} LineEnds(content: string)
    ensures forall k :: 0 <= k < EndOfLine(content) - 1 ==> content[k] != '\n'
    ensures EndOfLine(content) == |content| || content[EndOfLine(content) - 1] == '\n'
    decreases |content|
  {
    if content == "" || content[0] == '\n' {
    } else {
      LineEnds(content[1..]);
      assert forall k :: 0 < k < |content| ==> content[k] == content[1..][k - 1];
    }
  }

  // What a C program sees of the characters read.
  function Text(chunk: string): string {
    Str(chunk + [NUL], 0)
  }

  // One map of lists for each section id; the one at 0 stays empty.
  type Sections = seq<Multimap>

  function LineStep(section: nat, conf: Sections, line: string): (nat, Sections)
    requires section < 6 && |conf| == 6
    ensures LineStep(section, conf, line).0 < 6 && |LineStep(section, conf, line).1| == 6
  {
    if line == "" || line[0] in "#\r\n;" then (section, conf)
    else if line[0] == '[' then (SectionOf(line), conf)
    else if section == 0 then (section, conf)
    else match ParseParameter(line)
      case None => (section, conf)
      case Some((key, values)) => (section, conf[section := InsertAll(conf[section], key, values)])
  }

  function ReadAll(content: string, section: nat, conf: Sections): (read: Sections)
    requires section < 6 && |conf| == 6
    ensures |read| == 6
    decreases |content|
  {
    if content == "" then conf
    else
      var (section', conf') := LineStep(section, conf, Text(content[..Fgets(content)]));
      ReadAll(content[Fgets(content)..], section', conf')
  }

  // ---- The tables of a configuration ----

  // conf_t: the tables of the five sections, in the order of their ids.
  class Conf {
    const tables: seq<Hash>

    constructor (tables: seq<Hash>)
      ensures this.tables == tables
    {
      this.tables := tables;
    }

    ghost predicate Separate()
      reads tables
    {
      |tables| == 5 &&
      (forall i, j :: 0 <= i < j < 5 ==> tables[i] != tables[j] && tables[i].records != tables[j].records)
    }

    ghost function Values(): (ts: seq<Table>)
      requires |tables| == 5
      reads tables, set i | 0 <= i < |tables| :: tables[i].records
      ensures |ts| == 5
    {
      [tables[0].Value(), tables[1].Value(), tables[2].Value(), tables[3].Value(), tables[4].Value()]
    }

    ghost predicate Keeps(conf: Sections, more: nat)
      reads tables, set i | 0 <= i < |tables| :: tables[i].records
    {
      Separate() && |conf| == 6 && AllHold(Values(), conf, more)
    }
  }

  // A table in order that lists mm and has room for `more` keys.
  ghost predicate Holding(t: Table, mm: Multimap, more: nat) {
    Ok(t) && Lists(t, mm) && TextSlotLeft(t, more, false)
  }

  ghost predicate AllHold(ts: seq<Table>, conf: Sections, more: nat)
    requires |ts| == 5 && |conf| == 6
  {
    forall i :: 0 <= i < 5 ==> Holding(ts[i], conf[i + 1], more)
  }

  lemma LessRoom(ts: seq<Table>, conf: Sections, more: nat, less: nat)
    requires |ts| == 5 && |conf| == 6 && AllHold(ts, conf, more) && less <= more
    ensures AllHold(ts, conf, less)
  {
  }

  lemma OneChanged(ts: seq<Table>, conf: Sections, more: nat, k: nat, t: Table, mm: Multimap)
    requires |ts| == 5 && |conf| == 6 && k < 5 && AllHold(ts, conf, more) && Holding(t, mm, more)
    ensures AllHold(ts[k := t], conf[k + 1 := mm], more)
  {
  }

  // One line of a section into its table.
  method AddLine(buf: array<char>, mem: Hash, ghost mm: Multimap, ghost more: nat)
    requires IsString(buf[..], 0) && Holding(mem.Value(), mm, more + 1) && buf as object != mem.records as object
    modifies buf, mem, mem.records
    ensures mem.records == old(mem.records) || fresh(mem.records)
    ensures var r := ParseParameter(old(Str(buf[..], 0)));
            Holding(mem.Value(), if r.None? then mm else InsertAll(mm, r.value.0, r.value.1), more)
  {
    ghost var r := ParseParameter(Str(buf[..], 0));
    if r.Some? {
      ParameterEnds(mem.Value(), mm, r.value.0, r.value.1, more);
    }
    CheckParameter(buf, mem);
  }

  lemma TextIsString(chunk: string, buf: seq<char>)
    requires |buf| == |chunk| + 1 && buf[|chunk|] == NUL && forall k :: 0 <= k < |chunk| ==> buf[k] == chunk[k]
    ensures IsString(buf, 0) && Str(buf, 0) == Text(chunk)
    ensures buf[0] == if Text(chunk) == "" then NUL else Text(chunk)[0]
  {
    assert buf == chunk + [NUL];
  }

  // One round of conf_ini_read: a comment, a header or a parameter.
  method TakeLine(chunk: string, section: nat, conf: Conf, ghost was: Sections, ghost more: nat) returns (section': nat)
    requires section < 6 && conf.Keeps(was, more + 1)
    modifies conf.tables, set i | 0 <= i < |conf.tables| :: conf.tables[i].records
    ensures section' == LineStep(section, was, Text(chunk)).0
    ensures conf.Keeps(LineStep(section, was, Text(chunk)).1, more)
    ensures forall i :: 0 <= i < 5 ==>
              conf.tables[i].records == old(conf.tables[i].records) || fresh(conf.tables[i].records)
  {
    var tmp := new char[|chunk| + 1](i => if 0 <= i < |chunk| then chunk[i] else NUL);
    TextIsString(chunk, tmp[..]);
    LessRoom(conf.Values(), was, more + 1, more);
    section' := section;
    if tmp[0] in "#\r\n;" || tmp[0] == NUL {
    } else if tmp[0] == '[' {
      section' := CheckSection(tmp);
    } else if section != 0 {
      AddToSection(tmp, section, conf, was, more);
    }
  }

  // The switch over the section's id.
  method AddToSection(buf: array<char>, section: nat, conf: Conf, ghost was: Sections, ghost more: nat)
    requires 0 < section < 6 && conf.Keeps(was, more + 1) && IsString(buf[..], 0)
    requires forall i :: 0 <= i < 5 ==> buf as object != conf.tables[i].records as object
    modifies buf, conf.tables, set i | 0 <= i < |conf.tables| :: conf.tables[i].records
    ensures var r := ParseParameter(old(Str(buf[..], 0)));
            conf.Keeps(if r.None? then was else was[section := InsertAll(was[section], r.value.0, r.value.1)], more)
    ensures forall i :: 0 <= i < 5 ==>
              conf.tables[i].records == old(conf.tables[i].records) || fresh(conf.tables[i].records)
  {
    var k := section - 1;
    ghost var ts, r := conf.Values(), ParseParameter(Str(buf[..], 0));
    ghost var mm := if r.None? then was[section] else InsertAll(was[section], r.value.0, r.value.1);
    LessRoom(ts, was, more + 1, more);
    AddToTable(buf, conf, k, was[section], more);
    OneChanged(ts, was, more, k, conf.Values()[k], mm);
    LineAdded(was, section, r);
  }

  lemma LineAdded(was: Sections, section: nat, r: Option<(string, seq<string>)>)
    requires section < |was|
    ensures was[section := if r.None? then was[section] else InsertAll(was[section], r.value.0, r.value.1)] ==
            if r.None? then was else was[section := InsertAll(was[section], r.value.0, r.value.1)]
  {
  }

  method AddToTable(buf: array<char>, conf: Conf, k: nat, ghost mm: Multimap, ghost more: nat)
    requires conf.Separate() && k < 5 && Holding(conf.Values()[k], mm, more + 1) && IsString(buf[..], 0)
    requires forall i :: 0 <= i < 5 ==> buf as object != conf.tables[i].records as object
    modifies buf, conf.tables, set i | 0 <= i < |conf.tables| :: conf.tables[i].records
    ensures conf.Separate() && conf.Values() == old(conf.Values())[k := conf.Values()[k]]
    ensures var r := ParseParameter(old(Str(buf[..], 0)));
            Holding(conf.Values()[k], if r.None? then mm else InsertAll(mm, r.value.0, r.value.1), more)
    ensures forall i :: 0 <= i < 5 ==>
              conf.tables[i].records == old(conf.tables[i].records) || fresh(conf.tables[i].records)
  {
    ghost var ts := conf.Values();
    ValuesAt(conf);
    AddAlone(buf, conf, k, mm, more);
    ValuesAt(conf);
    OthersKept(ts, conf.Values(), k);
  }

  lemma OthersKept(was: seq<Table>, now: seq<Table>, k: nat)
    requires |was| == |now| && k < |was| && forall i :: 0 <= i < |was| && i != k ==> now[i] == was[i]
    ensures now == was[k := now[k]]
  {
    assert forall i :: 0 <= i < |was| ==> now[i] == was[k := now[k]][i];
  }

  lemma ValuesAt(conf: Conf)
    requires |conf.tables| == 5
    ensures forall i :: 0 <= i < 5 ==> conf.Values()[i] == conf.tables[i].Value()
  {
  }

  // No table shares its slots with another: the others stay as they are.
  method AddAlone(buf: array<char>, conf: Conf, k: nat, ghost mm: Multimap, ghost more: nat)
    requires conf.Separate() && k < 5 && Holding(conf.tables[k].Value(), mm, more + 1) && IsString(buf[..], 0)
    requires forall i :: 0 <= i < 5 ==> buf as object != conf.tables[i].records as object
    modifies buf, conf.tables, set i | 0 <= i < |conf.tables| :: conf.tables[i].records
    ensures conf.Separate()
    ensures forall i :: 0 <= i < 5 && i != k ==> conf.tables[i].Value() == old(conf.tables[i].Value())
    ensures var r := ParseParameter(old(Str(buf[..], 0)));
            Holding(conf.tables[k].Value(), if r.None? then mm else InsertAll(mm, r.value.0, r.value.1), more)
    ensures forall i :: 0 <= i < 5 ==>
              conf.tables[i].records == old(conf.tables[i].records) || fresh(conf.tables[i].records)
  {
    var mem := conf.tables[k];
    AddLine(buf, mem, mm, more);
    assert forall i :: 0 <= i < 5 && i != k ==> conf.tables[i].records == old(conf.tables[i].records) != mem.records;
  }

  // conf_ini_read: what the tables list afterwards is what reading the file line
  // by line adds to what they listed before.
  method ReadIni(content: string, conf: Conf, ghost was: Sections)
    requires conf.Keeps(was, |content|)
    modifies conf.tables, set i | 0 <= i < |conf.tables| :: conf.tables[i].records
    ensures conf.Keeps(ReadAll(content, 0, was), 0)
  {
    ghost var now := was;
    var section: nat, rest := 0, content;
    while rest != ""
      invariant section < 6 && |rest| <= |content| && conf.Keeps(now, |rest|)
      invariant ReadAll(rest, section, now) == ReadAll(content, 0, was)
      invariant forall i :: 0 <= i < 5 ==>
                  conf.tables[i].records == old(conf.tables[i].records) || fresh(conf.tables[i].records)
      decreases |rest|
    {
      var n := Fgets(rest);
      ghost var step := LineStep(section, now, Text(rest[..n]));
      LessRoom(conf.Values(), now, |rest|, |rest| - n + 1);
      section := TakeLine(rest[..n], section, conf, now, |rest| - n);
      now := step.1;
      rest := rest[n..];
    }
  }

  const NOTHING: Sections := [map[], map[], map[], map[], map[], map[]]

  // The most keys a new table is sure to take.
  const MOST: nat := 0x1FFF_FFFF

  method NewSection(capacity: nat) returns (mem: Hash)
    requires capacity <= 16
    ensures fresh(mem) && fresh(mem.records) && Holding(mem.Value(), map[], MOST)
  {
    mem := new Hash(capacity);
    FreshLists(mem.sizeIndex);
    FreshTable(mem.sizeIndex);
    SmallCapacity(capacity, mem.sizeIndex);
  }

  // The later sections of a configuration.
  method NewSubsections() returns (cmd: Hash, hooks: Hash, forw: Hash, transmit: Hash)
    ensures fresh(cmd) && fresh(hooks) && fresh(forw) && fresh(transmit)
    ensures fresh(cmd.records) && fresh(hooks.records) && fresh(forw.records) && fresh(transmit.records)
    ensures cmd != hooks && cmd != forw && cmd != transmit && hooks != forw && hooks != transmit && forw != transmit
    ensures cmd.records != hooks.records && cmd.records != forw.records && cmd.records != transmit.records
    ensures hooks.records != forw.records && hooks.records != transmit.records && forw.records != transmit.records
    ensures Holding(cmd.Value(), map[], MOST) && Holding(hooks.Value(), map[], MOST)
    ensures Holding(forw.Value(), map[], MOST) && Holding(transmit.Value(), map[], MOST)
  {
    cmd := NewSection(4);
    hooks := NewSection(4);
    forw := NewSection(4);
    transmit := NewSection(4);
  }

  // conf_init
  method InitConf() returns (conf: Conf)
    ensures fresh(conf) && conf.Keeps(NOTHING, MOST)
    ensures forall i :: 0 <= i < 5 ==> fresh(conf.tables[i]) && fresh(conf.tables[i].records)
  {
    var global := NewSection(16);
    var cmd, hooks, forw, transmit := NewSubsections();
    conf := ConfOf(global, cmd, hooks, forw, transmit);
  }

  method ConfOf(a: Hash, b: Hash, c: Hash, d: Hash, e: Hash) returns (conf: Conf)
    requires a != b && a != c && a != d && a != e && b != c && b != d && b != e && c != d && c != e && d != e
    requires a.records != b.records && a.records != c.records && a.records != d.records && a.records != e.records
    requires b.records != c.records && b.records != d.records && b.records != e.records
    requires c.records != d.records && c.records != e.records && d.records != e.records
    requires Holding(a.Value(), map[], MOST) && Holding(b.Value(), map[], MOST) && Holding(c.Value(), map[], MOST)
    requires Holding(d.Value(), map[], MOST) && Holding(e.Value(), map[], MOST)
    ensures fresh(conf) && conf.tables == [a, b, c, d, e] && conf.Keeps(NOTHING, MOST)
  {
    conf := new Conf([a, b, c, d, e]);
    EmptyTables(conf.Values());
  }

  lemma EmptyTables(ts: seq<Table>)
    requires |ts| == 5 && forall i :: 0 <= i < 5 ==> Holding(ts[i], map[], MOST)
    ensures AllHold(ts, NOTHING, MOST)
  {
    assert forall i :: 0 <= i < 6 ==> NOTHING[i] == map[];
  }

  lemma SmallCapacity(capacity: nat, index: nat)
    requires capacity <= 16 && SizeChosen(capacity, index)
    ensures index == 0
  {
    assert SIZES[0] == 53 && SIZES[|SIZES| - 1] > 24;
  }
}
