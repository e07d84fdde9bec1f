// A configuration that is saved and read into new tables: conf_ini_save,
// conf_init and conf_ini_read one after the other.
module IniFiles {
  import opened TableSpec
  import opened TableLaws
  import opened TextLaws
  import opened HashTable
  import opened Ini
  import opened IniPrinter
  import opened IniRoundTrip

  lemma ListedValues(t: Table, mm: Multimap)
    requires Lists(t, mm)
    ensures forall e :: e in Entries(t.records) ==> e.value.Some?
  {
    forall e | e in Entries(t.records) ensures e.value.Some? {
      assert e in multiset(Entries(t.records));
      assert e in Graph(Stored(mm));
    }
  }

  // Two maps of lists that one table stands for are the same.
  lemma ListsUnique(t: Table, mm: Multimap, mm': Multimap)
    requires Lists(t, mm) && Lists(t, mm')
    ensures mm == mm'
  {
    var es := Entries(t.records);
    EntriesDistinct(es, Stored(mm));
    MapOfEntries(es, mm);
    MapOfEntries(es, mm');
  }

  lemma SectionReads(t: Table, mm: Multimap)
    requires Lists(t, mm) && GoodSection(Entries(t.records))
    ensures ReadAll("[global]\n" + SectionText(Entries(t.records)), 0, NOTHING) == NOTHING[1 := mm]
    ensures |"[global]\n" + SectionText(Entries(t.records))| == 9 + |SectionText(Entries(t.records))|
  {
    assert "[" + "global" + "]\n" == "[global]\n";
    HeaderLine("global", 1, SectionText(Entries(t.records)), 0, NOTHING);
    TableSectionReadsBack(t, mm, 1, NOTHING);
  }

  // One section printed from its table, read line by line into a new one: the new
  // table lists what the old one did.
  method SectionBack(mem: Hash, ghost mm: Multimap) returns (copy: Hash)
    requires mem.Valid() && Lists(mem.Value(), mm) && GoodSection(Entries(mem.records[..]))
    requires |SectionText(Entries(mem.records[..]))| + 9 <= MOST
    ensures fresh(copy) && copy.Valid() && Lists(copy.Value(), mm)
  {
    ListedValues(mem.Value(), mm);
    SectionReads(mem.Value(), mm);
    var rc, text := SaveSection(mem);
    var conf := ReadNew("[global]\n" + text);
    FirstHolds(conf, NOTHING[1 := mm]);
    copy := conf.tables[0];
  }

  // conf_init and conf_ini_read
  method ReadNew(content: string) returns (conf: Conf)
    requires |content| <= MOST
    ensures fresh(conf) && conf.Keeps(ReadAll(content, 0, NOTHING), 0)
    ensures forall i :: 0 <= i < 5 ==> fresh(conf.tables[i])
  {
    conf := InitConf();
    LessRoom(conf.Values(), NOTHING, MOST, |content|);
    ReadIni(content, conf, NOTHING);
  }

  lemma FirstHolds(conf: Conf, was: Sections)
    requires conf.Keeps(was, 0)
    ensures conf.tables[0].Valid() && Lists(conf.tables[0].Value(), was[1])
  {
    assert Holding(conf.Values()[0], was[1], 0);
  }

  // ---- Whole files ----

  // The records of the i-th section, in slot order.
  ghost function Printed(conf: Conf, i: nat): seq<Entry>
    requires |conf.tables| == 5 && i < 5
    reads conf.tables, set j | 0 <= j < |conf.tables| :: conf.tables[j].records
  {
    Entries(conf.Values()[i].records)
  }

  // conf_ini_save
  method Save(conf: Conf, ghost was: Sections) returns (out: string)
    requires conf.Keeps(was, 0)
    ensures out == FileText(Printed(conf, 0), Printed(conf, 1), Printed(conf, 2), Printed(conf, 3), Printed(conf, 4))
  {
    var text := SaveOne(conf, 0, was);
    out := "[global]\n" + text + "\n";
    text := SaveOne(conf, 1, was);
    out := out + ("[cmd]\n" + text + "\n");
    text := SaveOne(conf, 2, was);
    out := out + ("[hooks]\n"[..6] + text + "\n");
    text := SaveOne(conf, 3, was);
    out := out + ("[forward]\n" + text + "\n");
    text := SaveOne(conf, 4, was);
    out := out + ("[transmit]\n"[..9] + text + "\n");
    FiveSections(Printed(conf, 0), Printed(conf, 1), Printed(conf, 2), Printed(conf, 3), Printed(conf, 4));
  }

  method SaveOne(conf: Conf, i: nat, ghost was: Sections) returns (text: string)
    requires i < 5 && conf.Keeps(was, 0)
    ensures text == SectionText(Printed(conf, i))
  {
    assert Holding(conf.Values()[i], was[i + 1], 0);
    ValuesAt(conf);
    ListedValues(conf.Values()[i], was[i + 1]);
    var rc: int;
    rc, text := SaveSection(conf.tables[i]);
  }

  lemma FiveSections(g: seq<Entry>, c: seq<Entry>, h: seq<Entry>, f: seq<Entry>, t: seq<Entry>)
    ensures "[global]\n" + SectionText(g) + "\n" + ("[cmd]\n" + SectionText(c) + "\n") +
            ("[hooks]\n"[..6] + SectionText(h) + "\n") + ("[forward]\n" + SectionText(f) + "\n") +
            ("[transmit]\n"[..9] + SectionText(t) + "\n") == FileText(g, c, h, f, t)
  {
    Nested("[global]\n" + SectionText(g) + "\n", "[cmd]\n" + SectionText(c) + "\n",
           "[hooks]\n"[..6] + SectionText(h) + "\n", "[forward]\n" + SectionText(f) + "\n", TransmitText(t));
  }

  lemma Nested(a: string, b: string, c: string, d: string, e: string)
    ensures a + b + c + d + e == a + (b + (c + (d + e)))
  {
  }

  lemma HoldsBoth(ts: seq<Table>, was: Sections, now: Sections)
    requires |ts| == 5 && |was| == |now| == 6 && was[0] == now[0] && AllHold(ts, now, 0)
    ensures AllHold(ts, was, 0) <==> was == now
  {
    if AllHold(ts, was, 0) {
      forall i | 0 <= i < 6 ensures was[i] == now[i] {
        if i > 0 {
          assert Holding(ts[i - 1], was[i - 1 + 1], 0) && Holding(ts[i - 1], now[i - 1 + 1], 0);
          ListsUnique(ts[i - 1], was[i], now[i]);
        }
      }
    }
  }

  lemma PrintedLists(t: Table, mm: Multimap)
    requires Lists(t, mm)
    ensures DistinctKeys(Entries(t.records)) && MapOf(Entries(t.records)) == mm
  {
    EntriesDistinct(Entries(t.records), Stored(mm));
    MapOfEntries(Entries(t.records), mm);
  }

  // No line goes to the section that is none.
  lemma {:induction false} NoneStaysEmpty(content: string, section: nat, conf: Sections)
    requires section < 6 && |conf| == 6
    ensures ReadAll(content, section, conf)[0] == conf[0]
    decreases |content|
  {
    if content == "" {
    } else {
      var (section', conf') := LineStep(section, conf, Text(content[..Fgets(content)]));
      NoneStaysEmpty(content[Fgets(content)..], section', conf');
    }
  }

  lemma SixSections(was: Sections)
    requires |was| == 6
    ensures was == [was[0], was[1], was[2], was[3], was[4], was[5]]
  {
  }

  predicate AllGood(g: seq<Entry>, c: seq<Entry>, h: seq<Entry>, f: seq<Entry>, t: seq<Entry>) {
    Printable(g) && Printable(c) && Printable(h) && Printable(f) && Printable(t)
  }

  predicate AreMaps(was: Sections, g: seq<Entry>, c: seq<Entry>, h: seq<Entry>, f: seq<Entry>, t: seq<Entry>) {
    |was| == 6 && was[0] == map[] && was[1] == MapOf(g) && was[2] == MapOf(c) && was[3] == MapOf(h) &&
    was[4] == MapOf(f) && was[5] == MapOf(t)
  }

  // What the saved text of a configuration reads back as, and when that is the
  // configuration itself.
  lemma SavedReads(g: seq<Entry>, c: seq<Entry>, h: seq<Entry>, f: seq<Entry>, t: seq<Entry>, was: Sections)
    requires AllGood(g, c, h, f, t) && AreMaps(was, g, c, h, f, t)
    ensures var now := ReadAll(FileText(g, c, h, f, t), 0, NOTHING);
            now[0] == map[] && (now == was <==> was[3] == map[] && was[5] == map[])
  {
    FileRoundTrip(g, c, h, f, t);
    NoneStaysEmpty(FileText(g, c, h, f, t), 0, NOTHING);
    SixSections(was);
    EmptyMapEmptyList(h);
    EmptyMapEmptyList(t);
  }

  lemma EmptyMapEmptyList(es: seq<Entry>)
    ensures MapOf(es) == map[] <==> es == []
  {
    if es == [] {
    } else {
      assert es[|es| - 1].key in MapOf(es);
    }
  }

  lemma TableMap(t: Table, mm: Multimap)
    requires Holding(t, mm, 0)
    ensures mm == MapOf(Entries(t.records))
  {
    PrintedLists(t, mm);
  }

  lemma TableMaps(a: Table, b: Table, c: Table, d: Table, e: Table, was: Sections)
    requires |was| == 6 && was[0] == map[] && Holding(a, was[1], 0) && Holding(b, was[2], 0) && Holding(c, was[3], 0)
    requires Holding(d, was[4], 0) && Holding(e, was[5], 0)
    ensures AreMaps(was, Entries(a.records), Entries(b.records), Entries(c.records),
                    Entries(d.records), Entries(e.records))
  {
    TableMap(a, was[1]);
    TableMap(b, was[2]);
    TableMap(c, was[3]);
    TableMap(d, was[4]);
    TableMap(e, was[5]);
  }

  lemma FiveHold(ts: seq<Table>, was: Sections)
    requires |ts| == 5 && |was| == 6 && AllHold(ts, was, 0)
    ensures Holding(ts[0], was[1], 0) && Holding(ts[1], was[2], 0) && Holding(ts[2], was[3], 0)
    ensures Holding(ts[3], was[4], 0) && Holding(ts[4], was[5], 0)
  {
    assert forall i :: 0 <= i < 5 ==> Holding(ts[i], was[i + 1], 0);
  }

  lemma PrintedMaps(conf: Conf, was: Sections)
    requires conf.Keeps(was, 0) && was[0] == map[]
    ensures AreMaps(was, Printed(conf, 0), Printed(conf, 1), Printed(conf, 2), Printed(conf, 3), Printed(conf, 4))
  {
    var ts := conf.Values();
    FiveHold(ts, was);
    TableMaps(ts[0], ts[1], ts[2], ts[3], ts[4], was);
  }

  ghost predicate AllPrintable(conf: Conf)
    requires |conf.tables| == 5
    reads conf.tables, set j | 0 <= j < |conf.tables| :: conf.tables[j].records
  {
    AllGood(Printed(conf, 0), Printed(conf, 1), Printed(conf, 2), Printed(conf, 3), Printed(conf, 4))
  }

  ghost function Saved(conf: Conf): string
    requires |conf.tables| == 5
    reads conf.tables, set j | 0 <= j < |conf.tables| :: conf.tables[j].records
  {
    FileText(Printed(conf, 0), Printed(conf, 1), Printed(conf, 2), Printed(conf, 3), Printed(conf, 4))
  }

  lemma SavedReadsBack(conf: Conf, was: Sections)
    requires conf.Keeps(was, 0) && was[0] == map[] && AllPrintable(conf)
    ensures var now := ReadAll(Saved(conf), 0, NOTHING);
            now[0] == map[] && (now == was <==> was[3] == map[] && was[5] == map[])
  {
    PrintedMaps(conf, was);
    SavedReads(Printed(conf, 0), Printed(conf, 1), Printed(conf, 2), Printed(conf, 3), Printed(conf, 4), was);
  }

  // A whole configuration, saved and read into new tables: these list what the old
  // ones did if and only if the hooks and transmit sections are empty.
  method FileBack(conf: Conf, ghost was: Sections) returns (copy: Conf)
    requires conf.Keeps(was, 0) && was[0] == map[] && AllPrintable(conf) && |Saved(conf)| <= MOST
    ensures fresh(copy) && copy.Separate()
    ensures copy.Keeps(was, 0) <==> was[3] == map[] && was[5] == map[]
  {
    SavedReadsBack(conf, was);
    ghost var now := ReadAll(Saved(conf), 0, NOTHING);
    var text := Save(conf, was);
    copy := ReadNew(text);
    HoldsBoth(copy.Values(), was, now);
  }
}
