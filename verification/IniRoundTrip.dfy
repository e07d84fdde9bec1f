// Reading back what conf_ini_save_section and conf_ini_save print.
module IniRoundTrip {
  import opened Options
  import opened CString
  import opened TableSpec
  import opened TableLaws
  import opened TextLaws
  import opened IniParser
  import opened Ini
  import opened IniPrinter

  // ---- One line through fgets ----

  // A line with its newline, short enough for the buffer.
  predicate IsLine(line: string) {
    line != "" && line[|line| - 1] == '\n' && Free(line[..|line| - 1], "\n\0") && |line| < 4096
  }

  lemma {:induction false} EndOfFirstLine(w: string, rest: string)
    requires Free(w, "\n\0")
    ensures EndOfLine(w + "\n" + rest) == |w| + 1
    decreases |w|
  {
    if w == "" {
    } else {
      assert (w + "\n" + rest)[1..] == w[1..] + "\n" + rest;
      EndOfFirstLine(w[1..], rest);
    }
  }

  lemma FgetsLine(line: string, rest: string)
    requires IsLine(line)
    ensures Fgets(line + rest) == |line| && Text(line) == line
    ensures (line + rest)[..|line|] == line && (line + rest)[|line|..] == rest
  {
    var w := line[..|line| - 1];
    assert line == w + "\n";
    assert line + rest == w + "\n" + rest;
    EndOfFirstLine(w, rest);
    assert forall k :: 0 <= k < |line| ==> (line + [NUL])[k] == line[k] != NUL;
    StrUnique(line + [NUL], 0, |line|);
    assert (line + [NUL])[0..|line|] == line;
  }

  lemma ReadLineFirst(line: string, rest: string, section: nat, conf: Sections)
    requires IsLine(line) && section < 6 && |conf| == 6
    ensures ReadAll(line + rest, section, conf) ==
            ReadAll(rest, LineStep(section, conf, line).0, LineStep(section, conf, line).1)
  {
    FgetsLine(line, rest);
    assert line + rest != "";
  }

  lemma EntryIsLine(e: Entry)
    requires GoodEntry(e)
    ensures IsLine(EntryLine(e)) && EntryLine(e)[0] == e.key[0] && e.key[0] !in "#\r\n;["
  {
    LineFree(e);
    assert EntryLine(e)[..|EntryLine(e)| - 1] == e.key + " = " + Joined(ListIn(e));
  }

  // ---- Sections ----

  predicate GoodSection(es: seq<Entry>) {
    forall i :: 0 <= i < |es| ==> GoodEntry(es[i])
  }

  predicate DistinctKeys(es: seq<Entry>) {
    forall i, j :: 0 <= i < j < |es| ==> es[i].key != es[j].key
  }

  // The multimap of a list of entries with distinct keys.
  function MapOf(es: seq<Entry>): Multimap {
    if es == [] then map[] else MapOf(es[..|es| - 1])[es[|es| - 1].key := ListIn(es[|es| - 1])]
  }

  lemma {:induction false} MapOfKeys(es: seq<Entry>, key: string)
    ensures key in MapOf(es) <==> exists i :: 0 <= i < |es| && es[i].key == key
    ensures DistinctKeys(es) ==> forall i :: 0 <= i < |es| && es[i].key == key ==> MapOf(es)[key] == ListIn(es[i])
    decreases |es|
  {
    if es == [] {
    } else {
      var n := |es| - 1;
      MapOfKeys(es[..n], key);
      assert forall i :: 0 <= i < n ==> es[..n][i] == es[i];
    }
  }

  lemma EntryStep(section: nat, conf: Sections, e: Entry)
    requires GoodEntry(e) && section < 6 && |conf| == 6
    ensures LineStep(section, conf, EntryLine(e)) ==
            (section, if section == 0 then conf
                      else conf[section := conf[section][e.key := ListOf(conf[section], e.key) + ListIn(e)]])
  {
    EntryIsLine(e);
    PrintedLineParses(e);
    assert FirstOnes(ListIn(e)) == ListIn(e);
    if section != 0 {
      InsertAllAppends(conf[section], e.key, ListIn(e));
    }
  }

  // One more printed line behind the entries read so far.
  lemma EntryAppends(es: seq<Entry>, e: Entry, rest: string, section: nat, conf: Sections)
    requires GoodEntry(e) && DistinctKeys(es + [e]) && 0 < section < 6 && |conf| == 6
    ensures ReadAll(EntryLine(e) + rest, section, conf[section := MapOf(es)]) ==
            ReadAll(rest, section, conf[section := MapOf(es + [e])])
  {
    var conf1 := conf[section := MapOf(es)];
    EntryIsLine(e);
    ReadLineFirst(EntryLine(e), rest, section, conf1);
    EntryStep(section, conf1, e);
    NewKey(es, e);
    UpdateAgain(conf, section, MapOf(es), MapOf(es + [e]));
  }

  lemma NewKey(es: seq<Entry>, e: Entry)
    requires DistinctKeys(es + [e])
    ensures MapOf(es + [e]) == MapOf(es)[e.key := ListOf(MapOf(es), e.key) + ListIn(e)]
  {
    var all := es + [e];
    assert all[..|all| - 1] == es && all[|es|] == e;
    assert forall i :: 0 <= i < |es| ==> all[i] == es[i];
    MapOfKeys(es, e.key);
    assert [] + ListIn(e) == ListIn(e);
  }

  // Reading a printed section into a section that is still empty.
  lemma {:induction false} ReadSection(es: seq<Entry>, rest: string, section: nat, conf: Sections)
    requires GoodSection(es) && DistinctKeys(es)
    requires 0 < section < 6 && |conf| == 6 && conf[section] == map[]
    ensures ReadAll(SectionText(es) + rest, section, conf) == ReadAll(rest, section, conf[section := MapOf(es)])
    decreases |es|
  {
    if es == [] {
      assert SectionText(es) + rest == rest;
      assert conf[section := map[]] == conf;
    } else {
      var front, e := es[..|es| - 1], es[|es| - 1];
      LastEntry(es);
      LastLine(front, e, rest);
      ReadSection(front, EntryLine(e) + rest, section, conf);
      EntryAppends(front, e, rest, section, conf);
    }
  }

  lemma LastEntry(es: seq<Entry>)
    requires es != []
    ensures es == es[..|es| - 1] + [es[|es| - 1]]
    ensures GoodSection(es) ==> GoodSection(es[..|es| - 1]) && GoodEntry(es[|es| - 1])
    ensures DistinctKeys(es) ==> DistinctKeys(es[..|es| - 1])
  {
  }

  lemma LastLine(front: seq<Entry>, e: Entry, rest: string)
    ensures SectionText(front + [e]) + rest == SectionText(front) + (EntryLine(e) + rest)
  {
    SectionTextSnoc(front, e);
    Regroup(SectionText(front), EntryLine(e), rest);
  }

  lemma UpdateAgain(conf: Sections, section: nat, a: Multimap, b: Multimap)
    requires section < |conf|
    ensures conf[section := a][section := b] == conf[section := b]
  {
  }

  // Lines outside a known section are dropped.
  lemma {:induction false} SkipSection(es: seq<Entry>, rest: string, conf: Sections)
    requires GoodSection(es) && |conf| == 6
    ensures ReadAll(SectionText(es) + rest, 0, conf) == ReadAll(rest, 0, conf)
    decreases |es|
  {
    if es == [] {
      assert SectionText(es) + rest == rest;
    } else {
      var n := |es| - 1;
      var e := es[n];
      assert SectionText(es) + rest == SectionText(es[..n]) + (EntryLine(e) + rest);
      SkipSection(es[..n], EntryLine(e) + rest, conf);
      EntryIsLine(e);
      ReadLineFirst(EntryLine(e), rest, 0, conf);
      EntryStep(0, conf, e);
    }
  }

  // The live records of a table that stands for mm print to a section that
  // reads back as mm.
  lemma TableSectionReadsBack(t: Table, mm: Multimap, section: nat, conf: Sections)
    requires Lists(t, mm) && GoodSection(Entries(t.records))
    requires 0 < section < 6 && |conf| == 6 && conf[section] == map[]
    ensures ReadAll(SectionText(Entries(t.records)), section, conf) == conf[section := mm]
  {
    var es := Entries(t.records);
    EntriesDistinct(es, Stored(mm));
    assert SectionText(es) + "" == SectionText(es);
    ReadSection(es, "", section, conf);
    MapOfEntries(es, mm);
  }

  lemma MapOfEntries(es: seq<Entry>, mm: Multimap)
    requires DistinctKeys(es) && multiset(es) == multiset(Graph(Stored(mm)))
    ensures MapOf(es) == mm
  {
    forall key ensures key in MapOf(es) <==> key in mm {
      MapOfKeys(es, key);
      InGraph(es, Stored(mm), key);
    }
    forall key | key in mm ensures MapOf(es)[key] == mm[key] {
      MapOfKeys(es, key);
      InGraph(es, Stored(mm), key);
    }
    assert MapOf(es) == mm;
  }

  lemma InGraph(es: seq<Entry>, m: map<string, Option<Value>>, key: string)
    requires multiset(es) == multiset(Graph(m))
    ensures (exists i :: 0 <= i < |es| && es[i].key == key) <==> key in m
    ensures forall i :: 0 <= i < |es| && es[i].key == key ==> key in m && es[i].value == m[key]
  {
    forall i | 0 <= i < |es| ensures es[i].key in m && es[i].value == m[es[i].key] {
      assert es[i] in multiset(es);
    }
    if key in m {
      assert Entry(key, m[key]) in multiset(Graph(m));
      var i :| 0 <= i < |es| && es[i] == Entry(key, m[key]);
    }
  }

  lemma EntriesDistinct(es: seq<Entry>, m: map<string, Option<Value>>)
    requires multiset(es) == multiset(Graph(m))
    ensures DistinctKeys(es)
  {
    forall i, j | 0 <= i < j < |es| ensures es[i].key != es[j].key {
      TwoEntries(es, i, j);
      OneBindingPerKey(m, es[i].key, es[i].value, es[j].value);
    }
  }

  lemma TwoEntries(es: seq<Entry>, i: nat, j: nat)
    requires i < j < |es|
    ensures multiset{es[i], es[j]} <= multiset(es)
  {
    assert es == es[..i] + [es[i]] + es[i + 1..j] + [es[j]] + es[j + 1..];
  }

  // ---- Whole files ----

  // What a section under a header cut short reads back as: its first line is
  // swallowed by the header, and the rest only counts if that line closes it.
  function AfterShortHeader(es: seq<Entry>): Multimap {
    if es != [] && es[0].key != "" && es[0].key[0] == ']' then MapOf(es[1..]) else map[]
  }

  lemma {:induction false} SectionTextFirst(es: seq<Entry>)
    requires es != []
    ensures SectionText(es) == EntryLine(es[0]) + SectionText(es[1..])
    decreases |es|
  {
    var n := |es| - 1;
    if n == 0 {
      assert es[..0] == [] && es[1..] == [];
    } else {
      var middle := es[1..n];
      SectionTextFirst(es[..n]);
      assert es[..n][1..] == middle && es[..n][0] == es[0];
      assert es == es[..n] + [es[n]] && es[1..] == middle + [es[n]];
      SectionTextSnoc(es[..n], es[n]);
      SectionTextSnoc(middle, es[n]);
      Regroup(EntryLine(es[0]), SectionText(middle), EntryLine(es[n]));
    }
  }

  lemma HeaderSection(name: string, id: nat)
    requires 0 < id < 6 && name == SECTIONS[id]
    ensures SectionOf("[" + name + "]\n") == id
  {
    var line := "[" + name + "]\n";
    assert line[1..] == name + [']'] + "\n";
    SplitToken(name, ']', "\n", "]");
  }

  lemma HeaderStep(name: string, id: nat, section: nat, conf: Sections)
    requires 0 < id < 6 && name == SECTIONS[id] && section < 6 && |conf| == 6
    ensures IsLine("[" + name + "]\n") && LineStep(section, conf, "[" + name + "]\n") == (id, conf)
  {
    HeaderSection(name, id);
    SectionNameFree(id);
    HeaderIsLine(name);
  }

  lemma SectionNameFree(id: nat)
    requires 0 < id < 6
    ensures Free(SECTIONS[id], "\n\0") && |SECTIONS[id]| <= 8
  {
  }

  lemma HeaderIsLine(name: string)
    requires Free(name, "\n\0") && |name| <= 8
    ensures IsLine("[" + name + "]\n")
  {
    var line := "[" + name + "]\n";
    assert line[..|line| - 1] == "[" + name + "]";
  }

  lemma HeaderLine(name: string, id: nat, rest: string, section: nat, conf: Sections)
    requires 0 < id < 6 && name == SECTIONS[id] && section < 6 && |conf| == 6
    ensures ReadAll("[" + name + "]\n" + rest, section, conf) == ReadAll(rest, id, conf)
  {
    HeaderStep(name, id, section, conf);
    ReadLineFirst("[" + name + "]\n", rest, section, conf);
  }

  lemma BlankLine(rest: string, section: nat, conf: Sections)
    requires section < 6 && |conf| == 6
    ensures ReadAll("\n" + rest, section, conf) == ReadAll(rest, section, conf)
  {
    ReadLineFirst("\n", rest, section, conf);
  }

  // The two names whose headers are written too short.
  predicate ShortName(name: string, id: nat) {
    (id == 3 && name == "hooks") || (id == 5 && name == "transmit")
  }

  // A header without its bracket only opens its section if the text that runs
  // into it starts with one.
  lemma ShortHeaderSection(name: string, id: nat, tail: string)
    requires ShortName(name, id)
    requires tail != ""
    ensures SectionOf("[" + name + tail) == if tail[0] == ']' then id else 0
  {
    var line := "[" + name + tail;
    assert line[1..] == name + tail;
    if tail[0] == ']' {
      assert name + tail == name + [']'] + tail[1..];
      SplitToken(name, ']', tail[1..], "]");
    } else {
      BeforePrefix(name, tail);
    }
  }

  lemma {:induction false} BeforePrefix(name: string, tail: string)
    requires tail != "" && tail[0] != ']' && Free(name, "]")
    ensures Before(name + tail, "]") == name + Before(tail, "]") && Before(tail, "]") != ""
    decreases |name|
  {
    if name == "" {
      assert name + tail == tail;
    } else {
      assert (name + tail)[1..] == name[1..] + tail;
      BeforePrefix(name[1..], tail);
    }
  }

  lemma ShortNameFree(name: string, id: nat)
    requires ShortName(name, id)
    ensures Free("[" + name, "\n\0") && |name| <= 8
  {
  }

  lemma ShortLine(name: string, id: nat)
    requires ShortName(name, id)
    ensures IsLine("[" + name + "\n")
  {
    var line := "[" + name + "\n";
    ShortNameFree(name, id);
    assert line[..|line| - 1] == "[" + name;
  }

  lemma ShortHeaderAlone(name: string, id: nat, rest: string, section: nat, conf: Sections)
    requires ShortName(name, id)
    requires section < 6 && |conf| == 6
    ensures ReadAll("[" + name + "\n" + rest, section, conf) == ReadAll(rest, 0, conf)
  {
    var line := "[" + name + "\n";
    ShortLine(name, id);
    ShortHeaderSection(name, id, "\n");
    HeaderLineRead(line, rest, section, conf);
  }

  lemma ShortHeaderSwallows(name: string, id: nat, e: Entry, rest: string, section: nat, conf: Sections)
    requires ShortName(name, id)
    requires GoodEntry(e) && section < 6 && |conf| == 6 && |name| + 1 + |EntryLine(e)| < 4096
    ensures ReadAll("[" + name + EntryLine(e) + rest, section, conf) ==
            ReadAll(rest, if e.key[0] == ']' then id else 0, conf)
  {
    EntryIsLine(e);
    ShortNameFree(name, id);
    HeaderRunsOn("[" + name, EntryLine(e));
    ShortHeaderSection(name, id, EntryLine(e));
    HeaderLineRead("[" + name + EntryLine(e), rest, section, conf);
  }

  lemma HeaderLineRead(line: string, rest: string, section: nat, conf: Sections)
    requires IsLine(line) && line[0] == '[' && section < 6 && |conf| == 6
    ensures ReadAll(line + rest, section, conf) == ReadAll(rest, SectionOf(line), conf)
  {
    ReadLineFirst(line, rest, section, conf);
  }

  lemma SectionAndBlank(es: seq<Entry>, rest: string, section: nat, conf: Sections)
    requires GoodSection(es) && DistinctKeys(es) && section < 6 && |conf| == 6 && conf[section] == map[]
    ensures ReadAll(SectionText(es) + ("\n" + rest), section, conf) ==
            ReadAll(rest, section, conf[section := if section == 0 then map[] else MapOf(es)])
  {
    if section == 0 {
      SkipSection(es, "\n" + rest, conf);
      BlankLine(rest, 0, conf);
      assert conf[0 := map[]] == conf;
    } else {
      ReadSection(es, "\n" + rest, section, conf);
      BlankLine(rest, section, conf[section := MapOf(es)]);
    }
  }

  lemma ShortHeader(name: string, id: nat, es: seq<Entry>, rest: string, section: nat, conf: Sections)
    returns (section': nat)
    requires ShortName(name, id)
    requires GoodSection(es) && DistinctKeys(es) && section < 6
    requires |conf| == 6 && conf[0] == map[] && conf[id] == map[]
    requires es != [] ==> |name| + 1 + |EntryLine(es[0])| < 4096
    ensures section' < 6
    ensures ReadAll("[" + name + SectionText(es) + "\n" + rest, section, conf) ==
            ReadAll(rest, section', conf[id := AfterShortHeader(es)])
  {
    if es == [] {
      section' := 0;
      assert "[" + name + SectionText(es) + "\n" == "[" + name + "\n";
      ShortHeaderAlone(name, id, rest, section, conf);
      assert conf[id := map[]] == conf;
    } else {
      section' := if es[0].key[0] == ']' then id else 0;
      SectionTextFirst(es);
      HeaderText("[" + name, EntryLine(es[0]), SectionText(es[1..]), rest);
      ShortHeaderMore(name, id, es[0], es[1..], rest, section, conf);
    }
  }

  lemma ShortHeaderMore(name: string, id: nat, e: Entry, more: seq<Entry>, rest: string, section: nat, conf: Sections)
    requires ShortName(name, id)
    requires GoodEntry(e) && GoodSection(more) && DistinctKeys(more) && section < 6
    requires |conf| == 6 && conf[0] == map[] && conf[id] == map[]
    requires |name| + 1 + |EntryLine(e)| < 4096
    ensures ReadAll("[" + name + EntryLine(e) + (SectionText(more) + ("\n" + rest)), section, conf) ==
            ReadAll(rest, if e.key[0] == ']' then id else 0, conf[id := if e.key[0] == ']' then MapOf(more) else map[]])
  {
    ShortHeaderSwallows(name, id, e, SectionText(more) + ("\n" + rest), section, conf);
    SectionAndBlank(more, rest, if e.key[0] == ']' then id else 0, conf);
    assert conf[0 := map[]] == conf && conf[id := map[]] == conf;
  }

  lemma HeaderText(header: string, line: string, more: string, rest: string)
    ensures header + (line + more) + "\n" + rest == header + line + (more + ("\n" + rest))
  {
  }

  lemma HeaderRunsOn(header: string, line: string)
    requires Free(header, "\n\0") && IsLine(line) && |header| + |line| < 4096
    ensures IsLine(header + line)
  {
    assert (header + line)[..|header + line| - 1] == header + line[..|line| - 1];
  }

  lemma HeaderAndSection(header: string, text: string, rest: string)
    ensures header + text + "\n" + rest == header + (text + ("\n" + rest))
  {
  }

  // A section under a whole header, with the blank line behind it.
  lemma WholeSection(name: string, id: nat, es: seq<Entry>, rest: string, section: nat, conf: Sections)
    requires 0 < id < 6 && name == SECTIONS[id] && section < 6 && |conf| == 6 && conf[id] == map[]
    requires GoodSection(es) && DistinctKeys(es)
    ensures ReadAll("[" + name + "]\n" + SectionText(es) + "\n" + rest, section, conf) ==
            ReadAll(rest, id, conf[id := MapOf(es)])
  {
    HeaderAndSection("[" + name + "]\n", SectionText(es), rest);
    HeaderLine(name, id, SectionText(es) + ("\n" + rest), section, conf);
    ReadSection(es, "\n" + rest, id, conf);
    BlankLine(rest, id, conf[id := MapOf(es)]);
  }

  // conf_ini_save, section by section from the end of the file: "[hooks]\n" is
  // written six bytes long and "[transmit]\n" nine.
  function TransmitText(t: seq<Entry>): string {
    "[transmit]\n"[..9] + SectionText(t) + "\n"
  }

  function ForwardText(f: seq<Entry>, t: seq<Entry>): string {
    "[forward]\n" + SectionText(f) + "\n" + TransmitText(t)
  }

  function HooksText(h: seq<Entry>, f: seq<Entry>, t: seq<Entry>): string {
    "[hooks]\n"[..6] + SectionText(h) + "\n" + ForwardText(f, t)
  }

  function CmdText(c: seq<Entry>, h: seq<Entry>, f: seq<Entry>, t: seq<Entry>): string {
    "[cmd]\n" + SectionText(c) + "\n" + HooksText(h, f, t)
  }

  function FileText(g: seq<Entry>, c: seq<Entry>, h: seq<Entry>, f: seq<Entry>, t: seq<Entry>): string {
    "[global]\n" + SectionText(g) + "\n" + CmdText(c, h, f, t)
  }

  predicate Printable(es: seq<Entry>) {
    GoodSection(es) && DistinctKeys(es) && (es != [] ==> |EntryLine(es[0])| + 9 < 4096)
  }

  // Nothing has been read outside of sections, or into the sections from `k` on.
  predicate EmptyFrom(conf: Sections, k: nat) {
    |conf| == 6 && conf[0] == map[] && forall i :: k <= i < 6 ==> conf[i] == map[]
  }

  lemma NothingIsEmpty()
    ensures EmptyFrom(NOTHING, 1)
  {
    assert NOTHING[1] == NOTHING[2] == NOTHING[3] == NOTHING[4] == NOTHING[5] == map[];
  }

  lemma EmptyAfter(conf: Sections, k: nat, m: Multimap)
    requires 0 < k < 6 && EmptyFrom(conf, k)
    ensures EmptyFrom(conf[k := m], k + 1)
  {
  }

  lemma TransmitReadsBack(t: seq<Entry>, section: nat, conf: Sections)
    requires Printable(t) && section < 6 && EmptyFrom(conf, 5)
    ensures ReadAll(TransmitText(t), section, conf) == conf[5 := AfterShortHeader(t)]
  {
    assert "[transmit]\n"[..9] == "[" + "transmit";
    var s := ShortHeader("transmit", 5, t, "", section, conf);
    assert "[" + "transmit" + SectionText(t) + "\n" + "" == TransmitText(t);
  }

  lemma ForwardReadsBack(f: seq<Entry>, t: seq<Entry>, section: nat, conf: Sections)
    requires Printable(f) && Printable(t) && section < 6 && EmptyFrom(conf, 4)
    ensures ReadAll(ForwardText(f, t), section, conf) == conf[4 := MapOf(f)][5 := AfterShortHeader(t)]
  {
    assert "[forward]\n" == "[" + "forward" + "]\n";
    WholeSection("forward", 4, f, TransmitText(t), section, conf);
    EmptyAfter(conf, 4, MapOf(f));
    TransmitReadsBack(t, 4, conf[4 := MapOf(f)]);
  }

  lemma HooksReadsBack(h: seq<Entry>, f: seq<Entry>, t: seq<Entry>, section: nat, conf: Sections)
    requires Printable(h) && Printable(f) && Printable(t) && section < 6 && EmptyFrom(conf, 3)
    ensures ReadAll(HooksText(h, f, t), section, conf) ==
            conf[3 := AfterShortHeader(h)][4 := MapOf(f)][5 := AfterShortHeader(t)]
  {
    assert "[hooks]\n"[..6] == "[" + "hooks";
    var s := ShortHeader("hooks", 3, h, ForwardText(f, t), section, conf);
    EmptyAfter(conf, 3, AfterShortHeader(h));
    ForwardReadsBack(f, t, s, conf[3 := AfterShortHeader(h)]);
  }

  lemma CmdReadsBack(c: seq<Entry>, h: seq<Entry>, f: seq<Entry>, t: seq<Entry>, section: nat, conf: Sections)
    requires Printable(c) && Printable(h) && Printable(f) && Printable(t) && section < 6 && EmptyFrom(conf, 2)
    ensures ReadAll(CmdText(c, h, f, t), section, conf) ==
            conf[2 := MapOf(c)][3 := AfterShortHeader(h)][4 := MapOf(f)][5 := AfterShortHeader(t)]
  {
    assert "[cmd]\n" == "[" + "cmd" + "]\n";
    WholeSection("cmd", 2, c, HooksText(h, f, t), section, conf);
    EmptyAfter(conf, 2, MapOf(c));
    HooksReadsBack(h, f, t, 2, conf[2 := MapOf(c)]);
  }

  // What a saved configuration reads back as.
  lemma SavedFile(g: seq<Entry>, c: seq<Entry>, h: seq<Entry>, f: seq<Entry>, t: seq<Entry>)
    requires Printable(g) && Printable(c) && Printable(h) && Printable(f) && Printable(t)
    ensures ReadAll(FileText(g, c, h, f, t), 0, NOTHING) ==
            [map[], MapOf(g), MapOf(c), AfterShortHeader(h), MapOf(f), AfterShortHeader(t)]
  {
    assert "[global]\n" == "[" + "global" + "]\n";
    WholeSection("global", 1, g, CmdText(c, h, f, t), 0, NOTHING);
    NothingIsEmpty();
    EmptyAfter(NOTHING, 1, MapOf(g));
    CmdReadsBack(c, h, f, t, 1, NOTHING[1 := MapOf(g)]);
    FiveUpdates(MapOf(g), MapOf(c), AfterShortHeader(h), MapOf(f), AfterShortHeader(t));
  }

  lemma FiveUpdates(g: Multimap, c: Multimap, h: Multimap, f: Multimap, t: Multimap)
    ensures NOTHING[1 := g][2 := c][3 := h][4 := f][5 := t] == [map[], g, c, h, f, t]
  {
  }

  lemma ShortHeaderLoses(es: seq<Entry>)
    requires GoodSection(es) && DistinctKeys(es)
    ensures AfterShortHeader(es) == MapOf(es) <==> es == []
  {
    if es != [] {
      var key := es[0].key;
      MapOfKeys(es, key);
      MapOfKeys(es[1..], key);
      assert key in MapOf(es) && key !in AfterShortHeader(es);
    }
  }

  // A whole saved file reads back as the configuration it was printed from if
  // and only if its [hooks] and [transmit] sections are empty.
  lemma FileRoundTrip(g: seq<Entry>, c: seq<Entry>, h: seq<Entry>, f: seq<Entry>, t: seq<Entry>)
    requires Printable(g) && Printable(c) && Printable(h) && Printable(f) && Printable(t)
    ensures ReadAll(FileText(g, c, h, f, t), 0, NOTHING) == [map[], MapOf(g), MapOf(c), MapOf(h), MapOf(f), MapOf(t)]
            <==> h == [] && t == []
  {
    SavedFile(g, c, h, f, t);
    ShortHeaderLoses(h);
    ShortHeaderLoses(t);
    SameConf(MapOf(g), MapOf(c), MapOf(f), AfterShortHeader(h), AfterShortHeader(t), MapOf(h), MapOf(t));
  }

  lemma SameConf(g: Multimap, c: Multimap, f: Multimap, h: Multimap, t: Multimap, h': Multimap, t': Multimap)
    ensures [map[], g, c, h, f, t] == [map[], g, c, h', f, t'] <==> h == h' && t == t'
  {
    var a, b := [map[], g, c, h, f, t], [map[], g, c, h', f, t'];
    if a == b {
      assert a[3] == b[3] && a[5] == b[5];
    }
  }

  lemma HookValue()
    ensures GoodValue("|quotes")
  {
    assert SkipLeading("|quotes", " ") == "|quotes" && TrimEnd("|quotes") == "|quotes";
  }

  lemma HookPrintable()
    ensures Printable([Entry("quote", Some(["|quotes"]))])
  {
    var e := Entry("quote", Some(["|quotes"]));
    HookValue();
    assert ListIn(e) == ["|quotes"] && Joined(["|quotes"]) == "|quotes";
  }

  // Such a file: one hook is configured and gone after a save and a reload.
  lemma HookLost()
    ensures var h := [Entry("quote", Some(["|quotes"]))];
            Printable(h) && ReadAll(FileText([], [], h, [], []), 0, NOTHING) == NOTHING
  {
    var h := [Entry("quote", Some(["|quotes"]))];
    HookPrintable();
    SavedFile([], [], h, [], []);
  }
}
