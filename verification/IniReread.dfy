// What reading a file leaves in the tables can be printed and read again: saving a
// configuration that was read changes nothing more than the short headers do.
module IniReread {
  import opened Options
  import opened CString
  import opened TableSpec
  import opened TextLaws
  import opened IniParser
  import opened Ini
  import opened IniPrinter
  import opened IniRoundTrip
  import opened IniFiles

  // ---- Characters of the pieces ----

  predicate Inside(part: string, whole: string) {
    forall k :: 0 <= k < |part| ==> part[k] in whole
  }

  lemma {:induction false} SkipInside(str: string, delims: string)
    ensures Inside(SkipLeading(str, delims), str)
    decreases |str|
  {
    if str == "" || str[0] !in delims {
    } else {
      SkipInside(str[1..], delims);
    }
  }

  lemma {:induction false} TokensInside(str: string, delims: string, i: nat)
    requires i < |Tokens(str, delims)|
    ensures Inside(Tokens(str, delims)[i], str)
    decreases |str|
  {
    var s := SkipLeading(str, delims);
    SkipInside(str, delims);
    if i == 0 {
    } else {
      var rest := After(s, delims).value;
      TokensInside(rest, delims, i - 1);
      assert Tokens(str, delims)[i] == Tokens(rest, delims)[i - 1];
    }
  }

  lemma {:induction false} TrimEndInside(s: string)
    ensures Inside(TrimEnd(s), s) && TrimEnd(TrimEnd(s)) == TrimEnd(s)
    ensures s != "" ==> TrimEnd(s) != "" && TrimEnd(s)[0] == s[0]
    decreases |s|
  {
    if |s| > 1 && s[|s| - 1] == ' ' {
      TrimEndInside(s[..|s| - 1]);
    } else {
    }
  }

  lemma {:induction false} SkipStarts(str: string, delims: string)
    ensures SkipLeading(str, delims) == "" || SkipLeading(str, delims)[0] !in delims
    decreases |str|
  {
    if str == "" || str[0] !in delims {
    } else {
      SkipStarts(str[1..], delims);
    }
  }

  // Trimming twice is trimming once.
  lemma TrimTwice(field: string)
    ensures Trim(Trim(field)) == Trim(field) && Inside(Trim(field), field)
  {
    var s := SkipLeading(field, " ");
    SkipInside(field, " ");
    SkipStarts(field, " ");
    TrimEndInside(s);
    assert SkipLeading(TrimEnd(s), " ") == TrimEnd(s);
  }

  // ---- One line ----

  // A line as fgets leaves it: a newline at its end at most.
  predicate OneLine(line: string) {
    Free(line, "\0") && forall k :: 0 <= k < |line| - 1 ==> line[k] != '\n'
  }

  lemma GoodField(token: string, rest: string)
    requires Inside(token, rest) && Free(rest, ";\0") && forall c :: c in token ==> c !in VALUE_DELIMS
    ensures GoodValue(Trim(token))
  {
    TrimTwice(token);
    var v := Trim(token);
    forall k | 0 <= k < |v| ensures v[k] !in "=\t\r,\n;\0" {
      assert v[k] in token;
      var j :| 0 <= j < |token| && token[j] == v[k];
      assert token[j] in rest;
    }
  }

  lemma GoodFields(rest: string)
    requires Free(rest, ";\0")
    ensures forall i :: 0 <= i < |Fields(rest)| ==> GoodValue(Trimmed(Fields(rest))[i])
  {
    var toks := Fields(rest);
    forall i | 0 <= i < |toks| ensures GoodValue(Trimmed(toks)[i]) {
      TokensInside(rest, VALUE_DELIMS, i);
      assert toks[i] == Tokens(rest, VALUE_DELIMS)[i] && toks[i] in Tokens(rest, VALUE_DELIMS);
      GoodField(toks[i], rest);
      TrimmedIs(toks, i);
    }
  }

  lemma {:induction false} TrimmedIs(fields: seq<string>, i: nat)
    requires i < |fields|
    ensures Trimmed(fields)[i] == Trim(fields[i])
    decreases |fields|
  {
    if i == |fields| - 1 {
    } else {
      TrimmedIs(fields[..|fields| - 1], i);
    }
  }

  lemma KeyIsGood(line: string, str: string)
    requires OneLine(line) && line != "" && line[0] !in "#\r\n;[" && str == Before(line, ";")
    requires After(str, KEY_DELIMS).Some? && Before(str, KEY_DELIMS) != ""
    ensures GoodKey(Before(str, KEY_DELIMS))
  {
    var key := Before(str, KEY_DELIMS);
    forall k | 0 <= k < |key| ensures key[k] !in " =\t;\n\0" {
      assert key[k] in key && key[k] == str[k] && str[k] in str && str[k] == line[k] && k < |line| - 1;
    }
    assert key[0] == str[0] == line[0];
  }

  lemma RestIsFree(line: string, str: string)
    requires OneLine(line) && str == Before(line, ";") && After(str, KEY_DELIMS).Some?
    ensures Free(After(str, KEY_DELIMS).value, ";\0")
  {
    var n, rest := |Before(str, KEY_DELIMS)|, After(str, KEY_DELIMS).value;
    forall k | 0 <= k < |rest| ensures rest[k] !in ";\0" {
      assert rest[k] == str[n + 1 + k] && str[n + 1 + k] in str && str[n + 1 + k] == line[n + 1 + k];
    }
  }

  // The key and the values of a line can be printed.
  lemma ParsedIsGood(line: string)
    requires OneLine(line) && line != "" && line[0] !in "#\r\n;["
    ensures var r := ParseParameter(line); r.Some? && r.value.0 != "" ==> GoodList(r.value.0, r.value.1)
  {
    var str := Before(line, ";");
    var r := ParseParameter(line);
    if r.Some? && r.value.0 != "" {
      KeyIsGood(line, str);
      RestIsFree(line, str);
      GoodFields(After(str, KEY_DELIMS).value);
    }
  }

  // ---- Whole files ----

  predicate AllListsGood(mm: Multimap) {
    forall key :: key in mm ==> GoodList(key, mm[key])
  }

  predicate AllSectionsGood(conf: Sections) {
    |conf| == 6 && forall i :: 0 <= i < 6 ==> AllListsGood(conf[i])
  }

  lemma AppendGood(mm: Multimap, key: string, values: seq<string>)
    requires AllListsGood(mm) && GoodList(key, values)
    ensures AllListsGood(InsertAll(mm, key, values))
  {
    InsertAllAppends(mm, key, values);
    assert GoodList(key, ListOf(mm, key) + values);
  }

  lemma {:induction false} EmptyKeyRefused(mm: Multimap, values: seq<string>)
    ensures InsertAll(mm, "", values) == mm
    decreases |values|
  {
    if values == [] {
    } else {
      NextInsert("", values, 0);
      assert values[0..] == values;
      EmptyKeyRefused(mm, values[1..]);
    }
  }

  lemma StepGood(section: nat, conf: Sections, line: string)
    requires section < 6 && AllSectionsGood(conf) && OneLine(line)
    ensures AllSectionsGood(LineStep(section, conf, line).1)
  {
    if line != "" && line[0] !in "#\r\n;[" && section != 0 && ParseParameter(line).Some? {
      var (key, values) := ParseParameter(line).value;
      ParsedIsGood(line);
      if key == "" {
        EmptyKeyRefused(conf[section], values);
      } else {
        AppendGood(conf[section], key, values);
      }
    }
  }

  lemma TextIsOneLine(content: string)
    ensures OneLine(Text(content[..Fgets(content)]))
  {
    var chunk := content[..Fgets(content)];
    LineEnds(content);
    var s := chunk + [NUL];
    assert s[|chunk|] == NUL;
    StrHasNoNul(s, 0);
    var end := EndOf(s, 0);
    var line := Str(s, 0);
    assert forall k :: 0 <= k < |line| ==> line[k] == s[k] && line[k] in line;
    assert forall k :: 0 <= k < |chunk| ==> s[k] == content[k];
  }

  lemma {:induction false} ReadIsGood(content: string, section: nat, conf: Sections)
    requires section < 6 && AllSectionsGood(conf)
    ensures AllSectionsGood(ReadAll(content, section, conf))
    decreases |content|
  {
    if content == "" {
    } else {
      var line := Text(content[..Fgets(content)]);
      TextIsOneLine(content);
      StepGood(section, conf, line);
      var (section', conf') := LineStep(section, conf, line);
      ReadIsGood(content[Fgets(content)..], section', conf');
    }
  }

  // ---- Saving what was read ----

  // The lists have at most 127 values and their lines fit the buffer behind a
  // header.
  predicate Short(mm: Multimap) {
    forall key :: key in mm ==> |mm[key]| <= 127 && |EntryLine(Entry(key, Some(mm[key])))| + 9 < 4096
  }

  predicate AllShort(conf: Sections) {
    |conf| == 6 && forall i :: 0 <= i < 6 ==> Short(conf[i])
  }

  lemma TablePrintable(t: Table, mm: Multimap)
    requires Lists(t, mm) && AllListsGood(mm) && Short(mm)
    ensures Printable(Entries(t.records))
  {
    var es := Entries(t.records);
    EntriesDistinct(es, Stored(mm));
    forall i | 0 <= i < |es| ensures GoodEntry(es[i]) && |EntryLine(es[i])| + 9 < 4096 {
      InGraph(es, Stored(mm), es[i].key);
      assert es[i] == Entry(es[i].key, Some(mm[es[i].key]));
    }
  }

  lemma TablesPrintable(conf: Conf, was: Sections)
    requires conf.Keeps(was, 0) && AllSectionsGood(was) && AllShort(was)
    ensures AllPrintable(conf)
  {
    var ts := conf.Values();
    FiveHold(ts, was);
    TablePrintable(ts[0], was[1]);
    TablePrintable(ts[1], was[2]);
    TablePrintable(ts[2], was[3]);
    TablePrintable(ts[3], was[4]);
    TablePrintable(ts[4], was[5]);
  }

  lemma NothingGood()
    ensures AllSectionsGood(NOTHING) && forall i :: 0 <= i < 6 ==> NOTHING[i] == map[]
  {
  }

  // A file is read into the tables, these are saved, and the result is read again:
  // the lists are the same if and only if the hooks and transmit sections are empty.
  lemma RereadIsTheSame(content: string, was: Sections, conf: Conf)
    requires was == ReadAll(content, 0, NOTHING) && conf.Keeps(was, 0) && AllShort(was)
    ensures AllPrintable(conf)
    ensures ReadAll(Saved(conf), 0, NOTHING) == was <==> was[3] == map[] && was[5] == map[]
  {
    NothingGood();
    ReadIsGood(content, 0, NOTHING);
    NoneStaysEmpty(content, 0, NOTHING);
    TablesPrintable(conf, was);
    SavedReadsBack(conf, was);
  }

  // A section read from a file, printed and read on its own, is the same.
  lemma SectionIsTheSame(content: string, was: Sections, k: nat, t: Table)
    requires 1 <= k < 6 && was == ReadAll(content, 0, NOTHING) && Lists(t, was[k]) && Short(was[k])
    ensures ReadAll(SectionText(Entries(t.records)), k, NOTHING) == NOTHING[k := was[k]]
  {
    NothingGood();
    ReadIsGood(content, 0, NOTHING);
    TablePrintable(t, was[k]);
    TableSectionReadsBack(t, was[k], k, NOTHING);
  }

  // The 128th value is lost.
  lemma ManyValuesLost(e: Entry)
    requires GoodList(e.key, ListIn(e)) && |ListIn(e)| > 127
    ensures ParseParameter(EntryLine(e)) == Some((e.key, ListIn(e)[..127]))
    ensures ListIn(e)[..127] != ListIn(e)
  {
    PrintedLineParses(e);
  }
}
