// conf_ini.c, writing side: the lines printed for a section, and what the parser
// makes of one of them.
module IniPrinter {
  import opened Options
  import opened CString
  import opened TableSpec
  import opened IniParser
  import opened HashTable

  // ---- Printing ----

  function Joined(values: seq<string>): string {
    if values == [] then ""
    else if |values| == 1 then values[0]
    else values[0] + ", " + Joined(values[1..])
  }

  function ListIn(e: Entry): seq<string> {
    if e.value.Some? then e.value.value else []
  }

  function EntryLine(e: Entry): string {
    e.key + " = " + Joined(ListIn(e)) + "\n"
  }

  function SectionText(es: seq<Entry>): string {
    if es == [] then "" else SectionText(es[..|es| - 1]) + EntryLine(es[|es| - 1])
  }

  lemma JoinedFrom(values: seq<string>, j: nat)
    requires j < |values|
    ensures Joined(values[j..]) == values[j] + (if j + 1 < |values| then ", " else "") + Joined(values[j + 1..])
  {
    assert values[j..][1..] == values[j + 1..];
    if j + 1 == |values| {
      assert values[j] + "" + "" == values[j];
    }
  }

  // The inner loop of conf_ini_save_section.
  method SaveValues(data: seq<string>) returns (out: string)
    ensures out == Joined(data)
  {
    out := "";
    var j := 0;
    assert data[0..] == data;
    while j < |data|
      invariant 0 <= j <= |data|
      invariant out + Joined(data[j..]) == Joined(data)
    {
      ghost var was := out;
      JoinedFrom(data, j);
      out := out + data[j];
      if j + 1 < |data| {
        out := out + ", ";
      }
      assert out + Joined(data[j + 1..]) ==
             was + (data[j] + (if j + 1 < |data| then ", " else "") + Joined(data[j + 1..]));
      j := j + 1;
    }
  }

  // conf_ini_save_section: one line for every live record, in slot order.
  method SaveSection(mem: Hash?) returns (rc: int, out: string)
    requires mem != null ==> mem.Valid() && forall e :: e in Entries(mem.records[..]) ==> e.value.Some?
    ensures mem == null ==> rc == -1 && out == ""
    ensures mem != null ==> rc == 0 && out == SectionText(Entries(mem.records[..]))
  {
    out := "";
    if mem == null {
      return -1, out;
    }
    var i, c := 0, 0;
    ghost var recs, done := mem.records[..], [];
    while c < mem.recordsCount
      invariant 0 <= i <= |recs| && recs == mem.records[..]
      invariant done == Entries(recs[..i]) && c == |done| && out == SectionText(done)
      decreases |recs| - i
    {
      assert recs[..|recs|] == recs;
      ScanStep(recs, i);
      var rec := mem.records[i];
      if rec.hash != 0 && rec.key.Some? {
        c := c + 1;
        var values := SaveValues(rec.value.value);
        SectionTextSnoc(done, Entry(rec.key.value, rec.value));
        done := done + [Entry(rec.key.value, rec.value)];
        out := out + (rec.key.value + " = " + values + "\n");
      }
      i := i + 1;
    }
    EntriesRest(recs, i);
    rc := 0;
  }

  // What one step of a table scan sees.
  lemma ScanStep(recs: seq<Record>, i: nat)
    requires Chained(recs) && i < |recs|
    ensures var r := recs[i];
            if r.hash != 0 && r.key.Some?
            then Entries(recs[..i + 1]) == Entries(recs[..i]) + [Entry(r.key.value, r.value)] &&
                 Entry(r.key.value, r.value) in Entries(recs)
            else Entries(recs[..i + 1]) == Entries(recs[..i])
  {
    EntriesPrefix(recs, i);
    if recs[i].key.Some? {
      HeldMeansCounted(recs, i);
    }
  }

  lemma SectionTextSnoc(es: seq<Entry>, e: Entry)
    ensures SectionText(es + [e]) == SectionText(es) + EntryLine(e)
  {
    assert (es + [e])[..|es|] == es;
  }

  // ---- What can be printed and read back ----

  predicate Free(s: string, chars: string) {
    forall k :: 0 <= k < |s| ==> s[k] !in chars
  }

  predicate GoodKey(key: string) {
    key != "" && Free(key, " =\t;\n\0") && key[0] !in "#\r["
  }

  // No blanks around it; it may be empty.
  predicate GoodValue(v: string) {
    Trim(v) == v && Free(v, "=\t\r,\n;\0")
  }

  predicate GoodList(key: string, values: seq<string>) {
    GoodKey(key) && values != [] && forall i :: 0 <= i < |values| ==> GoodValue(values[i])
  }

  // A printed line that fits the buffer and the array of values.
  predicate FitsLine(e: Entry) {
    |ListIn(e)| <= 127 && |EntryLine(e)| < 4096
  }

  predicate GoodEntry(e: Entry) {
    GoodList(e.key, ListIn(e)) && FitsLine(e)
  }

  // ---- One line ----

  function Spaced(values: seq<string>): (fields: seq<string>)
    ensures |fields| == |values|
  {
    if values == [] then [] else [" " + values[0]] + Spaced(values[1..])
  }

  lemma FreeToken(s: string, chars: string, delims: string)
    requires Free(s, chars) && forall c :: c in delims ==> c in chars
    ensures forall c :: c in s ==> c !in delims
  {
  }

  lemma SpacedToken(v: string)
    requires GoodValue(v)
    ensures forall c :: c in " " + v ==> c !in VALUE_DELIMS
  {
    FreeToken(v, "=\t\r,\n;\0", VALUE_DELIMS);
  }

  lemma TokenAndRest(v: string, d: char, rest: string)
    requires GoodValue(v) && d in VALUE_DELIMS
    ensures Tokens(" " + v + [d] + rest, VALUE_DELIMS) == [" " + v] + Tokens(rest, VALUE_DELIMS)
  {
    SpacedToken(v);
    var s := " " + v + [d] + rest;
    SplitToken(" " + v, d, rest, VALUE_DELIMS);
    assert s[0] == ' ';
    assert SkipLeading(s, VALUE_DELIMS) == s;
  }

  lemma LastValue(v: string)
    requires GoodValue(v)
    ensures Tokens(" " + v + "\n", VALUE_DELIMS) == [" " + v]
  {
    TokenAndRest(v, '\n', "");
    assert " " + v + ['\n'] + "" == " " + v + "\n";
    assert Tokens("", VALUE_DELIMS) == [];
  }

  lemma CommaAndBlank(v: string, more: string)
    ensures " " + (v + ", " + more) + "\n" == " " + v + [','] + (" " + more + "\n")
  {
  }

  // The printed values are tokens with one blank in front.
  lemma {:induction false} TokensOfJoined(values: seq<string>)
    requires values != [] && forall i :: 0 <= i < |values| ==> GoodValue(values[i])
    ensures Tokens(" " + Joined(values) + "\n", VALUE_DELIMS) == Spaced(values)
    decreases |values|
  {
    var v, more := values[0], values[1..];
    if more == [] {
      LastValue(v);
      assert Spaced(more) == [];
    } else {
      CommaAndBlank(v, Joined(more));
      TokenAndRest(v, ',', " " + Joined(more) + "\n");
      TokensOfJoined(more);
    }
  }

  lemma TrimSpaced(v: string)
    requires GoodValue(v)
    ensures Trim(" " + v) == v
  {
    assert (" " + v)[1..] == v;
    assert SkipLeading(" " + v, " ") == SkipLeading(v, " ");
  }

  lemma SpacedAt(values: seq<string>, i: nat)
    requires i < |values|
    ensures Spaced(values)[i] == " " + values[i]
  {
    if i == 0 {
    } else {
      SpacedAt(values[1..], i - 1);
    }
  }

  lemma TrimmedSpaced(values: seq<string>)
    requires forall i :: 0 <= i < |values| ==> GoodValue(values[i])
    ensures Trimmed(Spaced(values)) == values
  {
    forall i | 0 <= i < |values| ensures values[i] == Trim(Spaced(values)[i]) {
      SpacedAt(values, i);
      TrimSpaced(values[i]);
    }
    TrimmedAt(Spaced(values), values);
  }

  lemma {:induction false} JoinedFree(values: seq<string>, chars: string)
    requires forall i :: 0 <= i < |values| ==> Free(values[i], chars)
    requires ',' !in chars && ' ' !in chars
    ensures Free(Joined(values), chars)
    decreases |values|
  {
    if |values| <= 1 {
    } else {
      JoinedFree(values[1..], chars);
    }
  }

  lemma SameTokens(a: string, b: string, delims: string)
    requires SkipLeading(a, delims) == SkipLeading(b, delims)
    ensures Tokens(a, delims) == Tokens(b, delims)
  {
  }

  lemma SkipEquals(rest: string)
    requires rest != "" && rest[0] == ' '
    ensures SkipLeading("=" + rest, VALUE_DELIMS) == SkipLeading(rest, VALUE_DELIMS)
  {
    assert ("=" + rest)[1..] == rest;
  }

  lemma EqualsAndBlank(more: string)
    ensures "= " + more + "\n" == "=" + (" " + more + "\n")
  {
  }

  // The tail of a line behind the key: "= v1, ..., vn".
  lemma FieldsOfTail(values: seq<string>)
    requires values != [] && forall i :: 0 <= i < |values| ==> GoodValue(values[i])
    ensures Fields("= " + Joined(values) + "\n") == Spaced(FirstOnes(values))
  {
    var rest := " " + Joined(values) + "\n";
    EqualsAndBlank(Joined(values));
    SkipEquals(rest);
    SameTokens("=" + rest, rest, VALUE_DELIMS);
    TokensOfJoined(values);
    FirstSpaced(values);
  }

  lemma FirstSpaced(values: seq<string>)
    ensures FirstOnes(Spaced(values)) == Spaced(FirstOnes(values))
  {
    forall i | 0 <= i < |FirstOnes(values)| ensures Spaced(values)[i] == Spaced(FirstOnes(values))[i] {
      SpacedAt(values, i);
      SpacedAt(FirstOnes(values), i);
    }
  }

  // A printed line parses into its key and its values, the first 127 of them.
  lemma PrintedLineParses(e: Entry)
    requires GoodList(e.key, ListIn(e))
    ensures ParseParameter(EntryLine(e)) ==
            Some((e.key, if |ListIn(e)| <= 127 then ListIn(e) else ListIn(e)[..127]))
  {
    var values := ListIn(e);
    var tail := "= " + Joined(values) + "\n";
    assert EntryLine(e) == e.key + [' '] + tail;
    LineFree(e);
    WholeToken(EntryLine(e), ";");
    FreeToken(e.key, " =\t;\n\0", KEY_DELIMS);
    SplitToken(e.key, ' ', tail, KEY_DELIMS);
    FieldsOfTail(values);
    TrimmedSpaced(FirstOnes(values));
    FirstOnesAre(values);
  }

  lemma FirstOnesAre(values: seq<string>)
    ensures FirstOnes(values) == if |values| <= 127 then values else values[..127]
  {
    assert values[..|values|] == values;
  }

  lemma LineFree(e: Entry)
    requires GoodList(e.key, ListIn(e))
    ensures Free(e.key + " = " + Joined(ListIn(e)), ";\n\0")
    ensures forall c :: c in EntryLine(e) ==> c !in ";" && c != NUL
    ensures EntryLine(e)[0] == e.key[0]
  {
    forall i | 0 <= i < |ListIn(e)| ensures Free(ListIn(e)[i], ";\n\0") {
      assert GoodValue(ListIn(e)[i]);
    }
    JoinedFree(ListIn(e), ";\n\0");
  }
}
