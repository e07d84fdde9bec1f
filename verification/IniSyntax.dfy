// What the INI reader makes of the other ways to write a line: comments, tabs, and
// separators that the printer does not use.
module IniSyntax {
  import opened Options
  import opened CString
  import opened TableSpec
  import opened IniParser
  import opened Ini
  import opened IniPrinter

  // A line that starts with one of four characters says nothing.
  lemma CommentLine(section: nat, conf: Sections, first: char, rest: string)
    requires section < 6 && |conf| == 6
    requires first == '#' || first == ';' || first == '\r' || first == '\n'
    ensures LineStep(section, conf, [first] + rest) == (section, conf)
  {
  }

  // What follows a semicolon is a comment.
  lemma CommentCut(line: string, comment: string)
    requires ';' !in line
    ensures ParseParameter(line + ";" + comment) == ParseParameter(line)
  {
    SplitToken(line, ';', comment, ";");
    WholeToken(line, ";");
  }

  // A value between two separators, or at the end.
  predicate Separates(d: char) {
    d == '=' || d == '\t' || d == '\r' || d == ',' || d == '\n'
  }

  lemma SeparatorsAre(d: char)
    ensures d in VALUE_DELIMS <==> Separates(d)
  {
  }

  lemma ValueToken(v: string, d: char, rest: string)
    requires GoodValue(v) && v != "" && Separates(d)
    ensures Tokens(v + [d] + rest, VALUE_DELIMS) == [v] + Tokens(rest, VALUE_DELIMS)
  {
    SeparatorsAre(d);
    FreeToken(v, "=\t\r,\n;\0", VALUE_DELIMS);
    SplitToken(v, d, rest, VALUE_DELIMS);
    assert (v + [d] + rest)[0] == v[0];
  }

  lemma LastToken(v: string)
    requires GoodValue(v) && v != ""
    ensures Tokens(v, VALUE_DELIMS) == [v]
  {
    FreeToken(v, "=\t\r,\n;\0", VALUE_DELIMS);
    WholeToken(v, VALUE_DELIMS);
    assert v[0] in v;
  }

  lemma TwoTrimmed(v: string, w: string)
    requires Trim(v) == v && Trim(w) == w
    ensures Trimmed([v, w]) == [v, w]
  {
    assert [v, w][..1] == [v] && [v][..0] == [];
  }

  lemma NoComment(key: string, d: char, v: string, e: char, w: string, line: string)
    requires Free(key, " =\t;\n\0") && d != ';' && e != ';' && GoodValue(v) && GoodValue(w)
    requires line == key + [d] + (v + [e] + w)
    ensures Before(line, ";") == line
  {
    assert forall c :: c in line ==> c in key || c == d || c in v || c == e || c in w;
    WholeToken(line, ";");
  }

  lemma KeyAndValues(line: string, key: string, rest: string, values: seq<string>)
    requires Before(line, ";") == line && Before(line, KEY_DELIMS) == key && After(line, KEY_DELIMS) == Some(rest)
    requires Tokens(rest, VALUE_DELIMS) == values && 0 < |values| < 127 && Trimmed(values) == values
    ensures ParseParameter(line) == Some((key, values))
  {
  }

  // The key ends at a blank, an equals sign or a tab, and any of five characters
  // separates two values.
  lemma AnySeparator(key: string, d: char, v: string, e: char, w: string)
    requires Free(key, " =\t;\n\0") && (d == ' ' || d == '=' || d == '\t') && Separates(e)
    requires GoodValue(v) && v != "" && GoodValue(w) && w != ""
    ensures ParseParameter(key + [d] + (v + [e] + w)) == Some((key, [v, w]))
  {
    var rest := v + [e] + w;
    NoComment(key, d, v, e, w, key + [d] + rest);
    FreeToken(key, " =\t;\n\0", KEY_DELIMS);
    SplitToken(key, d, rest, KEY_DELIMS);
    ValueToken(v, e, w);
    LastToken(w);
    TwoTrimmed(v, w);
    assert [v] + [w] == [v, w];
    KeyAndValues(key + [d] + rest, key, rest, [v, w]);
  }

  // A line as it is printed.
  lemma PrintedExample()
    ensures EntryLine(Entry("forward", Some(["#a", "#b"]))) == "forward = #a, #b\n"
  {
    var values := ["#a", "#b"];
    assert values[1..] == ["#b"];
    assert Joined(values) == "#a" + ", " + "#b";
    assert "forward" + " = " + ("#a" + ", " + "#b") + "\n" == "forward = #a, #b\n";
  }
}
