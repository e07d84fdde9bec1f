// What a forwarded syslog message looks like: the names of its priority, its tag,
// and the colours that a client shows it in.
module SyslogTexts {
  import opened Options
  import opened CString
  import opened Syslog
  import TextLaws

  // ---- Names ----

  // The priorities of the examples in section 5.4 of RFC 3164, and the largest one.
  lemma PriExamples()
    ensures Pattern(FACILITIES[0 / 8], SEVERITIES[0 % 8]) == "kern.emerg"
    ensures Pattern(FACILITIES[13 / 8], SEVERITIES[13 % 8]) == "user.notice"
    ensures Pattern(FACILITIES[34 / 8], SEVERITIES[34 % 8]) == "auth.crit"
    ensures Pattern(FACILITIES[165 / 8], SEVERITIES[165 % 8]) == "local4.notice"
    ensures Pattern(FACILITIES[191 / 8], SEVERITIES[191 % 8]) == "local7.debug"
  {
    assert FACILITIES[0] == "kern" && FACILITIES[1] == "user" && FACILITIES[4] == "auth";
    assert FACILITIES[20] == "local4" && FACILITIES[23] == "local7";
  }

  // The eight local facilities are numbered, and three names stand for two codes.
  lemma LocalNames(f: nat)
    requires 16 <= f < 24
    ensures FACILITIES[f] == "local" + ["01234567"[f - 16]]
  {
    assert "local" + ['0'] == "local0" && "local" + ['1'] == "local1" && "local" + ['2'] == "local2";
    assert "local" + ['3'] == "local3" && "local" + ['4'] == "local4" && "local" + ['5'] == "local5";
    assert "local" + ['6'] == "local6" && "local" + ['7'] == "local7";
  }

  lemma SharedNames(f: nat)
    requires f < 24
    ensures FACILITIES[f] == "auth" <==> f == 4 || f == 10
    ensures FACILITIES[f] == "authpriv" <==> f == 13 || f == 14
    ensures FACILITIES[f] == "cron" <==> f == 9 || f == 15
  {
  }

  // ---- The tag ----

  // What stands in front of a bracket is shown, unless it is a path.
  lemma TagShown(name: string, pid: string, base: string)
    requires '[' !in name
    ensures Shown(name, base) == Shown(name + "[" + pid, base) == if name != "" && name[0] == '/' then base else name
  {
    WholeToken(name, "[");
    SplitToken(name, '[', pid, "[");
  }

  // ---- The order of the lookups ----

  lemma OneKeyMore(mm: TextLaws.Multimap, keys: seq<string>, key: string, targets: seq<string>)
    requires targets == Targets(mm, keys)
    ensures Targets(mm, keys + [key]) == targets + TextLaws.ListOf(mm, key)
  {
    assert (keys + [key])[..|keys|] == keys;
  }

  lemma KeysInOrder(a: string, b: string, c: string, d: string)
    ensures [] + [a] == [a] && [a] + [b] == [a, b] && [a, b] + [c] == [a, b, c] && [a, b, c] + [d] == [a, b, c, d]
  {
  }

  lemma FourTargets(mm: TextLaws.Multimap, a: string, b: string, c: string, d: string)
    ensures Targets(mm, [a, b, c, d]) ==
            TextLaws.ListOf(mm, a) + TextLaws.ListOf(mm, b) + TextLaws.ListOf(mm, c) + TextLaws.ListOf(mm, d)
  {
    var one := TextLaws.ListOf(mm, a);
    var two := one + TextLaws.ListOf(mm, b);
    KeysInOrder(a, b, c, d);
    assert [] + one == one;
    OneKeyMore(mm, [], a, []);
    OneKeyMore(mm, [a], b, one);
    OneKeyMore(mm, [a, b], c, two);
    OneKeyMore(mm, [a, b, c], d, two + TextLaws.ListOf(mm, c));
  }

  // Everything first, then all severities, all facilities, and this one of each.
  lemma LookupOrder(mm: TextLaws.Multimap, fac: string, sev: string)
    ensures Targets(mm, Searches(fac, sev)) ==
            TextLaws.ListOf(mm, "*.*") + TextLaws.ListOf(mm, fac + ".*") +
            TextLaws.ListOf(mm, "*." + sev) + TextLaws.ListOf(mm, fac + "." + sev)
  {
    SearchStrings(fac, sev);
    FourTargets(mm, "*.*", fac + ".*", "*." + sev, fac + "." + sev);
  }

  // ---- Colours ----

  const BOLD := '\U{0002}'
  const COLOR := '\U{0003}'

  predicate Digit(c: char) {
    '0' <= c <= '9'
  }

  // The digits of a colour code: at most two.
  function CodeLength(s: string): (n: nat)
    ensures n <= |s|
  {
    if s == "" || !Digit(s[0]) then 0 else if |s| == 1 || !Digit(s[1]) then 1 else 2
  }

  // What is left to read once a client has taken out bold and colour codes.
  function Uncolored(s: string): string {
    if s == "" then ""
    else if s[0] == BOLD then Uncolored(s[1..])
    else if s[0] == COLOR then Uncolored(s[1 + CodeLength(s[1..])..])
    else [s[0]] + Uncolored(s[1..])
  }

  predicate NoCodes(s: string) {
    BOLD !in s && COLOR !in s
  }

  lemma {:induction false} UncoloredText(text: string, rest: string)
    requires NoCodes(text)
    ensures Uncolored(text + rest) == text + Uncolored(rest)
    decreases |text|
  {
    if text == "" {
      assert text + rest == rest;
    } else {
      assert (text + rest)[1..] == text[1..] + rest;
      UncoloredText(text[1..], rest);
      assert [text[0]] + (text[1..] + Uncolored(rest)) == text + Uncolored(rest);
    }
  }

  lemma UncoloredBold(rest: string)
    ensures Uncolored([BOLD] + rest) == Uncolored(rest)
  {
    assert ([BOLD] + rest)[1..] == rest;
  }

  // The length of a code in front of what is no digit.
  lemma CodeEnds(code: string, rest: string)
    requires |code| <= 2 && (forall k :: 0 <= k < |code| ==> Digit(code[k]))
    requires rest != "" && (|code| < 2 ==> !Digit(rest[0]))
    ensures CodeLength(code + rest) == |code|
  {
    assert forall k :: 0 <= k < |code| ==> (code + rest)[k] == code[k];
    assert (code + rest)[|code|] == rest[0];
  }

  lemma UncoloredCode(code: string, rest: string)
    requires |code| <= 2 && (forall k :: 0 <= k < |code| ==> Digit(code[k]))
    requires rest != "" && (|code| < 2 ==> !Digit(rest[0]))
    ensures Uncolored([COLOR] + code + rest) == Uncolored(rest)
  {
    CodeEnds(code, rest);
    CodeTaken(code, rest, [COLOR] + code + rest);
  }

  lemma CodeTaken(code: string, rest: string, s: string)
    requires s == [COLOR] + code + rest && CodeLength(code + rest) == |code|
    ensures Uncolored(s) == Uncolored(rest)
  {
    assert s[1..] == code + rest && s[1 + |code|..] == rest;
  }

  lemma ColorCodes(severity: nat)
    requires severity < 8
    ensures 1 <= |COLORS[severity]| <= 2 && forall k :: 0 <= k < |COLORS[severity]| ==> Digit(COLORS[severity][k])
    ensures COLORS[severity] == "5" <==> severity <= 1
  {
  }

  // What is left of the tag when its first digits are taken for a colour code.
  function Kept(tag: string): string {
    tag[CodeLength(tag)..]
  }

  // The tag between two colour codes.
  lemma TagBetween(tag: string, rest: string)
    requires NoCodes(tag)
    ensures Uncolored([COLOR] + tag + ([COLOR] + rest)) == Kept(tag) + Uncolored([COLOR] + rest)
  {
    var s := [COLOR] + tag + ([COLOR] + rest);
    var n := CodeLength(tag);
    assert s[1..] == tag + ([COLOR] + rest);
    assert forall k :: 0 <= k < |tag| ==> s[1..][k] == tag[k];
    assert s[1..][|tag|] == COLOR;
    assert CodeLength(s[1..]) == n;
    assert s[1 + n..] == Kept(tag) + ([COLOR] + rest);
    UncoloredText(Kept(tag), [COLOR] + rest);
  }

  // The end of a coloured message, from the colour behind the tag on.
  lemma ClosingRead(code: string, msg: string, closing: string)
    requires 1 <= |code| <= 2 && (forall k :: 0 <= k < |code| ==> Digit(code[k])) && NoCodes(msg)
    requires closing == [COLOR] + code + ([BOLD] + ("]" + ([BOLD] + ([COLOR] + "" + (" " + msg)))))
    ensures Uncolored(closing) == "] " + msg
  {
    var last := [COLOR] + "" + (" " + msg);
    assert " " + msg + "" == " " + msg;
    UncoloredText(" " + msg, "");
    UncoloredCode("", " " + msg);
    UncoloredBold(last);
    UncoloredText("]", [BOLD] + last);
    UncoloredBold("]" + ([BOLD] + last));
    UncoloredCode(code, [BOLD] + ("]" + ([BOLD] + last)));
    assert "]" + (" " + msg) == "] " + msg;
  }

  lemma OpeningRead(code: string, tag: string, rest: string, text: string)
    requires 1 <= |code| <= 2 && (forall k :: 0 <= k < |code| ==> Digit(code[k])) && NoCodes(tag)
    requires text == [COLOR] + code + ([BOLD] + ("[" + ([BOLD] + ([COLOR] + tag + ([COLOR] + rest)))))
    ensures Uncolored(text) == "[" + (Kept(tag) + Uncolored([COLOR] + rest))
  {
    var inner := [COLOR] + tag + ([COLOR] + rest);
    TagBetween(tag, rest);
    UncoloredBold(inner);
    UncoloredText("[", [BOLD] + inner);
    UncoloredBold("[" + ([BOLD] + inner));
    UncoloredCode(code, [BOLD] + ("[" + ([BOLD] + inner)));
  }

  lemma StyledInPieces(code: string, tag: string, msg: string)
    ensures "\U{0003}" + code + "\U{0002}[\U{0002}\U{0003}" + tag +
            "\U{0003}" + code + "\U{0002}]\U{0002}\U{0003} " + msg ==
            [COLOR] + code + ([BOLD] + ("[" + ([BOLD] + ([COLOR] + tag +
            ([COLOR] + (code + ([BOLD] + ("]" + ([BOLD] + ([COLOR] + "" + (" " + msg)))))))))))
  {
  }

  // Colours are decoration: without them the message reads like the plain one, the
  // tag in brackets, if and only if the tag does not start with a digit.  Such a
  // digit is taken for a part of the colour code in front of it.
  lemma ColorsAreDecoration(severity: nat, tag: string, msg: string)
    requires severity < 8 && NoCodes(tag) && NoCodes(msg)
    ensures Styled(false, severity, tag, msg) == "[" + tag + "] " + msg
    ensures Uncolored(Styled(true, severity, tag, msg)) == "[" + tag + "] " + msg <==> tag == "" || !Digit(tag[0])
  {
    var code := COLORS[severity];
    ColorCodes(severity);
    StyledInPieces(code, tag, msg);
    var rest := code + ([BOLD] + ("]" + ([BOLD] + ([COLOR] + "" + (" " + msg)))));
    ClosingRead(code, msg, [COLOR] + rest);
    OpeningRead(code, tag, rest, Styled(true, severity, tag, msg));
    assert |Kept(tag)| == |tag| <==> tag == "" || !Digit(tag[0]);
    assert "[" + (Kept(tag) + ("] " + msg)) == "[" + Kept(tag) + "] " + msg;
  }
}
