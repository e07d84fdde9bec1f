// How the server reads what the bot sends (section 2.3.1 of RFC 1459): one
// command a line, its verb up to the first blank.  A reference for the texts that
// the other modules queue; none of their functions is used in it.
module IrcText {
  import opened Options
  import opened CString
  import opened Framing

  datatype Heard =
    | Said(target: string, text: string)
    | Joined(entry: string)
    | Parted(entry: string)
    | Nicked(nick: string)
    | Quitted
    | Unheard

  const EOL := "\r\n"

  // A message goes to what stands before the next blank; its text stands behind
  // the colon there.
  function HearMessage(args: string): Heard {
    match After(args, " ")
    case None => Unheard
    case Some(rest) => if rest != "" && rest[0] == ':' then Said(Before(args, " "), rest[1..]) else Unheard
  }

  function Hear(line: string): Heard {
    var verb := Before(line, " ");
    if verb == "QUIT" then Quitted
    else match After(line, " ")
      case None => Unheard
      case Some(args) =>
        if verb == "PRIVMSG" then HearMessage(args)
        else if verb == "JOIN" then Joined(args)
        else if verb == "PART" then Parted(args)
        else if verb == "NICK" then Nicked(args)
        else Unheard
  }

  // The finished lines of a text, as they are heard.
  function HeardIn(text: string): seq<Heard>
    decreases |text|
  {
    match After(text, EOL)
    case None => []
    case Some(rest) => [Hear(Before(text, EOL))] + HeardIn(rest)
  }

  // One word of a line.
  predicate Word(w: string) {
    Plain(w) && ' ' !in w
  }

  predicate Finished(text: string) {
    text == "" || IsEol(text[|text| - 1])
  }

  lemma EolChars(c: char)
    ensures c in EOL <==> IsEol(c)
  {
  }

  // ---- Texts one after the other ----

  // The first line end of a finished text that is not empty.
  lemma FirstEnd(text: string) returns (n: nat)
    requires Finished(text) && text != ""
    ensures n < |text| && Before(text, EOL) == text[..n] && After(text, EOL) == Some(text[n + 1..])
    ensures text[n] in EOL && Finished(text[n + 1..]) && forall k :: 0 <= k < n ==> text[k] !in EOL
  {
    n := |Before(text, EOL)|;
    EolChars(text[|text| - 1]);
    assert forall k :: 0 <= k < n ==> text[k] == Before(text, EOL)[k];
  }

  // The first line of a text, and what follows it.
  lemma HeardFirst(text: string, line: string, rest: string)
    requires Before(text, EOL) == line && After(text, EOL) == Some(rest)
    ensures HeardIn(text) == [Hear(line)] + HeardIn(rest)
  {
  }

  lemma CutFirst(a: string, b: string, n: nat)
    requires n < |a| && a[n] in EOL && forall k :: 0 <= k < n ==> a[k] !in EOL
    ensures Before(a + b, EOL) == a[..n] && After(a + b, EOL) == Some(a[n + 1..] + b)
  {
    CutValue(a + b, n, EOL);
    assert (a + b)[..n] == a[..n] && (a + b)[n + 1..] == a[n + 1..] + b;
  }

  lemma {:induction false} HeardConcat(a: string, b: string, heard: seq<Heard>)
    requires Finished(a) && heard == HeardIn(b)
    ensures HeardIn(a + b) == HeardIn(a) + heard
    decreases |a|
  {
    if a == "" {
      assert a + b == b;
    } else {
      var n := FirstEnd(a);
      HeardConcat(a[n + 1..], b, heard);
      ConcatStep(a, b, n, HeardIn(a[n + 1..]), heard);
    }
  }

  lemma ConcatStep(a: string, b: string, n: nat, first: seq<Heard>, heard: seq<Heard>)
    requires n < |a| && Before(a, EOL) == a[..n] && After(a, EOL) == Some(a[n + 1..])
    requires a[n] in EOL && forall k :: 0 <= k < n ==> a[k] !in EOL
    requires HeardIn(a[n + 1..]) == first && HeardIn(a[n + 1..] + b) == first + heard
    ensures HeardIn(a + b) == HeardIn(a) + heard
  {
    CutFirst(a, b, n);
    HeardFirst(a, a[..n], a[n + 1..]);
    HeardFirst(a + b, a[..n], a[n + 1..] + b);
    Grouped([Hear(a[..n])], first, heard);
  }

  lemma Grouped(x: seq<Heard>, y: seq<Heard>, z: seq<Heard>)
    ensures x + (y + z) == x + y + z
  {
  }

  lemma FinishedConcat(a: string, b: string)
    requires Finished(a) && Finished(b)
    ensures Finished(a + b)
  {
    if b == "" {
      assert a + b == a;
    }
  }

  // ---- One line ----

  // Text that ends with a line end holds one line if and only if no other stands in it.
  lemma OneLine(line: string)
    ensures Plain(line) ==> HeardIn(line + "\n") == [Hear(line)]
    ensures |HeardIn(line + "\n")| >= 1 && (|HeardIn(line + "\n")| == 1 ==> Plain(line))
  {
    var text := line + "\n";
    var n := FirstEnd(text);
    if Plain(line) {
      assert forall k :: 0 <= k < |line| ==> text[k] == line[k];
      assert n == |line|;
      assert text[..n] == line && text[n + 1..] == "";
    } else {
      var k :| 0 <= k < |line| && IsEol(line[k]);
      assert text[k] == line[k] && line[k] in EOL;
      assert n <= k < |line|;
      var m := FirstEnd(text[n + 1..]);
    }
  }

  // A line that carries a verb and its arguments.
  lemma VerbSplits(verb: string, args: string)
    requires ' ' !in verb
    ensures Before(verb + " " + args, " ") == verb && After(verb + " " + args, " ") == Some(args)
  {
    SplitToken(verb, ' ', args, " ");
  }

  // A line is heard as it is meant if and only if its arguments hold no line end.
  lemma VerbHeard(verb: string, args: string)
    requires verb in ["JOIN", "PART", "NICK"]
    ensures HeardIn(verb + " " + args + "\n") ==
              [if verb == "JOIN" then Joined(args) else if verb == "PART" then Parted(args) else Nicked(args)]
            <==> Plain(args)
  {
    VerbSplits(verb, args);
    OneLine(verb + " " + args);
    PlainConcat(verb + " ", args);
    PlainVerb(verb);
  }

  lemma PlainVerb(verb: string)
    requires verb in ["JOIN", "PART", "NICK", "PRIVMSG"]
    ensures Plain(verb + " ")
  {
  }

  lemma PlainConcat(a: string, b: string)
    ensures Plain(a + b) <==> Plain(a) && Plain(b)
  {
    assert forall k :: 0 <= k < |a| ==> (a + b)[k] == a[k];
    assert forall k :: 0 <= k < |b| ==> (a + b)[|a| + k] == b[k];
  }

  lemma MessageSplits(target: string, text: string)
    ensures HearMessage(target + " :" + text) == Said(target, text) <==> ' ' !in target
  {
    var args := target + " :" + text;
    if ' ' !in target {
      assert args == target + " " + (":" + text);
      VerbSplits(target, ":" + text);
      assert (":" + text)[1..] == text;
    } else {
      assert Before(args, " ") != target;
    }
  }

  // A message is heard as it is meant, and alone, if and only if its target is one
  // word and its text holds no line end.
  lemma MessageHeard(target: string, text: string)
    ensures HeardIn("PRIVMSG " + target + " :" + text + "\n") == [Said(target, text)] <==> Word(target) && Plain(text)
  {
    var line := "PRIVMSG " + target + " :" + text;
    HearPrivmsg(target, text, line);
    OneLine(line);
    PlainMessage(target, text);
  }

  lemma HearPrivmsg(target: string, text: string, line: string)
    requires line == "PRIVMSG " + target + " :" + text
    ensures Hear(line) == Said(target, text) <==> ' ' !in target
  {
    assert line == "PRIVMSG" + " " + (target + " :" + text);
    VerbSplits("PRIVMSG", target + " :" + text);
    MessageSplits(target, text);
  }

  lemma PlainMessage(target: string, text: string)
    ensures Plain("PRIVMSG " + target + " :" + text) <==> Plain(target) && Plain(text)
  {
    PlainVerb("PRIVMSG");
    PlainConcat("PRIVMSG " + target + " :", text);
    PlainConcat("PRIVMSG " + target, " :");
    PlainConcat("PRIVMSG ", target);
  }

  lemma MessageFinished(target: string, text: string)
    ensures Finished("PRIVMSG " + target + " :" + text + "\n")
    ensures HeardIn("PRIVMSG " + target + " :" + text + "\n") != []
  {
    OneLine("PRIVMSG " + target + " :" + text);
  }

  lemma QuitHeard(args: string, line: string)
    requires line == "QUIT" + args && Plain(args) && (args != "" ==> args[0] == ' ')
    ensures HeardIn(line + "\n") == [Quitted]
  {
    QuitVerb(args);
    PlainConcat("QUIT", args);
    OneLine(line);
  }

  lemma QuitVerb(args: string)
    requires args != "" ==> args[0] == ' '
    ensures Before("QUIT" + args, " ") == "QUIT" && Plain("QUIT")
  {
    if args == "" {
      assert "QUIT" + args == "QUIT";
      WholeToken("QUIT", " ");
    } else {
      assert "QUIT" + args == "QUIT" + [' '] + args[1..];
      SplitToken("QUIT", ' ', args[1..], " ");
    }
  }

  // ---- Whom the messages reach ----

  function Recipients(heard: seq<Heard>): seq<string> {
    if heard == [] then []
    else (if heard[0].Said? then [heard[0].target] else []) + Recipients(heard[1..])
  }
}
