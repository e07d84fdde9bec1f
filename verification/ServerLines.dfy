// What the lines of the server ask for, line by line: the numeric replies and
// commands that matter, the sender of a message, and what one such line read on
// its own does to flags, timers and output.
module ServerLines {
  import opened Options
  import opened CString
  import opened Daemon
  import Framing
  import HookWire

  // ---- Which line asks for what ----

  // Nothing in it ends the line as a C string or marks it as CTCP.
  predicate Clear(s: string) {
    '\0' !in s && '\U{0001}' !in s
  }

  // A piece of a line that strsep(" :") takes whole.
  predicate Piece(s: string) {
    Clear(s) && ' ' !in s && ':' !in s
  }

  // :sender code, perhaps with more behind it
  function ServerLine(sender: string, code: string, rest: Option<string>): string {
    ":" + sender + " " + code + (if rest.Some? then " " + rest.value else "")
  }

  lemma NoNul(line: string)
    requires '\0' !in line
    ensures AsC(line) == line
  {
    WholeToken(line, [NUL]);
  }

  lemma ClearConcat(a: string, b: string)
    ensures Clear(a + b) <==> Clear(a) && Clear(b)
  {
    assert forall c :: c in a + b <==> c in a || c in b;
  }

  lemma LineIsClear(sender: string, code: string, rest: Option<string>)
    requires Clear(sender) && Clear(code) && (rest.Some? ==> Clear(rest.value))
    ensures Clear(ServerLine(sender, code, rest)) && ServerLine(sender, code, rest)[0] == ':'
    ensures ServerLine(sender, code, rest)[1..] ==
            sender + " " + code + (if rest.Some? then " " + rest.value else "")
  {
    var more := if rest.Some? then " " + rest.value else "";
    ClearConcat(":" + sender + " " + code, more);
    ClearConcat(":" + sender + " ", code);
    ClearConcat(":" + sender, " ");
    ClearConcat(":", sender);
    if rest.Some? {
      ClearConcat(" ", rest.value);
    }
  }

  // The first cut takes the sender, the second the code.
  lemma SenderCut(sender: string, code: string, rest: Option<string>, str: string)
    requires ' ' !in sender && ':' !in sender
    requires str == sender + " " + code + (if rest.Some? then " " + rest.value else "")
    ensures Before(str, SEPARATORS) == sender
    ensures After(str, SEPARATORS) == Some(code + (if rest.Some? then " " + rest.value else ""))
  {
    var more := code + (if rest.Some? then " " + rest.value else "");
    assert str == sender + [' '] + more;
    SplitToken(sender, ' ', more, SEPARATORS);
  }

  lemma CodeCut(code: string, rest: Option<string>, str: string)
    requires ' ' !in code && ':' !in code && str == code + (if rest.Some? then " " + rest.value else "")
    ensures Before(str, SEPARATORS) == code && After(str, SEPARATORS) == rest
  {
    if rest.Some? {
      assert str == code + [' '] + rest.value;
      SplitToken(code, ' ', rest.value, SEPARATORS);
    } else {
      assert str == code;
      WholeToken(code, SEPARATORS);
    }
  }

  // What a code asks for: the end of the message of the day, or its absence, makes
  // the bot ready; 433 says that its nick is taken and 474 that it is banned.
  function Meaning(sender: string, code: string, rest: Option<string>): Command {
    match code
    case "PRIVMSG" => Privmsg(sender, rest)
    case "376" => Ready("376")
    case "422" => Ready("422")
    case "433" => NickTaken
    case "474" => Banned(rest)
    case "INVITE" => Other("INVITE", rest)
    case "KICK" => Other("KICK", rest)
    case "366" => Other("366", rest)
    case "473" => Other("473", rest)
    case "475" => Other("475", rest)
    case _ => Nothing
  }

  lemma OtherCodes(code: string)
    ensures code in OTHERS <==>
            code == "INVITE" || code == "KICK" || code == "366" || code == "473" || code == "475"
  {
  }

  lemma ChosenMeans(sender: string, code: string, rest: Option<string>)
    ensures Chosen(sender, code, rest) == Meaning(sender, code, rest)
  {
    OtherCodes(code);
  }

  // Every line of the server asks for what its code means, whoever sends it and
  // whatever stands behind the code.
  lemma CodesAskFor(sender: string, code: string, rest: Option<string>)
    requires Piece(sender) && Piece(code) && (rest.Some? ==> Clear(rest.value))
    ensures Asked(ServerLine(sender, code, rest)) == Meaning(sender, code, rest)
  {
    var line := ServerLine(sender, code, rest);
    LineIsClear(sender, code, rest);
    NoNul(line);
    SenderCut(sender, code, rest, line[1..]);
    CodeCut(code, rest, After(line[1..], SEPARATORS).value);
    ChosenMeans(sender, code, rest);
    ServerAsks(line);
  }

  lemma ServerAsks(line: string)
    requires line != "" && line[0] == ':' && Clear(line)
    ensures Dispatch(line) == Switch(line[1..])
  {
  }

  // A message keeps its sender if and only if neither a blank nor a colon is in it:
  // with an IPv6 host there is none, as strsep cuts at the colons too.
  lemma SenderKnown(sender: string, rest: Option<string>)
    requires Clear(sender) && (rest.Some? ==> Clear(rest.value))
    ensures Asked(ServerLine(sender, "PRIVMSG", rest)) == Privmsg(sender, rest) <==> ' ' !in sender && ':' !in sender
  {
    var line := ServerLine(sender, "PRIVMSG", rest);
    if ' ' !in sender && ':' !in sender {
      PrivmsgCode();
      CodesAskFor(sender, "PRIVMSG", rest);
    } else {
      LineIsClear(sender, "PRIVMSG", rest);
      NoNul(line);
      ServerAsks(line);
      WhoIsWhole(line[1..], sender);
    }
  }

  lemma PrivmsgCode()
    ensures Piece("PRIVMSG")
  {
  }

  lemma ChosenSender(who: string, code: string, rest: Option<string>)
    ensures Chosen(who, code, rest).Privmsg? ==> Chosen(who, code, rest).who == who
  {
  }

  lemma WhoIsWhole(str: string, sender: string)
    requires ' ' in sender || ':' in sender
    ensures Switch(str).Privmsg? ==> Switch(str).who != sender
  {
    var who := Before(str, SEPARATORS);
    assert ' ' !in who && ':' !in who by {
      assert ' ' in SEPARATORS && ':' in SEPARATORS;
    }
    if After(str, SEPARATORS).Some? {
      var tmp := After(str, SEPARATORS).value;
      ChosenSender(who, Before(tmp, SEPARATORS), After(tmp, SEPARATORS));
    }
  }

  // So the sender of a message holds neither, whatever the line.
  lemma SendersHaveNoColon(line: string)
    ensures Asked(line).Privmsg? ==> ' ' !in Asked(line).who && ':' !in Asked(line).who
  {
    var text := AsC(line);
    if text != "" && text[0] == ':' && '\U{0001}' !in text {
      if Switch(text[1..]).Privmsg? {
        var who := Switch(text[1..]).who;
        if ' ' in who || ':' in who {
          WhoIsWhole(text[1..], who);
        }
      }
    }
  }

  // A line with a CTCP mark is handed on without its colon.
  lemma CtcpAsks(text: string)
    requires '\0' !in text && '\U{0001}' in text
    ensures Asked(":" + text) == Ctcp(text)
  {
    NoNul(":" + text);
    assert (":" + text)[1..] == text && '\U{0001}' in ":" + text;
  }

  // A line without a colon in front asks for something if it is a PING.
  lemma VerbAsks(verb: string, separator: char, args: string)
    requires Piece(verb) && verb != "" && separator in " :" && '\0' !in args
    ensures Asked(verb + [separator] + args) == if verb == "PING" then Ping(args) else Nothing
  {
    var line := verb + [separator] + args;
    assert forall c :: c in line ==> c in verb || c == separator || c in args;
    NoNul(line);
    SplitToken(verb, separator, args, SEPARATORS);
    assert line[0] == verb[0];
  }

  // ---- One line, read on its own ----

  lemma ReadAlone(line: string)
    requires Framing.Plain(line)
    ensures Framing.ParseAll(line + "\n") == ([line], "")
  {
    HookWire.OneLine(line);
    assert Framing.ParseAll("") == ([], "");
    assert [line] + [] == [line];
  }

  lemma ReactAlone(s: State, line: string, c: Command, replies: Replies)
    requires c == Asked(line)
    ensures ReactAll(s, AskedAll([line]), replies, 0) == React(s, c, replies(0, c))
  {
    assert [line][1..] == [];
    assert AskedAll([line]) == [c];
    assert [c][1..] == [];
  }

  lemma ReadGives(s: State, received: string, replies: Replies, line: string, s1: State)
    requires s.input == "" && received != "" && Framing.ParseAll(received) == ([line], "")
    requires s1 == ReactAll(s, AskedAll([line]), replies, 0)
    ensures Read(s, received, replies) == if s1.out != "" then Register(s1, true) else AddAgain(s1)
  {
    assert "" + received == received;
    assert s.(input := "") == s;
  }

  // What the code of a line does to the flags and to the timers.
  predicate Marks(s: State, s': State, code: string) {
    s'.mode == (if code == "376" || code == "422" then s.mode.(connected := true)
                else if code == "433" then s.mode.(nickUsed := true)
                else if code == "474" then s.mode.(banned := true)
                else s.mode) &&
    s'.timers == (if code == "433" && !s.mode.nickUsed then s.timers.(nick := s.timers.nick + 1)
                  else if code == "474" then s.timers.(rejoin := s.timers.rejoin + 1)
                  else s.timers)
  }

  // Codes that are answered.
  predicate Answered(s: State, code: string) {
    code == "376" || code == "422" || (code == "433" && !s.mode.connected) || code == "PRIVMSG" || code == "INVITE" ||
    code == "KICK" || code == "366" || code == "473" || code == "475"
  }

  lemma MeaningMarks(s: State, sender: string, code: string, rest: Option<string>, c: Command, reply: string)
    requires c == Meaning(sender, code, rest)
    ensures Marks(s, React(s, c, reply), code)
  {
  }

  lemma MeaningAnswered(s: State, sender: string, code: string, rest: Option<string>, c: Command, reply: string)
    requires c == Meaning(sender, code, rest)
    ensures React(s, c, reply).out == if Answered(s, code) then s.out + reply else s.out
  {
  }

  lemma ReactKeepsRest(s: State, c: Command, reply: string)
    ensures var s' := React(s, c, reply);
            s'.input == s.input && s'.watch == s.watch && s'.limiter == s.limiter && s'.broken == s.broken &&
            s'.wire == s.wire && s'.quitSent == s.quitSent
  {
  }

  // A line of the server, read when nothing is left of an earlier one: 376 and 422
  // mark the bot connected; 433 marks its nick used, sets one timer unless it was
  // marked already, and is answered unless the bot is connected; 474 marks it banned
  // and sets a timer; the others change no flag and no timer.
  lemma CodeRead(s: State, e: Event, sender: string, code: string, rest: Option<string>, reply: string)
    requires Invariant(s) && Enabled(s, e) && e.Irc? && e.read && s.input == ""
    requires Piece(sender) && Piece(code) && (rest.Some? ==> Clear(rest.value))
    requires Framing.Plain(ServerLine(sender, code, rest)) && e.received == ServerLine(sender, code, rest) + "\n"
    requires reply == e.replies(0, Meaning(sender, code, rest))
    ensures var s' := Step(s, e);
            Marks(s, s', code) && s'.out == (if Answered(s, code) then s.out + reply else s.out) &&
            s'.watch == Watch(true, s.watch.write || s'.out != "") &&
            s'.input == "" && s'.limiter == s.limiter && s'.broken == s.broken && s'.wire == s.wire &&
            s'.quitSent == s.quitSent
  {
    var line, c, s0 := ServerLine(sender, code, rest), Meaning(sender, code, rest), Unregister(s);
    CodesAskFor(sender, code, rest);
    ReadAlone(line);
    ReactAlone(s0, line, c, e.replies);
    MeaningMarks(s0, sender, code, rest, c, reply);
    MeaningAnswered(s0, sender, code, rest, c, reply);
    ReactKeepsRest(s0, c, reply);
    ReadGives(s0, e.received, e.replies, line, React(s0, c, reply));
    StepIsRead(s, e);
  }

  lemma StepIsRead(s: State, e: Event)
    requires Invariant(s) && Enabled(s, e) && e.Irc? && e.read
    ensures Step(s, e) == Read(Unregister(s), e.received, e.replies)
  {
  }
}
