// The line protocol between the daemon (hooks.c, cmd.c) and the quotes hook
// (quotes/cmd.c): "who:where:args" one way, "nick:channel:text" back.
module HookWire {
  import opened Options
  import opened CString
  import Framing
  import IrcText

  const BLANKS := " \t\r\n"
  const MAX_TOKENS: nat := 128

  // ---- Daemon side: building the arguments ----

  // cmd_build_args: pointers to the first 127 tokens, cut in place.
  method BuildArgs(buf: array<char>) returns (argv: seq<nat>)
    requires IsString(buf[..], 0)
    modifies buf
    ensures |argv| == Min(|Tokens(old(Str(buf[..], 0)), BLANKS)|, 127)
    ensures forall j :: 0 <= j < |argv| ==>
              argv[j] <= buf.Length && Str(buf[..], argv[j]) == Tokens(old(Str(buf[..], 0)), BLANKS)[j]
  {
    ghost var toks := Tokens(Str(buf[..], 0), BLANKS);
    argv := [];
    var i, p := 1, 0;
    assert toks[0..] == toks;
    while i < MAX_TOKENS
      invariant 1 <= i <= MAX_TOKENS && |argv| == i - 1
      invariant Arguments(buf[..], argv, toks, p)
    {
      ghost var was, at := buf[..], p;
      var token: Option<nat>;
      token, p := StrTok(buf, p, BLANKS);
      if token == None {
        break;
      }
      NextArgument(was, buf[..], at, token.value, p, argv, toks);
      argv := argv + [token.value];
      i := i + 1;
    }
    assert i < MAX_TOKENS ==> toks[i - 1..] == [];
  }

  ghost predicate Arguments(s: seq<char>, argv: seq<nat>, toks: seq<string>, p: nat) {
    |argv| <= |toks| && p <= |s| && IsString(s, p) && Tokens(Str(s, p), BLANKS) == toks[|argv|..] &&
    forall j :: 0 <= j < |argv| ==> PointsAt(s, argv[j], toks[j], p)
  }

  lemma NextArgument(was: seq<char>, now: seq<char>, p: nat, q: nat, save: nat, argv: seq<nat>, toks: seq<string>)
    requires |was| == |now| && Arguments(was, argv, toks, p)
    requires TokenCut(was, now, p, BLANKS, Some(q), save)
    ensures Arguments(now, argv + [q], toks, save)
  {
    NextTokens(toks, |argv| + 1, Str(now, q), Tokens(Str(now, save), BLANKS));
    EarlierArguments(was, now, p, save, argv, toks);
    assert PointsAt(now, q, toks[|argv|], save);
  }

  lemma EarlierArguments(was: seq<char>, now: seq<char>, p: nat, save: nat, argv: seq<nat>, toks: seq<string>)
    requires |was| == |now| && Arguments(was, argv, toks, p)
    requires p <= save && p < |was| && was[p] != NUL && now[..p] == was[..p]
    ensures forall j :: 0 <= j < |argv| ==> PointsAt(now, argv[j], toks[j], save)
  {
    forall j | 0 <= j < |argv| ensures PointsAt(now, argv[j], toks[j], save) {
      StrHasNoNul(was, argv[j]);
      StillPointsAt(was, now, argv[j], toks[j], p);
    }
  }

  lemma NextTokens(toks: seq<string>, i: nat, first: string, rest: seq<string>)
    requires 1 <= i <= |toks| + 1 && toks[i - 1..] == [first] + rest
    ensures i <= |toks| && toks[i - 1] == first && toks[i..] == rest
  {
    assert |toks[i - 1..]| == |toks| - (i - 1);
    assert toks[i - 1..][0] == first && toks[i - 1..][1..] == rest;
  }

  function Min(a: nat, b: nat): nat {
    if a < b then a else b
  }

  // ---- Daemon side: sending ----

  function Words(argv: seq<string>): string {
    if argv == [] then ""
    else if |argv| == 1 then argv[0]
    else argv[0] + " " + Words(argv[1..])
  }

  function OrEmpty(where: Option<string>): string {
    if where.Some? then where.value else ""
  }

  function Body(who: string, where: Option<string>, argv: seq<string>): string {
    who + ":" + OrEmpty(where) + ":" + Words(argv)
  }

  // The words from argv[i] on, as the loop writes them.
  lemma WordsFrom(argv: seq<string>, i: nat)
    requires i < |argv|
    ensures Words(argv[i..]) == argv[i] + (if i + 1 < |argv| then " " else "") + Words(argv[i + 1..])
  {
    assert argv[i..][1..] == argv[i + 1..];
    if i + 1 == |argv| {
      assert argv[i] + "" + "" == argv[i];
    }
  }

  // The loop over the words.
  method SendWords(h: Framing.Evbuffer, argv: seq<string>)
    modifies h
    ensures h.data == old(h.data) + Words(argv)
  {
    ghost var all := h.data + Words(argv);
    assert argv[0..] == argv;
    var i := 0;
    while i < |argv|
      invariant 0 <= i <= |argv|
      invariant h.data + Words(argv[i..]) == all
    {
      ghost var was := h.data;
      WordsFrom(argv, i);
      h.Add(argv[i]);
      if i + 1 < |argv| {
        h.Add(" ");
      }
      assert h.data + Words(argv[i + 1..]) ==
             was + (argv[i] + (if i + 1 < |argv| then " " else "") + Words(argv[i + 1..]));
      i := i + 1;
    }
    assert h.data + "" == h.data;
  }

  // hooks_send; `h` is the buffer of the pipe to the hook.
  method Send(h: Framing.Evbuffer, argv: seq<string>, who: string, where: Option<string>)
    modifies h
    ensures h.data == old(h.data) + Body(who, where, argv) + "\n"
  {
    ghost var start := h.data;
    h.Add(who);
    h.Add(":");
    if where.Some? {
      h.Add(where.value);
    }
    h.Add(":");
    Associate(start, who, OrEmpty(where), Words(argv));
    SendWords(h, argv);
    assert h.data == start + Body(who, where, argv);
    h.Add("\n");
  }

  lemma Associate(start: string, who: string, where: string, rest: string)
    ensures start + who + ":" + where + ":" + rest == start + (who + ":" + where + ":" + rest)
    ensures start + who + ":" + ":" + rest == start + (who + ":" + "" + ":" + rest)
  {
  }

  // ---- Two colons ----

  // A line cut at its first two colons: pointers to the fields after them.
  ghost predicate SplitAs(line: string, now: seq<char>, first: Option<nat>, second: Option<nat>) {
    now != [] &&
    if first.None? then second == None && After(line, ":") == None && Str(now, 0) == line
    else
      var f := first.value;
      After(line, ":").Some? && 0 < f < |now| && PointsAt(now, 0, Before(line, ":"), f - 1) &&
      if second.None? then Str(now, f) == After(line, ":").value && After(After(line, ":").value, ":") == None
      else
        var g := second.value;
        f < g < |now| && PointsAt(now, f, Before(After(line, ":").value, ":"), g - 1) &&
        IsString(now, g) && After(After(line, ":").value, ":") == Some(Str(now, g))
  }

  // The "custom strtok" both programs write out: one loop over the line.
  method SplitTwice(buf: array<char>) returns (first: Option<nat>, second: Option<nat>)
    requires IsString(buf[..], 0)
    modifies buf
    ensures SplitAs(old(Str(buf[..], 0)), buf[..], first, second)
  {
    ghost var was := buf[..];
    ghost var end := EndOf(was, 0);
    first, second := None, None;
    var check, i := 0, 0;
    while check < 2 && buf[i] != NUL
      invariant 0 <= check <= 2 && 0 <= i <= end && (check == 2 ==> 0 < i)
      invariant forall k :: i <= k <= end ==> buf[k] == was[k]
      invariant check == 0 ==> first == None && second == None && buf[..] == was && ':' !in was[..i]
      invariant check == 1 ==> second == None && FirstCut(was, buf[..], first, i)
      invariant check == 2 ==> SecondCut(was, buf[..], first, second, i, end)
      decreases end - i
    {
      if buf[i] == ':' {
        check := check + 1;
        buf[i] := NUL;
        if check == 1 {
          first := Some(i + 1);
          assert buf[..] == was[i := NUL];
        } else {
          second := Some(i + 1);
          assert buf[..] == was[first.value - 1 := NUL][i := NUL];
        }
      }
      i := i + 1;
    }
    SplitDone(was, buf[..], first, second, check, i, end);
  }

  ghost predicate FirstCut(was: seq<char>, now: seq<char>, first: Option<nat>, i: nat) {
    first.Some? && 0 < first.value <= i <= |was| && was[first.value - 1] == ':' &&
    ':' !in was[..first.value - 1] && ':' !in was[first.value..i] && now == was[first.value - 1 := NUL]
  }

  ghost predicate SecondCut(was: seq<char>, now: seq<char>, first: Option<nat>, second: Option<nat>, i: nat, end: nat) {
    first.Some? && second == Some(i) && 0 < first.value < i <= end < |was| &&
    was[first.value - 1] == ':' && was[i - 1] == ':' &&
    ':' !in was[..first.value - 1] && ':' !in was[first.value..i - 1] &&
    now == was[first.value - 1 := NUL][i - 1 := NUL]
  }

  lemma SplitDone(was: seq<char>, now: seq<char>, first: Option<nat>, second: Option<nat>, check: nat, i: nat, end: nat)
    requires i <= end < |was| == |now| && was[end] == NUL && forall k :: 0 <= k < end ==> was[k] != NUL
    requires check == 2 || (check < 2 && i == end)
    requires check == 0 ==> first == None && second == None && now == was && ':' !in was[..i]
    requires check == 1 ==> second == None && FirstCut(was, now, first, i)
    requires check == 2 ==> SecondCut(was, now, first, second, i, end)
    ensures SplitAs(Str(was, 0), now, first, second)
  {
    StrUnique(was, 0, end);
    if check == 0 {
      WholeToken(was[..end], ":");
      assert Str(was, 0) == was[..end];
    } else if check == 1 {
      OneColon(was, first.value, end);
    } else {
      TwoColons(was, first.value, i, end);
    }
  }

  lemma OneColon(was: seq<char>, f: nat, end: nat)
    requires 0 < f <= end < |was| && was[end] == NUL && forall k :: 0 <= k < end ==> was[k] != NUL
    requires was[f - 1] == ':' && ':' !in was[..f - 1] && ':' !in was[f..end]
    ensures SplitAs(Str(was, 0), was[f - 1 := NUL], Some(f), None)
  {
    var now := was[f - 1 := NUL];
    FirstColon(was, f, end);
    StrUnique(now, 0, f - 1);
    StrUnique(now, f, end - f);
    WholeToken(was[f..end], ":");
    assert now[0..f - 1] == was[..f - 1] && now[f..end] == was[f..end];
  }

  lemma FirstColon(was: seq<char>, f: nat, end: nat)
    requires 0 < f <= end < |was| && was[end] == NUL && forall k :: 0 <= k < end ==> was[k] != NUL
    requires was[f - 1] == ':' && ':' !in was[..f - 1]
    ensures Before(Str(was, 0), ":") == was[..f - 1] && After(Str(was, 0), ":") == Some(was[f..end])
  {
    var line := was[..end];
    StrUnique(was, 0, end);
    assert forall k :: 0 <= k < f - 1 ==> line[k] == was[..f - 1][k];
    CutValue(line, f - 1, ":");
    assert line[..f - 1] == was[..f - 1] && line[f..] == was[f..end];
  }

  lemma TwoColons(was: seq<char>, f: nat, g: nat, end: nat)
    requires 0 < f < g <= end < |was| && was[end] == NUL && forall k :: 0 <= k < end ==> was[k] != NUL
    requires was[f - 1] == ':' && was[g - 1] == ':' && ':' !in was[..f - 1] && ':' !in was[f..g - 1]
    ensures SplitAs(Str(was, 0), was[f - 1 := NUL][g - 1 := NUL], Some(f), Some(g))
  {
    FirstColon(was, f, end);
    SecondColon(was, f, g, end);
    ThreeStrings(was, f, g, end);
  }

  lemma SecondColon(was: seq<char>, f: nat, g: nat, end: nat)
    requires f < g <= end < |was| && was[g - 1] == ':' && ':' !in was[f..g - 1]
    ensures Before(was[f..end], ":") == was[f..g - 1] && After(was[f..end], ":") == Some(was[g..end])
  {
    var rest := was[f..end];
    assert forall k :: 0 <= k < g - 1 - f ==> rest[k] == was[f..g - 1][k];
    CutValue(rest, g - 1 - f, ":");
    assert rest[..g - 1 - f] == was[f..g - 1] && rest[g - f..] == was[g..end];
  }

  lemma ThreeStrings(was: seq<char>, f: nat, g: nat, end: nat)
    requires 0 < f < g <= end < |was| && was[end] == NUL && forall k :: 0 <= k < end ==> was[k] != NUL
    ensures var now := was[f - 1 := NUL][g - 1 := NUL];
            PointsAt(now, 0, was[..f - 1], f - 1) && PointsAt(now, f, was[f..g - 1], g - 1) &&
            IsString(now, g) && Str(now, g) == was[g..end]
  {
    var now := was[f - 1 := NUL][g - 1 := NUL];
    StrUnique(now, 0, f - 1);
    StrUnique(now, f, g - 1 - f);
    StrUnique(now, g, end - g);
    assert now[0..f - 1] == was[..f - 1];
    assert now[f..g - 1] == was[f..g - 1];
    assert now[g..end] == was[g..end] && now[end] == NUL;
  }

  // ---- Hook side: parsing a request ----

  datatype Request = Request(nick: string, channel: string, cmd: string, args: Option<string>)

  function AfterWord(str: string): string {
    str[|Before(str, " ")|..]
  }

  // What follows the name of the hook.
  function CommandOf(text: string): string {
    SkipLeading(AfterWord(SkipLeading(text, " ")), " ")
  }

  // cmd_parse, for a line that enters with args NULL.  None is "crap from bot".
  function ParseRequest(line: string): Option<Request> {
    match After(line, ":")
    case None => None
    case Some(rest) =>
      match After(rest, ":")
      case None => None
      case Some(text) =>
        var nick, channel := Before(line, ":"), Before(rest, ":");
        if text == "" || (nick == "" && channel == "") then None
        else
          Some(Request(nick, channel, Before(CommandOf(text), " "), After(CommandOf(text), " ")))
  }

  method CmdParse(buf: array<char>) returns (r: Option<Request>)
    requires IsString(buf[..], 0)
    modifies buf
    ensures r == ParseRequest(old(Str(buf[..], 0)))
  {
    ghost var line := Str(buf[..], 0);
    var channel, cmd := SplitTwice(buf);
    if channel == None || cmd == None {
      NotARequest(line, buf[..], channel, cmd);
      return None;
    }
    EmptyAt(buf[..], 0);
    EmptyAt(buf[..], channel.value);
    EmptyAt(buf[..], cmd.value);
    if buf[cmd.value] == NUL || (buf[0] == NUL && buf[channel.value] == NUL) {
      NotARequest(line, buf[..], channel, cmd);
      return None;
    }
    ghost var text := Str(buf[..], cmd.value);
    IsARequest(line, buf[..], channel.value, cmd.value);
    var p := SkipRun(buf, cmd.value, " ");
    p := SkipWord(buf, p, " ");
    p := SkipRun(buf, p, " ");
    ghost var was := buf[..];
    var start, args := StrSep(buf, Some(p), " ");
    CutKeepsPrefix(was, buf[..], p, " ", args);
    FieldsKept(line, was, buf[..], channel.value, cmd.value, p);
    assert Str(buf[..], p) == Before(CommandOf(text), " ");
    r := Some(Request(Str(buf[..], 0), Str(buf[..], channel.value), Str(buf[..], p),
                      if args.Some? then Some(Str(buf[..], args.value)) else None));
  }

  lemma NotARequest(line: string, now: seq<char>, first: Option<nat>, second: Option<nat>)
    requires SplitAs(line, now, first, second)
    requires first == None || second == None || Str(now, second.value) == "" ||
             (Str(now, 0) == "" && Str(now, first.value) == "")
    ensures ParseRequest(line) == None
  {
  }

  lemma IsARequest(line: string, now: seq<char>, f: nat, g: nat)
    requires SplitAs(line, now, Some(f), Some(g))
    requires Str(now, g) != "" && (Str(now, 0) != "" || Str(now, f) != "")
    ensures ParseRequest(line) == Some(Request(
              Before(line, ":"), Before(After(line, ":").value, ":"),
              Before(CommandOf(Str(now, g)), " "), After(CommandOf(Str(now, g)), " ")))
  {
  }

  lemma CutKeepsPrefix(was: seq<char>, now: seq<char>, p: nat, delims: string, next: Option<nat>)
    requires p <= |was| == |now| && Cut(was, now, p, delims, next)
    ensures now[..p] == was[..p]
  {
    if next.Some? {
      CutPrefix(was, now, p, next.value - 1);
    }
  }

  // Cutting the command leaves the nick and the channel alone.
  lemma FieldsKept(line: string, was: seq<char>, now: seq<char>, f: nat, g: nat, p: nat)
    requires SplitAs(line, was, Some(f), Some(g)) && |was| == |now|
    requires g <= p < |was| && now[..p] == was[..p]
    ensures Str(now, 0) == Before(line, ":") && Str(now, f) == Before(After(line, ":").value, ":")
  {
    StrHasNoNul(was, 0);
    StrHasNoNul(was, f);
    assert now[..g] == now[..p][..g] == was[..p][..g] == was[..g];
    assert now[..f] == now[..p][..f] == was[..p][..f] == was[..f];
    PrefixPointsAt(was, now, 0, Before(line, ":"), f - 1);
    PrefixPointsAt(was, now, f, Before(After(line, ":").value, ":"), g - 1);
  }

  // ---- Daemon side: parsing a reply ----

  function Privmsg(dest: string, message: string): string {
    "PRIVMSG " + dest + " :" + message + "\n"
  }

  // Nick of a nick!user@host mask.
  function NickOf(mask: string): string {
    Before(mask, "!")
  }

  // Where a reply goes: a query when the hook names no channel, the channel
  // alone when it names no nick, the channel with the nick in front otherwise.
  function Routed(nick: string, channel: string, text: string): string {
    if channel == "" then Privmsg(nick, text)
    else if nick == "" then Privmsg(channel, text)
    else "PRIVMSG " + channel + " :" + nick + ": " + text + "\n"
  }

  // A line that is neither raw nor a reply with a text.
  predicate NoReply(line: string) {
    !(line != "" && line[0] == '\U{0001}') &&
    match After(line, ":")
    case None => true
    case Some(rest) => After(rest, ":") == None || After(rest, ":") == Some("")
  }

  // hooks_parse_cmd: the return code and what is queued for the server.
  function ParseReply(line: string): (int, string) {
    if line != "" && line[0] == '\U{0001}' then
      (if |line| > 1 then 0 else -1, line[1..] + "\n")
    else match After(line, ":")
      case None => (-1, "")
      case Some(rest) =>
        match After(rest, ":")
        case None => (-1, "")
        case Some(text) =>
          if text == "" then (-1, "")
          else (0, Routed(NickOf(Before(line, ":")), Before(rest, ":"), text))
  }

  // Only a line without a reply queues nothing.
  lemma OnlyNoReplyQueuesNothing(line: string)
    ensures ParseReply(line).1 == "" <==> NoReply(line)
  {
  }

  method HooksParseCmd(buf: array<char>) returns (rc: int, queued: string)
    requires IsString(buf[..], 0)
    modifies buf
    ensures (rc, queued) == ParseReply(old(Str(buf[..], 0)))
  {
    ghost var line := Str(buf[..], 0);
    ghost var end := EndOf(buf[..], 0);
    EmptyAt(buf[..], 0);
    if buf[0] == '\U{0001}' {
      StrUnique(buf[..], 1, end - 1);
      assert line[1..] == Str(buf[..], 1);
      queued := Str(buf[..], 1) + "\n";
      EmptyAt(buf[..], 1);
      return if buf[1] != NUL then 0 else -1, queued;
    }
    assert line == "" || line[0] == buf[0];
    var channel, message := SplitTwice(buf);
    if channel == None || message == None {
      NotAReply(line, buf[..], channel, message);
      return -1, "";
    }
    EmptyAt(buf[..], message.value);
    if buf[message.value] == NUL {
      NotAReply(line, buf[..], channel, message);
      return -1, "";
    }
    IsAReply(line, buf[..], channel.value, message.value);
    ghost var was := buf[..];
    var start, host := StrSep(buf, Some(0), "!");
    NickStripped(line, was, buf[..], channel.value, message.value, host);
    EmptyAt(buf[..], 0);
    EmptyAt(buf[..], channel.value);
    if buf[channel.value] == NUL {
      return 0, Privmsg(Str(buf[..], 0), Str(buf[..], message.value));
    }
    if buf[0] == NUL {
      return 0, Privmsg(Str(buf[..], channel.value), Str(buf[..], message.value));
    }
    return 0, "PRIVMSG " + Str(buf[..], channel.value) + " :" + Str(buf[..], 0) + ": " +
              Str(buf[..], message.value) + "\n";
  }

  lemma NotAReply(line: string, now: seq<char>, first: Option<nat>, second: Option<nat>)
    requires SplitAs(line, now, first, second) && (line != "" ==> line[0] != '\U{0001}')
    requires first == None || second == None || Str(now, second.value) == ""
    ensures ParseReply(line) == (-1, "")
  {
  }

  lemma IsAReply(line: string, now: seq<char>, f: nat, g: nat)
    requires SplitAs(line, now, Some(f), Some(g)) && (line != "" ==> line[0] != '\U{0001}')
    requires Str(now, g) != ""
    ensures ParseReply(line) ==
            (0, Routed(NickOf(Before(line, ":")), Before(After(line, ":").value, ":"), Str(now, g)))
  {
  }

  // Stripping the recipient leaves the channel and the message alone.
  lemma NickStripped(line: string, was: seq<char>, now: seq<char>, f: nat, g: nat, host: Option<nat>)
    requires SplitAs(line, was, Some(f), Some(g)) && |was| == |now| && Cut(was, now, 0, "!", host)
    ensures Str(now, 0) == NickOf(Before(line, ":"))
    ensures Str(now, f) == Before(After(line, ":").value, ":") && Str(now, g) == Str(was, g)
  {
    if host.Some? {
      assert host.value <= f;
      StrAfterCut(was, host.value - 1, f);
      StrAfterCut(was, host.value - 1, g);
    }
  }

  lemma {:induction false} StrAfterCut(was: seq<char>, i: nat, q: nat)
    requires i < q <= |was|
    ensures Str(was[i := NUL], q) == Str(was, q)
    decreases |was| - q
  {
    var now := was[i := NUL];
    if q == |was| || was[q] == NUL {
    } else {
      StrAfterCut(was, i, q + 1);
      assert Str(now, q) == [now[q]] + Str(now, q + 1);
      assert Str(was, q) == [was[q]] + Str(was, q + 1);
    }
  }

  // ---- Round trips ----

  predicate CleanWord(w: string) {
    w != "" && forall k :: 0 <= k < |w| ==> w[k] !in BLANKS
  }

  // What strtok makes: non-empty words without blanks.
  predicate CleanArgs(argv: seq<string>) {
    argv != [] && forall i :: 0 <= i < |argv| ==> CleanWord(argv[i])
  }

  lemma TokensAreClean(line: string)
    requires Tokens(line, BLANKS) != []
    ensures CleanArgs(Tokens(line, BLANKS))
  {
    var toks := Tokens(line, BLANKS);
    forall i | 0 <= i < |toks| ensures CleanWord(toks[i]) {
      assert toks[i] in toks;
    }
  }

  function ArgsOf(argv: seq<string>): Option<string> {
    if |argv| > 2 then Some(Words(argv[2..])) else None
  }

  function CmdOf(argv: seq<string>): string {
    if |argv| > 1 then argv[1] else ""
  }

  lemma NoSkip(str: string)
    requires str == "" || str[0] !in BLANKS
    ensures SkipLeading(str, " ") == str
  {
  }

  lemma WordsStart(argv: seq<string>)
    requires CleanArgs(argv)
    ensures Words(argv) != "" && Words(argv)[0] !in BLANKS
  {
    assert CleanWord(argv[0]);
  }

  // The first word is cut off at the blank behind it.
  lemma FirstWord(argv: seq<string>)
    requires CleanArgs(argv)
    ensures Before(Words(argv), " ") == argv[0]
    ensures After(Words(argv), " ") == if |argv| > 1 then Some(Words(argv[1..])) else None
  {
    assert CleanWord(argv[0]);
    if |argv| == 1 {
      WholeToken(argv[0], " ");
    } else {
      SplitToken(argv[0], ' ', Words(argv[1..]), " ");
    }
  }

  lemma DropWord(word: string, rest: string)
    ensures word[|word|..] == "" && (word + " " + rest)[|word|..] == " " + rest
  {
    assert word + " " + rest == word + (" " + rest);
  }

  lemma AfterFirstWord(argv: seq<string>)
    requires CleanArgs(argv)
    ensures AfterWord(Words(argv)) == if |argv| > 1 then " " + Words(argv[1..]) else ""
  {
    FirstWord(argv);
    DropWord(argv[0], Words(argv[1..]));
  }

  lemma SkipOneBlank(rest: string)
    requires rest != "" && rest[0] !in BLANKS
    ensures SkipLeading(" " + rest, " ") == rest
  {
    assert (" " + rest)[1..] == rest;
  }

  lemma CommandOfWords(argv: seq<string>)
    requires CleanArgs(argv)
    ensures CommandOf(Words(argv)) == if |argv| > 1 then Words(argv[1..]) else ""
  {
    WordsStart(argv);
    NoSkip(Words(argv));
    AfterFirstWord(argv);
    if |argv| > 1 {
      WordsStart(argv[1..]);
      SkipOneBlank(Words(argv[1..]));
    }
  }

  lemma CommandParts(argv: seq<string>)
    requires CleanArgs(argv)
    ensures Before(CommandOf(Words(argv)), " ") == CmdOf(argv)
    ensures After(CommandOf(Words(argv)), " ") == ArgsOf(argv)
  {
    CommandOfWords(argv);
    if |argv| > 1 {
      FirstWord(argv[1..]);
      assert argv[1..][1..] == argv[2..];
    }
  }

  // Splitting a body at its colons gives back who and where exactly when
  // neither holds a colon.
  lemma BodySplit(who: string, where: string, text: string)
    requires ':' !in who
    ensures Before(who + ":" + where + ":" + text, ":") == who
    ensures After(who + ":" + where + ":" + text, ":") == Some(where + ":" + text)
    ensures ':' !in where ==>
              Before(where + ":" + text, ":") == where && After(where + ":" + text, ":") == Some(text)
    ensures ':' in where ==> Before(where + ":" + text, ":") != where
  {
    assert who + ":" + where + ":" + text == who + [':'] + (where + ":" + text);
    SplitToken(who, ':', where + ":" + text, ":");
    assert where + ":" + text == where + [':'] + text;
    if ':' !in where {
      SplitToken(where, ':', text, ":");
    }
  }

  // The hook gets the request the daemon sent if and only if neither who nor
  // where holds a colon and they are not both empty.
  lemma RequestRoundTrip(who: string, where: Option<string>, argv: seq<string>)
    requires CleanArgs(argv)
    ensures ParseRequest(Body(who, where, argv)) == Some(Request(who, OrEmpty(where), CmdOf(argv), ArgsOf(argv)))
            <==> ':' !in who && ':' !in OrEmpty(where) && (who != "" || OrEmpty(where) != "")
  {
    var line := Body(who, where, argv);
    if ':' in who {
      assert Before(line, ":") != who;
    } else {
      BodySplit(who, OrEmpty(where), Words(argv));
      WordsStart(argv);
      CommandParts(argv);
    }
  }

  // Such a who is a nick!user@host mask with an IPv6 address: the hook takes the
  // rest of the address for the channel and the command is lost.
  lemma ColonInMask()
    ensures ParseRequest(Body("n!u@a::1", Some("#c"), ["q", "add"])) == Some(Request("n!u@a", "", "add", None))
  {
    var text := "1:#c:q add";
    assert Words(["q", "add"][1..]) == "add";
    assert Body("n!u@a::1", Some("#c"), ["q", "add"]) == "n!u@a" + ":" + "" + ":" + text;
    BodySplit("n!u@a", "", text);
    ChannelTakenForCommand();
  }

  lemma ChannelTakenForCommand()
    ensures Before(CommandOf("1:#c:q add"), " ") == "add" && After(CommandOf("1:#c:q add"), " ") == None
  {
    assert "1:#c:q add" == Words(["1:#c:q", "add"]) by {
      assert ["1:#c:q", "add"][1..] == ["add"];
    }
    CommandParts(["1:#c:q", "add"]);
  }

  // The pipe carries the body as one line.
  lemma RequestIsOneLine(who: string, where: Option<string>, argv: seq<string>)
    requires CleanArgs(argv) && Framing.Plain(who) && Framing.Plain(OrEmpty(where))
    ensures Framing.ReadLine(Body(who, where, argv) + "\n") == Some((Body(who, where, argv), ""))
  {
    PlainWords(argv);
    OneLine(Body(who, where, argv));
  }

  lemma {:induction false} PlainWords(argv: seq<string>)
    requires CleanArgs(argv)
    ensures Framing.Plain(Words(argv))
    decreases |argv|
  {
    assert CleanWord(argv[0]);
    if |argv| == 1 {
    } else {
      PlainWords(argv[1..]);
    }
  }

  lemma OneLine(line: string)
    requires Framing.Plain(line)
    ensures Framing.ReadLine(line + "\n") == Some((line, ""))
  {
    EolAfter(line);
    assert (line + "\n")[..|line|] == line && (line + "\n")[|line| + 1..] == "";
  }

  lemma {:induction false} EolAfter(line: string)
    requires Framing.Plain(line)
    ensures Framing.EolIndex(line + "\n") == |line|
    decreases |line|
  {
    if line == "" {
    } else {
      assert (line + "\n")[1..] == line[1..] + "\n";
      EolAfter(line[1..]);
    }
  }

  // The hook's answers are printed as nick:channel:text.
  function Reply(nick: string, channel: string, text: string): string {
    nick + ":" + channel + ":" + text
  }

  lemma ReplyParsed(nick: string, channel: string, text: string)
    requires ':' !in nick && ':' !in channel && (nick != "" ==> nick[0] != '\U{0001}')
    ensures ParseReply(Reply(nick, channel, text)) ==
            if text == "" then (-1, "") else (0, Routed(NickOf(nick), channel, text))
  {
    BodySplit(nick, channel, text);
    assert Reply(nick, channel, text)[0] == if nick == "" then ':' else nick[0];
  }

  // A sender as the server names it: a nick, and perhaps !user@host behind it.
  predicate Mask(nick: string, host: string) {
    ':' !in nick + host && '!' !in nick && (host != "" ==> host[0] == '!') &&
    (nick + host != "" ==> (nick + host)[0] != '\U{0001}')
  }

  lemma NickOfMask(nick: string, host: string)
    requires Mask(nick, host)
    ensures NickOf(nick + host) == nick
  {
    if host == "" {
      assert nick + host == nick;
      WholeToken(nick, "!");
    } else {
      assert nick + host == nick + [host[0]] + host[1..];
      SplitToken(nick, '!', host[1..], "!");
    }
  }

  // Where an answer is due, and what it says there.
  function Recipient(nick: string, channel: string): string {
    if channel == "" then nick else channel
  }

  function Spoken(nick: string, channel: string, text: string): string {
    if channel == "" || nick == "" then text else nick + ": " + text
  }

  // The server hears exactly one message: to the nick if the reply names no
  // channel, else to the channel, with the nick in front of the text if there is
  // one.  It does if and only if the place is one word and no line end is in it.
  lemma RoutedHeard(nick: string, channel: string, text: string)
    ensures IrcText.HeardIn(Routed(nick, channel, text)) ==
              [IrcText.Said(Recipient(nick, channel), Spoken(nick, channel, text))]
            <==> IrcText.Word(Recipient(nick, channel)) && Framing.Plain(nick) && Framing.Plain(text)
  {
    if channel == "" || nick == "" {
      IrcText.MessageHeard(Recipient(nick, channel), text);
    } else {
      IrcText.MessageHeard(channel, nick + ": " + text);
      NickInFront("PRIVMSG " + channel + " :", nick, text);
    }
  }

  lemma NickInFront(start: string, nick: string, text: string)
    ensures start + nick + ": " + text + "\n" == start + (nick + ": " + text) + "\n"
    ensures Framing.Plain(nick + ": " + text) <==> Framing.Plain(nick) && Framing.Plain(text)
  {
    Regroup(start + nick, ": ", text);
    Regroup(nick, ": ", text);
    Regroup(start, nick, ": " + text);
    IrcText.PlainConcat(nick + ": ", text);
    IrcText.PlainConcat(nick, ": ");
  }

  // The answer goes to the place the request came from with its text intact,
  // colons included; only an empty text is refused.
  lemma ReplyRoundTrip(nick: string, host: string, channel: string, text: string)
    requires Mask(nick, host) && ':' !in channel
    ensures var (rc, queued) := ParseReply(Reply(nick + host, channel, text));
            if text == "" then rc == -1 && queued == ""
            else
              rc == 0 &&
              (IrcText.HeardIn(queued) == [IrcText.Said(Recipient(nick, channel), Spoken(nick, channel, text))]
               <==> IrcText.Word(Recipient(nick, channel)) && Framing.Plain(nick) && Framing.Plain(text))
  {
    ReplyParsed(nick + host, channel, text);
    NickOfMask(nick, host);
    RoutedHeard(nick, channel, text);
  }

  // A line that starts with \x01 is a command of its own: the rest of it is
  // queued as it is.
  lemma RawReply(raw: string)
    ensures ParseReply("\U{0001}" + raw) == (if raw == "" then -1 else 0, raw + "\n")
    ensures Framing.Plain(raw) ==> IrcText.HeardIn(ParseReply("\U{0001}" + raw).1) == [IrcText.Hear(raw)]
  {
    assert ("\U{0001}" + raw)[1..] == raw;
    IrcText.OneLine(raw);
  }

  // A reply that names a nick and a channel goes to the channel with the nick in front.
  lemma NamedReply(nick: string, channel: string, text: string)
    requires ':' !in nick && '!' !in nick && ':' !in channel && nick != "" && nick[0] != '\U{0001}'
    requires channel != "" && text != ""
    ensures ParseReply(Reply(nick, channel, text)) ==
            (0, "PRIVMSG " + channel + " :" + nick + ": " + text + "\n")
  {
    ReplyParsed(nick, channel, text);
    WholeToken(nick, "!");
  }

  // A whole conversation: the daemon asks for nick!user@host, the hook parses and
  // answers, the daemon routes the answer, and the server hears it said where the
  // request came from.
  lemma Conversation(nick: string, host: string, where: Option<string>, argv: seq<string>, text: string)
    requires CleanArgs(argv) && Mask(nick, host) && nick + host != "" && ':' !in OrEmpty(where) && text != ""
    ensures var r := ParseRequest(Body(nick + host, where, argv));
            r.Some? &&
            var (rc, queued) := ParseReply(Reply(r.value.nick, r.value.channel, text));
            rc == 0 &&
            (IrcText.HeardIn(queued) ==
               [if where.Some? && where.value != ""
                then IrcText.Said(where.value, if nick == "" then text else nick + ": " + text)
                else IrcText.Said(nick, text)]
             <==> IrcText.Word(if where.Some? && where.value != "" then where.value else nick) &&
                  Framing.Plain(nick) && Framing.Plain(text))
  {
    RequestRoundTrip(nick + host, where, argv);
    ReplyRoundTrip(nick, host, OrEmpty(where), text);
  }
}
