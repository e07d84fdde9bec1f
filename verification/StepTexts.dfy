// What the callbacks have to say, as the server hears it.
module StepTexts {
  import opened Options
  import opened CString
  import opened Daemon
  import Framing
  import HookWire
  import IrcText
  import R = Reload

  // A text is queued behind the others, for the server only.
  predicate Adds(s: State, s': State, text: string) {
    s'.out == s.out + text && s'.queued == s.queued + text && s'.wire == s.wire && s'.input == s.input
  }

  // A datagram is queued if and only if the bot is connected, and asks for a write
  // whenever there is something to write; a failed receive changes nothing.
  lemma DatagramQueued(s: State, messages: Option<string>)
    requires Invariant(s) && Enabled(s, Datagram(messages))
    ensures var s' := Step(s, Datagram(messages));
            s'.mode == s.mode && s'.timers == s.timers && s'.broken == s.broken &&
            (messages.None? ==> s' == s) &&
            (messages.Some? ==>
               Adds(s, s', if s.mode.connected then messages.value else "") &&
               s'.watch == if s'.out == "" then s.watch else Watch(true, true))
  {
    assert s.out + "" == s.out && s.queued + "" == s.queued;
  }

  // A new connection is listened to and gets the login lines.
  lemma LoginQueued(s: State, helo: string)
    requires Invariant(s) && Enabled(s, ReconnectTimer(Up(helo)))
    ensures var s' := Step(s, ReconnectTimer(Up(helo)));
            Adds(s, s', helo) && s'.watch == Watch(true, false) && s'.mode == s.mode && s'.broken == s.broken
  {
  }

  // The timer for the nick asks for it.
  lemma NickAskedFor(s: State, nick: string) returns (text: string)
    requires Invariant(s) && Enabled(s, NickTimer(nick)) && Framing.Plain(nick)
    ensures Adds(s, Step(s, NickTimer(nick)), text) && IrcText.HeardIn(text) == [IrcText.Nicked(nick)]
  {
    text := "NICK " + nick + "\n";
    IrcText.VerbHeard("NICK", nick);
    assert "NICK" + " " == "NICK ";
  }

  // The timer for banned channels joins them again.
  lemma ChannelsRejoined(s: State, join: string)
    requires Invariant(s) && Enabled(s, RejoinTimer(join))
    ensures Adds(s, Step(s, RejoinTimer(join)), join)
  {
  }

  // The timer for QUIT says so, once.
  lemma QuitSaid(s: State, quit: string) returns (text: string)
    requires Invariant(s) && Enabled(s, QuitTimer(quit))
    requires Framing.Plain(quit) && (quit != "" ==> quit[0] == ' ')
    ensures Adds(s, Step(s, QuitTimer(quit)), text)
    ensures IrcText.HeardIn(text) == if s.quitSent then [] else [IrcText.Quitted]
  {
    if s.quitSent {
      text := "";
      assert s.out + "" == s.out && s.queued + "" == s.queued;
    } else {
      text := "QUIT" + quit + "\n";
      IrcText.QuitHeard(quit, "QUIT" + quit);
    }
  }

  // A reload joins and parts what the change of the configuration asks for, and asks
  // for the new nick behind that if there is one.
  lemma ReloadSaid(s: State, olds: seq<string>, news: seq<string>, renick: Option<string>, throttling: bool)
    returns (moves: string, nick: string)
    requires Invariant(s) && Enabled(s, Hup(Complete(olds, news, renick, throttling)))
    requires R.OneLineEach(olds) && R.OneLineEach(news) && (renick.Some? ==> Framing.Plain(renick.value))
    ensures Adds(s, Step(s, Hup(Complete(olds, news, renick, throttling))), moves + nick)
    ensures R.LeadsTo(moves, olds, news)
    ensures IrcText.HeardIn(nick) == if renick.Some? then [IrcText.Nicked(renick.value)] else []
  {
    moves := R.Lines(R.Diff(olds, news));
    R.DiffLeads(olds, news);
    if renick.Some? {
      nick := "NICK " + renick.value + "\n";
      IrcText.VerbHeard("NICK", renick.value);
      assert "NICK" + " " == "NICK ";
      Regroup(s.out, moves, nick);
      Regroup(s.queued, moves, nick);
    } else {
      nick := "";
      assert moves + "" == moves;
    }
  }

  // A reply of a hook is said where it should be, and forced out if and only if the
  // bot is connected.
  lemma HookHeard(s: State, nick: string, host: string, channel: string, text: string) returns (said: string)
    requires Invariant(s) && Enabled(s, HookLine(HookWire.Reply(nick + host, channel, text)))
    requires HookWire.Mask(nick, host) && ':' !in channel && text != ""
    requires NUL !in HookWire.Reply(nick + host, channel, text)
    requires IrcText.Word(HookWire.Recipient(nick, channel)) && Framing.Plain(nick) && Framing.Plain(text)
    ensures var s' := Step(s, HookLine(HookWire.Reply(nick + host, channel, text)));
            Adds(s, s', said) && s'.watch == if s.mode.connected then Watch(true, true) else s.watch
    ensures IrcText.HeardIn(said) ==
            [if channel == "" then IrcText.Said(nick, text)
             else IrcText.Said(channel, if nick == "" then text else nick + ": " + text)]
  {
    var line := HookWire.Reply(nick + host, channel, text);
    WholeToken(line, [NUL]);
    said := HookWire.ParseReply(line).1;
    HookWire.ReplyRoundTrip(nick, host, channel, text);
  }

  lemma PlainMark()
    ensures Framing.Plain("\U{0001}PING\U{0001}")
  {
  }

  lemma SelfPingHeard(nick: string)
    requires IrcText.Word(nick)
    ensures IrcText.HeardIn(SelfPing(nick)) == [IrcText.Said(nick, "\U{0001}PING\U{0001}")]
  {
    PlainMark();
    IrcText.MessageHeard(nick, "\U{0001}PING\U{0001}");
    MarkAtEnd("PRIVMSG " + nick);
  }

  lemma MarkAtEnd(start: string)
    ensures start + " :\U{0001}PING\U{0001}\n" == start + " :" + "\U{0001}PING\U{0001}" + "\n"
  {
    assert " :\U{0001}PING\U{0001}\n" == " :" + ("\U{0001}PING\U{0001}" + "\n");
    Regroup(start, " :", "\U{0001}PING\U{0001}" + "\n");
    Regroup(start + " :", "\U{0001}PING\U{0001}", "\n");
  }

  lemma AllWritten(s: State, sock: int)
    requires s.out != "" && sock >= |s.out|
    ensures Write(s, sock).wire == s.wire + s.out && Write(s, sock).out == ""
  {
    assert s.out[..|s.out|] == s.out;
  }

  // When the server has been silent for too long the bot sends itself a PING.
  lemma SelfPingSaid(s: State, e: Event) returns (text: string)
    requires Invariant(s) && Enabled(s, e) && e.Irc? && e.timeout && !e.read && !s.mode.throttling
    requires IrcText.Word(e.nick) && e.sock >= |s.out + SelfPing(e.nick)|
    ensures Step(s, e).wire == s.wire + (s.out + text) && Step(s, e).out == ""
    ensures IrcText.HeardIn(text) == [IrcText.Said(e.nick, "\U{0001}PING\U{0001}")]
  {
    text := SelfPing(e.nick);
    SelfPingHeard(e.nick);
    AllWritten(Enqueue(Unregister(s), text), e.sock);
  }
}
