// The callbacks themselves, written as the C code runs: fields for the global
// variables, updated in place.  Each one is proved to be its step of Daemon.
module Bot {
  import opened Options
  import opened CString
  import opened Framing
  import opened Throttle
  import opened Daemon
  import HookWire
  import R = Reload
  import Runs = DaemonRuns

  // ---- irc_parse and irc_switch on a line in memory ----

  // memchr(line, 0x01, len)
  method HasCtcp(buf: array<char>) returns (found: bool)
    requires IsString(buf[..], 0)
    ensures found <==> '\U{0001}' in Str(buf[..], 0)
  {
    ghost var end := EndOf(buf[..], 0);
    assert Str(buf[..], 0) == buf[..end];
    var i := 0;
    while buf[i] != NUL
      invariant 0 <= i <= end && '\U{0001}' !in buf[..i]
      decreases end - i
    {
      if buf[i] == '\U{0001}' {
        return true;
      }
      i := i + 1;
    }
    assert i == end;
    return false;
  }

  // A string that starts before a later cut is still there.
  lemma FirstTokenStays(line: string, now: seq<char>, later: seq<char>, p: nat, tmp: nat)
    requires p <= tmp <= |now| == |later| && 0 < tmp && now[tmp - 1] == NUL && later[..tmp] == now[..tmp]
    requires p + |Str(now, p)| + 1 == tmp
    ensures Str(later, p) == Str(now, p)
  {
    StrHasNoNul(now, p);
    assert forall k :: 0 <= k < tmp ==> later[k] == later[..tmp][k] == now[..tmp][k] == now[k];
    assert forall k :: p <= k < tmp - 1 ==> now[k] == Str(now, p)[k - p];
    StrUnique(later, p, |Str(now, p)|);
  }

  method IrcSwitch(buf: array<char>, str: nat) returns (c: Command)
    requires str <= buf.Length && IsString(buf[..], str)
    modifies buf
    ensures c == Switch(old(Str(buf[..], str)))
  {
    var ap, tmp := StrSep(buf, Some(str), SEPARATORS);
    ghost var now := buf[..];
    var code, rest := StrSep(buf, tmp, SEPARATORS);
    if code == None {
      return Nothing;
    }
    FirstTokenStays("", now, buf[..], str, tmp.value);
    ghost var line := old(Str(buf[..], str));
    assert Str(buf[..], str) == Before(line, SEPARATORS);
    var name, args := Str(buf[..], code.value), StringAt(buf, rest);
    assert name == Before(After(line, SEPARATORS).value, SEPARATORS);
    assert args == After(After(line, SEPARATORS).value, SEPARATORS);
    if name == "PRIVMSG" {
      return Privmsg(Str(buf[..], str), args);
    } else if name == "376" || name == "422" {
      return Ready(name);
    } else if name == "433" {
      return NickTaken;
    } else if name == "474" {
      return Banned(args);
    } else if name in OTHERS {
      return Other(name, args);
    }
    return Nothing;
  }

  function StringAt(buf: array<char>, p: Option<nat>): Option<string>
    requires p.Some? ==> p.value <= buf.Length
    reads buf
  {
    if p.None? then None else Some(Str(buf[..], p.value))
  }

  // What one line asks for: the body of irc_parse's loop.
  method ParseLine(buf: array<char>) returns (c: Command)
    requires IsString(buf[..], 0)
    modifies buf
    ensures c == Dispatch(old(Str(buf[..], 0)))
  {
    ghost var line := Str(buf[..], 0);
    ghost var end := EndOf(buf[..], 0);
    EmptyAt(buf[..], 0);
    if buf[0] == ':' {
      StrUnique(buf[..], 1, end - 1);
      assert line[1..] == Str(buf[..], 1);
      var ctcp := HasCtcp(buf);
      if ctcp {
        return Ctcp(Str(buf[..], 1));
      }
      c := IrcSwitch(buf, 1);
    } else {
      var ap, tmp := StrSep(buf, Some(0), SEPARATORS);
      if Str(buf[..], 0) == "PING" && tmp.Some? {
        return Ping(Str(buf[..], tmp.value));
      }
      return Nothing;
    }
  }

  class Bot {
    const ircin: Evbuffer
    const ircout: Evbuffer
    var mode: Mode           // g_mode
    var burst: nat           // burst_count
    var last: int
    var watch: Watch         // ev_irc
    var timers: Timers       // what event_once() has been asked for
    var broken: bool         // event_loopbreak()
    var quitSent: bool
    ghost var wire: string
    ghost var queued: string

    ghost predicate Separate() {
      ircin != ircout
    }

    ghost function Value(): State
      reads this, ircin, ircout
    {
      State(ircout.data, ircin.data, mode, Limiter(burst, last), watch, timers, broken, quitSent, wire, queued)
    }

    // net_loop: a first connection that works, or one that fails.
    constructor (throttling: bool, helo: Option<string>, added: bool)
      ensures Separate() && fresh(ircin) && fresh(ircout)
      ensures Value() == Runs.Started(throttling, helo, added)
    {
      ircin := new Evbuffer();
      ircout := new Evbuffer();
      mode := Mode(throttling, false, false, false, false, false);
      burst, last := 0, 0;
      watch := Watch(helo.Some? || added, false);
      timers := Timers(if helo.Some? then 0 else 1, 0, 0, 0, 0);
      broken, quitSent := false, false;
      wire, queued := "", "";
      new;
      if helo.Some? {
        Queue(helo.value);
      }
    }

    // evbuffer_add to ircout
    method Queue(bytes: string)
      requires Separate()
      modifies this`queued, ircout
      ensures Value() == Enqueue(old(Value()), bytes)
    {
      ircout.Add(bytes);
      queued := queued + bytes;
    }

    // send() or ssl_send() of the first n bytes; `sock` is what the socket answers.
    method SendBytes(n: nat, sock: int) returns (ret: int)
      requires Separate() && n <= |ircout.data|
      modifies this`wire, ircout
      ensures ret == Accepted(n, sock)
      ensures Value() == if ret > 0 then Took(old(Value()), ret) else old(Value())
    {
      ret := if sock <= 0 then sock else if sock < n then sock else n;
      if ret > 0 {
        wire := wire + ircout.data[..ret];
        ircout.Drain(ret);
      }
    }

    // ---- network.c ----

    method NetForceOutput()
      requires Separate()
      modifies this`watch
      ensures Value() == ForceOutput(old(Value()))
    {
      watch := watch.(registered := false);   // event_del
      watch := watch.(write := true);         // event_set
      watch := watch.(registered := true);    // event_add
    }

    method NetThrottledWrite()
      requires Separate()
      modifies this`mode, this`watch
      ensures Value() == WriteAgain(old(Value()))
    {
      mode := mode.(throttled := false);
      if |ircout.data| > 0 {
        NetForceOutput();
      }
    }

    method IrcDisconnect()
      requires Separate()
      modifies this`mode, this`watch
      ensures Value() == Disconnect(old(Value()))
    {
      if !mode.connected {
        return;
      }
      mode := mode.(connected := false);
      watch := watch.(registered := false);
    }

    method ScheduleReconnection()
      requires Separate()
      modifies this`timers, this`broken
      ensures Value() == Daemon.ScheduleReconnection(old(Value()))
    {
      if mode.shutdown {
        broken := true;
        return;
      }
      timers := timers.(reconnect := timers.reconnect + 1);
    }

    method NetIrcCleanup()
      requires Separate()
      modifies this, ircin, ircout
      ensures Value() == Cleanup(old(Value()))
    {
      IrcDisconnect();
      ircin.Drain(|ircin.data|);
      ircout.Drain(|ircout.data|);
      wire, queued := "", "";
      if mode.shutdown {
        broken := true;
        return;
      }
      ScheduleReconnection();
    }

    // The callback's share of irc_switch: change_nick, irc_send_join,
    // irc_got_banned and the handlers that only reply.
    method Handle(c: Command, reply: string)
      requires Separate()
      modifies this, ircout
      ensures Value() == React(old(Value()), c, reply)
    {
      match c {
        case Nothing =>
        case Ready(_) =>
          mode := mode.(connected := true);
          Queue(reply);
        case NickTaken =>
          if !mode.nickUsed {
            timers := timers.(nick := timers.nick + 1);
          }
          mode := mode.(nickUsed := true);
          if !mode.connected {
            Queue(reply);
          }
        case Banned(_) =>
          mode := mode.(banned := true);
          timers := timers.(rejoin := timers.rejoin + 1);
        case Ping(_) => Queue(reply);
        case Ctcp(_) => Queue(reply);
        case Privmsg(_, _) => Queue(reply);
        case Other(_, _) => Queue(reply);
      }
    }

    // One line, the k-th of a read.
    method HandleLine(line: string, replies: Replies, k: nat)
      requires Separate()
      modifies this, ircout
      ensures Value() == React(old(Value()), Asked(line), replies(k, Asked(line)))
    {
      var buf := Terminated(line);
      var c := ParseLine(buf);
      Handle(c, replies(k, c));
    }

    // What is left to do once `line`, the k-th, is in hand.
    ghost predicate LineInHand(line: Option<string>, goal: State, replies: Replies, k: nat)
      reads this, ircin, ircout
    {
      if line.None? then Value() == goal
      else goal == Goal(React(Value(), Asked(line.value), replies(k, Asked(line.value))), replies, k + 1)
    }

    method ReadOne(ghost goal: State, ghost replies: Replies, ghost k: nat) returns (line: Option<string>)
      requires Separate() && Goal(Value(), replies, k) == goal
      modifies ircin
      ensures LineInHand(line, goal, replies, k)
      ensures line.Some? ==> |ircin.data| < |old(ircin.data)|
    {
      GoalStep(Value(), replies, k);
      line := ircin.Readline();
    }

    // The loop over the lines that are complete.
    method IrcParse(replies: Replies)
      requires Separate()
      modifies this, ircin, ircout
      ensures var (lines, tail) := ParseAll(old(ircin.data));
              Value() == ReactAll(old(Value()).(input := tail), AskedAll(lines), replies, 0)
    {
      ghost var goal := Goal(Value(), replies, 0);
      var k := 0;
      var tmp := ReadOne(goal, replies, 0);
      while tmp.Some?
        invariant LineInHand(tmp, goal, replies, k)
        decreases if tmp.Some? then |ircin.data| + 1 else 0
      {
        HandleLine(tmp.value, replies, k);
        k := k + 1;
        if |ircin.data| > 0 {
          tmp := ReadOne(goal, replies, k);
        } else {
          GoalStep(Value(), replies, k);
          tmp := None;
        }
      }
    }

    method NetIrcRead(received: string, replies: Replies)
      requires Separate()
      modifies this, ircin, ircout
      ensures Value() == Read(old(Value()), received, replies)
    {
      if |received| == 0 {
        NetIrcCleanup();
        return;
      }
      ircin.Add(received);
      IrcParse(replies);
      if |ircout.data| > 0 {
        watch := watch.(write := true);
      }
      watch := watch.(registered := true);
    }

    method NetIrcWrite(sock: int)
      requires Separate() && ircout.data != ""
      modifies this, ircin, ircout
      ensures Value() == Write(old(Value()), sock)
    {
      var ret := SendBytes(|ircout.data|, sock);
      if ret <= 0 {
        NetIrcCleanup();
        return;
      }
      if mode.shutdown {
        broken := true;
        return;
      }
      if |ircout.data| == 0 {
        watch := watch.(write := false);
      }
      watch := watch.(registered := true);
    }

    method ScheduleIrcWrite(timerOk: bool)
      requires Separate()
      modifies this`mode, this`watch, this`timers
      ensures Value() == ScheduleWrite(old(Value()), timerOk)
    {
      if timerOk {
        timers := timers.(writer := timers.writer + 1);
      } else {
        NetThrottledWrite();
      }
    }

    // The loop that looks for the end of the lines that may be sent now.
    method FirstLines(now: int) returns (i: nat)
      requires burst <= QUOTA
      modifies this`burst
      ensures i == Planned(old(Limiter(burst, last)), ircout.data, now)
      ensures burst == Burst(old(Limiter(burst, last)), ircout.data, now)
    {
      ghost var l, data := Limiter(burst, last), ircout.data;
      if now - last > 3 {
        burst := 0;
      }
      i := 0;
      assert Newlines(data[..0]) == 0;
      while i < |ircout.data| && burst < 4
        invariant 0 <= i <= |data|
        invariant burst == Reset(l, now) + Newlines(data[..i])
        invariant Planned(l, data, now) == AttemptFrom(data, QUOTA - Reset(l, now), i)
      {
        NewlinesNext(data, i);
        if ircout.data[i] == '\n' {
          burst := burst + 1;
        }
        i := i + 1;
      }
    }

    method WriteLater(timerOk: bool)
      requires Separate()
      modifies this`mode, this`watch, this`timers
      ensures Value() == Daemon.WriteLater(old(Value()), timerOk)
    {
      if |ircout.data| > 0 && !mode.throttled {
        mode := mode.(throttled := true);
        ScheduleIrcWrite(timerOk);
      }
    }

    // From its label `nothing' on: no error, not the last send.
    method AfterSending(now: int, timerOk: bool)
      requires Separate()
      modifies this
      ensures Value() == Daemon.AfterSending(old(Value()), now, timerOk)
    {
      watch := watch.(write := false);
      WriteLater(timerOk);
      if burst > 0 && now - last >= 1 {
        burst := burst - 1;
      }
      last := now;
      watch := watch.(registered := true);
    }

    // `clock` is what time() says, nothing when it fails.
    method NetIrcThrottledWrite(sock: int, clock: Option<int>, timerOk: bool)
      requires Separate() && ircout.data != "" && burst <= QUOTA
      modifies this, ircin, ircout
      ensures Value() == if clock.Some? then ThrottledWrite(old(Value()), sock, clock.value, timerOk)
                         else Write(old(Value()), sock)
    {
      if clock == None {
        NetIrcWrite(sock);
        return;
      }
      var i := FirstLines(clock.value);
      if i > 0 {
        var ret := SendBytes(i, sock);
        if ret <= 0 {
          NetIrcCleanup();
          return;
        }
        if mode.shutdown {
          broken := true;
          return;
        }
      }
      AfterSending(clock.value, timerOk);
    }

    method NetIrcEvent(e: Event)
      requires Separate() && e.Irc? && burst <= QUOTA && (e.write && !e.read ==> ircout.data != "")
      modifies this, ircin, ircout
      ensures Value() == IrcEvent(old(Value()), e)
    {
      watch := watch.(registered := false);   // libevent, before the call
      if e.read {
        NetIrcRead(e.received, e.replies);
        return;
      }
      var write := e.write;
      if e.timeout {
        Queue(SelfPing(e.nick));
        write := true;
      }
      if write {
        if mode.throttling {
          NetIrcThrottledWrite(e.sock, e.clock, e.timerOk);
        } else {
          NetIrcWrite(e.sock);
        }
      }
    }

    method IrcReconnect(connect: Connect)
      requires Separate()
      modifies this, ircin, ircout
      ensures Value() == Reconnect(old(Value()), connect)
    {
      match connect
      case Failed =>
        ScheduleReconnection();
      case NoServer =>
        broken := true;
      case Up(helo) =>
        watch := Watch(true, false);
        Queue(helo);
      case HandshakeFailed =>
        watch := Watch(true, false);
        NetIrcCleanup();
        ScheduleReconnection();
    }

    method IrcShutdown(quit: string)
      requires Separate()
      modifies this, ircout
      ensures Value() == Quit(old(Value()), quit)
    {
      if quitSent {
        return;
      }
      Queue("QUIT" + quit + "\n");
      NetForceOutput();
      quitSent := true;
    }

    // ---- misc.c, hooks.c, hup.c, signal.c ----

    method TryNickChange(nick: string)
      requires Separate()
      modifies this, ircout
      ensures Value() == ChangeNick(old(Value()), nick)
    {
      Queue("NICK " + nick + "\n");
      mode := mode.(nickUsed := false);
    }

    method TryRejoinAfterBan(join: string)
      requires Separate()
      modifies this, ircout
      ensures Value() == Rejoin(old(Value()), join)
    {
      mode := mode.(connected := true);
      Queue(join);
      mode := mode.(banned := false);
    }

    method DatagramRead(messages: Option<string>)
      requires Separate()
      modifies this, ircout
      ensures Value() == Arrival(old(Value()), messages)
    {
      if messages == None {
        return;
      }
      if mode.connected {
        Queue(messages.value);
      }
      if |ircout.data| > 0 {
        NetForceOutput();
      }
    }

    method HandleHookLine(line: string)
      requires Separate()
      modifies this, ircout
      ensures Value() == FromHook(old(Value()), line)
    {
      var buf := Terminated(line);
      var rc, bytes := HookWire.HooksParseCmd(buf);
      Queue(bytes);
      if rc == 0 && mode.connected {
        NetForceOutput();
      }
    }

    // What a hook wrote goes behind what its buffer still holds; one line of it is
    // handled, however many are complete.
    method HooksRead(data: Evbuffer, received: string)
      requires Separate() && data != ircin && data != ircout && received != ""
      modifies this, ircout, data
      ensures var r := ReadLine(old(data.data) + received);
              if r.None? then data.data == old(data.data) + received && Value() == old(Value())
              else data.data == r.value.1 && Value() == FromHook(old(Value()), r.value.0)
    {
      data.Add(received);
      var line := data.Readline();
      if line == None {
        return;
      }
      HandleHookLine(line.value);
    }

    method HupHandler(reload: Reloading)
      requires Separate()
      modifies this, ircout
      ensures Value() == Reloaded(old(Value()), reload)
    {
      if reload.GivenUp? {
        return;
      }
      R.CheckChannels(ircout, reload.olds, reload.news);
      queued := queued + R.Lines(R.Diff(reload.olds, reload.news));
      if reload.renick.Some? {
        TryNickChange(reload.renick.value);
      }
      mode := mode.(throttling := reload.throttling);
    }

    method HandlerShutdown()
      requires Separate()
      modifies this
      ensures Value() == ShutDown(old(Value()))
    {
      mode := mode.(shutdown := true);
      if !mode.connected {
        broken := true;
        return;
      }
      timers := timers.(quit := timers.quit + 1);
    }

    // ---- event_dispatch ----

    // One-shot timers leave the queue before their callback runs.
    method Callback(e: Event)
      requires Separate() && Enabled(Value(), e) && Invariant(Value())
      modifies this, ircin, ircout
      ensures Value() == Step(old(Value()), e)
    {
      match e {
        case Irc(_, _, _, _, _, _, _, _, _) =>
          NetIrcEvent(e);
        case WriterTimer =>
          timers := timers.(writer := timers.writer - 1);
          NetThrottledWrite();
        case ReconnectTimer(connect) =>
          timers := timers.(reconnect := timers.reconnect - 1);
          IrcReconnect(connect);
        case NickTimer(nick) =>
          timers := timers.(nick := timers.nick - 1);
          TryNickChange(nick);
        case RejoinTimer(join) =>
          timers := timers.(rejoin := timers.rejoin - 1);
          TryRejoinAfterBan(join);
        case QuitTimer(quit) =>
          timers := timers.(quit := timers.quit - 1);
          IrcShutdown(quit);
        case Datagram(messages) => DatagramRead(messages);
        case HookLine(line) => HandleHookLine(line);
        case Hup(reload) => HupHandler(reload);
        case Signal => HandlerShutdown();
      }
    }

    // The daemon from its start to the end of any run, safe all along.
    method Dispatch(es: seq<Event>)
      requires Separate() && Invariant(Value()) && Runs.Possible(Value(), es)
      modifies this, ircin, ircout
      ensures Value() == Runs.Final(old(Value()), es) && Invariant(Value())
    {
      ghost var start := Value();
      var i := 0;
      while i < |es|
        invariant 0 <= i <= |es| && Invariant(Value())
        invariant Runs.Possible(Value(), es[i..])
        invariant Runs.Final(Value(), es[i..]) == Runs.Final(start, es)
      {
        StepKeeps(Value(), es[i]);
        assert es[i..][1..] == es[i + 1..];
        Callback(es[i]);
        i := i + 1;
      }
    }
  }

  // What irc_parse has still to do from a state on, from the k-th line.
  ghost function Goal(s: State, replies: Replies, k: nat): State {
    var (lines, tail) := ParseAll(s.input);
    ReactAll(s.(input := tail), AskedAll(lines), replies, k)
  }

  lemma ReactKeepsInput(s: State, c: Command, reply: string, input: string)
    ensures React(s, c, reply).input == s.input
    ensures React(s.(input := input), c, reply) == React(s, c, reply).(input := input)
  {
  }

  lemma ReactFirst(s: State, line: string, rest: seq<string>, replies: Replies, k: nat)
    ensures ReactAll(s, AskedAll([line] + rest), replies, k) ==
            ReactAll(React(s, Asked(line), replies(k, Asked(line))), AskedAll(rest), replies, k + 1)
  {
    var c := Asked(line);
    assert ([line] + rest)[1..] == rest;
    assert AskedAll([line] + rest) == [c] + AskedAll(rest);
    assert ([c] + AskedAll(rest))[1..] == AskedAll(rest);
  }

  lemma GoalStep(s: State, replies: Replies, k: nat)
    ensures ReadLine(s.input).None? ==> Goal(s, replies, k) == s
    ensures ReadLine(s.input).Some? ==>
              var (line, rest) := ReadLine(s.input).value;
              Goal(s, replies, k) ==
              Goal(React(s.(input := rest), Asked(line), replies(k, Asked(line))), replies, k + 1)
  {
    if ReadLine(s.input).Some? {
      var (line, rest) := ReadLine(s.input).value;
      var (lines, tail) := ParseAll(rest);
      assert ParseAll(s.input) == ([line] + lines, tail);
      ReactFirst(s.(input := tail), line, lines, replies, k);
      ReactKeepsInput(s.(input := rest), Asked(line), replies(k, Asked(line)), tail);
    } else {
      assert ParseAll(s.input) == ([], s.input);
      assert AskedAll([]) == [];
    }
  }
}
