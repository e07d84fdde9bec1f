// The IRC side of iyelld as a state machine: one step for each libevent
// callback of network.c, sched.c, misc.c, irc.c, hooks.c, hup.c and signal.c.
module Daemon {
  import opened Options
  import opened CString
  import opened Throttle
  import Framing
  import HookWire
  import R = Reload

  // ---- Lines from the server (irc_parse, irc_switch) ----

  datatype Command =
    | Nothing
    | Ping(args: string)
    | Ctcp(text: string)
    | Privmsg(who: string, rest: Option<string>)
    | Ready(code: string)
    | NickTaken
    | Banned(rest: Option<string>)
    | Other(name: string, rest: Option<string>)

  const SEPARATORS := " :"
  const OTHERS: seq<string> := ["INVITE", "KICK", "366", "475", "473"]

  // The comparisons of irc_switch: who sent the code, and what stands behind it.
  function Chosen(who: string, code: string, rest: Option<string>): Command {
    if code == "PRIVMSG" then Privmsg(who, rest)
    else if code == "376" || code == "422" then Ready(code)
    else if code == "433" then NickTaken
    else if code == "474" then Banned(rest)
    else if code in OTHERS then Other(code, rest)
    else Nothing
  }

  // irc_switch: the text behind the leading colon.
  function Switch(str: string): Command {
    var tmp := After(str, SEPARATORS);
    if tmp.None? then Nothing
    else Chosen(Before(str, SEPARATORS), Before(tmp.value, SEPARATORS), After(tmp.value, SEPARATORS))
  }

  // irc_parse: what one line asks for.  A PING without argument is not
  // accounted for: the C code would read through a null pointer.
  function Dispatch(line: string): Command {
    if line != "" && line[0] == ':' then
      (if '\U{0001}' in line then Ctcp(line[1..]) else Switch(line[1..]))
    else if Before(line, SEPARATORS) == "PING" && After(line, SEPARATORS).Some? then
      Ping(After(line, SEPARATORS).value)
    else Nothing
  }

  // The line is handled as a C string: what follows a NUL is not looked at.
  function Asked(line: string): Command {
    Dispatch(AsC(line))
  }

  // Empty lines, such as the second half of a CR LF cut in two, ask for nothing.
  lemma EmptyLineIsNothing()
    ensures Asked("") == Nothing
  {
  }

  // ---- State ----

  // The bits of g_mode the callbacks test or change.
  datatype Mode = Mode(throttling: bool, throttled: bool, shutdown: bool, connected: bool, nickUsed: bool, banned: bool)

  // ev_irc: in the event queue or not, and whether it asks for EV_WRITE.
  datatype Watch = Watch(registered: bool, write: bool)

  // One-shot timers that have not fired yet.
  datatype Timers = Timers(reconnect: nat, writer: nat, nick: nat, rejoin: nat, quit: nat)

  datatype State = State(
    out: string,        // ircout
    input: string,      // ircin
    mode: Mode,
    limiter: Limiter,
    watch: Watch,
    timers: Timers,
    broken: bool,       // event_loopbreak() has been called
    quitSent: bool,     // irc_shutdown has run
    wire: string,       // bytes the server's socket took since the last cleanup
    queued: string)     // bytes queued for it since then

  // What happens to a bot: what libevent reports and what the outside answers.
  datatype Connect = Failed | NoServer | Up(helo: string) | HandshakeFailed

  // What the handlers queue for the commands of one read, by their position: it
  // depends on the configuration, the clock, the nick and what was asked before.
  type Replies = (nat, Command) -> string

  // SIGHUP, given up half-way or complete.
  datatype Reloading =
    | GivenUp
    | Complete(olds: seq<string>, news: seq<string>, renick: Option<string>, throttling: bool)

  datatype Event =
    | Irc(read: bool, write: bool, timeout: bool, received: string, replies: Replies,
          sock: int, clock: Option<int>, timerOk: bool, nick: string)
    | WriterTimer
    | ReconnectTimer(connect: Connect)
    | NickTimer(nick: string)
    | RejoinTimer(join: string)
    | QuitTimer(quit: string)
    | Datagram(messages: Option<string>)
    | HookLine(line: string)
    | Hup(reload: Reloading)
    | Signal

  // ---- Pieces ----

  function Enqueue(s: State, bytes: string): State {
    s.(out := s.out + bytes, queued := s.queued + bytes)
  }

  // evbuffer_drain after a send that took n bytes
  function Took(s: State, n: nat): State
    requires n <= |s.out|
  {
    s.(out := s.out[n..], wire := s.wire + s.out[..n])
  }

  // event_set() and event_add()
  function Register(s: State, write: bool): State {
    s.(watch := Watch(true, write))
  }

  function Unregister(s: State): State {
    s.(watch := s.watch.(registered := false))
  }

  // event_add() alone
  function AddAgain(s: State): State {
    s.(watch := s.watch.(registered := true))
  }

  function Break(s: State): State {
    s.(broken := true)
  }

  // net_force_output
  function ForceOutput(s: State): State {
    Register(s, true)
  }

  // schedule_reconnection
  function ScheduleReconnection(s: State): State {
    if s.mode.shutdown then Break(s) else s.(timers := s.timers.(reconnect := s.timers.reconnect + 1))
  }

  // irc_disconnect
  function Disconnect(s: State): State {
    if s.mode.connected then Unregister(s.(mode := s.mode.(connected := false))) else s
  }

  // both buffers drained
  function Emptied(s: State): State {
    s.(input := "", out := "", wire := "", queued := "")
  }

  function ScheduleOrBreak(s: State): State {
    if s.mode.shutdown then Break(s) else ScheduleReconnection(s)
  }

  // net_irc_cleanup
  function Cleanup(s: State): State {
    ScheduleOrBreak(Emptied(Disconnect(s)))
  }

  // ---- Reading ----

  // change_nick, irc_send_join, irc_got_banned and the handlers that only reply;
  // `reply` is the text they queue.
  function React(s: State, c: Command, reply: string): State {
    match c
    case Nothing => s
    case Ready(_) => Enqueue(s.(mode := s.mode.(connected := true)), reply)
    case NickTaken =>
      var s1 := s.(mode := s.mode.(nickUsed := true),
                   timers := s.timers.(nick := s.timers.nick + (if s.mode.nickUsed then 0 else 1)));
      if s.mode.connected then s1 else Enqueue(s1, reply)
    case Banned(_) => s.(mode := s.mode.(banned := true), timers := s.timers.(rejoin := s.timers.rejoin + 1))
    case _ => Enqueue(s, reply)
  }

  // The commands from position k of a read on.
  function ReactAll(s: State, cs: seq<Command>, replies: Replies, k: nat): State
    decreases |cs|
  {
    if cs == [] then s else ReactAll(React(s, cs[0], replies(k, cs[0])), cs[1..], replies, k + 1)
  }

  function AskedAll(lines: seq<string>): seq<Command> {
    if lines == [] then [] else [Asked(lines[0])] + AskedAll(lines[1..])
  }

  // net_irc_read; an empty `received` stands for a failed recv().
  function Read(s: State, received: string, replies: Replies): State {
    if received == "" then Cleanup(s)
    else
      var (lines, tail) := Framing.ParseAll(s.input + received);
      var s1 := ReactAll(s.(input := tail), AskedAll(lines), replies, 0);
      if s1.out != "" then Register(s1, true) else AddAgain(s1)
  }

  // ---- Writing ----

  // net_irc_write; the buffer is asserted not to be empty.
  function Write(s: State, sock: int): State
    requires s.out != ""
  {
    var ret := Accepted(|s.out|, sock);
    if ret <= 0 then Cleanup(s)
    else
      var s1 := Took(s, ret);
      if s.mode.shutdown then Break(s1)
      else if s1.out == "" then Register(s1, false)
      else AddAgain(s1)
  }

  // net_throttled_write, the timer callback
  function WriteAgain(s: State): State {
    var s1 := s.(mode := s.mode.(throttled := false));
    if s1.out != "" then ForceOutput(s1) else s1
  }

  // schedule_irc_write; when event_once() fails the callback runs at once.
  function ScheduleWrite(s: State, timerOk: bool): State {
    if timerOk then s.(timers := s.timers.(writer := s.timers.writer + 1)) else WriteAgain(s)
  }

  // output that is left over waits for the timer
  function WriteLater(s: State, timerOk: bool): State {
    if s.out != "" && !s.mode.throttled then ScheduleWrite(s.(mode := s.mode.(throttled := true)), timerOk) else s
  }

  // net_irc_throttled_write from its label `nothing' on: no error, not the last send.
  function AfterSending(s: State, now: int, timerOk: bool): State {
    var s1 := WriteLater(s.(watch := s.watch.(write := false)), timerOk);
    AddAgain(s1.(limiter := Cooled(s.limiter, now)))
  }

  // net_irc_throttled_write; the buffer is asserted not to be empty.
  function ThrottledWrite(s: State, sock: int, now: int, timerOk: bool): State
    requires s.out != "" && InRange(s.limiter)
  {
    var n := Planned(s.limiter, s.out, now);
    var ret := Accepted(n, sock);
    var s1 := s.(limiter := Aborted(s.limiter, s.out, now));
    if n == 0 then AfterSending(s1, now, timerOk)
    else if ret <= 0 then Cleanup(s1)
    else if s.mode.shutdown then Break(Took(s1, ret))
    else AfterSending(Took(s1, ret), now, timerOk)
  }

  function SelfPing(nick: string): string {
    "PRIVMSG " + nick + " :\U{0001}PING\U{0001}\n"
  }

  // net_irc_event, once libevent has taken ev_irc out of its queue.  When time()
  // fails the throttled writer hands over to the other one.
  function IrcEvent(s: State, e: Event): State
    requires e.Irc? && InRange(s.limiter) && (e.write && !e.read ==> s.out != "")
  {
    var s0 := Unregister(s);
    if e.read then Read(s0, e.received, e.replies)
    else
      var s1 := if e.timeout then Enqueue(s0, SelfPing(e.nick)) else s0;
      if !e.timeout && !e.write then s1
      else if s1.mode.throttling && e.clock.Some? then ThrottledWrite(s1, e.sock, e.clock.value, e.timerOk)
      else Write(s1, e.sock)
  }

  // ---- Timers, other sockets, signals ----

  // irc_reconnect
  function Reconnect(s: State, connect: Connect): State {
    match connect
    case Failed => ScheduleReconnection(s)
    case NoServer => Break(s)
    case Up(helo) => Enqueue(Register(s, false), helo)
    case HandshakeFailed => ScheduleReconnection(Cleanup(Register(s, false)))
  }

  // try_nick_change
  function ChangeNick(s: State, nick: string): State {
    var s1 := Enqueue(s, "NICK " + nick + "\n");
    s1.(mode := s1.mode.(nickUsed := false))
  }

  // try_rejoin_after_ban
  function Rejoin(s: State, join: string): State {
    var s1 := Enqueue(s.(mode := s.mode.(connected := true)), join);
    s1.(mode := s1.mode.(banned := false))
  }

  // irc_shutdown
  function Quit(s: State, quit: string): State {
    if s.quitSent then s else ForceOutput(Enqueue(s, "QUIT" + quit + "\n")).(quitSent := true)
  }

  // The UDP, syslog and Unix listeners: messages are dropped unless connected,
  // but a buffer that is not empty is pushed out either way.  A failed receive
  // stops the listener and leaves the connection alone.
  function Arrival(s: State, messages: Option<string>): State {
    if messages.None? then s
    else
      var s1 := if s.mode.connected then Enqueue(s, messages.value) else s;
      if s1.out != "" then ForceOutput(s1) else s1
  }

  // hooks_read, once a whole line is there
  function FromHook(s: State, line: string): State {
    var (rc, bytes) := HookWire.ParseReply(AsC(line));
    var s1 := Enqueue(s, bytes);
    if rc == 0 && s.mode.connected then ForceOutput(s1) else s1
  }

  // hup_handler; one that gives up changes nothing here.
  function Reloaded(s: State, reload: Reloading): State {
    if reload.GivenUp? then s
    else
      var s1 := Enqueue(s, R.Lines(R.Diff(reload.olds, reload.news)));
      var s2 := if reload.renick.Some? then ChangeNick(s1, reload.renick.value) else s1;
      s2.(mode := s2.mode.(throttling := reload.throttling))
  }

  // handler_shutdown and schedule_shutdown
  function ShutDown(s: State): State {
    var s1 := s.(mode := s.mode.(shutdown := true));
    if s.mode.connected then s1.(timers := s1.timers.(quit := s1.timers.quit + 1)) else Break(s1)
  }

  // ---- Steps ----

  // libevent only reports what was asked for, fires timers that are pending
  // and runs nothing once the loop is broken.
  predicate Enabled(s: State, e: Event) {
    !s.broken &&
    match e
    case Irc(read, write, timeout, _, _, _, _, _, _) =>
      s.watch.registered && (write ==> s.watch.write) && (read || write || timeout)
    case WriterTimer => s.timers.writer > 0
    case ReconnectTimer(_) => s.timers.reconnect > 0
    case NickTimer(_) => s.timers.nick > 0
    case RejoinTimer(_) => s.timers.rejoin > 0
    case QuitTimer(_) => s.timers.quit > 0
    case Datagram(_) => true
    case HookLine(_) => true
    case Hup(_) => !s.mode.shutdown
    case Signal => true
  }

  function Step(s: State, e: Event): State
    requires Enabled(s, e) && Invariant(s)
  {
    match e
    case Irc(_, _, _, _, _, _, _, _, _) => IrcEvent(s, e)
    case WriterTimer => WriteAgain(s.(timers := s.timers.(writer := s.timers.writer - 1)))
    case ReconnectTimer(connect) => Reconnect(s.(timers := s.timers.(reconnect := s.timers.reconnect - 1)), connect)
    case NickTimer(nick) => ChangeNick(s.(timers := s.timers.(nick := s.timers.nick - 1)), nick)
    case RejoinTimer(join) => Rejoin(s.(timers := s.timers.(rejoin := s.timers.rejoin - 1)), join)
    case QuitTimer(quit) => Quit(s.(timers := s.timers.(quit := s.timers.quit - 1)), quit)
    case Datagram(messages) => Arrival(s, messages)
    case HookLine(line) => FromHook(s, line)
    case Hup(reload) => Reloaded(s, reload)
    case Signal => ShutDown(s)
  }

  // ---- Invariant ----

  // Whenever ev_irc waits to write there is something to write: the two
  // asserts on the buffer length cannot fail.
  predicate NoEmptyWrite(s: State) {
    s.watch.registered && s.watch.write ==> s.out != ""
  }

  // THROTTLED is set exactly while one writer timer is pending.
  predicate OneWriterTimer(s: State) {
    s.timers.writer == if s.mode.throttled then 1 else 0
  }

  // The loop is over, or the server is listened to, or a reconnection is due.
  predicate NeverDeaf(s: State) {
    s.broken || s.watch.registered || s.timers.reconnect > 0
  }

  // A flag that waits for a timer has one.
  predicate NoStuckFlag(s: State) {
    (s.mode.nickUsed ==> s.timers.nick > 0) && (s.mode.banned ==> s.timers.rejoin > 0)
  }

  // What was sent and what is still queued is all that was queued, in order.
  predicate Fifo(s: State) {
    s.wire + s.out == s.queued
  }

  predicate Invariant(s: State) {
    NoEmptyWrite(s) && OneWriterTimer(s) && NeverDeaf(s) && NoStuckFlag(s) && Fifo(s) && InRange(s.limiter)
  }

  // Between the callback's start and its end ev_irc may be out of the queue.
  predicate Inside(s: State) {
    OneWriterTimer(s) && NoStuckFlag(s) && Fifo(s) && InRange(s.limiter)
  }

  lemma FifoEnqueue(s: State, bytes: string)
    requires Fifo(s)
    ensures Fifo(Enqueue(s, bytes))
  {
    assert s.wire + (s.out + bytes) == s.wire + s.out + bytes;
  }

  lemma FifoTook(s: State, n: nat)
    requires Fifo(s) && n <= |s.out|
    ensures Fifo(Took(s, n))
  {
    assert s.out == s.out[..n] + s.out[n..];
    assert s.wire + s.out[..n] + s.out[n..] == s.wire + (s.out[..n] + s.out[n..]);
  }

  lemma EmptiedKeeps(s: State)
    requires Inside(s) && !(s.watch.registered && s.watch.write)
    ensures Inside(Emptied(s)) && NoEmptyWrite(Emptied(s))
  {
    assert "" + "" == "";
  }

  lemma DisconnectKeeps(s: State)
    requires Inside(s) && !(s.watch.registered && s.watch.write)
    ensures Inside(Disconnect(s)) && !(Disconnect(s).watch.registered && Disconnect(s).watch.write)
  {
  }

  lemma ScheduleKeeps(s: State)
    requires Inside(s) && NoEmptyWrite(s)
    ensures Invariant(ScheduleReconnection(s)) && Invariant(ScheduleOrBreak(s))
  {
  }

  lemma CleanupKeeps(s: State)
    requires Inside(s) && !(s.watch.registered && s.watch.write)
    ensures Invariant(Cleanup(s))
  {
    DisconnectKeeps(s);
    EmptiedKeeps(Disconnect(s));
    ScheduleKeeps(Emptied(Disconnect(s)));
  }

  lemma ReactKeeps(s: State, c: Command, reply: string)
    requires Inside(s)
    ensures Inside(React(s, c, reply)) && React(s, c, reply).watch == s.watch
    ensures |React(s, c, reply).out| >= |s.out|
  {
    FifoEnqueue(s, reply);
  }

  lemma {:induction false} ReactAllKeeps(s: State, cs: seq<Command>, replies: Replies, k: nat)
    requires Inside(s)
    ensures Inside(ReactAll(s, cs, replies, k)) && ReactAll(s, cs, replies, k).watch == s.watch
    ensures |ReactAll(s, cs, replies, k).out| >= |s.out|
    decreases |cs|
  {
    if cs == [] {
    } else {
      ReactKeeps(s, cs[0], replies(k, cs[0]));
      ReactAllKeeps(React(s, cs[0], replies(k, cs[0])), cs[1..], replies, k + 1);
    }
  }

  lemma ReadKeeps(s: State, received: string, replies: Replies)
    requires Inside(s) && !s.watch.registered && (s.watch.write ==> s.out != "")
    ensures Invariant(Read(s, received, replies))
  {
    if received == "" {
      CleanupKeeps(s);
    } else {
      var (lines, tail) := Framing.ParseAll(s.input + received);
      ReactAllKeeps(s.(input := tail), AskedAll(lines), replies, 0);
    }
  }

  lemma WriteKeeps(s: State, sock: int)
    requires Inside(s) && !s.watch.registered && s.out != ""
    ensures Invariant(Write(s, sock))
  {
    var ret := Accepted(|s.out|, sock);
    if ret <= 0 {
      CleanupKeeps(s);
    } else {
      FifoTook(s, ret);
    }
  }

  lemma WriteLaterKeeps(s: State, timerOk: bool)
    requires Inside(s) && NoEmptyWrite(s)
    ensures Inside(WriteLater(s, timerOk)) && (WriteLater(s, timerOk).watch.write ==> s.watch.write || s.out != "")
    ensures WriteLater(s, timerOk).out == s.out
  {
  }

  lemma AfterSendingKeeps(s: State, now: int, timerOk: bool)
    requires Inside(s) && !s.watch.registered
    ensures Invariant(AfterSending(s, now, timerOk))
  {
    WriteLaterKeeps(s.(watch := s.watch.(write := false)), timerOk);
  }

  lemma ThrottledWriteKeeps(s: State, sock: int, now: int, timerOk: bool)
    requires Inside(s) && !s.watch.registered && s.out != ""
    ensures Invariant(ThrottledWrite(s, sock, now, timerOk))
  {
    BurstInRange(s.limiter, s.out, now);
    var n := Planned(s.limiter, s.out, now);
    var ret := Accepted(n, sock);
    var s1 := s.(limiter := Aborted(s.limiter, s.out, now));
    if n == 0 {
      AfterSendingKeeps(s1, now, timerOk);
    } else if ret <= 0 {
      CleanupKeeps(s1);
    } else {
      FifoTook(s1, ret);
      if !s.mode.shutdown {
        AfterSendingKeeps(Took(s1, ret), now, timerOk);
      }
    }
  }

  lemma IrcEventKeeps(s: State, e: Event)
    requires e.Irc? && Invariant(s) && Enabled(s, e)
    ensures Invariant(IrcEvent(s, e))
  {
    var s0 := Unregister(s);
    if e.read {
      ReadKeeps(s0, e.received, e.replies);
    } else {
      var s1 := if e.timeout then Enqueue(s0, SelfPing(e.nick)) else s0;
      FifoEnqueue(s0, SelfPing(e.nick));
      if s1.mode.throttling && e.clock.Some? {
        ThrottledWriteKeeps(s1, e.sock, e.clock.value, e.timerOk);
      } else {
        WriteKeeps(s1, e.sock);
      }
    }
  }

  lemma ReconnectKeeps(s: State, connect: Connect)
    requires Inside(s) && NoEmptyWrite(s)
    ensures Invariant(Reconnect(s, connect))
  {
    match connect
    case Failed => ScheduleKeeps(s);
    case NoServer =>
    case Up(helo) => FifoEnqueue(Register(s, false), helo);
    case HandshakeFailed =>
      CleanupKeeps(Register(s, false));
      ScheduleKeeps(Cleanup(Register(s, false)));
  }

  // Data from a hook is queued whether the bot is connected or not: the output
  // stays as it is if and only if the line holds no reply.  Being connected only
  // decides whether it is forced out.
  lemma HookDataIsQueued(s: State, line: string, connected: bool)
    ensures var s1 := s.(mode := s.mode.(connected := connected));
            (FromHook(s1, line).out == s.out <==> HookWire.NoReply(AsC(line))) &&
            FromHook(s1, line).out == FromHook(s, line).out &&
            (!connected ==> FromHook(s1, line).watch == s.watch)
  {
    var bytes := HookWire.ParseReply(AsC(line)).1;
    HookWire.OnlyNoReplyQueuesNothing(AsC(line));
    assert |s.out + bytes| == |s.out| + |bytes|;
    assert s.out + "" == s.out;
  }

  // The reply bob:#chan:hi arrives while the bot is not connected.
  lemma QueuedWhileDisconnected(s: State)
    requires !s.mode.connected
    ensures var s' := FromHook(s, HookWire.Reply("bob", "#chan", "hi"));
            s'.out == s.out + ("PRIVMSG " + "#chan" + " :" + "bob" + ": " + "hi" + "\n") && s'.watch == s.watch
  {
    WholeToken(HookWire.Reply("bob", "#chan", "hi"), [NUL]);
    HookWire.NamedReply("bob", "#chan", "hi");
  }

  lemma FromHookKeeps(s: State, line: string)
    requires Invariant(s)
    ensures Invariant(FromHook(s, line))
  {
    FifoEnqueue(s, HookWire.ParseReply(AsC(line)).1);
    assert HookWire.ParseReply(AsC(line)).0 == 0 ==> HookWire.ParseReply(AsC(line)).1 != "";
  }

  lemma TimerKeeps(s: State, e: Event)
    requires Invariant(s) && Enabled(s, e) && (e.NickTimer? || e.RejoinTimer? || e.QuitTimer?)
    ensures Invariant(Step(s, e))
  {
    match e
    case NickTimer(nick) => FifoEnqueue(s, "NICK " + nick + "\n");
    case RejoinTimer(join) => FifoEnqueue(s, join);
    case QuitTimer(quit) => FifoEnqueue(s, "QUIT" + quit + "\n");
  }

  lemma ReloadedKeeps(s: State, reload: Reloading)
    requires Invariant(s)
    ensures Invariant(Reloaded(s, reload))
  {
    if reload.Complete? {
      var commands := R.Lines(R.Diff(reload.olds, reload.news));
      FifoEnqueue(s, commands);
      if reload.renick.Some? {
        FifoEnqueue(Enqueue(s, commands), "NICK " + reload.renick.value + "\n");
      }
    }
  }

  lemma WriterTimerKeeps(s: State)
    requires Invariant(s) && s.timers.writer > 0
    ensures Invariant(WriteAgain(s.(timers := s.timers.(writer := s.timers.writer - 1))))
  {
  }

  lemma ArrivalKeeps(s: State, messages: Option<string>)
    requires Invariant(s)
    ensures Invariant(Arrival(s, messages))
  {
    if messages.Some? {
      FifoEnqueue(s, messages.value);
    }
  }

  lemma ShutDownKeeps(s: State)
    requires Invariant(s)
    ensures Invariant(ShutDown(s))
  {
  }

  // Every callback keeps the invariant.
  lemma StepKeeps(s: State, e: Event)
    requires Invariant(s) && Enabled(s, e)
    ensures Invariant(Step(s, e))
  {
    match e
    case Irc(_, _, _, _, _, _, _, _, _) => IrcEventKeeps(s, e);
    case WriterTimer => WriterTimerKeeps(s);
    case ReconnectTimer(connect) =>
      ReconnectKeeps(s.(timers := s.timers.(reconnect := s.timers.reconnect - 1)), connect);
    case NickTimer(_) => TimerKeeps(s, e);
    case RejoinTimer(_) => TimerKeeps(s, e);
    case QuitTimer(_) => TimerKeeps(s, e);
    case Datagram(messages) => ArrivalKeeps(s, messages);
    case HookLine(line) => FromHookKeeps(s, line);
    case Hup(reload) => ReloadedKeeps(s, reload);
    case Signal => ShutDownKeeps(s);
  }
}
