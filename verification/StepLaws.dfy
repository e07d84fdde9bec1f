// Who sets and who clears each flag, how many timers of each kind are pending, and
// what shutting down does: laws of the callbacks and of whole runs.
module StepLaws {
  import opened Throttle
  import opened Daemon
  import opened DaemonRuns
  import Framing

  // ---- What a read hears ----

  // The finished lines of a read, with what was left of earlier ones.
  function LinesOf(s: State, e: Event): seq<string> {
    if e.Irc? && e.read && e.received != "" then Framing.ParseAll(s.input + e.received).0 else []
  }

  // One of the lines says that the bot is ready, or that its nick is taken.
  predicate HearsReady(lines: seq<string>) {
    lines != [] && (Asked(lines[0]).Ready? || HearsReady(lines[1..]))
  }

  predicate HearsTaken(lines: seq<string>) {
    lines != [] && (Asked(lines[0]).NickTaken? || HearsTaken(lines[1..]))
  }

  // How often the server says that the bot is banned.
  function Bans(lines: seq<string>): nat {
    if lines == [] then 0 else (if Asked(lines[0]).Banned? then 1 else 0) + Bans(lines[1..])
  }

  // A read of nothing, a send that fails, a handshake that fails: the connection is lost.
  predicate Loses(s: State, e: Event)
    requires InRange(s.limiter)
  {
    match e
    case Irc(read, _, timeout, received, _, sock, clock, _, nick) =>
      if read then received == ""
      else
        sock <= 0 &&
        (s.mode.throttling && clock.Some? ==>
           Planned(s.limiter, if timeout then s.out + SelfPing(nick) else s.out, clock.value) > 0)
    case ReconnectTimer(connect) => connect.HandshakeFailed?
    case _ => false
  }

  // ---- Reads ----

  // What a read makes of the flags and the timers: whether the server said that the
  // bot is ready, and that its nick is taken, and how often that it is banned.
  predicate Noted(s: State, s': State, ready: bool, taken: bool, bans: nat) {
    s'.mode == s.mode.(connected := s.mode.connected || ready, nickUsed := s.mode.nickUsed || taken,
                       banned := s.mode.banned || bans > 0) &&
    s'.timers == s.timers.(nick := s.timers.nick + (if taken && !s.mode.nickUsed then 1 else 0),
                           rejoin := s.timers.rejoin + bans) &&
    s'.broken == s.broken && s'.quitSent == s.quitSent
  }

  lemma NotedBoth(s: State, s1: State, s2: State, ready: bool, taken: bool, bans: nat,
                  ready': bool, taken': bool, bans': nat)
    requires Noted(s, s1, ready, taken, bans) && Noted(s1, s2, ready', taken', bans')
    ensures Noted(s, s2, ready || ready', taken || taken', bans + bans')
  {
  }

  lemma ReactNotes(s: State, c: Command, reply: string)
    ensures Noted(s, React(s, c, reply), c.Ready?, c.NickTaken?, if c.Banned? then 1 else 0)
  {
    match c
    case Nothing =>
    case Ready(_) =>
    case NickTaken =>
    case Banned(_) =>
    case _ =>
  }

  lemma {:induction false} LinesNoted(s: State, lines: seq<string>, replies: Replies, k: nat)
    ensures Noted(s, ReactAll(s, AskedAll(lines), replies, k), HearsReady(lines), HearsTaken(lines), Bans(lines))
    decreases |lines|
  {
    if lines == [] {
    } else {
      var c, rest := Asked(lines[0]), lines[1..];
      var s1 := React(s, c, replies(k, c));
      var s2 := ReactAll(s1, AskedAll(rest), replies, k + 1);
      assert AskedAll(lines) == [c] + AskedAll(rest);
      assert AskedAll(lines)[1..] == AskedAll(rest);
      LinesNoted(s1, rest, replies, k + 1);
      ReactNotes(s, c, replies(k, c));
      NotedBoth(s, s1, s2, c.Ready?, c.NickTaken?, if c.Banned? then 1 else 0,
                HearsReady(rest), HearsTaken(rest), Bans(rest));
    }
  }

  // ---- One callback ----

  // A callback that gets something through to the server.
  predicate Sends(s: State, e: Event)
    requires InRange(s.limiter)
  {
    e.Irc? && !e.read && e.sock > 0 &&
    (s.mode.throttling && e.clock.Some? ==>
       Planned(s.limiter, if e.timeout then s.out + SelfPing(e.nick) else s.out, e.clock.value) > 0)
  }

  predicate Renicks(e: Event) {
    e.Hup? && e.reload.Complete? && e.reload.renick.Some?
  }

  // Reconnections that are scheduled unless the bot is shutting down: one for a lost
  // connection and one for a failed attempt, which a failed handshake is both.
  function Attempts(e: Event, lost: bool): nat {
    if e.ReconnectTimer? then (if e.connect.Failed? then 1 else if e.connect.HandshakeFailed? then 2 else 0)
    else if lost then 1
    else 0
  }

  // Who sets and who clears each flag.
  predicate Flags(s: State, e: Event, s': State, lost: bool, ready: bool, taken: bool, bans: nat) {
    (s'.mode.connected <==> !lost && (s.mode.connected || e.RejoinTimer? || ready)) &&
    (s'.mode.nickUsed <==> !e.NickTimer? && !Renicks(e) && (s.mode.nickUsed || taken)) &&
    (s'.mode.banned <==> !e.RejoinTimer? && (s.mode.banned || bans > 0)) &&
    (s'.mode.shutdown <==> s.mode.shutdown || e.Signal?) &&
    (s'.mode.throttling <==> if e.Hup? && e.reload.Complete? then e.reload.throttling else s.mode.throttling) &&
    (s'.quitSent <==> s.quitSent || e.QuitTimer?)
  }

  // How many timers of each kind are pending.
  predicate Pending(s: State, e: Event, s': State, lost: bool, taken: bool, bans: nat) {
    s'.timers.nick == s.timers.nick - (if e.NickTimer? then 1 else 0) + (if taken && !s.mode.nickUsed then 1 else 0) &&
    s'.timers.rejoin == s.timers.rejoin - (if e.RejoinTimer? then 1 else 0) + bans &&
    s'.timers.quit == s.timers.quit - (if e.QuitTimer? then 1 else 0) +
                      (if e.Signal? && s.mode.connected then 1 else 0) &&
    s'.timers.reconnect == s.timers.reconnect - (if e.ReconnectTimer? then 1 else 0) +
                           (if s.mode.shutdown then 0 else Attempts(e, lost))
  }

  // When the loop ends: the signal finds no connection, or there is no server to
  // connect to, or the bot is shutting down and sends something, loses the
  // connection or fails to get a new one.
  predicate Ends(s: State, e: Event, lost: bool, sent: bool) {
    (e.Signal? && !s.mode.connected) || (e.ReconnectTimer? && e.connect.NoServer?) ||
    (s.mode.shutdown && (sent || Attempts(e, lost) > 0))
  }

  predicate LawfulAs(s: State, e: Event, s': State, lost: bool, sent: bool, ready: bool, taken: bool, bans: nat) {
    Flags(s, e, s', lost, ready, taken, bans) && Pending(s, e, s', lost, taken, bans) &&
    (s'.broken <==> s.broken || Ends(s, e, lost, sent))
  }

  predicate Lawful(s: State, e: Event, s': State)
    requires InRange(s.limiter)
  {
    LawfulAs(s, e, s', Loses(s, e), Sends(s, e),
             HearsReady(LinesOf(s, e)), HearsTaken(LinesOf(s, e)), Bans(LinesOf(s, e)))
  }

  lemma NothingHeard(s: State, e: Event)
    requires !(e.Irc? && e.read && e.received != "")
    ensures !HearsReady(LinesOf(s, e)) && !HearsTaken(LinesOf(s, e)) && Bans(LinesOf(s, e)) == 0
  {
  }

  // The same flags, timers, end of the loop.
  predicate SameMarks(s: State, s': State) {
    s'.mode == s.mode && s'.timers == s.timers && s'.broken == s.broken && s'.quitSent == s.quitSent
  }

  lemma ReadMarks(s: State, received: string, replies: Replies, lines: seq<string>, tail: string)
    requires received != "" && Framing.ParseAll(s.input + received) == (lines, tail)
    ensures SameMarks(ReactAll(s.(input := tail), AskedAll(lines), replies, 0), Read(s, received, replies))
  {
  }

  lemma NotedLawful(s: State, e: Event, s1: State, s2: State, s': State, ready: bool, taken: bool, bans: nat)
    requires e.Irc? && SameMarks(s, s1) && Noted(s1, s2, ready, taken, bans) && SameMarks(s2, s')
    ensures LawfulAs(s, e, s', false, false, ready, taken, bans)
  {
  }

  lemma LinesLawful(s: State, e: Event, lines: seq<string>, tail: string, s': State)
    requires e.Irc? && s' == Read(Unregister(s), e.received, e.replies)
    requires e.received != "" && Framing.ParseAll(s.input + e.received) == (lines, tail)
    ensures LawfulAs(s, e, s', false, false, HearsReady(lines), HearsTaken(lines), Bans(lines))
  {
    var s1 := Unregister(s).(input := tail);
    var s2 := ReactAll(s1, AskedAll(lines), e.replies, 0);
    LinesNoted(s1, lines, e.replies, 0);
    ReadMarks(Unregister(s), e.received, e.replies, lines, tail);
    NotedLawful(s, e, s1, s2, s', HearsReady(lines), HearsTaken(lines), Bans(lines));
  }

  lemma LostReading(s: State, e: Event)
    requires e.Irc?
    ensures LawfulAs(s, e, Read(Unregister(s), "", e.replies), true, false, false, false, 0)
  {
  }

  lemma ReadIsLawful(s: State, e: Event)
    requires Invariant(s) && Enabled(s, e) && e.Irc? && e.read
    ensures Lawful(s, e, Step(s, e))
  {
    if e.received == "" {
      NothingHeard(s, e);
      LostReading(s, e);
    } else {
      var (lines, tail) := Framing.ParseAll(s.input + e.received);
      LinesLawful(s, e, lines, tail, Step(s, e));
    }
  }

  // What writing makes of the flags, the timers and the loop.
  predicate Written(s: State, s': State, lost: bool, sent: bool) {
    s'.mode == s.mode.(connected := s.mode.connected && !lost, throttled := s'.mode.throttled) &&
    s'.timers == s.timers.(reconnect := s.timers.reconnect + (if lost && !s.mode.shutdown then 1 else 0),
                           writer := s'.timers.writer) &&
    (s'.broken <==> s.broken || (s.mode.shutdown && (lost || sent))) && s'.quitSent == s.quitSent
  }

  lemma WrittenLawful(s: State, e: Event, s1: State, s': State, lost: bool, sent: bool)
    requires e.Irc? && Written(s1, s', lost, sent)
    requires s1.mode == s.mode && s1.timers == s.timers && s1.broken == s.broken && s1.quitSent == s.quitSent
    ensures LawfulAs(s, e, s', lost, sent, false, false, 0)
  {
  }

  lemma CleanupWritten(s: State)
    ensures Written(s, Cleanup(s), true, false)
  {
  }

  lemma WriteWritten(s: State, sock: int)
    requires s.out != ""
    ensures Written(s, Write(s, sock), sock <= 0, sock > 0)
  {
    if sock <= 0 {
      CleanupWritten(s);
    }
  }

  lemma WriteAgainWritten(s: State)
    ensures Written(s, WriteAgain(s), false, false)
  {
  }

  lemma WriteLaterWritten(s: State, timerOk: bool)
    ensures Written(s, WriteLater(s, timerOk), false, false)
  {
    if s.out != "" && !s.mode.throttled {
      var s1 := s.(mode := s.mode.(throttled := true));
      if timerOk {
        assert WriteLater(s, timerOk) == s1.(timers := s1.timers.(writer := s1.timers.writer + 1));
      } else {
        WriteAgainWritten(s1);
      }
    }
  }

  lemma AfterSendingWritten(s: State, now: int, timerOk: bool)
    ensures Written(s, AfterSending(s, now, timerOk), false, false)
  {
    WriteLaterWritten(s.(watch := s.watch.(write := false)), timerOk);
  }

  lemma ThrottledWritten(s: State, sock: int, now: int, timerOk: bool, n: nat)
    requires s.out != "" && InRange(s.limiter) && n == Planned(s.limiter, s.out, now)
    ensures Written(s, ThrottledWrite(s, sock, now, timerOk), n > 0 && sock <= 0, n > 0 && sock > 0)
  {
    var s1 := s.(limiter := Aborted(s.limiter, s.out, now));
    if n == 0 {
      AfterSendingWritten(s1, now, timerOk);
    } else if sock <= 0 {
      CleanupWritten(s1);
    } else {
      AfterSendingWritten(Took(s1, Accepted(n, sock)), now, timerOk);
    }
  }

  lemma WriteIsLawful(s: State, e: Event)
    requires Invariant(s) && Enabled(s, e) && e.Irc? && !e.read
    ensures Lawful(s, e, Step(s, e))
  {
    NothingHeard(s, e);
    var s1 := if e.timeout then Enqueue(Unregister(s), SelfPing(e.nick)) else Unregister(s);
    WrittenBy(s, e, s1);
    WrittenLawful(s, e, s1, Step(s, e), Loses(s, e), Sends(s, e));
  }

  lemma WrittenBy(s: State, e: Event, s1: State)
    requires Invariant(s) && Enabled(s, e) && e.Irc? && !e.read
    requires s1 == if e.timeout then Enqueue(Unregister(s), SelfPing(e.nick)) else Unregister(s)
    ensures Written(s1, Step(s, e), Loses(s, e), Sends(s, e))
  {
    if s.mode.throttling && e.clock.Some? {
      ThrottledWritten(s1, e.sock, e.clock.value, e.timerOk, Planned(s.limiter, s1.out, e.clock.value));
    } else {
      WriteWritten(s1, e.sock);
    }
  }

  lemma ReconnectIsLawful(s: State, e: Event)
    requires Invariant(s) && Enabled(s, e) && e.ReconnectTimer?
    ensures LawfulAs(s, e, Step(s, e), e.connect.HandshakeFailed?, false, false, false, 0)
  {
    var s0 := s.(timers := s.timers.(reconnect := s.timers.reconnect - 1));
    StepReconnects(s, e.connect, s0);
    if e.connect.Failed? {
      FailedIsLawful(s, e, s0);
    } else if e.connect.HandshakeFailed? {
      CleanupWritten(Register(s0, false));
      RefusedIsLawful(s, e, s0, Cleanup(Register(s0, false)));
    } else {
      AnsweredIsLawful(s, e, s0);
    }
  }

  lemma StepReconnects(s: State, connect: Connect, s0: State)
    requires Invariant(s) && Enabled(s, ReconnectTimer(connect))
    requires s0 == s.(timers := s.timers.(reconnect := s.timers.reconnect - 1))
    ensures Step(s, ReconnectTimer(connect)) == Reconnect(s0, connect)
  {
  }

  lemma AnsweredIsLawful(s: State, e: Event, s0: State)
    requires s.timers.reconnect > 0 && e.ReconnectTimer? && (e.connect.NoServer? || e.connect.Up?)
    requires s0 == s.(timers := s.timers.(reconnect := s.timers.reconnect - 1))
    ensures LawfulAs(s, e, Reconnect(s0, e.connect), false, false, false, false, 0)
  {
  }

  lemma FailedIsLawful(s: State, e: Event, s0: State)
    requires s.timers.reconnect > 0 && e.ReconnectTimer? && e.connect.Failed?
    requires s0 == s.(timers := s.timers.(reconnect := s.timers.reconnect - 1))
    ensures LawfulAs(s, e, ScheduleReconnection(s0), false, false, false, false, 0)
  {
  }

  lemma RefusedIsLawful(s: State, e: Event, s0: State, s1: State)
    requires s.timers.reconnect > 0 && e.ReconnectTimer? && e.connect.HandshakeFailed?
    requires s0 == s.(timers := s.timers.(reconnect := s.timers.reconnect - 1))
    requires Written(Register(s0, false), s1, true, false)
    ensures LawfulAs(s, e, ScheduleReconnection(s1), true, false, false, false, 0)
  {
  }

  lemma TimerIsLawful(s: State, e: Event)
    requires Invariant(s) && Enabled(s, e) && (e.WriterTimer? || e.NickTimer? || e.RejoinTimer? || e.QuitTimer?)
    ensures LawfulAs(s, e, Step(s, e), false, false, false, false, 0)
  {
    match e
    case WriterTimer =>
    case NickTimer(_) =>
    case RejoinTimer(_) =>
    case QuitTimer(_) =>
  }

  lemma OtherIsLawful(s: State, e: Event)
    requires Invariant(s) && Enabled(s, e) && (e.Datagram? || e.HookLine?)
    ensures LawfulAs(s, e, Step(s, e), false, false, false, false, 0)
  {
    match e
    case Datagram(_) =>
    case HookLine(_) =>
  }

  lemma SignalIsLawful(s: State)
    requires Invariant(s) && Enabled(s, Signal)
    ensures LawfulAs(s, Signal, Step(s, Signal), false, false, false, false, 0)
  {
  }

  lemma ReloadIsLawful(s: State, e: Event)
    requires Invariant(s) && Enabled(s, e) && e.Hup?
    ensures LawfulAs(s, e, Step(s, e), false, false, false, false, 0)
  {
  }

  // Of every callback: exactly which flags it sets and clears, which timers it adds
  // and takes, and whether it ends the loop.
  lemma StepIsLawful(s: State, e: Event)
    requires Invariant(s) && Enabled(s, e)
    ensures Lawful(s, e, Step(s, e))
  {
    if e.Irc? {
      if e.read {
        ReadIsLawful(s, e);
      } else {
        WriteIsLawful(s, e);
      }
    } else {
      NothingHeard(s, e);
      if e.ReconnectTimer? {
        ReconnectIsLawful(s, e);
      } else if e.WriterTimer? || e.NickTimer? || e.RejoinTimer? || e.QuitTimer? {
        TimerIsLawful(s, e);
      } else if e.Hup? {
        ReloadIsLawful(s, e);
      } else if e.Signal? {
        SignalIsLawful(s);
      } else {
        OtherIsLawful(s, e);
      }
    }
  }

  predicate Bare(s: State) {
    s.out == "" && s.input == "" && s.wire == "" && s.queued == ""
  }

  lemma CleanupLeavesNothing(s: State)
    ensures Bare(Cleanup(s)) && (!s.watch.registered ==> !Cleanup(s).watch.registered)
  {
  }

  lemma WriteLoss(s: State, sock: int)
    requires s.out != "" && sock <= 0 && !s.watch.registered
    ensures Bare(Write(s, sock)) && !Write(s, sock).watch.registered
  {
    CleanupLeavesNothing(s);
  }

  lemma ThrottledLoss(s: State, sock: int, now: int, timerOk: bool)
    requires s.out != "" && InRange(s.limiter) && Planned(s.limiter, s.out, now) > 0 && sock <= 0 && !s.watch.registered
    ensures Bare(ThrottledWrite(s, sock, now, timerOk)) && !ThrottledWrite(s, sock, now, timerOk).watch.registered
  {
    CleanupLeavesNothing(s.(limiter := Aborted(s.limiter, s.out, now)));
  }

  lemma SendLoss(s: State, e: Event)
    requires Invariant(s) && Enabled(s, e) && e.Irc? && !e.read && Loses(s, e)
    ensures Bare(Step(s, e)) && !Step(s, e).watch.registered
  {
    var s1 := if e.timeout then Enqueue(Unregister(s), SelfPing(e.nick)) else Unregister(s);
    if s.mode.throttling && e.clock.Some? {
      ThrottledLoss(s1, e.sock, e.clock.value, e.timerOk);
    } else {
      WriteLoss(s1, e.sock);
    }
  }

  lemma ScheduleKeepsBare(s: State)
    requires Bare(s)
    ensures Bare(ScheduleReconnection(s))
  {
  }

  lemma RefusedLeavesNothing(s: State)
    ensures Bare(Reconnect(s, HandshakeFailed))
  {
    CleanupLeavesNothing(Register(s, false));
    ScheduleKeepsBare(Cleanup(Register(s, false)));
  }

  lemma HandshakeLoss(s: State)
    requires Invariant(s) && Enabled(s, ReconnectTimer(HandshakeFailed))
    ensures Bare(Step(s, ReconnectTimer(HandshakeFailed)))
  {
    var s0 := s.(timers := s.timers.(reconnect := s.timers.reconnect - 1));
    StepReconnects(s, HandshakeFailed, s0);
    RefusedLeavesNothing(s0);
  }

  // A lost connection takes both buffers with it.
  lemma LostLeavesNothing(s: State, e: Event)
    requires Invariant(s) && Enabled(s, e) && Loses(s, e)
    ensures Bare(Step(s, e)) && (e.Irc? ==> !Step(s, e).watch.registered)
  {
    if e.ReconnectTimer? {
      HandshakeLoss(s);
    } else if e.read {
      CleanupLeavesNothing(Unregister(s));
    } else {
      SendLoss(s, e);
    }
  }

  // After a write that is neither an error nor the last one the server is listened
  // to again.  A throttled one asks for no more writes, unless output is left, no
  // timer was pending for it and none could be set; an unthrottled one goes on
  // asking while output is left.
  lemma WatchAfterWrite(s: State, e: Event)
    requires Invariant(s) && Enabled(s, e) && e.Irc? && !e.read && !Loses(s, e) && !(s.mode.shutdown && Sends(s, e))
    ensures var s' := Step(s, e);
            s'.watch ==
            Watch(true, s'.out != "" &&
                        if s.mode.throttling && e.clock.Some? then !s.mode.throttled && !e.timerOk else s.watch.write)
  {
    var s1 := if e.timeout then Enqueue(Unregister(s), SelfPing(e.nick)) else Unregister(s);
    if s.mode.throttling && e.clock.Some? {
      WatchAfterSome(s1, e.sock, e.clock.value, e.timerOk, Planned(s.limiter, s1.out, e.clock.value));
    } else {
      WatchAfterAll(s1, e.sock);
    }
  }

  lemma WatchAfterSending(s: State, now: int, timerOk: bool)
    ensures AfterSending(s, now, timerOk).out == s.out
    ensures AfterSending(s, now, timerOk).watch == Watch(true, s.out != "" && !s.mode.throttled && !timerOk)
  {
  }

  lemma ThrottledGoesOn(s: State, sock: int, now: int, timerOk: bool, n: nat)
    requires s.out != "" && InRange(s.limiter) && n == Planned(s.limiter, s.out, now)
    requires n == 0 || (sock > 0 && !s.mode.shutdown)
    ensures var s1 := s.(limiter := Aborted(s.limiter, s.out, now));
            ThrottledWrite(s, sock, now, timerOk) ==
            AfterSending(if n == 0 then s1 else Took(s1, Accepted(n, sock)), now, timerOk)
  {
  }

  lemma WatchAfterSome(s: State, sock: int, now: int, timerOk: bool, n: nat)
    requires s.out != "" && InRange(s.limiter) && n == Planned(s.limiter, s.out, now)
    requires n == 0 || (sock > 0 && !s.mode.shutdown)
    ensures var s' := ThrottledWrite(s, sock, now, timerOk);
            s'.watch == Watch(true, s'.out != "" && !s.mode.throttled && !timerOk)
  {
    var s1 := s.(limiter := Aborted(s.limiter, s.out, now));
    WatchAfterSending(if n == 0 then s1 else Took(s1, Accepted(n, sock)), now, timerOk);
    ThrottledGoesOn(s, sock, now, timerOk, n);
  }

  lemma WatchAfterAll(s: State, sock: int)
    requires s.out != "" && sock > 0 && !s.mode.shutdown
    ensures Write(s, sock).watch == Watch(true, Write(s, sock).out != "" && s.watch.write)
  {
  }

  // ---- Shutting down ----

  // SIGTERM marks the bot as shutting down.  Without a connection the loop is over,
  // otherwise one more timer for QUIT is pending; nothing else changes.
  lemma SignalStartsShutdown(s: State)
    requires Invariant(s) && Enabled(s, Signal)
    ensures Step(s, Signal) ==
            if s.mode.connected
            then s.(mode := s.mode.(shutdown := true), timers := s.timers.(quit := s.timers.quit + 1))
            else s.(mode := s.mode.(shutdown := true), broken := true)
  {
  }

  // The bot is shutting down at the end of a run if and only if it was at its start
  // or the signal came, and from then on no reconnection is scheduled.
  lemma {:induction false} ShutdownInRun(s: State, es: seq<Event>)
    requires Invariant(s) && Possible(s, es)
    ensures Final(s, es).mode.shutdown <==> s.mode.shutdown || exists i :: 0 <= i < |es| && es[i].Signal?
    ensures s.mode.shutdown ==>
              Final(s, es).timers.reconnect <= s.timers.reconnect && forall i :: 0 <= i < |es| ==> !es[i].Hup?
    decreases |es|
  {
    if es == [] {
    } else {
      var s', rest := Step(s, es[0]), es[1..];
      StepKeeps(s, es[0]);
      StepIsLawful(s, es[0]);
      ShutdownInRun(s', rest);
      assert forall i :: 0 < i < |es| ==> es[i] == rest[i - 1];
      if i :| 0 <= i < |rest| && rest[i].Signal? {
        assert es[i + 1].Signal?;
      }
    }
  }

  lemma {:induction false} RunSplits(s: State, a: seq<Event>, b: seq<Event>, all: seq<Event>)
    requires Invariant(s) && Possible(s, all) && all == a + b
    ensures Possible(s, a) && Invariant(Final(s, a)) && Possible(Final(s, a), b)
    ensures Final(s, all) == Final(Final(s, a), b)
    decreases |a|
  {
    if a == [] {
      assert all == b;
    } else {
      StepKeeps(s, all[0]);
      assert all[0] == a[0] && all[1..] == a[1..] + b;
      RunSplits(Step(s, all[0]), a[1..], b, all[1..]);
    }
  }

  // After the signal, wherever it comes in a run and whatever follows: the bot is
  // shutting down to the end, as many reconnections or fewer are pending, the
  // configuration is not reloaded again, and a bot without a connection is done.
  lemma SignalIsFinal(s: State, before: seq<Event>, after: seq<Event>, all: seq<Event>)
    requires Invariant(s) && all == before + ([Signal] + after) && Possible(s, all)
    ensures Possible(s, before)
    ensures var here, end := Final(s, before), Final(s, all);
            end.mode.shutdown && end.timers.reconnect <= here.timers.reconnect &&
            (!here.mode.connected ==> end.broken && after == [])
    ensures forall i :: 0 <= i < |after| ==> !after[i].Hup?
  {
    RunSplits(s, before, [Signal] + after, all);
    var here := Final(s, before);
    assert ([Signal] + after)[0] == Signal && ([Signal] + after)[1..] == after;
    StepKeeps(here, Signal);
    SignalStartsShutdown(here);
    ShutdownInRun(Step(here, Signal), after);
    if !here.mode.connected {
      BrokenRunIsOver(Step(here, Signal), after);
    }
  }

  // The signal, the timer for QUIT and one chance to write end the loop, whatever
  // the send gives, unless the quota for lines is used up.
  lemma ShutdownEnds(s: State, quit: string, e: Event)
    requires Invariant(s) && !s.broken && s.mode.connected && !s.quitSent
    requires e.Irc? && e.write && !e.read && !e.timeout
    requires s.mode.throttling && e.clock.Some? ==>
               Planned(s.limiter, s.out + ("QUIT" + quit + "\n"), e.clock.value) > 0
    ensures Possible(s, [Signal, QuitTimer(quit), e]) && Final(s, [Signal, QuitTimer(quit), e]).broken
  {
    var s1 := Step(s, Signal);
    StepKeeps(s, Signal);
    SignalStartsShutdown(s);
    var s2 := Step(s1, QuitTimer(quit));
    StepKeeps(s1, QuitTimer(quit));
    QuitForcesOutput(s1, quit);
    StepKeeps(s2, e);
    StepIsLawful(s2, e);
    ThreeSteps(s, Signal, QuitTimer(quit), e);
  }

  // The first timer for QUIT queues it and asks for a write; any later one does nothing.
  lemma QuitForcesOutput(s: State, quit: string)
    requires Invariant(s) && Enabled(s, QuitTimer(quit))
    ensures var s0 := s.(timers := s.timers.(quit := s.timers.quit - 1));
            Step(s, QuitTimer(quit)) ==
            if s.quitSent then s0
            else s0.(out := s.out + ("QUIT" + quit + "\n"), queued := s.queued + ("QUIT" + quit + "\n"),
                     watch := Watch(true, true), quitSent := true)
  {
  }

  lemma ThreeSteps(s: State, a: Event, b: Event, c: Event)
    requires Invariant(s) && Enabled(s, a)
    requires Invariant(Step(s, a)) && Enabled(Step(s, a), b)
    requires Invariant(Step(Step(s, a), b)) && Enabled(Step(Step(s, a), b), c)
    ensures Possible(s, [a, b, c]) && Final(s, [a, b, c]) == Step(Step(Step(s, a), b), c)
  {
    OneStep(Step(Step(s, a), b), c);
    assert [b, c][1..] == [c] && [a, b, c][1..] == [b, c];
  }

  lemma OneStep(s: State, e: Event)
    requires Invariant(s) && Enabled(s, e)
    ensures Possible(s, [e]) && Final(s, [e]) == Step(s, e)
  {
    StepKeeps(s, e);
    assert [e][1..] == [];
  }
}
