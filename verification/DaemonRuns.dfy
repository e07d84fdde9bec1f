// Whole runs of the IRC side: safety in every reachable state, the sending
// rate in any window of time, draining, and shutting down.
module DaemonRuns {
  import opened Options
  import opened Throttle
  import opened Daemon
  import Framing

  // ---- Runs ----

  predicate Possible(s: State, es: seq<Event>)
    requires Invariant(s)
    decreases |es|
  {
    es == [] ||
    (Enabled(s, es[0]) && (StepKeeps(s, es[0]); Possible(Step(s, es[0]), es[1..])))
  }

  function Final(s: State, es: seq<Event>): State
    requires Invariant(s) && Possible(s, es)
    decreases |es|
  {
    if es == [] then s
    else
      StepKeeps(s, es[0]);
      Final(Step(s, es[0]), es[1..])
  }

  // net_loop when the first connection is made, or fails and is tried again
  // later; `added` says whether libevent took the event of a failed connection.
  function Started(throttling: bool, helo: Option<string>, added: bool): State {
    var mode := Mode(throttling, false, false, false, false, false);
    var bytes := if helo.Some? then helo.value else "";
    State(bytes, "", mode, Limiter(0, 0), Watch(helo.Some? || added, false),
          Timers(if helo.Some? then 0 else 1, 0, 0, 0, 0), false, false, "", bytes)
  }

  lemma StartedOk(throttling: bool, helo: Option<string>, added: bool)
    ensures Invariant(Started(throttling, helo, added))
  {
    var s := Started(throttling, helo, added);
    assert "" + s.out == s.out;
  }

  // In every state the daemon can reach: no assert on the buffer length can
  // fail, the throttling flag and its timer agree, the loop is over or the
  // server is listened to or a reconnection is due, every waiting flag has its
  // timer, and nothing queued was lost, repeated or reordered.
  lemma {:induction false} EveryRunIsSafe(s: State, es: seq<Event>)
    requires Invariant(s) && Possible(s, es)
    ensures Invariant(Final(s, es))
    decreases |es|
  {
    if es == [] {
    } else {
      StepKeeps(s, es[0]);
      EveryRunIsSafe(Step(s, es[0]), es[1..]);
    }
  }

  lemma ReachableStatesAreSafe(throttling: bool, helo: Option<string>, added: bool, es: seq<Event>)
    ensures Invariant(Started(throttling, helo, added))
    ensures Possible(Started(throttling, helo, added), es) ==>
              Invariant(Final(Started(throttling, helo, added), es))
  {
    StartedOk(throttling, helo, added);
    if Possible(Started(throttling, helo, added), es) {
      EveryRunIsSafe(Started(throttling, helo, added), es);
    }
  }

  // ---- Nothing is stranded ----

  // A throttled write that is neither an error nor the last one leaves the
  // timer pending for what is left, or EV_WRITE armed when no timer could be set.
  lemma ThrottledWriteStrandsNothing(s: State, sock: int, now: int, timerOk: bool)
    requires Inside(s) && !s.watch.registered && s.out != ""
    ensures var n := Planned(s.limiter, s.out, now);
            var s' := ThrottledWrite(s, sock, now, timerOk);
            (n == 0 || (Accepted(n, sock) > 0 && !s.mode.shutdown)) && s'.out != "" ==>
              s'.watch.registered &&
              (if timerOk || s.mode.throttled then s'.mode.throttled && s'.timers.writer == 1 else s'.watch.write)
  {
    ThrottledWriteKeeps(s, sock, now, timerOk);
  }

  // ---- Rate ----

  // The bytes a callback gets through to the server.
  function SentBy(s: State, e: Event): string
    requires Invariant(s) && Enabled(s, e)
  {
    if !e.Irc? || e.read then ""
    else
      var out := if e.timeout then s.out + SelfPing(e.nick) else s.out;
      var n := if s.mode.throttling && e.clock.Some? then Planned(s.limiter, out, e.clock.value) else |out|;
      if Accepted(n, e.sock) > 0 then out[..Accepted(n, e.sock)] else ""
  }

  // What reactions to lines never touch.
  predicate SameBut(s: State, s': State) {
    s'.wire == s.wire && s'.limiter == s.limiter && s'.mode.throttling == s.mode.throttling &&
    s'.mode.shutdown == s.mode.shutdown && s'.timers.reconnect == s.timers.reconnect
  }

  lemma ReactFrame(s: State, c: Command, reply: string)
    ensures SameBut(s, React(s, c, reply))
  {
  }

  lemma {:induction false} ReactAllFrame(s: State, cs: seq<Command>, replies: Replies, k: nat)
    ensures SameBut(s, ReactAll(s, cs, replies, k))
    decreases |cs|
  {
    if cs == [] {
    } else {
      ReactFrame(s, cs[0], replies(k, cs[0]));
      ReactAllFrame(React(s, cs[0], replies(k, cs[0])), cs[1..], replies, k + 1);
    }
  }

  lemma CleanupFrame(s: State)
    ensures Cleanup(s).wire == "" && Cleanup(s).limiter == s.limiter && Cleanup(s).mode.throttling == s.mode.throttling
    ensures s.mode.shutdown ==>
              Cleanup(s).mode.shutdown && Cleanup(s).timers.reconnect == s.timers.reconnect && Cleanup(s).broken
  {
  }

  lemma ReadFrame(s: State, received: string, replies: Replies)
    ensures Read(s, received, replies).wire == "" || Read(s, received, replies).wire == s.wire
    ensures Read(s, received, replies).limiter == s.limiter
    ensures Read(s, received, replies).mode.throttling == s.mode.throttling
    ensures s.mode.shutdown ==>
              Read(s, received, replies).mode.shutdown &&
              Read(s, received, replies).timers.reconnect == s.timers.reconnect
  {
    if received == "" {
      CleanupFrame(s);
    } else {
      var (lines, tail) := Framing.ParseAll(s.input + received);
      ReactAllFrame(s.(input := tail), AskedAll(lines), replies, 0);
    }
  }

  lemma WriteFrame(s: State, sock: int)
    requires s.out != ""
    ensures var ret, s' := Accepted(|s.out|, sock), Write(s, sock);
            s'.limiter == s.limiter && s'.mode.throttling == s.mode.throttling &&
            (if ret > 0 then s'.wire == s.wire + s.out[..ret] else s'.wire == "") &&
            (s.mode.shutdown ==> s'.mode.shutdown && s'.timers.reconnect == s.timers.reconnect && s'.broken)
  {
    CleanupFrame(s);
  }

  lemma AfterSendingFrame(s: State, now: int, timerOk: bool)
    ensures var s' := AfterSending(s, now, timerOk);
            s'.wire == s.wire && s'.limiter == Cooled(s.limiter, now) && s'.mode.throttling == s.mode.throttling &&
            s'.mode.shutdown == s.mode.shutdown && s'.timers.reconnect == s.timers.reconnect
  {
  }

  lemma ThrottledWriteFrame(s: State, sock: int, now: int, timerOk: bool)
    requires s.out != "" && InRange(s.limiter)
    ensures var n, s' := Planned(s.limiter, s.out, now), ThrottledWrite(s, sock, now, timerOk);
            var ret := Accepted(n, sock);
            s'.mode.throttling == s.mode.throttling &&
            (s'.limiter == Settled(s.limiter, s.out, now) ||
             (s'.limiter == Aborted(s.limiter, s.out, now) && (ret <= 0 || s'.broken))) &&
            (if n == 0 then s'.wire == s.wire
             else if ret > 0 then s'.wire == s.wire + s.out[..ret]
             else s'.wire == "") &&
            (s.mode.shutdown ==> s'.mode.shutdown && s'.timers.reconnect == s.timers.reconnect && (n > 0 ==> s'.broken))
  {
    var n := Planned(s.limiter, s.out, now);
    var ret := Accepted(n, sock);
    CleanupFrame(s.(limiter := Aborted(s.limiter, s.out, now)));
    var s1 := s.(limiter := Aborted(s.limiter, s.out, now));
    AfterSendingFrame(if n > 0 && ret > 0 then Took(s1, ret) else s1, now, timerOk);
  }

  lemma ReconnectFrame(s: State, connect: Connect)
    ensures var s' := Reconnect(s, connect);
            (s'.wire == s.wire || s'.wire == "") && s'.limiter == s.limiter &&
            s'.mode.throttling == s.mode.throttling &&
            (s.mode.shutdown ==> s'.mode.shutdown && s'.timers.reconnect == s.timers.reconnect)
  {
    match connect
    case Failed =>
    case NoServer =>
    case Up(helo) =>
    case HandshakeFailed => CleanupFrame(Register(s, false));
  }

  lemma TimerFrame(s: State, e: Event)
    requires Invariant(s) && Enabled(s, e) && (e.WriterTimer? || e.NickTimer? || e.RejoinTimer? || e.QuitTimer?)
    ensures SameBut(s, Step(s, e))
  {
  }

  // Callbacks other than that of ev_irc send nothing.
  lemma OtherFrame(s: State, e: Event)
    requires Invariant(s) && Enabled(s, e) && !e.Irc?
    ensures var s' := Step(s, e);
            (s'.wire == s.wire || s'.wire == "") && s'.limiter == s.limiter &&
            (s'.mode.throttling == if e.Hup? && e.reload.Complete? then e.reload.throttling else s.mode.throttling) &&
            (s.mode.shutdown ==> s'.mode.shutdown && s'.timers.reconnect <= s.timers.reconnect)
  {
    if e.ReconnectTimer? {
      ReconnectFrame(s.(timers := s.timers.(reconnect := s.timers.reconnect - 1)), e.connect);
    } else if e.WriterTimer? || e.NickTimer? || e.RejoinTimer? || e.QuitTimer? {
      TimerFrame(s, e);
    }
  }

  // SentBy is what a callback adds to the wire, unless it cleans up.
  lemma SentReachesWire(s: State, e: Event)
    requires Invariant(s) && Enabled(s, e)
    ensures Step(s, e).wire == s.wire + SentBy(s, e) || Step(s, e).wire == ""
  {
    assert s.wire + "" == s.wire;
    if !e.Irc? {
      OtherFrame(s, e);
    } else if e.read {
      ReadFrame(Unregister(s), e.received, e.replies);
    } else {
      var s1 := if e.timeout then Enqueue(Unregister(s), SelfPing(e.nick)) else Unregister(s);
      if s.mode.throttling && e.clock.Some? {
        ThrottledWriteFrame(s1, e.sock, e.clock.value, e.timerOk);
      } else {
        WriteFrame(s1, e.sock);
      }
    }
  }

  function LinesSent(s: State, es: seq<Event>): nat
    requires Invariant(s) && Possible(s, es)
    decreases |es|
  {
    if es == [] then 0
    else
      StepKeeps(s, es[0]);
      Newlines(SentBy(s, es[0])) + LinesSent(Step(s, es[0]), es[1..])
  }

  // Throttling stays on, the clock works, does not go back and stays in the window.
  predicate InWindow(es: seq<Event>, now: int, end: int)
    decreases |es|
  {
    now <= end &&
    (es != [] ==>
      (es[0].Hup? && es[0].reload.Complete? ==> es[0].reload.throttling) &&
      (es[0].Irc? ==> es[0].clock.Some? && now <= es[0].clock.value) &&
      InWindow(es[1..], if es[0].Irc? then es[0].clock.value else now, end))
  }

  // How a callback of ev_irc moves the limiter.
  lemma IrcLimiter(s: State, e: Event)
    requires Invariant(s) && Enabled(s, e) && s.mode.throttling && e.Irc? && e.clock.Some?
    ensures Step(s, e).mode.throttling
    ensures e.read ==> Step(s, e).limiter == s.limiter && SentBy(s, e) == ""
    ensures !e.read ==>
      var out := if e.timeout then s.out + SelfPing(e.nick) else s.out;
      var s', ret := Step(s, e), Accepted(Planned(s.limiter, out, e.clock.value), e.sock);
      SentBy(s, e) == (if ret > 0 then out[..ret] else "") &&
      (s'.limiter == Settled(s.limiter, out, e.clock.value) ||
       (s'.limiter == Aborted(s.limiter, out, e.clock.value) && (ret <= 0 || s'.broken)))
  {
    if e.read {
      ReadFrame(Unregister(s), e.received, e.replies);
    } else {
      var s1 := if e.timeout then Enqueue(Unregister(s), SelfPing(e.nick)) else Unregister(s);
      ThrottledWriteFrame(s1, e.sock, e.clock.value, e.timerOk);
    }
  }

  // One callback pays for its lines out of the budget of the window.
  lemma StepPays(s: State, e: Event, end: int)
    requires Invariant(s) && Enabled(s, e) && s.mode.throttling && e.Irc? && e.clock.Some?
    requires s.limiter.last <= e.clock.value <= end
    ensures var s', paid, before := Step(s, e), 4 * Newlines(SentBy(s, e)), Budget(s.limiter, e.clock.value, end);
            s'.mode.throttling && s'.limiter.last <= e.clock.value &&
            (if s'.broken then paid <= before && Newlines(SentBy(s, e)) <= 4
             else var after := Budget(s'.limiter, e.clock.value, end);
                  paid + after <= before &&
                  (SentBy(s, e) == "" || paid + after <= 20 + 5 * (end - e.clock.value)))
  {
    IrcLimiter(s, e);
    var out := if e.timeout then s.out + SelfPing(e.nick) else s.out;
    var n := Planned(s.limiter, out, e.clock.value);
    var sent := if Accepted(n, e.sock) > 0 then Accepted(n, e.sock) else 0;
    SettledPays(s.limiter, out, e.clock.value, sent, end);
    AbortedPays(s.limiter, out, e.clock.value, sent, end);
    assert Newlines("") == 0;
  }

  lemma BrokenRunIsOver(s: State, es: seq<Event>)
    requires Invariant(s) && Possible(s, es) && s.broken
    ensures es == []
  {
  }

  lemma {:induction false} RunPays(s: State, es: seq<Event>, now: int, end: int)
    requires Invariant(s) && Possible(s, es) && s.mode.throttling
    requires InWindow(es, now, end) && s.limiter.last <= now
    ensures 4 * LinesSent(s, es) <= Budget(s.limiter, now, end)
    decreases |es|
  {
    if es == [] {
    } else {
      var e := es[0];
      StepKeeps(s, e);
      var s' := Step(s, e);
      if e.Irc? {
        StepPays(s, e, end);
        BudgetShrinks(s.limiter, now, e.clock.value, end);
        if s'.broken {
          BrokenRunIsOver(s', es[1..]);
        } else {
          RunPays(s', es[1..], e.clock.value, end);
        }
      } else {
        OtherFrame(s, e);
        assert Newlines("") == 0;
        RunPays(s', es[1..], now, end);
      }
    }
  }

  // In any window of T seconds a throttled daemon sends at most 5 + 5T/4 lines,
  // whatever happens in it: partial and failed sends, reconnections, timers.
  lemma {:induction false} WindowRate(s: State, es: seq<Event>, start: int, end: int)
    requires Invariant(s) && Possible(s, es) && s.mode.throttling
    requires InWindow(es, start, end) && s.limiter.last <= start
    ensures 4 * LinesSent(s, es) <= 20 + 5 * (end - start)
    decreases |es|
  {
    if es == [] {
    } else {
      var e := es[0];
      StepKeeps(s, e);
      var s' := Step(s, e);
      if !e.Irc? {
        OtherFrame(s, e);
        assert Newlines("") == 0;
        WindowRate(s', es[1..], start, end);
      } else {
        StepPays(s, e, end);
        if s'.broken {
          BrokenRunIsOver(s', es[1..]);
        } else if SentBy(s, e) == "" {
          assert Newlines("") == 0;
          WindowRate(s', es[1..], e.clock.value, end);
        } else {
          RunPays(s', es[1..], e.clock.value, end);
        }
      }
    }
  }

  // ---- Draining ----

  // The server's socket can be written to and takes up to `sock` bytes.
  function WriteAt(sock: int, now: int): Event {
    Irc(false, true, false, "", (k, c) => "", sock, Some(now), true, "")
  }

  // The timer goes off and the socket takes all it is offered.
  function Cycle(s: State, now: int): State
    requires Invariant(s) && s.mode.throttled && s.out != "" && !s.broken
  {
    StepKeeps(s, WriterTimer);
    var s1 := Step(s, WriterTimer);
    Step(s1, WriteAt(|s1.out| + 1, now))
  }

  // A throttled write whose send is not cut short.
  lemma FullSend(s: State, now: int)
    requires s.out != "" && InRange(s.limiter) && !s.mode.shutdown && !s.mode.throttled
    ensures var s' := ThrottledWrite(s, |s.out| + 1, now, true);
            s'.out == s.out[Planned(s.limiter, s.out, now)..] && s'.limiter == Settled(s.limiter, s.out, now) &&
            s'.mode == s.mode.(throttled := s'.out != "") && s'.broken == s.broken
  {
    var n := Planned(s.limiter, s.out, now);
    assert Accepted(n, |s.out| + 1) == n;
    assert n == 0 ==> s.out[n..] == s.out;
  }

  lemma CycleDrains(s: State, now: int)
    requires Invariant(s) && s.mode.throttled && s.mode.throttling && !s.mode.shutdown && s.out != "" && !s.broken
    ensures var s' := Cycle(s, now);
            Invariant(s') && s'.out == s.out[Planned(s.limiter, s.out, now)..] &&
            s'.limiter == Settled(s.limiter, s.out, now) &&
            s'.mode == s.mode.(throttled := s'.out != "") && s'.broken == s.broken
  {
    StepKeeps(s, WriterTimer);
    var s1 := Step(s, WriterTimer);
    StepKeeps(s1, WriteAt(|s1.out| + 1, now));
    FullSend(Unregister(s1), now);
  }

  function Cycles(s: State, times: seq<int>): State
    requires Invariant(s) && (s.out != "" ==> s.mode.throttled && s.mode.throttling && !s.mode.shutdown && !s.broken)
    decreases |times|
  {
    if times == [] || s.out == "" then s
    else
      CycleDrains(s, times[0]);
      Cycles(Cycle(s, times[0]), times[1..])
  }

  lemma {:induction false} CyclesDrain(s: State, times: seq<int>)
    requires Invariant(s) && (s.out != "" ==> s.mode.throttled && s.mode.throttling && !s.mode.shutdown && !s.broken)
    ensures Cycles(s, times).out == Drained(s.limiter, s.out, times)
    decreases |times|
  {
    if times == [] || s.out == "" {
    } else {
      CycleDrains(s, times[0]);
      CyclesDrain(Cycle(s, times[0]), times[1..]);
    }
  }

  // Throttled output gets out: n lines need at most n + 1 rounds of the timer
  // and the writer, a second or more apart.
  lemma ThrottledOutputGetsOut(s: State, times: seq<int>)
    requires Invariant(s) && s.mode.throttled && s.mode.throttling && !s.mode.shutdown && !s.broken
    requires Apart(s.limiter.last, times) && |times| >= Segments(s.out) + 1
    ensures Cycles(s, times).out == ""
  {
    CyclesDrain(s, times);
    DrainTerminates(s.limiter, s.out, times);
  }

  // ---- Shutdown ----

  // Once shutting down, no callback schedules another reconnection, and any
  // send, whether it works or not, ends the loop.
  lemma ShutdownIsFinal(s: State, e: Event)
    requires Invariant(s) && Enabled(s, e) && s.mode.shutdown
    ensures Step(s, e).mode.shutdown && Step(s, e).timers.reconnect <= s.timers.reconnect
    ensures e.Irc? && !e.read && (e.write || e.timeout) &&
            (s.mode.throttling && e.clock.Some? ==>
              Planned(s.limiter, if e.timeout then s.out + SelfPing(e.nick) else s.out, e.clock.value) > 0)
            ==> Step(s, e).broken
  {
    if !e.Irc? {
      OtherFrame(s, e);
    } else if e.read {
      ReadFrame(Unregister(s), e.received, e.replies);
    } else {
      var s1 := if e.timeout then Enqueue(Unregister(s), SelfPing(e.nick)) else Unregister(s);
      if s.mode.throttling && e.clock.Some? {
        ThrottledWriteFrame(s1, e.sock, e.clock.value, e.timerOk);
      } else {
        WriteFrame(s1, e.sock);
      }
    }
  }
}
