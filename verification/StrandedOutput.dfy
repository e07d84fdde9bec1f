// Output that nothing will send: queued while the connection is listened to, but
// with neither EV_WRITE asked for nor the writer's timer pending, until something
// else asks for a write.
module StrandedOutput {
  import opened Options
  import opened CString
  import opened Throttle
  import opened Daemon
  import opened DaemonRuns
  import HookWire
  import R = Reload

  // Nothing is armed to write.
  predicate Unarmed(s: State) {
    s.watch.registered && !s.watch.write && s.timers.writer == 0 && !s.broken
  }

  predicate Stranded(s: State) {
    Unarmed(s) && s.out != ""
  }

  // What the callbacks that strand output are given: the login lines of a new
  // connection, a nick change, a rejoin, a reload with something to say, a reply
  // from a hook that does not force output out, and a timeout whose unthrottled
  // write is cut short.
  predicate Strands(s: State, e: Event) {
    match e
    case Irc(read, _, timeout, _, _, sock, clock, _, nick) =>
      !read && timeout && Unarmed(s) && !s.mode.shutdown && !(s.mode.throttling && clock.Some?) &&
      0 < sock < |s.out + SelfPing(nick)|
    case ReconnectTimer(connect) => connect.Up? && s.timers.writer == 0 && s.out + connect.helo != ""
    case NickTimer(_) => Unarmed(s)
    case RejoinTimer(join) => Unarmed(s) && join != ""
    case HookLine(line) =>
      Unarmed(s) && !HookWire.NoReply(AsC(line)) && !(s.mode.connected && HookWire.ParseReply(AsC(line)).0 == 0)
    case Hup(reload) =>
      Unarmed(s) && reload.Complete? && (R.Lines(R.Diff(reload.olds, reload.news)) != "" || reload.renick.Some?)
    case _ => false
  }

  lemma TimedOutWrite(s: State, e: Event)
    requires Invariant(s) && Enabled(s, e) && e.Irc? && !e.read && !Stranded(s)
    ensures Stranded(Step(s, e)) <==> Strands(s, e)
  {
    var s0 := Unregister(s);
    var s1 := if e.timeout then Enqueue(s0, SelfPing(e.nick)) else s0;
    if s.mode.throttling && e.clock.Some? {
      ThrottledLeavesNone(s1, e.sock, e.clock.value, e.timerOk);
    } else {
      WriteLeaves(s1, e.sock);
    }
  }

  lemma AfterSendingLeavesNone(s: State, now: int, timerOk: bool)
    requires OneWriterTimer(s)
    ensures !Stranded(AfterSending(s, now, timerOk))
  {
  }

  lemma CleanupLeavesNone(s: State)
    ensures !Stranded(Cleanup(s))
  {
  }

  lemma ThrottledLeavesNone(s: State, sock: int, now: int, timerOk: bool)
    requires !s.watch.registered && s.out != "" && InRange(s.limiter) && OneWriterTimer(s)
    ensures !Stranded(ThrottledWrite(s, sock, now, timerOk))
  {
    var n := Planned(s.limiter, s.out, now);
    var ret := Accepted(n, sock);
    var s1 := s.(limiter := Aborted(s.limiter, s.out, now));
    CleanupLeavesNone(s1);
    AfterSendingLeavesNone(s1, now, timerOk);
    if n > 0 && ret > 0 {
      AfterSendingLeavesNone(Took(s1, ret), now, timerOk);
    }
  }

  lemma WriteLeaves(s: State, sock: int)
    requires !s.watch.registered && s.out != "" && !s.broken
    ensures Stranded(Write(s, sock)) <==>
            !s.mode.shutdown && !s.watch.write && s.timers.writer == 0 && 0 < sock < |s.out|
  {
  }

  lemma ReadLeavesNone(s: State, received: string, replies: Replies)
    ensures !Stranded(Read(s, received, replies))
  {
  }

  lemma HookLeaves(s: State, line: string)
    requires Invariant(s) && !s.broken && !Stranded(s)
    ensures Stranded(FromHook(s, line)) <==> Strands(s, HookLine(line))
  {
    HookWire.OnlyNoReplyQueuesNothing(AsC(line));
    var (rc, bytes) := HookWire.ParseReply(AsC(line));
    assert |s.out + bytes| == |s.out| + |bytes|;
    assert s.out + "" == s.out;
  }

  lemma ReloadLeaves(s: State, reload: Reloading)
    requires Invariant(s) && !s.broken && !Stranded(s)
    ensures Stranded(Reloaded(s, reload)) <==> Strands(s, Hup(reload))
  {
    if reload.Complete? {
      var bytes := R.Lines(R.Diff(reload.olds, reload.news));
      assert |s.out + bytes| == |s.out| + |bytes|;
    }
  }

  lemma ReconnectLeaves(s: State, connect: Connect)
    requires Invariant(s) && Enabled(s, ReconnectTimer(connect)) && !Stranded(s)
    ensures Stranded(Step(s, ReconnectTimer(connect))) <==> Strands(s, ReconnectTimer(connect))
  {
    match connect
    case Failed =>
    case NoServer =>
    case Up(_) =>
    case HandshakeFailed =>
  }

  lemma WriterLeavesNone(s: State)
    ensures !Stranded(WriteAgain(s))
  {
  }

  lemma TimersLeave(s: State, e: Event)
    requires Invariant(s) && Enabled(s, e) && !Stranded(s) && (e.NickTimer? || e.RejoinTimer? || e.QuitTimer?)
    ensures Stranded(Step(s, e)) <==> Strands(s, e)
  {
  }

  // Exactly these callbacks strand output: from a state in which none is stranded,
  // some is after the callback if and only if it is one of them.
  lemma WhatStrandsOutput(s: State, e: Event)
    requires Invariant(s) && Enabled(s, e) && !Stranded(s)
    ensures Stranded(Step(s, e)) <==> Strands(s, e)
  {
    match e
    case Irc(read, _, _, received, replies, _, _, _, _) =>
      if read {
        ReadLeavesNone(Unregister(s), received, replies);
      } else {
        TimedOutWrite(s, e);
      }
    case HookLine(line) => HookLeaves(s, line);
    case Hup(reload) => ReloadLeaves(s, reload);
    case WriterTimer => WriterLeavesNone(s.(timers := s.timers.(writer := s.timers.writer - 1)));
    case ReconnectTimer(connect) => ReconnectLeaves(s, connect);
    case Datagram(_) =>
    case Signal =>
    case _ => TimersLeave(s, e);
  }

  // Output is stranded from the start when there is something to say.
  lemma StartedStrands(throttling: bool, helo: Option<string>, added: bool)
    ensures Stranded(Started(throttling, helo, added)) <==> helo.Some? && helo.value != ""
  {
  }
}
