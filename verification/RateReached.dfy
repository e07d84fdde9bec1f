// Runs of the daemon that send as much as the limiter ever lets through.
module RateReached {
  import opened Options
  import opened Throttle
  import opened Daemon
  import opened DaemonRuns
  import opened Chains

  // ---- The rate is reached ----

  // Two writes in one second and the timer behind them; a datagram in between makes
  // the daemon try again at once.
  function Tries(now: int): seq<Event> {
    [WriteAt(4, now), Datagram(Some("")), WriteAt(4, now), WriterTimer]
  }

  // Every fourth second, and at the end every second.
  function Volley(now: int, t: nat): seq<Event>
    decreases t
  {
    Tries(now) + (if t >= 4 then Volley(now + 4, t - 4) else Ticks(now + 1, t))
  }

  function Ticks(now: int, n: nat): seq<Event>
    decreases n
  {
    if n == 0 then [] else Tries(now) + Ticks(now + 1, n - 1)
  }

  // Empty lines wait and the socket is asked whether it can be written to.
  predicate Waiting(s: State) {
    Invariant(s) && s.mode.throttling && !s.mode.shutdown && !s.broken && s.watch == Watch(true, true) &&
    BlankLines(s.out)
  }

  lemma BlankWrite(s: State, now: int, n: nat)
    requires Waiting(s) && n == Planned(s.limiter, s.out, now) && 0 < n <= 4 && n < |s.out|
    ensures var e := WriteAt(4, now);
            Enabled(s, e) && Newlines(SentBy(s, e)) == n &&
            var s' := Step(s, e);
            Invariant(s') && s'.out == s.out[n..] && s'.limiter == Settled(s.limiter, s.out, now) &&
            s'.mode == s.mode.(throttled := true) && s'.watch == Watch(true, false) && !s'.broken
  {
    StepKeeps(s, WriteAt(4, now));
    BlankLinesCount(s.out[..n]);
    assert Accepted(n, 4) == n;
  }

  // A write without quota sends nothing and cools the counter.
  lemma EmptyWrite(s: State, now: int)
    requires Waiting(s) && s.limiter.burst == QUOTA && 1 <= now - s.limiter.last <= 3 && s.out != ""
    ensures var e := WriteAt(4, now);
            Enabled(s, e) && SentBy(s, e) == "" &&
            var s' := Step(s, e);
            Invariant(s') && s'.out == s.out && s'.limiter == Limiter(3, now) &&
            s'.mode == s.mode.(throttled := true) && s'.watch == Watch(true, false) && !s'.broken
  {
    StepKeeps(s, WriteAt(4, now));
    AttemptShape(s.out, 0);
    assert Planned(s.limiter, s.out, now) == 0 && s.out[..0] == "" && Newlines("") == 0;
  }

  lemma Nudge(s: State)
    requires Invariant(s) && s.watch == Watch(true, false) && !s.broken && s.out != ""
    ensures Enabled(s, Datagram(Some(""))) && SentBy(s, Datagram(Some(""))) == ""
    ensures var s' := Step(s, Datagram(Some("")));
            Invariant(s') && s'.out == s.out && s'.limiter == s.limiter && s'.mode == s.mode &&
            s'.watch == Watch(true, true) && !s'.broken
  {
    StepKeeps(s, Datagram(Some("")));
    assert s.out + "" == s.out;
  }

  lemma TimerFires(s: State)
    requires Invariant(s) && s.mode.throttled && !s.broken && s.out != ""
    ensures Enabled(s, WriterTimer) && SentBy(s, WriterTimer) == ""
    ensures var s' := Step(s, WriterTimer);
            Invariant(s') && s'.out == s.out && s'.limiter == s.limiter && s'.mode == s.mode.(throttled := false) &&
            s'.watch == Watch(true, true) && !s'.broken
  {
    StepKeeps(s, WriterTimer);
  }

  // An event that is possible, leads to a state and sends so many lines.
  ghost predicate Moves(s: State, e: Event, s': State, lines: int) {
    Invariant(s) && Enabled(s, e) && s' == Step(s, e) && Invariant(s') && Newlines(SentBy(s, e)) == lines
  }

  ghost function AllMoves(): Relation<State, Event> {
    (a, e, b, n) => Moves(a, e, b, n)
  }

  // A run from s to z that sends so many lines.
  ghost predicate Sends(s: State, es: seq<Event>, z: State, lines: int) {
    Chain(AllMoves(), s, es, z, lines)
  }

  lemma {:induction false} SendsIsRun(s: State, es: seq<Event>, z: State, lines: int)
    requires Invariant(s) && Sends(s, es, z, lines)
    ensures Possible(s, es) && Final(s, es) == z && LinesSent(s, es) == lines
    decreases |es|
  {
    if es == [] {
    } else {
      var s', n := FirstMove(AllMoves(), s, es, z, lines);
      SendsIsRun(s', es[1..], z, lines - n);
      FirstOfRun(s, es, s', z, n, lines);
    }
  }

  lemma FirstOfRun(s: State, es: seq<Event>, s': State, z: State, n: int, lines: int)
    requires es != [] && Moves(s, es[0], s', n)
    requires Possible(s', es[1..]) && Final(s', es[1..]) == z && LinesSent(s', es[1..]) == lines - n
    ensures Possible(s, es) && Final(s, es) == z && LinesSent(s, es) == lines
  {
  }

  lemma FourMoves(a: State, now: int, m: nat, b: State, c: State, d: State, z: State, es: seq<Event>, all: int)
    requires es == Tries(now) && all == m + 1
    requires Moves(a, WriteAt(4, now), b, m) && Moves(b, Datagram(Some("")), c, 0)
    requires Moves(c, WriteAt(4, now), d, 1) && Moves(d, WriterTimer, z, 0)
    ensures Sends(a, es, z, all)
  {
    ChainFour(AllMoves(), a, WriteAt(4, now), b, m, Datagram(Some("")), c, 0,
              WriteAt(4, now), d, 1, WriterTimer, z, 0, es, all);
  }

  // One burst, from a reset counter to a full one.
  lemma BurstMoves(s: State, now: int) returns (s1: State, s2: State, s3: State, s4: State)
    requires Waiting(s) && now - s.limiter.last > 3 && |s.out| >= 8
    ensures Moves(s, WriteAt(4, now), s1, 4) && Moves(s1, Datagram(Some("")), s2, 0)
    ensures Moves(s2, WriteAt(4, now), s3, 1) && Moves(s3, WriterTimer, s4, 0)
    ensures Waiting(s4) && s4.limiter == Limiter(4, now) && s4.out == s.out[5..]
  {
    BlankPair(s.limiter, s.out, now);
    BlankWrite(s, now, 4);
    s1 := Step(s, WriteAt(4, now));
    Nudge(s1);
    s2 := Step(s1, Datagram(Some("")));
    BlankWrite(s2, now, 1);
    s3 := Step(s2, WriteAt(4, now));
    TimerFires(s3);
    s4 := Step(s3, WriterTimer);
    assert s.out[4..][1..] == s.out[5..];
    assert Newlines("") == 0;
  }

  // One second after a full counter: a write that finds no quota, and one line.
  lemma TickMoves(s: State, now: int) returns (s1: State, s2: State, s3: State, s4: State)
    requires Waiting(s) && s.limiter.burst == QUOTA && 1 <= now - s.limiter.last <= 3 && |s.out| >= 4
    ensures Moves(s, WriteAt(4, now), s1, 0) && Moves(s1, Datagram(Some("")), s2, 0)
    ensures Moves(s2, WriteAt(4, now), s3, 1) && Moves(s3, WriterTimer, s4, 0)
    ensures Waiting(s4) && s4.limiter == Limiter(4, now) && s4.out == s.out[1..]
  {
    EmptyWrite(s, now);
    s1 := Step(s, WriteAt(4, now));
    Nudge(s1);
    s2 := Step(s1, Datagram(Some("")));
    BlankOne(s2.out, now);
    BlankWrite(s2, now, 1);
    s3 := Step(s2, WriteAt(4, now));
    TimerFires(s3);
    s4 := Step(s3, WriterTimer);
    assert Newlines("") == 0;
  }

  lemma BurstIsPossible(s: State, now: int) returns (z: State)
    requires Waiting(s) && now - s.limiter.last > 3 && |s.out| >= 8
    ensures Sends(s, Tries(now), z, 5)
    ensures Waiting(z) && z.limiter == Limiter(4, now) && |z.out| == |s.out| - 5
  {
    var s1, s2, s3, s4 := BurstMoves(s, now);
    FourMoves(s, now, 4, s1, s2, s3, s4, Tries(now), 5);
    z := s4;
  }

  lemma TickIsPossible(s: State, now: int) returns (z: State)
    requires Waiting(s) && s.limiter.burst == QUOTA && 1 <= now - s.limiter.last <= 3 && |s.out| >= 4
    ensures Sends(s, Tries(now), z, 1)
    ensures Waiting(z) && z.limiter == Limiter(4, now) && |z.out| == |s.out| - 1
  {
    var s1, s2, s3, s4 := TickMoves(s, now);
    FourMoves(s, now, 0, s1, s2, s3, s4, Tries(now), 1);
    z := s4;
  }

  lemma SendsOn(a: State, es: seq<Event>, b: State, m: int, more: seq<Event>, z: State, n: int,
                both: seq<Event>, all: int)
    requires Sends(a, es, b, m) && Sends(b, more, z, n) && both == es + more && all == m + n
    ensures Sends(a, both, z, all)
  {
    ChainConcat(AllMoves(), a, es, b, m, more, z, n, both, all);
  }

  lemma {:induction false} TicksSend(s: State, now: int, n: nat) returns (z: State)
    requires Waiting(s) && s.limiter == Limiter(4, now - 1) && |s.out| >= n + 3
    ensures Sends(s, Ticks(now, n), z, n)
    decreases n
  {
    if n == 0 {
      z := s;
    } else {
      var s' := TickIsPossible(s, now);
      z := TicksSend(s', now + 1, n - 1);
      TickFirst(AllMoves(), s, now, n, s', z);
    }
  }

  lemma TickFirst(moves: Relation<State, Event>, s: State, now: int, n: nat, s': State, z: State)
    requires n > 0 && Chain(moves, s, Tries(now), s', 1) && Chain(moves, s', Ticks(now + 1, n - 1), z, n - 1)
    ensures Chain(moves, s, Ticks(now, n), z, n)
  {
    ChainConcat(moves, s, Tries(now), s', 1, Ticks(now + 1, n - 1), z, n - 1, Ticks(now, n), n);
  }

  // The most lines in t seconds.
  function Most(t: nat): nat {
    (20 + 5 * t) / 4
  }

  lemma MostSteps(t: nat)
    ensures if t >= 4 then Most(t) == 5 + Most(t - 4) else Most(t) == 5 + t
  {
  }

  lemma {:induction false} VolleySends(s: State, now: int, t: nat, lines: nat) returns (z: State)
    requires Waiting(s) && now - s.limiter.last > 3 && lines == Most(t) && |s.out| >= lines + 3
    ensures Sends(s, Volley(now, t), z, lines)
    decreases t, 1
  {
    if t >= 4 {
      MostSteps(t);
      z := LongVolley(s, now, t, lines);
    } else {
      z := ShortVolley(s, now, t);
    }
  }

  lemma {:induction false} LongVolley(s: State, now: int, t: nat, lines: nat) returns (z: State)
    requires Waiting(s) && now - s.limiter.last > 3 && t >= 4
    requires lines == Most(t) && Most(t - 4) + 5 == lines && |s.out| >= lines + 3
    ensures Sends(s, Volley(now, t), z, lines)
    decreases t, 0
  {
    var s' := BurstIsPossible(s, now);
    var rest := lines - 5;
    z := VolleySends(s', now + 4, t - 4, rest);
    BurstFirst(AllMoves(), s, now, t, s', z, lines, rest);
  }

  lemma ShortVolley(s: State, now: int, t: nat) returns (z: State)
    requires Waiting(s) && now - s.limiter.last > 3 && |s.out| >= Most(t) + 3 && t < 4
    ensures Sends(s, Volley(now, t), z, Most(t))
  {
    MostSteps(t);
    var s' := BurstIsPossible(s, now);
    z := TicksSend(s', now + 1, t);
    BurstLast(AllMoves(), s, now, t, s', z);
  }

  lemma BurstFirst(moves: Relation<State, Event>, s: State, now: int, t: nat, s': State, z: State, lines: nat, rest: nat)
    requires t >= 4 && lines == 5 + rest
    requires Chain(moves, s, Tries(now), s', 5) && Chain(moves, s', Volley(now + 4, t - 4), z, rest)
    ensures Chain(moves, s, Volley(now, t), z, lines)
  {
    ChainConcat(moves, s, Tries(now), s', 5, Volley(now + 4, t - 4), z, rest, Volley(now, t), lines);
  }

  lemma BurstLast(moves: Relation<State, Event>, s: State, now: int, t: nat, s': State, z: State)
    requires t < 4 && Chain(moves, s, Tries(now), s', 5) && Chain(moves, s', Ticks(now + 1, t), z, t)
    ensures Chain(moves, s, Volley(now, t), z, Most(t))
  {
    MostSteps(t);
    ChainConcat(moves, s, Tries(now), s', 5, Ticks(now + 1, t), z, t, Volley(now, t), Most(t));
  }

  lemma {:induction false} WindowEarlier(es: seq<Event>, now: int, later: int, end: int)
    requires now <= later && InWindow(es, later, end)
    ensures InWindow(es, now, end)
    decreases |es|
  {
    if es == [] {
    } else if !es[0].Irc? {
      WindowEarlier(es[1..], now, later, end);
    }
  }

  lemma SecondInWindow(now: int, es: seq<Event>, end: int)
    requires now <= end && InWindow(es, now, end)
    ensures InWindow(Tries(now) + es, now, end)
  {
    var all := Tries(now) + es;
    assert all[1..][1..][1..][1..] == es;
    assert InWindow(all[1..][1..][1..], now, end);
    assert InWindow(all[1..][1..], now, end);
    assert InWindow(all[1..], now, end);
  }

  lemma {:induction false} TicksInWindow(now: int, n: nat, end: int)
    requires now - 1 + n <= end
    ensures InWindow(Ticks(now, n), now - 1, end)
    decreases n
  {
    if n == 0 {
    } else {
      TicksInWindow(now + 1, n - 1, end);
      SecondInWindow(now, Ticks(now + 1, n - 1), end);
      WindowEarlier(Ticks(now, n), now - 1, now, end);
    }
  }

  lemma {:induction false} VolleyInWindow(now: int, t: nat)
    ensures InWindow(Volley(now, t), now, now + t)
    decreases t
  {
    if t >= 4 {
      VolleyInWindow(now + 4, t - 4);
      WindowEarlier(Volley(now + 4, t - 4), now, now + 4, now + t);
      SecondInWindow(now, Volley(now + 4, t - 4), now + t);
    } else {
      TicksInWindow(now + 1, t, now + t);
      SecondInWindow(now, Ticks(now + 1, t), now + t);
    }
  }

  // For every T there are runs that send 5 + 5T/4 lines, rounded down, in T seconds:
  // the bound of WindowRate cannot be lowered.
  lemma RateIsReached(s: State, now: int, t: nat)
    requires Waiting(s) && now - s.limiter.last > 3 && |s.out| >= Most(t) + 3
    ensures Possible(s, Volley(now, t)) && InWindow(Volley(now, t), now, now + t)
    ensures LinesSent(s, Volley(now, t)) == Most(t)
  {
    var z := VolleySends(s, now, t, Most(t));
    SendsIsRun(s, Volley(now, t), z, Most(t));
    VolleyInWindow(now, t);
  }

  // ---- From the start ----

  function Blanks(n: nat): (text: string)
    ensures |text| == n && BlankLines(text)
  {
    seq(n, _ => '\n')
  }

  // Where a throttled daemon is once it has connected and a datagram has come.
  lemma WaitingIsReached(n: nat) returns (s: State)
    requires n > 0
    ensures Invariant(Started(true, Some(Blanks(n)), true))
    ensures Sends(Started(true, Some(Blanks(n)), true), [Datagram(Some(""))], s, 0)
    ensures Waiting(s) && s.limiter == Limiter(0, 0) && |s.out| == n
  {
    var s0 := Started(true, Some(Blanks(n)), true);
    StartedOk(true, Some(Blanks(n)), true);
    Nudge(s0);
    s := Step(s0, Datagram(Some("")));
    assert Newlines("") == 0;
    ChainOne(AllMoves(), s0, Datagram(Some("")), s, 0);
  }

  // So the daemon can send as much from its start on.
  lemma RateIsReachedFromStart(now: int, t: nat) returns (helo: string)
    requires now > 3
    ensures var s, es := Started(true, Some(helo), true), [Datagram(Some(""))] + Volley(now, t);
            Invariant(s) && Possible(s, es) && LinesSent(s, es) == Most(t)
    ensures InWindow(Volley(now, t), now, now + t)
  {
    helo := Blanks(Most(t) + 3);
    var s0 := Started(true, Some(helo), true);
    var s := WaitingIsReached(Most(t) + 3);
    var z := VolleySends(s, now, t, Most(t));
    var es := [Datagram(Some(""))] + Volley(now, t);
    SendsOn(s0, [Datagram(Some(""))], s, 0, Volley(now, t), z, Most(t), es, Most(t));
    SendsIsRun(s0, es, z, Most(t));
    VolleyInWindow(now, t);
  }
}
