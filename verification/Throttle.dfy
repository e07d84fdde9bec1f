// The burst limiter of net_irc_throttled_write: how much one call tries to
// send, how fast calls can send at all, and how soon they empty the buffer.
module Throttle {
  // Lines in the output buffer, by their newlines.
  function Newlines(s: string): (n: nat)
    ensures n <= |s|
  {
    if s == "" then 0 else Newlines(s[..|s| - 1]) + (if s[|s| - 1] == '\n' then 1 else 0)
  }

  lemma {:induction false} NewlinesConcat(a: string, b: string)
    ensures Newlines(a + b) == Newlines(a) + Newlines(b)
    decreases |b|
  {
    if b == "" {
      assert a + b == a;
    } else {
      assert (a + b)[..|a + b| - 1] == a + b[..|b| - 1];
      NewlinesConcat(a, b[..|b| - 1]);
    }
  }

  lemma NewlinesNext(s: string, i: nat)
    requires i < |s|
    ensures Newlines(s[..i + 1]) == Newlines(s[..i]) + (if s[i] == '\n' then 1 else 0)
  {
    assert s[..i + 1][..i] == s[..i];
  }

  lemma NewlinesPrefix(s: string, m: nat, n: nat)
    requires m <= n <= |s|
    ensures Newlines(s[..m]) <= Newlines(s[..n]) <= Newlines(s)
  {
    NewlinesConcat(s[..m], s[m..n]);
    NewlinesConcat(s[..n], s[n..]);
    TakeMore(s, m, n);
    TakeMore(s, n, |s|);
  }

  lemma TakeMore(s: string, m: nat, n: nat)
    requires m <= n <= |s|
    ensures s[..m] + s[m..n] == s[..n] && s[..|s|] == s
  {
  }

  const QUOTA: nat := 4

  // The bytes of one attempt: everything, or what ends with the line that uses
  // up the quota.
  ghost predicate IsAttempt(data: string, quota: nat, n: nat) {
    n <= |data| && Newlines(data[..n]) <= quota &&
    (n < |data| ==> Newlines(data[..n]) == quota) &&
    (n > 0 ==> Newlines(data[..n - 1]) < quota)
  }

  function AttemptFrom(data: string, quota: nat, i: nat): (n: nat)
    requires i <= |data|
    ensures i <= n <= |data|
    decreases |data| - i
  {
    if i < |data| && Newlines(data[..i]) < quota then AttemptFrom(data, quota, i + 1) else i
  }

  function Attempt(data: string, quota: nat): (n: nat)
    ensures n <= |data|
  {
    AttemptFrom(data, quota, 0)
  }

  lemma {:induction false} AttemptFromShape(data: string, quota: nat, i: nat)
    requires i <= |data| && Newlines(data[..i]) <= quota && (i > 0 ==> Newlines(data[..i - 1]) < quota)
    ensures IsAttempt(data, quota, AttemptFrom(data, quota, i))
    decreases |data| - i
  {
    if i == |data| || Newlines(data[..i]) >= quota {
    } else {
      NewlinesNext(data, i);
      AttemptFromShape(data, quota, i + 1);
    }
  }

  // One attempt is the whole buffer or a prefix that ends just after the
  // (4 - burst)-th newline; with no quota left it is nothing.
  lemma AttemptShape(data: string, quota: nat)
    ensures var n := Attempt(data, quota);
            IsAttempt(data, quota, n) &&
            (n == |data| || (Newlines(data[..n]) == quota && (quota > 0 ==> n > 0 && data[n - 1] == '\n'))) &&
            (n == 0 <==> data == "" || quota == 0)
  {
    AttemptFromShape(data, quota, 0);
    var n := Attempt(data, quota);
    if n > 0 {
      NewlinesNext(data, n - 1);
    }
  }

  // ---- One call ----

  // The two static variables of the writer.
  datatype Limiter = Limiter(burst: nat, last: int)

  predicate InRange(l: Limiter) {
    l.burst <= QUOTA
  }

  // The burst counter after the reset test: more than three quiet seconds clear it.
  function Reset(l: Limiter, now: int): nat {
    if now - l.last > 3 then 0 else l.burst
  }

  function Planned(l: Limiter, out: string, now: int): (n: nat)
    requires InRange(l)
    ensures n <= |out|
  {
    Attempt(out, QUOTA - Reset(l, now))
  }

  function Burst(l: Limiter, out: string, now: int): nat
    requires InRange(l)
  {
    Reset(l, now) + Newlines(out[..Planned(l, out, now)])
  }

  lemma BurstInRange(l: Limiter, out: string, now: int)
    requires InRange(l)
    ensures Reset(l, now) <= Burst(l, out, now) <= QUOTA
  {
    AttemptShape(out, QUOTA - Reset(l, now));
  }

  // The limiter after the counting loop, which is how a call leaves it that
  // fails to send, or that is the last one.
  function Aborted(l: Limiter, out: string, now: int): Limiter
    requires InRange(l)
  {
    Limiter(Burst(l, out, now), l.last)
  }

  // What the end of a call does for the next one: a second pays for a line.
  function Cooled(l: Limiter, now: int): Limiter {
    Limiter(if l.burst > 0 && now - l.last >= 1 then l.burst - 1 else l.burst, now)
  }

  // The limiter as a call that ends normally leaves it.
  function Settled(l: Limiter, out: string, now: int): Limiter
    requires InRange(l)
  {
    Cooled(Aborted(l, out, now), now)
  }

  // What the socket takes of `n` bytes offered: an error, or at most that many.
  function Accepted(n: nat, sock: int): int {
    if sock <= 0 then sock else if sock < n then sock else n
  }

  // ---- Rate ----

  // Four times the lines that may still be sent until `end`, when the next call
  // comes at `now` or later.  A due reset makes the counter irrelevant.
  function Budget(l: Limiter, now: int, end: int): int {
    5 * (end - l.last) + (if now - l.last > 3 then 0 else 4 * (QUOTA - l.burst))
  }

  lemma BudgetShrinks(l: Limiter, now: int, later: int, end: int)
    requires InRange(l) && now <= later
    ensures Budget(l, later, end) <= Budget(l, now, end)
  {
  }

  lemma LinesOfAttempt(l: Limiter, out: string, now: int, sent: nat)
    requires InRange(l) && sent <= Planned(l, out, now)
    ensures Newlines(out[..sent]) <= Burst(l, out, now) - Reset(l, now)
    ensures Reset(l, now) <= Burst(l, out, now) <= QUOTA
  {
    BurstInRange(l, out, now);
    NewlinesPrefix(out, sent, Planned(l, out, now));
  }

  // A call pays for the lines it sends out of the budget, partial sends and
  // resets included.
  lemma SettledPays(l: Limiter, out: string, now: int, sent: nat, end: int)
    requires InRange(l) && sent <= Planned(l, out, now) && l.last <= now <= end
    ensures InRange(Settled(l, out, now))
    ensures 4 * Newlines(out[..sent]) + Budget(Settled(l, out, now), now, end) <= Budget(l, now, end)
    ensures 4 * Newlines(out[..sent]) + Budget(Settled(l, out, now), now, end) <= 20 + 5 * (end - now)
  {
    LinesOfAttempt(l, out, now, sent);
  }

  // A failed call sends nothing and leaves no more budget than before, although
  // it may have cleared the counter without moving the clock.
  lemma AbortedPays(l: Limiter, out: string, now: int, sent: nat, end: int)
    requires InRange(l) && sent <= Planned(l, out, now) && l.last <= now <= end
    ensures InRange(Aborted(l, out, now))
    ensures Budget(Aborted(l, out, now), now, end) <= Budget(l, now, end)
    ensures 4 * Newlines(out[..sent]) <= Budget(l, now, end)
    ensures Newlines(out[..sent]) <= 4
  {
    LinesOfAttempt(l, out, now, sent);
  }

  // The simpler account 4 * sent <= 4 * (burst' - burst) + 5 * (last' - last).
  predicate Accounted(l: Limiter, l': Limiter, lines: nat) {
    4 * lines <= 4 * (l'.burst - l.burst) + 5 * (l'.last - l.last)
  }

  // It holds for every call that ends normally.
  lemma SettledAccount(l: Limiter, out: string, now: int, sent: nat)
    requires InRange(l) && sent <= Planned(l, out, now) && l.last <= now
    ensures Accounted(l, Settled(l, out, now), Newlines(out[..sent]))
  {
    LinesOfAttempt(l, out, now, sent);
  }

  lemma BurstAfterReset(l: Limiter, out: string, now: int)
    requires InRange(l) && now - l.last > 3
    ensures Burst(l, out, now) == if Newlines(out) < QUOTA then Newlines(out) else QUOTA
  {
    var n := Planned(l, out, now);
    AttemptShape(out, QUOTA);
    NewlinesPrefix(out, n, |out|);
    assert out[..|out|] == out;
  }

  // A call that leaves before the clock variable is set, because it cannot send
  // or because it is the last one, keeps the account if and only if no reset was
  // due, or the lines it sent and the counter it cleared together are at most
  // the lines in the buffer and the quota.
  lemma AbortedAccountExact(l: Limiter, out: string, now: int, sent: nat)
    requires InRange(l) && sent <= Planned(l, out, now)
    ensures Accounted(l, Aborted(l, out, now), Newlines(out[..sent])) <==>
            now - l.last <= 3 ||
            (Newlines(out[..sent]) + l.burst <= Newlines(out) && Newlines(out[..sent]) + l.burst <= QUOTA)
  {
    LinesOfAttempt(l, out, now, sent);
    if now - l.last > 3 {
      BurstAfterReset(l, out, now);
    }
  }

  // For a call that sends nothing: unless a reset was due, or the buffer holds
  // at least as many lines as the counter that was cleared.
  lemma FailedAccountExact(l: Limiter, out: string, now: int)
    requires InRange(l)
    ensures Accounted(l, Aborted(l, out, now), 0) <==> now - l.last <= 3 || Newlines(out) >= l.burst
  {
    AbortedAccountExact(l, out, now, 0);
    assert out[..0] == "";
  }

  // Such a call: four lines on the counter, one in the buffer, ten seconds later.
  lemma FailedCallBreaksSimpleAccount()
    ensures Aborted(Limiter(4, 0), "a\n", 10) == Limiter(1, 0)
    ensures !Accounted(Limiter(4, 0), Limiter(1, 0), 0)
  {
    var d := "a\n";
    NewlinesNext(d, 0);
    NewlinesNext(d, 1);
    assert d[..0] == "" && d[..2] == d;
    BurstAfterReset(Limiter(4, 0), d, 10);
  }

  // ---- Draining ----

  // Lines left in the buffer, counting one without a newline at the end.
  function Segments(out: string): nat {
    Newlines(out) + (if out != "" && out[|out| - 1] != '\n' then 1 else 0)
  }

  // The buffer after calls at the given times whose sends are not cut short.
  function Drained(l: Limiter, out: string, times: seq<int>): string
    requires InRange(l)
    decreases |times|
  {
    if times == [] || out == "" then out
    else
      BurstInRange(l, out, times[0]);
      Drained(Settled(l, out, times[0]), out[Planned(l, out, times[0])..], times[1..])
  }

  predicate Apart(last: int, times: seq<int>) {
    (times != [] ==> times[0] >= last + 1) &&
    forall i :: 0 < i < |times| ==> times[i] >= times[i - 1] + 1
  }

  lemma SegmentsLeft(out: string, n: nat)
    requires n <= |out| && (n == |out| || Newlines(out[..n]) >= 1)
    requires out != ""
    ensures Segments(out[n..]) + 1 <= Segments(out)
  {
    assert out == out[..n] + out[n..];
    NewlinesConcat(out[..n], out[n..]);
    if n == |out| {
      NewlinesNext(out, |out| - 1);
      assert out[..|out|] == out;
    }
  }

  // One call in a calm second sends a line or finds its quota used up, and
  // leaves quota for the next.
  lemma CallDrains(l: Limiter, out: string, now: int)
    requires InRange(l) && out != "" && now >= l.last + 1
    ensures InRange(Settled(l, out, now)) && Settled(l, out, now).burst < QUOTA
    ensures Reset(l, now) == QUOTA ==> out[Planned(l, out, now)..] == out
    ensures Reset(l, now) < QUOTA ==> Segments(out[Planned(l, out, now)..]) + 1 <= Segments(out)
  {
    BurstInRange(l, out, now);
    AttemptShape(out, QUOTA - Reset(l, now));
    if Reset(l, now) < QUOTA {
      SegmentsLeft(out, Planned(l, out, now));
    }
  }

  // n lines are gone after n + 1 calls a second apart; n calls do unless the
  // quota was used up at the start.
  lemma {:induction false} DrainTerminates(l: Limiter, out: string, times: seq<int>)
    requires InRange(l) && Apart(l.last, times)
    requires |times| >= Segments(out) + 1 || (l.burst < QUOTA && |times| >= Segments(out))
    ensures Drained(l, out, times) == ""
    decreases |times|
  {
    if out == "" {
    } else {
      NewlinesNext(out, |out| - 1);
      assert out[..|out|] == out;
      assert Segments(out) >= 1;
      var now := times[0];
      CallDrains(l, out, now);
      var rest := times[1..];
      forall i | 0 < i < |rest| ensures rest[i] >= rest[i - 1] + 1 {
        assert rest[i] == times[i + 1] && rest[i - 1] == times[i];
      }
      assert rest != [] ==> rest[0] == times[1];
      DrainTerminates(Settled(l, out, now), out[Planned(l, out, now)..], rest);
    }
  }

  // The extra call is needed: one line, a used-up quota, one second.
  lemma DrainBoundIsTight(l: Limiter, out: string)
    requires l.burst == QUOTA && out != ""
    ensures Drained(l, out, [l.last + 1]) == out
  {
    var now := l.last + 1;
    CallDrains(l, out, now);
    assert [now][1..] == [];
    assert Drained(Settled(l, out, now), out, []) == out;
  }

  // ---- Bursts of empty lines ----

  predicate BlankLines(out: string) {
    forall i :: 0 <= i < |out| ==> out[i] == '\n'
  }

  lemma {:induction false} BlankLinesCount(out: string)
    requires BlankLines(out)
    ensures Newlines(out) == |out|
    decreases |out|
  {
    if out == "" {
    } else {
      BlankLinesCount(out[..|out| - 1]);
    }
  }

  // Of a buffer of empty lines a call takes as many as the quota allows.
  lemma BlankCall(l: Limiter, out: string, now: int)
    requires InRange(l) && BlankLines(out) && |out| >= QUOTA
    ensures Planned(l, out, now) == QUOTA - Reset(l, now)
    ensures Burst(l, out, now) == QUOTA
  {
    AttemptShape(out, QUOTA - Reset(l, now));
    BlankLinesCount(out[..Planned(l, out, now)]);
  }

  // A due reset, then two calls in one second: four lines, then one.
  lemma BlankPair(l: Limiter, out: string, now: int)
    requires InRange(l) && now - l.last > 3 && BlankLines(out) && |out| >= 8
    ensures Planned(l, out, now) == 4 && Settled(l, out, now) == Limiter(3, now)
    ensures Planned(Limiter(3, now), out[4..], now) == 1 && Settled(Limiter(3, now), out[4..], now) == Limiter(4, now)
  {
    BlankCall(l, out, now);
    BlankCall(Limiter(3, now), out[4..], now);
  }

  // With a quota of one line a call takes one.
  lemma BlankOne(out: string, now: int)
    requires BlankLines(out) && |out| >= QUOTA
    ensures Planned(Limiter(3, now), out, now) == 1 && Settled(Limiter(3, now), out, now) == Limiter(4, now)
  {
    BlankCall(Limiter(3, now), out, now);
  }
}
