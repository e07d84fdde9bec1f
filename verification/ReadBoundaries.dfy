// How recv() cuts the stream of the server does not matter: the daemon ends in the
// same state.
module ReadBoundaries {
  import opened Daemon
  import Framing

  // How many of the first k lines are not empty.
  function Filled(lines: seq<string>, k: nat): nat {
    if lines == [] || k == 0 then 0 else (if lines[0] == "" then 0 else 1) + Filled(lines[1..], k - 1)
  }

  // The answers of one read, when those of the stream go by the place of the line
  // among the non-empty ones; `base` of them came in earlier reads.
  function InPlace(lines: seq<string>, reply: Replies, base: nat): Replies {
    (k: nat, c: Command) => reply(base + Filled(lines, k), c)
  }

  // One read, and how many non-empty lines it finishes.
  function ReadNext(s: State, chunk: string, reply: Replies, base: nat): State {
    Read(Unregister(s), chunk, InPlace(Framing.ParseAll(s.input + chunk).0, reply, base))
  }

  function Finished(s: State, chunk: string): nat {
    |Framing.NonEmpty(Framing.ParseAll(s.input + chunk).0)|
  }

  // The daemon after reading the stream piece by piece.
  function Fed(s: State, chunks: seq<string>, reply: Replies, base: nat): State
    decreases |chunks|
  {
    if chunks == [] then s
    else Fed(ReadNext(s, chunks[0], reply, base), chunks[1..], reply, base + Finished(s, chunks[0]))
  }

  // What the lines of the stream do, whatever the reads were.
  function Digested(s: State, lines: seq<string>, tail: string, reply: Replies, base: nat): State {
    var s1 := ReactAll(s.(input := tail), AskedAll(lines), reply, base);
    s1.(watch := Watch(true, s1.out != "" || s.watch.write))
  }

  lemma {:induction false} ReactAllConcat(s: State, a: seq<Command>, b: seq<Command>, reply: Replies, k: nat, m: nat)
    requires m == k + |a|
    ensures ReactAll(s, a + b, reply, k) == ReactAll(ReactAll(s, a, reply, k), b, reply, m)
    decreases |a|
  {
    if a == [] {
      assert a + b == b;
    } else {
      assert (a + b)[1..] == a[1..] + b;
      ReactAllConcat(React(s, a[0], reply(k, a[0])), a[1..], b, reply, k + 1, m);
    }
  }

  lemma {:induction false} CommandsConcat(a: seq<string>, b: seq<string>)
    ensures AskedAll(a + b) == AskedAll(a) + AskedAll(b)
    decreases |a|
  {
    if a == [] {
      assert a + b == b;
    } else {
      assert (a + b)[1..] == a[1..] + b;
      CommandsConcat(a[1..], b);
    }
  }

  lemma {:induction false} OneForEach(lines: seq<string>)
    ensures |AskedAll(lines)| == |lines|
    decreases |lines|
  {
    if lines == [] {
    } else {
      OneForEach(lines[1..]);
    }
  }

  lemma ReactToNothing(s: State, cs: seq<Command>, replies: Replies, k: nat)
    ensures ReactAll(s, [Nothing] + cs, replies, k) == ReactAll(s, cs, replies, k + 1)
  {
    assert ([Nothing] + cs)[1..] == cs;
  }

  lemma ReactOne(s: State, line: string, rest: seq<string>, replies: Replies, k: nat)
    ensures ReactAll(s, AskedAll([line] + rest), replies, k) ==
            ReactAll(React(s, Asked(line), replies(k, Asked(line))), AskedAll(rest), replies, k + 1)
  {
    var c := Asked(line);
    assert ([line] + rest)[1..] == rest;
    assert AskedAll([line] + rest) == [c] + AskedAll(rest);
    assert ([c] + AskedAll(rest))[1..] == AskedAll(rest);
  }

  ghost predicate SameAnswers(replies: Replies, k: nat, reply: Replies, n: nat) {
    forall c: Command :: replies(k, c) == reply(n, c)
  }

  // From line k of a read on, the answers are those of the stream from `base` on.
  ghost predicate Agree(replies: Replies, k: nat, lines: seq<string>, reply: Replies, base: nat) {
    forall j: nat :: j < |lines| ==> SameAnswers(replies, k + j, reply, base + Filled(lines, j))
  }

  lemma AgreeOn(replies: Replies, k: nat, lines: seq<string>, reply: Replies, base: nat)
    requires lines != [] && Agree(replies, k, lines, reply, base)
    ensures SameAnswers(replies, k, reply, base)
    ensures Agree(replies, k + 1, lines[1..], reply, if lines[0] == "" then base else base + 1)
  {
    assert SameAnswers(replies, k + 0, reply, base + Filled(lines, 0));
    var base' := if lines[0] == "" then base else base + 1;
    forall j: nat | j < |lines[1..]|
      ensures SameAnswers(replies, k + 1 + j, reply, base' + Filled(lines[1..], j))
    {
      assert SameAnswers(replies, k + (j + 1), reply, base + Filled(lines, j + 1));
    }
  }

  // Empty lines ask for nothing and take no place.
  lemma {:induction false} ReactNonEmpty(s: State, lines: seq<string>, replies: Replies, k: nat,
                                         reply: Replies, base: nat)
    requires Agree(replies, k, lines, reply, base)
    ensures ReactAll(s, AskedAll(lines), replies, k) == ReactAll(s, AskedAll(Framing.NonEmpty(lines)), reply, base)
    decreases |lines|
  {
    if lines == [] {
    } else {
      var rest := lines[1..];
      AgreeOn(replies, k, lines, reply, base);
      ReactOne(s, lines[0], rest, replies, k);
      if lines[0] == "" {
        EmptyLineIsNothing();
        ReactNonEmpty(s, rest, replies, k + 1, reply, base);
        assert [] + Framing.NonEmpty(rest) == Framing.NonEmpty(rest);
      } else {
        ReactOne(s, lines[0], Framing.NonEmpty(rest), reply, base);
        ReactNonEmpty(React(s, Asked(lines[0]), reply(base, Asked(lines[0]))), rest, replies, k + 1, reply, base + 1);
      }
    }
  }

  // The same state but for the input buffer and the interest in writing.
  function Resumed(s: State, input: string, watch: Watch): State {
    s.(input := input, watch := watch)
  }

  lemma ReactIndependent(s: State, c: Command, reply: string, input: string, watch: Watch)
    ensures React(Resumed(s, input, watch), c, reply) == Resumed(React(s, c, reply), input, watch)
    ensures |React(s, c, reply).out| >= |s.out|
  {
  }

  lemma {:induction false} ReactAllIndependent(s: State, cs: seq<Command>, reply: Replies, k: nat,
                                               input: string, watch: Watch)
    ensures ReactAll(Resumed(s, input, watch), cs, reply, k) == Resumed(ReactAll(s, cs, reply, k), input, watch)
    ensures |ReactAll(s, cs, reply, k).out| >= |s.out|
    decreases |cs|
  {
    if cs == [] {
    } else {
      ReactIndependent(s, cs[0], reply(k, cs[0]), input, watch);
      ReactAllIndependent(React(s, cs[0], reply(k, cs[0])), cs[1..], reply, k + 1, input, watch);
    }
  }

  lemma DigestedIs(s: State, lines: seq<string>, tail: string, reply: Replies, base: nat)
    ensures var s1 := ReactAll(s, AskedAll(lines), reply, base);
            Digested(s, lines, tail, reply, base) == Resumed(s1, tail, Watch(true, s1.out != "" || s.watch.write)) &&
            |s1.out| >= |s.out|
  {
    ReactAllIndependent(s, AskedAll(lines), reply, base, tail, s.watch);
    assert Resumed(s, tail, s.watch) == s.(input := tail);
  }

  // One read, as what its lines do to the state before it.
  lemma ReadIs(s: State, chunk: string, replies: Replies)
    requires chunk != ""
    ensures var (lines, tail) := Framing.ParseAll(s.input + chunk);
            var s1 := ReactAll(s, AskedAll(lines), replies, 0);
            Read(Unregister(s), chunk, replies) == Resumed(s1, tail, Watch(true, s1.out != "" || s.watch.write))
  {
    var (lines, tail) := Framing.ParseAll(s.input + chunk);
    var w := s.watch.(registered := false);
    assert Unregister(s).(input := tail) == Resumed(s, tail, w);
    ReactAllIndependent(s, AskedAll(lines), replies, 0, tail, w);
  }

  lemma InPlaceAgrees(lines: seq<string>, reply: Replies, base: nat)
    ensures Agree(InPlace(lines, reply, base), 0, lines, reply, base)
  {
  }

  // Reading one piece does what its finished lines ask for.
  lemma ReadDigests(s: State, chunk: string, all: seq<string>, lines: seq<string>, tail: string,
                    replies: Replies, reply: Replies, base: nat)
    requires Framing.Plain(s.input) && chunk != "" && all == Framing.ParseAll(s.input + chunk).0
    requires (lines, tail) == Framing.Scan(s.input, chunk) && Agree(replies, 0, all, reply, base)
    ensures Framing.NonEmpty(all) == lines && Framing.Plain(tail)
    ensures Read(Unregister(s), chunk, replies) == Digested(s, lines, tail, reply, base)
  {
    Framing.ChunkScan(s.input, chunk);
    ReadIs(s, chunk, replies);
    ReactNonEmpty(s, all, replies, 0, reply, base);
    DigestedIs(s, lines, tail, reply, base);
  }

  lemma DigestTwice(s: State, a: seq<string>, t: string, b: seq<string>, tail: string,
                    reply: Replies, base: nat, next: nat)
    requires next == base + |a|
    ensures Digested(Digested(s, a, t, reply, base), b, tail, reply, next) == Digested(s, a + b, tail, reply, base)
  {
    var s1 := ReactAll(s, AskedAll(a), reply, base);
    var w := Watch(true, s1.out != "" || s.watch.write);
    DigestedIs(s, a, t, reply, base);
    DigestedIs(Resumed(s1, t, w), b, tail, reply, next);
    ReactAllIndependent(s1, AskedAll(b), reply, next, t, w);
    ReactTwice(s, a, b, reply, base, next);
    DigestedIs(s, a + b, tail, reply, base);
  }

  lemma ReactTwice(s: State, a: seq<string>, b: seq<string>, reply: Replies, base: nat, next: nat)
    requires next == base + |a|
    ensures ReactAll(s, AskedAll(a + b), reply, base) ==
            ReactAll(ReactAll(s, AskedAll(a), reply, base), AskedAll(b), reply, next)
  {
    CommandsConcat(a, b);
    OneForEach(a);
    ReactAllConcat(s, AskedAll(a), AskedAll(b), reply, base, next);
  }

  lemma ReadInPlace(s: State, chunk: string, lines: seq<string>, tail: string, reply: Replies, base: nat)
    requires Framing.Plain(s.input) && chunk != "" && (lines, tail) == Framing.Scan(s.input, chunk)
    ensures Finished(s, chunk) == |lines|
    ensures ReadNext(s, chunk, reply, base) == Digested(s, lines, tail, reply, base)
  {
    var all := Framing.ParseAll(s.input + chunk).0;
    InPlaceAgrees(all, reply, base);
    ReadDigests(s, chunk, all, lines, tail, InPlace(all, reply, base), reply, base);
  }

  lemma DigestedInput(s: State, chunk: string, lines: seq<string>, tail: string, reply: Replies, base: nat)
    requires Framing.Plain(s.input) && (lines, tail) == Framing.Scan(s.input, chunk)
    ensures Digested(s, lines, tail, reply, base).input == tail && Framing.Plain(tail)
  {
    DigestedIs(s, lines, tail, reply, base);
    Framing.ChunkScan(s.input, chunk);
  }

  lemma StreamScan(input: string, chunks: seq<string>)
    requires chunks != []
    ensures var (lines, tail) := Framing.Scan(input, chunks[0]);
            var (rest, end) := Framing.Scan(tail, Framing.Stream(chunks[1..]));
            Framing.Scan(input, Framing.Stream(chunks)) == (lines + rest, end)
  {
    Framing.ScanConcat(input, chunks[0], Framing.Stream(chunks[1..]));
  }

  lemma FedFirst(s: State, chunks: seq<string>, reply: Replies, base: nat, s1: State, next: nat, end: State)
    requires chunks != [] && s1 == ReadNext(s, chunks[0], reply, base) && next == base + Finished(s, chunks[0])
    requires Fed(s1, chunks[1..], reply, next) == end
    ensures Fed(s, chunks, reply, base) == end
  {
  }

  lemma {:induction false} FedDigests(s: State, chunks: seq<string>, lines: seq<string>, tail: string,
                                      reply: Replies, base: nat)
    requires Framing.Plain(s.input) && chunks != [] && forall i :: 0 <= i < |chunks| ==> chunks[i] != ""
    requires (lines, tail) == Framing.Scan(s.input, Framing.Stream(chunks))
    ensures Fed(s, chunks, reply, base) == Digested(s, lines, tail, reply, base)
    decreases |chunks|
  {
    var (lines1, tail1) := Framing.Scan(s.input, chunks[0]);
    var s1, next, more := ReadNext(s, chunks[0], reply, base), base + Finished(s, chunks[0]), chunks[1..];
    ReadInPlace(s, chunks[0], lines1, tail1, reply, base);
    DigestedInput(s, chunks[0], lines1, tail1, reply, base);
    StreamScan(s.input, chunks);
    if more == [] {
      assert Framing.Stream(more) == "" && lines1 + [] == lines1;
    } else {
      var (lines2, tail2) := Framing.Scan(tail1, Framing.Stream(more));
      FedDigests(s1, more, lines2, tail2, reply, next);
      DigestTwice(s, lines1, tail1, lines2, tail2, reply, base, next);
    }
    FedFirst(s, chunks, reply, base, s1, next, Digested(s, lines, tail, reply, base));
  }

  // However recv() cuts the stream, the daemon ends in the same state, provided
  // that its answers go by the command and the place of its line in the stream,
  // whatever else they depend on: the same output, flags, timers and interest in
  // writing, the same unfinished line.
  lemma ReadBoundariesDoNotMatter(s: State, chunks: seq<string>, chunks': seq<string>, reply: Replies)
    requires Framing.Plain(s.input) && chunks != [] && chunks' != []
    requires forall i :: 0 <= i < |chunks| ==> chunks[i] != ""
    requires forall i :: 0 <= i < |chunks'| ==> chunks'[i] != ""
    requires Framing.Stream(chunks) == Framing.Stream(chunks')
    ensures Fed(s, chunks, reply, 0) == Fed(s, chunks', reply, 0)
  {
    var (lines, tail) := Framing.Scan(s.input, Framing.Stream(chunks));
    FedDigests(s, chunks, lines, tail, reply, 0);
    FedDigests(s, chunks', lines, tail, reply, 0);
  }
}
