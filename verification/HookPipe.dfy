// The hook's end of the pipe (cmd_parse of quotes): all the lines of one read, with
// the pointer to the arguments that is kept from line to line.
module HookPipe {
  import opened Options
  import opened CString
  import opened Framing
  import opened HookWire

  // What a command is called with.  A line without arguments leaves the pointer
  // of an earlier line in place, whose text was freed with that line.
  datatype Args = Null | Own(text: string) | Freed

  datatype Call = Call(nick: string, channel: string, cmd: string, args: Args)

  function CallOf(r: Request, kept: bool): Call {
    Call(r.nick, r.channel, r.cmd, if r.args.Some? then Own(r.args.value) else if kept then Freed else Null)
  }

  // The calls for some lines; `kept` says that an earlier line had arguments.
  function CallsOf(lines: seq<string>, kept: bool): seq<Call> {
    if lines == [] then []
    else
      match ParseRequest(AsC(lines[0]))
      case None => CallsOf(lines[1..], kept)
      case Some(r) => [CallOf(r, kept)] + CallsOf(lines[1..], kept || r.args.Some?)
  }

  // `goal` is the calls made so far and those for the lines in the buffer, and
  // the unfinished line behind them.
  predicate Left(goal: (seq<Call>, string), calls: seq<Call>, data: string, kept: bool) {
    goal == (calls + CallsOf(ParseAll(data).0, kept), ParseAll(data).1)
  }

  // The same with a line in hand, or at the end.
  predicate InHand(goal: (seq<Call>, string), calls: seq<Call>, line: Option<string>, data: string, kept: bool) {
    if line.None? then goal == (calls, data)
    else goal == (calls + CallsOf([line.value] + ParseAll(data).0, kept), ParseAll(data).1)
  }

  method CmdParseAll(input: Evbuffer) returns (calls: seq<Call>)
    modifies input
    ensures (calls, input.data) == (CallsOf(ParseAll(old(input.data)).0, false), ParseAll(old(input.data)).1)
  {
    calls := [];
    var kept := false;
    ghost var goal := (CallsOf(ParseAll(input.data).0, false), ParseAll(input.data).1);
    assert [] + goal.0 == goal.0;
    var line := NextLine(input, goal, calls, kept);
    while line.Some?
      invariant InHand(goal, calls, line, input.data, kept)
      decreases if line.Some? then |input.data| + 1 else 0
    {
      calls, kept := ParseOne(line.value, calls, kept, goal, input.data);
      if |input.data| > 0 {
        line := NextLine(input, goal, calls, kept);
      } else {
        NothingLeft(goal, calls, kept);
        line := None;
      }
    }
  }

  lemma NothingLeft(goal: (seq<Call>, string), calls: seq<Call>, kept: bool)
    requires Left(goal, calls, "", kept)
    ensures InHand(goal, calls, None, "", kept)
  {
    assert ParseAll("") == ([], "");
    assert calls + [] == calls;
  }

  method NextLine(input: Evbuffer, ghost goal: (seq<Call>, string), ghost calls: seq<Call>, ghost kept: bool)
    returns (line: Option<string>)
    requires Left(goal, calls, input.data, kept)
    modifies input
    ensures InHand(goal, calls, line, input.data, kept)
    ensures line.Some? ==> |input.data| < |old(input.data)|
  {
    line := input.Readline();
    assert calls + [] == calls;
  }

  // One line cut up and handed to cmd_switch.
  method ParseOne(line: string, calls: seq<Call>, kept: bool, ghost goal: (seq<Call>, string), ghost data: string)
    returns (calls': seq<Call>, kept': bool)
    requires InHand(goal, calls, Some(line), data, kept)
    ensures Left(goal, calls', data, kept')
  {
    var buf := Terminated(line);
    var r := CmdParse(buf);
    ghost var lines := ParseAll(data).0;
    OneCall(line, lines, kept);
    calls', kept' := calls, kept;
    if r.Some? {
      Reassociate(calls, CallOf(r.value, kept), CallsOf(lines, kept || r.value.args.Some?));
      calls', kept' := calls + [CallOf(r.value, kept)], kept || r.value.args.Some?;
    }
  }

  lemma Reassociate(calls: seq<Call>, call: Call, rest: seq<Call>)
    ensures calls + ([call] + rest) == calls + [call] + rest
  {
  }

  lemma OneCall(line: string, lines: seq<string>, kept: bool)
    ensures CallsOf([line] + lines, kept) ==
            match ParseRequest(AsC(line))
            case None => CallsOf(lines, kept)
            case Some(r) => [CallOf(r, kept)] + CallsOf(lines, kept || r.args.Some?)
  {
    assert ([line] + lines)[1..] == lines;
  }

  // ---- A stream of requests ----

  datatype Asking = Asking(who: string, where: Option<string>, argv: seq<string>)

  // The requests that get through alone, written by C functions.
  predicate Sendable(a: Asking) {
    && CleanArgs(a.argv) && ':' !in a.who && ':' !in OrEmpty(a.where) && (a.who != "" || OrEmpty(a.where) != "")
    && Plain(a.who) && Plain(OrEmpty(a.where)) && NUL !in Body(a.who, a.where, a.argv)
  }

  function BodyOf(a: Asking): string {
    Body(a.who, a.where, a.argv)
  }

  function Bodies(asked: seq<Asking>): seq<string> {
    if asked == [] then [] else [BodyOf(asked[0])] + Bodies(asked[1..])
  }

  function PipeText(asked: seq<Asking>): string {
    if asked == [] then "" else BodyOf(asked[0]) + "\n" + PipeText(asked[1..])
  }

  lemma BodyIsPlain(a: Asking)
    requires Sendable(a)
    ensures Plain(BodyOf(a)) && BodyOf(a) != "" && AsC(BodyOf(a)) == BodyOf(a)
  {
    PlainWords(a.argv);
    WholeToken(BodyOf(a), [NUL]);
  }

  lemma {:induction false} EolBetween(line: string, rest: string)
    requires Plain(line)
    ensures EolIndex(line + "\n" + rest) == |line|
    decreases |line|
  {
    if line == "" {
    } else {
      assert (line + "\n" + rest)[1..] == line[1..] + "\n" + rest;
      EolBetween(line[1..], rest);
    }
  }

  lemma ReadBody(line: string, rest: string)
    requires Plain(line) && (rest == "" || rest[0] != '\r')
    ensures ReadLine(line + "\n" + rest) == Some((line, rest))
  {
    EolBetween(line, rest);
    var buf := line + "\n" + rest;
    assert buf[..|line|] == line && buf[|line| + 1..] == rest;
  }

  lemma StartsPlain(asked: seq<Asking>)
    requires forall a :: a in asked ==> Sendable(a)
    ensures PipeText(asked) == "" || PipeText(asked)[0] != '\r'
  {
    if asked == [] {
    } else {
      BodyIsPlain(asked[0]);
      assert PipeText(asked)[0] == BodyOf(asked[0])[0];
    }
  }

  // The reader finds the requests as they were written.
  lemma {:induction false} PipeLines(asked: seq<Asking>)
    requires forall a :: a in asked ==> Sendable(a)
    ensures ParseAll(PipeText(asked)) == (Bodies(asked), "")
    decreases |asked|
  {
    if asked == [] {
    } else {
      BodyIsPlain(asked[0]);
      StartsPlain(asked[1..]);
      ReadBody(BodyOf(asked[0]), PipeText(asked[1..]));
      PipeLines(asked[1..]);
    }
  }

  predicate HasArgs(a: Asking) {
    |a.argv| > 2
  }

  function Meant(a: Asking): Call {
    Call(a.who, OrEmpty(a.where), CmdOf(a.argv), if HasArgs(a) then Own(Words(a.argv[2..])) else Null)
  }

  function AllMeant(asked: seq<Asking>): seq<Call> {
    if asked == [] then [] else [Meant(asked[0])] + AllMeant(asked[1..])
  }

  // Every request with arguments, or none, keeps its own; one without gets what
  // an earlier one left.
  function Delivered(asked: seq<Asking>, kept: bool): seq<Call> {
    if asked == [] then []
    else
      var call := if kept && !HasArgs(asked[0]) then Meant(asked[0]).(args := Freed) else Meant(asked[0]);
      [call] + Delivered(asked[1..], kept || HasArgs(asked[0]))
  }

  lemma {:induction false} CallsAreDelivered(asked: seq<Asking>, kept: bool)
    requires forall a :: a in asked ==> Sendable(a)
    ensures CallsOf(Bodies(asked), kept) == Delivered(asked, kept)
    decreases |asked|
  {
    if asked == [] {
    } else {
      FirstCall(asked[0], Bodies(asked[1..]), kept);
      CallsAreDelivered(asked[1..], kept || HasArgs(asked[0]));
    }
  }

  lemma FirstCall(a: Asking, rest: seq<string>, kept: bool)
    requires Sendable(a)
    ensures CallsOf([BodyOf(a)] + rest, kept) ==
            [if kept && !HasArgs(a) then Meant(a).(args := Freed) else Meant(a)] + CallsOf(rest, kept || HasArgs(a))
  {
    BodyIsPlain(a);
    RequestRoundTrip(a.who, a.where, a.argv);
    OneCall(BodyOf(a), rest, kept);
  }

  // No request without arguments comes after one with some.
  predicate InOrder(asked: seq<Asking>) {
    forall i, j :: 0 <= j < i < |asked| && HasArgs(asked[j]) ==> HasArgs(asked[i])
  }

  predicate AllHaveArgs(asked: seq<Asking>) {
    forall i :: 0 <= i < |asked| ==> HasArgs(asked[i])
  }

  lemma {:induction false} DeliveredAsMeant(asked: seq<Asking>, kept: bool)
    ensures Delivered(asked, kept) == AllMeant(asked) <==> InOrder(asked) && (kept ==> AllHaveArgs(asked))
    decreases |asked|
  {
    if asked == [] {
    } else {
      var a, rest := asked[0], asked[1..];
      DeliveredAsMeant(rest, kept || HasArgs(a));
      SplitOrder(asked);
      assert Delivered(asked, kept)[1..] == Delivered(rest, kept || HasArgs(a));
      assert AllMeant(asked)[1..] == AllMeant(rest);
    }
  }

  lemma SplitOrder(asked: seq<Asking>)
    requires asked != []
    ensures InOrder(asked) <==> InOrder(asked[1..]) && (HasArgs(asked[0]) ==> AllHaveArgs(asked[1..]))
    ensures AllHaveArgs(asked) <==> HasArgs(asked[0]) && AllHaveArgs(asked[1..])
  {
    var rest := asked[1..];
    assert forall i :: 0 < i < |asked| ==> asked[i] == rest[i - 1];
  }

  // Requests written one after the other and read at once are all carried out as
  // meant if and only if none without arguments comes after one with some.
  lemma PipeRoundTrip(asked: seq<Asking>)
    requires forall a :: a in asked ==> Sendable(a)
    ensures ParseAll(PipeText(asked)).1 == ""
    ensures CallsOf(ParseAll(PipeText(asked)).0, false) == AllMeant(asked) <==> InOrder(asked)
  {
    PipeLines(asked);
    CallsAreDelivered(asked, false);
    DeliveredAsMeant(asked, false);
  }
}
