// SIGHUP (hup.c): the JOINs and PARTs that turn the old channel list into the
// new one, and what they do to the channels the bot is actually in.
module Reload {
  import opened CString
  import opened Framing
  import IrcText

  datatype Move = Join(channel: string) | Part(channel: string)

  // irc_cmd_join and irc_cmd_part
  function Line(c: Move): string {
    match c
    case Join(channel) => "JOIN " + channel + "\n"
    case Part(channel) => "PART " + channel + "\n"
  }

  function Lines(cs: seq<Move>): string {
    if cs == [] then "" else Lines(cs[..|cs| - 1]) + Line(cs[|cs| - 1])
  }

  // JOINs for the new entries that are not old ones, in order.
  function Joins(olds: seq<string>, news: seq<string>): seq<Move> {
    if news == [] then []
    else
      var n := news[|news| - 1];
      Joins(olds, news[..|news| - 1]) + (if n in olds then [] else [Join(n)])
  }

  // PARTs for the old entries that are not new ones, in order.
  function Parts(olds: seq<string>, news: seq<string>): seq<Move> {
    if olds == [] then []
    else
      var o := olds[|olds| - 1];
      Parts(olds[..|olds| - 1], news) + (if o in news then [] else [Part(o)])
  }

  function Diff(olds: seq<string>, news: seq<string>): seq<Move> {
    Joins(olds, news) + Parts(olds, news)
  }

  // The inner loop: is this entry in the other list?
  method Found(list: seq<string>, entry: string) returns (found: bool)
    ensures found <==> entry in list
  {
    found := false;
    var i := 0;
    while i < |list|
      invariant 0 <= i <= |list| && !found
      invariant entry !in list[..i]
    {
      if entry == list[i] {
        return true;
      }
      i := i + 1;
    }
  }

  // hup_check_channels.  What it queues leads the server from the old entries to
  // the new ones.
  method CheckChannels(out: Evbuffer, olds: seq<string>, news: seq<string>)
    modifies out
    ensures out.data == old(out.data) + Lines(Diff(olds, news))
    ensures OneLineEach(olds) && OneLineEach(news) ==>
              old(out.data) <= out.data && LeadsTo(out.data[|old(out.data)|..], olds, news)
  {
    ghost var start := out.data;
    SendJoins(out, olds, news);
    SendParts(out, olds, news);
    LinesConcat(Joins(olds, news), Parts(olds, news));
    Regroup(start, Lines(Joins(olds, news)), Lines(Parts(olds, news)));
    if OneLineEach(olds) && OneLineEach(news) {
      DiffLeads(olds, news);
      assert out.data[|start|..] == Lines(Diff(olds, news));
    }
  }

  // Its first loop: searching for new channels.
  method SendJoins(out: Evbuffer, olds: seq<string>, news: seq<string>)
    modifies out
    ensures out.data == old(out.data) + Lines(Joins(olds, news))
  {
    ghost var start := out.data;
    var n := 0;
    while n < |news|
      invariant 0 <= n <= |news|
      invariant out.data == start + Lines(Joins(olds, news[..n]))
    {
      JoinsStep(start, out.data, olds, news, n);
      var found := Found(olds, news[n]);
      if !found {
        out.Add(Line(Join(news[n])));
      }
      n := n + 1;
    }
    assert news[..n] == news;
  }

  // Its second loop: searching for old channels.
  method SendParts(out: Evbuffer, olds: seq<string>, news: seq<string>)
    modifies out
    ensures out.data == old(out.data) + Lines(Parts(olds, news))
  {
    ghost var start := out.data;
    var o := 0;
    while o < |olds|
      invariant 0 <= o <= |olds|
      invariant out.data == start + Lines(Parts(olds[..o], news))
    {
      PartsStep(start, out.data, olds, news, o);
      var found := Found(news, olds[o]);
      if !found {
        out.Add(Line(Part(olds[o])));
      }
      o := o + 1;
    }
    assert olds[..o] == olds;
  }

  // What one round of the loops adds to the buffer.
  lemma JoinsStep(start: string, data: string, olds: seq<string>, news: seq<string>, n: nat)
    requires n < |news| && data == start + Lines(Joins(olds, news[..n]))
    ensures (if news[n] in olds then data else data + Line(Join(news[n]))) == start + Lines(Joins(olds, news[..n + 1]))
  {
    var js := Joins(olds, news[..n]);
    assert news[..n + 1][..n] == news[..n];
    LinesNone(js);
    LinesSnoc(js, Join(news[n]));
    Regroup(start, Lines(js), Line(Join(news[n])));
  }

  lemma PartsStep(start: string, data: string, olds: seq<string>, news: seq<string>, o: nat)
    requires o < |olds| && data == start + Lines(Parts(olds[..o], news))
    ensures (if olds[o] in news then data else data + Line(Part(olds[o]))) == start + Lines(Parts(olds[..o + 1], news))
  {
    var ps := Parts(olds[..o], news);
    assert olds[..o + 1][..o] == olds[..o];
    LinesNone(ps);
    LinesSnoc(ps, Part(olds[o]));
    Regroup(start, Lines(ps), Line(Part(olds[o])));
  }

  lemma LinesNone(cs: seq<Move>)
    ensures cs + [] == cs
  {
  }

  lemma LinesSnoc(cs: seq<Move>, c: Move)
    ensures Lines(cs + [c]) == Lines(cs) + Line(c)
  {
    assert (cs + [c])[..|cs|] == cs;
  }

  lemma {:induction false} LinesConcat(a: seq<Move>, b: seq<Move>)
    ensures Lines(a + b) == Lines(a) + Lines(b)
    decreases |b|
  {
    if b == [] {
      LinesNone(a);
      Regroup(Lines(a), "", "");
    } else {
      var front, c := b[..|b| - 1], b[|b| - 1];
      LinesConcat(a, front);
      Regroup(Lines(a), Lines(front), Line(c));
      LinesSnoc(a + front, c);
      SnocConcat(a, b);
    }
  }

  lemma SnocConcat(a: seq<Move>, b: seq<Move>)
    requires b != []
    ensures a + b == a + b[..|b| - 1] + [b[|b| - 1]]
  {
  }

  // ---- Where the commands lead ----

  // A configured entry is a channel and perhaps a key: "#chan secret".
  function Channel(entry: string): string {
    Before(entry, " ")
  }

  // Entries are told apart either as they are written or, as the server does,
  // by their channel alone.
  function Id(byChannel: bool, entry: string): string {
    if byChannel then Channel(entry) else entry
  }

  ghost function Ids(byChannel: bool, list: seq<string>): (r: set<string>)
    ensures forall e :: e in list ==> Id(byChannel, e) in r
    ensures forall x :: x in r ==> exists e :: e in list && Id(byChannel, e) == x
  {
    set e | e in list :: Id(byChannel, e)
  }

  // What the server makes of the text: where the bot is when it has carried out
  // every JOIN and PART in it.
  function Arrived(byChannel: bool, heard: seq<IrcText.Heard>, places: set<string>): set<string> {
    if heard == [] then places
    else
      var before := Arrived(byChannel, heard[..|heard| - 1], places);
      match heard[|heard| - 1]
      case Joined(e) => before + {Id(byChannel, e)}
      case Parted(e) => before - {Id(byChannel, e)}
      case _ => before
  }

  function Reached(byChannel: bool, text: string, places: set<string>): set<string> {
    Arrived(byChannel, IrcText.HeardIn(text), places)
  }

  predicate OneLineEach(list: seq<string>) {
    forall i :: 0 <= i < |list| ==> Plain(list[i])
  }

  // From the old entries to exactly the new ones; an entry is joined if and only
  // if it is new and parted if and only if it is gone.
  ghost predicate LeadsTo(text: string, olds: seq<string>, news: seq<string>) {
    Reached(false, text, set e | e in olds) == (set e | e in news) &&
    (forall e :: IrcText.Joined(e) in IrcText.HeardIn(text) <==> e in news && e !in olds) &&
    (forall e :: IrcText.Parted(e) in IrcText.HeardIn(text) <==> e in olds && e !in news)
  }

  // What a list of commands makes of the places the bot is in.
  function Moved(byChannel: bool, cs: seq<Move>, places: set<string>): set<string> {
    if cs == [] then places
    else
      var before := Moved(byChannel, cs[..|cs| - 1], places);
      match cs[|cs| - 1]
      case Join(e) => before + {Id(byChannel, e)}
      case Part(e) => before - {Id(byChannel, e)}
  }

  lemma MovedSnoc(byChannel: bool, cs: seq<Move>, c: Move, places: set<string>)
    ensures Moved(byChannel, cs + [c], places) ==
            if c.Join? then Moved(byChannel, cs, places) + {Id(byChannel, c.channel)}
            else Moved(byChannel, cs, places) - {Id(byChannel, c.channel)}
  {
    assert (cs + [c])[..|cs|] == cs;
  }

  lemma {:induction false} MovedConcat(byChannel: bool, a: seq<Move>, b: seq<Move>, places: set<string>)
    ensures Moved(byChannel, a + b, places) == Moved(byChannel, b, Moved(byChannel, a, places))
    decreases |b|
  {
    if b == [] {
      LinesNone(a);
    } else {
      var front, c := b[..|b| - 1], b[|b| - 1];
      MovedConcat(byChannel, a, front, places);
      assert a + b == a + front + [c];
      MovedSnoc(byChannel, a + front, c, places);
    }
  }

  // The new entries that are not old, and the other way round.
  function Only(list: seq<string>, others: seq<string>): (r: seq<string>)
    ensures forall e :: e in r <==> e in list && e !in others
  {
    if list == [] then []
    else Only(list[..|list| - 1], others) + (if list[|list| - 1] in others then [] else [list[|list| - 1]])
  }

  lemma IdsSnoc(byChannel: bool, list: seq<string>, e: string)
    ensures Ids(byChannel, list + [e]) == Ids(byChannel, list) + {Id(byChannel, e)}
  {
    assert e in list + [e];
    forall x | x in Ids(byChannel, list) ensures x in Ids(byChannel, list + [e]) {
      var f :| f in list && Id(byChannel, f) == x;
      assert f in list + [e];
    }
  }

  lemma {:induction false} JoinsMove(byChannel: bool, olds: seq<string>, news: seq<string>, places: set<string>)
    ensures Moved(byChannel, Joins(olds, news), places) == places + Ids(byChannel, Only(news, olds))
    decreases |news|
  {
    if news == [] {
    } else {
      var front, e := news[..|news| - 1], news[|news| - 1];
      JoinsMove(byChannel, olds, front, places);
      LinesNone(Joins(olds, front));
      assert Only(front, olds) + [] == Only(front, olds);
      MovedSnoc(byChannel, Joins(olds, front), Join(e), places);
      IdsSnoc(byChannel, Only(front, olds), e);
    }
  }

  lemma {:induction false} PartsMove(byChannel: bool, olds: seq<string>, news: seq<string>, places: set<string>)
    ensures Moved(byChannel, Parts(olds, news), places) == places - Ids(byChannel, Only(olds, news))
    decreases |olds|
  {
    if olds == [] {
    } else {
      var front, e := olds[..|olds| - 1], olds[|olds| - 1];
      PartsMove(byChannel, front, news, places);
      LinesNone(Parts(front, news));
      assert Only(front, news) + [] == Only(front, news);
      MovedSnoc(byChannel, Parts(front, news), Part(e), places);
      IdsSnoc(byChannel, Only(front, news), e);
    }
  }

  lemma DiffMoves(byChannel: bool, olds: seq<string>, news: seq<string>)
    ensures Moved(byChannel, Diff(olds, news), Ids(byChannel, olds)) ==
            Ids(byChannel, olds) + Ids(byChannel, Only(news, olds)) - Ids(byChannel, Only(olds, news))
  {
    MovedConcat(byChannel, Joins(olds, news), Parts(olds, news), Ids(byChannel, olds));
    JoinsMove(byChannel, olds, news, Ids(byChannel, olds));
    PartsMove(byChannel, olds, news, Ids(byChannel, olds) + Ids(byChannel, Only(news, olds)));
  }

  // An old entry that goes while a new one keeps its place.
  ghost predicate Overlap(byChannel: bool, olds: seq<string>, news: seq<string>) {
    exists o, n :: o in olds && o !in news && n in news && Id(byChannel, o) == Id(byChannel, n)
  }

  lemma OverlapIds(byChannel: bool, olds: seq<string>, news: seq<string>)
    ensures Overlap(byChannel, olds, news) <==>
            exists x :: x in Ids(byChannel, Only(olds, news)) && x in Ids(byChannel, news)
  {
    if Overlap(byChannel, olds, news) {
      var o, n :| o in olds && o !in news && n in news && Id(byChannel, o) == Id(byChannel, n);
      assert o in Only(olds, news);
      assert Id(byChannel, o) in Ids(byChannel, Only(olds, news));
    }
    if x :| x in Ids(byChannel, Only(olds, news)) && x in Ids(byChannel, news) {
      var o :| o in Only(olds, news) && Id(byChannel, o) == x;
      var n :| n in news && Id(byChannel, n) == x;
      assert Overlap(byChannel, olds, news);
    }
  }

  lemma NewPlacesReached(byChannel: bool, olds: seq<string>, news: seq<string>, x: string)
    requires x in Ids(byChannel, news)
    ensures x in Ids(byChannel, olds) + Ids(byChannel, Only(news, olds))
  {
    var n :| n in news && Id(byChannel, n) == x;
    if n !in olds {
      assert n in Only(news, olds);
    }
  }

  lemma IdsOfOnly(byChannel: bool, list: seq<string>, others: seq<string>, x: string)
    ensures x in Ids(byChannel, Only(list, others)) ==> x in Ids(byChannel, list)
  {
    if x in Ids(byChannel, Only(list, others)) {
      var e :| e in Only(list, others) && Id(byChannel, e) == x;
      assert e in list;
    }
  }

  lemma OldPlacesLeft(byChannel: bool, olds: seq<string>, news: seq<string>, x: string)
    requires x in Ids(byChannel, olds) + Ids(byChannel, Only(news, olds)) && x !in Ids(byChannel, news)
    ensures x in Ids(byChannel, Only(olds, news))
  {
    IdsOfOnly(byChannel, news, olds, x);
    var o :| o in olds && Id(byChannel, o) == x;
    assert o !in news;
    assert o in Only(olds, news);
  }

  lemma DiffReaches(byChannel: bool, olds: seq<string>, news: seq<string>)
    ensures Moved(byChannel, Diff(olds, news), Ids(byChannel, olds)) == Ids(byChannel, news)
            <==> !Overlap(byChannel, olds, news)
  {
    DiffMoves(byChannel, olds, news);
    OverlapIds(byChannel, olds, news);
    forall x ensures x in Ids(byChannel, news) ==> x in Ids(byChannel, olds) + Ids(byChannel, Only(news, olds)) {
      if x in Ids(byChannel, news) {
        NewPlacesReached(byChannel, olds, news, x);
      }
    }
    forall x | x in Ids(byChannel, olds) + Ids(byChannel, Only(news, olds)) && x !in Ids(byChannel, news)
      ensures x in Ids(byChannel, Only(olds, news))
    {
      OldPlacesLeft(byChannel, olds, news, x);
    }
  }

  lemma {:induction false} JoinsMember(olds: seq<string>, news: seq<string>, c: Move)
    ensures c in Joins(olds, news) <==> c.Join? && c.channel in news && c.channel !in olds
    decreases |news|
  {
    if news == [] {
    } else {
      JoinsMember(olds, news[..|news| - 1], c);
      assert news == news[..|news| - 1] + [news[|news| - 1]];
    }
  }

  lemma {:induction false} PartsMember(olds: seq<string>, news: seq<string>, c: Move)
    ensures c in Parts(olds, news) <==> c.Part? && c.channel in olds && c.channel !in news
    decreases |olds|
  {
    if olds == [] {
    } else {
      PartsMember(olds[..|olds| - 1], news, c);
      assert olds == olds[..|olds| - 1] + [olds[|olds| - 1]];
    }
  }

  // ---- On the wire ----

  // The commands as they should be heard.
  function Meant(cs: seq<Move>): seq<IrcText.Heard> {
    if cs == [] then []
    else
      Meant(cs[..|cs| - 1]) +
      [match cs[|cs| - 1] case Join(e) => IrcText.Joined(e) case Part(e) => IrcText.Parted(e)]
  }

  predicate Sendable(cs: seq<Move>) {
    forall i :: 0 <= i < |cs| ==> Plain(cs[i].channel)
  }

  lemma LineHeard(c: Move)
    requires Plain(c.channel)
    ensures IrcText.HeardIn(Line(c)) ==
            [match c case Join(e) => IrcText.Joined(e) case Part(e) => IrcText.Parted(e)]
  {
    IrcText.VerbHeard("JOIN", c.channel);
    IrcText.VerbHeard("PART", c.channel);
    assert "JOIN" + " " == "JOIN " && "PART" + " " == "PART ";
  }

  lemma {:induction false} LinesFinished(cs: seq<Move>)
    ensures IrcText.Finished(Lines(cs))
    decreases |cs|
  {
    if cs == [] {
    } else {
      LinesFinished(cs[..|cs| - 1]);
      LineFinished(Lines(cs[..|cs| - 1]), cs[|cs| - 1]);
    }
  }

  lemma LineFinished(text: string, c: Move)
    ensures IrcText.Finished(text + Line(c))
  {
    assert Line(c)[|Line(c)| - 1] == '\n';
  }

  lemma {:induction false} LinesHeard(cs: seq<Move>)
    requires Sendable(cs)
    ensures IrcText.HeardIn(Lines(cs)) == Meant(cs)
    decreases |cs|
  {
    if cs == [] {
    } else {
      var front, c := cs[..|cs| - 1], cs[|cs| - 1];
      LinesHeard(front);
      LinesFinished(front);
      LineHeard(c);
      IrcText.HeardConcat(Lines(front), Line(c), IrcText.HeardIn(Line(c)));
    }
  }

  lemma {:induction false} MeantMoves(byChannel: bool, cs: seq<Move>, places: set<string>)
    ensures Arrived(byChannel, Meant(cs), places) == Moved(byChannel, cs, places)
    decreases |cs|
  {
    if cs == [] {
    } else {
      var front := cs[..|cs| - 1];
      MeantMoves(byChannel, front, places);
      assert Meant(cs)[..|Meant(cs)| - 1] == Meant(front);
    }
  }

  lemma {:induction false} MeantMember(cs: seq<Move>, e: string)
    ensures IrcText.Joined(e) in Meant(cs) <==> Join(e) in cs
    ensures IrcText.Parted(e) in Meant(cs) <==> Part(e) in cs
    decreases |cs|
  {
    if cs == [] {
    } else {
      MeantMember(cs[..|cs| - 1], e);
      assert cs == cs[..|cs| - 1] + [cs[|cs| - 1]];
    }
  }

  lemma DiffSendable(olds: seq<string>, news: seq<string>)
    requires OneLineEach(olds) && OneLineEach(news)
    ensures Sendable(Diff(olds, news))
  {
    var cs := Diff(olds, news);
    forall i | 0 <= i < |cs| ensures Plain(cs[i].channel) {
      assert cs[i] in cs;
      JoinsMember(olds, news, cs[i]);
      PartsMember(olds, news, cs[i]);
      assert cs[i].channel in olds || cs[i].channel in news;
    }
  }

  // The text of a reload does what its commands mean.
  lemma DiffReached(byChannel: bool, olds: seq<string>, news: seq<string>, places: set<string>)
    requires OneLineEach(olds) && OneLineEach(news)
    ensures Reached(byChannel, Lines(Diff(olds, news)), places) == Moved(byChannel, Diff(olds, news), places)
  {
    DiffSendable(olds, news);
    LinesHeard(Diff(olds, news));
    MeantMoves(byChannel, Diff(olds, news), places);
  }

  lemma IdsAsWritten(list: seq<string>)
    ensures Ids(false, list) == set e | e in list
  {
    forall e | e in list ensures e in Ids(false, list) {
      assert Id(false, e) == e;
    }
  }

  // The text turns the old configured entries into the new ones; no entry is both
  // joined and parted and entries in both lists are left alone.
  lemma DiffLeads(olds: seq<string>, news: seq<string>)
    requires OneLineEach(olds) && OneLineEach(news)
    ensures LeadsTo(Lines(Diff(olds, news)), olds, news)
  {
    DiffSendable(olds, news);
    LinesHeard(Diff(olds, news));
    DiffReached(false, olds, news, set e | e in olds);
    IdsAsWritten(olds);
    IdsAsWritten(news);
    DiffReaches(false, olds, news);
    forall e
      ensures IrcText.Joined(e) in Meant(Diff(olds, news)) <==> e in news && e !in olds
      ensures IrcText.Parted(e) in Meant(Diff(olds, news)) <==> e in olds && e !in news
    {
      MeantMember(Diff(olds, news), e);
      DiffMember(olds, news, e);
    }
  }

  lemma DiffMember(olds: seq<string>, news: seq<string>, e: string)
    ensures Join(e) in Diff(olds, news) <==> e in news && e !in olds
    ensures Part(e) in Diff(olds, news) <==> e in olds && e !in news
  {
    JoinsMember(olds, news, Join(e));
    JoinsMember(olds, news, Part(e));
    PartsMember(olds, news, Join(e));
    PartsMember(olds, news, Part(e));
  }

  // After the reload the bot sits in exactly the configured channels if and
  // only if no channel stays in the configuration under another key: the new
  // entry is joined first and the old one, the same channel, parted after it.
  lemma ReloadReachesChannels(olds: seq<string>, news: seq<string>)
    requires OneLineEach(olds) && OneLineEach(news)
    ensures Reached(true, Lines(Diff(olds, news)), set e | e in olds :: Channel(e)) == (set e | e in news :: Channel(e))
            <==> !(exists o, n :: o in olds && o !in news && n in news && Channel(o) == Channel(n))
  {
    ChannelIds(olds);
    ChannelIds(news);
    DiffReached(true, olds, news, Ids(true, olds));
    DiffReaches(true, olds, news);
    if o, n :| o in olds && o !in news && n in news && Channel(o) == Channel(n) {
      assert Id(true, o) == Id(true, n);
    }
  }

  lemma ChannelIds(list: seq<string>)
    ensures Ids(true, list) == set e | e in list :: Channel(e)
  {
    forall e | e in list ensures Channel(e) in Ids(true, list) {
      assert Id(true, e) == Channel(e);
    }
  }

  lemma OneId(e: string)
    ensures Ids(true, [e]) == {Channel(e)}
  {
    assert Id(true, e) == Channel(e) && [e][0] == e;
  }

  lemma OnlyOne(e: string, f: string)
    requires e != f
    ensures Only([e], [f]) == [e]
  {
    assert [e][..0] == [] && [f][0] == f;
  }

  // Whenever the key of a channel changes and nothing else, the bot ends outside.
  lemma KeyChangeParts(channel: string, a: string, b: string)
    requires IrcText.Word(channel) && Plain(a) && Plain(b) && a != b
    ensures var olds, news := [channel + " " + a], [channel + " " + b];
            Reached(true, Lines(Diff(olds, news)), {channel}) == {} &&
            Channel(olds[0]) == channel == Channel(news[0])
  {
    var o, n := channel + " " + a, channel + " " + b;
    SplitToken(channel, ' ', a, " ");
    SplitToken(channel, ' ', b, " ");
    assert o[|channel| + 1..] == a && n[|channel| + 1..] == b;
    KeysPlain(channel, a);
    KeysPlain(channel, b);
    OnlyOne(o, n);
    OnlyOne(n, o);
    OneId(o);
    OneId(n);
    DiffMoves(true, [o], [n]);
    DiffReached(true, [o], [n], {channel});
  }

  lemma KeysPlain(channel: string, key: string)
    requires Plain(channel) && Plain(key)
    ensures Plain(channel + " " + key)
  {
    IrcText.PlainConcat(channel + " ", key);
    IrcText.PlainConcat(channel, " ");
  }
}
