// Line framing of the server stream (irc_parse over evbuffer_readline): the
// lines dispatched do not depend on how the stream was cut into reads.
module Framing {
  import opened Options

  predicate IsEol(c: char) {
    c == '\r' || c == '\n'
  }

  function EolIndex(buf: string): (i: nat)
    ensures i <= |buf| && (i < |buf| ==> IsEol(buf[i]))
    ensures forall k :: 0 <= k < i ==> !IsEol(buf[k])
  {
    if buf == "" || IsEol(buf[0]) then 0 else 1 + EolIndex(buf[1..])
  }

  // evbuffer_readline: a line ends at CR or LF and swallows one differing
  // partner.  The result is the line and what stays in the buffer.
  function ReadLine(buf: string): (r: Option<(string, string)>)
    ensures r.Some? ==> |r.value.1| < |buf|
  {
    var i := EolIndex(buf);
    if i == |buf| then None
    else if i + 1 < |buf| && IsEol(buf[i + 1]) && buf[i + 1] != buf[i] then Some((buf[..i], buf[i + 2..]))
    else Some((buf[..i], buf[i + 1..]))
  }

  // The lines one call of irc_parse takes out of the buffer, and what it leaves.
  function ParseAll(buf: string): (seq<string>, string)
    decreases |buf|
  {
    var r := ReadLine(buf);
    if r.None? then ([], buf)
    else
      var (lines, tail) := ParseAll(r.value.1);
      ([r.value.0] + lines, tail)
  }

  // The input buffer of the connection.
  class Evbuffer {
    var data: string

    constructor ()
      ensures data == ""
    {
      data := "";
    }

    method Add(bytes: string)
      modifies this
      ensures data == old(data) + bytes
    {
      data := data + bytes;
    }

    method Drain(n: nat)
      modifies this
      ensures data == if n <= |old(data)| then old(data)[n..] else ""
    {
      data := if n <= |data| then data[n..] else "";
    }

    // evbuffer_readline
    method Readline() returns (line: Option<string>)
      modifies this
      ensures ReadLine(old(data)).None? ==> line == None && data == old(data)
      ensures ReadLine(old(data)).Some? ==> line.Some? && ReadLine(old(data)).value == (line.value, data)
    {
      var i := 0;
      while i < |data| && !IsEol(data[i])
        invariant i <= EolIndex(data) && i <= |data|
      {
        i := i + 1;
      }
      if i == |data| {
        return None;
      }
      line := Some(data[..i]);
      if i + 1 < |data| && IsEol(data[i + 1]) && data[i + 1] != data[i] {
        i := i + 1;
      }
      Drain(i + 1);
    }
  }

  predicate Plain(w: string) {
    forall k :: 0 <= k < |w| ==> !IsEol(w[k])
  }

  // ---- Reference: lines of a stream, character by character ----

  // Finished non-empty lines of `s` read after the unfinished line `cur`, and
  // the unfinished line at the end.
  function Scan(cur: string, s: string): (seq<string>, string)
    decreases |s|
  {
    if s == "" then ([], cur)
    else if IsEol(s[0]) then
      var (lines, tail) := Scan("", s[1..]);
      ((if cur == "" then [] else [cur]) + lines, tail)
    else Scan(cur + [s[0]], s[1..])
  }

  lemma {:induction false} ScanConcat(cur: string, a: string, b: string)
    ensures Scan(cur, a + b) == (Scan(cur, a).0 + Scan(Scan(cur, a).1, b).0, Scan(Scan(cur, a).1, b).1)
    decreases |a|
  {
    if a == "" {
      assert a + b == b;
      assert [] + Scan(cur, b).0 == Scan(cur, b).0;
    } else {
      assert (a + b)[1..] == a[1..] + b;
      if IsEol(a[0]) {
        ScanConcat("", a[1..], b);
        var here := if cur == "" then [] else [cur];
        assert here + (Scan("", a[1..]).0 + Scan(Scan("", a[1..]).1, b).0)
            == here + Scan("", a[1..]).0 + Scan(Scan("", a[1..]).1, b).0;
      } else {
        ScanConcat(cur + [a[0]], a[1..], b);
      }
    }
  }

  lemma {:induction false} ScanPlain(cur: string, w: string)
    requires Plain(w)
    ensures Scan(cur, w) == ([], cur + w)
    decreases |w|
  {
    if w == "" {
      assert cur + w == cur;
    } else {
      ScanPlain(cur + [w[0]], w[1..]);
      assert cur + [w[0]] + w[1..] == cur + w;
    }
  }

  function NonEmpty(lines: seq<string>): seq<string> {
    if lines == [] then []
    else (if lines[0] == "" then [] else [lines[0]]) + NonEmpty(lines[1..])
  }

  lemma {:induction false} NonEmptyConcat(a: seq<string>, b: seq<string>)
    ensures NonEmpty(a + b) == NonEmpty(a) + NonEmpty(b)
  {
    if a == [] {
      assert a + b == b;
    } else {
      assert (a + b)[1..] == a[1..] + b;
      NonEmptyConcat(a[1..], b);
    }
  }

  // One readline accounts for its line and its terminator, partner or not.
  lemma ReadLineScan(buf: string)
    requires ReadLine(buf).Some?
    ensures Scan("", buf) ==
            ((if ReadLine(buf).value.0 == "" then [] else [ReadLine(buf).value.0]) + Scan("", ReadLine(buf).value.1).0,
             Scan("", ReadLine(buf).value.1).1)
  {
    var i := EolIndex(buf);
    var line, rest := buf[..i], buf[i + 1..];
    assert buf == line + buf[i..];
    ScanConcat("", line, buf[i..]);
    ScanPlain("", line);
    assert "" + line == line;
    assert buf[i..][1..] == rest;
    assert [] + Scan(line, buf[i..]).0 == Scan(line, buf[i..]).0;
    if ReadLine(buf).value.1 != rest {
      assert rest[1..] == buf[i + 2..];
      assert [] + Scan("", rest[1..]).0 == Scan("", rest[1..]).0;
    }
  }

  lemma {:induction false} ParseAllScan(buf: string)
    ensures NonEmpty(ParseAll(buf).0) == Scan("", buf).0
    ensures ParseAll(buf).1 == Scan("", buf).1
    decreases |buf|
  {
    var r := ReadLine(buf);
    if r.None? {
      ScanPlain("", buf);
      assert "" + buf == buf;
    } else {
      ReadLineScan(buf);
      ParseAllScan(r.value.1);
      var (line, rest) := r.value;
      var lines := ParseAll(rest).0;
      assert ParseAll(buf).0 == [line] + lines;
      assert ([line] + lines)[1..] == lines;
    }
  }

  // The unfinished line holds no terminator, so scanning it again gives it back.
  lemma {:induction false} TailIsPlain(cur: string, s: string)
    requires Plain(cur)
    ensures Plain(Scan(cur, s).1)
    decreases |s|
  {
    if s == "" {
    } else {
      if IsEol(s[0]) {
        TailIsPlain("", s[1..]);
      } else {
        TailIsPlain(cur + [s[0]], s[1..]);
      }
    }
  }

  // ---- Reads ----

  // What arrives in pieces: each piece is appended and parsed at once.
  function FeedAll(tail: string, chunks: seq<string>): (seq<string>, string)
    decreases |chunks|
  {
    if chunks == [] then ([], tail)
    else
      var (lines, tail1) := ParseAll(tail + chunks[0]);
      var (rest, tail2) := FeedAll(tail1, chunks[1..]);
      (lines + rest, tail2)
  }

  function Stream(chunks: seq<string>): string {
    if chunks == [] then "" else chunks[0] + Stream(chunks[1..])
  }

  lemma {:induction false} FeedAllScan(tail: string, chunks: seq<string>)
    requires Plain(tail)
    ensures NonEmpty(FeedAll(tail, chunks).0) == Scan(tail, Stream(chunks)).0
    ensures FeedAll(tail, chunks).1 == Scan(tail, Stream(chunks)).1
    decreases |chunks|
  {
    if chunks == [] {
    } else {
      var (lines, tail1) := ParseAll(tail + chunks[0]);
      ChunkScan(tail, chunks[0]);
      FeedAllScan(tail1, chunks[1..]);
      NonEmptyConcat(lines, FeedAll(tail1, chunks[1..]).0);
      ScanConcat(tail, chunks[0], Stream(chunks[1..]));
    }
  }

  lemma ChunkScan(tail: string, chunk: string)
    requires Plain(tail)
    ensures NonEmpty(ParseAll(tail + chunk).0) == Scan(tail, chunk).0
    ensures ParseAll(tail + chunk).1 == Scan(tail, chunk).1
    ensures Plain(ParseAll(tail + chunk).1)
  {
    ParseAllScan(tail + chunk);
    ScanConcat("", tail, chunk);
    ScanPlain("", tail);
    assert "" + tail == tail;
    assert [] + Scan(tail, chunk).0 == Scan(tail, chunk).0;
    TailIsPlain(tail, chunk);
  }

  // However the stream is fragmented, the non-empty lines dispatched are those
  // of the stream and the buffer keeps its unterminated end.
  lemma ChunkIndependence(chunks: seq<string>, chunks': seq<string>)
    requires Stream(chunks) == Stream(chunks')
    ensures NonEmpty(FeedAll("", chunks).0) == NonEmpty(FeedAll("", chunks').0) == Scan("", Stream(chunks)).0
    ensures FeedAll("", chunks).1 == FeedAll("", chunks').1 == Scan("", Stream(chunks)).1
  {
    FeedAllScan("", chunks);
    FeedAllScan("", chunks');
  }
}
