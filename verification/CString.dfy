// C strings cut in place.  A buffer is an array of characters; a string starts
// at an index and ends before the first NUL.
module CString {
  import opened Options

  const NUL: char := '\0'

  // Index of the first NUL at or after p.
  function End(s: seq<char>, p: nat): (i: nat)
    requires p <= |s|
    ensures p <= i <= |s|
    decreases |s| - p
  {
    if p == |s| || s[p] == NUL then p else End(s, p + 1)
  }

  lemma {:induction false} EndUnique(s: seq<char>, p: nat, i: nat)
    requires p <= i < |s| && s[i] == NUL && forall k :: p <= k < i ==> s[k] != NUL
    ensures End(s, p) == i
    decreases i - p
  {
    if p == i {
    } else {
      EndUnique(s, p + 1, i);
    }
  }

  // There is a NUL at or after p, so p is the start of a string.
  ghost predicate IsString(s: seq<char>, p: nat) {
    exists i :: p <= i < |s| && s[i] == NUL
  }

  // The string that starts at p.
  function Str(s: seq<char>, p: nat): (str: string)
    requires p <= |s|
  {
    s[p..End(s, p)]
  }

  lemma StrUnique(s: seq<char>, p: nat, n: nat)
    requires p + n < |s| && s[p + n] == NUL && forall k :: p <= k < p + n ==> s[k] != NUL
    ensures Str(s, p) == s[p..p + n]
  {
    EndUnique(s, p, p + n);
  }

  lemma EmptyAt(s: seq<char>, p: nat)
    requires p < |s|
    ensures s[p] == NUL <==> Str(s, p) == ""
  {
  }

  // ---- Splitting a string value ----

  // The part before the first delimiter.
  function Before(str: string, delims: string): (tok: string)
    ensures |tok| <= |str| && tok <= str
    ensures forall c :: c in tok ==> c !in delims
    ensures |tok| < |str| ==> str[|tok|] in delims
  {
    if str == "" || str[0] in delims then "" else [str[0]] + Before(str[1..], delims)
  }

  // The part after it; None when there is no delimiter.
  function After(str: string, delims: string): (rest: Option<string>)
  {
    var n := |Before(str, delims)|;
    if n < |str| then Some(str[n + 1..]) else None
  }

  lemma BeforeUnique(str: string, delims: string, n: nat)
    requires n <= |str| && (n < |str| ==> str[n] in delims)
    requires forall k :: 0 <= k < n ==> str[k] !in delims
    ensures Before(str, delims) == str[..n]
  {
    if str == "" || str[0] in delims {
    } else {
      BeforeUnique(str[1..], delims, n - 1);
      assert str[..n] == [str[0]] + str[1..][..n - 1];
    }
  }

  // A clean token in front of a delimiter is what strsep cuts off.
  lemma SplitToken(tok: string, d: char, rest: string, delims: string)
    requires d in delims && forall c :: c in tok ==> c !in delims
    ensures Before(tok + [d] + rest, delims) == tok
    ensures After(tok + [d] + rest, delims) == Some(rest)
  {
    var s := tok + [d] + rest;
    BeforeUnique(s, delims, |tok|);
    assert s[..|tok|] == tok && s[|tok| + 1..] == rest;
  }

  lemma WholeToken(tok: string, delims: string)
    requires forall c :: c in tok ==> c !in delims
    ensures Before(tok, delims) == tok && After(tok, delims) == None
  {
    BeforeUnique(tok, delims, |tok|);
  }

  lemma Regroup(a: string, b: string, c: string)
    ensures a + b + c == a + (b + c)
  {
  }

  // Bytes copied to memory and closed by a NUL, as C reads them back.
  function AsC(bytes: string): string {
    Before(bytes, [NUL])
  }

  method Terminated(bytes: string) returns (buf: array<char>)
    ensures fresh(buf) && buf[..] == bytes + [NUL]
    ensures IsString(buf[..], 0) && Str(buf[..], 0) == AsC(bytes)
  {
    buf := new char[|bytes| + 1](i => if 0 <= i < |bytes| then bytes[i] else NUL);
    ghost var s := buf[..];
    assert s == bytes + [NUL];
    assert s[|bytes|] == NUL;
    var n := |AsC(bytes)|;
    assert n < |bytes| ==> bytes[n] in [NUL];
    assert s[n] == NUL;
    forall k | 0 <= k < n ensures s[k] != NUL {
      assert s[k] == AsC(bytes)[k] && AsC(bytes)[k] in AsC(bytes);
      assert NUL in [NUL];
    }
    StrUnique(s, 0, n);
  }

  // ---- strsep ----

  // `now` is the buffer once the string at p has been cut at its first
  // delimiter; `next` is where the rest starts, None standing for NULL.
  ghost predicate Cut(was: seq<char>, now: seq<char>, p: nat, delims: string, next: Option<nat>)
    requires p <= |was| == |now|
  {
    Str(now, p) == Before(Str(was, p), delims) &&
    if next.None? then After(Str(was, p), delims) == None && now == was
    else
      p + |Str(now, p)| + 1 == next.value < |was| && now == was[next.value - 1 := NUL] &&
      IsString(now, next.value) && After(Str(was, p), delims) == Some(Str(now, next.value))
  }

  // Cuts the string at `start` at its first delimiter, in place.
  method StrSep(buf: array<char>, start: Option<nat>, delims: string) returns (tok: Option<nat>, next: Option<nat>)
    requires start.Some? ==> start.value <= buf.Length && IsString(buf[..], start.value)
    modifies buf
    ensures tok == start
    ensures start.None? ==> next == None && buf[..] == old(buf[..])
    ensures start.Some? ==> Cut(old(buf[..]), buf[..], start.value, delims, next)
  {
    if start.None? {
      return None, None;
    }
    ghost var was, p := buf[..], start.value;
    ghost var end := EndOf(was, p);
    var s := start.value;
    while buf[s] != NUL && buf[s] !in delims
      invariant p <= s <= end < |was| && buf[..] == was
      invariant forall k :: p <= k < s ==> was[k] != NUL && was[k] !in delims
      decreases end - s
    {
      s := s + 1;
    }
    CutAt(was, p, s, end, delims);
    if buf[s] == NUL {
      next := None;
    } else {
      buf[s] := NUL;
      next := Some(s + 1);
      assert buf[..] == was[s := NUL];
    }
    tok := start;
  }

  // The terminator of the string at p.
  lemma {:induction false} EndOf(s: seq<char>, p: nat) returns (end: nat)
    requires p <= |s| && IsString(s, p)
    ensures p <= end < |s| && s[end] == NUL && forall k :: p <= k < end ==> s[k] != NUL
    ensures Str(s, p) == s[p..end]
    decreases |s| - p
  {
    end := p;
    if s[p] == NUL {
    } else {
      end := EndOf(s, p + 1);
    }
    StrUnique(s, p, end - p);
  }

  // What cutting at s makes of the string value.
  lemma CutAt(was: seq<char>, p: nat, s: nat, end: nat, delims: string)
    requires p <= s <= end < |was| && was[end] == NUL && forall k :: p <= k < end ==> was[k] != NUL
    requires was[s] == NUL || was[s] in delims
    requires forall k :: p <= k < s ==> was[k] !in delims
    ensures was[s] == NUL ==> Cut(was, was, p, delims, None)
    ensures was[s] != NUL ==> Cut(was, was[s := NUL], p, delims, Some(s + 1))
  {
    ValueBefore(was, p, s, end, delims);
    if was[s] != NUL {
      CutBuffer(was, p, s, end);
    }
  }

  lemma ValueBefore(was: seq<char>, p: nat, s: nat, end: nat, delims: string)
    requires p <= s <= end < |was| && was[end] == NUL && forall k :: p <= k < end ==> was[k] != NUL
    requires was[s] == NUL || was[s] in delims
    requires forall k :: p <= k < s ==> was[k] !in delims
    ensures Str(was, p) == was[p..end] && Before(Str(was, p), delims) == was[p..s]
    ensures After(Str(was, p), delims) == if was[s] == NUL then None else Some(was[s + 1..end])
  {
    StrUnique(was, p, end - p);
    CutValue(was[p..end], s - p, delims);
    assert was[p..end][..s - p] == was[p..s];
    assert was[s] != NUL ==> s < end && was[p..end][s - p + 1..] == was[s + 1..end];
  }

  lemma CutValue(str: string, n: nat, delims: string)
    requires n <= |str| && (n < |str| ==> str[n] in delims)
    requires forall k :: 0 <= k < n ==> str[k] !in delims
    ensures Before(str, delims) == str[..n]
    ensures After(str, delims) == if n == |str| then None else Some(str[n + 1..])
  {
    BeforeUnique(str, delims, n);
  }

  lemma CutBuffer(was: seq<char>, p: nat, s: nat, end: nat)
    requires p <= s < end < |was| && was[end] == NUL
    requires forall k :: p <= k < end ==> was[k] != NUL
    ensures Str(was[s := NUL], p) == was[p..s]
    ensures Str(was[s := NUL], s + 1) == was[s + 1..end]
    ensures IsString(was[s := NUL], s + 1)
  {
    StrUnique(was[s := NUL], p, s - p);
    StrUnique(was[s := NUL], s + 1, end - s - 1);
    assert was[s := NUL][p..s] == was[p..s];
    assert was[s := NUL][s + 1..end] == was[s + 1..end];
    assert was[s := NUL][end] == NUL;
  }

  // ---- strtok ----

  function SkipLeading(str: string, delims: string): (rest: string)
    ensures |rest| <= |str| && (rest != "" ==> rest[0] !in delims)
  {
    if str != "" && str[0] in delims then SkipLeading(str[1..], delims) else str
  }

  lemma {:induction false} SkipUnique(str: string, delims: string, n: nat)
    requires n <= |str| && (n < |str| ==> str[n] !in delims)
    requires forall k :: 0 <= k < n ==> str[k] in delims
    ensures SkipLeading(str, delims) == str[n..]
    decreases n
  {
    if n == 0 {
    } else {
      SkipUnique(str[1..], delims, n - 1);
      assert str[1..][n - 1..] == str[n..];
    }
  }

  // Maximal delimiter-free runs, in order.
  function Tokens(str: string, delims: string): (toks: seq<string>)
    ensures forall t :: t in toks ==> t != "" && forall c :: c in t ==> c !in delims
    decreases |str|
  {
    var s := SkipLeading(str, delims);
    if s == "" then []
    else
      [Before(s, delims)] + (match After(s, delims) case None => [] case Some(rest) => Tokens(rest, delims))
  }

  // The buffer after one call of strtok_r from position p: the token found
  // there, if any, and where the next call goes on.
  ghost predicate TokenCut(was: seq<char>, now: seq<char>, p: nat, delims: string, tok: Option<nat>, save: nat)
    requires p <= |was| == |now|
  {
    p <= save < |now| && IsString(now, save) && now[..p] == was[..p] &&
    match tok
    case None => Tokens(Str(was, p), delims) == [] && now == was
    case Some(q) =>
      p <= q <= save && was[p] != NUL && q + |Str(now, q)| <= save && now[q + |Str(now, q)|] == NUL &&
      (q == p || now[q - 1] in delims) &&
      (Str(now, save) == "" || (q + |Str(now, q)| < save && now[save - 1] == NUL)) &&
      Tokens(Str(was, p), delims) == [Str(now, q)] + Tokens(Str(now, save), delims)
  }

  method EndOfToken(buf: array<char>, s: nat, ghost end: nat) returns (save: nat)
    requires s <= end < buf.Length && buf[end] == NUL && forall k :: s <= k < end ==> buf[k] != NUL
    ensures save == end
  {
    save := s;
    while buf[save] != NUL
      invariant s <= save <= end
      decreases end - save
    {
      save := save + 1;
    }
  }

  method StrTok(buf: array<char>, p: nat, delims: string) returns (tok: Option<nat>, save: nat)
    requires p <= buf.Length && IsString(buf[..], p) && NUL !in delims
    modifies buf
    ensures TokenCut(old(buf[..]), buf[..], p, delims, tok, save)
  {
    ghost var was := buf[..];
    ghost var end := EndOf(was, p);
    var s := p;
    while buf[s] in delims
      invariant p <= s <= end && buf[..] == was
      invariant forall k :: p <= k < s ==> was[k] in delims
      decreases end - s
    {
      s := s + 1;
    }
    SkipTo(was, p, s, end, delims);
    if buf[s] == NUL {
      return None, s;
    }
    StrUnique(was, s, end - s);
    var start, next := StrSep(buf, Some(s), delims);
    tok := Some(s);
    if next.Some? {
      save := next.value;
      TokenBeforeDelimiter(was, buf[..], p, s, delims, save);
    } else {
      save := EndOfToken(buf, s, end);
      TokenAtEnd(was, p, s, end, delims);
    }
  }

  lemma SkipTo(was: seq<char>, p: nat, s: nat, end: nat, delims: string)
    requires p <= s <= end < |was| && was[end] == NUL && forall k :: p <= k < end ==> was[k] != NUL
    requires was[s] !in delims && forall k :: p <= k < s ==> was[k] in delims
    ensures SkipLeading(Str(was, p), delims) == Str(was, s) && IsString(was, s)
    ensures was[s] == NUL ==> Tokens(Str(was, p), delims) == []
  {
    StrUnique(was, p, end - p);
    StrUnique(was, s, end - s);
    SkipUnique(was[p..end], delims, s - p);
    assert was[p..end][s - p..] == was[s..end];
  }

  // The token was followed by a delimiter, now a NUL.
  lemma TokenBeforeDelimiter(was: seq<char>, now: seq<char>, p: nat, s: nat, delims: string, save: nat)
    requires p <= s < |was| == |now| && was[p] != NUL && was[s] != NUL
    requires SkipLeading(Str(was, p), delims) == Str(was, s) != "" && (s == p || was[s - 1] in delims)
    requires Cut(was, now, s, delims, Some(save))
    ensures TokenCut(was, now, p, delims, Some(s), save)
  {
    CutPlaces(was, now, p, s, delims, save);
    FirstOfTokens(Str(was, p), Str(was, s), delims, Str(now, s), Str(now, save));
  }

  lemma CutPlaces(was: seq<char>, now: seq<char>, p: nat, s: nat, delims: string, save: nat)
    requires p <= s < |was| == |now| && Cut(was, now, s, delims, Some(save))
    ensures s + |Str(now, s)| + 1 == save < |now| && now[save - 1] == NUL
    ensures now[..p] == was[..p] && (s == p || now[s - 1] == was[s - 1])
  {
    CutPrefix(was, now, p, save - 1);
  }

  // The token was the end of the string.
  lemma TokenAtEnd(was: seq<char>, p: nat, s: nat, end: nat, delims: string)
    requires p <= s < end < |was| && was[end] == NUL && forall k :: p <= k < end ==> was[k] != NUL
    requires SkipLeading(Str(was, p), delims) == Str(was, s) != "" && (s == p || was[s - 1] in delims)
    requires Cut(was, was, s, delims, None)
    ensures TokenCut(was, was, p, delims, Some(s), end)
  {
    LastToken(was, s, end, delims);
    FirstOfTokens(Str(was, p), Str(was, s), delims, Str(was, s), "");
  }

  lemma FirstOfTokens(str: string, rest: string, delims: string, first: string, more: string)
    requires SkipLeading(str, delims) == rest != "" && first == Before(rest, delims)
    requires After(rest, delims) == Some(more) || (After(rest, delims) == None && Tokens(more, delims) == [])
    ensures Tokens(str, delims) == [first] + Tokens(more, delims)
  {
  }

  lemma CutPrefix(was: seq<char>, now: seq<char>, p: nat, i: nat)
    requires p <= i < |was| && now == was[i := NUL]
    ensures now[..p] == was[..p]
  {
  }

  lemma LastToken(now: seq<char>, s: nat, end: nat, delims: string)
    requires s <= end < |now| && now[end] == NUL && forall k :: s <= k < end ==> now[k] != NUL
    ensures |Str(now, s)| == end - s && Str(now, end) == "" && Tokens(Str(now, end), delims) == []
  {
    StrUnique(now, s, end - s);
    StrUnique(now, end, 0);
  }

  // ---- Pointers into a buffer ----

  // `p` points at `str`, and the NUL that ends it is at or before `limit`.
  ghost predicate PointsAt(s: seq<char>, p: nat, str: string, limit: nat) {
    p + |str| < |s| && p + |str| <= limit && s[p + |str|] == NUL && Str(s, p) == str
  }

  // Later cuts leave earlier strings alone.
  lemma StillPointsAt(was: seq<char>, now: seq<char>, p: nat, str: string, limit: nat)
    requires PointsAt(was, p, str, limit) && NUL !in str && |was| == |now|
    requires limit < |was| && was[limit] != NUL && now[..limit] == was[..limit]
    ensures PointsAt(now, p, str, limit)
  {
    assert forall k :: 0 <= k < limit ==> now[k] == now[..limit][k] == was[..limit][k] == was[k];
    assert forall k :: p <= k < p + |str| ==> was[k] == str[k - p];
    StrUnique(now, p, |str|);
  }

  lemma PrefixPointsAt(was: seq<char>, now: seq<char>, p: nat, str: string, limit: nat)
    requires PointsAt(was, p, str, limit) && NUL !in str && |was| == |now|
    requires limit < |was| && now[..limit + 1] == was[..limit + 1]
    ensures PointsAt(now, p, str, limit)
  {
    assert forall k :: 0 <= k <= limit ==> now[k] == now[..limit + 1][k] == was[..limit + 1][k] == was[k];
    assert forall k :: p <= k < p + |str| ==> was[k] == str[k - p];
    StrUnique(now, p, |str|);
  }

  lemma {:induction false} StrHasNoNul(s: seq<char>, p: nat)
    requires p <= |s|
    ensures NUL !in Str(s, p)
    decreases |s| - p
  {
    if p == |s| || s[p] == NUL {
    } else {
      StrHasNoNul(s, p + 1);
      assert Str(s, p) == [s[p]] + Str(s, p + 1);
    }
  }

  // Pointer loops that move past a run of characters.
  method SkipRun(buf: array<char>, p: nat, delims: string) returns (q: nat)
    requires p <= buf.Length && IsString(buf[..], p) && NUL !in delims
    ensures p <= q < buf.Length && IsString(buf[..], q)
    ensures Str(buf[..], q) == SkipLeading(Str(buf[..], p), delims)
  {
    ghost var end := EndOf(buf[..], p);
    q := p;
    while buf[q] in delims
      invariant p <= q <= end
      invariant forall k :: p <= k < q ==> buf[k] in delims
      decreases end - q
    {
      q := q + 1;
    }
    SkipTo(buf[..], p, q, end, delims);
  }

  method SkipWord(buf: array<char>, p: nat, delims: string) returns (q: nat)
    requires p <= buf.Length && IsString(buf[..], p)
    ensures p <= q < buf.Length && IsString(buf[..], q)
    ensures Str(buf[..], q) == Str(buf[..], p)[|Before(Str(buf[..], p), delims)|..]
  {
    ghost var end := EndOf(buf[..], p);
    q := p;
    while buf[q] !in delims && buf[q] != NUL
      invariant p <= q <= end
      invariant forall k :: p <= k < q ==> buf[k] !in delims
      decreases end - q
    {
      q := q + 1;
    }
    CutValue(buf[..][p..end], q - p, delims);
    StrUnique(buf[..], q, end - q);
    assert buf[..][p..end][q - p..] == buf[..][q..end];
  }
}
