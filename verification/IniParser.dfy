// conf_ini.c, reading side: one "key = value, value" line, cut in place.
module IniParser {
  import opened Options
  import opened CString

  const KEY_DELIMS := " =\t"
  const VALUE_DELIMS := "=\t\r,\n"
  const MAX_VALUES: nat := 127
  const BUFF_SIZE: nat := 4096

  // ---- One parameter ----

  // Drops trailing blanks but never the first character.
  function TrimEnd(s: string): string {
    if |s| > 1 && s[|s| - 1] == ' ' then TrimEnd(s[..|s| - 1]) else s
  }

  function Trim(field: string): string {
    TrimEnd(SkipLeading(field, " "))
  }

  function Trimmed(fields: seq<string>): (values: seq<string>)
    ensures |values| == |fields|
  {
    if fields == [] then [] else Trimmed(fields[..|fields| - 1]) + [Trim(fields[|fields| - 1])]
  }

  function FirstOnes(toks: seq<string>): seq<string> {
    if |toks| < MAX_VALUES then toks else toks[..MAX_VALUES]
  }

  function Fields(rest: string): seq<string> {
    FirstOnes(Tokens(rest, VALUE_DELIMS))
  }

  // conf_ini_check_parameter: the key and its values, or None for a line that
  // is reported and dropped.
  function ParseParameter(line: string): Option<(string, seq<string>)> {
    var str := Before(line, ";");
    match After(str, KEY_DELIMS)
    case None => None
    case Some(rest) =>
      if Fields(rest) == [] then None else Some((Before(str, KEY_DELIMS), Trimmed(Fields(rest))))
  }

  // Only positions from q up to e have changed.
  ghost predicate Within(was: seq<char>, now: seq<char>, q: nat, e: nat) {
    |was| == |now| && q <= e <= |was| && now[..q] == was[..q] && now[e..] == was[e..]
  }

  // Trims the field at q: it now starts at t and may end earlier.  For a field
  // that is all blanks the length, an unsigned number, goes below 0 and the loop
  // takes the blanks in front of the token, up to what separates it from the one
  // before.
  method TrimAt(buf: array<char>, q: nat, ghost field: string) returns (t: nat)
    requires PointsAt(buf[..], q, field, q + |field|) && NUL !in field
    requires 0 < q && buf[q - 1] != ' '
    modifies buf
    ensures Within(old(buf[..]), buf[..], q, q + |field|)
    ensures PointsAt(buf[..], t, Trim(field), q + |field|)
  {
    ghost var was, end := buf[..], q + |field|;
    FieldAt(was, q, field);
    t := q;
    while buf[t] == ' '
      invariant q <= t <= end
      invariant forall k :: q <= k < t ==> was[k] == ' '
      decreases end - t
    {
      t := t + 1;
    }
    SkippedField(was, q, t, end);
    if buf[t] == NUL {
      TrimBack(buf, q, t);
    } else {
      TrimTail(buf, t, end);
    }
    assert buf[..][..q] == buf[..][..t][..q];
  }

  // The loop over trailing blanks when the token is empty.
  method TrimBack(buf: array<char>, ghost q: nat, t: nat)
    requires 0 < q <= t < buf.Length && buf[t] == NUL && buf[q - 1] != ' '
    modifies buf
    ensures Within(old(buf[..]), buf[..], q, t) && PointsAt(buf[..], t, "", t)
  {
    ghost var was := buf[..];
    var len := -1;
    while buf[t + len] == ' '
      invariant q - 1 <= t + len < t
      invariant buf[..q] == was[..q] && buf[t..] == was[t..]
      decreases t + len
    {
      buf[t + len] := NUL;
      len := len - 1;
    }
    StrUnique(buf[..], t, 0);
  }

  lemma SkippedField(s: seq<char>, q: nat, t: nat, end: nat)
    requires q <= t <= end < |s| && s[end] == NUL && forall k :: q <= k < end ==> s[k] != NUL
    requires s[t] != ' ' && forall k :: q <= k < t ==> s[k] == ' '
    ensures SkipLeading(Str(s, q), " ") == s[t..end]
  {
    SkipTo(s, q, t, end, " ");
    StrUnique(s, t, end - t);
  }

  lemma FieldAt(s: seq<char>, q: nat, field: string)
    requires PointsAt(s, q, field, q + |field|) && NUL !in field
    ensures s[q..q + |field|] == field
    ensures forall k :: q <= k < q + |field| ==> s[k] == field[k - q] && s[k] != NUL
  {
    assert |Str(s, q)| == |field|;
    assert Str(s, q) == s[q..q + |field|];
    assert forall k :: q <= k < q + |field| ==> s[k] == field[k - q] && field[k - q] in field;
  }

  // The loop that overwrites trailing blanks with NULs.
  method TrimTail(buf: array<char>, t: nat, ghost end: nat)
    requires t < end < buf.Length && buf[end] == NUL && forall k :: t <= k < end ==> buf[k] != NUL
    modifies buf
    ensures Within(old(buf[..]), buf[..], t, end)
    ensures PointsAt(buf[..], t, TrimEnd(old(buf[..])[t..end]), end)
  {
    ghost var was := buf[..];
    ghost var word := was[t..end];
    assert word == buf[t..end];
    var len := 0;
    while buf[t + len] != NUL
      invariant t + len <= end
      decreases end - t - len
    {
      len := len + 1;
    }
    len := len - 1;
    assert word[..len + 1] == word;
    while len != 0 && buf[t + len] == ' '
      invariant 0 <= len < |word| && t + len + 1 <= end
      invariant buf[..t + len + 1] == was[..t + len + 1] && buf[end..] == was[end..]
      invariant buf[t + len + 1] == NUL
      invariant TrimEnd(word[..len + 1]) == TrimEnd(word)
      decreases len
    {
      Shorter(was, buf[..], t, end, len);
      buf[t + len] := NUL;
      assert buf[..t + len] == was[..t + len + 1][..t + len];
      len := len - 1;
    }
    TrimDone(was, buf[..], t, end, len);
    assert buf[..t] == buf[..t + len + 1][..t] == was[..t + len + 1][..t] == was[..t];
  }

  lemma Shorter(was: seq<char>, now: seq<char>, t: nat, end: nat, len: nat)
    requires 0 < len && t + len < end < |was| == |now| && now[..t + len + 1] == was[..t + len + 1]
    requires now[t + len] == ' '
    ensures TrimEnd(was[t..end][..len]) == TrimEnd(was[t..end][..len + 1])
  {
    var kept := was[t..end][..len + 1];
    assert kept[len] == was[..t + len + 1][t + len] == now[..t + len + 1][t + len];
    assert kept[..len] == was[t..end][..len];
  }

  lemma TrimDone(was: seq<char>, now: seq<char>, t: nat, end: nat, len: nat)
    requires t + len < end < |was| == |now| && forall k :: t <= k < end ==> was[k] != NUL
    requires now[..t + len + 1] == was[..t + len + 1] && now[t + len + 1] == NUL
    requires TrimEnd(was[t..end][..len + 1]) == TrimEnd(was[t..end])
    requires len == 0 || now[t + len] != ' '
    ensures PointsAt(now, t, TrimEnd(was[t..end]), end)
  {
    var kept := was[t..end][..len + 1];
    assert forall k :: 0 <= k < t + len + 1 ==> now[k] == now[..t + len + 1][k] == was[..t + len + 1][k] == was[k];
    assert kept[len] == now[t + len];
    assert TrimEnd(kept) == kept;
    StrUnique(now, t, len + 1);
    assert now[t..t + len + 1] == kept;
  }

  // `data` points at the trimmed fields found so far; the rest is not cut yet.
  ghost predicate Loaded(s: seq<char>, data: seq<nat>, toks: seq<string>, p: nat) {
    |data| <= |toks| && p <= |s| && IsString(s, p) && Tokens(Str(s, p), VALUE_DELIMS) == toks[|data|..] &&
    (Str(s, p) == "" || (0 < p && s[p - 1] != ' ')) &&
    forall j :: 0 <= j < |data| ==> PointsAt(s, data[j], Trim(toks[j]), p)
  }

  lemma SuffixStr(was: seq<char>, now: seq<char>, e: nat, p: nat)
    requires |was| == |now| && e <= p <= |was| && now[e..] == was[e..] && IsString(was, p)
    ensures IsString(now, p) && Str(now, p) == Str(was, p)
  {
    var end := EndOf(was, p);
    assert forall k :: e <= k < |was| ==> now[k] == now[e..][k - e] == was[e..][k - e] == was[k];
    StrUnique(now, p, end - p);
    assert now[p..end] == was[p..end];
  }

  lemma ShorterPrefix(a: seq<char>, b: seq<char>, n: nat, m: nat)
    requires n <= m <= |a| == |b| && a[..m] == b[..m]
    ensures a[..n] == b[..n]
  {
    assert a[..n] == a[..m][..n];
  }

  lemma EarlierFields(was: seq<char>, now: seq<char>, p: nat, save: nat, data: seq<nat>, toks: seq<string>)
    requires |was| == |now| && Loaded(was, data, toks, p)
    requires p <= save && p < |was| && was[p] != NUL && now[..p] == was[..p]
    ensures forall j :: 0 <= j < |data| ==> PointsAt(now, data[j], Trim(toks[j]), save)
  {
    forall j | 0 <= j < |data| ensures PointsAt(now, data[j], Trim(toks[j]), save) {
      StrHasNoNul(was, data[j]);
      StillPointsAt(was, now, data[j], Trim(toks[j]), p);
    }
  }

  lemma NextField(was: seq<char>, cut: seq<char>, now: seq<char>, p: nat, q: nat, save: nat, t: nat,
                  data: seq<nat>, toks: seq<string>)
    requires |was| == |cut| == |now| && Loaded(was, data, toks, p) && |data| < |toks|
    requires TokenCut(was, cut, p, VALUE_DELIMS, Some(q), save) && toks[|data|] == Str(cut, q)
    requires Within(cut, now, q, q + |Str(cut, q)|) && PointsAt(now, t, Trim(Str(cut, q)), q + |Str(cut, q)|)
    ensures now[..p] == was[..p] && Loaded(now, data + [t], toks, save)
  {
    SuffixStr(cut, now, q + |Str(cut, q)|, save);
    RestOfTokens(toks, |data|, Str(cut, q), Tokens(Str(cut, save), VALUE_DELIMS));
    ShorterPrefix(now, cut, p, q);
    EarlierFields(was, now, p, save, data, toks);
    LoadedMore(now, data, t, toks, save);
  }

  lemma LoadedMore(now: seq<char>, data: seq<nat>, t: nat, toks: seq<string>, save: nat)
    requires |data| < |toks| && save <= |now| && IsString(now, save)
    requires Str(now, save) == "" || (0 < save && now[save - 1] != ' ')
    requires Tokens(Str(now, save), VALUE_DELIMS) == toks[|data| + 1..]
    requires forall j :: 0 <= j < |data| ==> PointsAt(now, data[j], Trim(toks[j]), save)
    requires PointsAt(now, t, Trim(toks[|data|]), save)
    ensures Loaded(now, data + [t], toks, save)
  {
  }

  lemma RestOfTokens(toks: seq<string>, n: nat, first: string, rest: seq<string>)
    requires n <= |toks| && toks[n..] == [first] + rest
    ensures n < |toks| && toks[n] == first && toks[n + 1..] == rest
  {
    assert |toks[n..]| == |toks| - n;
    assert toks[n..][0] == first && toks[n..][1..] == rest;
  }

  // The splitting loop: pointers to at most 127 trimmed fields.
  method SplitFields(buf: array<char>, from: nat) returns (data: seq<nat>)
    requires 0 < from <= buf.Length && IsString(buf[..], from) && buf[from - 1] != ' '
    modifies buf
    ensures buf[..][..from] == old(buf[..])[..from]
    ensures |data| == |Fields(old(Str(buf[..], from)))|
    ensures forall j :: 0 <= j < |data| ==>
              data[j] <= buf.Length && Str(buf[..], data[j]) == Trim(Fields(old(Str(buf[..], from)))[j])
  {
    ghost var toks := Tokens(Str(buf[..], from), VALUE_DELIMS);
    ghost var start := buf[..];
    data := [];
    var i, p := 0, from;
    assert toks[0..] == toks;
    while i < MAX_VALUES
      invariant 0 <= i <= MAX_VALUES && |data| == i <= |toks| && from <= p
      invariant Loaded(buf[..], data, toks, p) && buf[..][..from] == start[..from]
      decreases MAX_VALUES - i
    {
      ghost var was, at := buf[..], p;
      var t: Option<nat>;
      t, p := NextValue(buf, p, data, toks);
      if t == None {
        break;
      }
      ShorterPrefix(buf[..], was, from, at);
      data := data + [t.value];
      i := i + 1;
    }
  }

  // One round of the loop: the next token, trimmed.
  method NextValue(buf: array<char>, p: nat, ghost data: seq<nat>, ghost toks: seq<string>)
    returns (value: Option<nat>, save: nat)
    requires Loaded(buf[..], data, toks, p) && |data| < MAX_VALUES
    modifies buf
    ensures value.None? ==> buf[..] == old(buf[..]) && |data| == |toks|
    ensures value.Some? ==> p <= save && buf[..][..p] == old(buf[..])[..p] &&
                            |data| < |toks| && Loaded(buf[..], data + [value.value], toks, save)
  {
    ghost var was := buf[..];
    value, save := StrTok(buf, p, VALUE_DELIMS);
    if value.Some? {
      var t := TrimToken(buf, was, p, value.value, save, data, toks);
      value := Some(t);
    } else {
      assert |toks[|data|..]| == |toks| - |data|;
    }
  }

  // The token just cut off at q is trimmed where it is.
  method TrimToken(buf: array<char>, ghost was: seq<char>, ghost p: nat, q: nat, ghost save: nat,
                   ghost data: seq<nat>, ghost toks: seq<string>)
    returns (t: nat)
    requires |was| == buf.Length && Loaded(was, data, toks, p) && |data| < MAX_VALUES
    requires TokenCut(was, buf[..], p, VALUE_DELIMS, Some(q), save)
    modifies buf
    ensures buf[..][..p] == was[..p] && |data| < |toks| && Loaded(buf[..], data + [t], toks, save)
  {
    ghost var cut := buf[..];
    TokenFound(was, cut, p, q, save, data, toks);
    t := TrimAt(buf, q, toks[|data|]);
    NextField(was, cut, buf[..], p, q, save, t, data, toks);
  }

  lemma TokenFound(was: seq<char>, cut: seq<char>, p: nat, q: nat, save: nat, data: seq<nat>, toks: seq<string>)
    requires |was| == |cut| && Loaded(was, data, toks, p) && |data| < MAX_VALUES
    requires TokenCut(was, cut, p, VALUE_DELIMS, Some(q), save)
    ensures |data| < |toks| && Str(cut, q) == toks[|data|]
    ensures PointsAt(cut, q, toks[|data|], q + |toks[|data|]|)
    ensures NUL !in toks[|data|] && 0 < q && cut[q - 1] != ' '
  {
    FieldIsToken(was, cut, p, q, save, data, toks);
    SeparatorBefore(was, cut, p, q, save, data, toks);
    FieldPoints(was, cut, p, q, save);
  }

  lemma FieldPoints(was: seq<char>, cut: seq<char>, p: nat, q: nat, save: nat)
    requires p <= |was| == |cut| && TokenCut(was, cut, p, VALUE_DELIMS, Some(q), save)
    ensures PointsAt(cut, q, Str(cut, q), q + |Str(cut, q)|)
  {
  }

  lemma FieldIsToken(was: seq<char>, cut: seq<char>, p: nat, q: nat, save: nat, data: seq<nat>, toks: seq<string>)
    requires |was| == |cut| && Loaded(was, data, toks, p)
    requires TokenCut(was, cut, p, VALUE_DELIMS, Some(q), save)
    ensures |data| < |toks| && Str(cut, q) == toks[|data|] && NUL !in Str(cut, q)
  {
    StrHasNoNul(cut, q);
    RestOfTokens(toks, |data|, Str(cut, q), Tokens(Str(cut, save), VALUE_DELIMS));
  }

  // In front of a token is a separator, or the NUL that ended the one before.
  lemma SeparatorBefore(was: seq<char>, cut: seq<char>, p: nat, q: nat, save: nat, data: seq<nat>, toks: seq<string>)
    requires |was| == |cut| && Loaded(was, data, toks, p)
    requires TokenCut(was, cut, p, VALUE_DELIMS, Some(q), save)
    ensures 0 < q && cut[q - 1] != ' '
  {
    EmptyAt(was, p);
    if q == p {
      assert cut[p - 1] == cut[..p][p - 1] == was[..p][p - 1];
    }
  }

  // conf_ini_check_parameter up to the insertion.
  method Parse(buf: array<char>) returns (r: Option<(string, seq<string>)>)
    requires IsString(buf[..], 0)
    modifies buf
    ensures r == ParseParameter(old(Str(buf[..], 0)))
  {
    ghost var start := buf[..];
    var str, comment := StrSep(buf, Some(0), ";");
    CutString(start, buf[..], 0, ";", comment);
    var key, rest := StrSep(buf, str, KEY_DELIMS);
    if rest == None {
      return None;
    }
    r := ParseFields(buf, rest.value);
  }

  // The values behind the key, which ends before n.
  method ParseFields(buf: array<char>, n: nat) returns (r: Option<(string, seq<string>)>)
    requires 0 < n <= buf.Length && IsString(buf[..], n) && |Str(buf[..], 0)| == n - 1 && buf[n - 1] == NUL
    modifies buf
    ensures var fields := Fields(old(Str(buf[..], n)));
            r == if fields == [] then None else Some((old(Str(buf[..], 0)), Trimmed(fields)))
  {
    ghost var was := buf[..];
    var data := SplitFields(buf, n);
    KeyKept(was, buf[..], n);
    if |data| < 1 {
      return None;
    }
    r := Some((Str(buf[..], 0), Values(buf, data)));
    TrimmedAt(Fields(Str(was, n)), r.value.1);
  }

  // The strings the pointers stand for when they are handed on.
  function Values(buf: array<char>, data: seq<nat>): (values: seq<string>)
    requires forall j :: 0 <= j < |data| ==> data[j] <= buf.Length
    reads buf
    ensures |values| == |data| && forall j :: 0 <= j < |data| ==> values[j] == Str(buf[..], data[j])
  {
    if data == [] then [] else Values(buf, data[..|data| - 1]) + [Str(buf[..], data[|data| - 1])]
  }

  lemma CutString(was: seq<char>, now: seq<char>, p: nat, delims: string, next: Option<nat>)
    requires p <= |was| == |now| && IsString(was, p) && Cut(was, now, p, delims, next)
    ensures IsString(now, p)
  {
    if next.Some? {
      assert now[next.value - 1] == NUL;
    }
  }

  lemma KeyKept(was: seq<char>, now: seq<char>, n: nat)
    requires |was| == |now| && 0 < n <= |was| && now[..n] == was[..n] && |Str(was, 0)| == n - 1 && was[n - 1] == NUL
    ensures Str(now, 0) == Str(was, 0)
  {
    StrHasNoNul(was, 0);
    PrefixPointsAt(was, now, 0, Str(was, 0), n - 1);
  }

  lemma {:induction false} TrimmedAt(fields: seq<string>, values: seq<string>)
    requires |values| == |fields| && forall i :: 0 <= i < |fields| ==> values[i] == Trim(fields[i])
    ensures Trimmed(fields) == values
    decreases |fields|
  {
    if fields == [] {
    } else {
      var n := |fields| - 1;
      TrimmedAt(fields[..n], values[..n]);
      assert values == values[..n] + [values[n]];
    }
  }
}
