// Runs of any machine whose moves carry a cost, put together from their pieces.
module Chains {
  type Relation<!S, !E> = (S, E, S, int) -> bool

  ghost predicate Chain<S(!new), E(!new)>(moves: Relation<S, E>, s: S, es: seq<E>, z: S, cost: int)
    decreases |es|
  {
    if es == [] then s == z && cost == 0
    else exists s': S, n: int :: moves(s, es[0], s', n) && Chain(moves, s', es[1..], z, cost - n)
  }

  lemma FirstMove<S(!new), E(!new)>(moves: Relation<S, E>, s: S, es: seq<E>, z: S, cost: int) returns (s': S, n: int)
    requires es != [] && Chain(moves, s, es, z, cost)
    ensures moves(s, es[0], s', n) && Chain(moves, s', es[1..], z, cost - n)
  {
    s', n :| moves(s, es[0], s', n) && Chain(moves, s', es[1..], z, cost - n);
  }

  lemma ChainFirst<S(!new), E(!new)>(moves: Relation<S, E>, s: S, e: E, s': S, n: int, es: seq<E>, z: S, cost: int)
    requires moves(s, e, s', n) && Chain(moves, s', es, z, cost)
    ensures Chain(moves, s, [e] + es, z, n + cost)
  {
    var all := [e] + es;
    assert all[0] == e && all[1..] == es && n + cost - n == cost;
    assert moves(s, all[0], s', n) && Chain(moves, s', all[1..], z, n + cost - n);
  }

  lemma ChainOne<S(!new), E(!new)>(moves: Relation<S, E>, s: S, e: E, z: S, n: int)
    requires moves(s, e, z, n)
    ensures Chain(moves, s, [e], z, n)
  {
    ChainFirst(moves, s, e, z, n, [], z, 0);
    assert [e] + [] == [e];
  }

  lemma {:induction false} ChainConcat<S(!new), E(!new)>(moves: Relation<S, E>, s: S, es: seq<E>, t: S, m: int,
                                                        more: seq<E>, z: S, n: int, both: seq<E>, cost: int)
    requires Chain(moves, s, es, t, m) && Chain(moves, t, more, z, n) && both == es + more && cost == m + n
    ensures Chain(moves, s, both, z, cost)
    decreases |es|
  {
    if es == [] {
      assert both == more;
    } else {
      var s', k := FirstMove(moves, s, es, t, m);
      var rest := es[1..] + more;
      ChainConcat(moves, s', es[1..], t, m - k, more, z, n, rest, cost - k);
      ChainFirst(moves, s, es[0], s', k, rest, z, cost - k);
      assert both == [es[0]] + rest;
    }
  }

  lemma ChainFour<S(!new), E(!new)>(moves: Relation<S, E>, a: S, e: E, b: S, k: int, f: E, c: S, l: int,
                                   g: E, d: S, m: int, h: E, z: S, n: int, es: seq<E>, cost: int)
    requires moves(a, e, b, k) && moves(b, f, c, l) && moves(c, g, d, m) && moves(d, h, z, n)
    requires es == [e, f, g, h] && cost == k + l + m + n
    ensures Chain(moves, a, es, z, cost)
  {
    ChainOne(moves, d, h, z, n);
    ChainFirst(moves, c, g, d, m, [h], z, n);
    ChainFirst(moves, b, f, c, l, [g] + [h], z, m + n);
    ChainFirst(moves, a, e, b, k, [f] + ([g] + [h]), z, l + m + n);
    assert es == [e] + ([f] + ([g] + [h]));
  }
}
