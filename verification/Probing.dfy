// Quadratic probing over a prime number of slots (hash.c): which slots a probe
// path visits before the 32-bit sum `code + off*off` wraps, and which of the
// table's sizes are prime.
module Probing {
  const WORD: nat := 0x1_0000_0000

  // Slot examined after `off` collisions.  The C code computes the sum in
  // unsigned 32-bit arithmetic.
  function Probe(code: nat, off: nat, size: nat): (slot: nat)
    requires size > 0
    ensures slot < size
  {
    (code + off * off) % WORD % size
  }

  // The same slot, computed from the 32-bit counter as the C code does it.
  function WordProbe(code: nat, off: nat, size: nat): nat
    requires size > 0
  {
    (code + off * off % WORD) % WORD % size
  }

  // ---- Division facts, one multiplication at a time ----

  lemma MulAtLeast(n: int, k: int)
    requires n > 0 && k >= 1
    ensures n * k >= n
  {
    assert n * (k - 1) >= 0;
    assert n * k == n * (k - 1) + n;
  }

  lemma DivisionUnique(n: int, q: int, r: int, q': int, r': int)
    requires n > 0 && 0 <= r < n && 0 <= r' < n && n * q + r == n * q' + r'
    ensures q == q' && r == r'
  {
    assert n * (q - q') == r' - r;
    assert n * (q' - q) == r - r';
    if q > q' {
      MulAtLeast(n, q - q');
    } else if q < q' {
      MulAtLeast(n, q' - q);
    }
  }

  lemma QuotientUnique(x: int, q: int, r: int, n: int)
    requires n > 0 && 0 <= r < n && x == n * q + r
    ensures x / n == q && x % n == r
  {
    DivisionUnique(n, q, r, x / n, x % n);
  }

  // Numbers that differ by a multiple of `n` have the same remainder.
  lemma SameResidue(x: int, y: int, k: int, n: int)
    requires n > 0 && y == x + n * k
    ensures y % n == x % n
  {
    var q := x / n;
    assert n * (q + k) == n * q + n * k;
    QuotientUnique(y, q + k, x % n, n);
  }

  lemma Square(x: int, y: int)
    ensures y * y - x * x == (y - x) * (y + x)
  {
  }

  lemma SquareMonotone(x: nat, y: nat)
    requires x <= y
    ensures x * x <= y * y
  {
    Square(x, y);
  }

  lemma SquareOfSum(n: int, q: int, r: int)
    ensures (n * q + r) * (n * q + r) == r * r + n * (n * q * q + 2 * q * r)
  {
    var m := n * q;
    assert (m + r) * (m + r) == m * m + 2 * m * r + r * r;
    assert m * m == n * (n * q * q);
    assert 2 * m * r == n * (2 * q * r);
  }

  // Squaring the wrapped counter gives the same slot as squaring the unbounded
  // number of collisions, so the counter's own overflow is harmless.
  lemma WrappedCounter(code: nat, off: nat, size: nat)
    requires size > 0
    ensures WordProbe(code, off % WORD, size) == Probe(code, off, size)
  {
    var q, r := off / WORD, off % WORD;
    SquareOfSum(WORD, q, r);
    SameResidue(code + r * r, code + off * off, WORD * q * q + 2 * q * r, WORD);
    SameResidue(code + r * r % WORD, code + r * r, r * r / WORD, WORD);
  }

  // One more collision: the 32-bit counter steps to the slot of offset n + 1.
  lemma NextProbe(code: nat, n: nat, size: nat)
    requires size > 0
    ensures (n % WORD + 1) % WORD == (n + 1) % WORD
    ensures WordProbe(code, (n % WORD + 1) % WORD, size) == Probe(code, n + 1, size)
  {
    WordStep(n);
    WrappedCounter(code, n + 1, size);
  }

  lemma WordStep(n: nat)
    ensures (n % WORD + 1) % WORD == (n + 1) % WORD
  {
    SameResidue(n % WORD + 1, n + 1, n / WORD, WORD);
  }

  lemma FirstProbe(code: nat, size: nat)
    requires size > 0 && code < WORD
    ensures Probe(code, 0, size) == code % size
  {
  }

  // ---- Primes ----

  predicate Divides(d: nat, n: int) {
    d > 0 && n % d == 0
  }

  ghost predicate Prime(p: nat) {
    p >= 2 && forall d :: 2 <= d < p ==> !Divides(d, p)
  }

  lemma Multiple(p: nat, x: int, k: int)
    requires p > 0 && x == p * k
    ensures Divides(p, x)
  {
    QuotientUnique(x, k, 0, p);
  }

  lemma Cofactor(p: nat, x: int) returns (k: int)
    requires Divides(p, x)
    ensures x == p * k
  {
    k := x / p;
  }

  lemma RemainderTimes(p: int, a: int, q: int, r: int, b: int, m: int)
    requires p == a * q + r && a * b == p * m
    ensures r * b == p * (b - q * m)
  {
    calc {
      r * b;
      (p - a * q) * b;
      p * b - (a * q) * b;
      { assert (a * q) * b == q * (a * b); }
      p * b - q * (p * m);
      { assert q * (p * m) == p * (q * m); }
      p * b - p * (q * m);
      p * (b - q * m);
    }
  }

  // Euclid's lemma, by descent on `a`: p % a is a smaller counterexample.
  lemma {:induction false} ProductNotDivisible(p: nat, a: nat, b: nat)
    requires Prime(p) && 0 < a < p && 0 < b < p
    ensures !Divides(p, a * b)
    decreases a
  {
    if a == 1 {
      QuotientUnique(b, 0, b, p);
    } else {
      var q, r := p / a, p % a;
      assert !Divides(a, p);
      ProductNotDivisible(p, r, b);
      if Divides(p, a * b) {
        var m := Cofactor(p, a * b);
        RemainderTimes(p, a, q, r, b, m);
        Multiple(p, r * b, b - q * m);
        assert false;
      }
    }
  }

  lemma EqualResidues(x: int, y: int, n: nat)
    requires n > 0 && x % n == y % n
    ensures Divides(n, y - x)
  {
    var q, q' := x / n, y / n;
    assert y - x == n * q' - n * q == n * (q' - q);
    Multiple(n, y - x, q' - q);
  }

  // ---- Coverage ----

  lemma Unwrapped(code: nat, off: nat, size: nat)
    requires size > 0 && code + off * off < WORD
    ensures Probe(code, off, size) == (code + off * off) % size
  {
  }

  // A prime divides no product of smaller numbers, so such a step leaves the slot.
  lemma ProductMoves(x: int, y: int, a: nat, b: nat, p: nat)
    requires Prime(p) && 0 < a < p && 0 < b < p && y - x == a * b
    ensures x % p != y % p
  {
    if x % p == y % p {
      EqualResidues(x, y, p);
      ProductNotDivisible(p, a, b);
      assert false;
    }
  }

  // Two offsets below half of a prime size never meet.
  lemma OffsetsDistinct(code: nat, i: nat, j: nat, p: nat)
    requires Prime(p) && i < j && 2 * j < p
    requires code + j * j < WORD
    ensures Probe(code, i, p) != Probe(code, j, p)
  {
    SquareMonotone(i, j);
    Unwrapped(code, i, p);
    Unwrapped(code, j, p);
    Square(i, j);
    ProductMoves(code + i * i, code + j * j, j - i, j + i, p);
  }

  // The first `n` slots of the probe path of `code`.
  ghost function PathSlots(code: nat, n: nat, size: nat): set<nat>
    requires size > 0
  {
    set o | 0 <= o < n :: Probe(code, o, size)
  }

  lemma {:induction false} PathSlotsSize(code: nat, n: nat, p: nat)
    requires Prime(p) && 2 * n <= p + 1
    requires n > 0 ==> code + (n - 1) * (n - 1) < WORD
    ensures |PathSlots(code, n, p)| == n
  {
    if n == 0 {
      assert PathSlots(code, 0, p) == {};
    } else {
      var m := n - 1;
      if m > 0 {
        SquareMonotone(m - 1, m);
      }
      PathSlotsSize(code, m, p);
      forall o | 0 <= o < m ensures Probe(code, o, p) != Probe(code, m, p) {
        OffsetsDistinct(code, o, m, p);
      }
      assert PathSlots(code, n, p) == PathSlots(code, m, p) + {Probe(code, m, p)};
    }
  }

  lemma {:induction false} SubsetSize(a: set<nat>, b: set<nat>)
    requires a <= b
    ensures |a| <= |b|
  {
    if a == {} {
    } else {
      var x :| x in a;
      SubsetSize(a - {x}, b - {x});
    }
  }

  // Square of the last offset of the half path.
  function LastSquare(p: nat): nat
    requires p > 0
  {
    (p - 1) / 2 * ((p - 1) / 2)
  }

  // Whatever slots are busy, fewer than (p+1)/2 of them leave a free one among
  // the first (p+1)/2 probes.
  lemma Coverage(busy: set<nat>, code: nat, p: nat) returns (off: nat)
    requires Prime(p) && p > 2 && 2 * |busy| < p + 1
    requires code + LastSquare(p) < WORD
    ensures off <= (p - 1) / 2
    ensures Probe(code, off, p) !in busy
  {
    OddPrime(p);
    var h := (p - 1) / 2;
    PathSlotsSize(code, h + 1, p);
    if PathSlots(code, h + 1, p) <= busy {
      SubsetSize(PathSlots(code, h + 1, p), busy);
      assert false;
    }
    var s :| s in PathSlots(code, h + 1, p) && s !in busy;
    off :| 0 <= off < h + 1 && Probe(code, off, p) == s;
  }

  lemma OddPrime(p: nat)
    requires Prime(p) && p > 2
    ensures p % 2 == 1 && p == (p - 1) / 2 + (p - 1) / 2 + 1
  {
    assert !Divides(2, p);
  }

  // Some probe made before the sum wraps finds a slot outside `busy`.
  ghost predicate StopsBeforeWrap(busy: set<nat>, code: nat, p: nat)
    requires p > 0
  {
    exists off: nat :: code + off * off < WORD && Probe(code, off, p) !in busy
  }

  lemma SquareModulo(x: int, p: int, q: int, r: int) returns (k: int)
    requires x == p * q + r
    ensures x * x == r * r + p * k
  {
    k := p * q * q + 2 * q * r;
    SquareOfSum(p, q, r);
  }

  lemma SquareOfOpposite(x: int)
    ensures -x * -x == x * x
  {
  }

  // The residue of off*off is that of a square below half of the size.
  lemma FoldOffset(off: nat, p: nat) returns (o: nat, k: int)
    requires p > 0 && p % 2 == 1
    ensures o <= off && o <= (p - 1) / 2
    ensures off * off == o * o + p * k
  {
    var q, r := Division(off, p);
    if 2 * r < p {
      o := r;
      k := SquareModulo(off, p, q, r);
    } else {
      var t: int := r - p;
      o := p - r;
      k := SquareModulo(off, p, q + 1, t);
      SquareOfOpposite(t);
    }
  }

  lemma Division(x: nat, p: nat) returns (q: int, r: nat)
    requires p > 0
    ensures r < p && r <= x && x == p * q + r && x == p * (q + 1) - (p - r)
  {
    q, r := x / p, x % p;
    assert p * q >= 0;
    assert p * (q + 1) == p * q + p;
  }

  // An unwrapped path repeats its first half for ever.
  lemma PathRepeats(code: nat, off: nat, p: nat)
    requires p > 0 && p % 2 == 1 && code + off * off < WORD
    ensures Probe(code, off, p) in PathSlots(code, (p - 1) / 2 + 1, p)
  {
    var o, k := FoldOffset(off, p);
    SquareMonotone(o, off);
    SameResidue(code + o * o, code + off * off, k, p);
    Unwrapped(code, off, p);
    Unwrapped(code, o, p);
  }

  function Below(p: nat): (all: set<nat>)
    ensures |all| == p
    ensures forall x :: x in all <==> 0 <= x < p
  {
    if p == 0 then {} else Below(p - 1) + {p - 1}
  }

  lemma {:induction false} Extend(a: set<nat>, n: nat, p: nat) returns (b: set<nat>)
    requires a <= Below(p) && |a| <= n <= p
    ensures a <= b <= Below(p) && |b| == n
    decreases n - |a|
  {
    b := a;
    if |a| == n {
    } else {
      assert Below(p) != a;
      var x :| x in Below(p) && x !in a;
      b := Extend(a + {x}, n, p);
    }
  }

  // A set of n busy slots in which the whole unwrapped path of `code` is caught.
  lemma Trap(code: nat, p: nat, n: nat) returns (busy: set<nat>)
    requires Prime(p) && p > 2 && p + 1 <= 2 * n <= 2 * p && code + LastSquare(p) < WORD
    ensures busy <= Below(p) && |busy| == n && !StopsBeforeWrap(busy, code, p)
    ensures forall s :: s in busy ==> s < p
  {
    OddPrime(p);
    var h := (p - 1) / 2;
    PathSlotsSize(code, h + 1, p);
    busy := Extend(PathSlots(code, h + 1, p), n, p);
    forall off: nat | code + off * off < WORD ensures Probe(code, off, p) in busy {
      PathRepeats(code, off, p);
    }
  }

  // The bound is exact.  With n busy slots every search stops before wrapping
  // if and only if n < (p+1)/2: from (p+1)/2 on, some set of n busy slots
  // swallows a whole path.
  lemma ProbeBoundExact(p: nat, n: nat)
    requires Prime(p) && p > 2 && n <= p && LastSquare(p) < WORD
    ensures 2 * n < p + 1 <==>
            forall busy: set<nat>, code: nat ::
              busy <= Below(p) && |busy| == n && code + LastSquare(p) < WORD
              ==> StopsBeforeWrap(busy, code, p)
  {
    if 2 * n < p + 1 {
      forall busy: set<nat>, code: nat | |busy| == n && code + LastSquare(p) < WORD
        ensures StopsBeforeWrap(busy, code, p)
      {
        var off := Coverage(busy, code, p);
        SquareMonotone(off, (p - 1) / 2);
      }
    } else {
      var busy := Trap(0, p, n);
      assert !StopsBeforeWrap(busy, 0, p);
    }
  }

  // ---- Trial division ----

  // None of 3, 5, ..., 2h - 1 divides n.
  ghost predicate Tried(n: nat, h: nat) {
    forall k :: 1 <= k < h ==> !Divides(2 * k + 1, n)
  }

  lemma Next(n: nat, h: nat)
    requires Tried(n, h) && h > 0 && n % (2 * h + 1) != 0
    ensures Tried(n, h + 1)
  {
  }

  lemma NextFour(n: nat, h: nat)
    requires Tried(n, h) && h > 0
    requires n % (2 * h + 1) != 0 && n % (2 * h + 3) != 0 && n % (2 * h + 5) != 0 && n % (2 * h + 7) != 0
    ensures Tried(n, h + 4)
  {
    Next(n, h);
    Next(n, h + 1);
    Next(n, h + 2);
    Next(n, h + 3);
  }

  lemma AtLeastSquare(d: nat, e: nat, k: int)
    requires d <= e
    ensures d <= k ==> d * d <= e * k
    ensures k <= 1 ==> e * k <= e
  {
    if d <= k {
      assert (e - d) * k >= 0 && d * (k - d) >= 0;
    }
    if k <= 1 {
      assert e * (1 - k) >= 0;
    }
  }

  // A number that an even number divides is even.
  lemma EvenDivisor(n: nat, e: nat)
    requires n % 2 == 1 && e > 0 && e % 2 == 0
    ensures !Divides(e, n)
  {
    if Divides(e, n) {
      var k := Cofactor(e, n);
      EvenProduct(e, k);
      assert false;
    }
  }

  lemma EvenProduct(e: nat, k: int)
    requires e % 2 == 0
    ensures e * k % 2 == 0
  {
    assert e * k == 2 * (e / 2 * k);
  }

  lemma OddDivisor(n: nat, h: nat, e: nat)
    requires n % 2 == 1 && 2 <= e < 2 * h + 1 && Tried(n, h)
    ensures !Divides(e, n)
  {
    if e % 2 == 0 {
      EvenDivisor(n, e);
    } else {
      assert e == 2 * (e / 2) + 1;
    }
  }

  // It is enough to try the odd divisors below some d with d*d > n.
  lemma PrimeByTrialDivision(n: nat, h: nat)
    requires n % 2 == 1 && 1 < h && 2 * h + 1 < n < (2 * h + 1) * (2 * h + 1)
    requires Tried(n, h)
    ensures Prime(n)
  {
    var d := 2 * h + 1;
    forall e | 2 <= e < n ensures !Divides(e, n) {
      if e < d {
        OddDivisor(n, h, e);
      } else if Divides(e, n) {
        var k := Cofactor(e, n);
        AtLeastSquare(d, e, k);
        Multiple(k, n, e);
        OddDivisor(n, h, k);
        assert false;
      }
    }
  }

  lemma Prime53()
    ensures Prime(53)
  {
    NextFour(53, 1);
    PrimeByTrialDivision(53, 5);
  }

  lemma Prime97()
    ensures Prime(97)
  {
    NextFour(97, 1);
    PrimeByTrialDivision(97, 5);
  }

  lemma Prime193()
    ensures Prime(193)
  {
    NextFour(193, 1);
    NextFour(193, 5);
    PrimeByTrialDivision(193, 9);
  }

  lemma Prime389()
    ensures Prime(389)
  {
    NextFour(389, 1);
    NextFour(389, 5);
    NextFour(389, 9);
    PrimeByTrialDivision(389, 13);
  }

  lemma Prime769()
    ensures Prime(769)
  {
    NextFour(769, 1);
    NextFour(769, 5);
    NextFour(769, 9);
    NextFour(769, 13);
    PrimeByTrialDivision(769, 17);
  }

  lemma Prime1543()
    ensures Prime(1543)
  {
    NextFour(1543, 1);
    NextFour(1543, 5);
    NextFour(1543, 9);
    NextFour(1543, 13);
    NextFour(1543, 17);
    PrimeByTrialDivision(1543, 21);
  }

  lemma Prime3079()
    ensures Prime(3079)
  {
    NextFour(3079, 1);
    NextFour(3079, 5);
    NextFour(3079, 9);
    NextFour(3079, 13);
    NextFour(3079, 17);
    NextFour(3079, 21);
    NextFour(3079, 25);
    PrimeByTrialDivision(3079, 29);
  }

  lemma Tried6151To33()
    ensures Tried(6151, 33)
  {
    NextFour(6151, 1);
    NextFour(6151, 5);
    NextFour(6151, 9);
    NextFour(6151, 13);
    NextFour(6151, 17);
    NextFour(6151, 21);
    NextFour(6151, 25);
    NextFour(6151, 29);
  }

  lemma Prime6151()
    ensures Prime(6151)
  {
    Tried6151To33();
    NextFour(6151, 33);
    NextFour(6151, 37);
    PrimeByTrialDivision(6151, 41);
  }

  lemma Tried12289To33()
    ensures Tried(12289, 33)
  {
    NextFour(12289, 1);
    NextFour(12289, 5);
    NextFour(12289, 9);
    NextFour(12289, 13);
    NextFour(12289, 17);
    NextFour(12289, 21);
    NextFour(12289, 25);
    NextFour(12289, 29);
  }

  lemma Prime12289()
    ensures Prime(12289)
  {
    Tried12289To33();
    NextFour(12289, 33);
    NextFour(12289, 37);
    NextFour(12289, 41);
    NextFour(12289, 45);
    NextFour(12289, 49);
    NextFour(12289, 53);
    PrimeByTrialDivision(12289, 57);
  }

  lemma Tried24593To33()
    ensures Tried(24593, 33)
  {
    NextFour(24593, 1);
    NextFour(24593, 5);
    NextFour(24593, 9);
    NextFour(24593, 13);
    NextFour(24593, 17);
    NextFour(24593, 21);
    NextFour(24593, 25);
    NextFour(24593, 29);
  }

  lemma Tried24593To65()
    ensures Tried(24593, 65)
  {
    Tried24593To33();
    NextFour(24593, 33);
    NextFour(24593, 37);
    NextFour(24593, 41);
    NextFour(24593, 45);
    NextFour(24593, 49);
    NextFour(24593, 53);
    NextFour(24593, 57);
    NextFour(24593, 61);
  }

  lemma Prime24593()
    ensures Prime(24593)
  {
    Tried24593To65();
    NextFour(24593, 65);
    NextFour(24593, 69);
    NextFour(24593, 73);
    NextFour(24593, 77);
    PrimeByTrialDivision(24593, 81);
  }

  lemma Tried49157To33()
    ensures Tried(49157, 33)
  {
    NextFour(49157, 1);
    NextFour(49157, 5);
    NextFour(49157, 9);
    NextFour(49157, 13);
    NextFour(49157, 17);
    NextFour(49157, 21);
    NextFour(49157, 25);
    NextFour(49157, 29);
  }

  lemma Tried49157To65()
    ensures Tried(49157, 65)
  {
    Tried49157To33();
    NextFour(49157, 33);
    NextFour(49157, 37);
    NextFour(49157, 41);
    NextFour(49157, 45);
    NextFour(49157, 49);
    NextFour(49157, 53);
    NextFour(49157, 57);
    NextFour(49157, 61);
  }

  lemma Tried49157To97()
    ensures Tried(49157, 97)
  {
    Tried49157To65();
    NextFour(49157, 65);
    NextFour(49157, 69);
    NextFour(49157, 73);
    NextFour(49157, 77);
    NextFour(49157, 81);
    NextFour(49157, 85);
    NextFour(49157, 89);
    NextFour(49157, 93);
  }

  lemma Prime49157()
    ensures Prime(49157)
  {
    Tried49157To97();
    NextFour(49157, 97);
    NextFour(49157, 101);
    NextFour(49157, 105);
    NextFour(49157, 109);
    PrimeByTrialDivision(49157, 113);
  }

  lemma Tried98317To33()
    ensures Tried(98317, 33)
  {
    NextFour(98317, 1);
    NextFour(98317, 5);
    NextFour(98317, 9);
    NextFour(98317, 13);
    NextFour(98317, 17);
    NextFour(98317, 21);
    NextFour(98317, 25);
    NextFour(98317, 29);
  }

  lemma Tried98317To65()
    ensures Tried(98317, 65)
  {
    Tried98317To33();
    NextFour(98317, 33);
    NextFour(98317, 37);
    NextFour(98317, 41);
    NextFour(98317, 45);
    NextFour(98317, 49);
    NextFour(98317, 53);
    NextFour(98317, 57);
    NextFour(98317, 61);
  }

  lemma Tried98317To97()
    ensures Tried(98317, 97)
  {
    Tried98317To65();
    NextFour(98317, 65);
    NextFour(98317, 69);
    NextFour(98317, 73);
    NextFour(98317, 77);
    NextFour(98317, 81);
    NextFour(98317, 85);
    NextFour(98317, 89);
    NextFour(98317, 93);
  }

  lemma Tried98317To129()
    ensures Tried(98317, 129)
  {
    Tried98317To97();
    NextFour(98317, 97);
    NextFour(98317, 101);
    NextFour(98317, 105);
    NextFour(98317, 109);
    NextFour(98317, 113);
    NextFour(98317, 117);
    NextFour(98317, 121);
    NextFour(98317, 125);
  }

  lemma Prime98317()
    ensures Prime(98317)
  {
    Tried98317To129();
    NextFour(98317, 129);
    NextFour(98317, 133);
    NextFour(98317, 137);
    NextFour(98317, 141);
    NextFour(98317, 145);
    NextFour(98317, 149);
    NextFour(98317, 153);
    PrimeByTrialDivision(98317, 157);
  }
}
