// Which slots a probe path visits in all.  The 32-bit sum wraps, and past the
// wrap the path goes on: up to 2^29 slots it visits every one of them, beyond that
// at least 2^29, and in a table larger than the set of squares modulo 2^32 it
// always misses one.
module FullPath {
  import opened Probing

  // ---- Square roots modulo a power of two ----

  function Pow2(k: nat): (p: nat)
    ensures p > 0
  {
    if k == 0 then 1 else 2 * Pow2(k - 1)
  }

  lemma Word()
    ensures Pow2(32) == WORD
  {
    assert Pow2(8) == 256;
    assert Pow2(16) == 65536;
    assert Pow2(24) == 65536 * 256;
  }

  lemma Pow2Steps(k: nat)
    requires k >= 4
    ensures Pow2(k) == 16 * Pow2(k - 4) && Pow2(k - 1) == 8 * Pow2(k - 4)
  {
    assert Pow2(k - 1) == 2 * Pow2(k - 2) && Pow2(k - 2) == 2 * Pow2(k - 3) && Pow2(k - 3) == 2 * Pow2(k - 4);
  }

  // Adding half the modulus to an odd root changes the next bit of its square.
  lemma LiftedRoot(a: int, x: int, j: int, q: int, h: int) returns (j': int)
    requires x * x == a + 8 * q * j && j + x == 2 * h
    ensures (x + 4 * q) * (x + 4 * q) == a + 16 * q * j'
  {
    j' := h + q;
    assert (x + 4 * q) * (x + 4 * q) == x * x + 8 * q * x + 16 * q * q;
    assert 8 * q * (j + x) == 16 * q * h by {
      assert 8 * q * (2 * h) == 16 * q * h;
    }
  }

  // Every number that leaves 1 modulo 8 is a square modulo every power of two.
  lemma {:induction false} OddRoot(a: nat, k: nat) returns (x: nat, j: int)
    requires a % 8 == 1 && k >= 3
    ensures x % 2 == 1 && x * x == a + Pow2(k) * j
    decreases k
  {
    if k == 3 {
      x, j := 1, -(a / 8);
      assert Pow2(3) == 8;
    } else {
      var y, i := OddRoot(a, k - 1);
      Pow2Steps(k);
      x, j := NextRoot(a, y, i, Pow2(k - 4));
    }
  }

  lemma NextRoot(a: int, y: nat, i: int, q: nat) returns (x: nat, j: int)
    requires y % 2 == 1 && y * y == a + 8 * q * i
    ensures x % 2 == 1 && x * x == a + 16 * q * j
  {
    if i % 2 == 0 {
      x, j := y, i / 2;
      assert 8 * q * (2 * j) == 16 * q * j;
    } else {
      x := y + 4 * q;
      j := LiftedRoot(a, y, i, q, (i + y) / 2);
    }
  }

  lemma AddMultiple(x: nat, y: nat, j: int)
    requires y == x + WORD * j
    ensures y % WORD == x % WORD
  {
    SameResidue(x, y, j, WORD);
  }

  // So the path visits the slot of every sum that is `code` plus such a number.
  lemma ProbeOfOddSquare(code: nat, a: nat, size: nat) returns (off: nat)
    requires size > 0 && a % 8 == 1
    ensures Probe(code, off, size) == (code + a) % WORD % size
  {
    var j: int;
    off, j := OddRoot(a, 32);
    Word();
    AddMultiple(code + a, code + off * off, j);
  }

  // ---- Tables of at most 2^29 slots ----

  lemma OddSquare(p: nat) returns (q: nat)
    requires p % 2 == 1
    ensures p * p == 8 * q + 1
  {
    var t := p / 4;
    if p == 4 * t + 1 {
      q := 2 * t * t + t;
    } else {
      assert p == 4 * t + 3;
      q := 2 * t * t + 3 * t + 1;
    }
  }

  // p is its own inverse modulo 8.
  lemma OwnInverse(d: int, p: nat) returns (m: nat, j: int)
    requires p % 2 == 1
    ensures m < 8 && p * m == d + 8 * j
  {
    var q := OddSquare(p);
    m := d * p % 8;
    var k := d * p / 8;
    j := d * q - p * k;
    assert m == d * p - 8 * k;
    assert p * m == p * (d * p) - 8 * (p * k) by {
      assert p * m == p * (d * p - 8 * k);
    }
    assert p * (d * p) == d * (8 * q + 1);
  }

  // A number below 8p that leaves `slot` modulo p and `r` modulo 8.
  lemma Crt(slot: nat, r: nat, p: nat) returns (v: nat)
    requires p % 2 == 1 && slot < p && r < 8
    ensures v < 8 * p && v % p == slot && v % 8 == r
  {
    var m, j := OwnInverse(r - slot, p);
    UpToSeven(p, m);
    v := slot + p * m;
    QuotientUnique(v, m, slot, p);
    QuotientUnique(v, j, r, 8);
  }

  lemma UpToSeven(p: nat, m: nat)
    requires m < 8
    ensures 0 <= p * m <= 7 * p
  {
  }

  predicate Covered(size: nat) {
    size % 2 == 1 && 8 * size <= WORD
  }

  ghost predicate Visits(code: nat, p: nat, slot: nat)
    requires p > 0
  {
    exists off: nat :: Probe(code, off, p) == slot
  }

  // In a table of at most 2^29 slots, an odd number, the path of every hash
  // word visits every slot.
  lemma EverySlotProbed(code: nat, slot: nat, p: nat) returns (off: nat)
    requires Covered(p) && slot < p && code < WORD
    ensures Probe(code, off, p) == slot
  {
    var v := Crt(slot, (code + 1) % 8, p);
    Complement(v, code);
    off := ProbeOfOddSquare(code, v + WORD - code, p);
  }

  lemma Complement(v: nat, code: nat)
    requires v < WORD && code < WORD && v % 8 == (code + 1) % 8
    ensures (v + WORD - code) % 8 == 1
    ensures (code + (v + WORD - code)) % WORD == v
  {
  }

  // ---- How many slots every path visits ----

  const EIGHTH: nat := 0x2000_0000

  // At least that many: all of them up to 2^29 slots, and 2^29 from there on.
  function Reach(size: nat): nat {
    if size < EIGHTH then size else EIGHTH
  }

  // The slots of an arithmetic progression of sums.
  ghost function Slots(code: nat, base: nat, step: nat, n: nat, p: nat): set<nat>
    requires p > 0
  {
    set j | 0 <= j < n :: (code + (step * j + base)) % WORD % p
  }

  // A multiple of an odd p that 8 divides is a multiple of 8p.
  lemma EightDivides(p: nat, k: int, c: int) returns (m: int)
    requires p % 2 == 1 && p * k == 8 * c
    ensures k == 8 * m
  {
    var q := OddSquare(p);
    m := p * c - k * q;
    assert p * (p * k) == p * p * k == k * (8 * q + 1);
    assert p * (8 * c) == 8 * (p * c);
  }

  lemma SmallMultiple(p: nat, k: int, m: int)
    requires -8 * p < p * k < 8 * p && k == 8 * m
    ensures k == 0
  {
    assert p * k == 8 * (p * m);
    if m != 0 {
      Larger(p, m);
      assert false;
    }
  }

  lemma Larger(p: nat, m: int)
    requires m != 0
    ensures p * m >= p || p * m + p <= 0
  {
    if m >= 1 {
      assert p * (m - 1) >= 0;
    } else {
      assert p * (-m - 1) >= 0;
    }
  }

  lemma SameSlot(x: nat, y: nat, p: nat) returns (k: int)
    requires p > 0 && x % p == y % p
    ensures y - x == p * k
  {
    k := y / p - x / p;
    assert p * k == p * (y / p) - p * (x / p);
  }

  // The sums with odd squares fall into different slots.
  lemma OddSquaresApart(code: nat, i: nat, j: nat, p: nat)
    requires p % 2 == 1 && p >= EIGHTH && i < j < EIGHTH
    ensures (code + (8 * i + 1)) % WORD % p != (code + (8 * j + 1)) % WORD % p
  {
    var x, y := (code + (8 * i + 1)) % WORD, (code + (8 * j + 1)) % WORD;
    if x % p == y % p {
      var a, b := (code + (8 * i + 1)) / WORD, (code + (8 * j + 1)) / WORD;
      var k := SameSlot(x, y, p);
      var m := EightDivides(p, k, j - i - EIGHTH * (b - a));
      SmallMultiple(p, k, m);
      assert false;
    }
  }

  lemma {:induction false} SlotsSize(code: nat, n: nat, p: nat)
    requires p % 2 == 1 && p >= EIGHTH && n <= EIGHTH
    ensures |Slots(code, 1, 8, n, p)| == n
    decreases n
  {
    if n == 0 {
      assert Slots(code, 1, 8, 0, p) == {};
    } else {
      var m := n - 1;
      SlotsSize(code, m, p);
      var last := (code + (8 * m + 1)) % WORD % p;
      forall i | 0 <= i < m ensures (code + (8 * i + 1)) % WORD % p != last {
        OddSquaresApart(code, i, m, p);
      }
      SlotsNext(code, 1, 8, m, p);
      assert last !in Slots(code, 1, 8, m, p);
    }
  }

  lemma SlotsNext(code: nat, base: nat, step: nat, m: nat, p: nat)
    requires p > 0
    ensures Slots(code, base, step, m + 1, p) ==
            Slots(code, base, step, m, p) + {(code + (step * m + base)) % WORD % p}
  {
  }

  // So no set of fewer slots holds a whole path.
  lemma PathReaches(busy: set<nat>, code: nat, p: nat) returns (off: nat)
    requires p % 2 == 1 && |busy| < Reach(p) && code < WORD
    ensures Probe(code, off, p) !in busy
  {
    if p < EIGHTH {
      var slot := Outside(Below(p), busy);
      off := EverySlotProbed(code, slot, p);
    } else {
      SlotsSize(code, EIGHTH, p);
      var slot := Outside(Slots(code, 1, 8, EIGHTH, p), busy);
      off := ProbeOfOddSlot(code, slot, p);
    }
  }

  lemma Outside(all: set<nat>, busy: set<nat>) returns (slot: nat)
    requires |busy| < |all|
    ensures slot in all && slot !in busy
  {
    if all <= busy {
      SubsetSize(all, busy);
      assert false;
    }
    slot :| slot in all && slot !in busy;
  }

  lemma ProbeOfOddSlot(code: nat, slot: nat, p: nat) returns (off: nat)
    requires p > 0 && slot in Slots(code, 1, 8, EIGHTH, p)
    ensures Probe(code, off, p) == slot
  {
    var j := SlotIndex(code, 1, 8, EIGHTH, p, slot);
    var a := 8 * j + 1;
    off := ProbeOfOddSquare(code, a, p);
  }

  lemma SlotIndex(code: nat, base: nat, step: nat, n: nat, p: nat, slot: nat) returns (j: nat)
    requires p > 0 && slot in Slots(code, base, step, n, p)
    ensures j < n && slot == (code + (step * j + base)) % WORD % p
  {
    j :| 0 <= j < n && slot == (code + (step * j + base)) % WORD % p;
  }

  // ---- Tables of more than 12 * 2^26 slots ----

  const SQUARES: nat := 0x2000_0000 + 0x800_0000 + 0x400_0000 + 0x400_0000

  lemma {:induction false} SlotsBound(code: nat, base: nat, step: nat, n: nat, p: nat)
    requires p > 0
    ensures |Slots(code, base, step, n, p)| <= n
    decreases n
  {
    if n == 0 {
      assert Slots(code, base, step, 0, p) == {};
    } else {
      var m := n - 1;
      SlotsBound(code, base, step, m, p);
      SlotsNext(code, base, step, m, p);
    }
  }

  lemma FourTimes(x: nat, c: nat)
    requires x == 2 * c
    ensures x * x == 4 * (c * c)
  {
  }

  // A square is odd, four times an odd square, or a square of a multiple of 4.
  lemma SquareShape(x: nat) returns (base: nat, step: nat, q: nat)
    ensures x * x == step * q + base
    ensures (base, step) in {(1, 8), (4, 32), (16, 64), (0, 64)}
  {
    if x % 2 == 1 {
      q := OddSquare(x);
      base, step := 1, 8;
    } else {
      var c := x / 2;
      FourTimes(x, c);
      if c % 2 == 1 {
        q := OddSquare(c);
        base, step := 4, 32;
      } else {
        base, step, q := FourTimesEven(c);
      }
    }
  }

  lemma FourTimesEven(c: nat) returns (base: nat, step: nat, q: nat)
    requires c % 2 == 0
    ensures 4 * (c * c) == step * q + base && step == 64 && (base == 16 || base == 0)
  {
    var d := c / 2;
    FourTimes(c, d);
    step := 64;
    if d % 2 == 1 {
      var r := OddSquare(d);
      base, q := 16, 2 * r;
    } else {
      FourTimes(d, d / 2);
      base, q := 0, d / 2 * (d / 2);
    }
  }

  // Reducing the sum modulo 2^32 keeps the progression.
  lemma ReducedSum(code: nat, base: nat, step: nat, q: nat, n: nat, p: nat)
    requires p > 0 && n > 0 && step * n == WORD
    ensures (code + (step * q + base)) % WORD % p in Slots(code, base, step, n, p)
  {
    var j, k := q % n, q / n;
    assert step * q == step * j + WORD * k by {
      assert q == j + n * k;
      assert step * (n * k) == step * n * k;
    }
    AddMultiple(code + (step * j + base), code + (step * q + base), k);
  }

  ghost function AllSlots(code: nat, p: nat): set<nat>
    requires p > 0
  {
    Slots(code, 1, 8, 0x2000_0000, p) + Slots(code, 4, 32, 0x800_0000, p) +
    Slots(code, 16, 64, 0x400_0000, p) + Slots(code, 0, 64, 0x400_0000, p)
  }

  lemma ProbesInAllSlots(code: nat, off: nat, p: nat)
    requires p > 0
    ensures Probe(code, off, p) in AllSlots(code, p)
  {
    var base, step, q := SquareShape(off);
    ReducedSum(code, base, step, q, WORD / step, p);
  }

  lemma UnionBound(a: set<nat>, b: set<nat>)
    ensures |a + b| <= |a| + |b|
  {
    assert a + b == a + (b - a);
    assert |b - a| <= |b| by {
      SubsetSize(b - a, b);
    }
  }

  lemma AllSlotsBound(code: nat, p: nat)
    requires p > 0
    ensures |AllSlots(code, p)| <= SQUARES
  {
    var a, b := Slots(code, 1, 8, 0x2000_0000, p), Slots(code, 4, 32, 0x800_0000, p);
    var c, d := Slots(code, 16, 64, 0x400_0000, p), Slots(code, 0, 64, 0x400_0000, p);
    SlotsBound(code, 1, 8, 0x2000_0000, p);
    SlotsBound(code, 4, 32, 0x800_0000, p);
    SlotsBound(code, 16, 64, 0x400_0000, p);
    SlotsBound(code, 0, 64, 0x400_0000, p);
    UnionBound(a, b);
    UnionBound(a + b, c);
    UnionBound(a + b + c, d);
  }

  // The slots a path visits.
  ghost function Path(code: nat, p: nat): set<nat>
    requires p > 0
  {
    set slot | 0 <= slot < p && Visits(code, p, slot)
  }

  lemma PathSize(code: nat, p: nat)
    requires p % 2 == 1 && code < WORD
    ensures Reach(p) <= |Path(code, p)| <= SQUARES && Path(code, p) <= Below(p)
  {
    if |Path(code, p)| < Reach(p) {
      var off := PathReaches(Path(code, p), code, p);
      assert Visits(code, p, Probe(code, off, p));
      assert false;
    }
    forall slot | slot in Path(code, p) ensures slot in AllSlots(code, p) {
      var off: nat :| Probe(code, off, p) == slot;
      ProbesInAllSlots(code, off, p);
    }
    AllSlotsBound(code, p);
    SubsetSize(Path(code, p), AllSlots(code, p));
  }

  // A larger table has a slot that the path of `code` never visits.
  lemma SlotNeverProbed(code: nat, p: nat) returns (slot: nat)
    requires p > SQUARES
    ensures slot < p && !Visits(code, p, slot)
  {
    AllSlotsBound(code, p);
    slot := Outside(Below(p), AllSlots(code, p));
    forall off: nat ensures Probe(code, off, p) != slot {
      ProbesInAllSlots(code, off, p);
    }
  }
}
