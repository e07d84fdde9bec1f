// Keys for every slot: the hash of hash.c takes every word but 0, so each slot of
// each table is the first slot on the path of some key.
module HomeKeys {
  import opened Probing
  import opened TableSpec

  function Pow33(k: nat): (n: nat)
    ensures n > 0
  {
    if k == 0 then 1 else 33 * Pow33(k - 1)
  }

  // v in k digits to the base 33, counted from '0'.
  function Digits(v: nat, k: nat): (str: string)
    ensures |str| == k
  {
    if k == 0 then "" else Digits(v / 33, k - 1) + [(48 + v % 33) as char]
  }

  // The hash of k zeros before it is cut to a word.
  function Zeros(k: nat): nat {
    if k == 0 then 5381 else 33 * Zeros(k - 1) + 48
  }

  lemma Shifted(h: nat, d: nat)
    ensures (33 * (h % WORD) + d) % WORD == (33 * h + d) % WORD
  {
    SameResidue(33 * (h % WORD) + d, 33 * h + d, 33 * (h / WORD), WORD);
  }

  lemma SignedDigit(d: nat)
    requires 48 <= d < 81
    ensures SignedChar(d as char) == d
  {
  }

  lemma NextDigit(str: string, d: nat, h: nat)
    requires 48 <= d < 81 && Djb2(str) == h % WORD
    ensures Djb2(str + [d as char]) == (33 * h + d) % WORD
  {
    SignedDigit(d);
    Shifted(h, d);
    assert (str + [d as char])[..|str|] == str;
  }

  lemma Split33(v: nat, zeros: nat)
    ensures 33 * (zeros + v / 33) + (48 + v % 33) == 33 * zeros + 48 + v
  {
  }

  // Digit by digit the hash counts up from there.
  lemma {:induction false} DigitsHash(v: nat, k: nat)
    requires v < Pow33(k)
    ensures Djb2(Digits(v, k)) == (Zeros(k) + v) % WORD
    decreases k
  {
    if k == 0 {
    } else {
      var front, h, d := Digits(v / 33, k - 1), Zeros(k - 1) + v / 33, 48 + v % 33;
      Quotient33(v, Pow33(k - 1));
      DigitsHash(v / 33, k - 1);
      NextDigit(front, d, h);
      Split33(v, Zeros(k - 1));
    }
  }

  lemma Quotient33(v: nat, n: nat)
    requires v < 33 * n
    ensures v / 33 < n
  {
  }

  // The key of k digits with a given hash.
  function KeyIn(word: nat, k: nat): (key: string)
    requires 0 < word < WORD
    ensures |key| == k
  {
    Digits((word + WORD - Zeros(k) % WORD) % WORD, k)
  }

  lemma HashOfKeyIn(word: nat, k: nat)
    requires 0 < word < WORD && Pow33(k) >= WORD
    ensures HashOf(KeyIn(word, k)) == word
  {
    var v := (word + WORD - Zeros(k) % WORD) % WORD;
    DigitsHash(v, k);
    WordBack(word, Zeros(k));
    HashIs(Digits(v, k), word);
  }

  lemma HashIs(key: string, word: nat)
    requires 0 < word < WORD && Djb2(key) == word
    ensures HashOf(key) == word
  {
  }

  // Seven digits are enough for every word.
  function KeyOf(word: nat): (key: string)
    requires 0 < word < WORD
    ensures |key| == 7
  {
    KeyIn(word, 7)
  }

  lemma EveryWordIsAHash(word: nat)
    requires 0 < word < WORD
    ensures HashOf(KeyOf(word)) == word
  {
    SevenDigits();
    HashOfKeyIn(word, 7);
  }

  // A key whose sum comes to 0 hashes to 1.
  lemma ZeroBecomesOne() returns (key: string)
    ensures Djb2(key) == 0 && HashOf(key) == 1
  {
    var v := (WORD - Zeros(7) % WORD) % WORD;
    SevenDigits();
    key := Digits(v, 7);
    DigitsHash(v, 7);
    WordBack(0, Zeros(7));
  }

  // Two hashes worked out by hand; the second key is a byte over 127, which counts
  // as a negative number.
  lemma KnownHashes()
    ensures HashOf("a") == 5381 * 33 + 97 && HashOf("\U{00E9}") == 5381 * 33 - 23
  {
    assert "a"[..0] == "" && "\U{00E9}"[..0] == "";
    assert '\U{00E9}' as int == 233;
  }

  lemma SevenDigits()
    ensures Pow33(7) > WORD
  {
    assert Pow33(3) == 35937;
    assert Pow33(7) == 35937 * 35937 * 33;
  }

  lemma WordBack(word: nat, zeros: nat)
    requires word < WORD
    ensures (zeros + (word + WORD - zeros % WORD) % WORD) % WORD == word
  {
    var r := zeros % WORD;
    SameResidue(r + (word + WORD - r) % WORD, zeros + (word + WORD - r) % WORD, zeros / WORD, WORD);
  }

  // A hash word, and a key, that is tried at slot s first.
  function HomeWord(s: nat, size: nat): (word: nat)
    requires s < size < WORD
    ensures 0 < word < WORD
  {
    if s == 0 then size else s
  }

  function HomeKey(s: nat, size: nat): (key: string)
    requires s < size < WORD
    ensures |key| == 7
  {
    KeyOf(HomeWord(s, size))
  }

  lemma HomeOfKey(s: nat, size: nat)
    requires s < size < WORD
    ensures HashOf(HomeKey(s, size)) == HomeWord(s, size)
    ensures Probe(HomeWord(s, size), 0, size) == s
  {
    EveryWordIsAHash(HomeWord(s, size));
    FirstProbe(HomeWord(s, size), size);
    QuotientUnique(HomeWord(s, size), if s == 0 then 1 else 0, s, size);
  }
}
