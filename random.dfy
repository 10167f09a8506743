/**
  The deterministic random source of the benchmark (src/random.rs).

  The seeded generator is modelled abstractly: a generator state is an
  arbitrary infinite stream of raw words together with the position of the
  next unread word. Every primitive draw reads exactly one word and moves the
  position forward by one; `GenRange(g, lo, hi)` promises only `lo <= v < hi`.
  Nothing below depends on which stream it is, so every property holds for
  every generator algorithm and every seed.
 */
module Random {

  /** Generator state: the stream of raw words `words(0), words(1), ...` and
      the index of the next word to be consumed. */
  datatype Rng = Rng(words: nat -> nat, pos: nat)

  /** `h` is a later state of the same generator as `g`. */
  ghost predicate Follows(g: Rng, h: Rng)
  {
    h.words == g.words && h.pos >= g.pos
  }

  /** `g` advanced by `n` draws. */
  function Skip(g: Rng, n: nat): Rng
  {
    g.(pos := g.pos + n)
  }

  /** `gen_range(lo..hi)`: one draw, uniform in the half-open range (panics
      in the source when the range is empty, hence the precondition). */
  function GenRange(g: Rng, lo: int, hi: int): (r: (int, Rng))
    requires lo < hi
    ensures lo <= r.0 < hi
    ensures r.1 == Skip(g, 1)
  {
    (lo + g.words(g.pos) % (hi - lo), Skip(g, 1))
  }

  /** `gen::<bool>()`: a coin flip. */
  function Coin(g: Rng): (r: (bool, Rng))
    ensures r.1 == Skip(g, 1)
  {
    (g.words(g.pos) % 2 == 1, Skip(g, 1))
  }

  /** `n` consecutive characters starting at `first`. */
  function CharRange(first: char, n: nat): (r: string)
    requires first as int + n <= 0xD800
    ensures |r| == n
    ensures forall i :: 0 <= i < n ==> r[i] as int == first as int + i
  {
    seq(n, i requires 0 <= i < n => (first as int + i) as char)
  }

  /** The 62 symbols of the `Alphanumeric` distribution: A-Z, a-z, 0-9. */
  const ALPHANUMERIC: string := CharRange('A', 26) + CharRange('a', 26) + CharRange('0', 10)

  /** The extended character set of `rand_text`: upper-case letters, digits,
      space, two non-ASCII letters, tab, newline and eight lower-case letters. */
  const CHARSET: string := "ABCDEFGHIJKLMNOPQRSTUVWXYZ0123456789 \U{ee}\U{e4}\t\nabcdefgh"

  predicate IsAsciiAlphanumeric(c: char)
  {
    ('A' <= c <= 'Z') || ('a' <= c <= 'z') || ('0' <= c <= '9')
  }

  predicate IsAlphanumeric(s: string)
  {
    forall i :: 0 <= i < |s| ==> IsAsciiAlphanumeric(s[i])
  }

  /** `n` is a product `a * b` with `alo <= a < ahi` and `blo <= b < bhi`. */
  ghost predicate IsProduct(n: int, alo: int, ahi: int, blo: int, bhi: int)
  {
    exists a, b :: alo <= a < ahi && blo <= b < bhi && n == a * b
  }

  /** The shape of every `rand_string` output. */
  ghost predicate IsRandString(s: string)
  {
    IsProduct(|s|, 3, 8, 1, 12) && IsAlphanumeric(s)
  }

  /** The shape of every `rand_text` output. */
  ghost predicate IsRandText(s: string)
  {
    IsProduct(|s|, 3, 25, 8, 25) && forall i :: 0 <= i < |s| ==> s[i] in CHARSET
  }

  lemma AlphanumericSymbols()
    ensures |ALPHANUMERIC| == 62
    ensures forall i :: 0 <= i < |ALPHANUMERIC| ==> IsAsciiAlphanumeric(ALPHANUMERIC[i])
  {
  }

  /** Bounds implied by the product shapes. */
  lemma {:induction false} RandStringLengthBounds(s: string)
    requires IsRandString(s)
    ensures 3 <= |s| <= 77
  {
    var a, b :| 3 <= a < 8 && 1 <= b < 12 && |s| == a * b;
    ProductBounds(a, b, 3, 7, 1, 11);
  }

  lemma {:induction false} RandTextLengthBounds(s: string)
    requires IsRandText(s)
    ensures 24 <= |s| <= 576
  {
    var a, b :| 3 <= a < 25 && 8 <= b < 25 && |s| == a * b;
    ProductBounds(a, b, 3, 24, 8, 24);
  }

  lemma ProductBounds(a: int, b: int, alo: nat, ahi: nat, blo: nat, bhi: nat)
    requires alo <= a <= ahi && blo <= b <= bhi
    ensures alo * blo <= a * b <= ahi * bhi
  {
    MulMonotone(blo, alo, a);
    MulMonotone(a, blo, b);
    MulMonotone(b, a, ahi);
    MulMonotone(ahi, b, bhi);
  }

  lemma MulMonotone(k: nat, x: nat, y: nat)
    requires x <= y
    ensures k * x <= k * y && x * k <= y * k
  {
  }

  /** One draw from the `Alphanumeric` distribution. */
  function GenAlphanumeric(g: Rng): (r: (char, Rng))
    ensures IsAsciiAlphanumeric(r.0)
    ensures r.1 == Skip(g, 1)
  {
    AlphanumericSymbols();
    var (i, g1) := GenRange(g, 0, |ALPHANUMERIC|);
    (ALPHANUMERIC[i], g1)
  }

  /** `rand_string_of_len(r, len)`: `len` alphanumeric draws, in order. */
  function RandStringOfLen(g: Rng, len: nat): (r: (string, Rng))
    ensures |r.0| == len
    ensures IsAlphanumeric(r.0)
    ensures r.1 == Skip(g, len)
    decreases len
  {
    if len == 0 then ("", g)
    else
      var (c, g1) := GenAlphanumeric(g);
      var (s, g2) := RandStringOfLen(g1, len - 1);
      ([c] + s, g2)
  }

  /** `rand_string(r)`: draws `a` in [3, 8), then `b` in [1, 12), then
      `a * b` alphanumeric characters. */
  function RandString(g: Rng): (r: (string, Rng))
    ensures IsRandString(r.0)
    ensures 3 <= |r.0| <= 77
    ensures |r.0| == GenRange(g, 3, 8).0 * GenRange(Skip(g, 1), 1, 12).0
    ensures r.1 == Skip(g, 2 + |r.0|)
  {
    var (a, g1) := GenRange(g, 3, 8);
    var (b, g2) := GenRange(g1, 1, 12);
    var (s, g3) := RandStringOfLen(g2, a * b);
    assert IsProduct(|s|, 3, 8, 1, 12) by { assert |s| == a * b; }
    RandStringLengthBounds(s);
    (s, g3)
  }

  /** One character of `rand_text`: an index drawn from [0, |CHARSET|), so the
      lookup is always in bounds. */
  function GenTextChar(g: Rng): (r: (char, Rng))
    ensures r.0 in CHARSET
    ensures r.1 == Skip(g, 1)
  {
    var (i, g1) := GenRange(g, 0, |CHARSET|);
    (CHARSET[i], g1)
  }

  /** `len` characters of `rand_text`, in order. */
  function TextChars(g: Rng, len: nat): (r: (string, Rng))
    ensures |r.0| == len
    ensures forall i :: 0 <= i < |r.0| ==> r.0[i] in CHARSET
    ensures r.1 == Skip(g, len)
    decreases len
  {
    if len == 0 then ("", g)
    else
      var (c, g1) := GenTextChar(g);
      var (s, g2) := TextChars(g1, len - 1);
      ([c] + s, g2)
  }

  /** `rand_text(r)`: draws `a` in [3, 25), then `b` in [8, 25), then `a * b`
      characters of CHARSET. */
  function RandText(g: Rng): (r: (string, Rng))
    ensures IsRandText(r.0)
    ensures 24 <= |r.0| <= 576
    ensures |r.0| == GenRange(g, 3, 25).0 * GenRange(Skip(g, 1), 8, 25).0
    ensures r.1 == Skip(g, 2 + |r.0|)
  {
    var (a, g1) := GenRange(g, 3, 25);
    var (b, g2) := GenRange(g1, 8, 25);
    var (s, g3) := TextChars(g2, a * b);
    assert IsProduct(|s|, 3, 25, 8, 25) by { assert |s| == a * b; }
    RandTextLengthBounds(s);
    (s, g3)
  }

  // ---------------------------------------------------------------------
  // Dependence on the generator state alone.
  //
  // Beyond "equal states give equal results" (true of every function), each
  // generator function depends only on the words it actually consumes: two
  // states at the same position whose streams agree on the consumed window
  // give the same value and the same successor position.
  // ---------------------------------------------------------------------

  /** `g1` and `g2` sit at the same position and agree on every word before `upto`. */
  ghost predicate SameDraws(g1: Rng, g2: Rng, upto: nat)
  {
    g1.pos == g2.pos && forall p :: g1.pos <= p < upto ==> g1.words(p) == g2.words(p)
  }

  /** The next word is the same for both states. */
  lemma SameNextWord(g1: Rng, g2: Rng, upto: nat)
    requires SameDraws(g1, g2, upto) && g1.pos < upto
    ensures g1.words(g1.pos) == g2.words(g2.pos)
  {
  }

  /** Agreement on a window gives agreement on any later part of it. */
  lemma SameDrawsFrom(g1: Rng, g2: Rng, upto: nat, p: nat)
    requires SameDraws(g1, g2, upto) && g1.pos <= p
    ensures SameDraws(g1.(pos := p), g2.(pos := p), upto)
  {
  }

  lemma {:induction false} RandStringOfLenLocal(g1: Rng, g2: Rng, len: nat)
    requires SameDraws(g1, g2, g1.pos + len)
    ensures RandStringOfLen(g2, len) == (RandStringOfLen(g1, len).0, Skip(g2, len))
    decreases len
  {
    if len > 0 {
      SameNextWord(g1, g2, g1.pos + len);
      SameDrawsFrom(g1, g2, g1.pos + len, g1.pos + 1);
      RandStringOfLenLocal(Skip(g1, 1), Skip(g2, 1), len - 1);
    }
  }

  lemma {:induction false} RandStringLocal(g1: Rng, g2: Rng)
    requires SameDraws(g1, g2, RandString(g1).1.pos)
    ensures RandString(g2) == (RandString(g1).0, g2.(pos := RandString(g1).1.pos))
  {
    var end := RandString(g1).1.pos;
    SameNextWord(g1, g2, end);
    SameDrawsFrom(g1, g2, end, g1.pos + 1);
    SameNextWord(Skip(g1, 1), Skip(g2, 1), end);
    assert GenRange(g2, 3, 8) == (GenRange(g1, 3, 8).0, Skip(g2, 1));
    assert GenRange(Skip(g2, 1), 1, 12) == (GenRange(Skip(g1, 1), 1, 12).0, Skip(g2, 2));
    var n := GenRange(g1, 3, 8).0 * GenRange(Skip(g1, 1), 1, 12).0;
    SameDrawsFrom(g1, g2, end, g1.pos + 2);
    RandStringOfLenLocal(Skip(g1, 2), Skip(g2, 2), n);
  }

  lemma {:induction false} TextCharsLocal(g1: Rng, g2: Rng, len: nat)
    requires SameDraws(g1, g2, g1.pos + len)
    ensures TextChars(g2, len) == (TextChars(g1, len).0, Skip(g2, len))
    decreases len
  {
    if len > 0 {
      SameNextWord(g1, g2, g1.pos + len);
      SameDrawsFrom(g1, g2, g1.pos + len, g1.pos + 1);
      TextCharsLocal(Skip(g1, 1), Skip(g2, 1), len - 1);
    }
  }

  lemma {:induction false} RandTextLocal(g1: Rng, g2: Rng)
    requires SameDraws(g1, g2, RandText(g1).1.pos)
    ensures RandText(g2) == (RandText(g1).0, g2.(pos := RandText(g1).1.pos))
  {
    var end := RandText(g1).1.pos;
    SameNextWord(g1, g2, end);
    SameDrawsFrom(g1, g2, end, g1.pos + 1);
    SameNextWord(Skip(g1, 1), Skip(g2, 1), end);
    assert GenRange(g2, 3, 25) == (GenRange(g1, 3, 25).0, Skip(g2, 1));
    assert GenRange(Skip(g2, 1), 8, 25) == (GenRange(Skip(g1, 1), 8, 25).0, Skip(g2, 2));
    var n := GenRange(g1, 3, 25).0 * GenRange(Skip(g1, 1), 8, 25).0;
    SameDrawsFrom(g1, g2, end, g1.pos + 2);
    TextCharsLocal(Skip(g1, 2), Skip(g2, 2), n);
  }
}
