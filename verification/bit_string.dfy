/** Bit strings, most significant bit first, and their relation to numbers and 32-bit words.
    This is the vocabulary in which the ancillary data stream is specified. */
module BitString {
  type Word = x: int | 0 <= x < 0x1_0000_0000
  type Ten = x: int | 0 <= x < 1024
  type Byte = x: int | 0 <= x < 256

  function Pow2(n: nat): (r: nat)
    ensures r >= 1
  {
    if n == 0 then 1 else 2 * Pow2(n - 1)
  }

  // ----- Slices -----

  lemma {:induction false} Join<T>(s: seq<T>, i: nat, j: nat, k: nat)
    requires i <= j <= k <= |s|
    ensures s[i..k] == s[i..j] + s[j..k]
  {
  }

  lemma {:induction false} SliceLeft<T>(a: seq<T>, b: seq<T>, i: nat, j: nat)
    requires i <= j <= |a|
    ensures (a + b)[i..j] == a[i..j]
  {
  }

  lemma {:induction false} SliceRight<T>(a: seq<T>, b: seq<T>, i: nat, j: nat)
    requires |a| <= i <= j <= |a| + |b|
    ensures (a + b)[i..j] == b[i - |a|..j - |a|]
  {
  }

  // ----- Numbers and bits -----

  /** The n low bits of v, most significant first. */
  function Bits(v: nat, n: nat): (b: seq<bool>)
    ensures |b| == n
  {
    if n == 0 then [] else Bits(v / 2, n - 1) + [v % 2 == 1]
  }

  /** The number a bit string denotes. */
  function Num(b: seq<bool>): nat {
    if b == [] then 0 else 2 * Num(b[..|b| - 1]) + (if b[|b| - 1] then 1 else 0)
  }

  function Zeros(n: nat): seq<bool> {
    seq(n, _ => false)
  }

  lemma {:induction false} Pow2Values()
    ensures Pow2(0) == 1 && Pow2(1) == 2 && Pow2(2) == 4 && Pow2(4) == 16 && Pow2(6) == 64 && Pow2(7) == 128
    ensures Pow2(8) == 256 && Pow2(10) == 1024 && Pow2(11) == 2048 && Pow2(12) == 4096 && Pow2(14) == 0x4000
    ensures Pow2(16) == 0x1_0000 && Pow2(20) == 0x10_0000 && Pow2(22) == 0x40_0000 && Pow2(24) == 0x100_0000
    ensures Pow2(32) == 0x1_0000_0000
  {
    assert Pow2(4) == 16;
    assert Pow2(8) == 256;
    assert Pow2(12) == 4096;
    assert Pow2(16) == 0x1_0000;
    assert Pow2(20) == 0x10_0000;
    assert Pow2(24) == 0x100_0000;
    assert Pow2(28) == 0x1000_0000;
    assert Pow2(32) == 0x1_0000_0000;
  }

  lemma {:induction false} Pow2Add(m: nat, n: nat)
    ensures Pow2(m + n) == Pow2(m) * Pow2(n)
  {
    if n != 0 {
      Pow2Add(m, n - 1);
    }
  }

  /** Reading back the bits of a number that fits gives the number. */
  lemma {:induction false} NumOfBits(v: nat, n: nat)
    requires v < Pow2(n)
    ensures Num(Bits(v, n)) == v
  {
    if n != 0 {
      NumOfBits(v / 2, n - 1);
      var b := Bits(v, n);
      assert b[..|b| - 1] == Bits(v / 2, n - 1);
    }
  }

  /** A bit string is determined by its number and its length. */
  lemma {:induction false} BitsOfNum(b: seq<bool>)
    ensures Num(b) < Pow2(|b|)
    ensures Bits(Num(b), |b|) == b
  {
    if b != [] {
      BitsOfNum(b[..|b| - 1]);
      assert b == b[..|b| - 1] + [b[|b| - 1]];
    }
  }

  /** Concatenation of bit strings is positional notation. */
  lemma {:induction false} BitsConcat(a: nat, m: nat, b: nat, k: nat)
    requires b < Pow2(k)
    ensures Bits(a * Pow2(k) + b, m + k) == Bits(a, m) + Bits(b, k)
  {
    if k != 0 {
      var v := a * Pow2(k) + b;
      var h := a * Pow2(k - 1);
      assert v == 2 * h + b;
      assert v / 2 == h + b / 2 && v % 2 == b % 2;
      BitsConcat(a, m, b / 2, k - 1);
      assert Bits(a, m) + (Bits(b / 2, k - 1) + [b % 2 == 1]) == Bits(a, m) + Bits(b / 2, k - 1) + [b % 2 == 1];
    } else {
      assert Bits(a, m) + [] == Bits(a, m);
    }
  }

  lemma {:induction false} NumConcat(a: seq<bool>, b: seq<bool>)
    ensures Num(a + b) == Num(a) * Pow2(|b|) + Num(b)
  {
    if b == [] {
      assert a + b == a;
    } else {
      var k := |b| - 1;
      NumConcat(a, b[..k]);
      NumSnoc(a + b);
      NumSnoc(b);
      assert (a + b)[..|a + b| - 1] == a + b[..k];
      Double(Num(a), Pow2(k), Num(b[..k]));
    }
  }

  lemma {:induction false} NumSnoc(b: seq<bool>)
    requires b != []
    ensures Num(b) == 2 * Num(b[..|b| - 1]) + (if b[|b| - 1] then 1 else 0)
  {
  }

  lemma {:induction false} Double(x: nat, p: nat, y: nat)
    ensures 2 * (x * p + y) == x * (2 * p) + 2 * y
  {
  }

  lemma {:induction false} MulStep(x: nat, n: nat, p: nat)
    requires x < n
    ensures x * p + p <= n * p
  {
    assert n * p == x * p + (n - x) * p;
    assert (n - x) * p >= p by {
      assert (n - x) * p == p + (n - x - 1) * p;
    }
  }

  /** A bit field of a number: the bits i..j of an n-bit number, as a quotient and a remainder. */
  lemma {:induction false} Field(v: nat, n: nat, i: nat, j: nat)
    requires i <= j <= n && v < Pow2(n)
    ensures Num(Bits(v, n)[i..j]) == v / Pow2(n - j) % Pow2(j - i)
  {
    hide Bits, Num, Pow2;
    var b := Bits(v, n);
    NumOfBits(v, n);
    Join(b, 0, j, n);
    Join(b, 0, i, j);
    SplitNum(b[0..j], b[j..n]);
    SplitNum(b[0..i], b[i..j]);
    assert b[0..n] == b;
  }

  lemma {:induction false} SplitNum(hi: seq<bool>, lo: seq<bool>)
    ensures Num(hi + lo) / Pow2(|lo|) == Num(hi) && Num(hi + lo) % Pow2(|lo|) == Num(lo)
  {
    hide Bits, Num, Pow2;
    NumConcat(hi, lo);
    BitsOfNum(lo);
    DivModUnique(Num(hi + lo), Pow2(|lo|), Num(hi), Num(lo));
  }

  lemma {:induction false} DivModUnique(v: nat, d: nat, q: nat, r: nat)
    requires d > 0 && r < d && v == q * d + r
    ensures v / d == q && v % d == r
  {
    var q', r' := v / d, v % d;
    assert v == q' * d + r';
    if q < q' {
      MulStep(q, q', d);
    } else if q' < q {
      MulStep(q', q, d);
    }
  }

  lemma {:induction false} DivOne(w: nat)
    ensures w / 1 == w
  {
  }

  /** The bits of a sequence of 32-bit words, in order. */
  function WordBits(ws: seq<Word>): (b: seq<bool>)
    ensures |b| == 32 * |ws|
  {
    if ws == [] then [] else WordBits(ws[..|ws| - 1]) + Bits(ws[|ws| - 1], 32)
  }

  /** The words of a bit string whose length is a multiple of 32. */
  function PackWords(b: seq<bool>): (ws: seq<Word>)
    requires |b| % 32 == 0
    ensures |ws| == |b| / 32
  {
    if b == [] then [] else
      var n := |b| - 32;
      PackWords(b[..n]) + [WordOf(b[n..])]
  }

  function WordOf(b: seq<bool>): Word
    requires |b| == 32
  {
    BitsOfNum(b);
    Pow2Values();
    Num(b)
  }

  lemma {:induction false} BitsOfWord(b: seq<bool>)
    requires |b| == 32
    ensures Bits(WordOf(b), 32) == b
  {
    hide Bits, Num, Pow2;
    BitsOfNum(b);
  }

  lemma {:induction false} WordOfBits(w: Word)
    ensures WordOf(Bits(w, 32)) == w
  {
    hide Bits, Num, Pow2;
    Pow2Values();
    NumOfBits(w, 32);
  }

  lemma {:induction false} WordBitsSnoc(ws: seq<Word>, w: Word)
    ensures WordBits(ws + [w]) == WordBits(ws) + Bits(w, 32)
  {
    hide Bits;
    assert (ws + [w])[..|ws|] == ws;
  }

  lemma {:induction false} PackSnoc(b: seq<bool>, c: seq<bool>)
    requires |b| % 32 == 0 && |c| == 32
    ensures |b + c| % 32 == 0 && PackWords(b + c) == PackWords(b) + [WordOf(c)]
  {
    hide WordOf;
    assert (b + c)[..|b|] == b && (b + c)[|b|..] == c;
  }

  lemma {:induction false} WordBitsOfPack(b: seq<bool>)
    requires |b| % 32 == 0
    ensures WordBits(PackWords(b)) == b
  {
    if b != [] {
      hide Bits, WordOf, WordBits, PackWords;
      var n := |b| - 32;
      WordBitsOfPack(b[..n]);
      PackSnoc(b[..n], b[n..]);
      assert b[..n] + b[n..] == b;
      WordBitsSnoc(PackWords(b[..n]), WordOf(b[n..]));
      BitsOfWord(b[n..]);
    }
  }

  lemma {:induction false} PackOfWordBits(ws: seq<Word>)
    ensures PackWords(WordBits(ws)) == ws
  {
    if ws != [] {
      PackOfWordBits(ws[..|ws| - 1]);
      PackOneMore(ws[..|ws| - 1], ws[|ws| - 1]);
      assert ws == ws[..|ws| - 1] + [ws[|ws| - 1]];
    }
  }

  lemma {:induction false} PackOneMore(ws: seq<Word>, w: Word)
    requires PackWords(WordBits(ws)) == ws
    ensures PackWords(WordBits(ws + [w])) == ws + [w]
  {
    hide Bits, WordOf, WordBits, PackWords;
    WordBitsSnoc(ws, w);
    WholeWords(|ws|);
    PackSnoc(WordBits(ws), Bits(w, 32));
    WordOfBits(w);
  }

  lemma {:induction false} WholeWords(size: nat)
    ensures 32 * size % 32 == 0 && 32 * size / 32 == size
  {
  }

  lemma {:induction false} WordBitsConcat(a: seq<Word>, b: seq<Word>)
    ensures WordBits(a + b) == WordBits(a) + WordBits(b)
  {
    if b == [] {
      assert a + b == a;
    } else {
      hide Bits, WordBits;
      var n := |b| - 1;
      assert b == b[..n] + [b[n]];
      assert a + b == a + b[..n] + [b[n]];
      WordBitsConcat(a, b[..n]);
      WordBitsSnoc(b[..n], b[n]);
      WordBitsSnoc(a + b[..n], b[n]);
    }
  }

  lemma {:induction false} WordBitsOne(w: Word)
    ensures WordBits([w]) == Bits(w, 32)
  {
    assert [w][..0] == [];
    assert WordBits([]) + Bits(w, 32) == Bits(w, 32);
  }

  /** The bits of a run of words are a slice of the bits of all the words. */
  lemma {:induction false} WordBitsSlice(ws: seq<Word>, i: nat, j: nat)
    requires i <= j <= |ws|
    ensures WordBits(ws[i..j]) == WordBits(ws)[32 * i..32 * j]
  {
    hide WordBits;
    var before, run, after := WordBits(ws[..i]), WordBits(ws[i..j]), WordBits(ws[j..]);
    assert ws == ws[..i] + (ws[i..j] + ws[j..]);
    WordBitsConcat(ws[..i], ws[i..j] + ws[j..]);
    WordBitsConcat(ws[i..j], ws[j..]);
    SliceRight(before, run + after, 32 * i, 32 * j);
    SliceLeft(run, after, 0, |run|);
  }

  lemma {:induction false} WordBitsAt(ws: seq<Word>, i: nat)
    requires i < |ws|
    ensures WordBits(ws)[32 * i..32 * i + 32] == Bits(ws[i], 32)
  {
    hide WordBits, Bits;
    WordBitsSlice(ws, i, i + 1);
    assert ws[i..i + 1] == [ws[i]];
    WordBitsOne(ws[i]);
  }
}
